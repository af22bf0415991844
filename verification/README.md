# Verified models of six Slide components

This project models six pieces of the Slide repository in Dafny and proves what they are there for. Each
module follows one piece of the source; each method keeps the source's loops and updates and is proved
against a function or predicate, and the theorems are about that function, over every input or every run.

**The process tracker** (`scripts/qualification/serve-e2e-tracker.py`) starts the services of a qualification
run and has to list every process that descends from them.

- `Uleb` and `ExportTrie` are its embedded C code. They read ULEB128 numbers (section 7.6 of the DWARF 5
  standard) and walk a Mach-O export trie over raw bytes. `LaidOut` says when an image holds a well-formed
  trie and `Exports` which finite map that is; the walk finds exactly the entries of the map. On other bytes
  the walk may loop: `EmptyEdgeLoops` shows one, and `WalkReturnsIff` says exactly when it returns.
- `ProcessTree` is the depth-first search over parent links, and `PidFile` the file of pids.
- `ProcessTracker` is the process table on Linux as a state machine, with forks, exits, reparenting to the
  subreaper and reaping in any order. `TrackerService` is the tracker object; its methods are steps of that machine.
- `DarwinTracker` is the same for macOS, where nothing reparents to the tracker and the processes it creates
  write down their forks themselves.

**The token-budget journal** (`frontend/e2e/max174-provider.ts`) is a write-ahead journal that several processes
share under a lock file. `BudgetJournal` is its replay. `BudgetClients` is a machine of any number of requests
that interleave file operation by file operation, fail and crash anywhere, and `BudgetStrands` says which of these
steps leave a send open for good. `BudgetFetch` is one call of the replaced `fetch` as a method, interleaved with
the other clients and proved to be a run of that machine.

**The key rotation** (`scripts/recovery/rotate-lost-encryption-key.ts`): `CanonicalJson` and `JsonText` are the
canonical form behind the audit fingerprints and the text that is hashed, which a reader of JSON text reads back;
`EnvMerge` is the merge of the project's env file.

**The server** (`apps/db-ops-api/server.ts`): `CapacityTrend` is the query behind the capacity trend,
`CalendarDate` its date check and window, and `LeaderTerms` the gate that lets requests through only while a
leader term has working ticks, together with `worker-recovery.ts` and `worker-startup.ts`, which decide when
a term stops and when the next one may start.

**The transport check** (`scripts/qualification/check-tls-transport.py`): `WebSocketEcho` prints, parses, unmasks
and echoes frames (sections 5.2 and 5.3 of RFC 6455) over streams cut into segments of any sizes.

**The event throttle** (`frontend/src/platform-runtime.ts`): `EventThrottle`, for every trace and every clock.

`dafny verify dfyconfig.toml` checks the whole project.

## What the code does not do

Where the code does something other than one would expect, the model follows the code, a lemma gives the
input, and another says exactly when the expectation holds.

- `collect` is meant to list live processes. A zombie whose parent has not waited for it still answers the
  liveness probe and is listed (`ProcessTracker.ZombieIsCollected`), and so is a foreign process with the pid
  of a reaped service (`ProcessTracker.ReusedPidIsCollected`). `ProcessTracker.CollectedExactly` is the exact set.
- On macOS the child of a recorded orphan is missed until it is written down itself
  (`DarwinTracker.UnwrittenCanBeMissed`). `DarwinTracker.CollectedIs` is the exact set.
- A trie with an empty edge can make the walk loop (`ExportTrie.EmptyEdgeLoops`). `ExportTrie.WalkReturnsIff`
  and `ExportTrie.NonEmptyEdgesReturn` say when it returns.
- A send can stay open without a stop: not only when its client crashes or cannot record the send, but also when
  the request fails while the lock for its stop is taken (`BudgetStrands.GivingUpStrands`).
  `BudgetStrands.StrandedAfterStep` and `BudgetStrands.StrandedAfterRun` say exactly when, and
  `BudgetFetch.OutcomeAccounts` says it for one call; the open send keeps every later request out all the same.
- `status` remembers exits for ever, so a service that runs under a reused pid is reported as exited
  (`ProcessTracker.ReusedServiceLooksExited`). `ProcessTracker.StatusInEveryRun` is the exact answer.
- `status` cannot tell a service killed by signal 9 from one that exits with 137: codes from 129 to 254 stand for
  both (`ProcessTracker.CodeTells`).
- A fingerprint tells objects from objects, not objects from strings (`JsonText.ContentMixesKinds`).
  `JsonText.ContentIff` says of any two values whether they are hashed as the same text.
- The one-byte length works for payloads under 126 bytes and for no others (`WebSocketEcho.ExchangeIffShort`).

## Model

| member | source | states |
|---|---|---|
| `Uleb.ReadUleb` | scripts/qualification/serve-e2e-tracker.py:193-203 | on any bytes, the shift-or loop returns the base-128 sum modulo 2^64 of a terminated group and 0 for any other, moves the cursor to the end of what it took, and reads inside the image only |
| `Uleb.StepAdds` | scripts/qualification/serve-e2e-tracker.py:198 | one turn of the loop: or-ing the shifted low seven bits into a 64-bit accumulator adds them to the base-128 sum modulo 2^64, also where the tenth byte overflows |
| `Uleb.ShiftOrAdds` | scripts/qualification/serve-e2e-tracker.py:198 | the shift-or step on 64-bit words is addition modulo 2^64 whenever the accumulator is below the shifted bit |
| `Uleb.DecodesGroup` | scripts/qualification/serve-e2e-tracker.py:193-203 | a group of at most ten bytes ended by one below 128 decodes to its base-128 sum modulo 2^64 and is consumed exactly, wherever it lies |
| `Uleb.DecodesNothingElse` | scripts/qualification/serve-e2e-tracker.py:193-203 | if no group starts at the cursor the result is 0 and the cursor stops after ten bytes or at the end of the image |
| `Uleb.EncodeIsGroup` | scripts/qualification/serve-e2e-tracker.py:193-203 | the encoding of section 7.6 of the DWARF 5 standard has the shape the reader accepts, is no longer than needed, and sums to the number |
| `Uleb.ReadInvertsEncode` | scripts/qualification/serve-e2e-tracker.py:193-203 | for every number below 2^64 and any bytes before and after it, reading its encoding gives the number back and advances by exactly the encoding |
| `ExportTrie.MatchLength` | scripts/qualification/serve-e2e-tracker.py:232 | the comparing loop reaches the whole label exactly when the label is a prefix of the symbol |
| `ExportTrie.WalkTrie` | scripts/qualification/serve-e2e-tracker.py:205-238 | on any bytes on which the walk returns, the C function returns, for every well-formed trie that starts at the node, base plus exported address modulo 2^64 for each name of its map that is not a re-export and 0 for every other name; on bytes that hold no trie, what the one-step semantics arrives at; it reads inside the image only |
| `ExportTrie.WalkNode` | scripts/qualification/serve-e2e-tracker.py:205-238 | its body, with the loop over the edges and the recursion, returns the base plus what the one-step semantics arrives at |
| `ExportTrie.ReexportIsOneBit` | scripts/qualification/serve-e2e-tracker.py:218 | the re-export test looks at the bit of weight 8 alone |
| `ExportTrie.WalkReturnsIff` | scripts/qualification/serve-e2e-tracker.py:205-238 | on any bytes, well formed or not, the walk returns if and only if no call repeats, and if and only if it is over within image length times symbol suffixes calls |
| `ExportTrie.NonEmptyEdgesReturn` | scripts/qualification/serve-e2e-tracker.py:205-238 | if the nodes a walk visits have no empty edges it returns after at most one nested call per symbol byte, whatever the rest of the image holds |
| `ExportTrie.ClosedNodesReturn` | scripts/qualification/serve-e2e-tracker.py:205-238 | the same for any set of nodes with no empty edges that child offsets do not leave, which can be checked before the walk |
| `ExportTrie.LaidOutVisits` | scripts/qualification/serve-e2e-tracker.py:205-238 | a walk of any image that holds a well-formed trie visits only nodes without empty edges |
| `ExportTrie.EmptyEdgeLoops` | scripts/qualification/serve-e2e-tracker.py:223-236 | a four-byte image with an empty edge back to its root, on which looking up any non-empty symbol never returns |
| `ExportTrie.ScanPicks` | scripts/qualification/serve-e2e-tracker.py:223-236 | scanning laid-out edges descends into the first whose label is a prefix of what is left of the symbol, with the right rest, and returns nothing if there is none |
| `ExportTrie.StepAtNode` | scripts/qualification/serve-e2e-tracker.py:205-238 | what one call does at a laid-out node, in terms of the trie alone |
| `ExportTrie.ExportsBehindPick` | scripts/qualification/serve-e2e-tracker.py:223-236 | a non-empty name is in the map of a node exactly when its rest is in the map of the one child whose label starts it |
| `ExportTrie.ExportsAreAMap` | scripts/qualification/serve-e2e-tracker.py:205-238 | a laid-out trie gives a name at most one export, so it stands for a finite map |
| `ExportTrie.WalkFindsExports` | scripts/qualification/serve-e2e-tracker.py:205-238 | on every image that holds a well-formed trie the walk returns, with the mapped address for exactly the names of the map that are not re-exports and nothing for every other name |
| `ExportTrie.WalkAgrees` | scripts/qualification/serve-e2e-tracker.py:205-238 | the same for addresses: base plus address modulo 2^64 for exactly the names of the map that are not re-exports, 0 for every other |
| `ExportTrie.SampleIsLaidOut` | scripts/qualification/serve-e2e-tracker.py:205-238 | a concrete image of seventeen bytes holds a well-formed trie |
| `ExportTrie.SampleExports` | scripts/qualification/serve-e2e-tracker.py:205-238 | that trie stands for the map with one export and one re-export, so the theorems about laid-out tries are not empty |
| `ProcessTree.Invert` | scripts/qualification/serve-e2e-tracker.py:587-589 | the child table has exactly the parent links of the snapshot, in whatever order the snapshot is read |
| `ProcessTree.Push` | scripts/qualification/serve-e2e-tracker.py:594-598 | the inner loop marks exactly the children above 1 other than the node itself, and pushes exactly the newly marked ones |
| `ProcessTree.Descendants` | scripts/qualification/serve-e2e-tracker.py:586-599 | on every parent map, cyclic ones included, the search ends and returns exactly the pids above 1 reached from a root by one or more links that are not self-links |
| `ProcessTree.BelowSetLaws` | scripts/qualification/serve-e2e-tracker.py:586-599 | the result distributes over the union of roots, and searching again from the result adds nothing |
| `PidFile.ReadPids` | scripts/qualification/serve-e2e-tracker.py:574-584 | the loop over the lines returns exactly the numbers above 1 among the lines that are numbers |
| `PidFile.RecordsIff` | scripts/qualification/serve-e2e-tracker.py:581-583 | a pid is recorded if and only if it is above 1 and some line is not empty, holds only the digits 0 to 9 and has that value |
| `PidFile.NumberOfDecimal` | scripts/qualification/serve-e2e-tracker.py:582-583 | parsing the decimal text of a number gives the number back |
| `PidFile.RecordAppends` | scripts/qualification/serve-e2e-tracker.py:54-70 | appending the line of a pid above 1 to a file of whole lines records exactly that pid in addition, and leaves whole lines |
| `ProcessTracker.StepKeepsInv` | scripts/qualification/serve-e2e-tracker.py:547-572 | every spawn, fork, exit with reparenting, wait and reap keeps the shape of the process table and the agreement of the tracker's set with its file |
| `ProcessTracker.RunKeepsInv` | scripts/qualification/serve-e2e-tracker.py:547-572 | the same over whole runs; without reused pids, a service is a child of the tracker until it is reaped, and then its code is known |
| `ProcessTracker.OursIsBelowMe` | scripts/qualification/serve-e2e-tracker.py:421-427 | under the subreaper every process the tracker created, orphaned or not, is reached from the tracker by parent links |
| `ProcessTracker.FoundExactly` | scripts/qualification/serve-e2e-tracker.py:601-607 | what is put together before the liveness test is exactly the tracker's processes, and the foreign ones at or below a reused service pid |
| `ProcessTracker.CollectedExactly` | scripts/qualification/serve-e2e-tracker.py:601-608 | in every reachable state, pids reused or not, an if-and-only-if for membership in the result of collect |
| `ProcessTracker.CollectOverRuns` | scripts/qualification/serve-e2e-tracker.py:601-608 | in every run on Linux collect contains every running process the tracker created directly or transitively and may signal, never itself or pid 1; without reused pids nothing else but zombies of other parents |
| `ProcessTracker.ZombieIsCollected` | scripts/qualification/serve-e2e-tracker.py:624-629 | a run in which a process that has exited is listed, because its parent has not waited for it |
| `ProcessTracker.ReusedPidIsCollected` | scripts/qualification/serve-e2e-tracker.py:601-608 | a run in which a foreign process is listed, because it got the pid of a reaped service |
| `ProcessTracker.StatusOverRuns` | scripts/qualification/serve-e2e-tracker.py:610-621 | without reused pids a service is reported running exactly while its entry may be signalled, and missing exactly while it runs and may not, whatever happens while it is asked |
| `ProcessTracker.StatusCodeIsRight` | scripts/qualification/serve-e2e-tracker.py:610-621 | the exit code status reports is, in numbers, that of the wait word of the process's own last exit: the exit code, 128 plus the signal, or 1 |
| `ProcessTracker.DecodedCodes` | scripts/qualification/serve-e2e-tracker.py:632-637 | every exit code from 0 to 255 is reported as it is and every signal from 1 to 126 as 128 plus the signal, whether or not memory was dumped |
| `ProcessTracker.CodeTells` | scripts/qualification/serve-e2e-tracker.py:632-637 | which wait words give a code, for every code: other than 1, up to 128 only exits, from 129 to 254 exits and signals alike, at 255 only an exit |
| `ProcessTracker.StatusInEveryRun` | scripts/qualification/serve-e2e-tracker.py:610-621 | in every run, pids reused or not: running if and only if the entry may be signalled and the pid was never reaped before, missing if and only if neither holds to the end |
| `ProcessTracker.ReusedServiceLooksExited` | scripts/qualification/serve-e2e-tracker.py:572 | a run in which a running service is reported as exited, with the exit code of an earlier service with its pid or 128 plus its signal, because that one was reaped |
| `ProcessTracker.CollectAmongOthers` | scripts/qualification/serve-e2e-tracker.py:601-608 | with other processes running between reap, scan and probes: what is ours at the scan and alive at its probe is listed; what is listed was ours, taken for ours, or the pid of a service that was gone; without reused pids exactly the first |
| `TrackerService.Sorted` | scripts/qualification/serve-e2e-tracker.py:608 | the result is strictly ascending and has exactly the elements of the set |
| `TrackerService.Tracker.Spawn` | scripts/qualification/serve-e2e-tracker.py:547-562 | without a command nothing changes and an error results; otherwise the object makes exactly the spawn step of the machine |
| `TrackerService.Tracker.WaitPid` | scripts/qualification/serve-e2e-tracker.py:567 | the system call takes one exited child out of the table, or answers that there is none |
| `TrackerService.Tracker.Probe` | scripts/qualification/serve-e2e-tracker.py:608 | each pid is probed once, at a moment of its own, in any order |
| `TrackerService.Tracker.Reap` | scripts/qualification/serve-e2e-tracker.py:564-572 | the waiting loop ends and makes exactly the reap step: all exited children are gone and their codes kept, in whatever order they come |
| `TrackerService.Tracker.Collect` | scripts/qualification/serve-e2e-tracker.py:601-608 | while other processes take any steps before the file is read, before the scan and before every probe: the result is ascending and is exactly what was found at the scan and alive at its own probe; undisturbed, exactly the set the theorems about collect speak of |
| `TrackerService.Tracker.Status` | scripts/qualification/serve-e2e-tracker.py:610-621 | the method answers as specified while other processes take any steps between its reap and its probe |
| `DarwinTracker.StepKeepsInv` | scripts/qualification/serve-e2e-tracker.py:319-363 | on macOS every step, with a fork and the line about it as two steps, keeps every process of the tracker written down, about to be, or lost with its creator |
| `DarwinTracker.CollectedIs` | scripts/qualification/serve-e2e-tracker.py:601-608 | in every reachable state collect returns exactly the signalable processes of the tracker, running or zombies of others, that are written down or still linked to it |
| `DarwinTracker.CollectedOverRuns` | scripts/qualification/serve-e2e-tracker.py:601-608 | the same at the end of any run without reused pids |
| `DarwinTracker.OnlyUnwrittenAreMissed` | scripts/qualification/serve-e2e-tracker.py:319-363 | a running, signalable process of the tracker can be missed only while its line is unwritten or lost |
| `DarwinTracker.UnwrittenCanBeMissed` | scripts/qualification/serve-e2e-tracker.py:601-607 | a run without a lost line in which the unwritten child of a recorded orphan is missed, because the search starts from services only |
| `BudgetJournal.BudgetState` | frontend/e2e/max174-provider.ts:28-51 | the loop over the entries is the fold, on every journal: the same state or the same first failure |
| `BudgetJournal.HeaderIsFixed` | frontend/e2e/max174-provider.ts:30-31 | the header check passes if and only if the journal starts with the header of this very batch: its authorization and the limit of ten million |
| `BudgetJournal.CountsInNumbers` | frontend/e2e/max174-provider.ts:39-40 | a receipt's counts pass if and only if all three are whole numbers from 0 to 2^53 - 1 and the cached tokens are at most the input tokens |
| `BudgetJournal.PhaseInNumbers` | frontend/e2e/max174-provider.ts:46-50 | the phases begin at five, eight and ten million tokens, and the remaining tokens are ten million less totals and reservation, never below 0 |
| `BudgetJournal.ReplayConcat` | frontend/e2e/max174-provider.ts:33-45 | replaying two parts in a row is replaying the second from where the first ended |
| `BudgetJournal.PrefixReplays` | frontend/e2e/max174-provider.ts:33-45 | every prefix of a journal that replays, replays |
| `BudgetJournal.CheckpointsErase` | frontend/e2e/max174-provider.ts:44 | erasing all checkpoints never changes the outcome of a replay, failing ones included |
| `BudgetJournal.ReplayOnlyGrows` | frontend/e2e/max174-provider.ts:46-50 | more entries never lower the requests, the totals or the phase, never take back a stop, and add no request behind one |
| `BudgetJournal.ReplayAccepts` | frontend/e2e/max174-provider.ts:33-45 | a replay succeeds if and only if every entry fits those before it: sends numbered without gaps, one open at a time and none after a stop, each receipt for the open send; the state is the counts and sums over the entries |
| `BudgetClients.WriteBudget` | frontend/e2e/max174-provider.ts:101-135 | what each step of any client does to the replayed state |
| `BudgetClients.OthersKeepStage` | frontend/e2e/max174-provider.ts:24-27 | a client that does not move keeps what it relies on: the lock file excludes the steps that would take it away |
| `BudgetClients.StepKeepsInv` | frontend/e2e/max174-provider.ts:96-135 | every file operation, error and crash of any client keeps the invariant on journal, lock and stages |
| `BudgetClients.RunKeepsInv` | frontend/e2e/max174-provider.ts:96-135 | the same over whole runs of any number of clients |
| `BudgetClients.LimitHoldsInEveryRun` | frontend/e2e/max174-provider.ts:46-49 | in every run totals plus reservation stay within the limit, remaining plus totals plus reservation is the limit, so the clamp never acts, and every prefix of the journal replays |
| `BudgetClients.ReceiptCheckNeverFails` | frontend/e2e/max174-provider.ts:121 | the comparison of the open send under the lock before a receipt holds in every run |
| `BudgetClients.OneRequestAtATime` | frontend/e2e/max174-provider.ts:101-121 | no two clients are ever between their send and their receipt, and the one that is owns the open send |
| `BudgetClients.SendsFailClosed` | frontend/e2e/max174-provider.ts:103 | a step that appends a send finds nothing open and no stop |
| `BudgetClients.ClosedForEver` | frontend/e2e/max174-provider.ts:127-131 | once stopped, or open with nobody left to settle, the batch stays so under any continuation, and the number of requests never changes again |
| `BudgetClients.NoSendAfterClosing` | frontend/e2e/max174-provider.ts:103 | the same from any start and over any run: no continuation of a closed batch adds a send, and a stop stays |
| `BudgetClients.ReceiptAfterStop` | frontend/e2e/max174-provider.ts:121-131 | one client's stop between another's send and receipt: the receipt is still accepted, and the batch ends stopped with nothing open |
| `BudgetClients.AwkwardRunExists` | frontend/e2e/max174-provider.ts:96-131 | from a journal with only its header, a run of two clients that ends with exactly that interleaving |
| `BudgetStrands.StepKeepsFull` | frontend/e2e/max174-provider.ts:101-131 | every step of any client keeps send numbers unique to their clients, and what is settled closed |
| `BudgetStrands.StrandedAfterStep` | frontend/e2e/max174-provider.ts:101-131 | a step leaves an open send without a stop and without a client to answer for it if and only if it is a crash of the answering client, a stop given up because the lock is taken, or an error under the lock behind the send or before the stop; or it was so before and the step writes no stop |
| `BudgetStrands.StrandedAfterRun` | frontend/e2e/max174-provider.ts:101-131 | the same over whole runs: the batch ends so if and only if some step is of that kind and no stop is written later |
| `BudgetStrands.StrandedIsClosed` | frontend/e2e/max174-provider.ts:103 | such a batch is closed to every later request |
| `BudgetStrands.GivingUpStrands` | frontend/e2e/max174-provider.ts:129 | a run from the header alone, without a crash or an error under the lock, that ends so |
| `BudgetFetch.OutcomeAccounts` | frontend/e2e/max174-provider.ts:101-131 | a call accounts for what it sends, and leaves its send open without a stop if and only if its send action fails behind the append, or neither a receipt nor a stop is written, because a lock is taken or an append fails |
| `BudgetFetch.ReplyMatchesOutcome` | frontend/e2e/max174-provider.ts:101-131 | the caller gets an answer only for a journalled receipt and no stop, and one of the errors of the catch block only for a journalled stop |
| `BudgetFetch.ReplyCases` | frontend/e2e/max174-provider.ts:101-132 | for each error of a call, and for the answer, the exact case in which the caller gets it, in bytes, tokens and faults |
| `BudgetFetch.OutcomeCases` | frontend/e2e/max174-provider.ts:101-131 | which entries a call appends in which case: the send with body bytes plus 1024 and the token ceiling as its bounds, then a receipt, a stop, both or neither |
| `BudgetFetch.AloneInNumbers` | frontend/e2e/max174-provider.ts:101-121 | alone and without faults, on a journal with room, a call appends its send and is answered with a receipt if and only if the response holds three safe counts with cached at most input, input at most body bytes plus 1024 and output at most the ceiling, and with a stop otherwise |
| `BudgetFetch.Batch.Reserve` | frontend/e2e/max174-provider.ts:101-108 | the first locked action appends exactly the next send or nothing, with the right error, wherever it fails |
| `BudgetFetch.Batch.Commit` | frontend/e2e/max174-provider.ts:24-27 | the append and the release of each locked action, failing before or after the append, with the lock file removed or left |
| `BudgetFetch.Batch.Confirm` | frontend/e2e/max174-provider.ts:121 | the comparison under the second lock succeeds exactly when the open send is still this one, and in every reachable state it does |
| `BudgetFetch.Batch.Settle` | frontend/e2e/max174-provider.ts:121 | the receipt is appended exactly when the lock is free, the open send is this one and the append works; otherwise the call goes to its catch block |
| `BudgetFetch.Batch.Halt` | frontend/e2e/max174-provider.ts:127-131 | the stop is appended exactly when the lock is free and the append works; the call ends either way |
| `BudgetFetch.Batch.Fetch` | frontend/e2e/max174-provider.ts:96-132 | the whole call, with other clients taking any steps between its operations and any of its locked actions failing: what it appends and answers, for every journal, body, ceiling and response, given what it finds at its later locks; alone, only its own lock file can be in its way; alone and without faults it succeeds exactly for a response within body bytes plus 1024 input tokens and the ceiling of output tokens |
| `CanonicalJson.SortSorts` | scripts/recovery/rotate-lost-encryption-key.ts:83 | the sort gives the same members in strictly ascending key order |
| `CanonicalJson.OrderedShape` | scripts/recovery/rotate-lost-encryption-key.ts:83-84 | a canonical object has its index keys first, in ascending order of their numbers, and then all other keys in ascending order of their code units |
| `CanonicalJson.IsIndexIff` | scripts/recovery/rotate-lost-encryption-key.ts:83 | the index keys are exactly the decimal texts, without leading zeros, of the numbers below 4294967295 |
| `CanonicalJson.HexAt` | scripts/recovery/rotate-lost-encryption-key.ts:80 | the hex text of a buffer has two lower-case digits a byte, the high half first |
| `CanonicalJson.OrderedUnique` | scripts/recovery/rotate-lost-encryption-key.ts:83-84 | the member order of a canonical object depends on the set of members only, index keys first as JavaScript objects keep them |
| `CanonicalJson.SameIsStable` | scripts/recovery/rotate-lost-encryption-key.ts:79-87 | values equal up to member order at every depth have the same canonical form |
| `CanonicalJson.StableIsSame` | scripts/recovery/rotate-lost-encryption-key.ts:79-87 | values with the same canonical form are equal up to member order at every depth |
| `CanonicalJson.StableIffSame` | scripts/recovery/rotate-lost-encryption-key.ts:79-87 | canonical forms are equal if and only if the values are equal up to member order at every depth |
| `CanonicalJson.StableKeepsValue` | scripts/recovery/rotate-lost-encryption-key.ts:79-87 | the canonical form is the same value up to member order, a buffer counting as its hex text |
| `CanonicalJson.StableIsIdempotent` | scripts/recovery/rotate-lost-encryption-key.ts:79-87 | canonicalising twice is canonicalising once |
| `JsonText.QuoteUnique` | scripts/recovery/rotate-lost-encryption-key.ts:91 | a quoted string, with its escapes and lone surrogates, can be read in one way only |
| `JsonText.PrintUnique` | scripts/recovery/rotate-lost-encryption-key.ts:91 | a printed value followed by a separator, a closing bracket or nothing can be read in one way only |
| `JsonText.TokenCases` | scripts/recovery/rotate-lost-encryption-key.ts:91 | which code units of a string are printed as themselves, with a short escape, and as four lower-case hexadecimal digits, which lone surrogates and the other units below 32 are |
| `JsonText.ReadsQuote` | scripts/recovery/rotate-lost-encryption-key.ts:91 | a reader of JSON strings (section 7 of RFC 8259) gets every quoted string back, whatever follows it |
| `JsonText.ReadInvertsPrint` | scripts/recovery/rotate-lost-encryption-key.ts:91 | a reader of JSON texts (sections 3 to 7 of RFC 8259) gets every printed value back, and the text behind it, if nothing, a separator or a closing bracket follows |
| `JsonText.ContentReads` | scripts/recovery/rotate-lost-encryption-key.ts:91 | the hashed text of an object or array is JSON text of its canonical form |
| `JsonText.ContentIffSame` | scripts/recovery/rotate-lost-encryption-key.ts:89-94 | for objects and arrays the hashed texts are equal if and only if the values are equal up to key order at every depth |
| `JsonText.ContentIff` | scripts/recovery/rotate-lost-encryption-key.ts:89-94 | for all values the hashed texts are equal if and only if the two are containers equal up to key order, a container and the string of its text, or leaves that print alike, case by case |
| `JsonText.ContentMixesKinds` | scripts/recovery/rotate-lost-encryption-key.ts:90-92 | between kinds that fails: an empty object and a two-character string are hashed as the same text |
| `EnvMerge.ProjectEnvAssignments` | scripts/recovery/rotate-lost-encryption-key.ts:67-77 | the loop returns each key that some line key=value defines and that is neither in the environment nor one of the two authorising keys, with the value of the first such line, and no other key |
| `EnvMerge.MatchIff` | scripts/recovery/rotate-lost-encryption-key.ts:70-74 | a line matches with a key and a value if and only if it is the key, an equals sign and the value, the key is not empty and made of A to Z, 0 to 9 and underscores, and the value holds no line end |
| `EnvMerge.FirstValueIff` | scripts/recovery/rotate-lost-encryption-key.ts:70-74 | the value looked up for a key is that of the first line that defines it, and there is none if no line does |
| `EnvMerge.MergeTakesFirst` | scripts/recovery/rotate-lost-encryption-key.ts:67-77 | the reference of the merge in terms of such lines alone, with the two authorising keys by name |
| `EnvMerge.MergeUnique` | scripts/recovery/rotate-lost-encryption-key.ts:67-77 | that describes the result completely |
| `EnvMerge.SplitJoins` | scripts/recovery/rotate-lost-encryption-key.ts:69 | a text is split at every line end, a carriage return in front of a newline belonging to it |
| `EnvMerge.SplitWhole` | scripts/recovery/rotate-lost-encryption-key.ts:69 | a text without a line end is one line |
| `EnvMerge.LinesCompose` | scripts/recovery/rotate-lost-encryption-key.ts:67-77 | merging two lists of lines in one go is merging the first, taking its result into the environment, and merging the second; no key comes from both |
| `EnvMerge.MergeComposes` | scripts/recovery/rotate-lost-encryption-key.ts:67-77 | the same for a file cut at any of its line ends |
| `EnvMerge.SecondPassIsEmpty` | scripts/recovery/rotate-lost-encryption-key.ts:67-77 | reading the same file again adds nothing, and the authorising keys never come from it |
| `CapacityTrend.AheadIsZero` | apps/db-ops-api/server.ts:2540 | row number one means that no row of the partition is later, by time and then by id |
| `CapacityTrend.KeptOfHour` | apps/db-ops-api/server.ts:2537-2544 | the rows aggregated for an hour are exactly the latest samples of each instance of the scope in that hour |
| `CapacityTrend.TrendIsExact` | apps/db-ops-api/server.ts:2521-2546 | for every table with distinct ids an hour is listed if and only if a sample in scope and window falls in it, and its bucket is the sum, the number of instances and the latest moment of those latest samples, each instance counted once |
| `CapacityTrend.HoursInNumbers` | apps/db-ops-api/server.ts:2521-2546 | an hour is listed if and only if a sample of an instance in scope, inside the window, lies in its 3600 seconds |
| `CapacityTrend.LatestInNumbers` | apps/db-ops-api/server.ts:2537-2544 | a sample is summed up in an hour if and only if it is one of those and no other of its instance is later, by seconds and then by id |
| `CapacityTrend.TrendIgnoresOrder` | apps/db-ops-api/server.ts:2534-2546 | the result does not depend on the order of the rows |
| `CapacityTrend.TrendAdds` | apps/db-ops-api/server.ts:2521-2546 | buckets of disjoint scopes add up hour by hour: sums, counts, and the later of the two latest moments |
| `CapacityTrend.OneInstanceCountsOne` | apps/db-ops-api/server.ts:2578 | for a single instance the query's own count is one in every listed hour, which is what the response writes without it |
| `CalendarDate.CivilOfInverts` | apps/db-ops-api/server.ts:2501 | counting days from 1970, forwards and backwards, agrees with the closed day-number formula of section 21.4.1 of ECMA-262 on every day |
| `CalendarDate.DayNumberGrows` | apps/db-ops-api/server.ts:2501-2502 | the order of real dates is the order of their day numbers, and a day number belongs to one real date |
| `CalendarDate.MonthTable` | apps/db-ops-api/server.ts:2501 | the days before each month of a year are those of the table of section 21.4.1 of ECMA-262, with the leap day from March on |
| `CalendarDate.ValidDateIffReal` | apps/db-ops-api/server.ts:2501 | whatever an engine answers for impossible dates, exactly the real Gregorian dates written YYYY-MM-DD are accepted |
| `CalendarDate.AcceptedTexts` | apps/db-ops-api/server.ts:2501 | the accepted texts are those of the real dates of the years 0 to 9999 in four, two and two digits with hyphens, all of them and no others |
| `CalendarDate.DatesHaveShape` | apps/db-ops-api/server.ts:2501 | every such date is written in the accepted shape and read back from it |
| `CalendarDate.TextOrderIsDateOrder` | apps/db-ops-api/server.ts:2502 | comparing two such texts as strings is comparing the dates |
| `TextOrder.LessIff` | apps/db-ops-api/server.ts:2502 | strings compare as in a dictionary: a proper prefix comes first, and otherwise the first difference decides |
| `CalendarDate.AcceptedRangeIff` | apps/db-ops-api/server.ts:2502-2504 | a range is accepted if and only if both dates are real, in calendar order, and the last has begun |
| `CalendarDate.WindowIsWholeDays` | apps/db-ops-api/server.ts:2501-2515 | the window built from two accepted texts holds a moment if and only if the moment's date is neither before the first nor after the second |
| `LeaderTerms.StepKeepsInv` | apps/db-ops-api/src/lifecycle/worker-recovery.ts:89-125 | every step of any term keeps the invariant on terms, ticks, gate and drain |
| `LeaderTerms.RunKeepsInv` | apps/db-ops-api/src/lifecycle/worker-recovery.ts:89-125 | the same over whole runs of any number of terms |
| `LeaderTerms.GateOpensOnlyInRunningTerm` | apps/db-ops-api/server.ts:458-462 | in every run a request is let through only while the current term owns the lease, has not been told to stop, has started its workers and has had a good tick since, with no drain asked for and all earlier terms drained |
| `LeaderTerms.OldTicksNeverOpen` | apps/db-ops-api/server.ts:5356-5359 | in every run only a good tick of the current term, not told to stop, sets the flag |
| `LeaderTerms.DrainsOnce` | apps/db-ops-api/server.ts:318-336 | from the start of a term's workers to the next start the drain is started at most once, never before the term is told to stop, and exactly once by the time it is closed |
| `LeaderTerms.ShutUntilNextGoodTick` | apps/db-ops-api/server.ts:458-462 | once a term has been told to stop, any run that ends with the gate open contains a good tick of a later term |
| `LeaderTerms.StoppedTermStaysShut` | apps/db-ops-api/src/lifecycle/worker-startup.ts:93-109 | the same for whole runs from the start |
| `LeaderTerms.TicksDecide` | apps/db-ops-api/server.ts:5356-5359 | a failing tick of any term shuts the gate, a good one of a term not told to stop sets the flag, and one that was running already or cancelled changes nothing |
| `LeaderTerms.FailedTickShuts` | apps/db-ops-api/server.ts:5356-5359 | over whole runs, after a failing tick of any term every continuation that ends with the gate open contains a later good tick of the term current by then, not told to stop |
| `LeaderTerms.ReopenedBy` | apps/db-ops-api/server.ts:5356-5359 | the same from any state with the flag down |
| `LeaderTerms.UnpublishedIsShut` | apps/db-ops-api/src/lifecycle/worker-recovery.ts:28 | while recovery has not published readiness, no run without its publishing opens the gate |
| `LeaderTerms.GateCanOpen` | apps/db-ops-api/src/lifecycle/worker-startup.ts:25-41 | a run from the start that opens the gate, so the statements about it are not empty |
| `LeaderTerms.Server.StopWorkers` | apps/db-ops-api/server.ts:318-322 | the body runs for the first caller only, and is the close step of the machine |
| `LeaderTerms.Server.BeginWorkers` | apps/db-ops-api/server.ts:5234-5239 | the reset is the start step of the machine, and a failed initialisation resets nothing |
| `LeaderTerms.Server.TickReturns` | apps/db-ops-api/server.ts:5357-5358 | the continuation of a tick is its step of the machine, given the signal of the term it was started in |
| `LeaderTerms.Server.TickThrows` | apps/db-ops-api/server.ts:5359 | a failing tick of any term takes the flag away, which is its step of the machine |
| `LeaderTerms.Server.RequireWorker` | apps/db-ops-api/server.ts:458-462 | a request is let through if and only if recovery is ready, the flag is set and the lease check passes; then the gate of the machine is open, and with the lease an open gate lets it through; every refusal is 503 |
| `WebSocketEcho.Stream.Recv` | scripts/qualification/check-tls-transport.py:40-42 | a read returns at most the limit, nothing only at the end, and loses no byte |
| `WebSocketEcho.Stream.ReadExact` | scripts/qualification/check-tls-transport.py:37-44 | the next bytes exactly, whatever the segments, or an error when the stream ends before |
| `WebSocketEcho.Stream.Read` | scripts/qualification/check-tls-transport.py:66-68 | a buffered read returns as many of the bytes asked for as there are |
| `WebSocketEcho.ReadFrame` | scripts/qualification/check-tls-transport.py:66-69 | one turn of the server parses exactly the next frame, whatever the segments, with the behaviour on cut-off frames |
| `WebSocketEcho.Serve` | scripts/qualification/check-tls-transport.py:65-70 | the server's loop sends exactly what the specification of serving that many frames gives |
| `WebSocketEcho.Check` | scripts/qualification/check-tls-transport.py:147-152 | the client's loop passes exactly when the stream starts with the echoes, and leaves the rest |
| `WebSocketEcho.ParseInvertsFrame` | scripts/qualification/check-tls-transport.py:150 | a masked frame with anything behind it is parsed back to its payload, and nothing more is taken |
| `WebSocketEcho.ServedFrames` | scripts/qualification/check-tls-transport.py:65-70 | serving a sequence of frames under any masks sends the echoes of the payloads, in order |
| `WebSocketEcho.Session` | scripts/qualification/check-tls-transport.py:147-152 | over any segmentation of both directions every frame is answered, every comparison holds and no byte is left over |
| `WebSocketEcho.ExchangeIffShort` | scripts/qualification/check-tls-transport.py:67-70 | an exchange works if and only if the payload is shorter than 126 bytes |
| `WebSocketEcho.FrameInBytes` | scripts/qualification/check-tls-transport.py:150 | the bytes of a frame: 0x81, the length with the mask bit, the mask, and each payload byte masked with byte i mod 4; and those of an echo |
| `Bytes.XorTwice` | scripts/qualification/check-tls-transport.py:69 | masking twice with the same byte gives the byte back |
| `Bytes.XorAt` | scripts/qualification/check-tls-transport.py:69 | a bit of the masked byte is set if and only if it differs in the byte and the mask |
| `EventThrottle.Observation.Report` | frontend/src/platform-runtime.ts:4-11 | one event updates the remembered times and the sends as the specification says |
| `EventThrottle.Observation.Observe` | frontend/src/platform-runtime.ts:4-18 | a whole trace of events does |
| `EventThrottle.SendsAreSpaced` | frontend/src/platform-runtime.ts:5-8 | in every trace, with any clock, each send of a type is at least a minute after the one before, and the remembered time is that of the last |
| `EventThrottle.SpanHoldsFew` | frontend/src/platform-runtime.ts:7 | any interval of clock time holds at most one send of a type more than its whole minutes |
| `EventThrottle.TypesAreIndependent` | frontend/src/platform-runtime.ts:5-8 | events of other types and unauthenticated events leave the sends of a type unchanged |
| `EventThrottle.FirstIsSent` | frontend/src/platform-runtime.ts:7 | the first authenticated event of a type is always sent |
| `EventThrottle.SentIff` | frontend/src/platform-runtime.ts:5-8 | after every trace an authenticated event is sent if and only if it is the first of its type or at least 60000 milliseconds after the last send of its type |

## Left out

The tracker:

- ExportTrie.WalkTrie: does not model pointer arithmetic that wraps around the address space, because offsets are unbounded here; a terminal size near 2^64 runs past the end of the image.
- Mach-O load commands, image lookup, pointer signing, interposing and the rewriting of shells and shebangs are foreign-system details; the model starts at the trie's bytes.
- TrackerService.Tracker.Collect: takes the scan of `/proc` as one moment, because its reading is not modelled; the reap, the file, the scan and every probe are moments of their own.
- DarwinTracker.CollectedIs: compares the whole answer with one process table.
- ProcessTracker.CollectOverRuns: assumes that no process of the tracker makes itself a subreaper, traces another, or forks a child on its parent's behalf, none of which the tracker can undo.
- PidFile.ReadPids: treats newline as the only line end and 0 to 9 as the only digits, because nothing else is written to the file.
- The child's `chdir` and `exec`, the control socket and its JSON requests, and the parsing of `/proc` and `ps` output.
- DarwinTracker.StepKeepsInv: takes a line as written whole in one append, and a process that cannot write its line as losing it.

The journal:

- BudgetJournal.BudgetState: does not model text that is not JSON or torn lines, because an append is one step; token sums are unbounded, and the fractions of the limit are whole comparisons, which agree as long as sums stay below 2^53.
- BudgetFetch.Batch.Fetch: does not model that removing the lock file fails after a check under the lock has failed; the machine of clients does.
- BudgetClients.StepKeepsInv: treats `sync` as an atomic append and `lock` as exclusive creation, and does not say what durable storage does.
- The start-up of `configuredProvider`, which reads the journal under the lock and writes nothing, the checks on method, model, secrets and streaming, the transport record's contents, the reason text of a stop, and the request hash.

The key rotation:

- CanonicalJson.StableIffSame: leaves out dates, undefined, functions, NaN and other values that JSON text does not have, and takes a number as the text that prints it.
- JsonText.ReadInvertsPrint: takes any text of number characters that starts with a digit or a minus sign as a number, and has no spaces between parts, which printing never writes.
- JsonText.ContentIffSame: speaks of the hashed text; SHA-256 is not modelled.
- EnvMerge.ProjectEnvAssignments: works on characters, and a variable that is undefined is one that is absent.
- The rotation itself, its confirmation, audit file and database work.

The server:

- CapacityTrend.TrendIsExact: gives the result as a map by hour, without the order of rows; sizes are whole units, and moments whole seconds in one time zone.
- CalendarDate.AcceptedRangeIff: takes the engine's answer for impossible dates, and the present moment, as parameters.
- The parsing of instance ids, access checks, the current total, and the other routes.
- LeaderTerms.RunKeepsInv: does not model the individual services that are drained, the SQL of the lease, the retry delays, or that a term ever comes to lead.

The transport check and the throttle:

- The handshake, TLS, the proxy and the socket time-outs of the transport check.
- EventThrottle.Observation.Report: does not model the build id's pattern, the discarded failure of a send, or the removal of listeners.
