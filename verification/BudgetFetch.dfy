/**
 The replaced `client.fetch` as one client executes it, one file operation at a time. Between any two of
 its operations the other clients of the shared system take any steps they can, and each of its three
 locked actions may fail before or after its append. The whole call is a run of the shared system.
 */
module BudgetFetch {
  import opened Wrappers
  import opened BudgetJournal
  import opened BudgetClients

  /** What comes back: a parsed body with its usage, or any error on the way. */
  datatype Response = Answer(usage: Usage) | HttpError(status: nat) | Broken

  /** What happens under a lock: nothing, or an error before or after the append, that may leave the lock file. */
  datatype Fault = Works | Breaks(written: bool, removed: bool)

  /** The faults of one call: of its three locked actions, and of the reports after the receipt and the stop. */
  datatype Faults = Faults(send: Fault, settle: Fault, stop: Fault, report: bool, stopReport: bool)

  /** What the call finds: the lock free for the receipt, the open send still its own, the lock free for the stop. */
  datatype Found = Found(settleFree: bool, matches: bool, stopFree: bool)

  /** The errors a caller sees. */
  datatype Refusal =
    | OutputCeilingInvalid | LockTaken | JournalInvalid | HistoryRequiresDiagnosis | BatchLimitReached
    | SendFailed | ProviderHttp(status: nat) | Uncertain | StopFailed | ReportFailed

  predicate Appends(fault: Fault) {
    fault.Works? || fault.written
  }

  predicate Acceptable(response: Response, r: Reservation) {
    response.Answer? && UsageFits(response.usage, r)
  }

  predicate ReceiptWritten(r: Reservation, response: Response, faults: Faults, found: Found) {
    Acceptable(response, r) && found.settleFree && found.matches && Appends(faults.settle)
  }

  /** The call gets through to its answer; any other one that has sent ends in the catch block. */
  predicate Succeeds(r: Reservation, response: Response, faults: Faults, found: Found) {
    ReceiptWritten(r, response, faults, found) && faults.settle.Works? && !faults.report
  }

  predicate StopWritten(r: Reservation, response: Response, faults: Faults, found: Found) {
    !Succeeds(r, response, faults, found) && found.stopFree && Appends(faults.stop)
  }

  function NextSend(b: Budget, bodyBytes: nat, maxTokens: nat): Reservation {
    Reservation(b.requests + 1, bodyBytes + 1024, maxTokens)
  }

  function Receipts(r: Reservation, response: Response, faults: Faults, found: Found): seq<Entry> {
    if ReceiptWritten(r, response, faults, found) then [Receipt(r.sequence, response.usage)] else []
  }

  /** What a call appends after its send. */
  function Delivered(r: Reservation, response: Response, faults: Faults, found: Found): seq<Entry> {
    Receipts(r, response, faults, found) + (if StopWritten(r, response, faults, found) then [Stop(r.sequence)] else [])
  }

  /** What its caller gets. */
  function Ending(r: Reservation, response: Response, faults: Faults, found: Found): Result<Usage, Refusal> {
    if Succeeds(r, response, faults, found) then Ok(response.usage)
    else if !found.stopFree || faults.stop.Breaks? then Err(StopFailed)
    else if faults.stopReport then Err(ReportFailed)
    else if response.HttpError? then Err(ProviderHttp(response.status))
    else Err(Uncertain)
  }

  /** What a call that has taken the lock appends to the journal. */
  function Outcome(b: Budget, bodyBytes: nat, maxTokens: nat, response: Response, faults: Faults, found: Found): seq<Entry> {
    var r := NextSend(b, bodyBytes, maxTokens);
    if !MayReserve(b, bodyBytes + 1024, maxTokens) || !Appends(faults.send) then []
    else if faults.send.Breaks? then [Send(r)]
    else [Send(r)] + Delivered(r, response, faults, found)
  }

  /** Why the checks before a send refuse. */
  function Refused(before: Result<Budget, Failure>): Refusal {
    if before.Err? then JournalInvalid
    else if before.value.pending.Some? || before.value.stopped then HistoryRequiresDiagnosis
    else BatchLimitReached
  }

  /** What the caller gets for it. */
  function Reply(before: Result<Budget, Failure>, bodyBytes: nat, maxTokens: nat, response: Response,
                 faults: Faults, found: Found): Result<Usage, Refusal>
  {
    if before.Err? || !MayReserve(before.value, bodyBytes + 1024, maxTokens) then Err(Refused(before))
    else if faults.send.Breaks? then Err(SendFailed)
    else Ending(NextSend(before.value, bodyBytes, maxTokens), response, faults, found)
  }

  /**
   What a call does to a batch within the limit when nobody else appends: the batch still replays within
   the limit, a written receipt is accounted, and a send is left open without a stop exactly when its own
   action fails behind the append, or when there is neither a receipt nor a stop, because the lock was
   taken or an append failed.
   */
  lemma OutcomeAccounts(journal: seq<Entry>, bodyBytes: nat, maxTokens: nat, response: Response,
                        faults: Faults, found: Found)
    requires BudgetOf(journal).Ok? && WithinLimit(BudgetOf(journal).value)
    ensures var b := BudgetOf(journal).value;
            var r := NextSend(b, bodyBytes, maxTokens);
            var added := Outcome(b, bodyBytes, maxTokens, response, faults, found);
            var after := BudgetOf(journal + added);
            && after.Ok? && WithinLimit(after.value)
            && (added != [] ==>
                 && after.value.requests == b.requests + 1
                 && (after.value.pending.Some? && !after.value.stopped <==>
                      || faults.send.Breaks?
                      || !( || ReceiptWritten(r, response, faults, found)
                            || (found.stopFree && Appends(faults.stop))))
                 && (after.value.pending.None? ==>
                      response.Answer? && UsageCounts(response.usage) && TotalTokens(after.value) ==
                      TotalTokens(b) + response.usage.inputTokens.n + response.usage.outputTokens.n))
  {
    var b := BudgetOf(journal).value;
    var r := NextSend(b, bodyBytes, maxTokens);
    var added := Outcome(b, bodyBytes, maxTokens, response, faults, found);
    if added == [] {
      assert journal + added == journal;
    } else {
      BudgetAppend(journal, Send(r));
      var sent := journal + [Send(r)];
      if |added| > 1 {
        BudgetAppend(sent, added[1]);
        var settled := sent + [added[1]];
        if |added| == 2 {
          assert journal + added == settled;
        } else {
          BudgetAppend(settled, added[2]);
          assert journal + added == settled + [added[2]];
        }
      } else {
        assert journal + added == sent;
      }
    }
  }

  /** The caller gets an answer exactly when the call leaves a receipt and no failed report; after a stop never. */
  lemma ReplyMatchesOutcome(b: Budget, bodyBytes: nat, maxTokens: nat, response: Response, faults: Faults, found: Found)
    ensures var added := Outcome(b, bodyBytes, maxTokens, response, faults, found);
            var reply := Reply(Ok(b), bodyBytes, maxTokens, response, faults, found);
            && (reply.Ok? ==> added == [Send(NextSend(b, bodyBytes, maxTokens)), Receipt(b.requests + 1, reply.value)])
            && ((exists e :: e in added && e.Stop?) ==> reply.Err?)
            && (reply.Err? && (reply.error.ProviderHttp? || reply.error.Uncertain? || reply.error.ReportFailed?) ==>
                 added != [] && added[|added| - 1] == Stop(b.requests + 1))
  {
    assert NextSend(b, bodyBytes, maxTokens).sequence == b.requests + 1;
    hide MayReserve, UsageFits;
  }

  // The same in plain numbers

  const NO_FAULTS := Faults(Works, Works, Works, false, false)

  /** Nothing is open or stopped, and the request fits into the ten million tokens of the batch. */
  predicate RoomFor(b: Budget, bodyBytes: nat, maxTokens: nat) {
    b.pending.None? && !b.stopped && b.inputTokens + b.outputTokens + bodyBytes + 1024 + maxTokens <= 10_000_000
  }

  /** Three safe counts: no more cached tokens than input tokens, and both kinds within what was asked for. */
  predicate WithinRequest(response: Response, bodyBytes: nat, maxTokens: nat) {
    match response
    case Answer(Usage(Whole(input), Whole(output), Whole(cached))) =>
      && 0 <= cached <= input <= bodyBytes + 1024 && input <= 9007199254740991
      && 0 <= output <= maxTokens && output <= 9007199254740991
    case _ => false
  }

  /** Which answer belongs to which case. */
  lemma ReplyCases(before: Result<Budget, Failure>, bodyBytes: nat, maxTokens: nat, response: Response,
                   faults: Faults, found: Found)
    ensures var reply := Reply(before, bodyBytes, maxTokens, response, faults, found);
            var room := before.Ok? && RoomFor(before.value, bodyBytes, maxTokens);
            var sent := room && faults.send == Works;
            var settles := WithinRequest(response, bodyBytes, maxTokens) && found.settleFree && found.matches &&
                           faults.settle == Works && !faults.report;
            var stops := sent && !settles && found.stopFree && faults.stop == Works;
            && (reply == Err(JournalInvalid) <==> before.Err?)
            && (reply == Err(HistoryRequiresDiagnosis) <==>
                 before.Ok? && (before.value.pending.Some? || before.value.stopped))
            && (reply == Err(BatchLimitReached) <==>
                 before.Ok? && before.value.pending.None? && !before.value.stopped && !room)
            && (reply == Err(SendFailed) <==> room && faults.send != Works)
            && (reply.Ok? <==> sent && settles) && (reply.Ok? ==> response == Answer(reply.value))
            && (reply == Err(StopFailed) <==> sent && !settles && !(found.stopFree && faults.stop == Works))
            && (reply == Err(ReportFailed) <==> stops && faults.stopReport)
            && (forall n: nat :: reply == Err(ProviderHttp(n)) <==> stops && !faults.stopReport && response == HttpError(n))
            && (reply == Err(Uncertain) <==> stops && !faults.stopReport && !response.HttpError?)
  {
  }

  /** Which entries are appended in which case. */
  lemma OutcomeCases(b: Budget, bodyBytes: nat, maxTokens: nat, response: Response, faults: Faults, found: Found)
    ensures var added := Outcome(b, bodyBytes, maxTokens, response, faults, found);
            var n := b.requests + 1;
            var written := faults.send == Works || faults.send.written;
            var fits := WithinRequest(response, bodyBytes, maxTokens) && found.settleFree && found.matches;
            var receipt := fits && (faults.settle == Works || faults.settle.written);
            var stop := !(fits && faults.settle == Works && !faults.report) && found.stopFree &&
                        (faults.stop == Works || faults.stop.written);
            && (added != [] <==> RoomFor(b, bodyBytes, maxTokens) && written)
            && (added != [] ==> added[0] == Send(Reservation(n, bodyBytes + 1024, maxTokens)))
            && (added != [] ==>
                 added[1..] ==
                   if faults.send != Works then []
                   else if receipt && stop then [Receipt(n, response.usage), Stop(n)]
                   else if receipt then [Receipt(n, response.usage)]
                   else if stop then [Stop(n)]
                   else [])
  {
  }

  /** Alone and without faults. */
  lemma AloneInNumbers(b: Budget, bodyBytes: nat, maxTokens: nat, response: Response)
    ensures RoomFor(b, bodyBytes, maxTokens) <==> MayReserve(b, bodyBytes + 1024, maxTokens)
    ensures var r := Reservation(b.requests + 1, bodyBytes + 1024, maxTokens);
            var found := Alone(NextSend(b, bodyBytes, maxTokens), response, NO_FAULTS);
            RoomFor(b, bodyBytes, maxTokens) ==>
              && (Reply(Ok(b), bodyBytes, maxTokens, response, NO_FAULTS, found).Ok? <==>
                   WithinRequest(response, bodyBytes, maxTokens))
              && Outcome(b, bodyBytes, maxTokens, response, NO_FAULTS, found) ==
                   [Send(r)] + if WithinRequest(response, bodyBytes, maxTokens) then [Receipt(r.sequence, response.usage)]
                               else [Stop(r.sequence)]
  {
  }

  // What one client writes in a run

  /** The entries a step appends. */
  function Entries(s: System, c: nat, a: Action): seq<Entry>
    requires Enabled(s, c, a)
  {
    match a
    case WriteSend => [Send(At(s, c).entry)]
    case WriteReceipt => [Receipt(At(s, c).entry.sequence, At(s, c).usage)]
    case WriteStop => [Stop(At(s, c).entry.sequence)]
    case WriteCheckpoint => [Checkpoint]
    case _ => []
  }

  /** The entries of one client along a run. */
  ghost function Mine(s: System, run: seq<(nat, Action)>, me: nat): seq<Entry>
    requires EnabledRun(s, run)
    decreases |run|
  {
    if run == [] then []
    else
      (if run[0].0 == me then Entries(s, me, run[0].1) else []) + Mine(Apply(s, run[0].0, run[0].1), run[1..], me)
  }

  lemma {:induction false} MineConcat(s: System, a: seq<(nat, Action)>, b: seq<(nat, Action)>, me: nat)
    requires EnabledRun(s, a) && EnabledRun(ApplyRun(s, a), b)
    ensures EnabledRun(s, a + b)
    ensures Mine(s, a + b, me) == Mine(s, a, me) + Mine(ApplyRun(s, a), b, me)
    decreases |a|
  {
    hide Enabled, Apply, Entries;
    RunConcat(s, a, b);
    if a == [] {
      assert a + b == b;
    } else {
      assert (a + b)[1..] == a[1..] + b;
      MineConcat(Apply(s, a[0].0, a[0].1), a[1..], b, me);
    }
  }

  predicate WithoutMe(run: seq<(nat, Action)>, me: nat) {
    forall i :: 0 <= i < |run| ==> run[i].0 != me
  }

  lemma {:induction false} OthersWriteTheirs(s: System, run: seq<(nat, Action)>, me: nat)
    requires EnabledRun(s, run) && WithoutMe(run, me)
    ensures Mine(s, run, me) == []
    decreases |run|
  {
    hide Enabled, Apply, Entries;
    if run != [] {
      OthersWriteTheirs(Apply(s, run[0].0, run[0].1), run[1..], me);
    }
  }

  /** One step of another client: it finds me where I was, and my lock keeps it from the journal. */
  lemma OtherStep(s: System, c: nat, a: Action, me: nat)
    requires LockInv(s) && Enabled(s, c, a) && c != me
    ensures LockInv(Apply(s, c, a)) && At(Apply(s, c, a), me) == At(s, me)
    ensures Holds(At(s, me)) ==> Apply(s, c, a).journal == s.journal && Apply(s, c, a).lock == s.lock
  {
    StepKeepsLock(s, c, a);
    hide BudgetOf, MayReserve;
  }

  lemma {:induction false} OtherSteps(s: System, run: seq<(nat, Action)>, me: nat)
    requires LockInv(s) && EnabledRun(s, run) && WithoutMe(run, me)
    ensures var e := ApplyRun(s, run);
            && LockInv(e) && At(e, me) == At(s, me)
            && (Holds(At(s, me)) ==> e.journal == s.journal && e.lock == s.lock)
    decreases |run|
  {
    hide Enabled, Apply, LockInv, At, Holds;
    if run != [] {
      OtherStep(s, run[0].0, run[0].1, me);
      OtherSteps(Apply(s, run[0].0, run[0].1), run[1..], me);
    }
  }

  /** What the others do at the n-th pause of a call, given the state they find. */
  type Others = (nat, System) -> seq<(nat, Action)>

  /** They take steps they can take, and none of mine. */
  ghost predicate AreOthers(others: Others, me: nat) {
    forall n: nat, s: System :: EnabledRun(s, others(n, s)) && WithoutMe(others(n, s), me)
  }

  ghost predicate Absent(others: Others) {
    forall n: nat, s: System :: others(n, s) == []
  }

  /** What a call without others finds: only its own lock file can be in its way. */
  function Alone(r: Reservation, response: Response, faults: Faults): Found {
    Found(true, true, !(Acceptable(response, r) && faults.settle.Breaks? && !faults.settle.removed))
  }

  /** The points in the three locked actions at which all checks have passed. */
  predicate Commits(stage: Stage) {
    stage.Cleared? || stage.Matched? || stage.Stopping?
  }

  /** What is appended there. */
  function Committed(stage: Stage): Entry
    requires Commits(stage)
  {
    match stage
    case Cleared(r) => Send(r)
    case Matched(r, usage) => Receipt(r.sequence, usage)
    case Stopping(r) => Stop(r.sequence)
  }

  function Appending(stage: Stage): Action
    requires Commits(stage)
  {
    match stage case Cleared(_) => WriteSend case Matched(_, _) => WriteReceipt case Stopping(_) => WriteStop
  }

  function Appended(stage: Stage): Stage
    requires Commits(stage)
  {
    match stage case Cleared(r) => Sending(r) case Matched(r, _) => Receipted(r) case Stopping(r) => Stopped(r)
  }

  function Releasing(stage: Stage): Action
    requires Commits(stage)
  {
    if stage.Cleared? then Transmit else Unlock
  }

  lemma AppendStep(s: System, me: nat)
    requires Commits(At(s, me))
    ensures var stage := At(s, me);
            && Enabled(s, me, Appending(stage)) && Entries(s, me, Appending(stage)) == [Committed(stage)]
            && var t := Apply(s, me, Appending(stage));
               t.journal == s.journal + [Committed(stage)] && t.lock == s.lock && At(t, me) == Appended(stage)
  {
    hide BudgetOf, MayReserve;
  }

  lemma ReleaseStep(s: System, me: nat, stage: Stage)
    requires Commits(stage) && At(s, me) == Appended(stage)
    ensures && Enabled(s, me, Releasing(stage)) && Entries(s, me, Releasing(stage)) == []
            && var t := Apply(s, me, Releasing(stage));
               t.journal == s.journal && t.lock == None && At(t, me) == AfterCommit(stage, Works)
  {
    hide BudgetOf, MayReserve;
  }

  /** Where it leads: the request, the report, the end; and after an error the catch block or the end. */
  function AfterCommit(stage: Stage, fault: Fault): Stage
    requires Commits(stage)
  {
    match stage
    case Cleared(r) => if fault.Works? then InFlight(r) else Done
    case Matched(r, _) => if fault.Works? then Reporting(r) else Failing(r)
    case Stopping(_) => Done
  }

  /** The journal and lock files, and where every client stands. */
  class Batch {
    var journal: seq<Entry>
    var lock: Option<nat>
    var stages: map<nat, Stage>
    ghost var start: System
    ghost var run: seq<(nat, Action)>

    ghost function View(): System
      reads this
    {
      System(journal, lock, stages)
    }

    /** The files are where the run from the start has brought them, and whoever is inside holds the lock. */
    ghost predicate Traced()
      reads this
    {
      EnabledRun(start, run) && ApplyRun(start, run) == View() && LockInv(View())
    }

    /** What a client has written so far. */
    ghost function Written(me: nat): seq<Entry>
      requires Traced()
      reads this
    {
      Mine(start, run, me)
    }

    constructor (journal: seq<Entry>, lock: Option<nat>, stages: map<nat, Stage>)
      requires LockInv(System(journal, lock, stages))
      ensures View() == start == System(journal, lock, stages) && run == [] && Traced()
    {
      this.journal, this.stages, this.lock := journal, stages, lock;
      start, run := System(journal, lock, stages), [];
    }

    /** One step of one client on the files. */
    method Do(c: nat, a: Action)
      requires Traced() && Enabled(View(), c, a)
      modifies this
      ensures Traced() && start == old(start) && run == old(run) + [(c, a)]
      ensures View() == Apply(old(View()), c, a)
      ensures Written(c) == old(Written(c)) + Entries(old(View()), c, a)
      ensures old(Inv(View())) ==> Inv(View())
    {
      ghost var s := View();
      hide Enabled, Apply, Entries, Inv, LockInv, Mine;
      StepAppends(start, run, c, a);
      StepKeepsLock(s, c, a);
      if Inv(s) {
        StepKeepsInv(s, c, a);
      }
      run := run + [(c, a)];
      var next := Apply(System(journal, lock, stages), c, a);
      journal, lock, stages := next.journal, next.lock, next.clients;
    }

    /** The other clients take their steps. */
    method Pause(me: nat, n: nat, others: Others)
      requires Traced() && AreOthers(others, me)
      modifies this
      ensures Traced() && start == old(start) && old(run) <= run
      ensures Written(me) == old(Written(me)) && At(View(), me) == old(At(View(), me))
      ensures Holds(At(View(), me)) ==> journal == old(journal) && lock == old(lock)
      ensures old(Inv(View())) ==> Inv(View())
      ensures others(n, old(View())) == [] ==> View() == old(View())
    {
      ghost var s := View();
      var more := others(n, System(journal, lock, stages));
      hide Enabled, Apply, Inv, LockInv, Mine, Holds, EnabledRun, ApplyRun, At, WithoutMe;
      RunConcat(start, run, more);
      MineConcat(start, run, more, me);
      OthersWriteTheirs(s, more, me);
      OtherSteps(s, more, me);
      if Inv(s) {
        RunKeepsInv(s, more);
      }
      NoSteps(s);
      run := run + more;
      var next := ApplyRun(System(journal, lock, stages), more);
      journal, lock, stages := next.journal, next.lock, next.clients;
    }

    /** An error under the lock: the action ends, and the lock file is removed or stays. */
    method Drop(me: nat, fault: Fault)
      requires Traced() && fault.Breaks? && Holds(At(View(), me))
      modifies this
      ensures Traced() && start == old(start) && old(run) <= run
      ensures Written(me) == old(Written(me)) && journal == old(journal)
      ensures At(View(), me) == AfterThrow(old(At(View(), me)))
      ensures lock == if fault.removed then None else old(lock)
      ensures old(Inv(View())) ==> Inv(View())
    {
      hide Traced, Inv, Mine;
      Do(me, if fault.removed then Throw else ThrowKeepingLock);
    }

    /** The append itself, with pauses around it. */
    method Append(me: nat, n: nat, others: Others)
      requires Traced() && Commits(At(View(), me)) && AreOthers(others, me)
      modifies this
      ensures Traced() && start == old(start) && old(run) <= run
      ensures old(Inv(View())) ==> Inv(View())
      ensures var added := [Committed(old(At(View(), me)))];
              Written(me) == old(Written(me)) + added && journal == old(journal) + added
      ensures At(View(), me) == Appended(old(At(View(), me))) && lock == old(lock)
    {
      hide Traced, Inv, Mine, LockInv, AreOthers, BudgetOf, Apply, Enabled, Entries, At;
      Pause(me, n, others);
      AppendStep(View(), me);
      Do(me, Appending(At(System(journal, lock, stages), me)));
      Pause(me, n + 1, others);
    }

    /** The end of each locked action: the append and the release of the lock, if nothing breaks. */
    method Commit(me: nat, fault: Fault, n: nat, others: Others)
      requires Traced() && Commits(At(View(), me)) && AreOthers(others, me)
      modifies this
      ensures Traced() && start == old(start) && old(run) <= run
      ensures old(Inv(View())) ==> Inv(View())
      ensures var added := if Appends(fault) then [Committed(old(At(View(), me)))] else [];
              Written(me) == old(Written(me)) + added && journal == old(journal) + added
      ensures At(View(), me) == AfterCommit(old(At(View(), me)), fault)
      ensures lock == if fault.Breaks? && !fault.removed then Some(me) else None
    {
      HolderHasLock(View(), me);
      hide Traced, Inv, Mine, LockInv, AreOthers, BudgetOf, Apply, Enabled, Entries, At;
      var stage := At(System(journal, lock, stages), me);
      if Appends(fault) {
        Append(me, n, others);
      } else {
        Pause(me, n, others);
      }
      if fault.Breaks? {
        Drop(me, fault);
      } else {
        ReleaseStep(View(), me, stage);
        Do(me, Releasing(stage));
      }
    }

    /** The first locked action: read, check, write the send, record it. */
    method Reserve(me: nat, bodyBytes: nat, maxTokens: nat, fault: Fault, others: Others)
      returns (result: Result<Reservation, Refusal>)
      requires Traced() && At(View(), me).Idle? && lock.None? && AreOthers(others, me)
      modifies this
      ensures Traced() && start == old(start) && old(run) <= run
      ensures old(Inv(View())) ==> Inv(View())
      ensures var before := BudgetOf(old(journal));
              if before.Ok? && MayReserve(before.value, bodyBytes + 1024, maxTokens) then
                var r := NextSend(before.value, bodyBytes, maxTokens);
                var sent := if Appends(fault) then [Send(r)] else [];
                && Written(me) == old(Written(me)) + sent && journal == old(journal) + sent
                && (result == if fault.Works? then Ok(r) else Err(SendFailed))
                && At(View(), me) == (if fault.Works? then InFlight(r) else Done)
                && lock == if fault.Breaks? && !fault.removed then Some(me) else None
              else
                && result == Err(Refused(before))
                && Written(me) == old(Written(me)) && journal == old(journal) && At(View(), me).Done? && lock.None?
    {
      hide Traced, Inv, Mine, BudgetOf, LockInv, AreOthers;
      Do(me, Begin(bodyBytes, maxTokens));
      Pause(me, 0, others);
      var state := BudgetState(journal);
      if state.Err? || !MayReserve(state.value, bodyBytes + 1024, maxTokens) {
        Drop(me, Breaks(false, true));
        return Err(Refused(state));
      }
      Do(me, Clear);
      var entry := NextSend(state.value, bodyBytes, maxTokens);
      hide Apply, Enabled, MayReserve;
      Commit(me, fault, 1, others);
      return if fault.Works? then Ok(entry) else Err(SendFailed);
    }

    /** The lock for the receipt, and the comparison of the open send under it. */
    method Confirm(me: nat, entry: Reservation, usage: Usage, others: Others) returns (matches: bool)
      requires Traced() && At(View(), me) == InFlight(entry) && AreOthers(others, me)
      requires lock.None? && UsageFits(usage, entry)
      modifies this
      ensures Traced() && start == old(start) && old(run) <= run
      ensures old(Inv(View())) ==> Inv(View()) && matches
      ensures matches <==>
                && BudgetOf(old(journal)).Ok? && BudgetOf(old(journal)).value.pending.Some?
                && BudgetOf(old(journal)).value.pending.value.sequence == entry.sequence
      ensures Written(me) == old(Written(me)) && journal == old(journal)
      ensures At(View(), me) == if matches then Matched(entry, usage) else Failing(entry)
      ensures lock == if matches then Some(me) else None
    {
      hide Traced, Mine, BudgetOf, LockInv, AreOthers, UsageFits, Inv, Apply, Enabled, Entries, At;
      ghost var inv := Inv(View());
      RespondStep(View(), me, usage);
      Do(me, Respond(usage));
      Pause(me, 4, others);
      var state := BudgetState(journal);
      if inv {
        SettlingMatches(View(), me);
      }
      if state.Err? || !OpenIs(state.value, entry) {
        Drop(me, Breaks(false, true));
        return false;
      }
      MatchStep(View(), me);
      Do(me, Match);
      return true;
    }

    /**
     The second locked action, with its lock: the receipt, if the lock is free, the open send is still
     this one and the append works. Otherwise the call is on its way to the catch block.
     */
    method Settle(me: nat, entry: Reservation, usage: Usage, fault: Fault, others: Others)
      returns (free: bool, matches: bool)
      requires Traced() && At(View(), me) == InFlight(entry) && UsageFits(usage, entry) && AreOthers(others, me)
      modifies this
      ensures Traced() && start == old(start) && old(run) <= run
      ensures old(Inv(View())) ==> Inv(View()) && matches
      ensures free <==> old(lock).None?
      ensures matches <==>
                || !free
                || (&& BudgetOf(old(journal)).Ok? && BudgetOf(old(journal)).value.pending.Some?
                    && BudgetOf(old(journal)).value.pending.value.sequence == entry.sequence)
      ensures !free ==> View() == old(View()) && Written(me) == old(Written(me))
      ensures var receipt := if free && matches && Appends(fault) then [Receipt(entry.sequence, usage)] else [];
              Written(me) == old(Written(me)) + receipt && journal == old(journal) + receipt
      ensures free ==>
                && At(View(), me) == (if matches && fault.Works? then Reporting(entry) else Failing(entry))
                && lock == if matches && fault.Breaks? && !fault.removed then Some(me) else None
    {
      if lock.Some? {
        return false, true;
      }
      hide Traced, Mine, BudgetOf, LockInv, AreOthers, UsageFits, Inv, Apply, Enabled, Entries, At;
      matches := Confirm(me, entry, usage, others);
      if matches {
        Commit(me, fault, 5, others);
      }
      return true, matches;
    }

    /** The catch block: the stop, if the lock is free and the append works. */
    method Halt(me: nat, entry: Reservation, fault: Fault, others: Others) returns (free: bool)
      requires Traced() && At(View(), me) == Failing(entry) && AreOthers(others, me)
      modifies this
      ensures Traced() && start == old(start) && old(run) <= run
      ensures old(Inv(View())) ==> Inv(View())
      ensures At(View(), me).Done? && (free <==> old(lock).None?)
      ensures var stop := if free && Appends(fault) then [Stop(entry.sequence)] else [];
              Written(me) == old(Written(me)) + stop && journal == old(journal) + stop
    {
      hide Traced, Inv, Mine, BudgetOf, LockInv, AreOthers;
      if lock.Some? {
        Do(me, GiveUp);
        return false;
      }
      Do(me, LockStop);
      hide Apply, Enabled;
      Commit(me, fault, 9, others);
      return true;
    }

    /** From any point after the send into the catch block and through it. */
    method Catch(me: nat, entry: Reservation, fault: Fault, others: Others) returns (free: bool)
      requires Traced() && AreOthers(others, me)
      requires At(View(), me) in {InFlight(entry), Reporting(entry), Failing(entry)}
      modifies this
      ensures Traced() && start == old(start) && old(run) <= run
      ensures old(Inv(View())) ==> Inv(View())
      ensures At(View(), me).Done?
      ensures var stop := if free && Appends(fault) then [Stop(entry.sequence)] else [];
              && Written(me) == old(Written(me)) + stop
              && (Absent(others) ==> journal == old(journal) + stop && (free <==> old(lock).None?))
    {
      hide Traced, Inv, Mine, BudgetOf, LockInv, AreOthers;
      if !At(System(journal, lock, stages), me).Failing? {
        Do(me, Fail);
      }
      hide Apply, Enabled;
      Pause(me, 8, others);
      free := Halt(me, entry, fault, others);
    }

    /** The request, and the receipt if the response is acceptable. */
    method Attempt(me: nat, entry: Reservation, response: Response, faults: Faults, others: Others) returns (found: Found)
      requires Traced() && At(View(), me) == InFlight(entry) && AreOthers(others, me)
      modifies this
      ensures Traced() && start == old(start) && old(run) <= run
      ensures old(Inv(View())) ==> Inv(View()) && found.matches
      ensures At(View(), me) in {InFlight(entry), Reporting(entry), Failing(entry)} && found.stopFree
      ensures ReceiptWritten(entry, response, faults, found) && faults.settle.Works? ==> At(View(), me) == Reporting(entry)
      ensures Written(me) == old(Written(me)) + Receipts(entry, response, faults, found)
      ensures Absent(others) && old(lock).None? &&
              BudgetOf(old(journal)).Ok? && OpenIs(BudgetOf(old(journal)).value, entry) ==>
                && journal == old(journal) + Receipts(entry, response, faults, found)
                && found.settleFree && found.matches
                && (lock.None? <==> Alone(entry, response, faults).stopFree)
    {
      found := Found(true, true, true);
      hide Traced, Inv, Mine, BudgetOf, LockInv, AreOthers, UsageFits, Apply, Enabled, At;
      Pause(me, 3, others);
      if Acceptable(response, entry) {
        var free, matches := Settle(me, entry, response.usage, faults.settle, others);
        found := Found(free, matches, true);
      }
      Pause(me, 7, others);
    }

    /** The call from the request on the wire to its end. */
    method Deliver(me: nat, entry: Reservation, response: Response, faults: Faults, others: Others)
      returns (result: Result<Usage, Refusal>, found: Found)
      requires Traced() && At(View(), me) == InFlight(entry) && AreOthers(others, me)
      modifies this
      ensures Traced() && start == old(start) && old(run) <= run
      ensures old(Inv(View())) ==> Inv(View()) && found.matches
      ensures At(View(), me).Done? && result == Ending(entry, response, faults, found)
      ensures Written(me) == old(Written(me)) + Delivered(entry, response, faults, found)
      ensures Absent(others) && old(lock).None? &&
              BudgetOf(old(journal)).Ok? && OpenIs(BudgetOf(old(journal)).value, entry) ==>
                && journal == old(journal) + Delivered(entry, response, faults, found)
                && found == Alone(entry, response, faults)
    {
      hide Traced, Inv, Mine, BudgetOf, LockInv, AreOthers, OpenIs, UsageFits, Apply, Enabled, Absent, Appends, At;
      found := Attempt(me, entry, response, faults, others);
      if Succeeds(entry, response, faults, found) {
        Return(me, entry);
        return Ok(response.usage), found;
      }
      var stopFree := Catch(me, entry, faults.stop, others);
      found := found.(stopFree := stopFree);
      if !stopFree || faults.stop.Breaks? {
        return Err(StopFailed), found;
      }
      if faults.stopReport {
        return Err(ReportFailed), found;
      }
      return Err(if response.HttpError? then ProviderHttp(response.status) else Uncertain), found;
    }

    method Return(me: nat, entry: Reservation)
      requires Traced() && At(View(), me) == Reporting(entry)
      modifies this
      ensures Traced() && start == old(start) && old(run) <= run
      ensures old(Inv(View())) ==> Inv(View())
      ensures At(View(), me).Done? && Written(me) == old(Written(me)) && journal == old(journal)
    {
      hide Traced, Inv, Mine, BudgetOf, LockInv;
      Do(me, BudgetClients.Return);
    }

    /** The call from its first lock on. */
    method Call(me: nat, bodyBytes: nat, maxTokens: nat, response: Response, faults: Faults, others: Others)
      returns (result: Result<Usage, Refusal>, found: Found)
      requires Traced() && At(View(), me).Idle? && lock.None? && AreOthers(others, me)
      modifies this
      ensures Traced() && start == old(start) && old(run) <= run
      ensures old(Inv(View())) ==> Inv(View()) && found.matches
      ensures At(View(), me).Done?
      ensures result == Reply(BudgetOf(old(journal)), bodyBytes, maxTokens, response, faults, found)
      ensures var before := BudgetOf(old(journal));
              var added := if before.Err? then [] else Outcome(before.value, bodyBytes, maxTokens, response, faults, found);
              Written(me) == old(Written(me)) + added && (Absent(others) ==> journal == old(journal) + added)
      ensures Absent(others) && BudgetOf(old(journal)).Ok? ==>
                var b := BudgetOf(old(journal)).value;
                MayReserve(b, bodyBytes + 1024, maxTokens) && faults.send.Works? ==>
                  found == Alone(NextSend(b, bodyBytes, maxTokens), response, faults)
    {
      found := Found(true, true, true);
      hide Traced, Inv, Mine, BudgetOf, LockInv, AreOthers, Absent, OpenIs, Alone, Delivered, Ending, Apply, Enabled, At;
      ghost var text := journal;
      var reserved := Reserve(me, bodyBytes, maxTokens, faults.send, others);
      if reserved.Err? {
        return Err(reserved.error), found;
      }
      SentIsOpen(text, bodyBytes, maxTokens);
      hide MayReserve, NextSend;
      result, found := Deliver(me, reserved.value, response, faults, others);
    }

    /**
     The whole call, whatever the others do meanwhile. Outside its ceiling or behind a lock file it
     touches nothing. Otherwise it appends exactly its outcome and answers with its reply, given what it
     finds at its second and third lock, and it ends. In every reachable state the open send is then still
     its own, and without others only its own lock file can be in its way.
     */
    method Fetch(me: nat, bodyBytes: nat, maxTokens: int, ceiling: nat, response: Response, faults: Faults, others: Others)
      returns (result: Result<Usage, Refusal>, found: Found)
      requires Traced() && At(View(), me).Idle? && AreOthers(others, me)
      modifies this
      ensures Traced() && start == old(start) && old(run) <= run
      ensures old(Inv(View())) ==> Inv(View()) && found.matches
      ensures !(0 < maxTokens <= ceiling) ==> result == Err(OutputCeilingInvalid) && View() == old(View())
      ensures 0 < maxTokens <= ceiling && old(lock).Some? ==> result == Err(LockTaken) && View() == old(View())
      ensures 0 < maxTokens <= ceiling && old(lock).None? ==>
                var before := BudgetOf(old(journal));
                && At(View(), me).Done?
                && result == Reply(before, bodyBytes, maxTokens, response, faults, found)
                && Written(me) == old(Written(me)) +
                     if before.Err? then [] else Outcome(before.value, bodyBytes, maxTokens, response, faults, found)
      ensures 0 < maxTokens <= ceiling && old(lock).None? && Absent(others) && BudgetOf(old(journal)).Ok? ==>
                var b := BudgetOf(old(journal)).value;
                && journal == old(journal) + Outcome(b, bodyBytes, maxTokens, response, faults, found)
                && (MayReserve(b, bodyBytes + 1024, maxTokens) && faults.send.Works? ==>
                     found == Alone(NextSend(b, bodyBytes, maxTokens), response, faults))
      ensures 0 < maxTokens <= ceiling && old(lock).None? && Absent(others) && BudgetOf(old(journal)).Ok? &&
              faults == NO_FAULTS ==>
                var b := BudgetOf(old(journal)).value;
                RoomFor(b, bodyBytes, maxTokens) ==>
                  && (result.Ok? <==> WithinRequest(response, bodyBytes, maxTokens))
                  && journal == old(journal) + [Send(Reservation(b.requests + 1, bodyBytes + 1024, maxTokens))] +
                       if WithinRequest(response, bodyBytes, maxTokens) then [Receipt(b.requests + 1, response.usage)]
                       else [Stop(b.requests + 1)]
    {
      found := Found(true, true, true);
      if !(0 < maxTokens <= ceiling) {
        return Err(OutputCeilingInvalid), found;
      }
      if lock.Some? {
        return Err(LockTaken), found;
      }
      hide Traced, Inv, Mine, BudgetOf, LockInv, AreOthers, Absent, Alone, Outcome, Reply, MayReserve;
      ghost var before := BudgetOf(journal);
      result, found := Call(me, bodyBytes, maxTokens, response, faults, others);
      if before.Ok? {
        AloneInNumbers(before.value, bodyBytes, maxTokens, response);
      }
    }
  }

  lemma RespondStep(s: System, c: nat, usage: Usage)
    requires At(s, c).InFlight? && s.lock.None? && UsageFits(usage, At(s, c).entry)
    ensures Enabled(s, c, Respond(usage)) && Entries(s, c, Respond(usage)) == []
    ensures var t := Apply(s, c, Respond(usage));
            t.journal == s.journal && t.lock == Some(c) && At(t, c) == Settling(At(s, c).entry, usage)
  {
    hide BudgetOf, MayReserve;
  }

  lemma MatchStep(s: System, c: nat)
    requires At(s, c).Settling? && BudgetOf(s.journal).Ok? && OpenIs(BudgetOf(s.journal).value, At(s, c).entry)
    ensures Enabled(s, c, Match) && Entries(s, c, Match) == []
    ensures var t := Apply(s, c, Match);
            t.journal == s.journal && t.lock == s.lock && At(t, c) == Matched(At(s, c).entry, At(s, c).usage)
  {
    hide BudgetOf, MayReserve;
  }

  lemma SettlingMatches(s: System, c: nat)
    requires Inv(s) && At(s, c).Settling?
    ensures BudgetOf(s.journal).Ok? && OpenIs(BudgetOf(s.journal).value, At(s, c).entry)
  {
    assert StageInv(BudgetOf(s.journal).value, s.clients[c]);
    hide BudgetOf;
  }

  lemma SentIsOpen(journal: seq<Entry>, bodyBytes: nat, maxTokens: nat)
    requires BudgetOf(journal).Ok? && MayReserve(BudgetOf(journal).value, bodyBytes + 1024, maxTokens)
    ensures var r := NextSend(BudgetOf(journal).value, bodyBytes, maxTokens);
            BudgetOf(journal + [Send(r)]).Ok? && OpenIs(BudgetOf(journal + [Send(r)]).value, r)
  {
    hide BudgetOf;
    var b := BudgetOf(journal).value;
    var r := NextSend(b, bodyBytes, maxTokens);
    BudgetAppend(journal, Send(r));
    TakesSend(b, r);
    hide Take, MayReserve;
  }

  lemma TakesSend(b: Budget, r: Reservation)
    requires b.pending.None? && !b.stopped && r.sequence == b.requests + 1
    ensures Take(b, Send(r)).Ok? && OpenIs(Take(b, Send(r)).value, r)
  {
  }

  lemma HolderHasLock(s: System, me: nat)
    requires LockInv(s) && Holds(At(s, me))
    ensures s.lock == Some(me)
  {
  }

  lemma NoSteps(s: System)
    ensures EnabledRun(s, []) && ApplyRun(s, []) == s
  {
  }

  lemma StepAppends(s: System, run: seq<(nat, Action)>, c: nat, a: Action)
    requires EnabledRun(s, run) && Enabled(ApplyRun(s, run), c, a)
    ensures EnabledRun(s, run + [(c, a)])
    ensures ApplyRun(s, run + [(c, a)]) == Apply(ApplyRun(s, run), c, a)
    ensures Mine(s, run + [(c, a)], c) == Mine(s, run, c) + Entries(ApplyRun(s, run), c, a)
  {
    var e := ApplyRun(s, run);
    assert [(c, a)][1..] == [];
    assert EnabledRun(e, [(c, a)]) && ApplyRun(e, [(c, a)]) == Apply(e, c, a) && Mine(e, [(c, a)], c) == Entries(e, c, a);
    hide Enabled, Apply, Entries;
    RunConcat(s, run, [(c, a)]);
    MineConcat(s, run, [(c, a)], c);
  }
}
