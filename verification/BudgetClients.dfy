/**
 Any number of requests sharing one journal under an exclusive lock file. Each request is a client
 that goes through the replaced `fetch` one file operation at a time; between any two operations
 any other client may run, any operation may throw, and any client may crash and leave the lock
 file behind.
 */
module BudgetClients {
  import opened Wrappers
  import opened BudgetJournal

  /** Where a client stands. The stages named "holds" are inside the lock's action. */
  datatype Stage =
    | Idle
    | Reserving(inputUpperBound: nat, outputCeiling: nat)  // holds the lock, has not read the journal
    | Cleared(entry: Reservation)                          // holds; the checks on the replay passed
    | Sending(entry: Reservation)                          // holds; the send is journalled
    | InFlight(entry: Reservation)                         // the request is on the wire
    | Settling(entry: Reservation, usage: Usage)           // holds, with a usage within the bounds
    | Matched(entry: Reservation, usage: Usage)            // holds; the open send is this one
    | Receipted(entry: Reservation)                        // holds; the receipt is journalled
    | Reporting(entry: Reservation)                        // settled, still writing its records
    | Failing(entry: Reservation)                          // in the catch block
    | Stopping(entry: Reservation)                         // holds, about to journal a stop
    | Stopped(entry: Reservation)                          // holds; the stop is journalled
    | Finishing                                            // holds, about to journal a checkpoint
    | Finished                                             // holds; the checkpoint is journalled
    | Done
    | Crashed

  /** The journal, the lock file with the client that created it, and the clients; others are idle. */
  datatype System = System(journal: seq<Entry>, lock: Option<nat>, clients: map<nat, Stage>)

  datatype Action =
    | Begin(bodyBytes: nat, outputCeiling: nat)  // lock for a send
    | Clear                                      // read the journal and check it
    | WriteSend
    | Transmit                                   // unlock and send
    | Respond(usage: Usage)                      // an acceptable response; lock for the receipt
    | Match                                      // read the journal and compare the open send
    | WriteReceipt
    | Unlock                                     // after the receipt, the stop or the checkpoint
    | Return
    | Fail                                       // no lock held: an error reaches the catch block
    | LockStop
    | WriteStop
    | LockFinish
    | WriteCheckpoint
    | Throw                                      // lock held: the action throws, the lock is released
    | ThrowKeepingLock                           // the same, and removing the lock file fails
    | GiveUp                                     // the lock for the stop is not free
    | Crash

  function At(s: System, c: nat): Stage {
    if c in s.clients then s.clients[c] else Idle
  }

  function Put(s: System, c: nat, stage: Stage): System {
    s.(clients := s.clients[c := stage])
  }

  function Locked(s: System, c: nat, stage: Stage): System {
    Put(s, c, stage).(lock := Some(c))
  }

  function Unlocked(s: System, c: nat, stage: Stage): System {
    Put(s, c, stage).(lock := None)
  }

  function Written(s: System, c: nat, e: Entry, stage: Stage): System {
    Put(s, c, stage).(journal := s.journal + [e])
  }

  predicate Holds(stage: Stage) {
    || stage.Reserving? || stage.Cleared? || stage.Sending? || stage.Settling? || stage.Matched?
    || stage.Receipted? || stage.Stopping? || stage.Stopped? || stage.Finishing? || stage.Finished?
  }

  /** Between its send and its receipt. */
  predicate Owns(stage: Stage) {
    stage.Sending? || stage.InFlight? || stage.Settling? || stage.Matched?
  }

  /** The checks on a response's usage, on top of those of the replay. */
  predicate UsageFits(u: Usage, r: Reservation) {
    UsageCounts(u) && u.inputTokens.n <= r.inputUpperBound && u.outputTokens.n <= r.outputCeiling
  }

  /** The assertions before a send: nothing open, no stop, and room for the reservation. */
  predicate MayReserve(b: Budget, inputUpperBound: nat, outputCeiling: nat) {
    b.pending.None? && !b.stopped && TotalTokens(b) + inputUpperBound + outputCeiling <= BATCH_LIMIT
  }

  /** Where an error inside the lock's action takes the client. */
  function AfterThrow(stage: Stage): Stage {
    match stage
    case Settling(entry, _) => Failing(entry)
    case Matched(entry, _) => Failing(entry)
    case Receipted(entry) => Failing(entry)
    case _ => Done
  }

  predicate Enabled(s: System, c: nat, a: Action) {
    var stage := At(s, c);
    match a
    case Begin(_, _) => stage.Idle? && s.lock.None?
    case Clear => stage.Reserving? && BudgetOf(s.journal).Ok? &&
      MayReserve(BudgetOf(s.journal).value, stage.inputUpperBound, stage.outputCeiling)
    case WriteSend => stage.Cleared?
    case Transmit => stage.Sending?
    case Respond(usage) => stage.InFlight? && s.lock.None? && UsageFits(usage, stage.entry)
    case Match => stage.Settling? && BudgetOf(s.journal).Ok? && OpenIs(BudgetOf(s.journal).value, stage.entry)
    case WriteReceipt => stage.Matched?
    case Unlock => stage.Receipted? || stage.Stopped? || stage.Finished?
    case Return => stage.Reporting?
    case Fail => stage.InFlight? || stage.Reporting?
    case LockStop => stage.Failing? && s.lock.None?
    case WriteStop => stage.Stopping?
    case LockFinish => stage.Idle? && s.lock.None?
    case WriteCheckpoint => stage.Finishing? && BudgetOf(s.journal).Ok?
    case Throw => Holds(stage)
    case ThrowKeepingLock => Holds(stage)
    case GiveUp => stage.Failing?
    case Crash => !stage.Done? && !stage.Crashed?
  }

  /** The check under the lock before a receipt. */
  predicate OpenIs(b: Budget, r: Reservation) {
    b.pending.Some? && b.pending.value.sequence == r.sequence
  }

  function Apply(s: System, c: nat, a: Action): System
    requires Enabled(s, c, a)
  {
    var stage := At(s, c);
    match a
    case Begin(bodyBytes, ceiling) => Locked(s, c, Reserving(bodyBytes + 1024, ceiling))
    case Clear =>
      var sequence := BudgetOf(s.journal).value.requests + 1;
      Put(s, c, Cleared(Reservation(sequence, stage.inputUpperBound, stage.outputCeiling)))
    case WriteSend => Written(s, c, Send(stage.entry), Sending(stage.entry))
    case Transmit => Unlocked(s, c, InFlight(stage.entry))
    case Respond(usage) => Locked(s, c, Settling(stage.entry, usage))
    case Match => Put(s, c, Matched(stage.entry, stage.usage))
    case WriteReceipt => Written(s, c, Receipt(stage.entry.sequence, stage.usage), Receipted(stage.entry))
    case Unlock => Unlocked(s, c, if stage.Receipted? then Reporting(stage.entry) else Done)
    case Return => Put(s, c, Done)
    case Fail => Put(s, c, Failing(stage.entry))
    case LockStop => Locked(s, c, Stopping(stage.entry))
    case WriteStop => Written(s, c, Stop(stage.entry.sequence), Stopped(stage.entry))
    case LockFinish => Locked(s, c, Finishing)
    case WriteCheckpoint => Written(s, c, Checkpoint, Finished)
    case Throw => Unlocked(s, c, AfterThrow(stage))
    case ThrowKeepingLock => Put(s, c, AfterThrow(stage))
    case GiveUp => Put(s, c, Done)
    case Crash => Put(s, c, Crashed)
  }

  /** Nobody has started, the lock file does not exist, and the journal replays within the limit. */
  predicate Initial(s: System) {
    && s.lock.None? && s.clients == map[]
    && BudgetOf(s.journal).Ok? && WithinLimit(BudgetOf(s.journal).value)
  }

  /** The reservation counts as used, and its parts are not negative. */
  predicate WithinLimit(b: Budget) {
    && TotalTokens(b) + ReservedTokens(b) <= BATCH_LIMIT
    && (b.pending.Some? ==> b.pending.value.inputUpperBound >= 0 && b.pending.value.outputCeiling >= 0)
  }

  predicate EnabledRun(s: System, run: seq<(nat, Action)>)
    decreases |run|
  {
    run == [] || (Enabled(s, run[0].0, run[0].1) && EnabledRun(Apply(s, run[0].0, run[0].1), run[1..]))
  }

  function ApplyRun(s: System, run: seq<(nat, Action)>): System
    requires EnabledRun(s, run)
    decreases |run|
  {
    if run == [] then s else ApplyRun(Apply(s, run[0].0, run[0].1), run[1..])
  }

  // The invariant

  predicate JournalInv(s: System) {
    BudgetOf(s.journal).Ok? && WithinLimit(BudgetOf(s.journal).value)
  }

  /** Whoever is inside the lock's action created the lock file. */
  predicate LockInv(s: System) {
    forall c :: c in s.clients && Holds(s.clients[c]) ==> s.lock == Some(c)
  }

  /** A cleared reservation is still the next one, and there is still room for it. */
  predicate ClearedInv(b: Budget, r: Reservation) {
    && r.sequence == b.requests + 1
    && r.inputUpperBound >= 0 && r.outputCeiling >= 0
    && MayReserve(b, r.inputUpperBound, r.outputCeiling)
  }

  /** What a client relies on while others run. */
  predicate StageInv(b: Budget, stage: Stage) {
    && (stage.Cleared? ==> ClearedInv(b, stage.entry))
    && (Owns(stage) ==> b.pending == Some(stage.entry))
    && (stage.Settling? || stage.Matched? ==> UsageFits(stage.usage, stage.entry))
  }

  /** At most one client is between its send and its receipt. */
  predicate OneOwner(s: System) {
    forall c, d :: c in s.clients && d in s.clients && Owns(s.clients[c]) && Owns(s.clients[d]) ==> c == d
  }

  predicate StagesInv(s: System)
    requires BudgetOf(s.journal).Ok?
  {
    forall c :: c in s.clients ==> StageInv(BudgetOf(s.journal).value, s.clients[c])
  }

  predicate Inv(s: System) {
    && JournalInv(s)
    && LockInv(s)
    && OneOwner(s)
    && StagesInv(s)
  }

  lemma InitialInv(s: System)
    requires Initial(s)
    ensures Inv(s)
  {
  }

  /** The budget after a step that writes, and before it. */
  lemma WriteBudget(s: System, c: nat, a: Action)
    requires Inv(s) && Enabled(s, c, a)
    ensures var b := BudgetOf(s.journal).value;
            BudgetOf(Apply(s, c, a).journal) ==
            match a
            case WriteSend => Ok(b.(pending := Some(At(s, c).entry), requests := b.requests + 1))
            case WriteReceipt => Take(b, Receipt(At(s, c).entry.sequence, At(s, c).usage))
            case WriteStop => Ok(b.(stopped := true))
            case _ => Ok(b)
  {
    assert c in s.clients ==> StageInv(BudgetOf(s.journal).value, At(s, c));
    hide BudgetOf, LockInv, OneOwner, StagesInv;
    match a {
      case WriteSend => BudgetAppend(s.journal, Send(At(s, c).entry));
      case WriteReceipt => BudgetAppend(s.journal, Receipt(At(s, c).entry.sequence, At(s, c).usage));
      case WriteStop => BudgetAppend(s.journal, Stop(At(s, c).entry.sequence));
      case WriteCheckpoint => BudgetAppend(s.journal, Checkpoint);
      case _ =>
    }
  }

  /** A fitting usage is no more than the reservation it replaces. */
  lemma ReceiptKeepsLimit(b: Budget, r: Reservation, usage: Usage)
    requires WithinLimit(b) && b.pending == Some(r) && UsageFits(usage, r)
    ensures Take(b, Receipt(r.sequence, usage)).Ok?
    ensures WithinLimit(Take(b, Receipt(r.sequence, usage)).value)
  {
  }

  lemma SendKeepsLimit(b: Budget, r: Reservation)
    requires ClearedInv(b, r)
    ensures WithinLimit(b.(pending := Some(r), requests := b.requests + 1))
  {
  }

  lemma StopKeepsLimit(b: Budget)
    requires WithinLimit(b)
    ensures WithinLimit(b.(stopped := true))
  {
  }

  lemma StepKeepsJournal(s: System, c: nat, a: Action)
    requires Inv(s) && Enabled(s, c, a)
    ensures JournalInv(Apply(s, c, a))
  {
    WriteBudget(s, c, a);
    var b := BudgetOf(s.journal).value;
    var stage := At(s, c);
    assert c in s.clients ==> StageInv(b, stage);
    assert a.WriteSend? ==> stage.Cleared?;
    assert a.WriteReceipt? ==> stage.Matched?;
    hide BudgetOf, LockInv, OneOwner, StagesInv, Take, Apply, Enabled, WithinLimit, ClearedInv, UsageFits;
    if a.WriteReceipt? {
      ReceiptKeepsLimit(b, stage.entry, stage.usage);
    } else if a.WriteSend? {
      SendKeepsLimit(b, stage.entry);
    } else if a.WriteStop? {
      StopKeepsLimit(b);
    }
  }

  lemma StepKeepsLock(s: System, c: nat, a: Action)
    requires LockInv(s) && Enabled(s, c, a)
    ensures LockInv(Apply(s, c, a))
  {
    hide BudgetOf;
  }

  lemma StepKeepsOwner(s: System, c: nat, a: Action)
    requires Inv(s) && Enabled(s, c, a)
    ensures OneOwner(Apply(s, c, a))
  {
    hide BudgetOf;
    if a.WriteSend? {
      assert StageInv(BudgetOf(s.journal).value, At(s, c));
    }
  }

  /** The client that moves finds what its new stage relies on. */
  lemma MoverKeepsStage(s: System, c: nat, a: Action)
    requires Inv(s) && Enabled(s, c, a)
    ensures BudgetOf(Apply(s, c, a).journal).Ok?
    ensures StageInv(BudgetOf(Apply(s, c, a).journal).value, At(Apply(s, c, a), c))
  {
    WriteBudget(s, c, a);
    hide BudgetOf;
    assert c in s.clients ==> StageInv(BudgetOf(s.journal).value, At(s, c));
  }

  /** A client that does not move keeps what it relies on: the lock excludes the steps that would take it. */
  lemma OthersKeepStage(s: System, c: nat, a: Action, d: nat)
    requires Inv(s) && Enabled(s, c, a) && d in s.clients && d != c
    ensures BudgetOf(Apply(s, c, a).journal).Ok?
    ensures StageInv(BudgetOf(Apply(s, c, a).journal).value, s.clients[d])
  {
    WriteBudget(s, c, a);
    hide BudgetOf;
    assert StageInv(BudgetOf(s.journal).value, s.clients[d]);
    assert c in s.clients ==> StageInv(BudgetOf(s.journal).value, s.clients[c]);
  }

  lemma OthersStay(s: System, c: nat, a: Action)
    requires Enabled(s, c, a)
    ensures forall d :: d != c ==> (d in Apply(s, c, a).clients <==> d in s.clients)
    ensures forall d :: d != c && d in s.clients ==> Apply(s, c, a).clients[d] == s.clients[d]
  {
    hide BudgetOf, MayReserve;
  }

  lemma StepKeepsInv(s: System, c: nat, a: Action)
    requires Inv(s) && Enabled(s, c, a)
    ensures Inv(Apply(s, c, a))
  {
    StepKeepsJournal(s, c, a);
    hide StageInv, BudgetOf, LockInv, OneOwner, JournalInv, Apply, Enabled;
    StepKeepsLock(s, c, a);
    StepKeepsOwner(s, c, a);
    MoverKeepsStage(s, c, a);
    OthersStay(s, c, a);
    forall d | d in s.clients && d != c {
      OthersKeepStage(s, c, a, d);
    }
  }

  lemma {:induction false} RunKeepsInv(s: System, run: seq<(nat, Action)>)
    requires Inv(s) && EnabledRun(s, run)
    ensures Inv(ApplyRun(s, run))
    decreases |run|
  {
    hide Inv, Apply, Enabled;
    if run != [] {
      StepKeepsInv(s, run[0].0, run[0].1);
      RunKeepsInv(Apply(s, run[0].0, run[0].1), run[1..]);
    }
  }

  // What holds in every run

  /**
   Whatever clients run, interleave, fail and crash: tokens and open reservation stay within the
   limit, the clamp on the remaining tokens never acts, and every prefix of the journal replays.
   */
  lemma LimitHoldsInEveryRun(s: System, run: seq<(nat, Action)>)
    requires Initial(s) && EnabledRun(s, run)
    ensures var journal := ApplyRun(s, run).journal;
            && BudgetOf(journal).Ok?
            && var b := BudgetOf(journal).value;
               && TotalTokens(b) + ReservedTokens(b) <= BATCH_LIMIT
               && RemainingTokens(b) + TotalTokens(b) + ReservedTokens(b) == BATCH_LIMIT
    ensures var journal := ApplyRun(s, run).journal;
            forall n :: 1 <= n <= |journal| ==> BudgetOf(journal[..n]).Ok?
  {
    InitialInv(s);
    RunKeepsInv(s, run);
    var journal := ApplyRun(s, run).journal;
    forall n | 1 <= n <= |journal|
      ensures BudgetOf(journal[..n]).Ok?
    {
      PrefixReplays(journal, n);
    }
  }

  /** The check before a receipt never fails: a client that got that far still owns the open send. */
  lemma ReceiptCheckNeverFails(s: System, run: seq<(nat, Action)>, c: nat)
    requires Initial(s) && EnabledRun(s, run) && At(ApplyRun(s, run), c).Settling?
    ensures Enabled(ApplyRun(s, run), c, Match)
  {
    InitialInv(s);
    RunKeepsInv(s, run);
    var e := ApplyRun(s, run);
    assert StageInv(BudgetOf(e.journal).value, e.clients[c]);
  }

  /** No two clients are ever between their send and their receipt, and none while nothing is open. */
  lemma OneRequestAtATime(s: System, run: seq<(nat, Action)>, c: nat, d: nat)
    requires Initial(s) && EnabledRun(s, run)
    requires Owns(At(ApplyRun(s, run), c)) && Owns(At(ApplyRun(s, run), d))
    ensures c == d
    ensures BudgetOf(ApplyRun(s, run).journal) .Ok? &&
            BudgetOf(ApplyRun(s, run).journal).value.pending == Some(At(ApplyRun(s, run), c).entry)
  {
    InitialInv(s);
    RunKeepsInv(s, run);
    var e := ApplyRun(s, run);
    assert StageInv(BudgetOf(e.journal).value, e.clients[c]);
  }

  /** A send is only ever written when nothing is open and nothing has been stopped. */
  lemma SendsFailClosed(s: System, run: seq<(nat, Action)>, c: nat, a: Action)
    requires Initial(s) && EnabledRun(s, run) && Enabled(ApplyRun(s, run), c, a)
    requires var e := ApplyRun(s, run);
             exists r :: Apply(e, c, a).journal == e.journal + [Send(r)]
    ensures var b := BudgetOf(ApplyRun(s, run).journal);
            b.Ok? && b.value.pending.None? && !b.value.stopped
  {
    InitialInv(s);
    RunKeepsInv(s, run);
    var e := ApplyRun(s, run);
    var r :| Apply(e, c, a).journal == e.journal + [Send(r)];
    assert a.WriteSend? by {
      assert |Apply(e, c, a).journal| == |e.journal| + 1 && Apply(e, c, a).journal[|e.journal|] == Send(r);
    }
    assert StageInv(BudgetOf(e.journal).value, e.clients[c]);
  }

  /** The batch is closed: stopped, or with an open send whose client will never settle it. */
  predicate Closed(s: System)
    requires BudgetOf(s.journal).Ok?
  {
    var b := BudgetOf(s.journal).value;
    b.stopped || (b.pending.Some? && forall c :: c in s.clients ==> !Owns(s.clients[c]))
  }

  lemma StepKeepsClosed(s: System, c: nat, a: Action)
    requires Inv(s) && Enabled(s, c, a) && Closed(s)
    ensures Inv(Apply(s, c, a)) && Closed(Apply(s, c, a))
    ensures var b, d := BudgetOf(s.journal).value, BudgetOf(Apply(s, c, a).journal).value;
            && b.requests == d.requests
            && (b.stopped ==> d.stopped)
            && (!b.stopped ==> d.pending == b.pending)
  {
    WriteBudget(s, c, a);
    StepKeepsInv(s, c, a);
    assert c in s.clients ==> StageInv(BudgetOf(s.journal).value, s.clients[c]);
    hide BudgetOf, LockInv, OneOwner;
  }

  /** A closed batch stays closed for ever: no later step of anybody sends again, and a stop stays. */
  lemma {:induction false} ClosedForEver(s: System, run: seq<(nat, Action)>)
    requires Inv(s) && Closed(s) && EnabledRun(s, run)
    ensures Inv(ApplyRun(s, run)) && Closed(ApplyRun(s, run))
    ensures var b, d := BudgetOf(s.journal).value, BudgetOf(ApplyRun(s, run).journal).value;
            && b.requests == d.requests
            && (b.stopped ==> d.stopped)
            && (d.stopped || d.pending == b.pending)
    decreases |run|
  {
    if run != [] {
      StepKeepsClosed(s, run[0].0, run[0].1);
      hide Apply, Enabled, Closed, BudgetOf, LockInv, OneOwner, StagesInv;
      ClosedForEver(Apply(s, run[0].0, run[0].1), run[1..]);
    }
  }

  /** The whole-run form: after any run that ends closed, no continuation adds a send. */
  lemma NoSendAfterClosing(s: System, run: seq<(nat, Action)>, more: seq<(nat, Action)>)
    requires Initial(s) && EnabledRun(s, run) && EnabledRun(ApplyRun(s, run), more)
    requires BudgetOf(ApplyRun(s, run).journal).Ok? && Closed(ApplyRun(s, run))
    ensures var e := ApplyRun(s, run);
            var f := ApplyRun(e, more);
            && BudgetOf(f.journal).Ok?
            && BudgetOf(f.journal).value.requests == BudgetOf(e.journal).value.requests
            && (BudgetOf(e.journal).value.stopped ==> BudgetOf(f.journal).value.stopped)
  {
    InitialInv(s);
    RunKeepsInv(s, run);
    ClosedForEver(ApplyRun(s, run), more);
  }

  lemma RunCons(s: System, c: nat, a: Action, rest: seq<(nat, Action)>)
    requires Enabled(s, c, a) && EnabledRun(Apply(s, c, a), rest)
    ensures EnabledRun(s, [(c, a)] + rest)
    ensures ApplyRun(s, [(c, a)] + rest) == ApplyRun(Apply(s, c, a), rest)
  {
    assert ([(c, a)] + rest)[1..] == rest;
  }

  /**
   The awkward interleaving: `b` has settled its request, `a` has sent, and then `b` fails. Its
   stop lands between a's send and a's receipt; the receipt is still accepted, and the batch ends
   stopped with nothing open.
   */
  lemma ReceiptAfterStop(s: System, a: nat, b: nat, usage: Usage)
    requires Inv(s) && s.lock.None? && At(s, b).Reporting? && At(s, a).InFlight? && UsageFits(usage, At(s, a).entry)
    ensures var run := [(b, Fail)] + ([(b, LockStop)] + ([(b, WriteStop)] + ([(b, Unlock)] +
              ([(a, Respond(usage))] + ([(a, Match)] + ([(a, WriteReceipt)] + ([(a, Unlock)] + [])))))));
            && EnabledRun(s, run)
            && var e := ApplyRun(s, run);
               && e.journal == s.journal + [Stop(At(s, b).entry.sequence)] + [Receipt(At(s, a).entry.sequence, usage)]
               && Inv(e) && BudgetOf(e.journal).value.stopped && BudgetOf(e.journal).value.pending.None?
  {
    var s1, s2, s3, s4 := StopSteps(s, b);
    assert At(s4, a) == At(s, a);
    var s5, s6, s7, s8 := ReceiptSteps(s4, a, usage);
    hide Apply, Enabled, Inv, BudgetOf, UsageFits;
    RunCons(s7, a, Unlock, []);
    RunCons(s6, a, WriteReceipt, [(a, Unlock)] + []);
    RunCons(s5, a, Match, [(a, WriteReceipt)] + ([(a, Unlock)] + []));
    RunCons(s4, a, Respond(usage), [(a, Match)] + ([(a, WriteReceipt)] + ([(a, Unlock)] + [])));
    var second := [(a, Respond(usage))] + ([(a, Match)] + ([(a, WriteReceipt)] + ([(a, Unlock)] + [])));
    RunCons(s3, b, Unlock, second);
    RunCons(s2, b, WriteStop, [(b, Unlock)] + second);
    RunCons(s1, b, LockStop, [(b, WriteStop)] + ([(b, Unlock)] + second));
    RunCons(s, b, Fail, [(b, LockStop)] + ([(b, WriteStop)] + ([(b, Unlock)] + second)));
  }

  lemma StopSteps(s: System, b: nat) returns (s1: System, s2: System, s3: System, s4: System)
    requires Inv(s) && s.lock.None? && At(s, b).Reporting?
    ensures Enabled(s, b, Fail) && s1 == Apply(s, b, Fail)
    ensures Enabled(s1, b, LockStop) && s2 == Apply(s1, b, LockStop)
    ensures Enabled(s2, b, WriteStop) && s3 == Apply(s2, b, WriteStop)
    ensures Enabled(s3, b, Unlock) && s4 == Apply(s3, b, Unlock)
    ensures Inv(s4) && s4.lock.None? && s4.journal == s.journal + [Stop(At(s, b).entry.sequence)]
    ensures BudgetOf(s4.journal).value.stopped
    ensures forall c :: c != b ==> At(s4, c) == At(s, c)
  {
    hide Inv, BudgetOf;
    s1 := Apply(s, b, Fail);
    StepKeepsInv(s, b, Fail);
    s2 := Apply(s1, b, LockStop);
    StepKeepsInv(s1, b, LockStop);
    s3 := Apply(s2, b, WriteStop);
    StepKeepsInv(s2, b, WriteStop);
    WriteBudget(s2, b, WriteStop);
    s4 := Apply(s3, b, Unlock);
    StepKeepsInv(s3, b, Unlock);
  }

  lemma ReceiptSteps(s: System, a: nat, usage: Usage) returns (s1: System, s2: System, s3: System, s4: System)
    requires Inv(s) && s.lock.None? && At(s, a).InFlight? && UsageFits(usage, At(s, a).entry)
    ensures Enabled(s, a, Respond(usage)) && s1 == Apply(s, a, Respond(usage))
    ensures Enabled(s1, a, Match) && s2 == Apply(s1, a, Match)
    ensures Enabled(s2, a, WriteReceipt) && s3 == Apply(s2, a, WriteReceipt)
    ensures Enabled(s3, a, Unlock) && s4 == Apply(s3, a, Unlock)
    ensures Inv(s4) && s4.journal == s.journal + [Receipt(At(s, a).entry.sequence, usage)]
    ensures BudgetOf(s4.journal).value.pending.None?
    ensures BudgetOf(s4.journal).value.stopped == BudgetOf(s.journal).value.stopped
    ensures s4.lock.None? && At(s4, a) == Reporting(At(s, a).entry)
    ensures forall c :: c != a ==> At(s4, c) == At(s, c)
  {
    s1 := Apply(s, a, Respond(usage));
    StepKeepsInv(s, a, Respond(usage));
    assert StageInv(BudgetOf(s1.journal).value, s1.clients[a]);
    hide BudgetOf, LockInv, OneOwner, UsageFits;
    assert JournalInv(s1);
    hide StagesInv;
    s2 := Apply(s1, a, Match);
    StepKeepsInv(s1, a, Match);
    hide StageInv, JournalInv;
    s3 := Apply(s2, a, WriteReceipt);
    StepKeepsInv(s2, a, WriteReceipt);
    WriteBudget(s2, a, WriteReceipt);
    s4 := Apply(s3, a, Unlock);
    StepKeepsInv(s3, a, Unlock);
  }

  lemma SendSteps(s: System, c: nat, bodyBytes: nat, ceiling: nat) returns (s1: System, s2: System, s3: System, s4: System)
    requires Inv(s) && s.lock.None? && At(s, c).Idle?
    requires MayReserve(BudgetOf(s.journal).value, bodyBytes + 1024, ceiling)
    ensures Enabled(s, c, Begin(bodyBytes, ceiling)) && s1 == Apply(s, c, Begin(bodyBytes, ceiling))
    ensures Enabled(s1, c, Clear) && s2 == Apply(s1, c, Clear)
    ensures Enabled(s2, c, WriteSend) && s3 == Apply(s2, c, WriteSend)
    ensures Enabled(s3, c, Transmit) && s4 == Apply(s3, c, Transmit)
    ensures var r := Reservation(BudgetOf(s.journal).value.requests + 1, bodyBytes + 1024, ceiling);
            && Inv(s4) && s4.lock.None? && s4.journal == s.journal + [Send(r)] && At(s4, c) == InFlight(r)
    ensures forall d :: d != c ==> At(s4, d) == At(s, d)
  {
    hide BudgetOf, MayReserve, StageInv;
    s1 := Apply(s, c, Begin(bodyBytes, ceiling));
    StepKeepsInv(s, c, Begin(bodyBytes, ceiling));
    assert s1.journal == s.journal && Enabled(s1, c, Clear);
    hide Inv;
    s2 := Apply(s1, c, Clear);
    StepKeepsInv(s1, c, Clear);
    s3 := Apply(s2, c, WriteSend);
    StepKeepsInv(s2, c, WriteSend);
    s4 := Apply(s3, c, Transmit);
    StepKeepsInv(s3, c, Transmit);
  }

  lemma {:induction false} RunConcat(s: System, a: seq<(nat, Action)>, b: seq<(nat, Action)>)
    requires EnabledRun(s, a) && EnabledRun(ApplyRun(s, a), b)
    ensures EnabledRun(s, a + b) && ApplyRun(s, a + b) == ApplyRun(ApplyRun(s, a), b)
    decreases |a|
  {
    hide Enabled, Apply;
    if a == [] {
      assert a + b == b;
    } else {
      assert (a + b)[1..] == a[1..] + b;
      RunConcat(Apply(s, a[0].0, a[0].1), a[1..], b);
    }
  }

  /** Four steps that follow each other are a run. */
  lemma RunOfFour(s: System, c: nat, a1: Action, a2: Action, a3: Action, a4: Action)
    requires Enabled(s, c, a1) && Enabled(Apply(s, c, a1), c, a2)
    requires Enabled(Apply(Apply(s, c, a1), c, a2), c, a3)
    requires Enabled(Apply(Apply(Apply(s, c, a1), c, a2), c, a3), c, a4)
    ensures var run := [(c, a1)] + ([(c, a2)] + ([(c, a3)] + ([(c, a4)] + [])));
            EnabledRun(s, run) && ApplyRun(s, run) == Apply(Apply(Apply(Apply(s, c, a1), c, a2), c, a3), c, a4)
  {
    hide Enabled, Apply;
    var s1 := Apply(s, c, a1);
    var s2 := Apply(s1, c, a2);
    var s3 := Apply(s2, c, a3);
    RunCons(s3, c, a4, []);
    RunCons(s2, c, a3, [(c, a4)] + []);
    RunCons(s1, c, a2, [(c, a3)] + ([(c, a4)] + []));
    RunCons(s, c, a1, [(c, a2)] + ([(c, a3)] + ([(c, a4)] + [])));
  }

  /** No error under the lock and no crash. */
  predicate NoFaults(run: seq<(nat, Action)>) {
    forall i :: 0 <= i < |run| ==> !run[i].1.Throw? && !run[i].1.ThrowKeepingLock? && !run[i].1.Crash?
  }

  lemma FaultsConcat(a: seq<(nat, Action)>, b: seq<(nat, Action)>)
    ensures NoFaults(a + b) <==> NoFaults(a) && NoFaults(b)
  {
    assert forall i :: 0 <= i < |a| ==> a[i] == (a + b)[i];
    assert forall i :: 0 <= i < |b| ==> b[i] == (a + b)[|a| + i];
  }

  /** A free client with room in the budget can run up to having its request on the wire. */
  lemma SendRun(s: System, c: nat, bodyBytes: nat, ceiling: nat) returns (run: seq<(nat, Action)>)
    requires Inv(s) && s.lock.None? && At(s, c).Idle?
    requires MayReserve(BudgetOf(s.journal).value, bodyBytes + 1024, ceiling)
    ensures EnabledRun(s, run)
    ensures var r, e := Reservation(BudgetOf(s.journal).value.requests + 1, bodyBytes + 1024, ceiling), ApplyRun(s, run);
            && Inv(e) && e.lock.None? && e.journal == s.journal + [Send(r)] && At(e, c) == InFlight(r)
            && forall d :: d != c ==> At(e, d) == At(s, d)
    ensures NoFaults(run)
  {
    var s1, s2, s3, s4 := SendSteps(s, c, bodyBytes, ceiling);
    hide Inv, BudgetOf, Enabled, Apply, At, MayReserve;
    RunOfFour(s, c, Begin(bodyBytes, ceiling), Clear, WriteSend, Transmit);
    run := [(c, Begin(bodyBytes, ceiling))] + ([(c, Clear)] + ([(c, WriteSend)] + ([(c, Transmit)] + [])));
  }

  /** A request on the wire can run up to its receipt. */
  lemma ReceiptRun(s: System, c: nat, usage: Usage) returns (run: seq<(nat, Action)>)
    requires Inv(s) && s.lock.None? && At(s, c).InFlight? && UsageFits(usage, At(s, c).entry)
    ensures EnabledRun(s, run)
    ensures var e := ApplyRun(s, run);
            && Inv(e) && e.lock.None? && e.journal == s.journal + [Receipt(At(s, c).entry.sequence, usage)]
            && At(e, c) == Reporting(At(s, c).entry)
            && forall d :: d != c ==> At(e, d) == At(s, d)
  {
    var s1, s2, s3, s4 := ReceiptSteps(s, c, usage);
    hide Inv, BudgetOf, Enabled, Apply, At, UsageFits;
    RunOfFour(s, c, Respond(usage), Match, WriteReceipt, Unlock);
    run := [(c, Respond(usage))] + ([(c, Match)] + ([(c, WriteReceipt)] + ([(c, Unlock)] + [])));
  }

  /**
   From a journal with nothing but its header the awkward interleaving really happens: a run with two
   clients ends with send, receipt, send, stop of the first request, receipt of the second.
   */
  lemma AwkwardRunExists(a: nat, b: nat, usage: Usage) returns (run: seq<(nat, Action)>)
    requires a != b && UsageFits(usage, Reservation(0, 1024, 1))
    ensures var s := System([Header(AUTHORIZATION, BATCH_LIMIT)], None, map[]);
            && Initial(s) && EnabledRun(s, run)
            && ApplyRun(s, run).journal == s.journal + [Send(Reservation(1, 1024, 1))] + [Receipt(1, usage)]
                 + [Send(Reservation(2, 1024, 1))] + [Stop(1)] + [Receipt(2, usage)]
  {
    var s := System([Header(AUTHORIZATION, BATCH_LIMIT)], None, map[]);
    var r1, r2 := Reservation(1, 1024, 1), Reservation(2, 1024, 1);
    HeaderOnlyIsInitial();
    InitialInv(s);
    assert At(s, a).Idle? && At(s, b).Idle? && MayReserve(EMPTY, 1024, 1);
    SentAndSettled(s.journal, r1, usage);
    assert UsageFits(usage, r1) && UsageFits(usage, r2);
    hide Inv, BudgetOf, Initial, Enabled, Apply, UsageFits, MayReserve, At, EnabledRun, ApplyRun, NoFaults;
    assert r1 == Reservation(BudgetOf(s.journal).value.requests + 1, 0 + 1024, 1);
    var first := SendRun(s, b, 0, 1);
    var s1 := ApplyRun(s, first);
    assert At(s1, b).entry == r1;
    var second := ReceiptRun(s1, b, usage);
    var s2 := ApplyRun(s1, second);
    assert r2 == Reservation(BudgetOf(s2.journal).value.requests + 1, 0 + 1024, 1);
    var third := SendRun(s2, a, 0, 1);
    var s3 := ApplyRun(s2, third);
    assert At(s3, a).entry == r2 && At(s3, b).entry == r1;
    ReceiptAfterStop(s3, a, b, usage);
    var last := [(b, Fail)] + ([(b, LockStop)] + ([(b, WriteStop)] + ([(b, Unlock)] +
      ([(a, Respond(usage))] + ([(a, Match)] + ([(a, WriteReceipt)] + ([(a, Unlock)] + [])))))));
    RunConcat(s, first, second);
    RunConcat(s, first + second, third);
    RunConcat(s, first + second + third, last);
    run := first + second + third + last;
  }

  lemma HeaderOnlyIsInitial()
    ensures Initial(System([Header(AUTHORIZATION, BATCH_LIMIT)], None, map[]))
    ensures BudgetOf([Header(AUTHORIZATION, BATCH_LIMIT)]) == Ok(EMPTY)
  {
    var journal := [Header(AUTHORIZATION, BATCH_LIMIT)];
    assert BudgetOf(journal) == Ok(EMPTY) by {
      assert journal[0] == Header(AUTHORIZATION, BATCH_LIMIT) && journal[1..] == [];
    }
    hide BudgetOf;
  }

  /** After one settled request of at most 1025 tokens there is room for another. */
  lemma SentAndSettled(journal: seq<Entry>, r: Reservation, usage: Usage)
    requires journal == [Header(AUTHORIZATION, BATCH_LIMIT)] && r == Reservation(1, 1024, 1) && UsageFits(usage, r)
    ensures var after := BudgetOf(journal + [Send(r)] + [Receipt(1, usage)]);
            after.Ok? && after.value.requests == 1 && MayReserve(after.value, 1024, 1)
  {
    HeaderOnlyIsInitial();
    BudgetAppend(journal, Send(r));
    BudgetAppend(journal + [Send(r)], Receipt(1, usage));
  }
}
