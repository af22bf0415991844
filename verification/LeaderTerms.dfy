/**
 Leader terms of the worker: a term's start-up and stop, the drain shared through one promise, and
 the workflow ticks that open the gate for requests. Every promise continuation is a step of its own,
 so ticks of an old term may come in at any later time.
 */
module LeaderTerms {
  import opened Wrappers

  /** The promise of the drain: not asked for, running, or settled one way or the other. */
  datatype Drain = NotAsked | Draining | Drained | DrainFailed

  /**
   A worker generation. `entered` means that its `startWorkers` has begun, `returned` that it is no
   longer running, `failed` that it threw, `closing` that `stopWorkers` was called for it and `closed` that it came back.
   */
  datatype Term = Term(owned: bool, initialized: bool, aborted: bool, entered: bool, returned: bool,
                       failed: bool, timer: bool, closing: bool, closed: bool)

  /** A tick: the term whose closure it runs in, and whether the lease check has passed. */
  datatype Tick = Tick(term: nat, asserted: bool)

  datatype TickResult = Progress | Running | Cancelled

  /**
   The process: its terms, the last one being current; the server's variables; whether recovery has
   published the state "ready"; and the ticks under way. `runs` counts the drains since the last
   start of workers, `good` says that a tick of the current term has succeeded since then.
   */
  datatype World = World(terms: seq<Term>, dispatchAvailable: bool, drain: Drain, published: bool,
                         ticks: multiset<Tick>, runs: nat, good: bool)

  datatype Event =
    | NewTerm                           // recovery creates a generation
    | Acquire(won: bool)                // its election
    | EnterWorkers                      // startWorkers begins: the variables are reset
    | InstallTimer                      // setInterval
    | ReturnWorkers(failed: bool)       // startWorkers comes back or throws
    | Initialize                        // the last lease check of the start-up has passed
    | Publish                           // recovery reports the state it finds
    | Unpublish                         // degraded, blocked, stopping
    | Abort                             // the term is told to stop
    | CallClose                         // stopWorkers is called for it
    | SettleDrain(failed: bool)         // everything has drained, or something was rejected
    | CloseReturns                      // the awaited drain is over for the term
    | CloseRejects                      // the awaited drain has failed: no successor will follow
    | Fire(term: nat)                   // an interval goes off
    | TickOwned(tick: Tick)             // its lease check passes
    | TickDone(tick: Tick, result: TickResult)
    | TickFails(tick: Tick)

  function Current(w: World): Term
    requires w.terms != []
  {
    w.terms[|w.terms| - 1]
  }

  function WithCurrent(w: World, t: Term): World
    requires w.terms != []
  {
    w.(terms := w.terms[|w.terms| - 1 := t])
  }

  /** `startup.ready`. */
  predicate TermReady(t: Term) {
    t.owned && t.initialized && !t.aborted
  }

  /** What `requireWorker` tests before it asks the lease: it lets a request through. */
  predicate GateOpen(w: World) {
    w.terms != [] && w.published && TermReady(Current(w)) && w.dispatchAvailable
  }

  /** A successor waits for the term to be closed and for its start-up to have come back. */
  predicate Finished(t: Term) {
    t.aborted && t.closed && (t.entered ==> t.returned)
  }

  predicate Enabled(w: World, e: Event) {
    match e
    case NewTerm => w.terms == [] || Finished(Current(w))
    case Fire(term) => term < |w.terms| && w.terms[term].timer
    case TickOwned(tick) => tick in w.ticks && !tick.asserted
    case TickDone(tick, _) => tick in w.ticks && tick.asserted
    case TickFails(tick) => tick in w.ticks
    case SettleDrain(_) => w.drain == Draining
    case Unpublish => true
    case _ => w.terms != [] && CurrentEnabled(w, Current(w), e)
  }

  predicate CurrentEnabled(w: World, t: Term, e: Event) {
    match e
    case Acquire(_) => !t.owned && !t.aborted && !t.entered
    case EnterWorkers => t.owned && !t.aborted && !t.entered
    case InstallTimer => t.entered && !t.returned
    case ReturnWorkers(_) => t.entered && !t.returned
    case Initialize => t.owned && t.returned && !t.failed && !t.aborted
    case Publish => true
    case Abort => !t.aborted
    case CallClose => t.aborted && !t.closing
    case CloseReturns => t.closing && !t.closed && w.drain == Drained
    case CloseRejects => t.closing && !t.closed && w.drain == DrainFailed
    case _ => false
  }

  const NEW_TERM := Term(false, false, false, false, false, false, false, false, false)

  function Apply(w: World, e: Event): World
    requires Enabled(w, e)
  {
    match e
    case NewTerm => w.(terms := w.terms + [NEW_TERM], good := false)
    case Acquire(won) => WithCurrent(w, Current(w).(owned := won))
    case EnterWorkers =>
      WithCurrent(w, Current(w).(entered := true)).(drain := NotAsked, dispatchAvailable := false, runs := 0, good := false)
    case InstallTimer => WithCurrent(w, Current(w).(timer := true))
    case ReturnWorkers(failed) => WithCurrent(w, Current(w).(returned := true, failed := failed))
    case Initialize => WithCurrent(w, Current(w).(initialized := true))
    case Publish => w.(published := TermReady(Current(w)))
    case Unpublish => w.(published := false)
    case Abort => WithCurrent(w, Current(w).(aborted := true, initialized := false))
    case CallClose =>
      var called := WithCurrent(w, Current(w).(closing := true));
      if w.drain == NotAsked then called.(drain := Draining, dispatchAvailable := false, runs := w.runs + 1) else called
    case SettleDrain(failed) => w.(drain := if failed then DrainFailed else Drained)
    case CloseReturns => WithCurrent(w, Current(w).(closed := true, owned := false))
    case CloseRejects => WithCurrent(w, Current(w).(owned := false))
    case Fire(term) => w.(ticks := w.ticks + multiset{Tick(term, false)})
    case TickOwned(tick) => w.(ticks := w.ticks - multiset{tick} + multiset{Tick(tick.term, true)})
    case TickDone(tick, result) =>
      var done := w.(ticks := w.ticks - multiset{tick});
      if tick.term < |w.terms| && !w.terms[tick.term].aborted && result == Progress
      then done.(dispatchAvailable := true, good := true) else done
    case TickFails(tick) => w.(ticks := w.ticks - multiset{tick}, dispatchAvailable := false)
  }

  predicate Initial(w: World) {
    w == World([], false, NotAsked, false, multiset{}, 0, false)
  }

  predicate EnabledRun(w: World, run: seq<Event>)
    decreases |run|
  {
    run == [] || (Enabled(w, run[0]) && EnabledRun(Apply(w, run[0]), run[1..]))
  }

  function ApplyRun(w: World, run: seq<Event>): World
    requires EnabledRun(w, run)
    decreases |run|
  {
    if run == [] then w else ApplyRun(Apply(w, run[0]), run[1..])
  }

  // The invariant

  /** What holds of a term at any time. */
  predicate TermInv(t: Term) {
    && (t.closing ==> t.aborted)
    && (t.closed ==> t.closing && !t.owned)
    && (t.initialized ==> t.returned && !t.aborted)
    && (t.returned ==> t.entered)
    && (t.timer ==> t.entered)
  }

  predicate TermsInv(w: World) {
    && (forall i :: 0 <= i < |w.terms| ==> TermInv(w.terms[i]))
    && (forall i :: 0 <= i < |w.terms| - 1 ==> Finished(w.terms[i]))
  }

  predicate TicksInv(w: World) {
    forall tick :: tick in w.ticks ==> tick.term < |w.terms| && w.terms[tick.term].entered
  }

  /** The gate's flag belongs to a good tick of the current, running term. */
  predicate GateInv(w: World) {
    if w.terms == [] then !w.dispatchAvailable && w.drain == NotAsked
    else
      var t := Current(w);
      && (w.dispatchAvailable ==> t.entered && !t.closing && w.good)
      && (w.good ==> t.entered)
      && (t.entered && w.drain != NotAsked ==> t.closing)
      && (t.closing ==> w.drain != NotAsked)
  }

  /** The drain has run at most once since workers last started. */
  predicate DrainInv(w: World) {
    w.runs == if w.drain == NotAsked then 0 else 1
  }

  predicate Inv(w: World) {
    TermsInv(w) && TicksInv(w) && GateInv(w) && DrainInv(w)
  }

  lemma StepKeepsTerms(w: World, e: Event)
    requires TermsInv(w) && Enabled(w, e)
    ensures TermsInv(Apply(w, e))
  {
  }

  lemma EnteredStays(w: World, e: Event, i: nat)
    requires Enabled(w, e) && i < |w.terms| && w.terms[i].entered
    ensures i < |Apply(w, e).terms| && Apply(w, e).terms[i].entered
  {
    hide Finished;
  }

  lemma TicksComeFrom(w: World, e: Event, tick: Tick)
    requires Enabled(w, e) && tick in Apply(w, e).ticks
    ensures tick in w.ticks || (e.Fire? && tick.term == e.term) || (e.TickOwned? && tick.term == e.tick.term)
  {
  }

  lemma StepKeepsTicks(w: World, e: Event)
    requires TermsInv(w) && TicksInv(w) && Enabled(w, e)
    ensures TicksInv(Apply(w, e))
  {
    hide Apply, Finished;
    assert e.Fire? ==> TermInv(w.terms[e.term]);
    assert e.TickOwned? ==> e.tick in w.ticks;
    forall tick | tick in Apply(w, e).ticks
      ensures tick.term < |Apply(w, e).terms| && Apply(w, e).terms[tick.term].entered
    {
      TicksComeFrom(w, e, tick);
      EnteredStays(w, e, tick.term);
    }
  }

  lemma TickDoneKeepsGate(w: World, tick: Tick, result: TickResult)
    requires TermsInv(w) && TicksInv(w) && GateInv(w) && Enabled(w, TickDone(tick, result))
    ensures GateInv(Apply(w, TickDone(tick, result)))
  {
    assert tick.term < |w.terms| && w.terms[tick.term].entered;
    assert tick.term < |w.terms| - 1 ==> Finished(w.terms[tick.term]);
    assert TermInv(w.terms[|w.terms| - 1]);
    hide TicksInv, TermsInv;
  }

  lemma OthersKeepGate(w: World, e: Event)
    requires GateInv(w) && Enabled(w, e) && !e.TickDone?
    requires w.terms != [] ==> TermInv(Current(w))
    ensures GateInv(Apply(w, e))
  {
  }

  lemma StepKeepsGate(w: World, e: Event)
    requires TermsInv(w) && TicksInv(w) && GateInv(w) && Enabled(w, e)
    ensures GateInv(Apply(w, e))
  {
    assert w.terms != [] ==> TermInv(w.terms[|w.terms| - 1]);
    hide TermsInv, TicksInv, GateInv, Apply, Enabled, TermInv;
    match e {
      case TickDone(tick, result) => TickDoneKeepsGate(w, tick, result);
      case _ => OthersKeepGate(w, e);
    }
  }

  lemma StepKeepsDrain(w: World, e: Event)
    requires DrainInv(w) && Enabled(w, e)
    ensures DrainInv(Apply(w, e))
  {
  }

  lemma StepKeepsInv(w: World, e: Event)
    requires Inv(w) && Enabled(w, e)
    ensures Inv(Apply(w, e))
  {
    hide TermsInv, TicksInv, GateInv, DrainInv, Apply, Enabled;
    StepKeepsTerms(w, e);
    StepKeepsTicks(w, e);
    StepKeepsGate(w, e);
    StepKeepsDrain(w, e);
  }

  lemma {:induction false} RunKeepsInv(w: World, run: seq<Event>)
    requires Inv(w) && EnabledRun(w, run)
    ensures Inv(ApplyRun(w, run))
    decreases |run|
  {
    hide Inv, Apply, Enabled;
    if run != [] {
      StepKeepsInv(w, run[0]);
      RunKeepsInv(Apply(w, run[0]), run[1..]);
    }
  }

  // What holds in every run

  /**
   Whenever a request is let through, the current term owns the lease, has not been told to stop, has
   started its workers and has had a good tick since; no drain has been asked for, and every earlier
   term has been aborted, drained and has come back.
   */
  lemma GateOpensOnlyInRunningTerm(w: World, run: seq<Event>)
    requires Initial(w) && EnabledRun(w, run) && GateOpen(ApplyRun(w, run))
    ensures var e := ApplyRun(w, run);
            var t := Current(e);
            && t.owned && !t.aborted && t.entered && t.returned && e.good && e.drain == NotAsked
            && forall i :: 0 <= i < |e.terms| - 1 ==> Finished(e.terms[i])
  {
    RunKeepsInv(w, run);
    var e := ApplyRun(w, run);
    assert TermInv(e.terms[|e.terms| - 1]);
  }

  /** Only a tick of the current term, not told to stop, ever sets the flag. */
  lemma OldTicksNeverOpen(w: World, run: seq<Event>, e: Event)
    requires Initial(w) && EnabledRun(w, run) && Enabled(ApplyRun(w, run), e)
    requires !ApplyRun(w, run).dispatchAvailable && Apply(ApplyRun(w, run), e).dispatchAvailable
    ensures e.TickDone? && e.result == Progress
    ensures var before := ApplyRun(w, run);
            before.terms != [] && e.tick.term == |before.terms| - 1 && !Current(before).aborted
  {
    hide EnabledRun, ApplyRun, Enabled, Apply, Inv;
    InitialInv(w);
    RunKeepsInv(w, run);
    FlagIsSetBy(ApplyRun(w, run), e);
  }

  lemma FlagIsSetBy(w: World, e: Event)
    requires Inv(w) && Enabled(w, e)
    requires !w.dispatchAvailable && Apply(w, e).dispatchAvailable
    ensures e.TickDone? && e.result == Progress
    ensures w.terms != [] && e.tick.term == |w.terms| - 1 && !Current(w).aborted
  {
    assert e.TickDone?;
    var term := e.tick.term;
    assert term < |w.terms| && !w.terms[term].aborted;
    assert term < |w.terms| - 1 ==> Finished(w.terms[term]);
    hide TermsInv, TicksInv, GateInv, DrainInv;
  }

  /** How often the body of the drain is started in a run. */
  function DrainStarts(w: World, run: seq<Event>): nat
    requires EnabledRun(w, run)
    decreases |run|
  {
    if run == [] then 0
    else (if run[0].CallClose? && w.drain == NotAsked then 1 else 0) + DrainStarts(Apply(w, run[0]), run[1..])
  }

  predicate NoStart(run: seq<Event>) {
    forall i :: 0 <= i < |run| ==> !run[i].EnterWorkers?
  }

  /** The `n`-th term has started its workers, and once it is being closed its drain has been asked for. */
  predicate StartedBy(w: World, n: nat) {
    && n < |w.terms| && w.terms[n].entered
    && (w.terms[n].closing ==> w.drain != NotAsked)
  }

  lemma StepKeepsStarted(w: World, e: Event, n: nat)
    requires TermsInv(w) && Enabled(w, e) && !e.EnterWorkers? && StartedBy(w, n)
    ensures StartedBy(Apply(w, e), n)
    ensures Apply(w, e).runs == w.runs + if e.CallClose? && w.drain == NotAsked then 1 else 0
  {
    EnteredStays(w, e, n);
    hide Finished, TermInv;
  }

  lemma {:induction false} RunCountsDrains(w: World, run: seq<Event>, n: nat)
    requires Inv(w) && EnabledRun(w, run) && NoStart(run) && StartedBy(w, n)
    ensures Inv(ApplyRun(w, run)) && StartedBy(ApplyRun(w, run), n)
    ensures ApplyRun(w, run).runs == w.runs + DrainStarts(w, run)
    decreases |run|
  {
    if run != [] {
      StepKeepsInv(w, run[0]);
      StepKeepsStarted(w, run[0], n);
      hide Inv, Apply, Enabled, StartedBy;
      RunCountsDrains(Apply(w, run[0]), run[1..], n);
    }
  }

  /**
   From the start of a term's workers to the next start the drain runs at most once, however often it is
   asked for: not before the term is told to stop, and exactly once by the time the term is closed.
   */
  lemma DrainsOnce(w: World, before: seq<Event>, after: seq<Event>)
    requires Initial(w) && EnabledRun(w, before) && Enabled(ApplyRun(w, before), EnterWorkers)
    requires var f := Apply(ApplyRun(w, before), EnterWorkers);
             EnabledRun(f, after) && NoStart(after)
    ensures var n := |ApplyRun(w, before).terms| - 1;
            var f := Apply(ApplyRun(w, before), EnterWorkers);
            var g := ApplyRun(f, after);
            && 0 <= n < |g.terms| && DrainStarts(f, after) <= 1
            && (!g.terms[n].aborted ==> DrainStarts(f, after) == 0)
            && (g.terms[n].closed ==> DrainStarts(f, after) == 1)
  {
    hide Inv, Apply, Enabled, StartedBy, EnabledRun, ApplyRun, DrainStarts;
    InitialInv(w);
    RunKeepsInv(w, before);
    var e := ApplyRun(w, before);
    var f := Apply(e, EnterWorkers);
    StepKeepsInv(e, EnterWorkers);
    StartStarts(e);
    RunCountsDrains(f, after, |e.terms| - 1);
    DrainsAsOf(ApplyRun(f, after), |e.terms| - 1);
  }

  lemma InitialInv(w: World)
    requires Initial(w)
    ensures Inv(w)
  {
  }

  lemma StartStarts(w: World)
    requires Inv(w) && Enabled(w, EnterWorkers)
    ensures w.terms != [] && StartedBy(Apply(w, EnterWorkers), |w.terms| - 1) && Apply(w, EnterWorkers).runs == 0
  {
    assert TermInv(w.terms[|w.terms| - 1]);
  }

  lemma DrainsAsOf(w: World, n: nat)
    requires Inv(w) && StartedBy(w, n)
    ensures n < |w.terms| && w.runs <= 1
    ensures !w.terms[n].aborted ==> w.runs == 0
    ensures w.terms[n].closed ==> w.runs == 1
  {
    assert TermInv(w.terms[n]);
    assert n < |w.terms| - 1 ==> Finished(w.terms[n]);
  }

  /** No term beyond the first `n` has had a good tick, and the n-th has been told to stop. */
  predicate Shut(w: World, n: nat) {
    && 0 < n <= |w.terms|
    && w.terms[n - 1].aborted
    && (|w.terms| > n ==> !w.good)
  }

  lemma StepKeepsShut(w: World, e: Event, n: nat)
    requires Inv(w) && Enabled(w, e) && Shut(w, n)
    requires !(e.TickDone? && e.result == Progress && e.tick.term >= n)
    ensures Shut(Apply(w, e), n)
  {
    if e.TickDone? {
      assert e.tick.term < n ==> e.tick.term < |w.terms| && (e.tick.term == n - 1 || Finished(w.terms[e.tick.term]));
    }
  }

  /**
   Once a term has been told to stop, no request is let through until a later term has had a good
   tick: in any run that ends with the gate open there is one.
   */
  lemma {:induction false} ShutUntilNextGoodTick(w: World, run: seq<Event>, n: nat) returns (i: nat)
    requires Inv(w) && Shut(w, n) && EnabledRun(w, run) && GateOpen(ApplyRun(w, run))
    ensures i < |run| && run[i].TickDone? && run[i].result == Progress && run[i].tick.term >= n
    decreases |run|
  {
    hide Inv, Shut, Apply, Enabled;
    i := 0;
    if run == [] {
      ShutIsClosed(w, n);
      assert false;
    } else if run[0].TickDone? && run[0].result == Progress && run[0].tick.term >= n {
    } else {
      StepKeepsInv(w, run[0]);
      StepKeepsShut(w, run[0], n);
      i := ShutUntilNextGoodTick(Apply(w, run[0]), run[1..], n);
      i := i + 1;
    }
  }

  lemma ShutIsClosed(w: World, n: nat)
    requires Inv(w) && Shut(w, n)
    ensures !GateOpen(w)
  {
  }

  /** The same, for whole runs from the start. */
  lemma StoppedTermStaysShut(w: World, run: seq<Event>, more: seq<Event>) returns (i: nat)
    requires Initial(w) && EnabledRun(w, run) && EnabledRun(ApplyRun(w, run), more)
    requires ApplyRun(w, run).terms != [] && Current(ApplyRun(w, run)).aborted
    requires GateOpen(ApplyRun(ApplyRun(w, run), more))
    ensures i < |more| && more[i].TickDone? && more[i].result == Progress
    ensures more[i].tick.term >= |ApplyRun(w, run).terms|
  {
    RunKeepsInv(w, run);
    var e := ApplyRun(w, run);
    i := ShutUntilNextGoodTick(e, more, |e.terms|);
  }

  // Failing ticks

  /** A tick that fails, of whatever term, shuts the gate; a good one of a term not told to stop sets the flag. */
  lemma TicksDecide(w: World, tick: Tick)
    ensures Enabled(w, TickFails(tick)) ==>
              !Apply(w, TickFails(tick)).dispatchAvailable && !GateOpen(Apply(w, TickFails(tick)))
    ensures Inv(w) && Enabled(w, TickDone(tick, Progress)) && !w.terms[tick.term].aborted ==>
              Apply(w, TickDone(tick, Progress)).dispatchAvailable
    ensures forall result :: Enabled(w, TickDone(tick, result)) && result != Progress ==>
              Apply(w, TickDone(tick, result)).dispatchAvailable == w.dispatchAvailable
  {
    assert Inv(w) && tick in w.ticks ==> tick.term < |w.terms|;
  }

  /** The step at `i` is a good tick of the term that is current then and has not been told to stop. */
  predicate OpensAt(w: World, run: seq<Event>, i: nat)
    requires EnabledRun(w, run) && i < |run|
    decreases |run|
  {
    if i > 0 then OpensAt(Apply(w, run[0]), run[1..], i - 1)
    else
      && run[0].TickDone? && run[0].result == Progress
      && w.terms != [] && run[0].tick.term == |w.terms| - 1 && !Current(w).aborted
  }

  /** While the flag is down no request is let through until such a tick has come back. */
  lemma {:induction false} ReopenedBy(w: World, run: seq<Event>) returns (i: nat)
    requires Inv(w) && !w.dispatchAvailable && EnabledRun(w, run) && GateOpen(ApplyRun(w, run))
    ensures i < |run| && OpensAt(w, run, i)
    decreases |run|
  {
    hide Inv, Apply, Enabled;
    i := 0;
    if run == [] {
      assert false;
    } else if Apply(w, run[0]).dispatchAvailable {
      FlagIsSetBy(w, run[0]);
    } else {
      StepKeepsInv(w, run[0]);
      i := ReopenedBy(Apply(w, run[0]), run[1..]);
      i := i + 1;
    }
  }

  /**
   Over whole runs: after a failing tick of any term, old or new, every continuation that ends with the
   gate open contains a later good tick of the term that is current by then.
   */
  lemma FailedTickShuts(w: World, run: seq<Event>, tick: Tick, more: seq<Event>) returns (i: nat)
    requires Initial(w) && EnabledRun(w, run) && Enabled(ApplyRun(w, run), TickFails(tick))
    requires var e := Apply(ApplyRun(w, run), TickFails(tick));
             EnabledRun(e, more) && GateOpen(ApplyRun(e, more))
    ensures i < |more| && OpensAt(Apply(ApplyRun(w, run), TickFails(tick)), more, i)
  {
    var before := ApplyRun(w, run);
    TicksDecide(before, tick);
    hide Inv, Apply, Enabled, EnabledRun, ApplyRun, GateOpen, OpensAt;
    InitialInv(w);
    RunKeepsInv(w, run);
    StepKeepsInv(before, TickFails(tick));
    i := ReopenedBy(Apply(before, TickFails(tick)), more);
  }

  // What recovery has published

  predicate NoPublish(run: seq<Event>) {
    forall i :: 0 <= i < |run| ==> !run[i].Publish?
  }

  /** Once recovery has reported that it is not ready, no request is let through before it publishes again. */
  lemma {:induction false} UnpublishedIsShut(w: World, run: seq<Event>)
    requires EnabledRun(w, run) && NoPublish(run) && !w.published
    ensures !GateOpen(ApplyRun(w, run))
    decreases |run|
  {
    if run != [] {
      assert !Apply(w, run[0]).published;
      hide Apply, Enabled;
      UnpublishedIsShut(Apply(w, run[0]), run[1..]);
    }
  }

  // A term that opens the gate

  /** A world with one term, before its tick and after. */
  function OneTerm(t: Term, published: bool, ticks: multiset<Tick>): World {
    World([t], false, NotAsked, published, ticks, 0, false)
  }

  lemma RunCons(w: World, e: Event, v: World, rest: seq<Event>)
    requires Enabled(w, e) && Apply(w, e) == v && EnabledRun(v, rest)
    ensures EnabledRun(w, [e] + rest) && ApplyRun(w, [e] + rest) == ApplyRun(v, rest)
  {
    assert ([e] + rest)[1..] == rest;
  }

  lemma RunOne(w: World, e: Event)
    requires Enabled(w, e)
    ensures EnabledRun(w, [e]) && ApplyRun(w, [e]) == Apply(w, e)
  {
    assert [e][1..] == [];
  }

  const RUNNING_TERM := Term(true, true, false, true, true, false, true, false, false)

  /** From a running term the first good tick opens the gate. */
  lemma TickOpens() returns (run: seq<Event>)
    ensures var w := OneTerm(RUNNING_TERM, true, multiset{});
            EnabledRun(w, run) && GateOpen(ApplyRun(w, run))
  {
    var before, owned := Tick(0, false), Tick(0, true);
    var w := OneTerm(RUNNING_TERM, true, multiset{});
    var w1 := OneTerm(RUNNING_TERM, true, multiset{before});
    var w2 := OneTerm(RUNNING_TERM, true, multiset{owned});
    var done := TickDone(owned, Progress);
    RunOne(w2, done);
    assert GateOpen(Apply(w2, done));
    hide EnabledRun, ApplyRun, GateOpen;
    run := [done];
    assert multiset{before} - multiset{before} + multiset{owned} == multiset{owned};
    RunCons(w1, TickOwned(before), w2, run);
    run := [TickOwned(before)] + run;
    assert multiset{} + multiset{before} == multiset{before};
    RunCons(w, Fire(0), w1, run);
    run := [Fire(0)] + run;
  }

  /** A term whose workers have come back is published, and its first tick opens the gate. */
  lemma ReturnedOpens() returns (run: seq<Event>)
    ensures var w := OneTerm(RUNNING_TERM.(initialized := false), false, multiset{});
            EnabledRun(w, run) && GateOpen(ApplyRun(w, run))
  {
    var none := multiset{};
    var returned := RUNNING_TERM.(initialized := false);
    run := TickOpens();
    hide GateOpen, EnabledRun, ApplyRun;
    RunCons(OneTerm(RUNNING_TERM, false, none), Publish, OneTerm(RUNNING_TERM, true, none), run);
    run := [Publish] + run;
    RunCons(OneTerm(returned, false, none), Initialize, OneTerm(RUNNING_TERM, false, none), run);
    run := [Initialize] + run;
  }

  /** The gate does open: a run from the start through a whole start-up and a first tick. */
  lemma GateCanOpen(w: World) returns (run: seq<Event>)
    requires Initial(w)
    ensures EnabledRun(w, run) && GateOpen(ApplyRun(w, run))
  {
    var none := multiset{};
    var acquired := NEW_TERM.(owned := true);
    var entered := acquired.(entered := true);
    var timed := entered.(timer := true);
    var returned := RUNNING_TERM.(initialized := false);
    run := ReturnedOpens();
    hide GateOpen, EnabledRun, ApplyRun, Finished;
    RunCons(OneTerm(timed, false, none), ReturnWorkers(false), OneTerm(returned, false, none), run);
    run := [ReturnWorkers(false)] + run;
    RunCons(OneTerm(entered, false, none), InstallTimer, OneTerm(timed, false, none), run);
    run := [InstallTimer] + run;
    RunCons(OneTerm(acquired, false, none), EnterWorkers, OneTerm(entered, false, none), run);
    run := [EnterWorkers] + run;
    RunCons(OneTerm(NEW_TERM, false, none), Acquire(true), OneTerm(acquired, false, none), run);
    run := [Acquire(true)] + run;
    RunCons(w, NewTerm, OneTerm(NEW_TERM, false, none), run);
    run := [NewTerm] + run;
  }

  // The server's closures

  /** The variables of the server that its closures share. */
  class Server {
    var dispatchAvailable: bool
    var stopWorkersPromise: Drain
    var workflowTimer: Option<nat>

    constructor ()
      ensures !dispatchAvailable && stopWorkersPromise == NotAsked && workflowTimer.None?
    {
      dispatchAvailable, stopWorkersPromise, workflowTimer := false, NotAsked, None;
    }

    /** The variables agree with a state of the world. */
    predicate Shows(w: World)
      reads this
    {
      dispatchAvailable == w.dispatchAvailable && stopWorkersPromise == w.drain
    }

    /** `stopWorkersPromise ??= ...`: the body runs for the first caller only. */
    method StopWorkers()
      modifies this
      ensures forall w: World :: old(Shows(w)) && Enabled(w, CallClose) ==> Shows(Apply(w, CallClose))
      ensures old(stopWorkersPromise) == NotAsked ==>
                workflowTimer.None? && !dispatchAvailable && stopWorkersPromise == Draining
      ensures old(stopWorkersPromise) != NotAsked ==>
                dispatchAvailable == old(dispatchAvailable) && stopWorkersPromise == old(stopWorkersPromise)
      ensures old(stopWorkersPromise) != NotAsked ==> workflowTimer == old(workflowTimer)
    {
      if stopWorkersPromise != NotAsked {
        return;
      }
      stopWorkersPromise := Draining;
      dispatchAvailable := false;
      if workflowTimer.Some? {
        workflowTimer := None;
      }
    }

    /** The head of `startWorkers`: after a failed initialisation nothing is reset. */
    method BeginWorkers(apiInitialized: bool) returns (began: bool)
      modifies this
      ensures began == apiInitialized
      ensures began ==> !dispatchAvailable && stopWorkersPromise == NotAsked
      ensures began ==> forall w: World :: old(Shows(w)) && Enabled(w, EnterWorkers) ==> Shows(Apply(w, EnterWorkers))
      ensures !began ==> dispatchAvailable == old(dispatchAvailable) && stopWorkersPromise == old(stopWorkersPromise)
      ensures workflowTimer == old(workflowTimer)
    {
      if !apiInitialized {
        return false;
      }
      stopWorkersPromise := NotAsked;
      dispatchAvailable := false;
      return true;
    }

    /** The check before a request: an error code, or nothing where the request is let through. */
    method RequireWorker(ready: bool, owned: bool) returns (refusal: Option<nat>)
      ensures refusal == None <==> ready && dispatchAvailable && owned
      ensures refusal != None ==> refusal == Some(503)
      ensures forall w: World :: Shows(w) && ready == (w.terms != [] && w.published && TermReady(Current(w))) ==>
                (refusal == None ==> GateOpen(w)) && (GateOpen(w) && owned ==> refusal == None)
    {
      if !ready || !dispatchAvailable {
        return Some(503);
      }
      if !owned {
        return Some(503);
      }
      return None;
    }

    /** A tick's work has come back; the signal is that of the term the tick was started in. */
    method TickReturns(tick: Tick, result: TickResult, aborted: bool)
      modifies this`dispatchAvailable
      ensures dispatchAvailable <==> old(dispatchAvailable) || (!aborted && result == Progress)
      ensures forall w: World ::
                && old(Shows(w)) && Enabled(w, TickDone(tick, result))
                && tick.term < |w.terms| && w.terms[tick.term].aborted == aborted ==>
                Shows(Apply(w, TickDone(tick, result)))
    {
      if !aborted && result != Running && result != Cancelled {
        dispatchAvailable := true;
      }
    }

    method TickThrows(tick: Tick)
      modifies this`dispatchAvailable
      ensures !dispatchAvailable
      ensures forall w: World :: old(Shows(w)) && Enabled(w, TickFails(tick)) ==> Shows(Apply(w, TickFails(tick)))
    {
      dispatchAvailable := false;
    }
  }
}
