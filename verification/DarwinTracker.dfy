/**
 The tracker on macOS, where there is no subreaper: a process that loses its parent becomes a child of
 pid 1. There every process the tracker creates is told to append the pids it forks to the tracker's
 file. A fork and the line about it are two steps; in between the child runs, and the parent may die.
 */
module DarwinTracker {
  import opened ProcessTree
  import opened PidFile
  import Linux = ProcessTracker

  /**
   The process table and the records; `pending` holds the forks whose creator has yet to write the
   line, and `lost` the pids whose line will never be written.
   */
  datatype State = State(base: Linux.State, pending: map<nat, nat>, lost: set<nat>)

  datatype Event =
    | Spawn(pid: nat)                            // the tracker forks a service and writes its line
    | Fork(parent: nat, pid: nat)                // any other process forks
    | Record(pid: nat)                           // the creator writes the line
    | Lose(pid: nat)                             // it cannot open the file
    | Exit(pid: nat, status: Linux.WaitStatus)
    | Wait(parent: nat, pid: nat)
    | Reap
    | Permit(pid: nat, allowed: bool)

  predicate Enabled(s: State, e: Event) {
    var k := s.base.kernel;
    match e
    case Spawn(pid) => Linux.Enabled(s.base, Linux.Spawn(pid))
    case Fork(parent, pid) => Linux.Enabled(s.base, Linux.Fork(parent, pid))
    case Record(pid) => pid in s.pending
    case Lose(pid) => pid in s.pending
    case Exit(pid, _) => pid in k.table && pid > 1 && pid != k.me && k.table[pid].running
    case Wait(parent, pid) => Linux.Enabled(s.base, Linux.Wait(parent, pid))
    case Reap => true
    case Permit(pid, allowed) => Linux.Enabled(s.base, Linux.Permit(pid, allowed))
  }

  /** The pids a process was about to write down. */
  function Unwritten(pending: map<nat, nat>, creator: nat): set<nat> {
    set p | p in pending && pending[p] == creator
  }

  /** The children of a process that exits go to pid 1, and what it had not written down is lost. */
  function Exited(s: State, pid: nat, status: Linux.WaitStatus): State
    requires pid in s.base.kernel.table
  {
    var k := s.base.kernel;
    var gone := Unwritten(s.pending, pid);
    var table := k.table[pid := k.table[pid].(running := false, status := status)];
    State(s.base.(kernel := k.(table := Linux.Reparent(table, pid, 1))), s.pending - gone, s.lost + gone)
  }

  function Apply(s: State, e: Event): State
    requires Enabled(s, e)
  {
    match e
    case Spawn(pid) => s.(base := Linux.Apply(s.base, Linux.Spawn(pid)))
    case Fork(parent, pid) =>
      State(Linux.Apply(s.base, Linux.Fork(parent, pid)),
            if s.base.kernel.table[parent].ours then s.pending[pid := parent] else s.pending, s.lost)
    case Record(pid) =>
      State(s.base.(file := s.base.file + Decimal(pid) + "\n"), s.pending - {pid}, s.lost)
    case Lose(pid) => State(s.base, s.pending - {pid}, s.lost + {pid})
    case Exit(pid, status) => Exited(s, pid, status)
    case Wait(parent, pid) => s.(base := Linux.Apply(s.base, Linux.Wait(parent, pid)))
    case Reap => s.(base := Linux.Apply(s.base, Linux.Reap))
    case Permit(pid, allowed) => s.(base := Linux.Apply(s.base, Linux.Permit(pid, allowed)))
  }

  /** The tracker has just started; pid 1 runs. */
  predicate Initial(s: State) {
    && Linux.Initial(s.base) && s.pending == map[] && s.lost == {}
    && 1 in s.base.kernel.table && s.base.kernel.table[1].running
  }

  /** No step of the run gives a pid that has been in use before. */
  predicate FreshRun(s: State, run: seq<Event>)
    decreases |run|
  {
    run == [] ||
    (&& Enabled(s, run[0])
     && (run[0].Spawn? || run[0].Fork? ==> run[0].pid !in s.base.kernel.used)
     && FreshRun(Apply(s, run[0]), run[1..]))
  }

  function ApplyRun(s: State, run: seq<Event>): State
    requires FreshRun(s, run)
    decreases |run|
  {
    if run == [] then s else ApplyRun(Apply(s, run[0]), run[1..])
  }

  // The invariant

  predicate KernelInv(k: Linux.Kernel) {
    && k.me in k.table && k.table[k.me].running && !k.table[k.me].ours
    && 1 in k.table && k.table[1].running && !k.table[1].ours
    && k.table.Keys <= k.used
    && (forall p :: p in k.table && k.table[p].ours ==> k.table[p].parent in k.table && k.table[k.table[p].parent].running)
    && Linux.ForeignOutside(k)
  }

  /** Whatever is written down or about to be is, while it is in the table, one of the tracker's. */
  predicate RecordsInv(s: State) {
    var k := s.base.kernel;
    && WholeLines(s.base.file)
    && s.base.spawned <= Recorded(s.base.file) <= k.used
    && (forall p :: p in Recorded(s.base.file) && p in k.table ==> k.table[p].ours)
  }

  predicate PendingInv(s: State) {
    var k := s.base.kernel;
    forall p :: p in s.pending ==>
      && p > 1 && p in k.used && (p in k.table ==> k.table[p].ours)
      && s.pending[p] in k.table && k.table[s.pending[p]].running && k.table[s.pending[p]].ours
  }

  /** Every process of the tracker is written down, about to be, or lost. */
  predicate Accounted(s: State) {
    var k := s.base.kernel;
    forall p :: p in k.table && k.table[p].ours ==> p in Recorded(s.base.file) || p in s.pending || p in s.lost
  }

  predicate Inv(s: State) {
    KernelInv(s.base.kernel) && RecordsInv(s) && PendingInv(s) && Accounted(s)
  }

  lemma InitialInv(s: State)
    requires Initial(s)
    ensures Inv(s)
  {
  }

  lemma AddKeepsKernel(k: Linux.Kernel, pid: nat, parent: nat, process: Linux.Process)
    requires KernelInv(k) && Linux.NewPid(k, pid) && process.parent == parent
    requires parent in k.table && k.table[parent].running
    requires process.ours <==> parent == k.me || k.table[parent].ours
    ensures KernelInv(Linux.AddProcess(k, pid, process))
  {
  }

  lemma ExitKeepsKernel(s: State, pid: nat, status: Linux.WaitStatus)
    requires KernelInv(s.base.kernel) && Enabled(s, Exit(pid, status))
    ensures KernelInv(Exited(s, pid, status).base.kernel)
  {
  }

  lemma RemovalKeepsKernel(k: Linux.Kernel, gone: set<nat>)
    requires KernelInv(k)
    requires forall p :: p in gone && p in k.table ==> !k.table[p].running
    ensures KernelInv(k.(table := k.table - gone))
  {
  }

  lemma PermitKeepsKernel(k: Linux.Kernel, pid: nat, allowed: bool)
    requires KernelInv(k) && pid in k.table
    ensures KernelInv(k.(table := k.table[pid := k.table[pid].(signalable := allowed)]))
  {
  }

  lemma StepKeepsKernel(s: State, e: Event)
    requires KernelInv(s.base.kernel) && Enabled(s, e)
    ensures KernelInv(Apply(s, e).base.kernel)
  {
    var k := s.base.kernel;
    assert k.me in k.table && k.table[k.me].running;
    hide Decimal, KernelInv;
    match e {
      case Spawn(pid) => AddKeepsKernel(k, pid, k.me, Linux.Process(k.me, k.clock, true, true, true, Linux.NO_STATUS));
      case Fork(parent, pid) =>
        var p := k.table[parent];
        AddKeepsKernel(k, pid, parent, Linux.Process(parent, k.clock, true, p.ours, p.signalable, Linux.NO_STATUS));
      case Exit(pid, status) => ExitKeepsKernel(s, pid, status);
      case Wait(_, pid) => RemovalKeepsKernel(k, {pid});
      case Reap => RemovalKeepsKernel(k, Linux.Zombies(k));
      case Permit(pid, allowed) => PermitKeepsKernel(k, pid, allowed);
      case _ =>
    }
  }

  /** What a step writes into the file. */
  lemma StepRecords(s: State, e: Event)
    requires WholeLines(s.base.file) && Enabled(s, e) && (e.Record? ==> e.pid > 1)
    ensures WholeLines(Apply(s, e).base.file)
    ensures Recorded(Apply(s, e).base.file) == Recorded(s.base.file) + if e.Spawn? || e.Record? then {e.pid} else {}
  {
    hide Recorded, WholeLines;
    if e.Spawn? || e.Record? {
      RecordAppends(s.base.file, e.pid);
    }
  }

  lemma StepKeepsRecords(s: State, e: Event)
    requires RecordsInv(s) && PendingInv(s) && Enabled(s, e)
    requires e.Spawn? || e.Fork? ==> e.pid !in s.base.kernel.used
    ensures RecordsInv(Apply(s, e))
  {
    StepRecords(s, e);
    hide Decimal, Recorded, WholeLines;
  }

  lemma StepKeepsPending(s: State, e: Event)
    requires KernelInv(s.base.kernel) && PendingInv(s) && Enabled(s, e)
    requires e.Spawn? || e.Fork? ==> e.pid !in s.base.kernel.used
    ensures PendingInv(Apply(s, e))
  {
    hide Decimal, Linux.ForeignHangs, Linux.Codes;
  }

  lemma StepKeepsAccounted(s: State, e: Event)
    requires RecordsInv(s) && PendingInv(s) && Accounted(s) && Enabled(s, e)
    ensures Accounted(Apply(s, e))
  {
    StepRecords(s, e);
    hide Decimal, Recorded, WholeLines;
  }

  lemma StepKeepsInv(s: State, e: Event)
    requires Inv(s) && Enabled(s, e)
    requires e.Spawn? || e.Fork? ==> e.pid !in s.base.kernel.used
    ensures Inv(Apply(s, e))
  {
    StepKeepsKernel(s, e);
    StepKeepsRecords(s, e);
    StepKeepsPending(s, e);
    StepKeepsAccounted(s, e);
    hide KernelInv, RecordsInv, PendingInv, Accounted, Apply, Enabled;
  }

  lemma {:induction false} RunKeepsInv(s: State, run: seq<Event>)
    requires Inv(s) && FreshRun(s, run)
    ensures Inv(ApplyRun(s, run))
    decreases |run|
  {
    hide Inv, Apply, Enabled;
    if run != [] {
      StepKeepsInv(s, run[0]);
      RunKeepsInv(Apply(s, run[0]), run[1..]);
    }
  }

  // What collect returns

  /** The parent links still lead from the process up to a service or to the tracker. */
  ghost predicate Linked(s: Linux.State, pid: nat) {
    BelowAny(Linux.ParentsOf(s.kernel), s.spawned + {s.kernel.me}, pid)
  }

  lemma ParentInTable(k: Linux.Kernel, p: nat)
    requires KernelInv(k) && p in k.table
    ensures k.table[p].parent == 0 || k.table[p].parent in k.table
  {
    if !k.table[p].ours {
      assert Linux.ForeignHangs(k, p);
    }
  }

  lemma LinkedIsOurs(s: State, pid: nat)
    requires Inv(s) && pid in s.base.kernel.table && Linked(s.base, pid)
    ensures s.base.kernel.table[pid].ours
  {
    var k := s.base.kernel;
    var parents := Linux.ParentsOf(k);
    var root :| root in s.base.spawned + {k.me} && Below(parents, root, pid);
    var path :| |path| > 1 && IsPath(parents, path) && path[0] == root && path[|path| - 1] == pid;
    Linux.SpawnedAboveOne(s.base.file);
    assert root == k.me || root in Recorded(s.base.file);
    hide Recorded, WholeLines;
    assert Link(parents, path[0], path[0 + 1]);
    ParentInTable(k, path[1]);
    Linux.PathStaysOurs(k, path);
  }

  /** Exactly what `Found` holds of the process table. */
  lemma FoundIs(s: State, pid: nat)
    requires Inv(s) && pid in s.base.kernel.table
    ensures pid in Linux.Found(s.base) <==>
              s.base.kernel.table[pid].ours && (pid in Recorded(s.base.file) || Linked(s.base, pid))
  {
    if Linked(s.base, pid) {
      LinkedIsOurs(s, pid);
    }
    hide Recorded, WholeLines, PendingInv, Accounted, BelowAny;
  }

  /**
   Collect returns exactly the tracker's processes that may be signalled, are running or zombies of
   another parent, and are written down or still linked to the tracker.
   */
  lemma CollectedIs(s: State, pid: nat)
    requires Inv(s)
    ensures var k := s.base.kernel;
            var t := Linux.Reaped(s.base, Linux.Zombies(k));
            pid in Linux.Collected(s.base) <==>
              && pid in k.table && k.table[pid].ours && k.table[pid].signalable
              && (k.table[pid].running || k.table[pid].parent != k.me)
              && (pid in Recorded(s.base.file) || Linked(t, pid))
  {
    hide Inv, Linked, Recorded, Linux.Found, Linux.Collected, Linux.Codes;
    StepKeepsInv(s, Reap);
    Linux.CollectedIff(s.base, pid);
    var k, t := s.base.kernel, Apply(s, Reap);
    assert t.base == Linux.Reaped(s.base, Linux.Zombies(k)) && t.base.file == s.base.file;
    if pid in k.table && (k.table[pid].running || k.table[pid].parent != k.me) {
      assert pid in t.base.kernel.table && t.base.kernel.table[pid] == k.table[pid];
      hide Apply, Linux.Apply, Linux.Reaped, Linux.Zombies;
      FoundIs(t, pid);
    }
  }

  /** The same for the end of any run without reused pids. */
  lemma CollectedOverRuns(s: State, run: seq<Event>, pid: nat)
    requires Initial(s) && FreshRun(s, run)
    ensures var e := ApplyRun(s, run).base;
            var k := e.kernel;
            pid in Linux.Collected(e) <==>
              && pid in k.table && k.table[pid].ours && k.table[pid].signalable
              && (k.table[pid].running || k.table[pid].parent != k.me)
              && (pid in Recorded(e.file) || Linked(Linux.Reaped(e, Linux.Zombies(k)), pid))
  {
    InitialInv(s);
    RunKeepsInv(s, run);
    hide Inv, Initial, FreshRun, ApplyRun, Linked, Recorded, Linux.Collected;
    CollectedIs(ApplyRun(s, run), pid);
  }

  /** So only a process whose line is still to be written, or never will be, can be missed. */
  lemma OnlyUnwrittenAreMissed(s: State, run: seq<Event>, pid: nat)
    requires Initial(s) && FreshRun(s, run)
    requires var k := ApplyRun(s, run).base.kernel;
             pid in k.table && k.table[pid].ours && k.table[pid].running && k.table[pid].signalable
    ensures pid in Linux.Collected(ApplyRun(s, run).base) || pid in ApplyRun(s, run).pending || pid in ApplyRun(s, run).lost
  {
    InitialInv(s);
    RunKeepsInv(s, run);
    CollectedOverRuns(s, run, pid);
    hide Recorded, Linux.Collected, Linked;
  }

  lemma RunCons(s: State, e: Event, rest: seq<Event>)
    requires Enabled(s, e) && FreshRun(Apply(s, e), rest)
    requires e.Spawn? || e.Fork? ==> e.pid !in s.base.kernel.used
    ensures FreshRun(s, [e] + rest) && ApplyRun(s, [e] + rest) == ApplyRun(Apply(s, e), rest)
  {
    assert ([e] + rest)[1..] == rest;
  }

  /** A service `a` forks `b`, `b` is written down and outlives `a`, and then forks `c`. */
  lemma OrphanForks(s: State, a: nat, b: nat, c: nat, status: Linux.WaitStatus)
    returns (s1: State, s2: State, s3: State, s4: State, s5: State)
    requires Initial(s) && a > 1 && b > 1 && c > 1 && a != b && b != c && c != a
    requires a !in s.base.kernel.used && b !in s.base.kernel.used && c !in s.base.kernel.used
    ensures Enabled(s, Spawn(a)) && s1 == Apply(s, Spawn(a))
    ensures Enabled(s1, Fork(a, b)) && s2 == Apply(s1, Fork(a, b)) && b !in s1.base.kernel.used
    ensures Enabled(s2, Record(b)) && s3 == Apply(s2, Record(b))
    ensures Enabled(s3, Exit(a, status)) && s4 == Apply(s3, Exit(a, status))
    ensures Enabled(s4, Fork(b, c)) && s5 == Apply(s4, Fork(b, c)) && c !in s4.base.kernel.used
    ensures s5.lost == {} && s5.base.spawned == {a} && s5.base.kernel.me == s.base.kernel.me
    ensures Recorded(s5.base.file) == {a, b}
    ensures var k := s5.base.kernel;
            && b in k.table && k.table[b].parent == 1 && k.table[b].running && b != k.me
            && c in k.table && k.table[c].parent == b && k.table[c].running && k.table[c].ours && k.table[c].signalable
  {
    hide Decimal, Recorded, WholeLines;
    s1 := Apply(s, Spawn(a));
    EmptyFile();
    StepRecords(s, Spawn(a));
    s2 := Apply(s1, Fork(a, b));
    s3 := Apply(s2, Record(b));
    StepRecords(s2, Record(b));
    s4 := Apply(s3, Exit(a, status));
    s5 := Apply(s4, Fork(b, c));
  }

  lemma EmptyFile()
    ensures WholeLines("") && Recorded("") == {}
  {
  }

  /**
   The search starts from services, not from recorded pids: the unwritten child of an orphan is missed,
   although no line is lost and its parent runs.
   */
  lemma UnwrittenCanBeMissed(s: State, a: nat, b: nat, c: nat, status: Linux.WaitStatus)
    requires Initial(s) && a > 1 && b > 1 && c > 1 && a != b && b != c && c != a
    requires a !in s.base.kernel.used && b !in s.base.kernel.used && c !in s.base.kernel.used
    ensures var run := [Spawn(a)] + ([Fork(a, b)] + ([Record(b)] + ([Exit(a, status)] + ([Fork(b, c)] + []))));
            && FreshRun(s, run) && ApplyRun(s, run).lost == {}
            && var e := ApplyRun(s, run).base;
               && c in e.kernel.table && e.kernel.table[c].ours && e.kernel.table[c].running && e.kernel.table[c].signalable
               && c !in Linux.Collected(e)
  {
    var s1, s2, s3, s4, s5 := OrphanForks(s, a, b, c, status);
    var e := s5.base;
    hide Initial, Enabled, Apply, Recorded, Linux.Collected;
    RunCons(s4, Fork(b, c), []);
    RunCons(s3, Exit(a, status), [Fork(b, c)] + []);
    RunCons(s2, Record(b), [Exit(a, status)] + ([Fork(b, c)] + []));
    RunCons(s1, Fork(a, b), [Record(b)] + ([Exit(a, status)] + ([Fork(b, c)] + [])));
    RunCons(s, Spawn(a), [Fork(a, b)] + ([Record(b)] + ([Exit(a, status)] + ([Fork(b, c)] + []))));
    var t := Linux.Reaped(e, Linux.Zombies(e.kernel));
    CollectedOverRuns(s, [Spawn(a)] + ([Fork(a, b)] + ([Record(b)] + ([Exit(a, status)] + ([Fork(b, c)] + [])))), c);
    NotLinked(t, b, c);
  }

  lemma NotLinked(s: Linux.State, b: nat, c: nat)
    requires s.kernel.me > 1 && b != s.kernel.me && b !in s.spawned && 1 !in s.spawned
    requires b in s.kernel.table && s.kernel.table[b].parent == 1
    requires c in s.kernel.table && s.kernel.table[c].parent == b
    ensures !Linked(s, c)
  {
    var parents := Linux.ParentsOf(s.kernel);
    if Linked(s, c) {
      var root :| root in s.spawned + {s.kernel.me} && Below(parents, root, c);
      BelowUp(parents, root, c);
      BelowUp(parents, root, b);
      BelowUp(parents, root, 1);
      assert false;
    }
  }
}
