/**
 The tracker of one qualification run on Linux: the process table it lives in, the steps of that
 table, and the tracker's own records. The tracker is a child subreaper, so a process of its
 subtree that loses its parent becomes the tracker's child.
 */
module ProcessTracker {
  import opened Wrappers
  import opened ProcessTree
  import opened PidFile

  /**
   The word that `waitpid` fills in: the low seven bits are 0 after an exit, the number of the signal
   after a kill, and 127 otherwise; the bit above says whether memory was dumped, and the byte above
   that holds the exit code.
   */
  type WaitStatus = word: int | 0 <= word < 0x10000

  predicate WasExited(status: WaitStatus) {
    status % 128 == 0
  }

  predicate WasSignaled(status: WaitStatus) {
    0 < status % 128 < 127
  }

  function DecodeStatus(status: WaitStatus): nat {
    if WasExited(status) then status / 256
    else if WasSignaled(status) then 128 + status % 128
    else 1
  }

  const NO_STATUS: WaitStatus := 0

  /** An exit code is reported as it is, and a signal with 128 added, whether or not memory was dumped. */
  lemma DecodedCodes(code: nat, signal: nat, dumped: bool)
    requires code < 256 && 0 < signal < 127
    ensures DecodeStatus(256 * code) == code
    ensures DecodeStatus(signal + if dumped then 128 else 0) == 128 + signal
  {
    assert 256 * code % 128 == 0 by {
      assert 256 * code == 128 * (2 * code);
    }
    assert (signal + 128) % 128 == signal;
  }

  /**
   What a reported code tells: up to 128 it is that of an exit, but for 1, which other words give too;
   from 129 to 254 it is an exit with that code or a signal, and the two cannot be told apart.
   */
  lemma CodeTells(status: WaitStatus, code: nat)
    ensures DecodeStatus(status) == code <==>
              || (status % 128 == 0 && status / 256 == code)
              || (0 < status % 128 < 127 && code == 128 + status % 128)
              || (status % 128 == 127 && code == 1)
    ensures DecodeStatus(status) == code && code <= 128 && code != 1 ==> status % 128 == 0
    ensures DecodeStatus(status) == code && status % 128 != 0 && code != 1 ==> 129 <= code <= 254
    ensures DecodeStatus(status) < 256
  {
  }

  /**
   An entry of the process table. One that is not `running` is a zombie with its wait status.
   `ours` says that the tracker created it, directly or through its descendants, and
   `signalable` that the tracker may send it a signal.
   */
  datatype Process = Process(parent: nat, birth: nat, running: bool, ours: bool, signalable: bool, status: WaitStatus)

  /** The process table; `me` is the tracker, `used` holds every pid there has ever been. */
  datatype Kernel = Kernel(table: map<nat, Process>, clock: nat, me: nat, used: set<nat>)

  /** The kernel together with the tracker's records. */
  datatype State = State(kernel: Kernel, spawned: set<nat>, file: string, exits: map<nat, nat>)

  datatype Event =
    | Spawn(pid: nat)                                  // the tracker forks a service
    | Fork(parent: nat, pid: nat)                      // any other process forks
    | Exit(pid: nat, status: WaitStatus, heir: nat)    // its children go to the heir
    | Wait(parent: nat, pid: nat)                      // another process reaps its child
    | Reap                                             // the tracker reaps all its zombies
    | Permit(pid: nat, allowed: bool)                  // credentials change

  predicate NewPid(k: Kernel, pid: nat) {
    pid > 1 && pid !in k.table
  }

  predicate IsHeir(k: Kernel, pid: nat, heir: nat)
    requires pid in k.table
  {
    if k.table[pid].ours then heir == k.me
    else heir in k.table && heir != pid && heir != k.me && k.table[heir].running && !k.table[heir].ours
  }

  predicate Enabled(s: State, e: Event) {
    var k := s.kernel;
    match e
    case Spawn(pid) => NewPid(k, pid)
    case Fork(parent, pid) => parent in k.table && parent != k.me && k.table[parent].running && NewPid(k, pid)
    case Exit(pid, status, heir) => pid in k.table && pid > 1 && pid != k.me && k.table[pid].running && IsHeir(k, pid, heir)
    case Wait(parent, pid) => pid in k.table && !k.table[pid].running && k.table[pid].parent == parent && parent != k.me
    case Reap => true
    case Permit(pid, _) => pid in k.table
  }

  function AddProcess(k: Kernel, pid: nat, process: Process): Kernel {
    Kernel(k.table[pid := process], k.clock + 1, k.me, k.used + {pid})
  }

  function Reparent(table: map<nat, Process>, from: nat, to: nat): map<nat, Process> {
    map p | p in table :: if table[p].parent == from then table[p].(parent := to) else table[p]
  }

  /** The tracker's children that have exited. */
  function Zombies(k: Kernel): set<nat> {
    set p | p in k.table && k.table[p].parent == k.me && !k.table[p].running
  }

  function Codes(k: Kernel, pids: set<nat>): map<nat, nat>
    requires pids <= k.table.Keys
  {
    map p | p in pids :: DecodeStatus(k.table[p].status)
  }

  /** The state after `reap` has collected the children in `gone`. */
  function Reaped(s: State, gone: set<nat>): State
    requires gone <= s.kernel.table.Keys
  {
    s.(kernel := s.kernel.(table := s.kernel.table - gone), exits := s.exits + Codes(s.kernel, gone))
  }

  function Apply(s: State, e: Event): State
    requires Enabled(s, e)
  {
    var k := s.kernel;
    match e
    case Spawn(pid) =>
      State(AddProcess(k, pid, Process(k.me, k.clock, true, true, true, NO_STATUS)),
            s.spawned + {pid}, s.file + Decimal(pid) + "\n", s.exits)
    case Fork(parent, pid) =>
      var p := k.table[parent];
      s.(kernel := AddProcess(k, pid, Process(parent, k.clock, true, p.ours, p.signalable, NO_STATUS)))
    case Exit(pid, status, heir) =>
      s.(kernel := k.(table := Reparent(k.table[pid := k.table[pid].(running := false, status := status)], pid, heir)))
    case Wait(_, pid) => s.(kernel := k.(table := k.table - {pid}))
    case Reap => Reaped(s, Zombies(k))
    case Permit(pid, allowed) => s.(kernel := k.(table := k.table[pid := k.table[pid].(signalable := allowed)]))
  }

  /** The tracker has just started: it has no children, and no process is its work. */
  predicate Initial(s: State) {
    var k := s.kernel;
    && k.me > 1 && k.me in k.table && k.table[k.me].running
    && k.table.Keys <= k.used
    && (forall p :: p in k.table ==> ForeignInit(k, p))
    && s.spawned == {} && s.file == "" && s.exits == map[]
  }

  predicate ForeignInit(k: Kernel, p: nat)
    requires p in k.table
  {
    var q := k.table[p];
    && !q.ours && q.birth < k.clock
    && (q.parent == 0 || (q.parent in k.table && q.parent != k.me && k.table[q.parent].running))
  }

  predicate EnabledRun(s: State, run: seq<Event>)
    decreases |run|
  {
    run == [] || (Enabled(s, run[0]) && EnabledRun(Apply(s, run[0]), run[1..]))
  }

  function ApplyRun(s: State, run: seq<Event>): State
    requires EnabledRun(s, run)
    decreases |run|
  {
    if run == [] then s else ApplyRun(Apply(s, run[0]), run[1..])
  }

  /** No step of the run gives a pid that has been in use before. */
  predicate NoReuse(s: State, run: seq<Event>)
    requires EnabledRun(s, run)
    decreases |run|
  {
    run == [] ||
    (&& (run[0].Spawn? || run[0].Fork? ==> run[0].pid !in s.kernel.used)
     && NoReuse(Apply(s, run[0]), run[1..]))
  }

  // What every step keeps

  /** A process of ours hangs, through running and older processes of ours, on the tracker. */
  predicate OursHangs(k: Kernel, p: nat)
    requires p in k.table
  {
    var q := k.table[p];
    && p > 1 && p != k.me
    && (q.parent == k.me ||
        (q.parent in k.table && k.table[q.parent].ours && k.table[q.parent].running && k.table[q.parent].birth < q.birth))
  }

  /** Any other process hangs outside the tracker's subtree. */
  predicate ForeignHangs(k: Kernel, p: nat)
    requires p in k.table
  {
    var q := k.table[p];
    q.parent == 0 ||
    (q.parent in k.table && q.parent != k.me && !k.table[q.parent].ours && k.table[q.parent].running)
  }

  predicate KernelInv(k: Kernel) {
    && k.me > 1 && k.me in k.table && k.table[k.me].running && !k.table[k.me].ours
    && k.table.Keys <= k.used
    && (forall p :: p in k.table ==> k.table[p].birth < k.clock)
    && (forall p :: p in k.table && k.table[p].ours ==> OursHangs(k, p))
    && (forall p :: p in k.table && !k.table[p].ours ==> ForeignHangs(k, p))
  }

  predicate RecordsInv(s: State) {
    && s.spawned <= s.kernel.used
    && s.kernel.me !in s.spawned
    && WholeLines(s.file) && Recorded(s.file) == s.spawned
  }

  /** A service is a child of the tracker until it is reaped, and then its exit code is known. */
  predicate ServicesKnown(s: State) {
    forall p :: p in s.spawned ==>
      if p in s.kernel.table then s.kernel.table[p].ours && s.kernel.table[p].parent == s.kernel.me
      else p in s.exits
  }

  predicate Inv(s: State) {
    KernelInv(s.kernel) && RecordsInv(s)
  }

  lemma InitialInv(s: State)
    requires Initial(s)
    ensures Inv(s) && ServicesKnown(s)
  {
  }

  lemma SpawnKeeps(s: State, pid: nat)
    requires Inv(s) && NewPid(s.kernel, pid)
    ensures Inv(Apply(s, Spawn(pid)))
  {
    RecordAppends(s.file, pid);
  }

  lemma ForkKeeps(s: State, parent: nat, pid: nat)
    requires Inv(s) && Enabled(s, Fork(parent, pid))
    ensures Inv(Apply(s, Fork(parent, pid)))
  {
  }

  lemma ExitKeeps(s: State, pid: nat, status: WaitStatus, heir: nat)
    requires Inv(s) && Enabled(s, Exit(pid, status, heir))
    ensures Inv(Apply(s, Exit(pid, status, heir)))
  {
  }

  lemma RemovalKeeps(k: Kernel, gone: set<nat>)
    requires KernelInv(k)
    requires forall p :: p in gone && p in k.table ==> !k.table[p].running
    ensures KernelInv(k.(table := k.table - gone))
  {
  }

  lemma StepKeepsInv(s: State, e: Event)
    requires Inv(s) && Enabled(s, e)
    ensures Inv(Apply(s, e))
  {
    match e {
      case Spawn(pid) => SpawnKeeps(s, pid);
      case Fork(parent, pid) => ForkKeeps(s, parent, pid);
      case Exit(pid, status, heir) => ExitKeeps(s, pid, status, heir);
      case Wait(_, pid) => RemovalKeeps(s.kernel, {pid});
      case Reap => RemovalKeeps(s.kernel, Zombies(s.kernel));
      case Permit(_, _) =>
    }
  }

  lemma StepKeepsServices(s: State, e: Event)
    requires Inv(s) && ServicesKnown(s) && Enabled(s, e)
    requires e.Spawn? || e.Fork? ==> e.pid !in s.kernel.used
    ensures ServicesKnown(Apply(s, e))
  {
  }

  lemma {:induction false} RunKeepsInv(s: State, run: seq<Event>)
    requires Inv(s) && EnabledRun(s, run)
    ensures Inv(ApplyRun(s, run))
    ensures ServicesKnown(s) && NoReuse(s, run) ==> ServicesKnown(ApplyRun(s, run))
    decreases |run|
  {
    hide Inv, ServicesKnown, Apply, Enabled;
    if run != [] {
      StepKeepsInv(s, run[0]);
      if ServicesKnown(s) && NoReuse(s, run) {
        StepKeepsServices(s, run[0]);
      }
      RunKeepsInv(Apply(s, run[0]), run[1..]);
    }
  }

  // What collect returns

  function ParentsOf(k: Kernel): Parents {
    map p | p in k.table :: k.table[p].parent
  }

  /** `kill(pid, 0)` succeeds: the entry exists, be it a zombie, and may be signalled. */
  predicate Alive(k: Kernel, pid: nat) {
    pid in k.table && k.table[pid].signalable
  }

  /** The pids `collect` puts together, before the liveness test. */
  ghost function Found(s: State): set<nat> {
    Recorded(s.file) + BelowSet(ParentsOf(s.kernel), s.spawned + {s.kernel.me}) + s.spawned - {s.kernel.me, 1}
  }

  /** The set `collect` returns: it reaps first, then looks. */
  ghost function Collected(s: State): set<nat> {
    var t := Reaped(s, Zombies(s.kernel));
    set p | p in Found(t) && Alive(t.kernel, p)
  }

  lemma {:induction false} OursIsBelowMe(k: Kernel, p: nat)
    requires KernelInv(k) && p in k.table && k.table[p].ours
    ensures Below(ParentsOf(k), k.me, p)
    decreases k.table[p].birth
  {
    var parent := k.table[p].parent;
    assert OursHangs(k, p) && parent != p;
    assert Link(ParentsOf(k), parent, p);
    if parent == k.me {
      LinkIsBelow(ParentsOf(k), k.me, p);
    } else {
      OursIsBelowMe(k, parent);
      BelowThenLink(ParentsOf(k), k.me, parent, p);
    }
  }

  /** The services' pids that another process has now: possible only when a pid is used again. */
  function Impostors(s: State): set<nat> {
    set p | p in s.spawned && p in s.kernel.table && !s.kernel.table[p].ours
  }

  /** No foreign process is a child of the tracker or of one of its processes. */
  predicate ForeignOutside(k: Kernel) {
    && k.me > 1
    && (forall p :: p in k.table && k.table[p].ours ==> p > 1)
    && (forall p :: p in k.table && !k.table[p].ours ==> ForeignHangs(k, p))
  }

  /** Nothing below the tracker or below one of its processes is foreign. */
  lemma {:induction false} PathStaysOurs(k: Kernel, path: seq<nat>)
    requires ForeignOutside(k) && IsPath(ParentsOf(k), path) && |path| > 1
    requires path[0] == k.me || (path[0] in k.table && k.table[path[0]].ours)
    ensures path[|path| - 1] in k.table && k.table[path[|path| - 1]].ours
  {
    assert Link(ParentsOf(k), path[0], path[0 + 1]);
    assert k.table[path[1]].ours || ForeignHangs(k, path[1]);
    if |path| > 2 {
      assert IsPath(ParentsOf(k), path[1..]) by {
        forall i | 0 <= i < |path[1..]| - 1
          ensures Link(ParentsOf(k), path[1..][i], path[1..][i + 1])
        {
          assert Link(ParentsOf(k), path[i + 1], path[i + 1 + 1]);
        }
      }
      PathStaysOurs(k, path[1..]);
    }
  }

  /** A root with something below it is in the table. */
  lemma RootInTable(k: Kernel, root: nat, pid: nat)
    requires KernelInv(k) && root > 0 && Below(ParentsOf(k), root, pid)
    ensures root in k.table
    ensures pid in k.table && pid > 1
    ensures root == k.me || k.table[root].ours ==> k.table[pid].ours
  {
    var path :| |path| > 1 && IsPath(ParentsOf(k), path) && path[0] == root && path[|path| - 1] == pid;
    var first, last := path[1], path[|path| - 1];
    assert Link(ParentsOf(k), path[0], path[0 + 1]);
    assert Link(ParentsOf(k), path[|path| - 2], path[|path| - 2 + 1]);
    assert if k.table[first].ours then OursHangs(k, first) else ForeignHangs(k, first);
    if root == k.me || k.table[root].ours {
      PathStaysOurs(k, path);
    }
  }

  /** A foreign process that the tracker takes for its own: an impostor, or one below an impostor. */
  ghost predicate Mistaken(s: State, pid: nat) {
    pid in Impostors(s) || BelowAny(ParentsOf(s.kernel), Impostors(s), pid)
  }

  /** Exactly what `Found` holds of the process table. */
  lemma FoundExactly(s: State, pid: nat)
    requires Inv(s) && pid in s.kernel.table
    ensures pid in Found(s) <==>
              s.kernel.table[pid].ours || (pid != s.kernel.me && pid != 1 && Mistaken(s, pid))
  {
    var k, roots := s.kernel, s.spawned + {s.kernel.me};
    var parents := ParentsOf(k);
    SpawnedAboveOne(s.file);
    if k.table[pid].ours {
      OursIsBelowMe(k, pid);
      assert OursHangs(k, pid) && BelowAny(parents, roots, pid);
    } else {
      if BelowAny(parents, roots, pid) {
        var root :| root in roots && Below(parents, root, pid);
        RootInTable(k, root, pid);
        assert root in Impostors(s);
      }
      if BelowAny(parents, Impostors(s), pid) {
        var root :| root in Impostors(s) && Below(parents, root, pid);
        assert root in roots;
      }
    }
  }

  lemma SpawnedAboveOne(file: string)
    ensures forall p :: p in Recorded(file) ==> p > 1
  {
    PidsAboveOne(Lines(file, []));
  }

  lemma {:induction false} PidsAboveOne(lines: seq<string>)
    ensures forall p :: p in PidsOf(lines) ==> p > 1
  {
    if lines != [] {
      PidsAboveOne(lines[1..]);
    }
  }

  /** Collect drops the tracker's own zombies and what may not be signalled. */
  lemma CollectedIff(s: State, pid: nat)
    ensures pid in Collected(s) <==>
              && pid in s.kernel.table && s.kernel.table[pid].signalable
              && (s.kernel.table[pid].running || s.kernel.table[pid].parent != s.kernel.me)
              && pid in Found(Reaped(s, Zombies(s.kernel)))
  {
    hide Found, Codes;
    var t := Reaped(s, Zombies(s.kernel));
    assert pid in t.kernel.table <==> pid in s.kernel.table && pid !in Zombies(s.kernel);
  }

  /**
   In every run, pids used again or not, collect returns exactly the signalable processes of the
   tracker that are running or are zombies of another parent, and those it takes for its own.
   */
  lemma CollectedExactly(s: State, pid: nat)
    requires Inv(s)
    ensures var t := Reaped(s, Zombies(s.kernel));
            pid in Collected(s) <==>
              && pid in s.kernel.table && s.kernel.table[pid].signalable
              && (s.kernel.table[pid].running || s.kernel.table[pid].parent != s.kernel.me)
              && (s.kernel.table[pid].ours || (pid != s.kernel.me && pid != 1 && Mistaken(t, pid)))
  {
    var t := Reaped(s, Zombies(s.kernel));
    StepKeepsInv(s, Reap);
    hide Inv, Found, Mistaken;
    if pid in t.kernel.table {
      FoundExactly(t, pid);
    }
  }

  /**
   The guarantee over whole runs: from a fresh start, whatever the processes do, collect contains
   every running process the tracker created and may signal, and never itself or pid 1. If no pid
   is used twice it contains nothing else but zombies whose parent, one of the tracker's
   processes, has not waited for them.
   */
  lemma CollectOverRuns(s: State, run: seq<Event>, pid: nat)
    requires Initial(s) && EnabledRun(s, run)
    ensures var e := ApplyRun(s, run);
            var k := e.kernel;
            && (pid in k.table && k.table[pid].ours && k.table[pid].running && k.table[pid].signalable ==>
                 pid in Collected(e))
            && (pid in Collected(e) ==> pid != k.me && pid != 1)
            && (NoReuse(s, run) ==>
                 (pid in Collected(e) <==>
                   && pid in k.table && k.table[pid].ours && k.table[pid].signalable
                   && (k.table[pid].running || k.table[pid].parent != k.me)))
  {
    InitialInv(s);
    RunKeepsInv(s, run);
    var e := ApplyRun(s, run);
    CollectedExactly(e, pid);
    var t := Reaped(e, Zombies(e.kernel));
    assert pid in e.kernel.table && e.kernel.table[pid].ours ==> OursHangs(e.kernel, pid);
    if NoReuse(s, run) {
      assert Impostors(t) == {};
    }
  }

  lemma RunCons(s: State, e: Event, rest: seq<Event>)
    requires Enabled(s, e) && EnabledRun(Apply(s, e), rest)
    ensures EnabledRun(s, [e] + rest)
    ensures ApplyRun(s, [e] + rest) == ApplyRun(Apply(s, e), rest)
    ensures NoReuse(s, [e] + rest) <==>
              (e.Spawn? || e.Fork? ==> e.pid !in s.kernel.used) && NoReuse(Apply(s, e), rest)
  {
    assert ([e] + rest)[1..] == rest;
  }

  /** A zombie of one of the tracker's processes is listed although it has exited. */
  lemma ZombieIsCollected(s: State, a: nat, b: nat, status: WaitStatus)
    requires Initial(s) && a > 1 && b > 1 && a != b && a !in s.kernel.used && b !in s.kernel.used
    ensures var run := [Spawn(a)] + ([Fork(a, b)] + ([Exit(b, status, s.kernel.me)] + []));
            && EnabledRun(s, run) && NoReuse(s, run)
            && b in Collected(ApplyRun(s, run)) && !ApplyRun(s, run).kernel.table[b].running
  {
    var s1 := Apply(s, Spawn(a));
    var s2 := Apply(s1, Fork(a, b));
    var exit := Exit(b, status, s.kernel.me);
    RunCons(s2, exit, []);
    RunCons(s1, Fork(a, b), [exit] + []);
    RunCons(s, Spawn(a), [Fork(a, b)] + ([exit] + []));
    CollectOverRuns(s, [Spawn(a)] + ([Fork(a, b)] + ([exit] + [])), b);
  }

  /** What a service's pid looks like after it was spawned, exited, was reaped and given away. */
  lemma GivenAway(s: State, a: nat, f: nat, status: WaitStatus) returns (s1: State, s2: State, s3: State, s4: State)
    requires Initial(s) && a > 1 && a !in s.kernel.used
    requires f in s.kernel.table && f != s.kernel.me && s.kernel.table[f].running && s.kernel.table[f].signalable
    ensures s1 == Apply(s, Spawn(a))
    ensures Enabled(s1, Exit(a, status, s.kernel.me)) && s2 == Apply(s1, Exit(a, status, s.kernel.me))
    ensures s3 == Apply(s2, Reap)
    ensures Enabled(s3, Fork(f, a)) && s4 == Apply(s3, Fork(f, a)) && a in s3.kernel.used
    ensures a in s4.spawned && a in s4.kernel.table && a != s4.kernel.me
    ensures var q := s4.kernel.table[a]; q.running && q.signalable && !q.ours && q.parent == f
  {
    s1 := Apply(s, Spawn(a));
    s2 := Apply(s1, Exit(a, status, s.kernel.me));
    assert a in Zombies(s2.kernel) && f !in Zombies(s2.kernel);
    s3 := Apply(s2, Reap);
    s4 := Apply(s3, Fork(f, a));
  }

  /** A foreign process that gets the pid of a reaped service is listed: pids must not be used twice. */
  lemma ReusedPidIsCollected(s: State, a: nat, f: nat, status: WaitStatus)
    requires Initial(s) && a > 1 && a !in s.kernel.used
    requires f in s.kernel.table && f != s.kernel.me && s.kernel.table[f].running && s.kernel.table[f].signalable
    ensures var run := [Spawn(a)] + ([Exit(a, status, s.kernel.me)] + ([Reap] + ([Fork(f, a)] + [])));
            && EnabledRun(s, run) && !NoReuse(s, run)
            && a in Collected(ApplyRun(s, run)) && !ApplyRun(s, run).kernel.table[a].ours
  {
    var s1, s2, s3, s4 := GivenAway(s, a, f, status);
    var exit := Exit(a, status, s.kernel.me);
    InitialInv(s);
    hide Initial, Inv, Enabled, Apply, Collected, Mistaken;
    RunCons(s3, Fork(f, a), []);
    RunCons(s2, Reap, [Fork(f, a)] + []);
    RunCons(s1, exit, [Reap] + ([Fork(f, a)] + []));
    RunCons(s, Spawn(a), [exit] + ([Reap] + ([Fork(f, a)] + [])));
    RunKeepsInv(s, [Spawn(a)] + ([exit] + ([Reap] + ([Fork(f, a)] + []))));
    ImpostorIsMistaken(s4, a);
    CollectedExactly(s4, a);
  }

  lemma ImpostorIsMistaken(s: State, a: nat)
    requires a in s.spawned && a in s.kernel.table && !s.kernel.table[a].ours && s.kernel.table[a].running && a > 1
    ensures Mistaken(Reaped(s, Zombies(s.kernel)), a)
  {
    assert a in Impostors(Reaped(s, Zombies(s.kernel)));
  }

  // What status answers

  datatype Report = HasExited(code: nat) | IsRunning | IsMissing

  /** Steps of other processes only. */
  predicate OthersOnly(run: seq<Event>) {
    forall i :: 0 <= i < |run| ==> !run[i].Spawn? && !run[i].Reap?
  }

  /**
   `status` reaps and prefers a recorded exit. It then asks whether the pid may be signalled, and
   if not, because the process may have ended in the meantime, it reaps and looks once more.
   */
  function StatusOf(s: State, meanwhile: seq<Event>, pid: nat): Report
    requires EnabledRun(Apply(s, Reap), meanwhile)
  {
    var t := Apply(s, Reap);
    if pid in t.exits then HasExited(t.exits[pid])
    else
      var u := ApplyRun(t, meanwhile);
      if Alive(u.kernel, pid) then IsRunning
      else
        var v := Apply(u, Reap);
        if pid in v.exits then HasExited(v.exits[pid]) else IsMissing
  }

  /** Without reused pids a recorded exit belongs to a process that is no longer in the table. */
  predicate ExitsGone(s: State) {
    forall p :: p in s.exits ==> p in s.kernel.used && p !in s.kernel.table
  }

  lemma StepKeepsExitsGone(s: State, e: Event)
    requires Inv(s) && ExitsGone(s) && Enabled(s, e)
    requires e.Spawn? || e.Fork? ==> e.pid !in s.kernel.used
    ensures ExitsGone(Apply(s, e))
  {
  }

  predicate FullInv(s: State) {
    Inv(s) && ServicesKnown(s) && ExitsGone(s)
  }

  lemma {:induction false} RunKeepsFullInv(s: State, run: seq<Event>)
    requires FullInv(s) && EnabledRun(s, run) && NoReuse(s, run)
    ensures FullInv(ApplyRun(s, run))
    ensures s.spawned <= ApplyRun(s, run).spawned
    decreases |run|
  {
    if run != [] {
      StepKeepsInv(s, run[0]);
      StepKeepsServices(s, run[0]);
      StepKeepsExitsGone(s, run[0]);
      assert s.spawned <= Apply(s, run[0]).spawned;
      hide Inv, ServicesKnown, ExitsGone, Apply, Enabled;
      RunKeepsFullInv(Apply(s, run[0]), run[1..]);
    }
  }

  /**
   What status says of a service in a run without reused pids, whatever other processes do while it
   is asked: that it runs exactly while its entry may be signalled, that it is missing exactly while
   it runs and may not, and otherwise that it has exited.
   */
  lemma StatusOverRuns(s: State, run: seq<Event>, meanwhile: seq<Event>, pid: nat)
    requires Initial(s) && EnabledRun(s, run) && NoReuse(s, run)
    requires pid in ApplyRun(s, run).spawned
    requires var t := Apply(ApplyRun(s, run), Reap);
             EnabledRun(t, meanwhile) && NoReuse(t, meanwhile)
    ensures var e := ApplyRun(s, run);
            var k := ApplyRun(Apply(e, Reap), meanwhile).kernel;
            var report := StatusOf(e, meanwhile, pid);
            && (report.IsRunning? <==> pid in k.table && k.table[pid].signalable)
            && (report.IsMissing? <==> pid in k.table && !k.table[pid].signalable && k.table[pid].running)
  {
    InitialInv(s);
    RunKeepsFullInv(s, run);
    var e := ApplyRun(s, run);
    StepKeepsInv(e, Reap);
    StepKeepsServices(e, Reap);
    StepKeepsExitsGone(e, Reap);
    var t := Apply(e, Reap);
    RunKeepsFullInv(t, meanwhile);
    var u := ApplyRun(t, meanwhile);
    if pid in t.exits {
      StaysGone(t, meanwhile, pid);
    }
  }

  /** A pid that has been in use and is out of the table does not come back. */
  lemma {:induction false} StaysGone(s: State, run: seq<Event>, pid: nat)
    requires EnabledRun(s, run) && NoReuse(s, run)
    requires pid in s.kernel.used && pid !in s.kernel.table
    ensures pid !in ApplyRun(s, run).kernel.table
    decreases |run|
  {
    if run != [] {
      var next := Apply(s, run[0]);
      assert pid in next.kernel.used && pid !in next.kernel.table;
      hide Apply, Enabled;
      StaysGone(next, run[1..], pid);
    }
  }

  // What status answers when pids are used again

  lemma {:induction false} RunConcat(s: State, a: seq<Event>, b: seq<Event>)
    requires EnabledRun(s, a) && EnabledRun(ApplyRun(s, a), b)
    ensures EnabledRun(s, a + b) && ApplyRun(s, a + b) == ApplyRun(ApplyRun(s, a), b)
    decreases |a|
  {
    hide Enabled, Apply;
    if a == [] {
      assert a + b == b;
    } else {
      assert (a + b)[1..] == a[1..] + b;
      RunConcat(Apply(s, a[0]), a[1..], b);
    }
  }

  /** Some reap of the run took a child with this pid. */
  predicate ReapedIn(s: State, run: seq<Event>, pid: nat)
    requires EnabledRun(s, run)
    decreases |run|
  {
    run != [] &&
    ((run[0].Reap? && pid in Zombies(s.kernel)) || ReapedIn(Apply(s, run[0]), run[1..], pid))
  }

  lemma {:induction false} ExitsAreReaped(s: State, run: seq<Event>, pid: nat)
    requires EnabledRun(s, run)
    ensures pid in ApplyRun(s, run).exits <==> pid in s.exits || ReapedIn(s, run, pid)
    decreases |run|
  {
    if run != [] {
      var next := Apply(s, run[0]);
      assert pid in next.exits <==> pid in s.exits || (run[0].Reap? && pid in Zombies(s.kernel));
      hide Apply, Enabled;
      ExitsAreReaped(next, run[1..], pid);
    }
  }

  lemma ReapRun(s: State, pid: nat)
    ensures EnabledRun(s, [Reap]) && ApplyRun(s, [Reap]) == Apply(s, Reap)
  {
    assert [Reap][1..] == [];
  }

  /**
   In every run, pids used again or not: an exit is remembered for ever, so a pid that was reaped once is
   reported as exited whatever has it now. Otherwise the pid is running exactly while its entry may be
   signalled, and the last reap decides the rest.
   */
  lemma StatusInEveryRun(s: State, run: seq<Event>, meanwhile: seq<Event>, pid: nat)
    requires Initial(s) && EnabledRun(s, run) && EnabledRun(Apply(ApplyRun(s, run), Reap), meanwhile)
    ensures var asked, done := run + [Reap], run + [Reap] + meanwhile + [Reap];
            && EnabledRun(s, asked) && EnabledRun(s, asked + meanwhile) && EnabledRun(s, done)
            && var alive := Alive(ApplyRun(s, asked + meanwhile).kernel, pid);
               var report := StatusOf(ApplyRun(s, run), meanwhile, pid);
               && (report.IsRunning? <==> alive && !ReapedIn(s, asked, pid))
               && (report.IsMissing? <==> !alive && !ReapedIn(s, done, pid))
  {
    var e := ApplyRun(s, run);
    var t := Apply(e, Reap);
    var u := ApplyRun(t, meanwhile);
    ReapRun(e, pid);
    RunConcat(s, run, [Reap]);
    RunConcat(s, run + [Reap], meanwhile);
    ReapRun(u, pid);
    RunConcat(s, run + [Reap] + meanwhile, [Reap]);
    hide EnabledRun, ApplyRun, Apply, ReapedIn;
    ExitsAreReaped(s, run + [Reap], pid);
    ExitsAreReaped(s, run + [Reap] + meanwhile + [Reap], pid);
    assert s.exits == map[];
    if pid in t.exits {
      KeepsExits(t, meanwhile, pid);
      KeepsExits(u, [Reap], pid);
    }
  }

  lemma {:induction false} KeepsExits(s: State, run: seq<Event>, pid: nat)
    requires EnabledRun(s, run) && pid in s.exits
    ensures pid in ApplyRun(s, run).exits
    decreases |run|
  {
    ExitsAreReaped(s, run, pid);
  }

  /** A service that runs under the pid of an earlier, reaped one is reported as exited, with the other's code. */
  lemma ReusedServiceLooksExited(s: State, a: nat, status: WaitStatus)
    requires Initial(s) && a > 1 && a !in s.kernel.used
    ensures var run := [Spawn(a)] + ([Exit(a, status, s.kernel.me)] + ([Reap] + ([Spawn(a)] + [])));
            && EnabledRun(s, run)
            && var e := ApplyRun(s, run);
               && a in e.spawned && a in e.kernel.table && e.kernel.table[a].running && e.kernel.table[a].signalable
               && StatusOf(e, [], a).HasExited?
               && (status % 128 == 0 ==> StatusOf(e, [], a).code == status / 256)
               && (0 < status % 128 < 127 ==> StatusOf(e, [], a).code == 128 + status % 128)
  {
    hide Decimal;
    var exit := Exit(a, status, s.kernel.me);
    var s1 := Apply(s, Spawn(a));
    var s2 := Apply(s1, exit);
    assert a in Zombies(s2.kernel) && s2.kernel.table[a].status == status;
    var s3 := Apply(s2, Reap);
    assert s3.exits[a] == DecodeStatus(status) && a !in s3.kernel.table;
    var s4 := Apply(s3, Spawn(a));
    assert a !in Zombies(s4.kernel) && Apply(s4, Reap).exits[a] == DecodeStatus(status);
    assert Enabled(s, Spawn(a)) && Enabled(s1, exit) && Enabled(s2, Reap) && Enabled(s3, Spawn(a));
    hide Initial, Apply, Enabled;
    RunCons(s3, Spawn(a), []);
    RunCons(s2, Reap, [Spawn(a)] + []);
    RunCons(s1, exit, [Reap] + ([Spawn(a)] + []));
    RunCons(s, Spawn(a), [exit] + ([Reap] + ([Spawn(a)] + [])));
  }

  // The codes that status reports

  /** The wait status of the pid's last exit in a history. */
  function LastExit(past: seq<Event>, pid: nat): Option<WaitStatus> {
    if past == [] then None
    else
      var e := past[|past| - 1];
      if e.Exit? && e.pid == pid then Some(e.status) else LastExit(past[..|past| - 1], pid)
  }

  lemma LastExitSnoc(past: seq<Event>, e: Event, pid: nat)
    ensures LastExit(past + [e], pid) == if e.Exit? && e.pid == pid then Some(e.status) else LastExit(past, pid)
  {
    assert (past + [e])[..|past|] == past;
  }

  /** Zombies of the tracker's processes and recorded exits carry the status of the last exit. */
  ghost predicate CodesInv(s: State, past: seq<Event>) {
    forall p: nat ::
      && (p in s.exits ==> LastExit(past, p).Some? && s.exits[p] == DecodeStatus(LastExit(past, p).value))
      && (p in s.kernel.table && s.kernel.table[p].ours && !s.kernel.table[p].running ==>
           LastExit(past, p) == Some(s.kernel.table[p].status))
  }

  lemma StepKeepsCodes(s: State, past: seq<Event>, e: Event)
    requires Inv(s) && ExitsGone(s) && CodesInv(s, past) && Enabled(s, e)
    requires e.Spawn? || e.Fork? ==> e.pid !in s.kernel.used
    ensures CodesInv(Apply(s, e), past + [e])
  {
    hide LastExit, Decimal, Recorded, WholeLines;
    forall p: nat
      ensures p in Apply(s, e).exits ==>
                LastExit(past + [e], p).Some? && Apply(s, e).exits[p] == DecodeStatus(LastExit(past + [e], p).value)
      ensures var k := Apply(s, e).kernel;
              p in k.table && k.table[p].ours && !k.table[p].running ==> LastExit(past + [e], p) == Some(k.table[p].status)
    {
      LastExitSnoc(past, e, p);
    }
  }

  lemma {:induction false} RunKeepsCodes(s: State, past: seq<Event>, run: seq<Event>)
    requires FullInv(s) && CodesInv(s, past) && EnabledRun(s, run) && NoReuse(s, run)
    ensures CodesInv(ApplyRun(s, run), past + run)
    decreases |run|
  {
    if run == [] {
      assert past + run == past;
    } else {
      StepKeepsInv(s, run[0]);
      StepKeepsServices(s, run[0]);
      StepKeepsExitsGone(s, run[0]);
      StepKeepsCodes(s, past, run[0]);
      hide Inv, ServicesKnown, ExitsGone, Apply, Enabled, CodesInv;
      RunKeepsCodes(Apply(s, run[0]), past + [run[0]], run[1..]);
      assert past + [run[0]] + run[1..] == past + run;
    }
  }

  /** A pid that is out of the table exits no more. */
  lemma {:induction false} GoneExitsNoMore(s: State, past: seq<Event>, run: seq<Event>, pid: nat)
    requires EnabledRun(s, run) && NoReuse(s, run)
    requires pid in s.kernel.used && pid !in s.kernel.table
    ensures LastExit(past + run, pid) == LastExit(past, pid)
    decreases |run|
  {
    if run == [] {
      assert past + run == past;
    } else {
      var next := Apply(s, run[0]);
      assert pid in next.kernel.used && pid !in next.kernel.table;
      LastExitSnoc(past, run[0], pid);
      hide Apply, Enabled, LastExit;
      GoneExitsNoMore(next, past + [run[0]], run[1..], pid);
      assert past + [run[0]] + run[1..] == past + run;
    }
  }

  /** In a run without reused pids the code status reports is that of the process's own exit. */
  lemma StatusCodeIsRight(s: State, run: seq<Event>, meanwhile: seq<Event>, pid: nat)
    requires Initial(s) && EnabledRun(s, run) && NoReuse(s, run)
    requires var t := Apply(ApplyRun(s, run), Reap);
             EnabledRun(t, meanwhile) && NoReuse(t, meanwhile)
    ensures var report := StatusOf(ApplyRun(s, run), meanwhile, pid);
            report.HasExited? ==>
              var last := LastExit(run + [Reap] + meanwhile, pid);
              && last.Some?
              && report.code ==
                   if last.value % 128 == 0 then last.value / 256
                   else if last.value % 128 < 127 then 128 + last.value % 128
                   else 1
  {
    InitialInv(s);
    assert FullInv(s) && CodesInv(s, []);
    RunKeepsFullInv(s, run);
    RunKeepsCodes(s, [], run);
    assert [] + run == run;
    var e := ApplyRun(s, run);
    StepKeepsInv(e, Reap);
    StepKeepsServices(e, Reap);
    StepKeepsExitsGone(e, Reap);
    StepKeepsCodes(e, run, Reap);
    var t := Apply(e, Reap);
    var history := run + [Reap];
    RunKeepsFullInv(t, meanwhile);
    RunKeepsCodes(t, history, meanwhile);
    var u := ApplyRun(t, meanwhile);
    StepKeepsCodes(u, history + meanwhile, Reap);
    LastExitSnoc(history + meanwhile, Reap, pid);
    if pid in t.exits {
      GoneExitsNoMore(t, history, meanwhile, pid);
    }
  }

  /** Other processes do not touch the tracker's records. */
  lemma {:induction false} OthersKeepRecords(s: State, run: seq<Event>)
    requires EnabledRun(s, run) && OthersOnly(run)
    ensures var e := ApplyRun(s, run);
            e.spawned == s.spawned && e.file == s.file && e.exits == s.exits
    decreases |run|
  {
    if run != [] {
      assert !run[0].Spawn? && !run[0].Reap?;
      OthersKeepRecords(Apply(s, run[0]), run[1..]);
    }
  }

  // Collect while others run

  /**
   What collect lists when other processes run between its reap, its scan of the process table and each
   of its probes: `toScan` leads from the reap to the scan, `toProbe` from there to the probe of the pid.
   */
  ghost predicate ListedLater(s: State, toScan: seq<Event>, toProbe: seq<Event>, pid: nat)
    requires EnabledRun(Apply(s, Reap), toScan) && EnabledRun(ApplyRun(Apply(s, Reap), toScan), toProbe)
  {
    var scanned := ApplyRun(Apply(s, Reap), toScan);
    pid in Found(scanned) && Alive(ApplyRun(scanned, toProbe).kernel, pid)
  }

  /** What is found is in the table at the scan, or is the pid of a service that is gone. */
  lemma FoundOutside(s: State, pid: nat)
    requires Inv(s) && pid !in s.kernel.table
    ensures pid in Found(s) <==> pid in s.spawned
  {
    SpawnedAboveOne(s.file);
    if BelowAny(ParentsOf(s.kernel), s.spawned + {s.kernel.me}, pid) {
      BelowInSnapshot(ParentsOf(s.kernel), s.spawned + {s.kernel.me}, pid);
    }
  }

  lemma FoundInside(s: State, pid: nat)
    requires Inv(s) && pid in s.kernel.table
    ensures s.kernel.table[pid].ours ==> pid in Found(s)
    ensures pid in Found(s) ==> pid != s.kernel.me && pid != 1 && (s.kernel.table[pid].ours || Mistaken(s, pid))
    ensures ServicesKnown(s) && pid in Found(s) ==> s.kernel.table[pid].ours
  {
    FoundExactly(s, pid);
    assert s.kernel.table[pid].ours ==> OursHangs(s.kernel, pid);
    if ServicesKnown(s) {
      assert Impostors(s) == {};
    }
    hide Found;
  }

  /**
   Whatever runs in between, a process that is ours at the scan and may be signalled at its probe is
   listed, and what is listed was ours at the scan, or was taken for ours, or is the pid of a service
   that was gone. Without reused pids exactly the first are listed.
   */
  lemma CollectAmongOthers(s: State, run: seq<Event>, toScan: seq<Event>, toProbe: seq<Event>, pid: nat)
    requires Initial(s) && EnabledRun(s, run)
    requires var t := Apply(ApplyRun(s, run), Reap);
             EnabledRun(t, toScan) && EnabledRun(ApplyRun(t, toScan), toProbe)
    ensures var e := ApplyRun(s, run);
            var scanned := ApplyRun(Apply(e, Reap), toScan);
            var k := scanned.kernel;
            var listed, alive := ListedLater(e, toScan, toProbe, pid), Alive(ApplyRun(scanned, toProbe).kernel, pid);
            && (pid in k.table && k.table[pid].ours && alive ==> listed)
            && (listed ==> alive && pid != k.me && pid != 1)
            && (listed && pid in k.table ==> k.table[pid].ours || Mistaken(scanned, pid))
            && (listed && pid !in k.table ==> pid in scanned.spawned)
            && (NoReuse(s, run) && NoReuse(Apply(e, Reap), toScan) && NoReuse(scanned, toProbe) ==>
                 (listed <==> alive && pid in k.table && k.table[pid].ours))
  {
    InitialInv(s);
    RunKeepsInv(s, run);
    var e := ApplyRun(s, run);
    hide Initial, EnabledRun, ApplyRun, Inv, ServicesKnown, Found, Mistaken;
    StepKeepsInv(e, Reap);
    var t := Apply(e, Reap);
    if ServicesKnown(e) {
      StepKeepsServices(e, Reap);
    }
    hide Apply;
    RunKeepsInv(t, toScan);
    var scanned := ApplyRun(t, toScan);
    SpawnedNeverMe(scanned);
    if pid in scanned.kernel.table {
      FoundInside(scanned, pid);
    } else {
      FoundOutside(scanned, pid);
      if NoReuse(scanned, toProbe) && pid in scanned.spawned {
        StaysGone(scanned, toProbe, pid);
      }
    }
  }

  lemma SpawnedNeverMe(s: State)
    requires Inv(s)
    ensures s.kernel.me !in s.spawned && 1 !in s.spawned && s.spawned <= s.kernel.used
  {
    SpawnedAboveOne(s.file);
  }
}
