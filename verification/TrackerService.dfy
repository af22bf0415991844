/** The tracker object: its sets and its pid file change in place as it serves requests. */
module TrackerService {
  import opened Wrappers
  import opened ProcessTree
  import opened PidFile
  import opened ProcessTracker

  /** What `waitpid(-1, WNOHANG)` answers. */
  datatype WaitResult = NoChildren | NoneExited | Child(pid: nat, status: WaitStatus)

  /** Strictly ascending order. */
  predicate Ascending(list: seq<nat>) {
    forall i, j :: 0 <= i < j < |list| ==> list[i] < list[j]
  }

  lemma InsertKeeps(list: seq<nat>, at: nat, pid: nat)
    requires Ascending(list) && at <= |list| && pid !in list
    requires forall i :: 0 <= i < at ==> list[i] < pid
    requires at < |list| ==> list[at] >= pid
    ensures var longer := list[..at] + [pid] + list[at..];
            Ascending(longer) && forall p :: p in longer <==> p in list || p == pid
  {
    assert list == list[..at] + list[at..];
    assert at < |list| ==> list[at] in list;
  }

  /** The built-in `sorted` on a set of pids. */
  method Sorted(found: set<nat>) returns (list: seq<nat>)
    ensures Ascending(list)
    ensures forall pid :: pid in list <==> pid in found
  {
    list := [];
    var rest := found;
    while rest != {}
      invariant rest <= found
      invariant Ascending(list)
      invariant forall pid :: pid in list <==> pid in found - rest
    {
      var pid :| pid in rest;
      rest := rest - {pid};
      var at := 0;
      while at < |list| && list[at] < pid
        invariant 0 <= at <= |list|
        invariant forall i :: 0 <= i < at ==> list[i] < pid
      {
        at := at + 1;
      }
      InsertKeeps(list, at, pid);
      list := list[..at] + [pid] + list[at..];
    }
  }

  lemma ReapedNone(s: ProcessTracker.State)
    ensures Reaped(s, {}) == s
  {
    assert s.kernel.table - {} == s.kernel.table;
    assert s.exits + Codes(s.kernel, {}) == s.exits;
  }

  lemma ReapedOneMore(s: ProcessTracker.State, gone: set<nat>, pid: nat)
    requires gone <= Zombies(s.kernel) && pid in Zombies(Reaped(s, gone).kernel)
    ensures pid in Zombies(s.kernel) && pid !in gone
    ensures var t := Reaped(s, gone);
            Reaped(s, gone + {pid}) ==
            t.(kernel := t.kernel.(table := t.kernel.table - {pid}),
               exits := t.exits[pid := DecodeStatus(t.kernel.table[pid].status)])
  {
    hide DecodeStatus;
    var t, u := Reaped(s, gone), Reaped(s, gone + {pid});
    assert u.kernel.table == t.kernel.table - {pid};
    assert u.exits == t.exits[pid := DecodeStatus(t.kernel.table[pid].status)];
  }

  /** What other processes do at the pauses of a request, given the state they find. */
  type Others = (nat, ProcessTracker.State) -> seq<Event>

  /** They take steps they can take, and none of the tracker's. */
  ghost predicate AreOthers(others: Others) {
    forall n: nat, s: ProcessTracker.State :: EnabledRun(s, others(n, s)) && OthersOnly(others(n, s))
  }

  ghost predicate Absent(others: Others) {
    forall n: nat, s: ProcessTracker.State :: others(n, s) == []
  }

  /** Others have taken some steps. */
  ghost predicate Later(s: ProcessTracker.State, t: ProcessTracker.State) {
    exists run :: EnabledRun(s, run) && OthersOnly(run) && ApplyRun(s, run) == t
  }

  lemma NoRun(s: ProcessTracker.State)
    ensures EnabledRun(s, []) && ApplyRun(s, []) == s
  {
  }

  lemma LaterSame(s: ProcessTracker.State)
    ensures Later(s, s)
  {
    assert EnabledRun(s, []) && OthersOnly([]) && ApplyRun(s, []) == s;
  }

  lemma LaterThenLater(s: ProcessTracker.State, t: ProcessTracker.State, u: ProcessTracker.State)
    requires Later(s, t) && Later(t, u)
    ensures Later(s, u)
  {
    var a :| EnabledRun(s, a) && OthersOnly(a) && ApplyRun(s, a) == t;
    var b :| EnabledRun(t, b) && OthersOnly(b) && ApplyRun(t, b) == u;
    RunConcat(s, a, b);
    assert OthersOnly(a + b);
  }

  /** Others touch neither the tracker's records nor its pid. */
  lemma LaterKeepsRecords(s: ProcessTracker.State, t: ProcessTracker.State)
    requires Later(s, t)
    ensures t.spawned == s.spawned && t.file == s.file && t.exits == s.exits && t.kernel.me == s.kernel.me
  {
    var run :| EnabledRun(s, run) && OthersOnly(run) && ApplyRun(s, run) == t;
    OthersKeepRecords(s, run);
    RunKeepsMe(s, run);
  }

  lemma {:induction false} RunKeepsMe(s: ProcessTracker.State, run: seq<Event>)
    requires EnabledRun(s, run)
    ensures ApplyRun(s, run).kernel.me == s.kernel.me
    decreases |run|
  {
    if run != [] {
      RunKeepsMe(Apply(s, run[0]), run[1..]);
    }
  }

  lemma CollectedNow(s: ProcessTracker.State)
    ensures forall pid :: pid in Collected(s) <==>
              pid in Found(Apply(s, Event.Reap)) && Alive(Apply(s, Event.Reap).kernel, pid)
  {
    hide Found;
  }

  class Tracker {
    var spawned: set<nat>
    var exits: map<nat, nat>
    var trackFile: string
    /** The process table, which other processes change between requests. */
    var kernel: Kernel

    function State(): ProcessTracker.State
      reads this
    {
      ProcessTracker.State(kernel, spawned, trackFile, exits)
    }

    constructor (kernel: Kernel)
      ensures State() == ProcessTracker.State(kernel, {}, "", map[])
    {
      this.kernel := kernel;
      spawned, exits, trackFile := {}, map[], "";
    }

    /** `fork` returned `pid` in the parent; without a command nothing happens. */
    method Spawn(argv: seq<string>, pid: nat) returns (result: Result<nat, string>)
      requires Enabled(State(), Event.Spawn(pid))
      modifies this
      ensures argv == [] || argv[0] == "" ==> result == Err("missing command") && State() == old(State())
      ensures argv != [] && argv[0] != "" ==> result == Ok(pid) && State() == Apply(old(State()), Event.Spawn(pid))
    {
      if argv == [] || argv[0] == "" {
        return Err("missing command");
      }
      kernel := AddProcess(kernel, pid, Process(kernel.me, kernel.clock, true, true, true, NO_STATUS));
      spawned := spawned + {pid};
      trackFile := trackFile + Decimal(pid) + "\n";
      return Ok(pid);
    }

    /** The system call: it takes any exited child out of the table. */
    method WaitPid() returns (result: WaitResult)
      modifies this`kernel
      ensures result.Child? ==> result.pid in Zombies(old(kernel)) && result.status == old(kernel).table[result.pid].status
      ensures kernel == if result.Child? then old(kernel).(table := old(kernel).table - {result.pid}) else old(kernel)
      ensures !result.Child? ==> Zombies(kernel) == {}
      ensures result.NoChildren? <==> !exists p :: p in old(kernel).table && old(kernel).table[p].parent == old(kernel).me
    {
      if Zombies(kernel) != {} {
        var pid :| pid in Zombies(kernel);
        result := Child(pid, kernel.table[pid].status);
        kernel := kernel.(table := kernel.table - {pid});
      } else if exists p :: p in kernel.table && kernel.table[p].parent == kernel.me {
        result := NoneExited;
      } else {
        result := NoChildren;
      }
    }

    /** Every exited child is waited for and its code kept, in whatever order they come. */
    method Reap()
      modifies this
      ensures State() == Apply(old(State()), Event.Reap)
    {
      hide Codes;
      ghost var before := State();
      ReapedNone(before);
      ghost var gone := {};
      while true
        invariant gone <= Zombies(before.kernel)
        invariant State() == Reaped(before, gone)
        decreases Zombies(before.kernel) - gone
      {
        var result := WaitPid();
        if !result.Child? {
          assert gone == Zombies(before.kernel) by {
            forall p | p in Zombies(before.kernel)
              ensures p in gone
            {
              assert p in gone || p in Zombies(kernel);
            }
          }
          return;
        }
        exits := exits[result.pid := DecodeStatus(result.status)];
        ReapedOneMore(before, gone, result.pid);
        gone := gone + {result.pid};
      }
    }

    /** Other processes take the steps `run`. */
    method Elapse(run: seq<Event>)
      requires EnabledRun(State(), run) && OthersOnly(run)
      modifies this`kernel
      ensures State() == ApplyRun(old(State()), run)
    {
      OthersKeepRecords(State(), run);
      kernel := ApplyRun(State(), run).kernel;
    }

    /** What other processes do at the `n`-th pause of a request. */
    method Pause(n: nat, others: Others)
      requires AreOthers(others)
      modifies this`kernel
      ensures Later(old(State()), State())
      ensures State() == ApplyRun(old(State()), others(n, old(State())))
    {
      assert EnabledRun(State(), others(n, State())) && OthersOnly(others(n, State()));
      Elapse(others(n, State()));
    }

    /** The pids still alive among those found, each asked at a moment of its own, in any order. */
    method Probe(found: set<nat>, others: Others) returns (alive: set<nat>, ghost probed: map<nat, ProcessTracker.State>)
      requires AreOthers(others)
      modifies this`kernel
      ensures Later(old(State()), State())
      ensures probed.Keys == found && forall pid :: pid in probed ==> Later(old(State()), probed[pid])
      ensures forall pid :: pid in alive <==> pid in probed && Alive(probed[pid].kernel, pid)
      ensures Absent(others) ==> State() == old(State()) && forall pid :: pid in probed ==> probed[pid] == State()
    {
      alive, probed := {}, map[];
      var rest := found;
      var n := 2;
      ghost var start := State();
      LaterSame(start);
      hide Later, Alive, AreOthers, ApplyRun;
      while rest != {}
        invariant n >= 2 && rest <= found && probed.Keys == found - rest
        invariant Later(start, State())
        invariant forall pid :: pid in probed ==> Later(start, probed[pid])
        invariant forall pid :: pid in alive <==> pid in probed && Alive(probed[pid].kernel, pid)
        invariant Absent(others) ==> State() == start && forall pid :: pid in probed ==> probed[pid] == start
        decreases |rest|
      {
        var pid :| pid in rest;
        ghost var before := State();
        NoRun(before);
        Pause(n, others);
        LaterThenLater(start, before, State());
        probed := probed[pid := State()];
        if Alive(kernel, pid) {
          alive := alive + {pid};
        }
        rest := rest - {pid};
        n := n + 1;
      }
    }

    /**
     Reap, read the file, scan the process table, and list in order what is still alive at its probe,
     while other processes run before the file is read, before the scan, and before each probe.
     */
    method Collect(others: Others)
      returns (pids: seq<nat>, ghost scanned: ProcessTracker.State, ghost probed: map<nat, ProcessTracker.State>)
      requires AreOthers(others)
      modifies this
      ensures Later(Apply(old(State()), Event.Reap), scanned) && Later(scanned, State())
      ensures probed.Keys == Found(scanned) && forall pid :: pid in probed ==> Later(scanned, probed[pid])
      ensures Ascending(pids)
      ensures forall pid :: pid in pids <==> pid in probed && Alive(probed[pid].kernel, pid)
      ensures Absent(others) ==>
                && State() == Apply(old(State()), Event.Reap)
                && forall pid :: pid in pids <==> pid in Collected(old(State()))
    {
      hide Later, Alive, AreOthers, ApplyRun, Recorded, Apply;
      ghost var start := State();
      Reap();
      ghost var reaped := State();
      NoRun(reaped);
      Pause(0, others);
      LaterKeepsRecords(reaped, State());
      ghost var read := State();
      var roots := spawned + {kernel.me};
      var recorded := ReadPids(trackFile);
      NoRun(read);
      Pause(1, others);
      LaterKeepsRecords(read, State());
      LaterThenLater(reaped, read, State());
      scanned := State();
      var below := Descendants(ParentsOf(kernel), roots);
      var found := recorded + below + spawned;
      found := found - {kernel.me};
      found := found - {1};
      assert found == Found(scanned);
      hide Found;
      var alive;
      alive, probed := Probe(found, others);
      pids := Sorted(alive);
      if Absent(others) {
        CollectedNow(start);
      }
    }

    /** The answer about one pid, while other processes take the steps `meanwhile`. */
    method Status(pid: nat, meanwhile: seq<Event>) returns (report: Report)
      requires EnabledRun(Apply(State(), Event.Reap), meanwhile) && OthersOnly(meanwhile)
      modifies this
      ensures report == StatusOf(old(State()), meanwhile, pid)
    {
      Reap();
      if pid in exits {
        return HasExited(exits[pid]);
      }
      Elapse(meanwhile);
      if !Alive(kernel, pid) {
        Reap();
        if pid in exits {
          return HasExited(exits[pid]);
        }
        return IsMissing;
      }
      return IsRunning;
    }
  }
}
