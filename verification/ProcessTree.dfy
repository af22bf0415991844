/**
 The tracker's search through a snapshot of parent links, `pid -> parent pid`. A snapshot may be
 any finite map, cyclic or with links to pids it does not hold.
 */
module ProcessTree {
  type Parents = map<nat, nat>

  /** The links the search follows: from a parent to a child above 1 that is not itself. */
  predicate Link(parents: Parents, parent: nat, child: nat) {
    child in parents && parents[child] == parent && child > 1 && child != parent
  }

  ghost predicate IsPath(parents: Parents, path: seq<nat>) {
    |path| > 0 && forall i :: 0 <= i < |path| - 1 ==> Link(parents, path[i], path[i + 1])
  }

  /** `pid` is reached from `root` by one link or more. */
  ghost predicate Below(parents: Parents, root: nat, pid: nat) {
    exists path :: |path| > 1 && IsPath(parents, path) && path[0] == root && path[|path| - 1] == pid
  }

  ghost predicate BelowAny(parents: Parents, roots: set<nat>, pid: nat) {
    exists root :: root in roots && Below(parents, root, pid)
  }

  lemma LinkIsBelow(parents: Parents, parent: nat, child: nat)
    requires Link(parents, parent, child)
    ensures Below(parents, parent, child)
  {
    assert IsPath(parents, [parent, child]);
  }

  lemma BelowThenLink(parents: Parents, root: nat, parent: nat, child: nat)
    requires Below(parents, root, parent) && Link(parents, parent, child)
    ensures Below(parents, root, child)
  {
    var path :| |path| > 1 && IsPath(parents, path) && path[0] == root && path[|path| - 1] == parent;
    assert IsPath(parents, path + [child]);
  }

  /** A set that contains the children of the roots and of its own members contains all that is below. */
  lemma {:induction false} ClosedHoldsPath(parents: Parents, roots: set<nat>, closed: set<nat>, path: seq<nat>)
    requires forall p, c :: (p in roots || p in closed) && Link(parents, p, c) ==> c in closed
    requires IsPath(parents, path) && (path[0] in roots || path[0] in closed)
    ensures |path| > 1 ==> path[|path| - 1] in closed
  {
    if |path| > 1 {
      assert Link(parents, path[0], path[0 + 1]);
      assert path[1..][|path| - 2] == path[|path| - 1];
      ClosedHoldsPath(parents, roots, closed, path[1..]);
    }
  }

  function ChildrenOf(children: map<nat, seq<nat>>, parent: nat): seq<nat> {
    if parent in children then children[parent] else []
  }

  /** The table from a parent to its children, built from the snapshot in any order. */
  method Invert(parents: Parents) returns (children: map<nat, seq<nat>>)
    ensures forall p, c :: c in ChildrenOf(children, p) <==> c in parents && parents[c] == p
  {
    children := map[];
    assert forall p :: ChildrenOf(children, p) == [];
    var rest := parents.Keys;
    while rest != {}
      invariant rest <= parents.Keys
      invariant forall p, c :: c in ChildrenOf(children, p) <==> c in parents && c !in rest && parents[c] == p
    {
      var pid :| pid in rest;
      var parent := parents[pid];
      ghost var before := children;
      children := children[parent := ChildrenOf(children, parent) + [pid]];
      assert forall p :: ChildrenOf(children, p) ==
                         if p == parent then ChildrenOf(before, p) + [pid] else ChildrenOf(before, p);
      rest := rest - {pid};
    }
  }

  method AsList(roots: set<nat>) returns (list: seq<nat>)
    ensures forall pid :: pid in list <==> pid in roots
  {
    list := [];
    var rest := roots;
    while rest != {}
      invariant rest <= roots
      invariant forall pid :: pid in list <==> pid in roots - rest
    {
      var pid :| pid in rest;
      list := list + [pid];
      rest := rest - {pid};
    }
  }

  /** The inner loop of the search: children not seen before are marked and pushed. */
  method Push(kids: seq<nat>, current: nat, seen: set<nat>, stack: seq<nat>) returns (marked: set<nat>, pushed: seq<nat>)
    ensures forall pid :: pid in marked <==> pid in seen || (pid in kids && pid != current && pid > 1)
    ensures forall pid :: pid in pushed <==> pid in stack || (pid in marked && pid !in seen)
    ensures marked == seen ==> pushed == stack
  {
    marked, pushed := seen, stack;
    for i := 0 to |kids|
      invariant forall pid :: pid in marked <==> pid in seen || (pid in kids[..i] && pid != current && pid > 1)
      invariant forall pid :: pid in pushed <==> pid in stack || (pid in marked && pid !in seen)
      invariant marked == seen ==> pushed == stack
    {
      var child := kids[i];
      assert forall pid :: pid in kids[..i + 1] <==> pid in kids[..i] || pid == child;
      if child in marked || child == current || child <= 1 {
        continue;
      }
      marked := marked + {child};
      pushed := pushed + [child];
    }
    assert kids[..|kids|] == kids;
  }

  lemma ChildIsBelow(parents: Parents, roots: set<nat>, current: nat, child: nat)
    requires current in roots || BelowAny(parents, roots, current)
    requires Link(parents, current, child)
    ensures BelowAny(parents, roots, child)
  {
    if current in roots {
      LinkIsBelow(parents, current, child);
    } else {
      var root :| root in roots && Below(parents, root, current);
      BelowThenLink(parents, root, current, child);
    }
  }

  lemma ClosedHoldsAllBelow(parents: Parents, roots: set<nat>, closed: set<nat>)
    requires forall p, c :: (p in roots || p in closed) && Link(parents, p, c) ==> c in closed
    ensures forall pid :: BelowAny(parents, roots, pid) ==> pid in closed
  {
    forall pid | BelowAny(parents, roots, pid)
      ensures pid in closed
    {
      var root :| root in roots && Below(parents, root, pid);
      var path :| |path| > 1 && IsPath(parents, path) && path[0] == root && path[|path| - 1] == pid;
      ClosedHoldsPath(parents, roots, closed, path);
    }
  }

  /**
   The depth-first search of `descendants`: it ends on every snapshot and returns exactly the pids
   above 1 that are below a root.
   */
  method Descendants(parents: Parents, roots: set<nat>) returns (seen: set<nat>)
    ensures forall pid :: pid in seen <==> BelowAny(parents, roots, pid)
  {
    hide BelowAny;
    var children := Invert(parents);
    seen := {};
    var stack := AsList(roots);
    while stack != []
      invariant seen <= parents.Keys
      invariant forall pid :: pid in seen ==> BelowAny(parents, roots, pid)
      invariant forall pid :: pid in stack ==> pid in roots || pid in seen
      invariant forall p, c :: (p in roots || p in seen) && p !in stack && Link(parents, p, c) ==> c in seen
      decreases parents.Keys - seen, |stack|
    {
      var current := stack[|stack| - 1];
      assert forall pid :: pid in stack ==> pid == current || pid in stack[..|stack| - 1];
      var marked, pushed := Push(ChildrenOf(children, current), current, seen, stack[..|stack| - 1]);
      forall pid | pid in marked && pid !in seen
        ensures pid in parents && BelowAny(parents, roots, pid)
      {
        ChildIsBelow(parents, roots, current, pid);
      }
      assert forall c :: Link(parents, current, c) ==> c in marked;
      assert marked == seen || parents.Keys - marked < parents.Keys - seen by {
        if pid :| pid in marked && pid !in seen {
          assert pid in parents.Keys - seen;
        }
      }
      seen, stack := marked, pushed;
    }
    ClosedHoldsAllBelow(parents, roots, seen);
  }

  /** What is below a root is its child or has a parent below it. */
  lemma BelowUp(parents: Parents, root: nat, pid: nat)
    requires Below(parents, root, pid)
    ensures pid in parents && pid > 1
    ensures parents[pid] == root || Below(parents, root, parents[pid])
  {
    var path :| |path| > 1 && IsPath(parents, path) && path[0] == root && path[|path| - 1] == pid;
    assert Link(parents, path[|path| - 2], path[|path| - 2 + 1]);
    if |path| > 2 {
      var above := path[..|path| - 1];
      assert IsPath(parents, above) by {
        forall i | 0 <= i < |above| - 1
          ensures Link(parents, above[i], above[i + 1])
        {
          assert Link(parents, path[i], path[i + 1]);
        }
      }
    }
  }

  /** The pids below a set of roots, as a set. */
  ghost function BelowSet(parents: Parents, roots: set<nat>): (found: set<nat>)
    ensures forall pid :: pid in found <==> BelowAny(parents, roots, pid)
  {
    forall pid | BelowAny(parents, roots, pid) ensures pid in parents {
      BelowInSnapshot(parents, roots, pid);
    }
    set pid | pid in parents && BelowAny(parents, roots, pid)
  }

  lemma BelowInSnapshot(parents: Parents, roots: set<nat>, pid: nat)
    requires BelowAny(parents, roots, pid)
    ensures pid in parents && pid > 1
  {
    var root :| root in roots && Below(parents, root, pid);
    var path :| |path| > 1 && IsPath(parents, path) && path[0] == root && path[|path| - 1] == pid;
    assert Link(parents, path[|path| - 2], path[|path| - 2 + 1]);
  }

  /** The result distributes over unions of roots, and searching from the result again adds nothing. */
  lemma BelowSetLaws(parents: Parents, roots: set<nat>, more: set<nat>)
    ensures BelowSet(parents, roots + more) == BelowSet(parents, roots) + BelowSet(parents, more)
    ensures BelowSet(parents, BelowSet(parents, roots)) <= BelowSet(parents, roots)
  {
    forall pid | pid in BelowSet(parents, BelowSet(parents, roots))
      ensures pid in BelowSet(parents, roots)
    {
      var mid :| mid in BelowSet(parents, roots) && Below(parents, mid, pid);
      var root :| root in roots && Below(parents, root, mid);
      var first :| |first| > 1 && IsPath(parents, first) && first[0] == root && first[|first| - 1] == mid;
      var second :| |second| > 1 && IsPath(parents, second) && second[0] == mid && second[|second| - 1] == pid;
      var whole := first + second[1..];
      forall i | 0 <= i < |whole| - 1
        ensures Link(parents, whole[i], whole[i + 1])
      {
        if i < |first| - 1 {
          assert whole[i] == first[i] && whole[i + 1] == first[i + 1];
        } else {
          var k := i - (|first| - 1);
          assert whole[i] == second[k] && whole[i + 1] == second[k + 1];
        }
      }
      assert IsPath(parents, whole) && whole[|whole| - 1] == second[|second| - 1];
      assert Below(parents, root, pid);
    }
  }
}
