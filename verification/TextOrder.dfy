/** Strings compared by their code units, as JavaScript compares them. */
module TextOrder {
  /** `a < b`. */
  predicate Less(a: seq<int>, b: seq<int>) {
    b != [] && (a == [] || a[0] < b[0] || (a[0] == b[0] && Less(a[1..], b[1..])))
  }

  lemma {:induction false} LessIsTotal(a: seq<int>, b: seq<int>)
    ensures Less(a, b) || a == b || Less(b, a)
    ensures !(Less(a, b) && Less(b, a)) && !Less(a, a)
  {
    if a != [] && b != [] && a[0] == b[0] {
      LessIsTotal(a[1..], b[1..]);
      assert a == [a[0]] + a[1..] && b == [b[0]] + b[1..];
    }
    if a != [] {
      LessIrreflexive(a);
    }
  }

  lemma {:induction false} LessIrreflexive(a: seq<int>)
    ensures !Less(a, a)
  {
    if a != [] {
      LessIrreflexive(a[1..]);
    }
  }

  lemma {:induction false} LessTransitive(a: seq<int>, b: seq<int>, c: seq<int>)
    requires Less(a, b) && Less(b, c)
    ensures Less(a, c)
  {
    if a != [] && a[0] == b[0] && b[0] == c[0] {
      LessTransitive(a[1..], b[1..], c[1..]);
    }
  }

  /** The first difference decides. */
  lemma {:induction false} LessAt(a: seq<int>, b: seq<int>, k: nat)
    requires k < |a| && k < |b| && a[..k] == b[..k] && a[k] != b[k]
    ensures Less(a, b) <==> a[k] < b[k]
    decreases k
  {
    if k > 0 {
      assert a[0] == a[..k][0] == b[..k][0] == b[0];
      assert a[1..][..k - 1] == a[..k][1..] && b[1..][..k - 1] == b[..k][1..];
      LessAt(a[1..], b[1..], k - 1);
    }
  }

  lemma {:induction false} FirstDifference(a: seq<int>, b: seq<int>) returns (k: nat)
    requires |a| == |b| && a != b
    ensures k < |a| && a[..k] == b[..k] && a[k] != b[k]
  {
    if a[0] != b[0] {
      k := 0;
    } else {
      assert a == [a[0]] + a[1..] && b == [b[0]] + b[1..];
      k := FirstDifference(a[1..], b[1..]);
      assert a[..k + 1] == [a[0]] + a[1..][..k] && b[..k + 1] == [b[0]] + b[1..][..k];
      k := k + 1;
    }
  }

  /** The order of a dictionary: a proper prefix comes first, and otherwise the first difference decides. */
  lemma LessIff(a: seq<int>, b: seq<int>)
    ensures Less(a, b) <==>
              || (|a| < |b| && b[..|a|] == a)
              || exists k :: 0 <= k < |a| && k < |b| && a[..k] == b[..k] && a[k] < b[k]
  {
    if k :| 0 <= k < |a| && k < |b| && a[..k] == b[..k] && a[k] < b[k] {
      LessAt(a, b, k);
    }
    if |a| < |b| && b[..|a|] == a {
      PrefixIsLess(a, b);
    }
    if Less(a, b) && !(|a| < |b| && b[..|a|] == a) {
      var k := DifferAt(a, b);
      LessAt(a, b, k);
    }
  }

  lemma {:induction false} PrefixIsLess(a: seq<int>, b: seq<int>)
    requires |a| < |b| && b[..|a|] == a
    ensures Less(a, b) && !Less(b, a)
  {
    if a != [] {
      assert a[0] == b[..|a|][0] == b[0];
      assert b[1..][..|a| - 1] == b[..|a|][1..] == a[1..];
      PrefixIsLess(a[1..], b[1..]);
    }
  }

  lemma {:induction false} DifferAt(a: seq<int>, b: seq<int>) returns (k: nat)
    requires Less(a, b) && !(|a| < |b| && b[..|a|] == a)
    ensures k < |a| && k < |b| && a[..k] == b[..k] && a[k] != b[k]
  {
    assert b != [] && b[..0] == [];
    if a[0] != b[0] {
      k := 0;
    } else {
      assert a == [a[0]] + a[1..] && b == [b[0]] + b[1..];
      assert |a| <= |b| && b[1..][..|a| - 1] == a[1..] ==> b[..|a|] == a;
      k := DifferAt(a[1..], b[1..]);
      assert a[..k + 1] == [a[0]] + a[1..][..k] && b[..k + 1] == [b[0]] + b[1..][..k];
      k := k + 1;
    }
  }
}
