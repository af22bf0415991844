/**
 The canonical form behind the audit fingerprints: object members sorted by key at every depth.
 Text is a sequence of UTF-16 code units, as JavaScript compares and stores it. An object is its
 members in any order, and two objects are told apart by that order.
 */
module CanonicalJson {
  import opened Bytes
  import opened TextOrder

  type Unit = c: int | 0 <= c < 0x10000
  type Text = seq<Unit>

  /** A value; a number is the text that represents it. */
  datatype Json =
    | Null
    | Bool(b: bool)
    | Number(digits: Text)
    | String(text: Text)
    | Buffer(bytes: seq<Byte>)
    | Array(items: seq<Json>)
    | Object(members: seq<Member>)

  datatype Member = Member(key: Text, value: Json)

  function HexDigit(n: int): Unit
    requires 0 <= n < 16
  {
    if n < 10 then 48 + n else 87 + n
  }

  /** `toString('hex')`. */
  function Hex(bytes: seq<Byte>): Text {
    if bytes == [] then [] else [HexDigit(bytes[0] / 16), HexDigit(bytes[0] % 16)] + Hex(bytes[1..])
  }

  /** Two lower-case digits a byte, the high half first. */
  lemma {:induction false} HexAt(bytes: seq<Byte>, i: nat)
    requires i < |bytes|
    ensures |Hex(bytes)| == 2 * |bytes|
    ensures Hex(bytes)[2 * i] == "0123456789abcdef"[bytes[i] / 16] as int
    ensures Hex(bytes)[2 * i + 1] == "0123456789abcdef"[bytes[i] % 16] as int
  {
    if |bytes| > 1 {
      HexAt(bytes[1..], if i > 0 then i - 1 else 0);
    } else {
      assert Hex(bytes[1..]) == [];
    }
  }

  predicate DistinctKeys(members: seq<Member>) {
    forall i, j :: 0 <= i < j < |members| ==> members[i].key != members[j].key
  }

  /** The keys of every object in the value are distinct. */
  predicate WellFormed(v: Json) {
    match v
    case Array(items) => forall item :: item in items ==> WellFormed(item)
    case Object(members) => DistinctKeys(members) && forall m :: m in members ==> WellFormed(m.value)
    case _ => true
  }

  function Insert(m: Member, sorted: seq<Member>): seq<Member> {
    if sorted == [] || !Less(sorted[0].key, m.key) then [m] + sorted
    else [sorted[0]] + Insert(m, sorted[1..])
  }

  /** `sort` by key. */
  function Sort(members: seq<Member>): seq<Member> {
    if members == [] then [] else Insert(members[0], Sort(members[1..]))
  }

  // The property order of a JavaScript object

  function NumberOf(key: Text): nat {
    if key == [] then 0
    else 10 * NumberOf(key[..|key| - 1]) + if 48 <= key[|key| - 1] <= 57 then key[|key| - 1] - 48 else 0
  }

  /** An array index written canonically: these keys come first, in numeric order. */
  predicate IsIndex(key: Text) {
    && key != [] && (forall i :: 0 <= i < |key| ==> 48 <= key[i] <= 57)
    && (|key| > 1 ==> key[0] != 48)
    && NumberOf(key) < 0xFFFF_FFFF
  }

  function InsertIndex(m: Member, sorted: seq<Member>): seq<Member> {
    if sorted == [] || !IsIndex(sorted[0].key) || NumberOf(m.key) <= NumberOf(sorted[0].key) then [m] + sorted
    else [sorted[0]] + InsertIndex(m, sorted[1..])
  }

  /** `Object.fromEntries` on distinct keys, as a list in own-property order. */
  function FromEntries(entries: seq<Member>): seq<Member> {
    if entries == [] then []
    else if IsIndex(entries[0].key) then InsertIndex(entries[0], FromEntries(entries[1..]))
    else AfterIndices(entries[0], FromEntries(entries[1..]))
  }

  /** A member whose key is not an index goes behind the indices and before the later ones. */
  function AfterIndices(m: Member, ordered: seq<Member>): seq<Member> {
    if ordered == [] || !IsIndex(ordered[0].key) then [m] + ordered
    else [ordered[0]] + AfterIndices(m, ordered[1..])
  }

  /**
   `stableJsonValue`. The source sorts the members before it maps their values; the sort looks at
   keys only, so the order of the two does not matter.
   */
  function Stable(v: Json): Json {
    match v
    case Buffer(bytes) => String(Hex(bytes))
    case Array(items) => Array(StableItems(items))
    case Object(members) => Object(FromEntries(Sort(StableMembers(members))))
    case _ => v
  }

  function StableItems(items: seq<Json>): (r: seq<Json>)
    ensures |r| == |items|
    ensures forall i :: 0 <= i < |items| ==> r[i] == Stable(items[i])
  {
    if items == [] then [] else [Stable(items[0])] + StableItems(items[1..])
  }

  function StableMembers(members: seq<Member>): (r: seq<Member>)
    ensures |r| == |members|
    ensures forall i :: 0 <= i < |members| ==> r[i] == Member(members[i].key, Stable(members[i].value))
  {
    if members == [] then []
    else [Member(members[0].key, Stable(members[0].value))] + StableMembers(members[1..])
  }

  /** The reference: the same value up to the order of members at every depth; a buffer is its hex text. */
  predicate SameUpToOrder(v: Json, w: Json) {
    match v
    case Buffer(bytes) => (w.Buffer? && Hex(w.bytes) == Hex(bytes)) || w == String(Hex(bytes))
    case String(text) => w == v || (w.Buffer? && Hex(w.bytes) == text)
    case Array(items) =>
      w.Array? && |w.items| == |items| && forall i :: 0 <= i < |items| ==> SameUpToOrder(items[i], w.items[i])
    case Object(members) =>
      w.Object? && |w.members| == |members| &&
      forall i :: 0 <= i < |members| ==>
        exists j :: 0 <= j < |w.members| && SameMember(members[i], w.members[j])
    case _ => w == v
  }

  predicate SameMember(m: Member, n: Member) {
    m.key == n.key && SameUpToOrder(m.value, n.value)
  }

  // Sorting

  predicate Sorted(members: seq<Member>) {
    forall i, j :: 0 <= i < j < |members| ==> Less(members[i].key, members[j].key)
  }

  lemma {:induction false} InsertSorts(m: Member, sorted: seq<Member>)
    requires Sorted(sorted) && forall k :: k in sorted ==> k.key != m.key
    ensures var r := Insert(m, sorted);
            && Sorted(r) && |r| == |sorted| + 1
            && forall k :: k in r <==> k == m || k in sorted
  {
    if sorted == [] {
    } else if Less(sorted[0].key, m.key) {
      InsertSorts(m, sorted[1..]);
      var r := Insert(m, sorted[1..]);
      assert sorted == [sorted[0]] + sorted[1..];
      forall j | 0 <= j < |r|
        ensures Less(sorted[0].key, r[j].key)
      {
        assert r[j] in r;
      }
    } else {
      assert sorted[0] in sorted;
      LessIsTotal(sorted[0].key, m.key);
      forall j | 0 <= j < |sorted|
        ensures Less(m.key, sorted[j].key)
      {
        if j > 0 {
          LessTransitive(m.key, sorted[0].key, sorted[j].key);
        }
      }
    }
  }

  lemma {:induction false} SortSorts(members: seq<Member>)
    requires DistinctKeys(members)
    ensures var r := Sort(members);
            && Sorted(r) && |r| == |members|
            && forall k :: k in r <==> k in members
  {
    if members != [] {
      assert members == [members[0]] + members[1..];
      SortSorts(members[1..]);
      InsertSorts(members[0], Sort(members[1..]));
    }
  }

  /** Two sorted lists with the same members are the same list. */
  lemma {:induction false} SortedUnique(a: seq<Member>, b: seq<Member>)
    requires Sorted(a) && Sorted(b)
    requires forall m :: m in a <==> m in b
    ensures a == b
  {
    assert a != [] ==> a[0] in a;
    assert b != [] ==> b[0] in b;
    if a != [] {
      assert a[0] in b;
      assert b[0] in a;
      SortedHeads(a, b);
      assert forall m :: m in a[1..] ==> m in a && Less(a[0].key, m.key);
      assert forall m :: m in b[1..] ==> m in b && Less(b[0].key, m.key);
      LessIrreflexive(a[0].key);
      assert a == [a[0]] + a[1..] && b == [b[0]] + b[1..];
      SortedUnique(a[1..], b[1..]);
    }
  }

  lemma SortedHeads(a: seq<Member>, b: seq<Member>)
    requires Sorted(a) && Sorted(b) && a != [] && b != []
    requires a[0] in b && b[0] in a
    ensures a[0] == b[0]
  {
    var i :| 0 <= i < |b| && b[i] == a[0];
    var j :| 0 <= j < |a| && a[j] == b[0];
    LessIsTotal(a[0].key, b[0].key);
  }

  // Own-property order keeps the members

  lemma {:induction false} InsertIndexKeeps(m: Member, sorted: seq<Member>)
    ensures |InsertIndex(m, sorted)| == |sorted| + 1
    ensures forall k :: k in InsertIndex(m, sorted) <==> k == m || k in sorted
  {
    if sorted != [] {
      InsertIndexKeeps(m, sorted[1..]);
      assert sorted == [sorted[0]] + sorted[1..];
    }
  }

  lemma {:induction false} AfterIndicesKeeps(m: Member, ordered: seq<Member>)
    ensures |AfterIndices(m, ordered)| == |ordered| + 1
    ensures forall k :: k in AfterIndices(m, ordered) <==> k == m || k in ordered
  {
    if ordered != [] {
      AfterIndicesKeeps(m, ordered[1..]);
      assert ordered == [ordered[0]] + ordered[1..];
    }
  }

  lemma {:induction false} FromEntriesKeeps(entries: seq<Member>)
    ensures |FromEntries(entries)| == |entries|
    ensures forall k :: k in FromEntries(entries) <==> k in entries
  {
    if entries != [] {
      FromEntriesKeeps(entries[1..]);
      InsertIndexKeeps(entries[0], FromEntries(entries[1..]));
      AfterIndicesKeeps(entries[0], FromEntries(entries[1..]));
      assert entries == [entries[0]] + entries[1..];
    }
  }

  /** The decimal text of a number. */
  function DecimalUnits(n: nat): (key: Text)
    ensures key != [] && NumberOf(key) == n
    ensures forall i :: 0 <= i < |key| ==> 48 <= key[i] <= 57
    ensures n > 0 ==> key[0] != 48
  {
    if n < 10 then [48 + n] else DecimalUnits(n / 10) + [48 + n % 10]
  }

  lemma OneUnit(digit: nat)
    requires digit < 10
    ensures DecimalUnits(digit) == [48 + digit]
  {
  }

  lemma MoreUnits(n: nat, digit: nat)
    requires n > 0 && digit < 10
    ensures DecimalUnits(10 * n + digit) == DecimalUnits(n) + [48 + digit]
  {
    assert (10 * n + digit) / 10 == n;
  }

  lemma {:induction false} DecimalOfNumber(key: Text)
    requires key != [] && (forall i :: 0 <= i < |key| ==> 48 <= key[i] <= 57) && (|key| > 1 ==> key[0] != 48)
    ensures DecimalUnits(NumberOf(key)) == key
    ensures key[0] != 48 ==> NumberOf(key) > 0
  {
    var front, last := key[..|key| - 1], key[|key| - 1];
    assert NumberOf(key) == 10 * NumberOf(front) + (last - 48);
    assert key == front + [last];
    if |key| == 1 {
      hide DecimalUnits;
      assert NumberOf(front) == 0;
      OneUnit(last - 48);
    } else {
      hide NumberOf, DecimalUnits;
      DecimalOfNumber(front);
      assert front[0] == key[0];
      MoreUnits(NumberOf(front), last - 48);
    }
  }

  /** The index keys are the decimal texts of the numbers below 4294967295. */
  lemma IsIndexIff(key: Text)
    ensures IsIndex(key) <==> exists n: nat :: n < 4_294_967_295 && key == DecimalUnits(n)
  {
    if IsIndex(key) {
      DecimalOfNumber(key);
    }
    if n: nat :| n < 4_294_967_295 && key == DecimalUnits(n) {
      assert n == 0 ==> |key| == 1;
    }
  }

  /** What stands before what in a JavaScript object: index keys by number, then the others, sorted as texts. */
  predicate Precedes(a: Text, b: Text) {
    if IsIndex(b) then IsIndex(a) && NumberOf(a) < NumberOf(b) else IsIndex(a) || Less(a, b)
  }

  predicate InOwnOrder(members: seq<Member>) {
    forall i, j :: 0 <= i < j < |members| ==> Precedes(members[i].key, members[j].key)
  }

  lemma PrecedesTransitive(a: Text, b: Text, c: Text)
    requires Precedes(a, b) && Precedes(b, c)
    ensures Precedes(a, c)
  {
    if Less(a, b) && Less(b, c) {
      LessTransitive(a, b, c);
    }
  }

  lemma Prepended(m: Member, members: seq<Member>)
    requires InOwnOrder(members) && (members != [] ==> Precedes(m.key, members[0].key))
    ensures InOwnOrder([m] + members)
  {
    hide Precedes;
    forall j | 0 <= j < |members|
      ensures Precedes(m.key, members[j].key)
    {
      if j > 0 {
        PrecedesTransitive(m.key, members[0].key, members[j].key);
      }
    }
  }

  lemma {:induction false} InsertIndexOrders(m: Member, sorted: seq<Member>)
    requires InOwnOrder(sorted) && IsIndex(m.key) && forall k :: k in sorted ==> k.key != m.key
    ensures InOwnOrder(InsertIndex(m, sorted))
  {
    hide IsIndex;
    if sorted != [] && IsIndex(sorted[0].key) {
      assert sorted[0] in sorted;
      if NumberOf(m.key) == NumberOf(sorted[0].key) {
        SameNumber(m.key, sorted[0].key);
      }
    }
    if sorted == [] || !IsIndex(sorted[0].key) || NumberOf(m.key) <= NumberOf(sorted[0].key) {
      Prepended(m, sorted);
    } else {
      InsertIndexOrders(m, sorted[1..]);
      Prepended(sorted[0], InsertIndex(m, sorted[1..]));
    }
  }

  lemma SameNumber(a: Text, b: Text)
    requires IsIndex(a) && IsIndex(b) && NumberOf(a) == NumberOf(b)
    ensures a == b
  {
    DecimalOfNumber(a);
    DecimalOfNumber(b);
  }

  lemma {:induction false} AfterIndicesOrders(m: Member, ordered: seq<Member>)
    requires InOwnOrder(ordered) && !IsIndex(m.key)
    requires forall k :: k in ordered && !IsIndex(k.key) ==> Less(m.key, k.key)
    ensures InOwnOrder(AfterIndices(m, ordered))
  {
    hide IsIndex;
    if ordered == [] || !IsIndex(ordered[0].key) {
      Prepended(m, ordered);
    } else {
      AfterIndicesOrders(m, ordered[1..]);
      Prepended(ordered[0], AfterIndices(m, ordered[1..]));
    }
  }

  lemma {:induction false} FromEntriesOrders(entries: seq<Member>)
    requires Sorted(entries)
    ensures InOwnOrder(FromEntries(entries))
  {
    hide IsIndex, Precedes;
    if entries != [] {
      var rest := FromEntries(entries[1..]);
      FromEntriesOrders(entries[1..]);
      FromEntriesKeeps(entries[1..]);
      LessIrreflexive(entries[0].key);
      assert forall k :: k in rest ==> k in entries[1..] && Less(entries[0].key, k.key);
      if IsIndex(entries[0].key) {
        InsertIndexOrders(entries[0], rest);
      } else {
        AfterIndicesOrders(entries[0], rest);
      }
    }
  }

  function Ordered(members: seq<Member>): seq<Member> {
    FromEntries(Sort(members))
  }

  lemma OrderedKeeps(members: seq<Member>)
    requires DistinctKeys(members)
    ensures |Ordered(members)| == |members|
    ensures forall k :: k in Ordered(members) <==> k in members
  {
    SortSorts(members);
    FromEntriesKeeps(Sort(members));
  }

  /** A canonical object keeps its members as a JavaScript object does: index keys by number, then the rest sorted. */
  lemma OrderedShape(members: seq<Member>)
    requires DistinctKeys(members)
    ensures InOwnOrder(Ordered(members))
  {
    SortSorts(members);
    FromEntriesOrders(Sort(members));
  }

  /** The canonical order depends on the set of members only. */
  lemma OrderedUnique(a: seq<Member>, b: seq<Member>)
    requires DistinctKeys(a) && DistinctKeys(b)
    requires forall m :: m in a <==> m in b
    ensures Ordered(a) == Ordered(b)
  {
    SortSorts(a);
    SortSorts(b);
    SortedUnique(Sort(a), Sort(b));
  }

  // Matching members

  function KeySet(members: seq<Member>): set<Text> {
    set i | 0 <= i < |members| :: members[i].key
  }

  lemma {:induction false} KeySetSize(members: seq<Member>)
    requires DistinctKeys(members)
    ensures |KeySet(members)| == |members|
  {
    if members != [] {
      var rest := members[..|members| - 1];
      var last := members[|members| - 1].key;
      KeySetSize(rest);
      assert last !in KeySet(rest);
      assert KeySet(members) == KeySet(rest) + {last};
    }
  }

  lemma {:induction false} SubsetOfSameSize(a: set<Text>, b: set<Text>)
    requires a <= b && |a| == |b|
    ensures a == b
  {
    if x :| x in b && x !in a {
      assert a <= b - {x};
      SubsetSize(a, b - {x});
    }
  }

  lemma {:induction false} SubsetSize(a: set<Text>, b: set<Text>)
    requires a <= b
    ensures |a| <= |b|
  {
    if x :| x in a {
      SubsetSize(a - {x}, b - {x});
    }
  }

  /** If every member of `a` has a partner in the equally long `b`, every member of `b` is a partner. */
  lemma EveryKeyMatched(a: seq<Member>, b: seq<Member>, j: int)
    requires DistinctKeys(a) && DistinctKeys(b) && |a| == |b| && 0 <= j < |b|
    requires forall m :: m in a ==> m.key in KeySet(b)
    ensures exists i :: 0 <= i < |a| && a[i].key == b[j].key
  {
    KeySetSize(a);
    KeySetSize(b);
    assert KeySet(a) <= KeySet(b) by {
      assert forall i :: 0 <= i < |a| ==> a[i] in a;
    }
    SubsetOfSameSize(KeySet(a), KeySet(b));
    assert b[j].key in KeySet(a);
  }

  lemma SubsetIsAll(a: seq<Member>, b: seq<Member>)
    requires DistinctKeys(a) && DistinctKeys(b) && |a| == |b|
    requires forall i :: 0 <= i < |a| ==> a[i] in b
    ensures forall m :: m in a <==> m in b
  {
    forall m | m in a
      ensures m.key in KeySet(b)
    {
      var i :| 0 <= i < |a| && a[i] == m;
      var k :| 0 <= k < |b| && b[k] == a[i];
      assert b[k].key in KeySet(b);
    }
    forall j | 0 <= j < |b|
      ensures b[j] in a
    {
      EveryKeyMatched(a, b, j);
      var i :| 0 <= i < |a| && a[i].key == b[j].key;
      var k :| 0 <= k < |b| && b[k] == a[i];
      assert k == j;
    }
  }

  lemma StableKeepsKeys(members: seq<Member>)
    requires DistinctKeys(members)
    ensures DistinctKeys(StableMembers(members))
  {
  }

  predicate Matches(m: Member, n: Member) {
    m.key == n.key && Stable(m.value) == Stable(n.value)
  }

  predicate Matched(m: Member, others: seq<Member>) {
    exists j :: 0 <= j < |others| && Matches(m, others[j])
  }

  /** Members matched one by one come out the same. */
  lemma MatchedMembersOrder(members: seq<Member>, others: seq<Member>)
    requires DistinctKeys(members) && DistinctKeys(others) && |members| == |others|
    requires forall m :: m in members ==> Matched(m, others)
    ensures Ordered(StableMembers(members)) == Ordered(StableMembers(others))
  {
    hide Sort, FromEntries, Ordered, Stable;
    var a, b := StableMembers(members), StableMembers(others);
    StableKeepsKeys(members);
    StableKeepsKeys(others);
    forall i | 0 <= i < |a|
      ensures a[i] in b
    {
      assert members[i] in members;
      var j :| 0 <= j < |others| && Matches(members[i], others[j]);
      assert b[j] == a[i];
    }
    SubsetIsAll(a, b);
    OrderedUnique(a, b);
  }

  // The theorem

  /** Equal up to member order: the canonical forms agree. */
  lemma {:induction false} SameIsStable(v: Json, w: Json)
    requires WellFormed(v) && WellFormed(w) && SameUpToOrder(v, w)
    ensures Stable(v) == Stable(w)
    decreases v
  {
    hide Sort, FromEntries, Hex;
    match v {
      case Array(items) =>
        forall i | 0 <= i < |items|
          ensures StableItems(items)[i] == StableItems(w.items)[i]
        {
          assert items[i] in items && w.items[i] in w.items;
          SameIsStable(items[i], w.items[i]);
        }
      case Object(members) =>
        forall m | m in members
          ensures Matched(m, w.members)
        {
          var i :| 0 <= i < |members| && members[i] == m;
          var j :| 0 <= j < |w.members| && SameMember(members[i], w.members[j]);
          assert w.members[j] in w.members;
          SameIsStable(m.value, w.members[j].value);
          assert Matches(m, w.members[j]);
        }
        MatchedMembersOrder(members, w.members);
      case _ =>
    }
  }

  /** Equal canonical forms: the values agree up to member order. */
  lemma {:induction false} StableIsSame(v: Json, w: Json)
    requires WellFormed(v) && WellFormed(w) && Stable(v) == Stable(w)
    ensures SameUpToOrder(v, w)
    decreases v
  {
    hide Sort, FromEntries, Hex;
    match v {
      case Array(items) =>
        forall i | 0 <= i < |items|
          ensures SameUpToOrder(items[i], w.items[i])
        {
          assert items[i] in items && w.items[i] in w.items;
          assert StableItems(items)[i] == StableItems(w.items)[i];
          StableIsSame(items[i], w.items[i]);
        }
      case Object(members) =>
        var a, b := StableMembers(members), StableMembers(w.members);
        StableKeepsKeys(members);
        StableKeepsKeys(w.members);
        OrderedKeeps(a);
        OrderedKeeps(b);
        assert Ordered(a) == Ordered(b);
        forall i | 0 <= i < |members|
          ensures exists j :: 0 <= j < |w.members| && SameMember(members[i], w.members[j])
        {
          assert a[i] in Ordered(b);
          var j :| 0 <= j < |b| && b[j] == a[i];
          assert members[i] in members && w.members[j] in w.members;
          StableIsSame(members[i].value, w.members[j].value);
          assert SameMember(members[i], w.members[j]);
        }
      case _ =>
    }
  }

  /** Canonical forms are equal exactly for values that agree up to member order at every depth. */
  lemma StableIffSame(v: Json, w: Json)
    requires WellFormed(v) && WellFormed(w)
    ensures Stable(v) == Stable(w) <==> SameUpToOrder(v, w)
  {
    if SameUpToOrder(v, w) {
      SameIsStable(v, w);
    }
    if Stable(v) == Stable(w) {
      StableIsSame(v, w);
    }
  }

  /** The same members in another order are the same object up to order. */
  lemma MembersKept(members: seq<Member>, a: seq<Member>, ordered: seq<Member>)
    requires |a| == |members| == |ordered| && DistinctKeys(ordered)
    requires forall i :: 0 <= i < |members| ==> WellFormed(a[i].value) && SameMember(a[i], members[i])
    requires forall m :: m in ordered <==> m in a
    ensures WellFormed(Object(ordered)) && SameUpToOrder(Object(ordered), Object(members))
  {
    forall m | m in ordered
      ensures WellFormed(m.value)
    {
      var j :| 0 <= j < |a| && a[j] == m;
    }
    var v, w := Object(ordered), Object(members);
    forall i | 0 <= i < |ordered|
      ensures exists j :: 0 <= j < |w.members| && SameMember(v.members[i], w.members[j])
    {
      assert ordered[i] in a;
      var j :| 0 <= j < |a| && a[j] == ordered[i];
      assert SameMember(v.members[i], w.members[j]);
    }
    assert SameUpToOrder(v, w);
  }

  lemma {:induction false} StableKeepsValue(v: Json)
    requires WellFormed(v)
    ensures WellFormed(Stable(v)) && SameUpToOrder(Stable(v), v)
    decreases v
  {
    hide Sort, FromEntries, Hex;
    match v {
      case Array(items) =>
        forall i | 0 <= i < |items|
          ensures WellFormed(StableItems(items)[i]) && SameUpToOrder(StableItems(items)[i], items[i])
        {
          assert items[i] in items;
          StableKeepsValue(items[i]);
        }
      case Object(members) =>
        var a := StableMembers(members);
        StableKeepsKeys(members);
        OrderedKeeps(a);
        forall i | 0 <= i < |members|
          ensures WellFormed(a[i].value) && SameMember(a[i], members[i])
        {
          assert members[i] in members;
          StableKeepsValue(members[i].value);
        }
        OrderedDistinct(a);
        hide WellFormed, SameUpToOrder, SameMember, Stable, Ordered;
        MembersKept(members, a, Ordered(a));
      case _ =>
    }
  }

  lemma {:induction false} FullKeySetIsDistinct(members: seq<Member>)
    ensures |KeySet(members)| <= |members|
    ensures |KeySet(members)| == |members| ==> DistinctKeys(members)
  {
    if members != [] {
      var rest, last := members[..|members| - 1], members[|members| - 1].key;
      FullKeySetIsDistinct(rest);
      assert KeySet(members) == KeySet(rest) + {last};
    }
  }

  lemma OrderedDistinct(members: seq<Member>)
    requires DistinctKeys(members)
    ensures DistinctKeys(Ordered(members))
  {
    OrderedKeeps(members);
    KeySetSize(members);
    assert KeySet(Ordered(members)) == KeySet(members) by {
      assert forall i :: 0 <= i < |members| ==> members[i] in Ordered(members);
      assert forall i :: 0 <= i < |Ordered(members)| ==> Ordered(members)[i] in members;
    }
    FullKeySetIsDistinct(Ordered(members));
  }

  /** Canonicalising twice is canonicalising once. */
  lemma StableIsIdempotent(v: Json)
    requires WellFormed(v)
    ensures Stable(Stable(v)) == Stable(v)
  {
    StableKeepsValue(v);
    SameIsStable(Stable(v), v);
  }
}
