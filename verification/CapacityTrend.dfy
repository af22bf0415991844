/**
 The capacity trend: for every hour, the sum over instances of the latest sample of each instance in
 that hour. The query ranks the samples of an instance and hour and keeps the first; sizes are whole
 units, or absent where the column is null, and moments are whole seconds.
 */
module CapacityTrend {
  import opened Wrappers

  datatype Sample = Sample(id: int, instance: int, size: Option<int>, recordedAt: int)

  datatype Window = Between(from: int, to: int) | Since(from: int)

  /** One instance, a list of allowed ones, or all. */
  datatype Scope = One(instance: int) | Among(instances: set<int>) | Everyone

  datatype Bucket = Bucket(total: Option<int>, instances: nat, observedAt: int)

  function Hour(s: Sample): int {
    s.recordedAt / 3600
  }

  predicate InWindow(s: Sample, w: Window) {
    w.from <= s.recordedAt && (w.Between? ==> s.recordedAt < w.to)
  }

  predicate InScope(s: Sample, scope: Scope) {
    match scope
    case One(instance) => s.instance == instance
    case Among(instances) => s.instance in instances
    case Everyone => true
  }

  // The query, clause by clause

  function Where(rows: seq<Sample>, w: Window, scope: Scope): seq<Sample> {
    if rows == [] then []
    else if InWindow(rows[0], w) && InScope(rows[0], scope) then [rows[0]] + Where(rows[1..], w, scope)
    else Where(rows[1..], w, scope)
  }

  predicate SamePartition(a: Sample, b: Sample) {
    a.instance == b.instance && Hour(a) == Hour(b)
  }

  /** `ORDER BY recorded_at DESC, id DESC`: `a` comes before `b`. */
  predicate ComesBefore(a: Sample, b: Sample) {
    a.recordedAt > b.recordedAt || (a.recordedAt == b.recordedAt && a.id > b.id)
  }

  /** How many rows of the partition of `s` come before it: its row number less one. */
  function Ahead(rows: seq<Sample>, s: Sample): nat {
    if rows == [] then 0
    else (if SamePartition(rows[0], s) && ComesBefore(rows[0], s) then 1 else 0) + Ahead(rows[1..], s)
  }

  function RowNumber(rows: seq<Sample>, s: Sample): nat {
    Ahead(rows, s) + 1
  }

  /** The rows whose number among `all` is 1. */
  function RankedFirst(rows: seq<Sample>, all: seq<Sample>): seq<Sample> {
    if rows == [] then []
    else if RowNumber(all, rows[0]) == 1 then [rows[0]] + RankedFirst(rows[1..], all)
    else RankedFirst(rows[1..], all)
  }

  function OfHour(rows: seq<Sample>, hour: int): seq<Sample> {
    if rows == [] then []
    else if Hour(rows[0]) == hour then [rows[0]] + OfHour(rows[1..], hour)
    else OfHour(rows[1..], hour)
  }

  /** `SUM(total_size_gb)`: nulls are passed over, and the sum of nulls only is null. */
  function SumSizes(rows: seq<Sample>): Option<int> {
    if rows == [] then None
    else
      var rest := SumSizes(rows[1..]);
      match rows[0].size
      case None => rest
      case Some(n) => Some(n + if rest.Some? then rest.value else 0)
  }

  function MaxRecordedAt(rows: seq<Sample>): int
    requires rows != []
  {
    if |rows| == 1 then rows[0].recordedAt
    else
      var rest := MaxRecordedAt(rows[1..]);
      if rows[0].recordedAt > rest then rows[0].recordedAt else rest
  }

  function Aggregate(rows: seq<Sample>): Bucket
    requires rows != []
  {
    Bucket(SumSizes(rows), |set s | s in rows :: s.instance|, MaxRecordedAt(rows))
  }

  function Kept(table: seq<Sample>, w: Window, scope: Scope): seq<Sample> {
    var rows := Where(table, w, scope);
    RankedFirst(rows, rows)
  }

  /** The result of the query, from hour to bucket. */
  function Trend(table: seq<Sample>, w: Window, scope: Scope): map<int, Bucket> {
    var kept := Kept(table, w, scope);
    map hour | hour in (set s | s in kept :: Hour(s)) && OfHour(kept, hour) != [] :: Aggregate(OfHour(kept, hour))
  }

  // The reference, on the set of samples

  predicate DistinctIds(table: seq<Sample>) {
    forall i, j :: 0 <= i < j < |table| ==> table[i].id != table[j].id
  }

  function Considered(samples: set<Sample>, w: Window, scope: Scope): set<Sample> {
    set s | s in samples && InWindow(s, w) && InScope(s, scope)
  }

  /** The samples of the hour that are the latest of their instance in it. */
  function Latest(samples: set<Sample>, w: Window, scope: Scope, hour: int): set<Sample> {
    var considered := Considered(samples, w, scope);
    set s | s in considered && Hour(s) == hour &&
      forall other :: other in considered && SamePartition(other, s) ==> !ComesBefore(other, s)
  }

  function SizeOf(s: Sample): int {
    if s.size.Some? then s.size.value else 0
  }

  ghost function Total(samples: set<Sample>): int {
    if samples == {} then 0
    else var s :| s in samples; SizeOf(s) + Total(samples - {s})
  }

  predicate AnySize(samples: set<Sample>) {
    exists s :: s in samples && s.size.Some?
  }

  function Instances(samples: set<Sample>): set<int> {
    set s | s in samples :: s.instance
  }

  function Rows(table: seq<Sample>): set<Sample> {
    set s | s in table
  }

  // Sums over sets

  lemma {:induction false} TotalRemove(samples: set<Sample>, s: Sample)
    requires s in samples
    ensures Total(samples) == SizeOf(s) + Total(samples - {s})
  {
    var t :| t in samples && Total(samples) == SizeOf(t) + Total(samples - {t});
    if t != s {
      TotalRemove(samples - {t}, s);
      TotalRemove(samples - {s}, t);
      assert samples - {t} - {s} == samples - {s} - {t};
    }
  }

  lemma {:induction false} TotalUnion(a: set<Sample>, b: set<Sample>)
    requires a !! b
    ensures Total(a + b) == Total(a) + Total(b)
  {
    if s :| s in a {
      TotalUnion(a - {s}, b);
      TotalRemove(a, s);
      TotalRemove(a + b, s);
      assert a + b - {s} == a - {s} + b;
    } else {
      assert a + b == b;
    }
  }

  predicate NoDuplicates(rows: seq<Sample>) {
    forall i, j :: 0 <= i < j < |rows| ==> rows[i] != rows[j]
  }

  /** The set of a list, without its first row. */
  lemma RowsCons(rows: seq<Sample>)
    requires rows != []
    ensures Rows(rows) == {rows[0]} + Rows(rows[1..])
    ensures NoDuplicates(rows) ==> Rows(rows) - {rows[0]} == Rows(rows[1..]) && NoDuplicates(rows[1..])
  {
    assert rows == [rows[0]] + rows[1..];
  }

  lemma ConsRows(first: Sample, rest: seq<Sample>)
    ensures Rows([first] + rest) == {first} + Rows(rest)
  {
  }

  lemma {:induction false} SumIsTotal(rows: seq<Sample>)
    requires NoDuplicates(rows)
    ensures SumSizes(rows) == if AnySize(Rows(rows)) then Some(Total(Rows(rows))) else None
  {
    if rows != [] {
      RowsCons(rows);
      SumIsTotal(rows[1..]);
      TotalRemove(Rows(rows), rows[0]);
      NoSizeNoTotal(Rows(rows[1..]));
      AnySizeUnion({rows[0]}, Rows(rows[1..]));
      assert AnySize({rows[0]}) <==> rows[0].size.Some? by {
        assert rows[0] in {rows[0]};
      }
      hide Rows, Total, AnySize, NoDuplicates;
    }
  }

  lemma AnySizeUnion(a: set<Sample>, b: set<Sample>)
    ensures AnySize(a + b) <==> AnySize(a) || AnySize(b)
  {
    if AnySize(a) {
      var s :| s in a && s.size.Some?;
      assert s in a + b;
    }
    if AnySize(b) {
      var s :| s in b && s.size.Some?;
      assert s in a + b;
    }
  }

  lemma {:induction false} NoSizeNoTotal(samples: set<Sample>)
    ensures !AnySize(samples) ==> Total(samples) == 0
  {
    if s :| s in samples {
      NoSizeNoTotal(samples - {s});
      TotalRemove(samples, s);
    }
  }

  // The clauses and the sets they stand for

  lemma {:induction false} WhereIs(rows: seq<Sample>, w: Window, scope: Scope)
    ensures Rows(Where(rows, w, scope)) == Considered(Rows(rows), w, scope)
  {
    hide InWindow, InScope;
    if rows != [] {
      WhereIs(rows[1..], w, scope);
      RowsCons(rows);
      ConsRows(rows[0], Where(rows[1..], w, scope));
    }
  }

  /** Putting the first row in front of rows taken from the others keeps ids distinct. */
  lemma SubsetOfTail(rows: seq<Sample>, taken: seq<Sample>)
    requires rows != [] && Rows(taken) <= Rows(rows[1..])
    ensures DistinctIds(rows) ==> DistinctIds(rows[1..])
    ensures DistinctIds(rows) && DistinctIds(taken) ==> DistinctIds([rows[0]] + taken)
  {
    if DistinctIds(rows) {
      forall j | 0 <= j < |taken|
        ensures rows[0].id != taken[j].id
      {
        assert taken[j] in Rows(rows[1..]);
      }
    }
  }

  lemma {:induction false} WhereDistinct(rows: seq<Sample>, w: Window, scope: Scope)
    requires DistinctIds(rows)
    ensures DistinctIds(Where(rows, w, scope))
  {
    if rows != [] {
      WhereIs(rows[1..], w, scope);
      SubsetOfTail(rows, Where(rows[1..], w, scope));
      hide DistinctIds, InWindow, InScope;
      WhereDistinct(rows[1..], w, scope);
    }
  }

  lemma {:induction false} AheadIsZero(rows: seq<Sample>, s: Sample)
    ensures Ahead(rows, s) == 0 <==> forall other :: other in rows && SamePartition(other, s) ==> !ComesBefore(other, s)
  {
    if rows != [] {
      AheadIsZero(rows[1..], s);
      assert rows == [rows[0]] + rows[1..];
    }
  }

  lemma {:induction false} RankedFirstIs(rows: seq<Sample>, all: seq<Sample>)
    ensures Rows(RankedFirst(rows, all)) == set s | s in rows && RowNumber(all, s) == 1
    ensures DistinctIds(rows) ==> DistinctIds(RankedFirst(rows, all))
  {
    if rows != [] {
      RankedFirstIs(rows[1..], all);
      RowsCons(rows);
      ConsRows(rows[0], RankedFirst(rows[1..], all));
      SubsetOfTail(rows, RankedFirst(rows[1..], all));
      assert rows == [rows[0]] + rows[1..];
    }
  }

  lemma {:induction false} OfHourIs(rows: seq<Sample>, hour: int)
    ensures Rows(OfHour(rows, hour)) == set s | s in rows && Hour(s) == hour
    ensures DistinctIds(rows) ==> DistinctIds(OfHour(rows, hour))
  {
    if rows != [] {
      OfHourIs(rows[1..], hour);
      RowsCons(rows);
      ConsRows(rows[0], OfHour(rows[1..], hour));
      SubsetOfTail(rows, OfHour(rows[1..], hour));
      assert rows == [rows[0]] + rows[1..];
    }
  }

  /** The rows the query aggregates for an hour are the latest samples of that hour. */
  lemma KeptOfHour(table: seq<Sample>, w: Window, scope: Scope, hour: int)
    ensures Rows(OfHour(Kept(table, w, scope), hour)) == Latest(Rows(table), w, scope, hour)
    ensures DistinctIds(table) ==> DistinctIds(OfHour(Kept(table, w, scope), hour))
  {
    var rows := Where(table, w, scope);
    WhereIs(table, w, scope);
    if DistinctIds(table) {
      WhereDistinct(table, w, scope);
    }
    RankedFirstIs(rows, rows);
    OfHourIs(Kept(table, w, scope), hour);
    forall s
      ensures RowNumber(rows, s) == 1 <==>
              forall other :: other in rows && SamePartition(other, s) ==> !ComesBefore(other, s)
    {
      AheadIsZero(rows, s);
    }
    assert forall s :: s in rows <==> s in Considered(Rows(table), w, scope);
    assert forall s :: s in Kept(table, w, scope) <==> s in Rows(Kept(table, w, scope));
  }

  lemma {:induction false} MaxIs(rows: seq<Sample>)
    requires rows != []
    ensures exists s :: s in rows && s.recordedAt == MaxRecordedAt(rows)
    ensures forall s :: s in rows ==> s.recordedAt <= MaxRecordedAt(rows)
  {
    assert rows[0] in rows;
    if |rows| > 1 {
      MaxIs(rows[1..]);
      var s :| s in rows[1..] && s.recordedAt == MaxRecordedAt(rows[1..]);
      assert s in rows;
      assert rows == [rows[0]] + rows[1..];
    }
  }

  /** A bucket holds what the hour's latest samples add up to. */
  ghost predicate IsBucketOf(b: Bucket, latest: set<Sample>) {
    && b.total == (if AnySize(latest) then Some(Total(latest)) else None)
    && b.instances == |Instances(latest)| == |latest|
    && (exists s :: s in latest && s.recordedAt == b.observedAt)
    && (forall s :: s in latest ==> s.recordedAt <= b.observedAt)
  }

  /** Ids are distinct over the table as a set. */
  predicate IdsIdentify(samples: set<Sample>) {
    forall s, t :: s in samples && t in samples && s.id == t.id ==> s == t
  }

  lemma {:induction false} OnePerInstance(latest: set<Sample>)
    requires forall s, t :: s in latest && t in latest && s.instance == t.instance ==> s == t
    ensures |Instances(latest)| == |latest|
  {
    if s :| s in latest {
      OnePerInstance(latest - {s});
      assert Instances(latest) == Instances(latest - {s}) + {s.instance};
    }
  }

  lemma LatestIsOnePerInstance(samples: set<Sample>, w: Window, scope: Scope, hour: int)
    requires IdsIdentify(samples)
    ensures var latest := Latest(samples, w, scope, hour);
            forall s, t :: s in latest && t in latest && s.instance == t.instance ==> s == t
  {
  }

  lemma DistinctIdsIdentify(table: seq<Sample>)
    requires DistinctIds(table)
    ensures IdsIdentify(Rows(table))
  {
  }

  /**
   The query is right on every table with distinct ids: an hour is listed when a sample of the scope
   falls in it, and its bucket counts every instance once, with its latest sample of the hour.
   */
  lemma TrendIsExact(table: seq<Sample>, w: Window, scope: Scope, hour: int)
    requires DistinctIds(table)
    ensures hour in Trend(table, w, scope) <==> exists s :: s in Considered(Rows(table), w, scope) && Hour(s) == hour
    ensures hour in Trend(table, w, scope) <==> Latest(Rows(table), w, scope, hour) != {}
    ensures hour in Trend(table, w, scope) ==> IsBucketOf(Trend(table, w, scope)[hour], Latest(Rows(table), w, scope, hour))
  {
    var rows := OfHour(Kept(table, w, scope), hour);
    var latest := Latest(Rows(table), w, scope, hour);
    KeptOfHour(table, w, scope, hour);
    HourHasLatest(Rows(table), w, scope, hour);
    TrendLists(table, w, scope, hour);
    DistinctIdsIdentify(table);
    LatestIsOnePerInstance(Rows(table), w, scope, hour);
    hide Kept, Latest, Considered, Trend, OfHour;
    if rows != [] {
      assert rows[0] in Rows(rows);
      OnePerInstance(latest);
      AggregateIsBucket(rows);
    } else {
      assert Rows(rows) == {};
    }
  }

  lemma TrendLists(table: seq<Sample>, w: Window, scope: Scope, hour: int)
    ensures var rows := OfHour(Kept(table, w, scope), hour);
            && (hour in Trend(table, w, scope) <==> rows != [])
            && (rows != [] ==> Trend(table, w, scope)[hour] == Aggregate(rows))
  {
    var kept := Kept(table, w, scope);
    var rows := OfHour(kept, hour);
    OfHourIs(kept, hour);
    assert rows != [] ==> rows[0] in Rows(rows);
  }

  lemma AggregateIsBucket(rows: seq<Sample>)
    requires rows != [] && DistinctIds(rows) && |Instances(Rows(rows))| == |Rows(rows)|
    ensures IsBucketOf(Aggregate(rows), Rows(rows))
  {
    SumIsTotal(rows);
    MaxIs(rows);
    assert forall s :: s in rows <==> s in Rows(rows);
    assert (set s | s in rows :: s.instance) == Instances(Rows(rows));
  }

  /** An hour with a considered sample has a latest one. */
  lemma HourHasLatest(samples: set<Sample>, w: Window, scope: Scope, hour: int)
    ensures (exists s :: s in Considered(samples, w, scope) && Hour(s) == hour) <==> Latest(samples, w, scope, hour) != {}
  {
    if s :| s in Considered(samples, w, scope) && Hour(s) == hour {
      var best := Best(Considered(samples, w, scope), s);
      assert best in Latest(samples, w, scope, hour);
    }
  }

  lemma {:induction false} Best(considered: set<Sample>, s: Sample) returns (best: Sample)
    requires s in considered
    ensures best in considered && SamePartition(best, s)
    ensures forall other :: other in considered && SamePartition(other, s) ==> !ComesBefore(other, best)
    decreases considered
  {
    if better :| better in considered && SamePartition(better, s) && ComesBefore(better, s) {
      best := Best(considered - {s}, better);
    } else {
      best := s;
    }
  }

  /** A sample that counts for an hour, in seconds: in the window, in the hour, and of the scope. */
  ghost predicate CountsFor(samples: set<Sample>, w: Window, scope: Scope, hour: int, s: Sample) {
    && s in samples
    && w.from <= s.recordedAt && (w.Between? ==> s.recordedAt < w.to)
    && hour * 3600 <= s.recordedAt < hour * 3600 + 3600
    && match scope
       case One(instance) => s.instance == instance
       case Among(instances) => s.instance in instances
       case Everyone => true
  }

  /** The latest of its instance among those, the larger id winning at the same moment. */
  ghost predicate IsLatest(samples: set<Sample>, w: Window, scope: Scope, hour: int, s: Sample) {
    && CountsFor(samples, w, scope, hour, s)
    && forall other :: CountsFor(samples, w, scope, hour, other) && other.instance == s.instance ==>
         other.recordedAt < s.recordedAt || (other.recordedAt == s.recordedAt && other.id <= s.id)
  }

  lemma HourInSeconds(s: Sample, hour: int)
    ensures Hour(s) == hour <==> hour * 3600 <= s.recordedAt < hour * 3600 + 3600
  {
  }

  lemma CountsForIff(samples: set<Sample>, w: Window, scope: Scope, hour: int, s: Sample)
    ensures CountsFor(samples, w, scope, hour, s) <==> s in Considered(samples, w, scope) && Hour(s) == hour
  {
    HourInSeconds(s, hour);
    hide Hour;
  }

  /** The samples that are summed up in an hour, in seconds, instances and ids. */
  lemma LatestInNumbers(samples: set<Sample>, w: Window, scope: Scope, hour: int, s: Sample)
    ensures s in Latest(samples, w, scope, hour) <==> IsLatest(samples, w, scope, hour, s)
  {
    forall other
      ensures CountsFor(samples, w, scope, hour, other) <==> other in Considered(samples, w, scope) && Hour(other) == hour
    {
      CountsForIff(samples, w, scope, hour, other);
    }
    hide CountsFor, Considered, Hour;
  }

  /** The hours that are listed. */
  lemma HoursInNumbers(table: seq<Sample>, w: Window, scope: Scope, hour: int)
    requires DistinctIds(table)
    ensures hour in Trend(table, w, scope) <==> exists s :: CountsFor(Rows(table), w, scope, hour, s)
  {
    TrendIsExact(table, w, scope, hour);
    hide Trend, Rows;
    forall s
      ensures CountsFor(Rows(table), w, scope, hour, s) <==> s in Considered(Rows(table), w, scope) && Hour(s) == hour
    {
      CountsForIff(Rows(table), w, scope, hour, s);
    }
    hide CountsFor, Considered, Hour;
  }

  /** The order of the rows does not matter. */
  lemma TrendIgnoresOrder(table: seq<Sample>, shuffled: seq<Sample>, w: Window, scope: Scope, hour: int)
    requires DistinctIds(table) && DistinctIds(shuffled) && Rows(table) == Rows(shuffled)
    ensures hour in Trend(table, w, scope) <==> hour in Trend(shuffled, w, scope)
    ensures hour in Trend(table, w, scope) ==> Trend(table, w, scope)[hour] == Trend(shuffled, w, scope)[hour]
  {
    hide Trend, Latest, Considered;
    TrendIsExact(table, w, scope, hour);
    TrendIsExact(shuffled, w, scope, hour);
  }

  function AddSizes(a: Option<int>, b: Option<int>): Option<int> {
    if a.None? then b else if b.None? then a else Some(a.value + b.value)
  }

  function Later(a: int, b: int): int {
    if a < b then b else a
  }

  /** Buckets of disjoint scopes add up, and the later moment counts; an hour only one of them has is taken over. */
  lemma TrendAdds(table: seq<Sample>, w: Window, left: set<int>, right: set<int>, hour: int)
    requires DistinctIds(table) && left !! right
    ensures var a, b := Trend(table, w, Among(left)), Trend(table, w, Among(right));
            var both := Trend(table, w, Among(left + right));
            && (hour in both <==> hour in a || hour in b)
            && (hour in a && hour in b ==>
                 && both[hour].total == AddSizes(a[hour].total, b[hour].total)
                 && both[hour].instances == a[hour].instances + b[hour].instances
                 && both[hour].observedAt == Later(a[hour].observedAt, b[hour].observedAt))
            && (hour in a && hour !in b ==> both[hour] == a[hour])
            && (hour in b && hour !in a ==> both[hour] == b[hour])
  {
    var samples := Rows(table);
    TrendIsExact(table, w, Among(left), hour);
    TrendIsExact(table, w, Among(right), hour);
    TrendIsExact(table, w, Among(left + right), hour);
    var l, r := Latest(samples, w, Among(left), hour), Latest(samples, w, Among(right), hour);
    LatestOfUnion(samples, w, left, right, hour);
    hide Latest, Trend, Considered, Rows;
    if l == {} {
      assert l + r == r;
      if r != {} {
        BucketUnique(Trend(table, w, Among(right))[hour], Trend(table, w, Among(left + right))[hour], r);
      }
    } else if r == {} {
      assert l + r == l;
      BucketUnique(Trend(table, w, Among(left))[hour], Trend(table, w, Among(left + right))[hour], l);
    } else {
      BucketsAdd(Trend(table, w, Among(left))[hour], l, Trend(table, w, Among(right))[hour], r,
                 Trend(table, w, Among(left + right))[hour]);
    }
  }

  lemma BucketUnique(a: Bucket, b: Bucket, latest: set<Sample>)
    requires IsBucketOf(a, latest) && IsBucketOf(b, latest)
    ensures a == b
  {
  }

  lemma BucketsAdd(a: Bucket, l: set<Sample>, b: Bucket, r: set<Sample>, both: Bucket)
    requires IsBucketOf(a, l) && IsBucketOf(b, r) && IsBucketOf(both, l + r) && l !! r
    ensures both.total == AddSizes(a.total, b.total)
    ensures both.instances == a.instances + b.instances
    ensures both.observedAt == Later(a.observedAt, b.observedAt)
  {
    var s :| s in l && s.recordedAt == a.observedAt;
    var t :| t in r && t.recordedAt == b.observedAt;
    assert s in l + r && t in l + r;
    TotalUnion(l, r);
    AnySizeUnion(l, r);
    NoSizeNoTotal(l);
    NoSizeNoTotal(r);
  }

  lemma LatestOfUnion(samples: set<Sample>, w: Window, left: set<int>, right: set<int>, hour: int)
    requires left !! right
    ensures var l, r := Latest(samples, w, Among(left), hour), Latest(samples, w, Among(right), hour);
            && Latest(samples, w, Among(left + right), hour) == l + r
            && l !! r
  {
  }

  /** Asking for one instance counts exactly one in every hour, as the response says outright. */
  lemma OneInstanceCountsOne(table: seq<Sample>, w: Window, instance: int, hour: int)
    requires DistinctIds(table) && hour in Trend(table, w, One(instance))
    ensures Trend(table, w, One(instance))[hour].instances == 1
  {
    TrendIsExact(table, w, One(instance), hour);
    var latest := Latest(Rows(table), w, One(instance), hour);
    var s :| s in latest;
    assert Instances(latest) == {instance};
  }
}
