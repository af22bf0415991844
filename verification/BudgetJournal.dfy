/**
 The append-only journal of a token batch and its replay. A journal is a header followed by
 entries; replaying it gives the totals, the open reservation and whether the batch is stopped,
 or fails on the first entry that does not fit.
 */
module BudgetJournal {
  import opened Wrappers

  const BATCH_LIMIT: nat := 10_000_000
  const AUTHORIZATION := "01a13d70-ceb6-7c62-bb16-c445e3c03daf"
  const MAX_SAFE_INTEGER: nat := 9007199254740991

  /** A field read from JSON: a whole number, or anything else. */
  datatype Field = Whole(n: int) | NotWhole

  datatype Usage = Usage(inputTokens: Field, outputTokens: Field, cachedInputTokens: Field)

  datatype Reservation = Reservation(sequence: int, inputUpperBound: int, outputCeiling: int)

  datatype Entry =
    | Header(authorization: string, limit: int)
    | Send(reservation: Reservation)
    | Receipt(sequence: int, usage: Usage)
    | Stop(of: int)
    | Checkpoint
    | Other

  datatype Failure = HeaderInvalid | SequenceInvalid | ReceiptInvalid | UsageInvalid | KindInvalid

  datatype Budget = Budget(pending: Option<Reservation>, stopped: bool, requests: nat,
                           inputTokens: nat, outputTokens: nat, cachedInputTokens: nat)

  datatype Phase = Normal | Report | Converge | Halt

  predicate IsCount(f: Field) {
    f.Whole? && 0 <= f.n <= MAX_SAFE_INTEGER
  }

  /** The checks of the replay on a receipt's numbers. */
  predicate UsageCounts(u: Usage) {
    && IsCount(u.inputTokens) && IsCount(u.outputTokens) && IsCount(u.cachedInputTokens)
    && u.cachedInputTokens.n <= u.inputTokens.n
  }

  const EMPTY := Budget(None, false, 0, 0, 0, 0)

  /** One turn of the replay loop. */
  function Take(b: Budget, e: Entry): Result<Budget, Failure> {
    match e
    case Send(r) =>
      if b.stopped || b.pending.Some? || r.sequence != b.requests + 1 then Err(SequenceInvalid)
      else Ok(b.(pending := Some(r), requests := b.requests + 1))
    case Receipt(sequence, u) =>
      if b.pending.None? || b.pending.value.sequence != sequence then Err(ReceiptInvalid)
      else if !UsageCounts(u) then Err(UsageInvalid)
      else Ok(b.(pending := None, inputTokens := b.inputTokens + u.inputTokens.n,
                 outputTokens := b.outputTokens + u.outputTokens.n,
                 cachedInputTokens := b.cachedInputTokens + u.cachedInputTokens.n))
    case Stop(_) => Ok(b.(stopped := true))
    case Checkpoint => Ok(b)
    case Header(_, _) => Err(KindInvalid)
    case Other => Err(KindInvalid)
  }

  function Replay(b: Budget, entries: seq<Entry>): Result<Budget, Failure>
    decreases |entries|
  {
    if entries == [] then Ok(b)
    else
      var next := Take(b, entries[0]);
      if next.Err? then next else Replay(next.value, entries[1..])
  }

  predicate HeaderValid(journal: seq<Entry>) {
    journal != [] && journal[0] == Header(AUTHORIZATION, BATCH_LIMIT)
  }

  function BudgetOf(journal: seq<Entry>): Result<Budget, Failure> {
    if HeaderValid(journal) then Replay(EMPTY, journal[1..]) else Err(HeaderInvalid)
  }

  function TotalTokens(b: Budget): nat {
    b.inputTokens + b.outputTokens
  }

  function ReservedTokens(b: Budget): int {
    if b.pending.Some? then b.pending.value.inputUpperBound + b.pending.value.outputCeiling else 0
  }

  function RemainingTokens(b: Budget): nat {
    if BATCH_LIMIT - TotalTokens(b) - ReservedTokens(b) >= 0
    then BATCH_LIMIT - TotalTokens(b) - ReservedTokens(b) else 0
  }

  /** The phase at whole percentages of the limit, highest first. */
  function PhaseOf(b: Budget): Phase {
    if TotalTokens(b) >= BATCH_LIMIT then Halt
    else if TotalTokens(b) * 10 >= BATCH_LIMIT * 8 then Converge
    else if TotalTokens(b) * 10 >= BATCH_LIMIT * 5 then Report
    else Normal
  }

  function Rank(p: Phase): nat {
    match p case Normal => 0 case Report => 1 case Converge => 2 case Halt => 3
  }

  /** A journal is read at all exactly with the header of this batch in front. */
  lemma HeaderIsFixed(journal: seq<Entry>)
    ensures BudgetOf(journal) != Err(HeaderInvalid) <==>
              journal != [] && journal[0] == Header("01a13d70-ceb6-7c62-bb16-c445e3c03daf", 10_000_000)
  {
    if HeaderValid(journal) {
      NoLateHeaderError(EMPTY, journal[1..]);
    }
  }

  lemma {:induction false} NoLateHeaderError(b: Budget, entries: seq<Entry>)
    ensures Replay(b, entries) != Err(HeaderInvalid)
    decreases |entries|
  {
    if entries != [] && Take(b, entries[0]).Ok? {
      NoLateHeaderError(Take(b, entries[0]).value, entries[1..]);
    }
  }

  /** The numbers a receipt may hold: three safe counts, no more cached tokens than input tokens. */
  lemma CountsInNumbers(u: Usage)
    ensures UsageCounts(u) <==>
              && u.inputTokens.Whole? && u.outputTokens.Whole? && u.cachedInputTokens.Whole?
              && 0 <= u.cachedInputTokens.n <= u.inputTokens.n <= 9007199254740991
              && 0 <= u.outputTokens.n <= 9007199254740991
  {
  }

  /** The phases and the remaining tokens in numbers. */
  lemma PhaseInNumbers(b: Budget)
    ensures var used := b.inputTokens + b.outputTokens;
            && (PhaseOf(b) == Halt <==> used >= 10_000_000)
            && (PhaseOf(b) == Converge <==> 8_000_000 <= used < 10_000_000)
            && (PhaseOf(b) == Report <==> 5_000_000 <= used < 8_000_000)
            && (PhaseOf(b) == Normal <==> used < 5_000_000)
    ensures var left := 10_000_000 - b.inputTokens - b.outputTokens -
                        if b.pending.Some? then b.pending.value.inputUpperBound + b.pending.value.outputCeiling else 0;
            RemainingTokens(b) == if left >= 0 then left else 0
  {
  }

  /** `budgetState`: the header checks and the loop over the other entries. */
  method BudgetState(journal: seq<Entry>) returns (result: Result<Budget, Failure>)
    ensures result == BudgetOf(journal)
  {
    if !HeaderValid(journal) {
      return Err(HeaderInvalid);
    }
    var entries := journal[1..];
    var pending: Option<Reservation> := None;
    var stopped, requests, inputTokens, outputTokens, cachedInputTokens := false, 0, 0, 0, 0;
    for i := 0 to |entries|
      invariant requests >= 0 && inputTokens >= 0 && outputTokens >= 0 && cachedInputTokens >= 0
      invariant Replay(EMPTY, entries) ==
                Replay(Budget(pending, stopped, requests, inputTokens, outputTokens, cachedInputTokens), entries[i..])
    {
      var entry := entries[i];
      assert entries[i..][0] == entry && entries[i..][1..] == entries[i + 1..];
      match entry {
        case Send(r) =>
          if stopped || pending.Some? || r.sequence != requests + 1 {
            return Err(SequenceInvalid);
          }
          pending := Some(r);
          requests := requests + 1;
        case Receipt(sequence, u) =>
          if pending.None? || pending.value.sequence != sequence {
            return Err(ReceiptInvalid);
          }
          if !UsageCounts(u) {
            return Err(UsageInvalid);
          }
          inputTokens := inputTokens + u.inputTokens.n;
          outputTokens := outputTokens + u.outputTokens.n;
          cachedInputTokens := cachedInputTokens + u.cachedInputTokens.n;
          pending := None;
        case Stop(_) =>
          stopped := true;
        case Checkpoint =>
        case Header(_, _) =>
          return Err(KindInvalid);
        case Other =>
          return Err(KindInvalid);
      }
    }
    return Ok(Budget(pending, stopped, requests, inputTokens, outputTokens, cachedInputTokens));
  }

  // Replay as a fold

  lemma {:induction false} ReplayConcat(b: Budget, first: seq<Entry>, second: seq<Entry>)
    ensures Replay(b, first + second) ==
            if Replay(b, first).Err? then Replay(b, first) else Replay(Replay(b, first).value, second)
    decreases |first|
  {
    if first == [] {
      assert first + second == second;
    } else {
      assert (first + second)[1..] == first[1..] + second;
      var next := Take(b, first[0]);
      if next.Ok? {
        ReplayConcat(next.value, first[1..], second);
      }
    }
  }

  lemma BudgetAppend(journal: seq<Entry>, e: Entry)
    requires BudgetOf(journal).Ok?
    ensures BudgetOf(journal + [e]) == Take(BudgetOf(journal).value, e)
  {
    assert (journal + [e])[1..] == journal[1..] + [e];
    ReplayConcat(EMPTY, journal[1..], [e]);
    assert [e][1..] == [];
  }

  /** Every prefix of a journal that replays, replays too. */
  lemma PrefixReplays(journal: seq<Entry>, n: nat)
    requires BudgetOf(journal).Ok? && 1 <= n <= |journal|
    ensures BudgetOf(journal[..n]).Ok?
  {
    assert journal[1..] == journal[..n][1..] + journal[n..];
    ReplayConcat(EMPTY, journal[..n][1..], journal[n..]);
  }

  function WithoutCheckpoints(entries: seq<Entry>): seq<Entry> {
    if entries == [] then []
    else (if entries[0].Checkpoint? then [] else [entries[0]]) + WithoutCheckpoints(entries[1..])
  }

  /** Checkpoints change nothing, wherever they stand, also in a journal that does not replay. */
  lemma {:induction false} CheckpointsErase(b: Budget, entries: seq<Entry>)
    ensures Replay(b, WithoutCheckpoints(entries)) == Replay(b, entries)
    decreases |entries|
  {
    if entries != [] {
      var rest := WithoutCheckpoints(entries[1..]);
      if entries[0].Checkpoint? {
        assert WithoutCheckpoints(entries) == rest;
        CheckpointsErase(b, entries[1..]);
      } else {
        assert ([entries[0]] + rest)[1..] == rest;
        if Take(b, entries[0]).Ok? {
          CheckpointsErase(Take(b, entries[0]).value, entries[1..]);
        }
      }
    }
  }

  /** More entries never lower the counters or the phase, and never take a stop back. */
  lemma {:induction false} ReplayOnlyGrows(b: Budget, entries: seq<Entry>)
    requires Replay(b, entries).Ok?
    ensures var c := Replay(b, entries).value;
            && b.requests <= c.requests && b.inputTokens <= c.inputTokens && b.outputTokens <= c.outputTokens
            && b.cachedInputTokens <= c.cachedInputTokens
            && Rank(PhaseOf(b)) <= Rank(PhaseOf(c))
            && (b.stopped ==> c.stopped && c.requests == b.requests)
    decreases |entries|
  {
    if entries != [] {
      var next := Take(b, entries[0]).value;
      ReplayOnlyGrows(next, entries[1..]);
    }
  }

  // What a replay accepts and returns, counted on the entries

  function CountSends(entries: seq<Entry>): nat {
    if entries == [] then 0
    else CountSends(entries[..|entries| - 1]) + if entries[|entries| - 1].Send? then 1 else 0
  }

  function CountReceipts(entries: seq<Entry>): nat {
    if entries == [] then 0
    else CountReceipts(entries[..|entries| - 1]) + if entries[|entries| - 1].Receipt? then 1 else 0
  }

  function SumUsage(entries: seq<Entry>, of: Usage -> Field): int {
    if entries == [] then 0
    else
      var last := entries[|entries| - 1];
      SumUsage(entries[..|entries| - 1], of) +
      if last.Receipt? && of(last.usage).Whole? then of(last.usage).n else 0
  }

  /** What has to hold of the entry at `i`, given only the entries before it. */
  predicate Fits(entries: seq<Entry>, i: nat)
    requires i < |entries|
  {
    var before := entries[..i];
    match entries[i]
    case Send(r) =>
      && r.sequence == CountSends(before) + 1
      && CountReceipts(before) == CountSends(before)
      && (forall j :: 0 <= j < i ==> !entries[j].Stop?)
    case Receipt(sequence, u) =>
      && sequence == CountSends(before)
      && CountReceipts(before) + 1 == CountSends(before)
      && UsageCounts(u)
    case Stop(_) => true
    case Checkpoint => true
    case Header(_, _) => false
    case Other => false
  }

  /** The replay's counters are the counts and sums of the entries. */
  predicate Counts(entries: seq<Entry>, b: Budget) {
    && b.requests == CountSends(entries)
    && CountSends(entries) == CountReceipts(entries) + (if b.pending.Some? then 1 else 0)
    && (b.pending.Some? ==> b.pending.value.sequence == CountSends(entries))
    && (b.stopped <==> exists j :: 0 <= j < |entries| && entries[j].Stop?)
    && b.inputTokens == SumUsage(entries, (u: Usage) => u.inputTokens)
    && b.outputTokens == SumUsage(entries, (u: Usage) => u.outputTokens)
    && b.cachedInputTokens == SumUsage(entries, (u: Usage) => u.cachedInputTokens)
  }

  /** The replay succeeds exactly when every entry fits those before it, and then it counts them. */
  lemma {:induction false} ReplayAccepts(entries: seq<Entry>)
    ensures Replay(EMPTY, entries).Ok? <==> forall i :: 0 <= i < |entries| ==> Fits(entries, i)
    ensures Replay(EMPTY, entries).Ok? ==> Counts(entries, Replay(EMPTY, entries).value)
    decreases |entries|
  {
    if entries != [] {
      var n := |entries| - 1;
      var before, last := entries[..n], entries[n];
      ReplayAccepts(before);
      assert entries == before + [last];
      ReplayConcat(EMPTY, before, [last]);
      assert [last][1..] == [];
      forall i | 0 <= i < n
        ensures Fits(entries, i) == Fits(before, i)
      {
        FitsLocally(before, last, i);
      }
      if Replay(EMPTY, before).Ok? {
        LastFits(before, last, Replay(EMPTY, before).value);
      }
    }
  }

  lemma FitsLocally(before: seq<Entry>, last: Entry, i: nat)
    requires i < |before|
    ensures Fits(before + [last], i) == Fits(before, i)
  {
    assert (before + [last])[..i] == before[..i];
  }

  lemma LastFits(before: seq<Entry>, last: Entry, b: Budget)
    requires Counts(before, b)
    ensures Fits(before + [last], |before|) == Take(b, last).Ok?
    ensures Take(b, last).Ok? ==> Counts(before + [last], Take(b, last).value)
  {
    hide CountSends, CountReceipts, SumUsage;
    var entries := before + [last];
    assert entries[..|before|] == before && entries[|before|] == last;
    StopSnoc(before, last);
    CountSnoc(before, last);
    assert last.Send? ==>
        (Fits(entries, |before|) <==>
           && last.reservation.sequence == b.requests + 1 && b.pending.None?
           && forall j :: 0 <= j < |before| ==> !before[j].Stop?) by {
      assert forall j :: 0 <= j < |before| ==> entries[j] == before[j];
    }
  }

  lemma StopSnoc(before: seq<Entry>, last: Entry)
    ensures (exists j :: 0 <= j < |before + [last]| && (before + [last])[j].Stop?) <==>
              (exists j :: 0 <= j < |before| && before[j].Stop?) || last.Stop?
  {
    var entries := before + [last];
    assert entries[|before|] == last;
    assert forall j :: 0 <= j < |before| ==> entries[j] == before[j];
  }

  lemma CountSnoc(before: seq<Entry>, last: Entry)
    ensures CountSends(before + [last]) == CountSends(before) + if last.Send? then 1 else 0
    ensures CountReceipts(before + [last]) == CountReceipts(before) + if last.Receipt? then 1 else 0
    ensures forall of: Usage -> Field :: SumUsage(before + [last], of) ==
              SumUsage(before, of) + if last.Receipt? && of(last.usage).Whole? then of(last.usage).n else 0
  {
    assert (before + [last])[..|before|] == before;
  }
}
