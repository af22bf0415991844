/**
 The throttle on client runtime events: an event of a type is sent when the client is authenticated
 and the clock shows at least a minute more than at the last send of that type. The clock may stand
 still, jump or run backwards.
 */
module EventThrottle {
  datatype EventType = BootCompleted | RuntimeError | RuntimeRejection

  /** Something happens: what, what the clock shows, and whether the client is authenticated. */
  datatype Event = Event(kind: EventType, now: int, authenticated: bool)

  datatype Sent = Sent(kind: EventType, at: int)

  const MINUTE := 60_000

  /** The last send of every type, and everything sent so far. */
  datatype State = State(last: map<EventType, int>, sent: seq<Sent>)

  predicate Passes(last: map<EventType, int>, e: Event) {
    e.authenticated && !(e.kind in last && e.now - last[e.kind] < MINUTE)
  }

  function Step(s: State, e: Event): State {
    if Passes(s.last, e) then State(s.last[e.kind := e.now], s.sent + [Sent(e.kind, e.now)]) else s
  }

  function After(trace: seq<Event>): State {
    if trace == [] then State(map[], []) else Step(After(trace[..|trace| - 1]), trace[|trace| - 1])
  }

  /** The times at which a type was sent. */
  function Times(sent: seq<Sent>, kind: EventType): seq<int> {
    if sent == [] then []
    else Times(sent[..|sent| - 1], kind) + if sent[|sent| - 1].kind == kind then [sent[|sent| - 1].at] else []
  }

  /** Each time is at least a minute after the one before. */
  predicate Spaced(times: seq<int>) {
    forall i :: 0 <= i < |times| - 1 ==> times[i + 1] - times[i] >= MINUTE
  }

  /** The observer with its listeners: what it remembers and what it has sent. */
  class Observation {
    var last: map<EventType, int>
    var sent: seq<Sent>

    constructor ()
      ensures State(last, sent) == After([])
    {
      last, sent := map[], [];
    }

    /** `report`. */
    method Report(e: Event)
      modifies this
      ensures State(last, sent) == Step(old(State(last, sent)), e)
      ensures var before := old(last);
              if e.authenticated && (e.kind in before ==> e.now - before[e.kind] >= 60_000)
              then sent == old(sent) + [Sent(e.kind, e.now)] && last == before[e.kind := e.now]
              else sent == old(sent) && last == before
    {
      if !e.authenticated {
        return;
      }
      if e.kind in last && e.now - last[e.kind] < MINUTE {
        return;
      }
      last := last[e.kind := e.now];
      sent := sent + [Sent(e.kind, e.now)];
    }

    /** A whole trace of events, one after the other. */
    method Observe(trace: seq<Event>)
      requires State(last, sent) == After([])
      modifies this
      ensures State(last, sent) == After(trace)
    {
      for i := 0 to |trace|
        invariant State(last, sent) == After(trace[..i])
      {
        Report(trace[i]);
        assert trace[..i + 1][..i] == trace[..i];
      }
      assert trace[..|trace|] == trace;
    }
  }

  lemma TimesSnoc(sent: seq<Sent>, s: Sent, kind: EventType)
    ensures Times(sent + [s], kind) == Times(sent, kind) + if s.kind == kind then [s.at] else []
  {
    assert (sent + [s])[..|sent|] == sent;
  }

  /** The sends of a type are spaced, and the remembered time is that of the last one. */
  predicate Remembers(s: State, kind: EventType) {
    var times := Times(s.sent, kind);
    && Spaced(times)
    && (kind in s.last <==> times != [])
    && (times != [] ==> s.last[kind] == times[|times| - 1])
  }

  lemma StepRemembers(s: State, e: Event, kind: EventType)
    requires Remembers(s, kind)
    ensures Remembers(Step(s, e), kind)
  {
    TimesSnoc(s.sent, Sent(e.kind, e.now), kind);
    hide Times;
  }

  /** In every trace, whatever the clock does, the sends of a type are at least a minute apart. */
  lemma {:induction false} SendsAreSpaced(trace: seq<Event>, kind: EventType)
    ensures Remembers(After(trace), kind)
    ensures var times := Times(After(trace).sent, kind);
            forall i :: 0 <= i < |times| - 1 ==> times[i + 1] - times[i] >= 60_000
    decreases |trace|
  {
    if trace == [] {
      assert Times([], kind) == [];
    } else {
      SendsAreSpaced(trace[..|trace| - 1], kind);
      StepRemembers(After(trace[..|trace| - 1]), trace[|trace| - 1], kind);
    }
  }

  /** An event is sent exactly when it is the first of its type or comes a full minute after the last send. */
  lemma SentIff(trace: seq<Event>, e: Event)
    ensures var times := Times(After(trace).sent, e.kind);
            var due := times == [] || e.now - times[|times| - 1] >= 60_000;
            After(trace + [e]).sent == After(trace).sent + if e.authenticated && due then [Sent(e.kind, e.now)] else []
  {
    SendsAreSpaced(trace, e.kind);
    assert (trace + [e])[..|trace|] == trace;
    hide Times;
  }

  /** How many of the times lie in an interval. */
  function CountIn(times: seq<int>, from: int, to: int): nat {
    if times == [] then 0
    else
      var last := times[|times| - 1];
      CountIn(times[..|times| - 1], from, to) + if from <= last <= to then 1 else 0
  }

  /** What is behind the last of the times does not matter. */
  lemma {:induction false} CountInUpTo(times: seq<int>, from: int, to: int, less: int)
    requires less <= to && forall i :: 0 <= i < |times| ==> times[i] <= less
    ensures CountIn(times, from, to) == CountIn(times, from, less)
  {
    if times != [] {
      CountInUpTo(times[..|times| - 1], from, to, less);
    }
  }

  lemma {:induction false} SpacedGrows(times: seq<int>, i: nat, j: nat)
    requires Spaced(times) && i <= j < |times|
    ensures times[j] - times[i] >= (j - i) * MINUTE
    decreases j - i
  {
    if i < j {
      SpacedGrows(times, i, j - 1);
    }
  }

  lemma {:induction false} SpacedCount(times: seq<int>, from: int, to: int)
    requires Spaced(times)
    ensures CountIn(times, from, to) <= if from <= to then (to - from) / MINUTE + 1 else 0
    decreases |times|
  {
    if times != [] {
      var n := |times| - 1;
      var rest, last := times[..n], times[n];
      SpacedCount(rest, from, to);
      if from <= last <= to {
        forall i | 0 <= i < n
          ensures rest[i] <= last - MINUTE
        {
          SpacedGrows(times, i, n);
        }
        CountInUpTo(rest, from, to, last - MINUTE);
        SpacedCount(rest, from, last - MINUTE);
      }
    }
  }

  /** Any interval of clock time, whatever its ends, holds at most one send of a type per minute begun. */
  lemma SpanHoldsFew(trace: seq<Event>, kind: EventType, from: int, to: int)
    requires from <= to
    ensures CountIn(Times(After(trace).sent, kind), from, to) <= (to - from) / MINUTE + 1
  {
    SendsAreSpaced(trace, kind);
    SpacedCount(Times(After(trace).sent, kind), from, to);
  }

  /** The events that matter for a type. */
  function Relevant(trace: seq<Event>, kind: EventType): seq<Event> {
    if trace == [] then []
    else
      var e := trace[|trace| - 1];
      Relevant(trace[..|trace| - 1], kind) + if e.kind == kind && e.authenticated then [e] else []
  }

  /** Two states look the same to a type. */
  predicate Agree(s: State, t: State, kind: EventType) {
    && Times(s.sent, kind) == Times(t.sent, kind)
    && (kind in s.last <==> kind in t.last)
    && (kind in s.last ==> s.last[kind] == t.last[kind])
  }

  lemma StepAgrees(s: State, t: State, e: Event, kind: EventType)
    requires Agree(s, t, kind)
    ensures if e.kind == kind && e.authenticated then Agree(Step(s, e), Step(t, e), kind) else Agree(Step(s, e), t, kind)
  {
    TimesSnoc(s.sent, Sent(e.kind, e.now), kind);
    TimesSnoc(t.sent, Sent(e.kind, e.now), kind);
    hide Times;
  }

  /** Other types' events and events without authentication change nothing for a type. */
  lemma {:induction false} TypesAreIndependent(trace: seq<Event>, kind: EventType)
    ensures Agree(After(trace), After(Relevant(trace, kind)), kind)
    decreases |trace|
  {
    if trace != [] {
      var rest, e := trace[..|trace| - 1], trace[|trace| - 1];
      var r := Relevant(rest, kind);
      TypesAreIndependent(rest, kind);
      StepAgrees(After(rest), After(r), e, kind);
      assert (r + [e])[..|r|] == r;
      assert r + [] == r;
      hide Step, Agree;
      assert After(r + [e]) == Step(After(r), e);
    }
  }

  /** The first authenticated event of a type is always sent, whatever the clock shows. */
  lemma {:induction false} FirstIsSent(trace: seq<Event>, kind: EventType)
    requires Relevant(trace, kind) != []
    ensures var times := Times(After(trace).sent, kind);
            times != [] && times[0] == Relevant(trace, kind)[0].now
    decreases |trace|
  {
    var rest, e := trace[..|trace| - 1], trace[|trace| - 1];
    SendsAreSpaced(rest, kind);
    TimesSnoc(After(rest).sent, Sent(e.kind, e.now), kind);
    if Relevant(rest, kind) != [] {
      FirstIsSent(rest, kind);
    } else {
      NothingRelevantNothingSent(rest, kind);
    }
  }

  lemma {:induction false} NothingRelevantNothingSent(trace: seq<Event>, kind: EventType)
    requires Relevant(trace, kind) == []
    ensures Times(After(trace).sent, kind) == []
    decreases |trace|
  {
    TypesAreIndependent(trace, kind);
  }
}
