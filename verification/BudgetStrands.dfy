/**
 Sends that nobody will settle or stop any more. The batch is closed by them, but no stop says so. This
 is where they come from: exactly which steps of which clients leave one behind.
 */
module BudgetStrands {
  import opened Wrappers
  import opened BudgetJournal
  import opened BudgetClients

  /** From the written send on a client has a reservation of its own. */
  predicate HasSent(stage: Stage) {
    Owns(stage) || stage.Receipted? || stage.Reporting? || stage.Failing? || stage.Stopping? || stage.Stopped?
  }

  /** The client can still write the receipt or the stop of the open send. */
  predicate Answers(b: Budget, stage: Stage) {
    (Owns(stage) || stage.Failing? || stage.Stopping?) && b.pending == Some(stage.entry)
  }

  /** A send is open, nothing says stop, and no client will answer for it. */
  predicate Stranded(s: System)
    requires BudgetOf(s.journal).Ok?
  {
    var b := BudgetOf(s.journal).value;
    b.pending.Some? && !b.stopped && forall c :: c in s.clients ==> !Answers(b, s.clients[c])
  }

  /**
   The steps that abandon the open send: the client crashes; it gives up because the lock for its stop
   is taken; an error under the lock after the written send, outside the block that journals stops; or
   one under the lock before the stop is written.
   */
  predicate Strands(s: System, c: nat, a: Action)
    requires BudgetOf(s.journal).Ok?
  {
    var b, stage := BudgetOf(s.journal).value, At(s, c);
    && !b.stopped && Answers(b, stage)
    && match a
       case Crash => true
       case GiveUp => true
       case Throw => stage.Sending? || stage.Stopping?
       case ThrowKeepingLock => stage.Sending? || stage.Stopping?
       case _ => false
  }

  // Whose send is open

  /** Numbers of sends are not given twice, and what has been settled is not open. */
  predicate SentInv(b: Budget, stage: Stage) {
    && (HasSent(stage) ==> stage.entry.sequence <= b.requests)
    && (stage.Receipted? || stage.Reporting? ==> b.pending != Some(stage.entry))
  }

  predicate SameSend(x: Stage, y: Stage) {
    HasSent(x) && HasSent(y) && x.entry.sequence == y.entry.sequence
  }

  predicate SequencesInv(s: System)
    requires BudgetOf(s.journal).Ok?
  {
    && (forall c :: c in s.clients ==> SentInv(BudgetOf(s.journal).value, s.clients[c]))
    && (forall c, d :: c in s.clients && d in s.clients && c != d ==> !SameSend(s.clients[c], s.clients[d]))
  }

  predicate FullInv(s: System) {
    Inv(s) && SequencesInv(s)
  }

  /** The part of the client that moves. */
  lemma MoverKeepsSent(s: System, c: nat, a: Action)
    requires FullInv(s) && Enabled(s, c, a)
    ensures c in Apply(s, c, a).clients && BudgetOf(Apply(s, c, a).journal).Ok?
    ensures SentInv(BudgetOf(Apply(s, c, a).journal).value, Apply(s, c, a).clients[c])
  {
    WriteBudget(s, c, a);
    var b, stage := BudgetOf(s.journal).value, At(s, c);
    assert c in s.clients ==> StageInv(b, stage) && SentInv(b, stage);
    assert stage.Cleared? ==> stage.entry.sequence == b.requests + 1;
    assert SentInv(b, stage);
    assert a.WriteReceipt? ==> BudgetOf(Apply(s, c, a).journal).value.pending.None?;
    hide BudgetOf, Inv, SequencesInv, StageInv, Take, MayReserve, UsageFits, UsageCounts;
  }

  /** The part of a client that does not move. */
  lemma OthersKeepSent(s: System, c: nat, a: Action, d: nat)
    requires FullInv(s) && Enabled(s, c, a) && d in s.clients && d != c
    ensures BudgetOf(Apply(s, c, a).journal).Ok?
    ensures SentInv(BudgetOf(Apply(s, c, a).journal).value, s.clients[d])
  {
    WriteBudget(s, c, a);
    var b := BudgetOf(s.journal).value;
    assert c in s.clients ==> StageInv(b, s.clients[c]);
    assert SentInv(b, s.clients[d]);
    hide BudgetOf, LockInv, OneOwner, StagesInv, SequencesInv, MayReserve, WithinLimit, UsageFits, UsageCounts, Apply;
  }

  /** A client has its reservation from before, or has just written a cleared one. */
  lemma MoverSends(s: System, c: nat, a: Action)
    requires Enabled(s, c, a)
    ensures c in Apply(s, c, a).clients
    ensures var stage := Apply(s, c, a).clients[c];
            HasSent(stage) ==>
              && c in s.clients && (HasSent(s.clients[c]) || s.clients[c].Cleared?)
              && stage.entry == s.clients[c].entry
  {
    hide BudgetOf, MayReserve, UsageFits;
  }

  /** Two clients' sends stay apart. */
  lemma StepKeepsApart(s: System, c: nat, a: Action, d: nat)
    requires FullInv(s) && Enabled(s, c, a)
    requires c in Apply(s, c, a).clients && d in s.clients && d != c
    ensures !SameSend(Apply(s, c, a).clients[c], s.clients[d])
  {
    MoverSends(s, c, a);
    var b := BudgetOf(s.journal).value;
    assert c in s.clients ==> !SameSend(s.clients[c], s.clients[d]) && StageInv(b, s.clients[c]);
    assert SentInv(b, s.clients[d]);
    hide BudgetOf, Inv, Apply, Enabled, SequencesInv, MayReserve, UsageFits;
  }

  lemma StepKeepsFull(s: System, c: nat, a: Action)
    requires FullInv(s) && Enabled(s, c, a)
    ensures FullInv(Apply(s, c, a))
  {
    hide BudgetOf, Inv, Enabled, Apply, SentInv, HasSent;
    assert forall x, y :: SameSend(x, y) <==> SameSend(y, x);
    hide SameSend;
    StepKeepsInv(s, c, a);
    OthersStay(s, c, a);
    MoverKeepsSent(s, c, a);
    var t := Apply(s, c, a);
    forall d | d in t.clients
      ensures SentInv(BudgetOf(t.journal).value, t.clients[d])
    {
      if d != c {
        OthersKeepSent(s, c, a, d);
      }
    }
    forall d | d in s.clients && d != c
      ensures !SameSend(t.clients[c], s.clients[d]) && !SameSend(s.clients[d], t.clients[c])
    {
      StepKeepsApart(s, c, a, d);
    }
  }

  lemma {:induction false} RunKeepsFull(s: System, run: seq<(nat, Action)>)
    requires FullInv(s) && EnabledRun(s, run)
    ensures FullInv(ApplyRun(s, run)) && BudgetOf(ApplyRun(s, run).journal).Ok?
    decreases |run|
  {
    assert BudgetOf(s.journal).Ok?;
    hide FullInv, Apply, Enabled;
    if run != [] {
      StepKeepsFull(s, run[0].0, run[0].1);
      RunKeepsFull(Apply(s, run[0].0, run[0].1), run[1..]);
    }
  }

  // The steps that strand a send

  /** Nobody but the client that moves gains or loses the answer for the open send. */
  lemma OthersAnswer(s: System, c: nat, a: Action, d: nat)
    requires FullInv(s) && Enabled(s, c, a) && d in s.clients && d != c && !a.WriteSend? && !a.WriteReceipt?
    ensures d in Apply(s, c, a).clients && BudgetOf(Apply(s, c, a).journal).Ok?
    ensures Answers(BudgetOf(Apply(s, c, a).journal).value, Apply(s, c, a).clients[d]) <==>
            Answers(BudgetOf(s.journal).value, s.clients[d])
  {
    WriteBudget(s, c, a);
    hide BudgetOf, Inv, SequencesInv;
  }

  /** The open send has one client at most that answers for it. */
  lemma OneAnswers(s: System, c: nat, d: nat)
    requires FullInv(s) && c in s.clients && d in s.clients
    requires Answers(BudgetOf(s.journal).value, s.clients[c]) && Answers(BudgetOf(s.journal).value, s.clients[d])
    ensures c == d
  {
    assert SameSend(s.clients[c], s.clients[d]);
    hide BudgetOf, Inv, SentInv;
  }

  /** What the client that moves does to its own answer. */
  lemma MoverAnswers(s: System, c: nat, a: Action)
    requires FullInv(s) && Enabled(s, c, a)
    ensures c in Apply(s, c, a).clients && BudgetOf(Apply(s, c, a).journal).Ok?
    ensures var b, d := BudgetOf(s.journal).value, BudgetOf(Apply(s, c, a).journal).value;
            var now := Answers(d, Apply(s, c, a).clients[c]);
            match a
            case WriteSend => b.pending.None? && d.pending.Some? && now
            case WriteReceipt => d.pending.None? && !now
            case WriteStop => d.stopped
            case _ => d == b && (!b.stopped ==> (now <==> Answers(b, At(s, c)) && !Strands(s, c, a)))
  {
    WriteBudget(s, c, a);
    var b := BudgetOf(s.journal).value;
    assert c in s.clients ==> StageInv(b, s.clients[c]) && SentInv(b, s.clients[c]);
    hide BudgetOf, LockInv, OneOwner, StagesInv, SequencesInv, MayReserve, WithinLimit, UsageFits;
  }

  /**
   A step leaves the batch stranded exactly when it abandons the open send, or when the batch was
   stranded before and the step does not write a stop, as a client that failed later may.
   */
  lemma StrandedAfterStep(s: System, c: nat, a: Action)
    requires FullInv(s) && Enabled(s, c, a)
    ensures FullInv(Apply(s, c, a))
    ensures Stranded(Apply(s, c, a)) <==> if Stranded(s) then !a.WriteStop? else Strands(s, c, a)
  {
    StepKeepsFull(s, c, a);
    MoverAnswers(s, c, a);
    var t := Apply(s, c, a);
    var b := BudgetOf(s.journal).value;
    forall d | d in s.clients && d != c && !a.WriteSend? && !a.WriteReceipt?
      ensures d in t.clients && (Answers(BudgetOf(t.journal).value, t.clients[d]) <==> Answers(b, s.clients[d]))
    {
      OthersAnswer(s, c, a, d);
    }
    forall d | d in s.clients && c in s.clients && Answers(b, s.clients[c]) && Answers(b, s.clients[d])
      ensures c == d
    {
      OneAnswers(s, c, d);
    }
    assert forall d :: d in t.clients ==> d == c || d in s.clients;
    assert a.WriteReceipt? ==> Answers(b, At(s, c)) by {
      if a.WriteReceipt? {
        assert StageInv(b, s.clients[c]);
      }
    }
    hide Apply, BudgetOf, Enabled, FullInv, Inv, Answers;
  }

  // Over whole runs

  lemma {:induction false} PrefixRuns(s: System, run: seq<(nat, Action)>, k: nat)
    requires EnabledRun(s, run) && k <= |run|
    ensures EnabledRun(s, run[..k])
    ensures k < |run| ==>
              && Enabled(ApplyRun(s, run[..k]), run[k].0, run[k].1)
              && EnabledRun(s, run[..k + 1])
              && ApplyRun(s, run[..k + 1]) == Apply(ApplyRun(s, run[..k]), run[k].0, run[k].1)
    decreases |run|
  {
    hide Enabled, Apply;
    if k == 0 {
      assert k < |run| ==> run[..1][1..] == [];
    } else {
      assert run[..k][1..] == run[1..][..k - 1];
      assert k < |run| ==> run[..k + 1][1..] == run[1..][..k];
      PrefixRuns(Apply(s, run[0].0, run[0].1), run[1..], k - 1);
    }
  }

  /** The step at `k` of the run abandons the open send, and no stop is written later. */
  predicate StrandsAt(s: System, run: seq<(nat, Action)>, k: nat)
    requires FullInv(s) && EnabledRun(s, run) && k < |run|
  {
    PrefixRuns(s, run, k);
    RunKeepsFull(s, run[..k]);
    && Strands(ApplyRun(s, run[..k]), run[k].0, run[k].1)
    && forall j :: k < j < |run| ==> !run[j].1.WriteStop?
  }

  /** A run from a batch that is not stranded leaves it stranded exactly when one of its steps abandons the open send. */
  lemma {:induction false} StrandedAfterRun(s: System, run: seq<(nat, Action)>)
    requires FullInv(s) && !Stranded(s) && EnabledRun(s, run)
    ensures FullInv(ApplyRun(s, run))
    ensures Stranded(ApplyRun(s, run)) <==> exists k :: 0 <= k < |run| && StrandsAt(s, run, k)
    decreases |run|
  {
    hide Stranded, Strands, FullInv, Enabled, Apply;
    RunKeepsFull(s, run);
    if run != [] {
      var n := |run| - 1;
      var before := run[..n];
      PrefixRuns(s, run, n);
      assert run[..n + 1] == run;
      RunKeepsFull(s, before);
      StrandedAfterRun(s, before);
      StrandedAfterStep(ApplyRun(s, before), run[n].0, run[n].1);
      forall k | 0 <= k < n
        ensures StrandsAt(s, run, k) <==> StrandsAt(s, before, k) && !run[n].1.WriteStop?
      {
        StrandsAtPrefix(s, run, k);
      }
      StrandsAtLast(s, run);
      hide StrandsAt, EnabledRun, ApplyRun;
      if Stranded(ApplyRun(s, run)) {
        if Stranded(ApplyRun(s, before)) {
          var k :| 0 <= k < n && StrandsAt(s, before, k);
          assert StrandsAt(s, run, k);
        } else {
          assert StrandsAt(s, run, n);
        }
      } else if k :| 0 <= k < |run| && StrandsAt(s, run, k) {
        assert false;
      }
    }
  }

  lemma {:induction false} StrandsAtPrefix(s: System, run: seq<(nat, Action)>, k: nat)
    requires FullInv(s) && EnabledRun(s, run) && k < |run| - 1
    ensures EnabledRun(s, run[..|run| - 1])
    ensures StrandsAt(s, run, k) <==> StrandsAt(s, run[..|run| - 1], k) && !run[|run| - 1].1.WriteStop?
  {
    hide FullInv, EnabledRun, ApplyRun, Strands, Apply, Enabled;
    var before := run[..|run| - 1];
    PrefixRuns(s, run, |run| - 1);
    PrefixRuns(s, run, k);
    RunKeepsFull(s, run[..k]);
    assert before[..k] == run[..k] && before[k] == run[k];
  }

  lemma {:induction false} StrandsAtLast(s: System, run: seq<(nat, Action)>)
    requires FullInv(s) && run != [] && EnabledRun(s, run)
    ensures var n := |run| - 1;
            && EnabledRun(s, run[..n])
            && FullInv(ApplyRun(s, run[..n]))
            && (StrandsAt(s, run, n) <==> Strands(ApplyRun(s, run[..n]), run[n].0, run[n].1))
            && (StrandsAt(s, run, n) ==> !run[n].1.WriteStop?)
  {
    hide FullInv, EnabledRun, ApplyRun, Apply, Enabled;
    PrefixRuns(s, run, |run| - 1);
    RunKeepsFull(s, run[..|run| - 1]);
  }

  lemma InitialFull(s: System)
    requires Initial(s)
    ensures FullInv(s)
    ensures Stranded(s) <==> BudgetOf(s.journal).value.pending.Some? && !BudgetOf(s.journal).value.stopped
  {
    InitialInv(s);
  }

  /** A stranded send keeps every later request out. */
  lemma StrandedIsClosed(s: System)
    requires FullInv(s) && Stranded(s)
    ensures Closed(s)
  {
    forall c | c in s.clients
      ensures !Owns(s.clients[c])
    {
      assert StageInv(BudgetOf(s.journal).value, s.clients[c]);
    }
  }

  /**
   It needs neither a crash nor an error under the lock: from the header alone, one client sends, its
   response is bad, and the lock for its stop is taken.
   */
  lemma GivingUpStrands(c: nat) returns (run: seq<(nat, Action)>)
    ensures var s := System([Header(AUTHORIZATION, BATCH_LIMIT)], None, map[]);
            && Initial(s) && EnabledRun(s, run)
            && NoFaults(run)
            && ApplyRun(s, run).journal == s.journal + [Send(Reservation(1, 1024, 1))]
            && BudgetOf(ApplyRun(s, run).journal).Ok? && Stranded(ApplyRun(s, run)) && At(ApplyRun(s, run), c).Done?
  {
    var s := System([Header(AUTHORIZATION, BATCH_LIMIT)], None, map[]);
    HeaderOnlyIsInitial();
    assert At(s, c).Idle?;
    hide Initial;
    run := SentThenGivenUp(s, c, Reservation(1, 1024, 1));
  }

  lemma SentThenGivenUp(s: System, c: nat, r: Reservation) returns (run: seq<(nat, Action)>)
    requires Initial(s) && s.lock.None? && At(s, c).Idle? && BudgetOf(s.journal) == Ok(EMPTY)
    requires r == Reservation(1, 1024, 1)
    ensures EnabledRun(s, run) && NoFaults(run)
    ensures var e := ApplyRun(s, run);
            && e.journal == s.journal + [Send(r)]
            && BudgetOf(e.journal).Ok? && Stranded(e) && At(e, c).Done?
  {
    assert MayReserve(EMPTY, 1024, 1) && r == Reservation(BudgetOf(s.journal).value.requests + 1, 0 + 1024, 1);
    hide BudgetOf, Initial, Stranded, FullInv, Inv, Enabled, Apply, At, MayReserve, EnabledRun, ApplyRun, NoFaults;
    InitialFull(s);
    InitialInv(s);
    OpenAfterSend(s.journal, r);
    var send := SendRun(s, c, 0, 1);
    RunKeepsFull(s, send);
    var giveUp := GiveUpRun(ApplyRun(s, send), c);
    RunConcat(s, send, giveUp);
    FaultsConcat(send, giveUp);
    run := send + giveUp;
  }

  lemma GiveUpRun(s: System, c: nat) returns (run: seq<(nat, Action)>)
    requires FullInv(s) && At(s, c).InFlight? && BudgetOf(s.journal).Ok? && !BudgetOf(s.journal).value.stopped
    ensures EnabledRun(s, run) && NoFaults(run)
    ensures var e := ApplyRun(s, run);
            e.journal == s.journal && BudgetOf(e.journal).Ok? && Stranded(e) && At(e, c).Done?
  {
    FailThenGiveUp(s, c);
    var failed := Apply(s, c, Fail);
    var done := Apply(failed, c, GiveUp);
    NoSteps(done);
    hide BudgetOf, Stranded, FullInv, Enabled, Apply, At, EnabledRun, ApplyRun;
    run := [(c, GiveUp)] + [];
    RunCons(failed, c, GiveUp, []);
    RunCons(s, c, Fail, run);
    run := [(c, Fail)] + run;
  }

  lemma NoSteps(s: System)
    ensures EnabledRun(s, []) && ApplyRun(s, []) == s
  {
  }

  lemma OpenAfterSend(journal: seq<Entry>, r: Reservation)
    requires BudgetOf(journal) == Ok(EMPTY) && r.sequence == 1
    ensures BudgetOf(journal + [Send(r)]).Ok?
    ensures var b := BudgetOf(journal + [Send(r)]).value; b.pending == Some(r) && !b.stopped
  {
    BudgetAppend(journal, Send(r));
    hide BudgetOf;
  }

  /** A request on the wire that fails and cannot take the lock strands its send. */
  lemma FailThenGiveUp(s: System, c: nat)
    requires FullInv(s) && At(s, c).InFlight? && !BudgetOf(s.journal).value.stopped
    ensures Enabled(s, c, Fail) && Enabled(Apply(s, c, Fail), c, GiveUp)
    ensures var t := Apply(Apply(s, c, Fail), c, GiveUp);
            t.journal == s.journal && BudgetOf(t.journal).Ok? && Stranded(t) && At(t, c).Done?
  {
    assert StageInv(BudgetOf(s.journal).value, s.clients[c]);
    hide BudgetOf, Inv, SequencesInv, Stranded;
    StrandedAfterStep(s, c, Fail);
    StrandedAfterStep(Apply(s, c, Fail), c, GiveUp);
  }
}
