/**
 The order of the container of dmsgq_ has no meaning.  std::priority_queue keeps its elements in an order of
 its own, and Clear rebuilds it; two queues that differ in nothing else take the same steps, find the same
 messages and keep differing in nothing else.  This rests on no two delayed messages having the same number.
 */
module MessageQueueOrder {
  import opened MessageQueueSpec
  import opened MessageQueueRuns
  import opened MessageQueueGet

  /** The same, but for the order of the container of dmsgq_. */
  ghost predicate Same(s: State, t: State) {
    t == State(s.q.(dmsgq := t.q.dmsgq), s.log) && multiset(s.q.dmsgq) == multiset(t.q.dmsgq)
  }

  lemma TopTheSame(ds: seq<Delayed>, es: seq<Delayed>)
    requires NumsDistinct(ds) && multiset(ds) == multiset(es) && ds != []
    ensures es != [] && ds[TopIndex(ds)] == es[TopIndex(es)]
  {
    assert ds[0] in multiset(es);
    var i, j := TopIndex(ds), TopIndex(es);
    assert es[j] in multiset(ds) && ds[i] in multiset(es);
    var k :| 0 <= k < |ds| && ds[k] == es[j];
    var l :| 0 <= l < |es| && es[l] == ds[i];
    assert !Less(ds[i], ds[k]) && !Less(es[j], es[l]);
    assert i == k;
  }

  lemma RestTheSame(ds: seq<Delayed>, i: nat, es: seq<Delayed>, j: nat)
    requires i < |ds| && j < |es| && ds[i] == es[j] && multiset(ds) == multiset(es)
    ensures multiset(Without(ds, i)) == multiset(Without(es, j))
  {
    WithoutMultiset(ds, i);
    WithoutMultiset(es, j);
    Cancel(multiset{ds[i]}, multiset(Without(ds, i)), multiset(Without(es, j)));
  }

  lemma Cancel(x: multiset<Delayed>, a: multiset<Delayed>, b: multiset<Delayed>)
    requires x + a == x + b
    ensures a == b
  {
    assert a == (x + a) - x == (x + b) - x == b;
  }

  /** Whatever is due is taken in the same order. */
  lemma {:induction false} DrainTheSame(ds: seq<Delayed>, es: seq<Delayed>, now: int)
    requires NumsDistinct(ds) && multiset(ds) == multiset(es)
    ensures Drain(ds, now).0 == Drain(es, now).0
    ensures multiset(Drain(ds, now).1) == multiset(Drain(es, now).1)
    decreases |ds|
  {
    if ds == [] {
      assert es == [] by { assert |multiset(es)| == 0; }
    } else {
      TopTheSame(ds, es);
      var i, j := TopIndex(ds), TopIndex(es);
      if ds[i].trigger <= now {
        RestTheSame(ds, i, es, j);
        WithoutDistinct(ds, i);
        DrainTheSame(Without(ds, i), Without(es, j), now);
      }
    }
  }

  lemma {:induction false} MsgsTheSame(ds: seq<Delayed>, es: seq<Delayed>)
    requires multiset(ds) == multiset(es)
    ensures multiset(Msgs(ds)) == multiset(Msgs(es))
    decreases |ds|
  {
    if ds == [] {
      assert es == [] by { assert |multiset(es)| == 0; }
    } else {
      assert ds[0] in multiset(es);
      var j :| 0 <= j < |es| && es[j] == ds[0];
      RestTheSame(ds, 0, es, j);
      MsgsTheSame(Without(ds, 0), Without(es, j));
      MsgsWithout(ds, 0);
      MsgsWithout(es, j);
    }
  }

  lemma DelayedSnoc(ds: seq<Delayed>, d: Delayed, e: Delayed)
    ensures multiset(ds + [d])[e] == multiset(ds)[e] + (if d == e then 1 else 0)
  {
    assert multiset(ds + [d]) == multiset(ds) + multiset{d};
  }

  lemma {:induction false} DelayedSurvivorsAre(ds: seq<Delayed>, handler: nat, id: nat, e: Delayed)
    ensures multiset(DelayedSurvivors(ds, handler, id))[e] == if Match(e.msg, handler, id) then 0 else multiset(ds)[e]
  {
    if ds != [] {
      var n := |ds| - 1;
      DelayedSurvivorsAre(ds[..n], handler, id, e);
      DelayedSurvivorsGrow(ds[..n], ds[n], ds, handler, id, e);
    }
  }

  lemma DelayedSurvivorsGrow(ds: seq<Delayed>, d: Delayed, whole: seq<Delayed>, handler: nat, id: nat, e: Delayed)
    requires whole == ds + [d]
    ensures var one := if d == e then 1 else 0;
            && multiset(whole)[e] == multiset(ds)[e] + one
            && multiset(DelayedSurvivors(whole, handler, id))[e]
               == multiset(DelayedSurvivors(ds, handler, id))[e] + (if Match(e.msg, handler, id) then 0 else one)
  {
    DelayedSurvivorsSnoc(ds, d, handler, id);
    DelayedSnoc(ds, d, e);
    DelayedSnoc(DelayedSurvivors(ds, handler, id), d, e);
  }

  lemma SurvivorsTheSame(ds: seq<Delayed>, es: seq<Delayed>, handler: nat, id: nat)
    requires multiset(ds) == multiset(es)
    ensures multiset(DelayedSurvivors(ds, handler, id)) == multiset(DelayedSurvivors(es, handler, id))
  {
    var a, b := multiset(DelayedSurvivors(ds, handler, id)), multiset(DelayedSurvivors(es, handler, id));
    forall e
      ensures a[e] == b[e]
    {
      DelayedSurvivorsAre(ds, handler, id, e);
      DelayedSurvivorsAre(es, handler, id, e);
    }
  }

  lemma HeldTheSame(s: State, t: State)
    requires Same(s, t)
    ensures Held(s.q) == Held(t.q)
  {
    MsgsTheSame(s.q.dmsgq, t.q.dmsgq);
  }

  lemma ClearTheSame(s: State, t: State, handler: nat, id: nat)
    requires Same(s, t)
    ensures Same(Apply(s, Clear(handler, id)), Apply(t, Clear(handler, id)))
  {
    var s', t' := ApplyClear(s.q, handler, id), ApplyClear(t.q, handler, id);
    SurvivorsTheSame(s.q.dmsgq, t.q.dmsgq, handler, id);
    HeldTheSame(s, t);
    HeldTheSame(State(s', s.log), State(t', s.log));
    ClearApplied(s, handler, id);
    ClearApplied(t, handler, id);
  }

  lemma TransferTheSame(s: State, t: State, a: Action)
    requires Same(s, t) && NumsDistinct(s.q.dmsgq) && a.Transfer? && Enabled(s, a)
    ensures Enabled(t, a) && Same(Apply(s, a), Apply(t, a))
  {
    TopTheSame(s.q.dmsgq, t.q.dmsgq);
    RestTheSame(s.q.dmsgq, TopIndex(s.q.dmsgq), t.q.dmsgq, TopIndex(t.q.dmsgq));
  }

  lemma PostTheSame(s: State, t: State, a: Action)
    requires Same(s, t) && (a.Post? || a.DelayPost?)
    ensures Enabled(s, a) == Enabled(t, a) && Same(Apply(s, a), Apply(t, a))
  {
    if a.DelayPost? {
      var d := Delayed(a.delay, a.trigger, s.q.nextNum, a.m);
      assert multiset(s.q.dmsgq + [d]) == multiset(s.q.dmsgq) + multiset{d};
      assert multiset(t.q.dmsgq + [d]) == multiset(t.q.dmsgq) + multiset{d};
    }
  }

  lemma StepIgnoresOrder(s: State, t: State, a: Action)
    requires Same(s, t) && NumsDistinct(s.q.dmsgq) && Enabled(s, a)
    ensures Enabled(t, a) && Same(Apply(s, a), Apply(t, a))
  {
    match a
    case Post(_) => PostTheSame(s, t, a);
    case DelayPost(_, _, _) => PostTheSame(s, t, a);
    case Transfer(_) => TransferTheSame(s, t, a);
    case Clear(handler, id) => ClearTheSame(s, t, handler, id);
    case Pull(_) =>
    case Stash =>
    case TakePeek =>
    case Quit =>
    case Restart =>
  }

  /** Every run of one of the two queues is a run of the other, and it leaves them the same: what was returned,
      disposed of and cleared, and what is still there. */
  lemma {:induction false} RunIgnoresOrder(s: State, t: State, acts: seq<Action>)
    requires Conserved(s) && Same(s, t) && ValidRun(s, acts)
    ensures ValidRun(t, acts) && Same(After(s, acts), After(t, acts))
  {
    if acts != [] {
      var before := acts[..|acts| - 1];
      RunIgnoresOrder(s, t, before);
      RunConserves(s, before);
      StepIgnoresOrder(After(s, before), After(t, before), acts[|acts| - 1]);
    }
  }

  // ---------------------------------------------------------------- looks

  lemma ArrivalTheSame(s: State, t: State, a: Arrival)
    requires Same(s, t)
    ensures Same(Apply(s, ActionOf(a)), Apply(t, ActionOf(a)))
  {
    match a
    case Posted(_) => PostTheSame(s, t, ActionOf(a));
    case PostedDelayed(_, _, _) => PostTheSame(s, t, ActionOf(a));
    case Cleared(handler, id) => ClearTheSame(s, t, handler, id);
    case Stopped =>
    case Restarted =>
  }

  lemma {:induction false} ArriveAllTheSame(s: State, t: State, arrivals: seq<Arrival>)
    requires Same(s, t)
    ensures Same(ArriveAll(s, arrivals), ArriveAll(t, arrivals))
    decreases |arrivals|
  {
    if arrivals != [] {
      ArrivalTheSame(s, t, arrivals[0]);
      ArriveAllTheSame(Apply(s, ActionOf(arrivals[0])), Apply(t, ActionOf(arrivals[0])), arrivals[1..]);
    }
  }

  lemma {:induction false} PullsTheSame(s: State, t: State, gaps: seq<seq<Arrival>>, forPeek: bool)
    requires Same(s, t)
    ensures Pulled(s, gaps, forPeek).0 == Pulled(t, gaps, forPeek).0
    ensures Same(Pulled(s, gaps, forPeek).1, Pulled(t, gaps, forPeek).1)
    decreases |gaps|, |s.q.msgq|
  {
    if s.q.msgq != [] && s.q.msgq[0].id == MQID_DISPOSE {
      var s', t' := DisposedFirst(s), DisposedFirst(t);
      ArriveAllTheSame(s', t', First(gaps));
      PullsTheSame(ArriveAll(s', First(gaps)), ArriveAll(t', First(gaps)), Rest(gaps), forPeek);
    }
  }

  lemma DueTheSame(s: State, t: State, at: int)
    requires Same(s, t) && NumsDistinct(s.q.dmsgq)
    ensures Same(Due(s, at), Due(t, at))
  {
    DrainTheSame(s.q.dmsgq, t.q.dmsgq, at);
  }

  /** A look finds the same message in both, and leaves them the same. */
  lemma LookIgnoresOrder(s: State, t: State, at: int, turn: Turn, forPeek: bool)
    requires Same(s, t) && NumsDistinct(s.q.dmsgq)
    ensures Found(s, at, turn) == Found(t, at, turn)
    ensures Same(AfterLook(s, at, turn, forPeek), AfterLook(t, at, turn, forPeek))
  {
    DueTheSame(s, t, at);
    PullsTheSame(Due(s, at), Due(t, at), turn.gaps, false);
    PullsTheSame(Due(s, at), Due(t, at), turn.gaps, forPeek);
    ArriveAllTheSame(Pulled(Due(s, at), turn.gaps, forPeek).1, Pulled(Due(t, at), turn.gaps, forPeek).1, turn.before);
  }
}
