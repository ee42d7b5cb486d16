/**
 The teardown protocol of AsyncInvoker (base/asyncinvoker.cc) over the auto-reset event of
 base/event.cc: steps of any number of threads, message queues and closures against one
 destructor.

 Every atomic operation, queue operation and event operation is one step.  A queue whose
 lock the destructor holds while it clears it takes part in no other step.  `Leaked` is a
 closure handed to a queue that is quitting: Post returns without keeping or deleting it.
 */
module AsyncInvokerModel {
  import opened Basics

  /** A thread and its message queue. */
  type Qid = nat
  type Cid = nat

  /** AsyncInvoke is called inside a functor that is being run, or from elsewhere. */
  datatype Origin = Outside | Inside(parent: Cid)

  /** Who deletes a closure: the destructor clearing a queue, or anybody else. */
  datatype Agent = Destructor | Other

  datatype Closure =
    | Built(origin: Origin, target: Qid)     // counted; destroying_ not yet read
    | Admitted(origin: Origin, target: Qid)  // destroying_ was false; about to be posted
    | Queued(q: Qid)
    | Running(q: Qid)                        // taken from its queue, up to the end of its functor
    | Doomed(agent: Agent)                   // being deleted; still counted
    | Unset(agent: Agent)                    // no longer counted; Set still to come
    | Gone
    | Leaked

  datatype Phase =
    | Alive
    | ClearingAll(i: nat)                    // holds the lock of queues[i]
    | Checking                               // about to read pending_invocations_
    | ClearingOwn                            // holds the lock of its own thread's queue
    | Waiting                                // in Wait
    | Finished

  datatype State = State(
    pending: int, event: bool, phase: Phase, own: Qid, queues: seq<Qid>, closures: map<Cid, Closure>)

  datatype Action =
    | Construct(c: Cid, origin: Origin, target: Qid)
    | Load(c: Cid)
    | Post(c: Cid)
    | PostDropped(c: Cid)
    | Take(c: Cid)
    | Cancel(c: Cid)
    | Finish(c: Cid)
    | Sub(c: Cid)
    | Set(c: Cid)
    | Start(own: Qid)
    | Remove(c: Cid)
    | ClearDone
    | Check
    | Wake

  function Init(queues: seq<Qid>): State {
    State(0, false, Alive, 0, queues, map[])
  }

  predicate Destroying(s: State) {
    s.phase != Alive
  }

  /** The destructor is clearing this queue and holds its lock. */
  predicate Locked(s: State, q: Qid) {
    || (s.phase.ClearingAll? && s.phase.i < |s.queues| && s.queues[s.phase.i] == q)
    || (s.phase == ClearingOwn && q == s.own)
  }

  predicate InFlight(cl: Closure) {
    cl.Built? || cl.Admitted?
  }

  predicate HeldBy(cl: Closure, agent: Agent) {
    (cl.Doomed? || cl.Unset?) && cl.agent == agent
  }

  predicate MayCall(s: State, origin: Origin) {
    match origin
    case Outside => s.phase == Alive
    case Inside(p) => p in s.closures && s.closures[p].Running?
  }

  /** The rules of use: no AsyncInvoke from outside a functor once destruction has started, and none
      still under way when it starts.  A functor returns only when its own calls have returned, and a
      functor under the destructor on the same stack does not return before it. */
  predicate Enabled(s: State, a: Action) {
    match a
    case Construct(c, origin, _) => c !in s.closures && MayCall(s, origin)
    case Load(c) => c in s.closures && s.closures[c].Built?
    case Post(c) => c in s.closures && s.closures[c].Admitted? && !Locked(s, s.closures[c].target)
    case PostDropped(c) => c in s.closures && s.closures[c].Admitted?
    case Take(c) =>
      c in s.closures && s.closures[c].Queued? && !Locked(s, s.closures[c].q) &&
      !(Destroying(s) && s.closures[c].q == s.own)
    case Cancel(c) =>
      c in s.closures && s.closures[c].Queued? && !Locked(s, s.closures[c].q)
    case Finish(c) =>
      c in s.closures && s.closures[c].Running? && !(Destroying(s) && s.closures[c].q == s.own) &&
      forall d | d in s.closures && InFlight(s.closures[d]) :: s.closures[d].origin != Inside(c)
    case Sub(c) => c in s.closures && s.closures[c].Doomed?
    case Set(c) => c in s.closures && s.closures[c].Unset?
    case Start(_) =>
      s.phase == Alive && forall d | d in s.closures && InFlight(s.closures[d]) :: s.closures[d].origin != Outside
    case Remove(c) => c in s.closures && s.closures[c].Queued? && Locked(s, s.closures[c].q)
    case ClearDone =>
      (s.phase.ClearingAll? || s.phase == ClearingOwn) &&
      forall d | d in s.closures ::
        !HeldBy(s.closures[d], Destructor) && !(s.closures[d].Queued? && Locked(s, s.closures[d].q))
    case Check => s.phase == Checking
    case Wake => s.phase == Waiting && s.event
  }

  function Move(s: State, c: Cid, cl: Closure): State {
    s.(closures := s.closures[c := cl])
  }

  /** The phase in which queue `i` of the manager's list is cleared, or the loop is reached. */
  function ClearFrom(s: State, i: nat): Phase {
    if i < |s.queues| then ClearingAll(i) else Checking
  }

  function Apply(s: State, a: Action): State
    requires Enabled(s, a)
  {
    match a
    case Construct(c, origin, target) => Move(s.(pending := s.pending + 1), c, Built(origin, target))
    case Load(c) =>
      Move(s, c, if Destroying(s) then Doomed(Other) else Admitted(s.closures[c].origin, s.closures[c].target))
    case Post(c) => Move(s, c, Queued(s.closures[c].target))
    case PostDropped(c) => Move(s, c, Leaked)
    case Take(c) => Move(s, c, Running(s.closures[c].q))
    case Cancel(c) => Move(s, c, Doomed(Other))
    case Finish(c) => Move(s, c, Doomed(Other))
    case Sub(c) => Move(s.(pending := s.pending - 1), c, Unset(s.closures[c].agent))
    case Set(c) => Move(s.(event := true), c, Gone)
    case Start(own) => s.(phase := ClearFrom(s, 0), own := own)
    case Remove(c) => Move(s, c, Doomed(Destructor))
    case ClearDone => s.(phase := if s.phase.ClearingAll? then ClearFrom(s, s.phase.i + 1) else Waiting)
    case Check => s.(phase := if s.pending > 0 then ClearingOwn else Finished)
    case Wake => s.(event := false, phase := Checking)
  }

  predicate ValidRun(s: State, acts: seq<Action>)
    decreases |acts|
  {
    acts == [] || (Enabled(s, acts[0]) && ValidRun(Apply(s, acts[0]), acts[1..]))
  }

  function After(s: State, acts: seq<Action>): State
    requires ValidRun(s, acts)
    decreases |acts|
  {
    if acts == [] then s else After(Apply(s, acts[0]), acts[1..])
  }

  ghost predicate Reachable(s: State) {
    exists queues: seq<Qid>, acts: seq<Action> ::
      ValidRun(Init(queues), acts) && After(Init(queues), acts) == s
  }

  // ---------------------------------------------------------------- the invariant

  /** Counted in pending_invocations_. */
  predicate Live(cl: Closure) {
    !cl.Unset? && !cl.Gone?
  }

  ghost function LiveSet(s: State): set<Cid> {
    set c | c in s.closures && Live(s.closures[c])
  }

  /** A closure that will, in somebody else's hands, still reach its Set call, or never can. */
  predicate Helper(s: State, cl: Closure) {
    (cl.Queued? && cl.q != s.own) || cl.Running? || HeldBy(cl, Other) || cl.Leaked?
  }

  ghost predicate SomeHelper(s: State) {
    exists c :: c in s.closures && Helper(s, s.closures[c])
  }

  /** A call under way is made from a running functor, or from outside before destruction. */
  ghost predicate CallsGuarded(s: State) {
    forall c | c in s.closures && InFlight(s.closures[c]) :: MayCall(s, s.closures[c].origin)
  }

  ghost predicate DestructorTidy(s: State) {
    s.phase.ClearingAll? || s.phase == ClearingOwn || forall c | c in s.closures :: !HeldBy(s.closures[c], Destructor)
  }

  ghost predicate NotStranded(s: State) {
    && (s.phase == ClearingOwn ==> s.event || exists c :: c in s.closures && !s.closures[c].Gone?)
    && (s.phase == Waiting ==> s.event || SomeHelper(s))
  }

  ghost predicate Inv(s: State) {
    && s.pending == |LiveSet(s)|
    && CallsGuarded(s)
    && DestructorTidy(s)
    && NotStranded(s)
    && (s.phase == Finished ==> LiveSet(s) == {})
  }

  lemma LiveSetMove(s: State, s': State, c: Cid, cl: Closure)
    requires s'.closures == s.closures[c := cl]
    ensures LiveSet(s') == if Live(cl) then LiveSet(s) + {c} else LiveSet(s) - {c}
    ensures c in LiveSet(s) <==> c in s.closures && Live(s.closures[c])
  {
  }

  lemma MoveCounts(s: State, s': State, c: Cid, cl: Closure)
    requires s'.closures == s.closures[c := cl]
    ensures |LiveSet(s')| == |LiveSet(s)| + One(Live(cl)) - One(c in s.closures && Live(s.closures[c]))
  {
    LiveSetMove(s, s', c, cl);
  }

  lemma CountKeeps(s: State, a: Action)
    requires s.pending == |LiveSet(s)| && Enabled(s, a)
    ensures Apply(s, a).pending == |LiveSet(Apply(s, a))|
  {
    var s' := Apply(s, a);
    if a.Start? || a.ClearDone? || a.Check? || a.Wake? {
      assert LiveSet(s') == LiveSet(s);
    } else {
      MoveCounts(s, s', a.c, s'.closures[a.c]);
    }
  }

  /** Once no closure is live none becomes live after the destructor is done. */
  lemma EmptyStays(s: State, a: Action)
    requires s.phase == Finished && LiveSet(s) == {} && Enabled(s, a)
    ensures LiveSet(Apply(s, a)) == {}
  {
    forall c | c in s.closures
      ensures !Live(s.closures[c])
    {
      assert c !in LiveSet(s);
    }
    assert a.Set?;
    LiveSetMove(s, Apply(s, a), a.c, Gone);
  }

  lemma CallsKeep(s: State, a: Action)
    requires Inv(s) && Enabled(s, a)
    ensures CallsGuarded(Apply(s, a))
  {
    var s' := Apply(s, a);
    forall c | c in s'.closures && InFlight(s'.closures[c])
      ensures MayCall(s', s'.closures[c].origin)
    {
      if !(a.Construct? && a.c == c) {
        assert InFlight(s.closures[c]) && s'.closures[c].origin == s.closures[c].origin;
      }
    }
  }

  lemma TidyKeeps(s: State, a: Action)
    requires Inv(s) && Enabled(s, a)
    ensures DestructorTidy(Apply(s, a))
  {
  }

  /** While the destructor waits, what will wake it stays, hands over, or signals. */
  lemma HelperKeeps(s: State, a: Action)
    requires Enabled(s, a) && SomeHelper(s) && s.phase == Waiting
    ensures SomeHelper(Apply(s, a)) || Apply(s, a).event || a.Wake?
  {
    var s' := Apply(s, a);
    var c :| c in s.closures && Helper(s, s.closures[c]);
    assert c in s'.closures && (Helper(s', s'.closures[c]) || a.Set?);
  }

  /** After its own queue is cleared, whatever is left is in other hands. */
  lemma LeftoverHelps(s: State)
    requires Inv(s) && s.phase == ClearingOwn && Enabled(s, ClearDone) && !s.event
    ensures SomeHelper(s)
  {
    var c :| c in s.closures && !s.closures[c].Gone?;
    if InFlight(s.closures[c]) {
      var p := s.closures[c].origin.parent;
      assert Helper(s, s.closures[p]);
    } else {
      assert Helper(s, s.closures[c]);
    }
  }

  lemma StrandingKeeps(s: State, a: Action)
    requires Inv(s) && Enabled(s, a)
    ensures NotStranded(Apply(s, a))
  {
    var s' := Apply(s, a);
    if s'.phase == Waiting && !s'.event {
      if s.phase == ClearingOwn {
        LeftoverHelps(s);
        var c :| c in s.closures && Helper(s, s.closures[c]);
        assert Helper(s', s'.closures[c]);
      } else {
        HelperKeeps(s, a);
      }
    }
    if s'.phase == ClearingOwn && !s'.event {
      if s.phase == ClearingOwn {
        var c :| c in s.closures && !s.closures[c].Gone?;
        assert c in s'.closures && !s'.closures[c].Gone?;
      } else {
        var c :| c in LiveSet(s);
        assert c in s'.closures && !s'.closures[c].Gone?;
      }
    }
  }

  /** Every step of every thread keeps the invariant. */
  lemma StepKeeps(s: State, a: Action)
    requires Inv(s) && Enabled(s, a)
    ensures Inv(Apply(s, a))
  {
    CountKeeps(s, a);
    if s.phase == Finished {
      EmptyStays(s, a);
    }
    CallsKeep(s, a);
    TidyKeeps(s, a);
    StrandingKeeps(s, a);
  }

  lemma {:induction false} RunKeeps(s: State, acts: seq<Action>)
    requires Inv(s) && ValidRun(s, acts)
    ensures Inv(After(s, acts))
    decreases |acts|
  {
    if acts != [] {
      StepKeeps(s, acts[0]);
      RunKeeps(Apply(s, acts[0]), acts[1..]);
    }
  }

  lemma Safety(s: State)
    requires Reachable(s)
    ensures Inv(s)
  {
    var queues: seq<Qid>, acts: seq<Action> :|
      ValidRun(Init(queues), acts) && After(Init(queues), acts) == s;
    assert LiveSet(Init(queues)) == {};
    RunKeeps(Init(queues), acts);
  }

  // ---------------------------------------------------------------- safety of the teardown

  /** pending_invocations_ counts the closures that exist, whatever the threads have done. */
  lemma PendingCountsClosures(s: State)
    requires Reachable(s)
    ensures s.pending == |LiveSet(s)| && s.pending >= 0
  {
    Safety(s);
  }

  /** When the destructor has left its loop, no closure is queued, in flight or running anywhere, and
      the only thing that can still happen is a Set on the event, which outlives the invoker. */
  lemma NothingTouchesDeadInvoker(s: State, a: Action)
    requires Reachable(s) && s.phase == Finished
    ensures forall c | c in s.closures :: s.closures[c].Gone? || s.closures[c].Unset?
    ensures Enabled(s, a) ==> a.Set? && Apply(s, a).phase == Finished
  {
    Safety(s);
    forall c | c in s.closures
      ensures s.closures[c].Gone? || s.closures[c].Unset?
    {
      assert c !in LiveSet(s);
    }
  }

  /** While the destructor is blocked, some closure is queued on another thread, is running, or has
      still to make its Set call in other hands, unless a post was dropped. */
  lemma NeverStranded(s: State) returns (c: Cid)
    requires Reachable(s) && s.phase == Waiting && !s.event
    ensures c in s.closures
    ensures var cl := s.closures[c];
            || (cl.Queued? && cl.q != s.own)
            || cl.Running?
            || ((cl.Doomed? || cl.Unset?) && cl.agent == Other)
            || cl.Leaked?
  {
    Safety(s);
    c :| c in s.closures && Helper(s, s.closures[c]);
  }

  // ---------------------------------------------------------------- the teardown ends

  function Weight(cl: Closure): nat {
    match cl
    case Built(_, _) => 10
    case Admitted(_, _) => 9
    case Queued(_) => 8
    case Running(_) => 7
    case Doomed(_) => 6
    case Unset(_) => 5
    case Gone => 0
    case Leaked => 0
  }

  ghost function TotalWeight(m: map<Cid, Closure>): nat
    decreases |m|
  {
    if m == map[] then 0
    else
      var c :| c in m;
      RemoveSmaller(m, c);
      Weight(m[c]) + TotalWeight(m - {c})
  }

  lemma RemoveSmaller(m: map<Cid, Closure>, c: Cid)
    requires c in m
    ensures |m - {c}| < |m|
  {
    assert (m - {c}).Keys == m.Keys - {c};
  }

  lemma {:induction false} WeightSplit(m: map<Cid, Closure>, c: Cid)
    requires c in m
    ensures TotalWeight(m) == Weight(m[c]) + TotalWeight(m - {c})
    decreases |m|
  {
    var d :| d in m && TotalWeight(m) == Weight(m[d]) + TotalWeight(m - {d});
    if d != c {
      RemoveSmaller(m, d);
      RemoveSmaller(m, c);
      WeightSplit(m - {d}, c);
      WeightSplit(m - {c}, d);
      assert m - {d} - {c} == m - {c} - {d};
    }
  }

  lemma WeightMove(m: map<Cid, Closure>, c: Cid, cl: Closure)
    ensures TotalWeight(m[c := cl]) == TotalWeight(m) + Weight(cl) - (if c in m then Weight(m[c]) else 0)
  {
    var m' := m[c := cl];
    WeightSplit(m', c);
    if c in m {
      WeightSplit(m, c);
      assert m' - {c} == m - {c};
    } else {
      assert m' - {c} == m;
    }
  }

  function PhaseWeight(s: State): nat {
    match s.phase
    case Alive => 0
    case ClearingAll(i) => if i < |s.queues| then 4 + |s.queues| - i else 4
    case Checking => 3
    case ClearingOwn => 2
    case Waiting => 0
    case Finished => 0
  }

  /** Bounds the steps left, but for new calls of AsyncInvoke. */
  ghost function Fuel(s: State): nat {
    TotalWeight(s.closures) + (if s.event then 4 else 0) + PhaseWeight(s)
  }

  /** During destruction every step but the construction of a new closure uses up fuel. */
  lemma StepUsesFuel(s: State, a: Action)
    requires Destroying(s) && Enabled(s, a)
    ensures Destroying(Apply(s, a))
    ensures if a.Construct? then Fuel(Apply(s, a)) == Fuel(s) + 10 else Fuel(Apply(s, a)) < Fuel(s)
  {
    var s' := Apply(s, a);
    if !a.Start? && !a.ClearDone? && !a.Check? && !a.Wake? {
      WeightMove(s.closures, a.c, s'.closures[a.c]);
    }
  }

  function Constructions(acts: seq<Action>): nat {
    if acts == [] then 0 else (if acts[0].Construct? then 1 else 0) + Constructions(acts[1..])
  }

  /** Functors that keep invoking further functors cannot keep the teardown going: the steps of any
      run after destruction started are bounded by its state at that time and the number of calls of
      AsyncInvoke made since, each of which is dropped after a bounded number of steps. */
  lemma {:induction false} TeardownBounded(s: State, acts: seq<Action>)
    requires Destroying(s) && ValidRun(s, acts)
    ensures Destroying(After(s, acts))
    ensures |acts| + Fuel(After(s, acts)) <= Fuel(s) + 11 * Constructions(acts)
    decreases |acts|
  {
    if acts != [] {
      StepUsesFuel(s, acts[0]);
      TeardownBounded(Apply(s, acts[0]), acts[1..]);
    }
  }

  /** Only an unreachable closure, or a functor that runs under the destructor itself. */
  predicate Hopeless(s: State) {
    exists c :: c in s.closures && (s.closures[c].Leaked? || (s.closures[c].Running? && s.closures[c].q == s.own))
  }

  /** Nothing can happen but new calls of AsyncInvoke. */
  ghost predicate Quiescent(s: State) {
    forall a: Action :: Enabled(s, a) ==> a.Construct?
  }

  lemma HelperCanMove(s: State, c: Cid) returns (a: Action)
    requires Inv(s) && s.phase == Waiting && !Hopeless(s)
    requires c in s.closures && Helper(s, s.closures[c])
    ensures Enabled(s, a) && !a.Construct?
  {
    match s.closures[c]
    case Queued(_) => a := Take(c);
    case Doomed(_) => a := Sub(c);
    case Unset(_) => a := Set(c);
    case Running(_) =>
      if d :| d in s.closures && InFlight(s.closures[d]) && s.closures[d].origin == Inside(c) {
        a := if s.closures[d].Built? then Load(d) else Post(d);
      } else {
        a := Finish(c);
      }
  }

  lemma ClearingCanMove(s: State) returns (a: Action)
    requires s.phase.ClearingAll? || s.phase == ClearingOwn
    ensures Enabled(s, a) && !a.Construct?
  {
    if c :| c in s.closures && HeldBy(s.closures[c], Destructor) {
      a := if s.closures[c].Doomed? then Sub(c) else Set(c);
    } else if c :| c in s.closures && s.closures[c].Queued? && Locked(s, s.closures[c].q) {
      a := Remove(c);
    } else {
      a := ClearDone;
    }
  }

  /** While teardown has not ended, and nothing stands in its way for good, something can happen. */
  lemma TeardownCanMove(s: State) returns (a: Action)
    requires Inv(s) && Destroying(s) && !Hopeless(s) && s.phase != Finished
    ensures Enabled(s, a) && !a.Construct?
  {
    match s.phase
    case ClearingAll(_) => a := ClearingCanMove(s);
    case ClearingOwn => a := ClearingCanMove(s);
    case Checking => a := Check;
    case Waiting =>
      if s.event {
        a := Wake;
      } else {
        var c :| c in s.closures && Helper(s, s.closures[c]);
        a := HelperCanMove(s, c);
      }
  }

  lemma OnlyTheEndIsQuiet(s: State)
    requires Inv(s) && Destroying(s) && Quiescent(s) && !Hopeless(s)
    ensures s.phase == Finished
  {
    if s.phase != Finished {
      var a := TeardownCanMove(s);
    }
  }

  lemma HopelessStep(s: State, a: Action)
    requires Destroying(s) && Enabled(s, a)
    ensures Hopeless(Apply(s, a)) <==> Hopeless(s) || a.PostDropped?
  {
    var s' := Apply(s, a);
    if Hopeless(s) {
      var c :| c in s.closures && (s.closures[c].Leaked? || (s.closures[c].Running? && s.closures[c].q == s.own));
      assert s'.closures[c] == s.closures[c];
    }
    if a.PostDropped? {
      assert s'.closures[a.c].Leaked?;
    }
    if Hopeless(s') && !a.PostDropped? {
      var c :| c in s'.closures && (s'.closures[c].Leaked? || (s'.closures[c].Running? && s'.closures[c].q == s'.own));
      assert s'.closures[c] == s.closures[c];
    }
  }

  predicate DropsPost(acts: seq<Action>) {
    exists i :: 0 <= i < |acts| && acts[i].PostDropped?
  }

  lemma {:induction false} HopelessRun(s: State, acts: seq<Action>)
    requires Destroying(s) && ValidRun(s, acts)
    ensures Hopeless(After(s, acts)) <==> Hopeless(s) || DropsPost(acts)
    decreases |acts|
  {
    if acts != [] {
      HopelessStep(s, acts[0]);
      StepUsesFuel(s, acts[0]);
      HopelessRun(Apply(s, acts[0]), acts[1..]);
      assert DropsPost(acts) <==> acts[0].PostDropped? || DropsPost(acts[1..]) by {
        if i :| 0 <= i < |acts| && acts[i].PostDropped? {
          assert i == 0 || acts[1..][i - 1].PostDropped?;
        }
        if i :| 0 <= i < |acts[1..]| && acts[1..][i].PostDropped? {
          assert acts[i + 1].PostDropped?;
        }
      }
    }
  }

  /** A teardown that has run as far as it can has finished, exactly if the destructor does not run
      inside one of its own functors and no post has been dropped by a quitting queue. */
  lemma TeardownEnds(s: State, acts: seq<Action>)
    requires Reachable(s) && Destroying(s) && ValidRun(s, acts) && Quiescent(After(s, acts))
    ensures After(s, acts).phase == Finished <==> !Hopeless(s) && !DropsPost(acts)
  {
    var e := After(s, acts);
    Safety(s);
    RunKeeps(s, acts);
    HopelessRun(s, acts);
    TeardownBounded(s, acts);
    if Hopeless(e) {
      var c :| c in e.closures && (e.closures[c].Leaked? || (e.closures[c].Running? && e.closures[c].q == e.own));
      assert c in LiveSet(e);
    } else {
      OnlyTheEndIsQuiet(e);
    }
  }
}
