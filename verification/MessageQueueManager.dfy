/**
 Processing all message queues (base/messagequeue.cc:100-146): a dispose message is posted to every queue that
 is not quitting, and the caller goes on when the data of all of them has been deleted.

 The queues are those of MessageQueueRuns.  Any thread may take any step of any queue at any time, also between
 two postings and between the question whether a queue is quitting and the posting.
 */
module MessageQueueManagerModel {
  import opened MessageQueueSpec
  import opened MessageQueueRuns
  import opened MessageQueueGet

  /** How far the loop over the queues is with a queue.  `ahead` is what was ahead of the sentinel when it was
      posted.  A posting that finds the queue quitting is lost: the data it has counted is never deleted. */
  datatype Mark = NotYet | Skipped | Asked | Lost | Sent(sentinel: Message, ahead: set<Message>)

  datatype World = World(queues: seq<State>, marks: seq<Mark>)

  datatype Step =
    | Other(k: nat, a: Action)
    | Ask(k: nat)
    | Send(k: nat, trigger: int, uid: nat)

  function Sentinel(uid: nat): Message {
    Message(uid, NO_HANDLER, MQID_DISPOSE)
  }

  predicate Sized(w: World) {
    |w.marks| == |w.queues|
  }

  predicate Allowed(w: World, step: Step)
    requires Sized(w)
  {
    && step.k < |w.queues|
    && match step
       case Other(k, a) => Enabled(w.queues[k], a)
       case Ask(k) => w.marks[k] == NotYet
       case Send(k, trigger, uid) =>
         w.marks[k] == Asked && Enabled(w.queues[k], DelayPost(0, trigger, Sentinel(uid)))
  }

  ghost function Next(w: World, step: Step): (w': World)
    requires Sized(w) && Allowed(w, step)
    ensures Sized(w')
  {
    match step
    case Other(k, a) => w.(queues := w.queues[k := Apply(w.queues[k], a)])
    case Ask(k) => w.(marks := w.marks[k := if w.queues[k].q.stop then Skipped else Asked])
    case Send(k, trigger, uid) =>
      if w.queues[k].q.stop then w.(marks := w.marks[k := Lost])
      else
        World(w.queues[k := Apply(w.queues[k], DelayPost(0, trigger, Sentinel(uid)))],
              w.marks[k := Sent(Sentinel(uid), Ahead(w.queues[k].q, trigger))])
  }

  ghost predicate Starts(w: World) {
    && Sized(w)
    && (forall k | 0 <= k < |w.queues| :: Reachable(w.queues[k]))
    && (forall k | 0 <= k < |w.marks| :: w.marks[k] == NotYet)
  }

  ghost predicate ValidSteps(w: World, steps: seq<Step>)
    requires Sized(w)
    decreases |steps|, 0
  {
    steps == []
    || (ValidSteps(w, steps[..|steps| - 1]) && Allowed(End(w, steps[..|steps| - 1]), steps[|steps| - 1]))
  }

  ghost function End(w: World, steps: seq<Step>): (w': World)
    requires Sized(w) && ValidSteps(w, steps)
    ensures Sized(w')
    decreases |steps|, 1
  {
    if steps == [] then w else Next(End(w, steps[..|steps| - 1]), steps[|steps| - 1])
  }

  // ---------------------------------------------------------------- one queue

  ghost predicate NoneHeld(s: State, ms: set<Message>) {
    forall m | m in ms :: m !in Held(s.q)
  }

  /** The sentinel keeps its place, and once it is disposed of nothing ahead of it is held. */
  ghost predicate Passed(s: State, sentinel: Message, ahead: set<Message>) {
    Guarded(s, sentinel, ahead) && (sentinel in s.log.disposed ==> NoneHeld(s, ahead))
  }

  ghost predicate Grown(log: Log, log': Log, m: Message) {
    && log.accepted[m] <= log'.accepted[m] && log.returned[m] <= log'.returned[m]
    && log.disposed[m] <= log'.disposed[m] && log.cleared[m] <= log'.cleared[m]
  }

  lemma PostLogged(s: State, a: Action, m: Message)
    requires a.Post? || a.DelayPost?
    ensures Grown(s.log, Apply(s, a).log, m)
  {
  }

  lemma TakeLogged(s: State, a: Action, m: Message)
    requires Possible(s, a) && (a.Pull? || a.TakePeek?)
    ensures Grown(s.log, Apply(s, a).log, m)
  {
  }

  lemma ClearLogged(s: State, a: Action, m: Message)
    requires a.Clear?
    ensures Grown(s.log, Apply(s, a).log, m)
  {
    ClearApplied(s, a.handler, a.id);
  }

  lemma LogGrows(s: State, a: Action, m: Message)
    requires Possible(s, a)
    ensures Grown(s.log, Apply(s, a).log, m)
  {
    match a
    case Post(_) => PostLogged(s, a, m);
    case DelayPost(_, _, _) => PostLogged(s, a, m);
    case Clear(_, _) => ClearLogged(s, a, m);
    case Pull(_) => TakeLogged(s, a, m);
    case TakePeek => TakeLogged(s, a, m);
    case _ => assert Apply(s, a).log == s.log;
  }

  lemma TotalCount(log: Log, held: multiset<Message>, m: Message)
    ensures Total(log, held)[m] == held[m] + log.returned[m] + log.disposed[m] + log.cleared[m]
  {
  }

  /** What has left does not come back. */
  lemma StaysGone(s: State, a: Action, m: Message)
    requires Conserved(s) && Enabled(s, a) && m in s.log.accepted && m !in Held(s.q)
    ensures m !in Held(Apply(s, a).q)
  {
    var s' := Apply(s, a);
    StepConserves(s, a);
    LogGrows(s, a, m);
    TotalCount(s.log, Held(s.q), m);
    TotalCount(s'.log, Held(s'.q), m);
  }

  lemma NoneHeldStays(s: State, a: Action, sentinel: Message, ahead: set<Message>)
    requires Guarded(s, sentinel, ahead) && Enabled(s, a) && NoneHeld(s, ahead)
    ensures NoneHeld(Apply(s, a), ahead)
  {
    forall m | m in ahead
      ensures m !in Held(Apply(s, a).q)
    {
      StaysGone(s, a, m);
    }
  }

  /** Only Get disposes of messages, and only of the next. */
  lemma DisposedByPull(s: State, a: Action, m: Message)
    requires Enabled(s, a) && m !in s.log.disposed && m in Apply(s, a).log.disposed
    ensures IsNext(s, m)
  {
    match a
    case Post(_) =>
    case DelayPost(_, _, _) =>
    case Transfer(_) =>
    case Clear(handler, id) => ClearApplied(s, handler, id);
    case Pull(_) =>
    case Stash =>
    case TakePeek =>
    case Quit =>
    case Restart =>
  }

  lemma StepPasses(s: State, a: Action, sentinel: Message, ahead: set<Message>)
    requires Passed(s, sentinel, ahead) && Enabled(s, a)
    ensures Passed(Apply(s, a), sentinel, ahead)
  {
    StepKeepsGuard(s, a, sentinel, ahead);
    if sentinel in Apply(s, a).log.disposed {
      if sentinel !in s.log.disposed {
        DisposedByPull(s, a, sentinel);
        NothingAheadHeld(s, sentinel, ahead);
      }
      NoneHeldStays(s, a, sentinel, ahead);
    }
  }

  lemma SendPasses(s: State, trigger: int, sentinel: Message)
    requires Conserved(s) && !s.q.stop && Enabled(s, DelayPost(0, trigger, sentinel))
    ensures Passed(Apply(s, DelayPost(0, trigger, sentinel)), sentinel, Ahead(s.q, trigger))
  {
    GuardedFromStart(s, 0, trigger, sentinel, Apply(s, DelayPost(0, trigger, sentinel)));
    assert sentinel !in s.log.accepted;
    TotalCount(s.log, Held(s.q), sentinel);
  }

  lemma NoneHeldGone(s: State, sentinel: Message, ahead: set<Message>)
    requires Guarded(s, sentinel, ahead)
    ensures NoneHeld(s, ahead) <==> AllGone(s, ahead)
  {
    forall m | m in ahead && m !in Held(s.q)
      ensures Gone(s, m)
    {
      TotalCount(s.log, Held(s.q), m);
    }
  }

  // ---------------------------------------------------------------- all queues

  ghost predicate MarkKept(s: State, mark: Mark) {
    Conserved(s) && (mark.Sent? ==> mark.sentinel.id == MQID_DISPOSE && Passed(s, mark.sentinel, mark.ahead))
  }

  ghost predicate AllKept(w: World) {
    Sized(w) && forall k | 0 <= k < |w.queues| :: MarkKept(w.queues[k], w.marks[k])
  }

  lemma OtherKeeps(s: State, mark: Mark, a: Action)
    requires MarkKept(s, mark) && Enabled(s, a)
    ensures MarkKept(Apply(s, a), mark)
  {
    StepConserves(s, a);
    if mark.Sent? {
      StepPasses(s, a, mark.sentinel, mark.ahead);
    }
  }

  lemma SendKeeps(s: State, trigger: int, uid: nat)
    requires Conserved(s) && !s.q.stop && Enabled(s, DelayPost(0, trigger, Sentinel(uid)))
    ensures MarkKept(Apply(s, DelayPost(0, trigger, Sentinel(uid))), Sent(Sentinel(uid), Ahead(s.q, trigger)))
  {
    StepConserves(s, DelayPost(0, trigger, Sentinel(uid)));
    SendPasses(s, trigger, Sentinel(uid));
  }

  /** A step touches one queue. */
  lemma KeptQueue(w: World, k: nat, s: State)
    requires AllKept(w) && k < |w.queues| && MarkKept(s, w.marks[k])
    ensures AllKept(w.(queues := w.queues[k := s]))
  {
  }

  lemma KeptMark(w: World, k: nat, mark: Mark)
    requires AllKept(w) && k < |w.queues| && !mark.Sent?
    ensures AllKept(w.(marks := w.marks[k := mark]))
  {
  }

  lemma KeptBoth(w: World, k: nat, s: State, mark: Mark)
    requires AllKept(w) && k < |w.queues| && MarkKept(s, mark)
    ensures AllKept(World(w.queues[k := s], w.marks[k := mark]))
  {
  }

  lemma OtherKeepsAll(w: World, k: nat, a: Action)
    requires AllKept(w) && Allowed(w, Other(k, a))
    ensures AllKept(Next(w, Other(k, a)))
  {
    OtherKeeps(w.queues[k], w.marks[k], a);
    KeptQueue(w, k, Apply(w.queues[k], a));
  }

  lemma SendKeepsAll(w: World, k: nat, trigger: int, uid: nat)
    requires AllKept(w) && Allowed(w, Send(k, trigger, uid))
    ensures AllKept(Next(w, Send(k, trigger, uid)))
  {
    var s, send := w.queues[k], DelayPost(0, trigger, Sentinel(uid));
    if s.q.stop {
      KeptMark(w, k, Lost);
    } else {
      assert MarkKept(s, w.marks[k]);
      SendKeeps(s, trigger, uid);
      KeptBoth(w, k, Apply(s, send), Sent(Sentinel(uid), Ahead(s.q, trigger)));
    }
  }

  lemma StepKeepsAll(w: World, step: Step)
    requires AllKept(w) && Allowed(w, step)
    ensures AllKept(Next(w, step))
  {
    match step
    case Other(k, a) => OtherKeepsAll(w, k, a);
    case Ask(k) => KeptMark(w, k, if w.queues[k].q.stop then Skipped else Asked);
    case Send(k, trigger, uid) => SendKeepsAll(w, k, trigger, uid);
  }

  lemma {:induction false} RunKeepsAll(w: World, steps: seq<Step>)
    requires Starts(w) && ValidSteps(w, steps)
    ensures AllKept(End(w, steps))
  {
    if steps == [] {
      forall k | 0 <= k < |w.queues|
        ensures MarkKept(w.queues[k], w.marks[k])
      {
        ReachableConserved(w.queues[k]);
      }
    } else {
      RunKeepsAll(w, steps[..|steps| - 1]);
      StepKeepsAll(End(w, steps[..|steps| - 1]), steps[|steps| - 1]);
    }
  }

  /** What a queue adds to queues_not_done: the data of its sentinel is counted until it is deleted. */
  function NotDone(s: State, mark: Mark): nat {
    match mark
    case Lost => 1
    case Sent(sentinel, _) => if sentinel in s.log.disposed || sentinel in s.log.cleared then 0 else 1
    case _ => 0
  }

  function QueuesNotDone(w: World, n: nat): nat
    requires Sized(w) && n <= |w.queues|
  {
    if n == 0 then 0 else QueuesNotDone(w, n - 1) + NotDone(w.queues[n - 1], w.marks[n - 1])
  }

  lemma {:induction false} NoneNotDone(w: World, n: nat)
    requires Sized(w) && n <= |w.queues|
    ensures QueuesNotDone(w, n) == 0 <==> forall k | 0 <= k < n :: NotDone(w.queues[k], w.marks[k]) == 0
  {
    if n > 0 {
      NoneNotDone(w, n - 1);
    }
  }

  /** When queues_not_done is 0, no posting was lost, and of every queue that a sentinel was sent to and whose
      sentinel was not cleared, all has left that was ahead of the sentinel, whatever any thread did to any of
      the queues meanwhile. */
  lemma AllQueuesProcessed(w: World, steps: seq<Step>, e: World, k: nat)
    requires Starts(w) && ValidSteps(w, steps) && e == End(w, steps) && k < |e.queues|
    requires QueuesNotDone(e, |e.queues|) == 0
    ensures e.marks[k] != Lost
    ensures e.marks[k].Sent? && e.marks[k].sentinel !in e.queues[k].log.cleared ==>
              AllGone(e.queues[k], e.marks[k].ahead)
  {
    RunKeepsAll(w, steps);
    NoneNotDone(e, |e.queues|);
    assert MarkKept(e.queues[k], e.marks[k]) && NotDone(e.queues[k], e.marks[k]) == 0;
    if e.marks[k].Sent? {
      NoneHeldGone(e.queues[k], e.marks[k].sentinel, e.marks[k].ahead);
    }
  }

  /** A posting that was lost is never made good, so that the loop does not end. */
  lemma {:induction false} LostForEver(w: World, steps: seq<Step>, k: nat)
    requires Sized(w) && ValidSteps(w, steps) && k < |w.queues| && w.marks[k] == Lost
    ensures |End(w, steps).queues| == |w.queues| && End(w, steps).marks[k] == Lost
    ensures QueuesNotDone(End(w, steps), |w.queues|) > 0
  {
    if steps != [] {
      LostForEver(w, steps[..|steps| - 1], k);
    }
    NoneNotDone(End(w, steps), |w.queues|);
    assert NotDone(End(w, steps).queues[k], End(w, steps).marks[k]) == 1;
  }

  /** If it is a Clear that takes the sentinel out, then all that was ahead of it has left exactly if the Clear
      takes that out, too. */
  lemma ClearedSentinel(s: State, sentinel: Message, ahead: set<Message>, handler: nat, id: nat)
    requires Guarded(s, sentinel, ahead) && Match(sentinel, handler, id)
    ensures AllGone(Apply(s, Clear(handler, id)), ahead)
            <==> forall m | m in ahead && m in Held(s.q) :: Match(m, handler, id) && s.q.hand != Some(m)
  {
    var a := Clear(handler, id);
    StepKeepsGuard(s, a, sentinel, ahead);
    NoneHeldGone(Apply(s, a), sentinel, ahead);
    ClearApplied(s, handler, id);
    forall m | m in ahead
      ensures m !in Held(ApplyClear(s.q, handler, id))
              <==> (m in Held(s.q) ==> Match(m, handler, id) && s.q.hand != Some(m))
    {
      ClearTakes(s.q, handler, id, m);
    }
  }

  lemma ClearTakes(q: Queue, handler: nat, id: nat, m: Message)
    ensures m !in Held(ApplyClear(q, handler, id)) <==> (m in Held(q) ==> Match(m, handler, id) && q.hand != Some(m))
  {
    ClearExact(q, handler, id, m);
    HeldCount(q, m);
  }

  /** Clearing dispose messages lets the caller go on while a message is held that was posted before. */
  lemma ClearedTooSoon(m: Message, s: State, uid: nat, trigger: int)
    requires m.id != MQID_DISPOSE && uid != m.uid
    requires s == Apply(Init(), Post(m))
    ensures var w := World([s], [Asked]);
            && Allowed(w, Send(0, trigger, uid))
            && var w' := Next(Next(w, Send(0, trigger, uid)), Other(0, Clear(NO_HANDLER, MQID_DISPOSE)));
               QueuesNotDone(w', 1) == 0 && m in w'.marks[0].ahead && m in Held(w'.queues[0].q)
  {
    var t := Apply(s, DelayPost(0, trigger, Sentinel(uid)));
    OneAhead(m, s, uid, trigger);
    ClearTakesSentinel(t, m, Sentinel(uid));
    SentToOne(s, trigger, uid);
    ClearedOne(t, Sent(Sentinel(uid), Ahead(s.q, trigger)), NO_HANDLER, MQID_DISPOSE);
  }

  lemma OneAhead(m: Message, s: State, uid: nat, trigger: int)
    requires uid != m.uid && s == Apply(Init(), Post(m))
    ensures var send := DelayPost(0, trigger, Sentinel(uid));
            && !s.q.stop && Enabled(s, send) && m in Ahead(s.q, trigger)
            && m in Held(Apply(s, send).q) && Sentinel(uid) in Held(Apply(s, send).q)
  {
    assert s.q == Init().q.(msgq := [m]);
    PostHeld(Init(), Post(m));
    PostHeld(s, DelayPost(0, trigger, Sentinel(uid)));
  }

  lemma SentToOne(s: State, trigger: int, uid: nat)
    requires !s.q.stop && Enabled(s, DelayPost(0, trigger, Sentinel(uid)))
    ensures var w := World([s], [Asked]);
            && Allowed(w, Send(0, trigger, uid))
            && Next(w, Send(0, trigger, uid))
               == World([Apply(s, DelayPost(0, trigger, Sentinel(uid)))], [Sent(Sentinel(uid), Ahead(s.q, trigger))])
  {
  }

  lemma ClearedOne(s: State, mark: Mark, handler: nat, id: nat)
    ensures var s' := Apply(s, Clear(handler, id));
            && Next(World([s], [mark]), Other(0, Clear(handler, id))) == World([s'], [mark])
            && QueuesNotDone(World([s'], [mark]), 1) == NotDone(s', mark)
  {
  }

  lemma ClearTakesSentinel(s: State, m: Message, sentinel: Message)
    requires m in Held(s.q) && m.id != MQID_DISPOSE && sentinel in Held(s.q) && sentinel == Sentinel(sentinel.uid)
    requires s.q.hand == None
    ensures var s' := Apply(s, Clear(NO_HANDLER, MQID_DISPOSE)); m in Held(s'.q) && sentinel in s'.log.cleared
  {
    ClearApplied(s, NO_HANDLER, MQID_DISPOSE);
    ClearExact(s.q, NO_HANDLER, MQID_DISPOSE, m);
    ClearExact(s.q, NO_HANDLER, MQID_DISPOSE, sentinel);
  }
}
