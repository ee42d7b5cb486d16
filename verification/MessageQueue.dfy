/**
 The message queue (base/messagequeue.cc, base/messagequeue.h): a FIFO, a queue of delayed messages
 ordered by trigger time, a peek slot, clearing in place and a timed Get loop.

 MessageQueueSpec defines messages, their order and what the operations do to the queue as a value.
 MessageQueueRuns is the step system of all operations, by any threads, at the grain of the queue's
 lock.  MessageQueueImpl is the class itself.
 */
module MessageQueueSpec {

  datatype Option<+T> = None | Some(value: T)

  const MQID_ANY: nat := 0xFFFF_FFFF
  const MQID_DISPOSE: nat := 0xFFFF_FFFE
  const NO_HANDLER: nat := 0
  const FOREVER: int := -1

  /** `uid` is the identity of one posting; a real message has it in its data pointer. */
  datatype Message = Message(uid: nat, handler: nat, id: nat)

  predicate Match(m: Message, handler: nat, id: nat) {
    (handler == NO_HANDLER || handler == m.handler) && (id == MQID_ANY || id == m.id)
  }

  datatype Delayed = Delayed(delay: int, trigger: int, num: nat, msg: Message)

  /** DelayedMessage::operator<: what triggers sooner, or was posted earlier, is greater. */
  predicate Less(a: Delayed, b: Delayed) {
    b.trigger < a.trigger || (b.trigger == a.trigger && b.num < a.num)
  }

  /** std::priority_queue::top. */
  predicate IsTop(ds: seq<Delayed>, i: nat) {
    i < |ds| && forall j | 0 <= j < |ds| :: !Less(ds[i], ds[j])
  }

  function TopIndex(ds: seq<Delayed>): (i: nat)
    requires ds != []
    ensures IsTop(ds, i)
  {
    if |ds| == 1 then 0
    else
      var n := |ds| - 1;
      var i := TopIndex(ds[..n]);
      if Less(ds[i], ds[n]) then n else i
  }

  /** std::priority_queue::pop, for the element at i. */
  function Without<T>(s: seq<T>, i: nat): seq<T>
    requires i < |s|
  {
    s[..i] + s[i + 1..]
  }

  lemma WithoutMultiset<T>(s: seq<T>, i: nat)
    requires i < |s|
    ensures multiset(s) == multiset{s[i]} + multiset(Without(s, i))
  {
    assert s == s[..i] + [s[i]] + s[i + 1..];
  }

  function Msgs(ds: seq<Delayed>): (ms: seq<Message>)
    ensures |ms| == |ds| && forall i | 0 <= i < |ds| :: ms[i] == ds[i].msg
  {
    if ds == [] then [] else Msgs(ds[..|ds| - 1]) + [ds[|ds| - 1].msg]
  }

  /** The messages that do not match, in their order. */
  function Survivors(ms: seq<Message>, handler: nat, id: nat): seq<Message> {
    if ms == [] then []
    else
      var n := |ms| - 1;
      Survivors(ms[..n], handler, id) + (if Match(ms[n], handler, id) then [] else [ms[n]])
  }

  /** The messages that match, in their order. */
  function Matching(ms: seq<Message>, handler: nat, id: nat): seq<Message> {
    if ms == [] then []
    else
      var n := |ms| - 1;
      Matching(ms[..n], handler, id) + (if Match(ms[n], handler, id) then [ms[n]] else [])
  }

  function DelayedSurvivors(ds: seq<Delayed>, handler: nat, id: nat): seq<Delayed> {
    if ds == [] then []
    else
      var n := |ds| - 1;
      DelayedSurvivors(ds[..n], handler, id) + (if Match(ds[n].msg, handler, id) then [] else [ds[n]])
  }

  lemma Erase<T>(a: seq<T>, x: T, b: seq<T>)
    ensures Without(a + ([x] + b), |a|) == a + b
    ensures (a + [x]) + b == a + ([x] + b)
  {
  }

  lemma SurvivorsSnoc(ms: seq<Message>, m: Message, handler: nat, id: nat)
    ensures Survivors(ms + [m], handler, id)
         == if Match(m, handler, id) then Survivors(ms, handler, id) else Survivors(ms, handler, id) + [m]
    ensures Matching(ms + [m], handler, id)
         == if Match(m, handler, id) then Matching(ms, handler, id) + [m] else Matching(ms, handler, id)
  {
    assert (ms + [m])[..|ms|] == ms;
  }

  lemma DelayedSurvivorsSnoc(ds: seq<Delayed>, d: Delayed, handler: nat, id: nat)
    ensures DelayedSurvivors(ds + [d], handler, id)
         == if Match(d.msg, handler, id) then DelayedSurvivors(ds, handler, id)
            else DelayedSurvivors(ds, handler, id) + [d]
  {
    assert (ds + [d])[..|ds|] == ds;
  }

  lemma CountSnoc(ms: seq<Message>, x: Message, m: Message)
    ensures multiset(ms + [x])[m] == multiset(ms)[m] + (if x == m then 1 else 0)
  {
    assert multiset(ms + [x]) == multiset(ms) + multiset{x};
  }

  /** Survivors keep every copy of what does not match and no copy of what does. */
  lemma {:induction false} SurvivorsCount(ms: seq<Message>, handler: nat, id: nat, m: Message)
    ensures multiset(Survivors(ms, handler, id))[m] == if Match(m, handler, id) then 0 else multiset(ms)[m]
  {
    if ms != [] {
      var n := |ms| - 1;
      SurvivorsCount(ms[..n], handler, id, m);
      CountsSnoc(ms[..n], ms[n], ms, handler, id, m);
    }
  }

  lemma {:induction false} MatchingCount(ms: seq<Message>, handler: nat, id: nat, m: Message)
    ensures multiset(Matching(ms, handler, id))[m] == if Match(m, handler, id) then multiset(ms)[m] else 0
  {
    if ms != [] {
      var n := |ms| - 1;
      MatchingCount(ms[..n], handler, id, m);
      CountsSnoc(ms[..n], ms[n], ms, handler, id, m);
    }
  }

  lemma CountsSnoc(ms: seq<Message>, x: Message, whole: seq<Message>, handler: nat, id: nat, m: Message)
    requires whole == ms + [x]
    ensures var one := if x == m then 1 else 0;
            && multiset(whole)[m] == multiset(ms)[m] + one
            && multiset(Survivors(whole, handler, id))[m]
               == multiset(Survivors(ms, handler, id))[m] + (if Match(m, handler, id) then 0 else one)
            && multiset(Matching(whole, handler, id))[m]
               == multiset(Matching(ms, handler, id))[m] + (if Match(m, handler, id) then one else 0)
  {
    SurvivorsSnoc(ms, x, handler, id);
    CountSnoc(ms, x, m);
    CountSnoc(Survivors(ms, handler, id), x, m);
    CountSnoc(Matching(ms, handler, id), x, m);
  }

  // ---------------------------------------------------------------- what is ready

  /** The delayed messages triggered by `now`, in the order in which Get takes them, and the rest. */
  function Drain(ds: seq<Delayed>, now: int): (seq<Delayed>, seq<Delayed>)
    decreases |ds|
  {
    if ds == [] then ([], [])
    else
      var i := TopIndex(ds);
      if now < ds[i].trigger then ([], ds)
      else
        var (ready, rest) := Drain(Without(ds, i), now);
        ([ds[i]] + ready, rest)
  }

  lemma {:induction false} DrainKeepsAll(ds: seq<Delayed>, now: int)
    ensures multiset(Drain(ds, now).0) + multiset(Drain(ds, now).1) == multiset(ds)
    decreases |ds|
  {
    if ds != [] && ds[TopIndex(ds)].trigger <= now {
      var i := TopIndex(ds);
      DrainKeepsAll(Without(ds, i), now);
      WithoutMultiset(ds, i);
      ConsMultiset(ds[i], Drain(Without(ds, i), now).0);
    }
  }

  lemma ConsMultiset(d: Delayed, ds: seq<Delayed>)
    ensures multiset([d] + ds) == multiset{d} + multiset(ds)
  {
  }

  lemma {:induction false} DrainByTime(ds: seq<Delayed>, now: int)
    ensures forall d | d in Drain(ds, now).0 :: d.trigger <= now
    ensures forall d | d in Drain(ds, now).1 :: now < d.trigger
    decreases |ds|
  {
    if ds != [] {
      var i := TopIndex(ds);
      if now < ds[i].trigger {
        assert forall d | d in ds :: !Less(ds[i], d);
      } else {
        DrainByTime(Without(ds, i), now);
      }
    }
  }

  lemma DrainedWasThere(ds: seq<Delayed>, now: int, d: Delayed)
    requires d in Drain(ds, now).0 || d in Drain(ds, now).1
    ensures d in ds
  {
    DrainKeepsAll(ds, now);
    assert d in multiset(Drain(ds, now).0) + multiset(Drain(ds, now).1);
  }

  ghost predicate InOrder(ready: seq<Delayed>) {
    forall a, b | 0 <= a < b < |ready| :: !Less(ready[a], ready[b])
  }

  lemma {:induction false} DrainInOrder(ds: seq<Delayed>, now: int)
    ensures InOrder(Drain(ds, now).0)
    decreases |ds|
  {
    if ds != [] && ds[TopIndex(ds)].trigger <= now {
      var i := TopIndex(ds);
      var ready := Drain(Without(ds, i), now).0;
      DrainInOrder(Without(ds, i), now);
      forall b | 0 <= b < |ready|
        ensures !Less(ds[i], ready[b])
      {
        DrainedWasThere(Without(ds, i), now, ready[b]);
      }
    }
  }

  /** Get takes exactly the triggered messages, soonest trigger first and equal triggers in the order
      they were posted; nothing is taken before its time. */
  lemma DrainIsReadyInOrder(ds: seq<Delayed>, now: int)
    ensures var (ready, rest) := Drain(ds, now);
            && multiset(ready) + multiset(rest) == multiset(ds)
            && (forall d | d in ready :: d.trigger <= now)
            && (forall d | d in rest :: now < d.trigger)
            && InOrder(ready)
  {
    DrainKeepsAll(ds, now);
    DrainByTime(ds, now);
    DrainInOrder(ds, now);
  }

  /** The number of dispose messages at the front. */
  function Disposable(line: seq<Message>): (k: nat)
    ensures k <= |line|
    ensures forall i | 0 <= i < k :: line[i].id == MQID_DISPOSE
    ensures k < |line| ==> line[k].id != MQID_DISPOSE
  {
    if line == [] || line[0].id != MQID_DISPOSE then 0 else 1 + Disposable(line[1..])
  }
}

/** Runs of the queue: any threads post, clear, quit and restart; one thread gets and peeks. */
module MessageQueueRuns {
  import opened MessageQueueSpec

  /** `hand` is a message Peek has pulled from the queue and not yet put in the peek slot. */
  datatype Queue = Queue(
    peek: Option<Message>, hand: Option<Message>, msgq: seq<Message>, dmsgq: seq<Delayed>, nextNum: nat, stop: bool)

  /** Where messages went that the queue no longer holds. */
  datatype Log = Log(
    accepted: multiset<Message>, returned: multiset<Message>, disposed: multiset<Message>, cleared: multiset<Message>)

  datatype State = State(q: Queue, log: Log)

  datatype Action =
    | Post(m: Message)
    | DelayPost(delay: int, trigger: int, m: Message)
    | Transfer(now: int)          // Get moves the top delayed message, which has triggered
    | Pull(forPeek: bool)         // Get takes the front of msgq_, for its caller or for Peek
    | Stash                       // Peek puts what it pulled in the slot
    | TakePeek                    // Get returns the peek slot
    | Clear(handler: nat, id: nat)
    | Quit
    | Restart

  const WRAP: nat := 0x1_0000_0000

  /** Incrementing dmsgq_next_num_. */
  function NumAfter(num: nat): nat {
    (num + 1) % WRAP
  }

  function Init(): State {
    State(Queue(None, None, [], [], 0, false), Log(multiset{}, multiset{}, multiset{}, multiset{}))
  }

  predicate NewUid(log: Log, m: Message) {
    forall a | a in log.accepted :: a.uid != m.uid
  }

  /** What the step needs to find in the queue. */
  predicate Possible(s: State, a: Action) {
    match a
    case Transfer(now) => s.q.dmsgq != [] && s.q.dmsgq[TopIndex(s.q.dmsgq)].trigger <= now
    case Pull(_) => s.q.peek == None && s.q.hand == None && s.q.msgq != []
    case Stash => s.q.hand.Some? && s.q.peek == None
    case TakePeek => s.q.peek.Some? && s.q.hand == None
    case _ => true
  }

  /** Every posting has its own identity, and the RTC_DCHECK that dmsgq_next_num_ does not wrap holds. */
  predicate Enabled(s: State, a: Action) {
    && Possible(s, a)
    && match a
       case Post(m) => NewUid(s.log, m)
       case DelayPost(_, _, m) => NewUid(s.log, m) && NumAfter(s.q.nextNum) != 0 && s.q.nextNum < WRAP
       case _ => true
  }

  function Bag(o: Option<Message>): multiset<Message> {
    if o.Some? then multiset{o.value} else multiset{}
  }

  function ClearSlot(o: Option<Message>, handler: nat, id: nat): Option<Message> {
    if o.Some? && Match(o.value, handler, id) then None else o
  }

  function ApplyClear(q: Queue, handler: nat, id: nat): Queue {
    q.(peek := ClearSlot(q.peek, handler, id), msgq := Survivors(q.msgq, handler, id),
       dmsgq := DelayedSurvivors(q.dmsgq, handler, id))
  }

  /** The messages the queue holds. */
  function Held(q: Queue): multiset<Message> {
    Bag(q.peek) + Bag(q.hand) + multiset(q.msgq) + multiset(Msgs(q.dmsgq))
  }

  function Apply(s: State, a: Action): State
    requires Possible(s, a)
  {
    var q, log := s.q, s.log;
    match a
    case Post(m) =>
      if q.stop then s
      else State(q.(msgq := q.msgq + [m]), log.(accepted := log.accepted + multiset{m}))
    case DelayPost(delay, trigger, m) =>
      if q.stop then s
      else State(q.(dmsgq := q.dmsgq + [Delayed(delay, trigger, q.nextNum, m)], nextNum := NumAfter(q.nextNum)),
                 log.(accepted := log.accepted + multiset{m}))
    case Transfer(_) =>
      var i := TopIndex(q.dmsgq);
      State(q.(msgq := q.msgq + [q.dmsgq[i].msg], dmsgq := Without(q.dmsgq, i)), log)
    case Pull(forPeek) =>
      var m, q' := q.msgq[0], q.(msgq := q.msgq[1..]);
      if m.id == MQID_DISPOSE then State(q', log.(disposed := log.disposed + multiset{m}))
      else if forPeek then State(q'.(hand := Some(m)), log)
      else State(q', log.(returned := log.returned + multiset{m}))
    case Stash => State(q.(peek := q.hand, hand := None), log)
    case TakePeek => State(q.(peek := None), log.(returned := log.returned + multiset{q.peek.value}))
    case Clear(handler, id) =>
      var q' := ApplyClear(q, handler, id);
      State(q', log.(cleared := log.cleared + (Held(q) - Held(q'))))
    case Quit => State(q.(stop := true), log)
    case Restart => State(q.(stop := false), log)
  }

  predicate ValidRun(s: State, acts: seq<Action>)
    decreases |acts|, 0
  {
    acts == []
    || (ValidRun(s, acts[..|acts| - 1]) && Enabled(After(s, acts[..|acts| - 1]), acts[|acts| - 1]))
  }

  function After(s: State, acts: seq<Action>): State
    requires ValidRun(s, acts)
    decreases |acts|, 1
  {
    if acts == [] then s else Apply(After(s, acts[..|acts| - 1]), acts[|acts| - 1])
  }

  ghost predicate Reachable(s: State) {
    exists acts: seq<Action> :: ValidRun(Init(), acts) && After(Init(), acts) == s
  }

  lemma ReachableStep(s: State, a: Action)
    requires Reachable(s) && Enabled(s, a)
    ensures Reachable(Apply(s, a))
  {
    var acts: seq<Action> :| ValidRun(Init(), acts) && After(Init(), acts) == s;
    var acts' := acts + [a];
    assert acts'[..|acts'| - 1] == acts;
    assert ValidRun(Init(), acts') && After(Init(), acts') == Apply(s, a);
  }

  /** `s'` is `s` after this step; if the step keeps the rules, it keeps to the states that can be reached. */
  ghost predicate Follows(s: State, s': State, a: Action) {
    Possible(s, a) && s' == Apply(s, a) && (Reachable(s) && Enabled(s, a) ==> Reachable(s'))
  }

  lemma StepFollows(s: State, s': State, a: Action)
    requires Possible(s, a) && s' == Apply(s, a)
    ensures Follows(s, s', a)
  {
    if Reachable(s) && Enabled(s, a) {
      ReachableStep(s, a);
    }
  }

  // ---------------------------------------------------------------- conservation

  function Total(log: Log, held: multiset<Message>): multiset<Message> {
    held + log.returned + log.disposed + log.cleared
  }

  /** Every accepted message is in one place. */
  ghost predicate Balanced(s: State) {
    s.log.accepted == Total(s.log, Held(s.q))
  }

  ghost predicate AcceptedOnce(log: Log) {
    forall m | m in log.accepted :: log.accepted[m] == 1
  }

  ghost predicate NumsBelow(q: Queue) {
    q.nextNum < WRAP && forall d | d in q.dmsgq :: d.num < q.nextNum
  }

  /** No two delayed messages have the same number. */
  ghost predicate NumsDistinct(ds: seq<Delayed>) {
    forall i, j | 0 <= i < j < |ds| :: ds[i].num != ds[j].num
  }

  ghost predicate Conserved(s: State) {
    Balanced(s) && AcceptedOnce(s.log) && NumsBelow(s.q) && NumsDistinct(s.q.dmsgq)
  }

  lemma MsgsSnoc(ds: seq<Delayed>, d: Delayed)
    ensures Msgs(ds + [d]) == Msgs(ds) + [d.msg]
  {
    assert (ds + [d])[..|ds|] == ds;
  }

  lemma {:induction false} MsgsCons(d: Delayed, ds: seq<Delayed>)
    ensures Msgs([d] + ds) == [d.msg] + Msgs(ds)
  {
    var ms := Msgs([d] + ds);
    forall i | 0 <= i < |ms|
      ensures ms[i] == ([d.msg] + Msgs(ds))[i]
    {
      assert ms[i] == ([d] + ds)[i].msg;
    }
  }

  lemma {:induction false} MsgsWithout(ds: seq<Delayed>, i: nat)
    requires i < |ds|
    ensures multiset(Msgs(ds)) == multiset{ds[i].msg} + multiset(Msgs(Without(ds, i)))
  {
    var ms, ws := Msgs(ds), Msgs(Without(ds, i));
    assert |ws| == |ms| - 1;
    forall k | 0 <= k < |ws|
      ensures ws[k] == Without(ms, i)[k]
    {
      assert Without(ds, i)[k] == ds[if k < i then k else k + 1];
    }
    assert ws == Without(ms, i);
    WithoutMultiset(ms, i);
  }

  lemma {:induction false} DelayedSurvivorsMsgs(ds: seq<Delayed>, handler: nat, id: nat)
    ensures Msgs(DelayedSurvivors(ds, handler, id)) == Survivors(Msgs(ds), handler, id)
  {
    if ds != [] {
      var n := |ds| - 1;
      var kept := DelayedSurvivors(ds[..n], handler, id);
      DelayedSurvivorsMsgs(ds[..n], handler, id);
      MsgsSnoc(kept, ds[n]);
      SurvivorsSnoc(Msgs(ds[..n]), ds[n].msg, handler, id);
    }
  }

  lemma DelayedSurvivorsCount(ds: seq<Delayed>, handler: nat, id: nat, m: Message)
    ensures multiset(Msgs(DelayedSurvivors(ds, handler, id)))[m]
         == if Match(m, handler, id) then 0 else multiset(Msgs(ds))[m]
  {
    DelayedSurvivorsMsgs(ds, handler, id);
    SurvivorsCount(Msgs(ds), handler, id, m);
  }

  /** Clearing removes exactly the matching messages, but for one that Peek has in hand. */
  lemma ClearExact(q: Queue, handler: nat, id: nat, m: Message)
    ensures Held(ApplyClear(q, handler, id))[m] == if Match(m, handler, id) then Bag(q.hand)[m] else Held(q)[m]
  {
    SurvivorsCount(q.msgq, handler, id, m);
    DelayedSurvivorsCount(q.dmsgq, handler, id, m);
    HeldCount(q, m);
    HeldCount(ApplyClear(q, handler, id), m);
  }

  lemma HeldCount(q: Queue, m: Message)
    ensures Held(q)[m] == Bag(q.peek)[m] + Bag(q.hand)[m] + multiset(q.msgq)[m] + multiset(Msgs(q.dmsgq))[m]
  {
  }

  lemma ClearKeepsHeld(q: Queue, handler: nat, id: nat)
    ensures Held(ApplyClear(q, handler, id)) <= Held(q)
  {
    forall m
      ensures Held(ApplyClear(q, handler, id))[m] <= Held(q)[m]
    {
      ClearExact(q, handler, id, m);
    }
  }

  lemma {:induction false} SurvivorsAreThere(ms: seq<Message>, handler: nat, id: nat)
    ensures forall m | m in Survivors(ms, handler, id) :: m in ms
  {
    if ms != [] {
      SurvivorsAreThere(ms[..|ms| - 1], handler, id);
    }
  }

  lemma {:induction false} DelayedSurvivorsAreThere(ds: seq<Delayed>, handler: nat, id: nat)
    ensures forall d | d in DelayedSurvivors(ds, handler, id) :: d in ds
  {
    if ds != [] {
      DelayedSurvivorsAreThere(ds[..|ds| - 1], handler, id);
    }
  }

  /** Posting adds the message to what is held. */
  lemma HeldPost(q: Queue, m: Message, d: Delayed, nextNum: nat)
    requires d.msg == m
    ensures Held(q.(msgq := q.msgq + [m])) == Held(q) + multiset{m}
    ensures Held(q.(dmsgq := q.dmsgq + [d], nextNum := nextNum)) == Held(q) + multiset{m}
  {
    MsgsSnoc(q.dmsgq, d);
  }

  lemma PostHeld(s: State, a: Action)
    requires a.Post? || a.DelayPost?
    ensures Held(Apply(s, a).q) == Held(s.q) + if s.q.stop then multiset{} else multiset{a.m}
  {
    if a.Post? {
      HeldPost(s.q, a.m, Delayed(0, 0, 0, a.m), 0);
    } else {
      HeldPost(s.q, a.m, Delayed(a.delay, a.trigger, s.q.nextNum, a.m), NumAfter(s.q.nextNum));
    }
  }

  lemma HeldTransfer(q: Queue, i: nat)
    requires i < |q.dmsgq|
    ensures Held(q.(msgq := q.msgq + [q.dmsgq[i].msg], dmsgq := Without(q.dmsgq, i))) == Held(q)
  {
    MsgsWithout(q.dmsgq, i);
  }

  lemma HeldPull(q: Queue)
    requires q.msgq != [] && q.hand == None
    ensures Held(q) == Held(q.(msgq := q.msgq[1..])) + multiset{q.msgq[0]}
    ensures Held(q) == Held(q.(msgq := q.msgq[1..], hand := Some(q.msgq[0])))
  {
    assert q.msgq == [q.msgq[0]] + q.msgq[1..];
  }

  /** Moving messages from one place to another keeps the balance. */
  lemma Moved(log: Log, held: multiset<Message>, held': multiset<Message>, x: multiset<Message>)
    requires held == held' + x
    ensures Total(log.(returned := log.returned + x), held') == Total(log, held)
    ensures Total(log.(disposed := log.disposed + x), held') == Total(log, held)
    ensures Total(log.(cleared := log.cleared + x), held') == Total(log, held)
  {
  }

  lemma PostBalances(s: State, a: Action)
    requires Balanced(s) && Enabled(s, a) && (a.Post? || a.DelayPost?)
    ensures Balanced(Apply(s, a))
  {
    PostHeld(s, a);
    assert Total(s.log, Held(s.q) + multiset{a.m}) == Total(s.log, Held(s.q)) + multiset{a.m};
  }

  lemma PullBalances(s: State, a: Action)
    requires Balanced(s) && Enabled(s, a) && a.Pull?
    ensures Balanced(Apply(s, a))
  {
    var m, q' := s.q.msgq[0], s.q.(msgq := s.q.msgq[1..]);
    HeldPull(s.q);
    if m.id == MQID_DISPOSE || !a.forPeek {
      Moved(s.log, Held(s.q), Held(q'), multiset{m});
      assert Apply(s, a).q == q';
    } else {
      assert Apply(s, a) == State(q'.(hand := Some(m)), s.log);
    }
  }

  lemma PeekBalances(s: State, a: Action)
    requires Balanced(s) && Enabled(s, a) && (a.Stash? || a.TakePeek?)
    ensures Balanced(Apply(s, a))
  {
    var q := s.q;
    if a.Stash? {
      assert Held(q.(peek := q.hand, hand := None)) == Held(q);
    } else {
      assert Held(q) == Held(q.(peek := None)) + multiset{q.peek.value};
      Moved(s.log, Held(q), Held(q.(peek := None)), multiset{q.peek.value});
    }
  }

  lemma ClearedLog(log: Log, held: multiset<Message>, held': multiset<Message>)
    requires log.accepted == Total(log, held) && held' <= held
    ensures log.accepted == Total(log.(cleared := log.cleared + (held - held')), held')
  {
    Moved(log, held, held', held - held');
  }

  lemma ClearBalances(s: State, a: Action)
    requires Balanced(s) && Enabled(s, a) && a.Clear?
    ensures Balanced(Apply(s, a))
  {
    var q' := ApplyClear(s.q, a.handler, a.id);
    ClearKeepsHeld(s.q, a.handler, a.id);
    ClearedLog(s.log, Held(s.q), Held(q'));
    assert Apply(s, a) == State(q', s.log.(cleared := s.log.cleared + (Held(s.q) - Held(q'))));
  }

  lemma StepBalances(s: State, a: Action)
    requires Balanced(s) && Enabled(s, a)
    ensures Balanced(Apply(s, a))
  {
    match a
    case Post(_) => PostBalances(s, a);
    case DelayPost(_, _, _) => PostBalances(s, a);
    case Transfer(_) => HeldTransfer(s.q, TopIndex(s.q.dmsgq));
    case Pull(_) => PullBalances(s, a);
    case Stash => PeekBalances(s, a);
    case TakePeek => PeekBalances(s, a);
    case Clear(_, _) => ClearBalances(s, a);
    case Quit => assert Held(s.q.(stop := true)) == Held(s.q);
    case Restart => assert Held(s.q.(stop := false)) == Held(s.q);
  }

  lemma StepKeepsOrder(s: State, a: Action)
    requires AcceptedOnce(s.log) && NumsBelow(s.q) && Enabled(s, a)
    ensures AcceptedOnce(Apply(s, a).log) && NumsBelow(Apply(s, a).q)
  {
    match a
    case Post(_) => PostKeepsOrder(s, a);
    case DelayPost(_, _, _) => PostKeepsOrder(s, a);
    case Clear(_, _) => ClearKeepsOrder(s, a);
    case _ =>
  }

  lemma PostKeepsOrder(s: State, a: Action)
    requires AcceptedOnce(s.log) && NumsBelow(s.q) && Enabled(s, a) && (a.Post? || a.DelayPost?)
    ensures AcceptedOnce(Apply(s, a).log) && NumsBelow(Apply(s, a).q)
  {
    assert a.m !in s.log.accepted;
  }

  lemma ClearKeepsOrder(s: State, a: Action)
    requires AcceptedOnce(s.log) && NumsBelow(s.q) && a.Clear?
    ensures AcceptedOnce(Apply(s, a).log) && NumsBelow(Apply(s, a).q)
  {
    DelayedSurvivorsAreThere(s.q.dmsgq, a.handler, a.id);
  }

  lemma {:induction false} SurvivorsDistinct(ds: seq<Delayed>, handler: nat, id: nat)
    requires NumsDistinct(ds)
    ensures NumsDistinct(DelayedSurvivors(ds, handler, id))
  {
    if ds != [] {
      var n := |ds| - 1;
      var kept := DelayedSurvivors(ds[..n], handler, id);
      SurvivorsDistinct(ds[..n], handler, id);
      DelayedSurvivorsAreThere(ds[..n], handler, id);
      forall k | 0 <= k < |kept|
        ensures kept[k].num != ds[n].num
      {
        assert kept[k] in ds[..n];
      }
    }
  }

  lemma WithoutDistinct(ds: seq<Delayed>, i: nat)
    requires NumsDistinct(ds) && i < |ds|
    ensures NumsDistinct(Without(ds, i))
  {
  }

  lemma StepKeepsDistinct(s: State, a: Action)
    requires NumsBelow(s.q) && NumsDistinct(s.q.dmsgq) && Enabled(s, a)
    ensures NumsDistinct(Apply(s, a).q.dmsgq)
  {
    match a
    case Transfer(_) => WithoutDistinct(s.q.dmsgq, TopIndex(s.q.dmsgq));
    case Clear(handler, id) => SurvivorsDistinct(s.q.dmsgq, handler, id);
    case _ =>
  }

  lemma StepConserves(s: State, a: Action)
    requires Conserved(s) && Enabled(s, a)
    ensures Conserved(Apply(s, a))
  {
    StepBalances(s, a);
    StepKeepsOrder(s, a);
    StepKeepsDistinct(s, a);
  }

  lemma {:induction false} RunConserves(s: State, acts: seq<Action>)
    requires Conserved(s) && ValidRun(s, acts)
    ensures Conserved(After(s, acts))
  {
    if acts != [] {
      RunConserves(s, acts[..|acts| - 1]);
      StepConserves(After(s, acts[..|acts| - 1]), acts[|acts| - 1]);
    }
  }

  /** In every run each accepted message is, once, in the peek slot or on its way there, in msgq_, in
      dmsgq_, or returned, disposed of or cleared. */
  lemma Conservation(s: State)
    requires Reachable(s)
    ensures s.log.accepted == Held(s.q) + s.log.returned + s.log.disposed + s.log.cleared
    ensures forall m | m in s.log.accepted :: s.log.accepted[m] == 1
  {
    ReachableConserved(s);
  }

  lemma ReachableConserved(s: State)
    requires Reachable(s)
    ensures Conserved(s)
  {
    var acts :| ValidRun(Init(), acts) && After(Init(), acts) == s;
    assert Held(Init().q) == multiset{};
    RunConserves(Init(), acts);
  }

  // ---------------------------------------------------------------- the barrier

  ghost predicate TriggersBy(q: Queue, trigger: int, m: Message) {
    exists d :: d in q.dmsgq && d.trigger <= trigger && d.msg == m
  }

  /** What a sentinel posted now with this trigger has to wait for: whatever is in the peek slot, on its
      way there or in msgq_, and what is delayed no longer than the sentinel. */
  ghost function Ahead(q: Queue, trigger: int): set<Message> {
    set m | m in Held(q) && (q.peek == Some(m) || q.hand == Some(m) || m in q.msgq || TriggersBy(q, trigger, m))
  }

  /** No message of `ahead` comes after the sentinel in the line. */
  ghost predicate NoneAfter(line: seq<Message>, sentinel: Message, ahead: set<Message>) {
    forall k, j | 0 <= k < j < |line| && line[k] == sentinel :: line[j] !in ahead
  }

  /** The message has left the queue. */
  ghost predicate Gone(s: State, m: Message) {
    m !in Held(s.q) && (m in s.log.returned || m in s.log.disposed || m in s.log.cleared)
  }

  ghost predicate AllGone(s: State, ms: set<Message>) {
    forall m | m in ms :: Gone(s, m)
  }

  /** What keeps the messages of `ahead` ahead of the sentinel. */
  ghost predicate BarrierHolds(s: State, sentinel: Message, ahead: set<Message>) {
    && sentinel in s.log.accepted && (forall m | m in ahead :: m in s.log.accepted)
    && (forall d, e | d in s.q.dmsgq && e in s.q.dmsgq && e.msg == sentinel && d.msg in ahead :: Less(e, d))
    && NoneAfter(s.q.msgq, sentinel, ahead)
    && (sentinel in s.q.msgq ==> forall d | d in s.q.dmsgq :: d.msg !in ahead)
  }

  lemma {:induction false} NoneAfterClear(line: seq<Message>, handler: nat, id: nat,
                                          sentinel: Message, ahead: set<Message>)
    requires NoneAfter(line, sentinel, ahead)
    ensures NoneAfter(Survivors(line, handler, id), sentinel, ahead)
  {
    if line != [] {
      var n := |line| - 1;
      NoneAfterClear(line[..n], handler, id, sentinel, ahead);
      SurvivorsAreThere(line[..n], handler, id);
      if line[n] in ahead {
        assert sentinel !in line[..n];
      }
    }
  }

  lemma TransferKeepsBarrier(s: State, a: Action, sentinel: Message, ahead: set<Message>)
    requires BarrierHolds(s, sentinel, ahead) && Enabled(s, a) && a.Transfer? && sentinel !in ahead
    ensures BarrierHolds(Apply(s, a), sentinel, ahead)
  {
    var i := TopIndex(s.q.dmsgq);
    var d := s.q.dmsgq[i];
    assert forall e | e in Without(s.q.dmsgq, i) :: e in s.q.dmsgq;
    if d.msg == sentinel {
      forall e | e in s.q.dmsgq
        ensures e.msg !in ahead
      {
        assert !Less(d, e);
      }
    }
  }

  lemma ClearKeepsBarrier(s: State, a: Action, sentinel: Message, ahead: set<Message>)
    requires BarrierHolds(s, sentinel, ahead) && Enabled(s, a) && a.Clear?
    ensures BarrierHolds(Apply(s, a), sentinel, ahead)
  {
    SurvivorsAreThere(s.q.msgq, a.handler, a.id);
    DelayedSurvivorsAreThere(s.q.dmsgq, a.handler, a.id);
    NoneAfterClear(s.q.msgq, a.handler, a.id, sentinel, ahead);
  }

  lemma StepKeepsBarrier(s: State, a: Action, sentinel: Message, ahead: set<Message>)
    requires BarrierHolds(s, sentinel, ahead) && Enabled(s, a) && sentinel !in ahead
    ensures BarrierHolds(Apply(s, a), sentinel, ahead)
  {
    match a
    case Post(_) => PostKeepsBarrier(s, a, sentinel, ahead);
    case DelayPost(_, _, _) => DelayPostKeepsBarrier(s, a, sentinel, ahead);
    case Transfer(_) => TransferKeepsBarrier(s, a, sentinel, ahead);
    case Clear(_, _) => ClearKeepsBarrier(s, a, sentinel, ahead);
    case Pull(_) => PullKeepsBarrier(s, a, sentinel, ahead);
    case _ =>
  }

  lemma PostKeepsBarrier(s: State, a: Action, sentinel: Message, ahead: set<Message>)
    requires BarrierHolds(s, sentinel, ahead) && Enabled(s, a) && a.Post?
    ensures BarrierHolds(Apply(s, a), sentinel, ahead)
  {
    assert a.m != sentinel && a.m !in ahead;
  }

  lemma DelayPostKeepsBarrier(s: State, a: Action, sentinel: Message, ahead: set<Message>)
    requires BarrierHolds(s, sentinel, ahead) && Enabled(s, a) && a.DelayPost?
    ensures BarrierHolds(Apply(s, a), sentinel, ahead)
  {
    assert a.m != sentinel && a.m !in ahead;
  }

  lemma PullKeepsBarrier(s: State, a: Action, sentinel: Message, ahead: set<Message>)
    requires BarrierHolds(s, sentinel, ahead) && Enabled(s, a) && a.Pull?
    ensures BarrierHolds(Apply(s, a), sentinel, ahead)
  {
    assert forall k | 0 <= k < |s.q.msgq| - 1 :: s.q.msgq[1..][k] == s.q.msgq[k + 1];
  }

  /** Nowhere in the queue, or in one place. */
  ghost predicate Sole(q: Queue, m: Message) {
    Bag(q.peek)[m] + Bag(q.hand)[m] + multiset(q.msgq)[m] + multiset(Msgs(q.dmsgq))[m] <= 1
  }

  lemma ConservedSole(s: State, m: Message)
    requires Conserved(s)
    ensures Sole(s.q, m)
    ensures m in Held(s.q) ==> m in s.log.accepted
  {
    assert Held(s.q)[m] <= s.log.accepted[m];
  }

  lemma {:induction false} CountTwice(ms: seq<Message>, i: nat, j: nat)
    requires i < j < |ms| && ms[i] == ms[j]
    ensures multiset(ms)[ms[i]] >= 2
  {
    WithoutMultiset(ms, i);
    assert Without(ms, i)[j - 1] == ms[j];
  }

  lemma {:induction false} DelayedTwice(ds: seq<Delayed>, i: nat, j: nat)
    requires i < j < |ds| && ds[i].msg == ds[j].msg
    ensures multiset(Msgs(ds))[ds[i].msg] >= 2
  {
    CountTwice(Msgs(ds), i, j);
  }

  lemma OnlyDelayed(q: Queue, i: nat)
    requires i < |q.dmsgq| && Sole(q, q.dmsgq[i].msg)
    ensures var m := q.dmsgq[i].msg; q.peek != Some(m) && q.hand != Some(m) && m !in q.msgq
  {
    var m := q.dmsgq[i].msg;
    assert Msgs(q.dmsgq)[i] == m;
    assert m in multiset(Msgs(q.dmsgq));
    assert m in q.msgq ==> m in multiset(q.msgq);
  }

  /** A delayed message that a sentinel waits for is delayed no longer than the sentinel. */
  lemma DelayedElsewhere(q: Queue, i: nat, trigger: int)
    requires i < |q.dmsgq| && q.dmsgq[i].msg in Ahead(q, trigger) && Sole(q, q.dmsgq[i].msg)
    ensures q.dmsgq[i].trigger <= trigger
  {
    OnlyDelayed(q, i);
    var d :| d in q.dmsgq && d.trigger <= trigger && d.msg == q.dmsgq[i].msg;
    var j :| 0 <= j < |q.dmsgq| && q.dmsgq[j] == d;
    if i != j {
      DelayedOnce(q, i, j);
    }
  }

  lemma DelayedOnce(q: Queue, i: nat, j: nat)
    requires i < |q.dmsgq| && j < |q.dmsgq| && i != j && q.dmsgq[i].msg == q.dmsgq[j].msg
    ensures !Sole(q, q.dmsgq[i].msg)
  {
    DelayedTwice(q.dmsgq, if i < j then i else j, if i < j then j else i);
  }

  lemma DelayedHeld(q: Queue, d: Delayed)
    requires d in q.dmsgq
    ensures d.msg in Held(q)
  {
    var i :| 0 <= i < |q.dmsgq| && q.dmsgq[i] == d;
    assert Msgs(q.dmsgq)[i] == d.msg;
    assert d.msg in multiset(Msgs(q.dmsgq));
  }

  lemma AheadTriggers(s: State, trigger: int)
    requires Conserved(s)
    ensures forall d | d in s.q.dmsgq && d.msg in Ahead(s.q, trigger) :: d.trigger <= trigger
  {
    forall d | d in s.q.dmsgq && d.msg in Ahead(s.q, trigger)
      ensures d.trigger <= trigger
    {
      var i :| 0 <= i < |s.q.dmsgq| && s.q.dmsgq[i] == d;
      ConservedSole(s, d.msg);
      DelayedElsewhere(s.q, i, trigger);
    }
  }

  /** The step that posts the sentinel, for a queue whose messages are not it. */
  lemma BarrierStarts(s: State, delay: int, trigger: int, sentinel: Message, ahead: set<Message>)
    requires NumsBelow(s.q) && !s.q.stop && Enabled(s, DelayPost(delay, trigger, sentinel))
    requires sentinel !in s.q.msgq && forall m | m in ahead :: m in s.log.accepted
    requires forall d | d in s.q.dmsgq :: d.msg != sentinel && (d.msg in ahead ==> d.trigger <= trigger)
    ensures BarrierHolds(Apply(s, DelayPost(delay, trigger, sentinel)), sentinel, ahead)
  {
    assert sentinel !in s.log.accepted;
  }

  lemma BarrierFromStart(s: State, delay: int, trigger: int, sentinel: Message)
    requires Conserved(s) && !s.q.stop && Enabled(s, DelayPost(delay, trigger, sentinel))
    ensures sentinel !in Ahead(s.q, trigger)
    ensures BarrierHolds(Apply(s, DelayPost(delay, trigger, sentinel)), sentinel, Ahead(s.q, trigger))
  {
    AheadTriggers(s, trigger);
    assert sentinel !in s.log.accepted;
    forall m | m in Held(s.q)
      ensures m in s.log.accepted
    {
      ConservedSole(s, m);
    }
    forall d | d in s.q.dmsgq
      ensures d.msg in Held(s.q)
    {
      DelayedHeld(s.q, d);
    }
    assert sentinel in s.q.msgq ==> sentinel in Held(s.q);
    BarrierStarts(s, delay, trigger, sentinel, Ahead(s.q, trigger));
  }

  /** When a sentinel that was posted with a trigger leaves the queue through Get, then whatever was in
      the peek slot or in msgq_ when it was posted, or delayed with a trigger not later than its own,
      has left before, whatever was posted, peeked, cleared or stopped since.  `start` is the state just
      after it was posted, and `e` the state just before it leaves. */
  lemma Barrier(s: State, delay: int, trigger: int, sentinel: Message,
                start: State, acts: seq<Action>, e: State, forPeek: bool)
    requires Reachable(s) && !s.q.stop && Enabled(s, DelayPost(delay, trigger, sentinel))
    requires start == Apply(s, DelayPost(delay, trigger, sentinel))
    requires ValidRun(start, acts) && e == After(start, acts)
    requires Enabled(e, Pull(forPeek)) && e.q.msgq[0] == sentinel
    ensures AllGone(e, Ahead(s.q, trigger))
  {
    ReachableConserved(s);
    GuardedFromStart(s, delay, trigger, sentinel, start);
    PullsNext(e, sentinel, forPeek);
    BarrierAtEnd(start, sentinel, Ahead(s.q, trigger), acts, e);
  }

  ghost predicate Guarded(s: State, sentinel: Message, ahead: set<Message>) {
    Conserved(s) && BarrierHolds(s, sentinel, ahead) && sentinel !in ahead
  }

  lemma GuardedFromStart(s: State, delay: int, trigger: int, sentinel: Message, start: State)
    requires Conserved(s) && !s.q.stop && Enabled(s, DelayPost(delay, trigger, sentinel))
    requires start == Apply(s, DelayPost(delay, trigger, sentinel))
    ensures Guarded(start, sentinel, Ahead(s.q, trigger))
  {
    BarrierFromStart(s, delay, trigger, sentinel);
    StepConserves(s, DelayPost(delay, trigger, sentinel));
  }

  lemma StepKeepsGuard(s: State, a: Action, sentinel: Message, ahead: set<Message>)
    requires Guarded(s, sentinel, ahead) && Enabled(s, a)
    ensures Guarded(Apply(s, a), sentinel, ahead)
  {
    StepConserves(s, a);
    StepKeepsBarrier(s, a, sentinel, ahead);
  }

  lemma {:induction false} RunKeepsGuard(s: State, acts: seq<Action>, sentinel: Message, ahead: set<Message>)
    requires Guarded(s, sentinel, ahead) && ValidRun(s, acts)
    ensures Guarded(After(s, acts), sentinel, ahead)
  {
    if acts != [] {
      RunKeepsGuard(s, acts[..|acts| - 1], sentinel, ahead);
      StepKeepsGuard(After(s, acts[..|acts| - 1]), acts[|acts| - 1], sentinel, ahead);
    }
  }

  /** The message is the next that Get takes off msgq_. */
  ghost predicate IsNext(s: State, m: Message) {
    s.q.peek == None && s.q.hand == None && s.q.msgq != [] && s.q.msgq[0] == m
  }

  lemma PullsNext(e: State, m: Message, forPeek: bool)
    requires Enabled(e, Pull(forPeek)) && e.q.msgq[0] == m
    ensures IsNext(e, m)
  {
  }

  lemma BarrierAtEnd(start: State, sentinel: Message, ahead: set<Message>, acts: seq<Action>, e: State)
    requires Guarded(start, sentinel, ahead) && ValidRun(start, acts) && e == After(start, acts)
    requires IsNext(e, sentinel)
    ensures AllGone(e, ahead)
  {
    RunKeepsGuard(start, acts, sentinel, ahead);
    NothingAheadHeld(e, sentinel, ahead);
  }

  lemma NothingAheadHeld(e: State, sentinel: Message, ahead: set<Message>)
    requires Guarded(e, sentinel, ahead)
    requires IsNext(e, sentinel)
    ensures AllGone(e, ahead)
  {
    forall m | m in ahead
      ensures Gone(e, m)
    {
      assert m !in e.q.msgq;
      assert m !in Msgs(e.q.dmsgq);
      assert m in Total(e.log, Held(e.q));
    }
  }
}

module MessageQueueImpl {
  import opened MessageQueueSpec
  import opened MessageQueueRuns
  import opened MessageQueueGet

  lemma {:induction false} OneMoreDelayed(all: seq<Delayed>, i: nat, handler: nat, id: nat)
    requires i < |all|
    ensures DelayedSurvivors(all[..i + 1], handler, id)
         == DelayedSurvivors(all[..i], handler, id) + if Match(all[i].msg, handler, id) then [] else [all[i]]
    ensures Matching(Msgs(all[..i + 1]), handler, id)
         == Matching(Msgs(all[..i]), handler, id) + if Match(all[i].msg, handler, id) then [all[i].msg] else []
  {
    assert all[..i + 1] == all[..i] + [all[i]];
    MsgsSnoc(all[..i], all[i]);
    SurvivorsSnoc(Msgs(all[..i]), all[i].msg, handler, id);
    DelayedSurvivorsSnoc(all[..i], all[i], handler, id);
  }

  lemma ClearedParts(q: Queue, q': Queue, handler: nat, id: nat)
    requires q' == q.(peek := ClearSlot(q.peek, handler, id), msgq := Survivors(q.msgq, handler, id),
                      dmsgq := DelayedSurvivors(q.dmsgq, handler, id))
    ensures q' == ApplyClear(q, handler, id)
  {
  }

  lemma ReadyStep(line: seq<Message>, ds: seq<Delayed>, now: int)
    requires ds != [] && ds[TopIndex(ds)].trigger <= now
    ensures var i := TopIndex(ds);
            && Drain(ds, now).1 == Drain(Without(ds, i), now).1
            && line + Msgs(Drain(ds, now).0) == line + [ds[i].msg] + Msgs(Drain(Without(ds, i), now).0)
  {
    var i := TopIndex(ds);
    MsgsCons(ds[i], Drain(Without(ds, i), now).0);
    Regroup(line, ds[i].msg, Msgs(Drain(Without(ds, i), now).0));
  }

  /** What clearing takes out, in the order in which it takes it. */
  function Removed(q: Queue, handler: nat, id: nat): seq<Message> {
    RemovedSlot(q.peek, handler, id) + Matching(q.msgq, handler, id) + Matching(Msgs(q.dmsgq), handler, id)
  }

  function RemovedSlot(o: Option<Message>, handler: nat, id: nat): seq<Message> {
    if o.Some? && Match(o.value, handler, id) then [o.value] else []
  }

  lemma SlotCount(o: Option<Message>, handler: nat, id: nat, m: Message)
    ensures multiset(RemovedSlot(o, handler, id))[m] == if Match(m, handler, id) then Bag(o)[m] else 0
  {
  }

  lemma RemovedCount(q: Queue, handler: nat, id: nat, removed: seq<Message>)
    requires q.hand == None && removed == Removed(q, handler, id)
    ensures multiset(removed) == Held(q) - Held(ApplyClear(q, handler, id))
  {
    var held, held' := Held(q), Held(ApplyClear(q, handler, id));
    forall m
      ensures multiset(removed)[m] == (held - held')[m]
    {
      ClearExact(q, handler, id, m);
      RemovedAre(q, handler, id, m);
    }
  }

  lemma RemovedAre(q: Queue, handler: nat, id: nat, m: Message)
    requires q.hand == None
    ensures multiset(Removed(q, handler, id))[m] == if Match(m, handler, id) then Held(q)[m] else 0
  {
    HeldCount(q, m);
    SlotCount(q.peek, handler, id, m);
    MatchingCount(q.msgq, handler, id, m);
    MatchingCount(Msgs(q.dmsgq), handler, id, m);
    JoinedCount(RemovedSlot(q.peek, handler, id), Matching(q.msgq, handler, id),
                Matching(Msgs(q.dmsgq), handler, id), m);
  }

  lemma ClearedTo(s: State, s': State, handler: nat, id: nat, removed: seq<Message>)
    requires s.q.hand == None && s'.q == ApplyClear(s.q, handler, id) && removed == Removed(s.q, handler, id)
    requires s'.log == s.log.(cleared := s.log.cleared + multiset(removed))
    ensures Follows(s, s', Clear(handler, id))
    ensures multiset(removed) == Held(s.q) - Held(s'.q)
  {
    RemovedCount(s.q, handler, id, removed);
    ClearApplied(s, handler, id);
    StepFollows(s, s', Clear(handler, id));
  }

  lemma JoinedCount(a: seq<Message>, b: seq<Message>, c: seq<Message>, m: Message)
    ensures multiset(a + b + c)[m] == multiset(a)[m] + multiset(b)[m] + multiset(c)[m]
  {
  }

  /** Moving an element down to the end of the part that is kept. */
  lemma Compacted(c: seq<Delayed>, newEnd: nat, it: nat, d: Delayed)
    requires newEnd <= it < |c|
    ensures c[newEnd := d][..newEnd + 1] == c[..newEnd] + [d]
    ensures forall k | it < k < |c| :: c[newEnd := d][k] == c[k]
  {
  }

  /** What the erasing loop finds at its position, and what erasing it or passing it leaves. */
  lemma OneMoreOrdered(all: seq<Message>, done: nat, handler: nat, id: nat)
    requires done < |all|
    ensures var kept := Survivors(all[..done], handler, id);
            var line := kept + all[done..];
            && line[|kept|] == all[done]
            && Survivors(all[..done + 1], handler, id)
               == (if Match(all[done], handler, id) then kept else kept + [all[done]])
            && Matching(all[..done + 1], handler, id)
               == Matching(all[..done], handler, id) + (if Match(all[done], handler, id) then [all[done]] else [])
            && Without(line, |kept|) == kept + all[done + 1..]
            && line == kept + [all[done]] + all[done + 1..]
  {
    var x, kept, ahead := all[done], Survivors(all[..done], handler, id), all[done + 1..];
    assert all[done..] == [x] + ahead && all[..done + 1] == all[..done] + [x];
    Erase(kept, x, ahead);
    SurvivorsSnoc(all[..done], x, handler, id);
  }

  class MessageQueue {
    var peekKeep: bool
    var msgPeek: Message
    var msgq: seq<Message>
    var dmsgq: seq<Delayed>   // the container of the priority queue; its order has no meaning
    var nextNum: nat
    var stop: bool

    /** Where the messages went that were posted so far. */
    ghost var log: Log

    ghost function View(): Queue
      reads this
    {
      Queue(if peekKeep then Some(msgPeek) else None, None, msgq, dmsgq, nextNum, stop)
    }

    /** The state of the step system this queue is in. */
    ghost function Now(): State
      reads this
    {
      State(View(), log)
    }

    constructor ()
      ensures Now() == Init() && Reachable(Now())
    {
      peekKeep, msgPeek, msgq, dmsgq, nextNum, stop := false, Message(0, 0, 0), [], [], 0, false;
      log := Init().log;
      new;
      assert After(Init(), []) == Init();
    }

    /** One step of the step system: the message is held from now on, behind all others in msgq_, unless the
        queue is quitting. */
    method Post(m: Message)
      modifies this`msgq, this`log
      ensures Follows(old(Now()), Now(), Action.Post(m))
      ensures Held(View()) == old(Held(View())) + if stop then multiset{} else multiset{m}
    {
      if !stop {
        msgq := msgq + [m];
        log := log.(accepted := log.accepted + multiset{m});
      }
      StepFollows(old(Now()), Now(), Action.Post(m));
      PostHeld(old(Now()), Action.Post(m));
    }

    /** The same for a delayed message, which comes after all others with its trigger that are held already. */
    method DoDelayPost(delay: int, trigger: int, m: Message)
      modifies this`dmsgq, this`nextNum, this`log
      ensures Follows(old(Now()), Now(), DelayPost(delay, trigger, m))
      ensures Held(View()) == old(Held(View())) + if stop then multiset{} else multiset{m}
    {
      if !stop {
        dmsgq := dmsgq + [Delayed(delay, trigger, nextNum, m)];
        nextNum := NumAfter(nextNum);
        log := log.(accepted := log.accepted + multiset{m});
      }
      StepFollows(old(Now()), Now(), DelayPost(delay, trigger, m));
      PostHeld(old(Now()), DelayPost(delay, trigger, m));
    }

    method Quit()
      modifies this`stop
      ensures Follows(old(Now()), Now(), Action.Quit)
    {
      stop := true;
      StepFollows(old(Now()), Now(), Action.Quit);
    }

    method Restart()
      modifies this`stop
      ensures Follows(old(Now()), Now(), Action.Restart)
    {
      stop := false;
      StepFollows(old(Now()), Now(), Action.Restart);
    }

    /** The number of messages held. */
    method Size() returns (n: nat)
      ensures n == |Held(View())|
    {
      n := |msgq| + |dmsgq| + if peekKeep then 1 else 0;
    }

    /** Erases matching messages from msgq_, one at a time. */
    method ClearOrdered(handler: nat, id: nat) returns (removed: seq<Message>)
      modifies this`msgq
      ensures msgq == Survivors(old(msgq), handler, id)
      ensures removed == Matching(old(msgq), handler, id)
    {
      removed := [];
      ghost var all, done := msgq, 0;
      var it := 0;
      while it < |msgq|
        invariant done <= |all| && it == |Survivors(all[..done], handler, id)|
        invariant msgq == Survivors(all[..done], handler, id) + all[done..]
        invariant removed == Matching(all[..done], handler, id)
        decreases |all| - done
      {
        OneMoreOrdered(all, done, handler, id);
        if Match(msgq[it], handler, id) {
          removed := removed + [msgq[it]];
          msgq := Without(msgq, it);
        } else {
          it := it + 1;
        }
        done := done + 1;
      }
      assert all[..done] == all;
    }

    /** The compacting loop: what is kept moves to the front of the container. */
    static method Compact(all: seq<Delayed>, handler: nat, id: nat)
      returns (c: seq<Delayed>, newEnd: nat, removed: seq<Message>)
      ensures newEnd <= |c| == |all| && c[..newEnd] == DelayedSurvivors(all, handler, id)
      ensures removed == Matching(Msgs(all), handler, id)
    {
      c, newEnd, removed := all, 0, [];
      for it := 0 to |c|
        invariant |c| == |all| && newEnd <= it
        invariant forall k | it <= k < |all| :: c[k] == all[k]
        invariant c[..newEnd] == DelayedSurvivors(all[..it], handler, id)
        invariant removed == Matching(Msgs(all[..it]), handler, id)
      {
        var d := c[it];
        OneMoreDelayed(all, it, handler, id);
        if Match(d.msg, handler, id) {
          removed := removed + [d.msg];
        } else {
          Compacted(c, newEnd, it, d);
          c := c[newEnd := d];
          newEnd := newEnd + 1;
        }
      }
      assert all[..|all|] == all;
    }

    /** Compacts the container of the priority queue in place, then cuts it off. */
    method ClearDelayed(handler: nat, id: nat) returns (removed: seq<Message>)
      modifies this`dmsgq
      ensures View() == old(View()).(dmsgq := DelayedSurvivors(old(dmsgq), handler, id))
      ensures removed == Matching(Msgs(old(dmsgq)), handler, id)
    {
      var newEnd;
      dmsgq, newEnd, removed := Compact(dmsgq, handler, id);
      dmsgq := dmsgq[..newEnd];
    }

    /** Empties the peek slot if its message matches. */
    method ClearPeeked(handler: nat, id: nat) returns (removed: seq<Message>)
      modifies this`peekKeep
      ensures View() == old(View()).(peek := ClearSlot(old(View()).peek, handler, id))
      ensures removed == RemovedSlot(old(View()).peek, handler, id)
    {
      removed := [];
      if peekKeep && Match(msgPeek, handler, id) {
        removed := [msgPeek];
        peekKeep := false;
      }
    }

    /** Removes exactly the matching messages, from the peek slot, msgq_ and dmsgq_, and keeps the order of
        the others. */
    method Clear(handler: nat, id: nat) returns (removed: seq<Message>)
      modifies this`peekKeep, this`msgq, this`dmsgq, this`log
      ensures Follows(old(Now()), Now(), Action.Clear(handler, id))
      ensures multiset(removed) == old(Held(View())) - Held(View())
    {
      removed := ClearAll(handler, id);
      log := log.(cleared := log.cleared + multiset(removed));
      ClearedTo(old(Now()), Now(), handler, id, removed);
    }

    method ClearAll(handler: nat, id: nat) returns (removed: seq<Message>)
      modifies this`peekKeep, this`msgq, this`dmsgq
      ensures View() == ApplyClear(old(View()), handler, id)
      ensures removed == Removed(old(View()), handler, id)
    {
      var peeked := ClearPeeked(handler, id);
      var ordered := ClearOrdered(handler, id);
      var delayed := ClearDelayed(handler, id);
      removed := peeked + ordered + delayed;
      ClearedParts(old(View()), View(), handler, id);
    }

    /** The first pass of Get: moves every triggered message, in order, to the end of msgq_. */
    method TakeReady(now: int) returns (next: int)
      modifies this`msgq, this`dmsgq
      ensures msgq == old(msgq) + Msgs(Drain(old(dmsgq), now).0)
      ensures dmsgq == Drain(old(dmsgq), now).1
      ensures next == NextDelay(dmsgq, now)
    {
      next := FOREVER;
      while dmsgq != []
        invariant msgq + Msgs(Drain(dmsgq, now).0) == old(msgq) + Msgs(Drain(old(dmsgq), now).0)
        invariant Drain(dmsgq, now).1 == Drain(old(dmsgq), now).1
        invariant next == FOREVER
        decreases |dmsgq|
      {
        var i := TopIndex(dmsgq);
        if now < dmsgq[i].trigger {
          next := dmsgq[i].trigger - now;
          return;
        }
        ReadyStep(msgq, dmsgq, now);
        msgq := msgq + [dmsgq[i].msg];
        dmsgq := Without(dmsgq, i);
      }
    }

    /** Pulls messages off msgq_, disposing of dispose messages, until one is there to be returned.  The lock is
        free after each message disposed of. */
    method PullLive(gaps: seq<seq<Arrival>>) returns (found: Option<Message>)
      requires !peekKeep
      modifies this
      ensures (found, Now()) == Pulled(old(Now()), gaps, false) && !peekKeep
    {
      var rest := gaps;
      while msgq != []
        invariant View().peek == None
        invariant Pulled(Now(), rest, false) == Pulled(old(Now()), gaps, false)
        decreases |rest|, |msgq|
      {
        var m := msgq[0];
        ghost var s := Now();
        msgq := msgq[1..];
        if m.id != MQID_DISPOSE {
          log := log.(returned := log.returned + multiset{m});
          assert Now() == TookFirst(s, false);
          return Some(m);
        }
        log := log.(disposed := log.disposed + multiset{m});
        assert Now() == DisposedFirst(s);
        ArrivalsLeaveSlot(Now(), First(rest));
        Arrive(First(rest));
        rest := Rest(rest);
      }
      return None;
    }

    /** What other threads do meanwhile. */
    method Arrive(arrivals: seq<Arrival>)
      modifies this
      ensures Now() == ArriveAll(old(Now()), arrivals)
    {
      assert arrivals[0..] == arrivals;
      for i := 0 to |arrivals|
        invariant ArriveAll(Now(), arrivals[i..]) == ArriveAll(old(Now()), arrivals)
      {
        assert arrivals[i..][0] == arrivals[i] && arrivals[i..][1..] == arrivals[i + 1..];
        ArriveOne(arrivals[i]);
      }
    }

    method ArriveOne(a: Arrival)
      modifies this
      ensures Arrives(old(Now()), Now(), a)
    {
      match a
      case Posted(_) => ArrivePosted(a);
      case PostedDelayed(_, _, _) => ArrivePosted(a);
      case Cleared(_, _) => ArriveCleared(a);
      case Stopped => Quit();
      case Restarted => Restart();
    }

    method ArrivePosted(a: Arrival)
      requires a.Posted? || a.PostedDelayed?
      modifies this
      ensures Arrives(old(Now()), Now(), a)
    {
      if a.Posted? {
        Post(a.m);
      } else {
        DoDelayPost(a.delay, a.trigger, a.m);
      }
    }

    method ArriveCleared(a: Arrival)
      requires a.Cleared?
      modifies this
      ensures Arrives(old(Now()), Now(), a)
    {
      var _ := Clear(a.handler, a.id);
    }

    /** One look at the queue, and the wait it calls for. */
    method Look(c: Call, i: nat, at: int) returns (found: Option<Message>, wait: WaitCall)
      requires !peekKeep
      modifies this
      ensures found == Found(old(Now()), at, TurnAt(c, i))
      ensures Now() == AfterLook(old(Now()), at, TurnAt(c, i), false) && !peekKeep
      ensures wait == WaitAfter(old(View()), c.budget, at - c.start, at)
    {
      var next := TakeReady(at);
      wait := WaitCall(Int32(WaitFor(c.budget, at - c.start, next)), c.budget, at - c.start, dmsgq, at);
      assert Now() == Due(old(Now()), at);
      found := PullLive(TurnAt(c, i).gaps);
      if found == None {
        ArrivalsLeaveSlot(Now(), TurnAt(c, i).before);
        Arrive(TurnAt(c, i).before);
      }
    }

    /** The first half of a pass of the loop: look, and decide how long to wait. */
    method LookOnce(ghost s: State, c: Call, waits: seq<WaitCall>, msCurrent: int)
      returns (result: Option<GetResult>, wait: WaitCall)
      requires !peekKeep && Waited(s, c, waits) && Looks(c, |waits|) && AtLook(s, c, |waits|, Now(), msCurrent)
      modifies this
      ensures !peekKeep && Now() == LeftBy(s, c, |waits|, false)
      ensures result.Some? ==> Outcome(s, c, waits, result.value, Now(), false)
      ensures result.None? ==> Waited(s, c, waits + [wait])
    {
      var found;
      found, wait := Look(c, |waits|, msCurrent);
      if found.Some? {
        return Some(Got(found.value)), wait;
      }
      if stop {
        return Some(Quitting), wait;
      }
      OneMoreWait(s, c, waits, wait);
      return None, wait;
    }

    /** The second half: the wait ends as `c` says, if it ends. */
    method WaitOnce(ghost s: State, c: Call, waits: seq<WaitCall>) returns (result: Option<GetResult>, msCurrent: int)
      requires !peekKeep && 0 < |waits| <= |c.pauses| + 1 && Waited(s, c, waits)
      requires Now() == LeftBy(s, c, |waits| - 1, false)
      modifies this
      ensures !peekKeep
      ensures result.Some? ==> Outcome(s, c, waits, result.value, Now(), false)
      ensures result.None? ==> Looks(c, |waits|) && AtLook(s, c, |waits|, Now(), msCurrent)
    {
      var i := |waits| - 1;
      if i == |c.pauses| {
        return Some(Blocked), c.start;
      }
      ArrivalsLeaveSlot(Now(), c.pauses[i].arrivals);
      Arrive(c.pauses[i].arrivals);
      NextLook(s, c, i, Now());
      msCurrent := c.pauses[i].now;
      if !c.pauses[i].ok {
        return Some(WaitFailed), msCurrent;
      }
      if c.budget != FOREVER && msCurrent - c.start >= c.budget {
        return Some(TimedOut), msCurrent;
      }
      return None, msCurrent;
    }

    /** One pass of the loop. */
    method Round(ghost s: State, c: Call, waits: seq<WaitCall>, msCurrent: int)
      returns (ended: Option<GetResult>, waits': seq<WaitCall>, msNext: int)
      requires !peekKeep && Waited(s, c, waits) && Looks(c, |waits|) && AtLook(s, c, |waits|, Now(), msCurrent)
      modifies this
      ensures !peekKeep
      ensures ended.Some? ==> Outcome(s, c, waits', ended.value, Now(), false)
      ensures ended.None? ==> && |waits'| == |waits| + 1 && Waited(s, c, waits') && Looks(c, |waits'|)
                              && AtLook(s, c, |waits'|, Now(), msNext)
    {
      var wait;
      ended, wait := LookOnce(s, c, waits, msCurrent);
      if ended.Some? {
        return ended, waits, msCurrent;
      }
      waits' := waits + [wait];
      ended, msNext := WaitOnce(s, c, waits');
    }

    /** `c` is how the waits end that Get makes one after the other, and what other threads do whenever the lock
        is free.  Get returns the peek slot if it is taken.  Else it looks, waits and looks again as Outcome
        says. */
    method Get(c: Call) returns (result: GetResult, waits: seq<WaitCall>)
      modifies this
      ensures old(peekKeep) ==>
                result == Got(old(msgPeek)) && waits == [] && Follows(old(Now()), Now(), TakePeek)
      ensures !old(peekKeep) ==> Outcome(old(Now()), c, waits, result, Now(), false)
      ensures !peekKeep
    {
      waits := [];
      if peekKeep {
        peekKeep := false;
        log := log.(returned := log.returned + multiset{msgPeek});
        StepFollows(old(Now()), Now(), TakePeek);
        return Got(msgPeek), waits;
      }
      var msCurrent := c.start;
      while true
        invariant !peekKeep && Waited(old(Now()), c, waits) && Looks(c, |waits|)
        invariant AtLook(old(Now()), c, |waits|, Now(), msCurrent)
        decreases |c.pauses| - |waits|
      {
        var ended;
        ended, waits, msCurrent := Round(old(Now()), c, waits, msCurrent);
        if ended.Some? {
          return ended.value, waits;
        }
      }
    }

    /** What Peek does with the message that Get has returned to it. */
    method Keep(m: Message, late: seq<Arrival>)
      requires !peekKeep
      modifies this
      ensures Now() == Stashed(ArriveAll(InHand(old(Now()), m), late))
      ensures peekKeep && msgPeek == m
    {
      Arrive(late);
      ghost var t := Now();
      msgPeek, peekKeep := m, true;
      log := log.(returned := log.returned - multiset{m});
      StashedIs(old(Now()), m, late, t, Now());
    }

    /** Leaves the message that Get would return in the peek slot, so that the next Get returns it.  `pulled` is
        the queue while Peek has the message in hand, and `late` what arrives then. */
    method Peek(c: Call, late: seq<Arrival>) returns (result: GetResult, waits: seq<WaitCall>, ghost pulled: State)
      modifies this
      ensures old(peekKeep) ==> result == Got(old(msgPeek)) && waits == [] && Now() == old(Now())
      ensures !old(peekKeep) ==>
                && Outcome(old(Now()), c, waits, result, pulled, true)
                && Now() == if result.Got? then Stashed(ArriveAll(pulled, late)) else pulled
      ensures result.Got? <==> peekKeep
      ensures result.Got? ==> msgPeek == result.m
    {
      pulled := Now();
      if peekKeep {
        return Got(msgPeek), [], pulled;
      }
      result, waits := Get(c);
      ghost var end := Now();
      PeekOutcome(old(Now()), c, waits, result, end);
      if result.Got? {
        pulled := InHand(end, result.m);
        Keep(result.m, late);
      } else {
        pulled := end;
      }
    }
  }
}
