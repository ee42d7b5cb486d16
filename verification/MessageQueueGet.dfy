/**
 What the timed Get loop of the message queue does (base/messagequeue.cc:230-342): the looks it takes at the
 queue, what other threads do to the queue whenever Get does not hold the lock, and the waits it makes.

 A look moves the delayed messages that are due to the end of msgq_ and takes messages off its front until
 one is not to be disposed of.  It lets go of the lock after each message it disposes of, and before it asks
 whether the queue is quitting.  All of this is on the states of MessageQueueRuns, so that a Get is a run of
 that step system.
 */
module MessageQueueGet {
  import opened Basics
  import opened MessageQueueSpec
  import opened MessageQueueRuns

  // ---------------------------------------------------------------- how long Get waits

  /** static_cast<int> of a 64-bit value. */
  function Int32(x: int): int {
    var y := x % 0x1_0000_0000;
    if y < 0x8000_0000 then y else y - 0x1_0000_0000
  }

  /** Milliseconds to the next trigger, kForever if nothing is delayed. */
  function NextDelay(ds: seq<Delayed>, now: int): int {
    if ds == [] then FOREVER else ds[TopIndex(ds)].trigger - now
  }

  /** The shorter of the wait asked for and the wait for the next trigger. */
  function WaitFor(budget: int, elapsed: int, next: int): int {
    if budget == FOREVER then next
    else
      var left := Max(0, budget - elapsed);
      if next != FOREVER && next < left then next else left
  }

  /** One call of SocketServer::Wait by Get, and what it was decided on. */
  datatype WaitCall = WaitCall(passed: int, budget: int, elapsed: int, delayed: seq<Delayed>, now: int)

  /** Get decided on this wait right after moving every triggered message out of dmsgq_. */
  predicate Decided(w: WaitCall) {
    && w.passed == Int32(WaitFor(w.budget, w.elapsed, NextDelay(w.delayed, w.now)))
    && forall d | d in w.delayed :: w.now < d.trigger
  }

  /** Forever only with nothing delayed and no limit; else not negative, and no longer than what is left
      of the limit or than the time to any trigger. */
  predicate WellTimed(w: WaitCall) {
    if w.budget == FOREVER && w.delayed == [] then w.passed == FOREVER
    else
      && 0 <= w.passed
      && (w.budget != FOREVER ==> w.passed <= Max(0, w.budget - w.elapsed))
      && forall d | d in w.delayed :: w.passed <= d.trigger - w.now
  }

  /** A wait is well timed exactly if it has a limit, or nothing is delayed, or the time to the next
      trigger does not turn negative when it is cast to a 32-bit int. */
  lemma WaitWellTimed(w: WaitCall)
    requires Decided(w) && 0 <= w.elapsed && -0x8000_0000 <= w.budget < 0x8000_0000
    ensures WellTimed(w) <==>
            w.budget != FOREVER || w.delayed == [] || NextDelay(w.delayed, w.now) % 0x1_0000_0000 < 0x8000_0000
  {
    if w.delayed != [] {
      var i := TopIndex(w.delayed);
      assert w.delayed[i] in w.delayed;
      forall d | d in w.delayed
        ensures w.delayed[i].trigger <= d.trigger
      {
        assert !Less(w.delayed[i], d);
      }
    }
  }

  /** With a single message triggering 2^31 ms from now and no limit, the wait is negative. */
  lemma FarTriggerWaitsWrong(m: Message)
    ensures var d := Delayed(0, 0x8000_0000, 0, m);
            var w := WaitCall(Int32(WaitFor(FOREVER, 0, NextDelay([d], 0))), FOREVER, 0, [d], 0);
            Decided(w) && !WellTimed(w)
  {
    var d := Delayed(0, 0x8000_0000, 0, m);
    assert TopIndex([d]) == 0;
    assert d in [d];
  }

  // ---------------------------------------------------------------- what other threads do

  datatype Arrival =
    | Posted(m: Message)
    | PostedDelayed(delay: int, trigger: int, m: Message)
    | Cleared(handler: nat, id: nat)
    | Stopped
    | Restarted

  function ActionOf(a: Arrival): Action {
    match a
    case Posted(m) => Post(m)
    case PostedDelayed(delay, trigger, m) => DelayPost(delay, trigger, m)
    case Cleared(handler, id) => Clear(handler, id)
    case Stopped => Quit
    case Restarted => Restart
  }

  ghost predicate Arrives(s: State, s': State, a: Arrival) {
    Follows(s, s', ActionOf(a))
  }

  function ArriveAll(s: State, arrivals: seq<Arrival>): State
    decreases |arrivals|
  {
    if arrivals == [] then s else ArriveAll(Apply(s, ActionOf(arrivals[0])), arrivals[1..])
  }

  /** Nothing that arrives fills the peek slot or changes what Peek has in hand. */
  lemma {:induction false} ArrivalsLeaveSlot(s: State, arrivals: seq<Arrival>)
    requires s.q.peek == None
    ensures ArriveAll(s, arrivals).q.peek == None && ArriveAll(s, arrivals).q.hand == s.q.hand
    decreases |arrivals|
  {
    if arrivals != [] {
      ArrivalsLeaveSlot(Apply(s, ActionOf(arrivals[0])), arrivals[1..]);
    }
  }

  /** What arrives obeys the rules of the step system: every posting is new, and the numbers do not wrap. */
  predicate RulesKept(s: State, arrivals: seq<Arrival>)
    decreases |arrivals|
  {
    arrivals == []
    || (Enabled(s, ActionOf(arrivals[0])) && RulesKept(Apply(s, ActionOf(arrivals[0])), arrivals[1..]))
  }

  lemma {:induction false} ArrivalsReachable(s: State, arrivals: seq<Arrival>)
    requires Reachable(s) && RulesKept(s, arrivals)
    ensures Reachable(ArriveAll(s, arrivals))
    decreases |arrivals|
  {
    if arrivals != [] {
      ReachableStep(s, ActionOf(arrivals[0]));
      ArrivalsReachable(Apply(s, ActionOf(arrivals[0])), arrivals[1..]);
    }
  }

  // ---------------------------------------------------------------- one look

  /** What happens to the queue in a look while Get does not hold the lock: after each message it disposes of,
      and when it has found msgq_ empty, before it asks whether the queue is quitting. */
  datatype Turn = Turn(gaps: seq<seq<Arrival>>, before: seq<Arrival>)

  const UNDISTURBED: Turn := Turn([], [])

  function First(gaps: seq<seq<Arrival>>): seq<Arrival> {
    if gaps == [] then [] else gaps[0]
  }

  function Rest(gaps: seq<seq<Arrival>>): seq<seq<Arrival>> {
    if gaps == [] then [] else gaps[1..]
  }

  /** What is ready at time `at`: msgq_, then what is delayed and due, by trigger and number. */
  function Line(q: Queue, at: int): seq<Message> {
    q.msgq + Msgs(Drain(q.dmsgq, at).0)
  }

  /** The first pass: what is due is in msgq_. */
  function Due(s: State, at: int): State {
    State(s.q.(msgq := Line(s.q, at), dmsgq := Drain(s.q.dmsgq, at).1), s.log)
  }

  /** The front of msgq_ is disposed of. */
  function DisposedFirst(s: State): State
    requires s.q.msgq != []
  {
    State(s.q.(msgq := s.q.msgq[1..]), s.log.(disposed := s.log.disposed + multiset{s.q.msgq[0]}))
  }

  /** The front of msgq_ is returned, or is in the hands of Peek. */
  function TookFirst(s: State, forPeek: bool): State
    requires s.q.msgq != []
  {
    var m, q := s.q.msgq[0], s.q.(msgq := s.q.msgq[1..]);
    if forPeek then State(q.(hand := Some(m)), s.log)
    else State(q, s.log.(returned := s.log.returned + multiset{m}))
  }

  /** Taking messages off msgq_ until one is not to be disposed of: that message, and what is left. */
  function Pulled(s: State, gaps: seq<seq<Arrival>>, forPeek: bool): (Option<Message>, State)
    decreases |gaps|, |s.q.msgq|
  {
    if s.q.msgq == [] then (None, s)
    else if s.q.msgq[0].id != MQID_DISPOSE then (Some(s.q.msgq[0]), TookFirst(s, forPeek))
    else Pulled(ArriveAll(DisposedFirst(s), First(gaps)), Rest(gaps), forPeek)
  }

  function Found(s: State, at: int, turn: Turn): Option<Message> {
    Pulled(Due(s, at), turn.gaps, false).0
  }

  /** The queue and the log after a look; for Peek the message found is in its hands. */
  function AfterLook(s: State, at: int, turn: Turn, forPeek: bool): State {
    var (found, s') := Pulled(Due(s, at), turn.gaps, forPeek);
    if found == None then ArriveAll(s', turn.before) else s'
  }

  lemma {:induction false} MsgsMember(ds: seq<Delayed>, m: Message)
    ensures m in Msgs(ds) <==> exists d :: d in ds && d.msg == m
  {
    if m in Msgs(ds) {
      var i :| 0 <= i < |ds| && Msgs(ds)[i] == m;
      assert ds[i] in ds && ds[i].msg == m;
    }
    if d :| d in ds && d.msg == m {
      var i :| 0 <= i < |ds| && ds[i] == d;
      assert Msgs(ds)[i] == m;
    }
  }

  /** What is in line: nothing delayed before its trigger, and everything due. */
  lemma InLine(q: Queue, at: int, m: Message)
    ensures m in Line(q, at) <==> m in q.msgq || TriggersBy(q, at, m)
  {
    var (ready, rest) := Drain(q.dmsgq, at);
    DrainIsReadyInOrder(q.dmsgq, at);
    MsgsMember(ready, m);
    if d :| d in ready && d.msg == m {
      assert d in multiset(ready) + multiset(rest);
      assert d in q.dmsgq;
    }
    if d :| d in q.dmsgq && d.trigger <= at && d.msg == m {
      assert d in multiset(ready) + multiset(rest);
      assert d in ready;
    }
  }

  lemma ArrivesPosted(s: State, a: Arrival, m: Message)
    requires m in Apply(s, ActionOf(a)).q.msgq
    ensures m in s.q.msgq || a == Posted(m)
  {
    match a
    case Posted(_) =>
    case PostedDelayed(_, _, _) =>
    case Cleared(handler, id) => SurvivorsAreThere(s.q.msgq, handler, id);
    case Stopped =>
    case Restarted =>
  }

  /** What arrives in msgq_ is posted to it. */
  lemma {:induction false} ArrivedPosted(s: State, arrivals: seq<Arrival>, m: Message)
    requires m in ArriveAll(s, arrivals).q.msgq
    ensures m in s.q.msgq || Posted(m) in arrivals
    decreases |arrivals|
  {
    if arrivals != [] {
      var s' := Apply(s, ActionOf(arrivals[0]));
      ArrivedPosted(s', arrivals[1..], m);
      if m in s'.q.msgq {
        ArrivesPosted(s, arrivals[0], m);
      }
    }
  }

  ghost predicate PostedIn(gaps: seq<seq<Arrival>>, m: Message) {
    exists k :: 0 <= k < |gaps| && Posted(m) in gaps[k]
  }

  lemma PostedInRest(gaps: seq<seq<Arrival>>, m: Message)
    requires Posted(m) in First(gaps) || PostedIn(Rest(gaps), m)
    ensures PostedIn(gaps, m)
  {
    if PostedIn(Rest(gaps), m) {
      var k :| 0 <= k < |Rest(gaps)| && Posted(m) in Rest(gaps)[k];
      assert gaps[k + 1] == Rest(gaps)[k];
    } else {
      assert First(gaps) == gaps[0];
    }
  }

  lemma {:induction false} PulledWasThere(s: State, gaps: seq<seq<Arrival>>, forPeek: bool)
    requires Pulled(s, gaps, forPeek).0.Some?
    ensures var m := Pulled(s, gaps, forPeek).0.value;
            m.id != MQID_DISPOSE && (m in s.q.msgq || PostedIn(gaps, m))
    decreases |gaps|, |s.q.msgq|
  {
    if s.q.msgq[0].id == MQID_DISPOSE {
      var m := Pulled(s, gaps, forPeek).0.value;
      var s' := ArriveAll(DisposedFirst(s), First(gaps));
      PulledWasThere(s', Rest(gaps), forPeek);
      if m in s'.q.msgq {
        ArrivedPosted(DisposedFirst(s), First(gaps), m);
      }
      if m !in s.q.msgq {
        PostedInRest(gaps, m);
      }
    }
  }

  /** A message found was posted to msgq_, before the look or during it, or is due. */
  lemma FoundIsDue(s: State, at: int, turn: Turn)
    requires Found(s, at, turn).Some?
    ensures var m := Found(s, at, turn).value;
            && m.id != MQID_DISPOSE
            && (m in s.q.msgq || TriggersBy(s.q, at, m) || PostedIn(turn.gaps, m))
  {
    PulledWasThere(Due(s, at), turn.gaps, false);
    InLine(s.q, at, Found(s, at, turn).value);
  }

  /** The first message of a line that is not to be disposed of. */
  function Front(line: seq<Message>): Option<Message> {
    var k := Disposable(line);
    if k < |line| then Some(line[k]) else None
  }

  predicate ClearsNothing(gaps: seq<seq<Arrival>>) {
    forall k, i | 0 <= k < |gaps| && 0 <= i < |gaps[k]| :: !gaps[k][i].Cleared?
  }

  lemma {:induction false} ArrivedBehind(s: State, arrivals: seq<Arrival>)
    requires forall i | 0 <= i < |arrivals| :: !arrivals[i].Cleared?
    ensures s.q.msgq <= ArriveAll(s, arrivals).q.msgq
    decreases |arrivals|
  {
    if arrivals != [] {
      ArrivedBehind(Apply(s, ActionOf(arrivals[0])), arrivals[1..]);
    }
  }

  lemma {:induction false} FrontStays(line: seq<Message>, longer: seq<Message>)
    requires line <= longer && Front(line).Some?
    ensures Front(longer) == Front(line)
  {
    if line[0].id == MQID_DISPOSE {
      assert line[1..] <= longer[1..];
      assert Front(line[1..]) == Front(line) && Front(longer[1..]) == Front(longer);
      FrontStays(line[1..], longer[1..]);
    }
  }

  lemma {:induction false} PulledIsFront(s: State, gaps: seq<seq<Arrival>>, forPeek: bool)
    requires ClearsNothing(gaps) && Front(s.q.msgq).Some?
    ensures Pulled(s, gaps, forPeek).0 == Front(s.q.msgq)
    decreases |gaps|, |s.q.msgq|
  {
    if s.q.msgq[0].id == MQID_DISPOSE {
      var rest := s.q.msgq[1..];
      assert Front(rest) == Front(s.q.msgq);
      ArrivedBehind(DisposedFirst(s), First(gaps));
      FrontStays(rest, ArriveAll(DisposedFirst(s), First(gaps)).q.msgq);
      PulledIsFront(ArriveAll(DisposedFirst(s), First(gaps)), Rest(gaps), forPeek);
    }
  }

  /** Nothing posted during a look overtakes what is ready when it starts: unless something is cleared
      meanwhile, the look finds the first message of the line that is not to be disposed of. */
  lemma FoundIsFirst(s: State, at: int, turn: Turn)
    requires ClearsNothing(turn.gaps) && Front(Line(s.q, at)).Some?
    ensures Found(s, at, turn) == Front(Line(s.q, at))
  {
    PulledIsFront(Due(s, at), turn.gaps, false);
  }

  lemma {:induction false} PulledNothing(s: State, forPeek: bool)
    ensures Pulled(s, [], forPeek).0 == Front(s.q.msgq)
    decreases |s.q.msgq|
  {
    if s.q.msgq != [] && s.q.msgq[0].id == MQID_DISPOSE {
      PulledNothing(DisposedFirst(s), forPeek);
      assert Front(s.q.msgq[1..]) == Front(s.q.msgq);
    }
  }

  /** An undisturbed look finds nothing exactly when all that was posted to msgq_ or is due is to be disposed
      of. */
  lemma FoundNothing(s: State, at: int)
    ensures Found(s, at, UNDISTURBED) == None <==>
            && (forall m | m in s.q.msgq :: m.id == MQID_DISPOSE)
            && forall d | d in s.q.dmsgq && d.trigger <= at :: d.msg.id == MQID_DISPOSE
  {
    PulledNothing(Due(s, at), false);
    if Found(s, at, UNDISTURBED) == None {
      forall m | m in s.q.msgq
        ensures m.id == MQID_DISPOSE
      {
        InLine(s.q, at, m);
      }
      forall d | d in s.q.dmsgq && d.trigger <= at
        ensures d.msg.id == MQID_DISPOSE
      {
        InLine(s.q, at, d.msg);
      }
    } else {
      FoundIsDue(s, at, UNDISTURBED);
    }
  }

  /** A look that finds nothing leaves the same for Get and for Peek. */
  lemma {:induction false} PulledTheSame(s: State, gaps: seq<seq<Arrival>>)
    ensures Pulled(s, gaps, true).0 == Pulled(s, gaps, false).0
    ensures Pulled(s, gaps, true).0 == None ==> Pulled(s, gaps, true) == Pulled(s, gaps, false)
    decreases |gaps|, |s.q.msgq|
  {
    if s.q.msgq != [] && s.q.msgq[0].id == MQID_DISPOSE {
      PulledTheSame(ArriveAll(DisposedFirst(s), First(gaps)), Rest(gaps));
    }
  }

  lemma NothingTaken(s: State, at: int, turn: Turn)
    requires Found(s, at, turn) == None
    ensures AfterLook(s, at, turn, true) == AfterLook(s, at, turn, false)
  {
    PulledTheSame(Due(s, at), turn.gaps);
  }

  // ---------------------------------------------------------------- the whole of Get

  /** How one call of SocketServer::Wait ends: its result, the time then, and what has arrived. */
  datatype Pause = Pause(ok: bool, now: int, arrivals: seq<Arrival>)

  /** A call of Get: its limit, when it starts, how its waits end, and what happens during its looks. */
  datatype Call = Call(budget: int, start: int, pauses: seq<Pause>, turns: seq<Turn>)

  function TurnAt(c: Call, i: nat): Turn {
    if i < |c.turns| then c.turns[i] else UNDISTURBED
  }

  /** The time of look i. */
  function TimeAt(c: Call, i: nat): int
    requires i <= |c.pauses|
  {
    if i == 0 then c.start else c.pauses[i - 1].now
  }

  /** The queue that look i finds, when those before it have found nothing. */
  function StateAt(s: State, c: Call, i: nat): State
    requires i <= |c.pauses|
    decreases i, 0
  {
    if i == 0 then s else ArriveAll(LeftBy(s, c, i - 1, false), c.pauses[i - 1].arrivals)
  }

  /** What look i leaves. */
  function LeftBy(s: State, c: Call, i: nat, forPeek: bool): State
    requires i <= |c.pauses|
    decreases i, 1
  {
    AfterLook(StateAt(s, c, i), TimeAt(c, i), TurnAt(c, i), forPeek)
  }

  function FoundAt(s: State, c: Call, i: nat): Option<Message>
    requires i <= |c.pauses|
  {
    Found(StateAt(s, c, i), TimeAt(c, i), TurnAt(c, i))
  }

  /** The wait decided on after the first pass of a look of `q`. */
  function WaitAfter(q: Queue, budget: int, elapsed: int, at: int): WaitCall {
    var delayed := Drain(q.dmsgq, at).1;
    WaitCall(Int32(WaitFor(budget, elapsed, NextDelay(delayed, at))), budget, elapsed, delayed, at)
  }

  /** The wait after look i. */
  function WaitAt(s: State, c: Call, i: nat): WaitCall
    requires i <= |c.pauses|
  {
    WaitAfter(StateAt(s, c, i).q, c.budget, TimeAt(c, i) - c.start, TimeAt(c, i))
  }

  /** Every wait that Get makes is well timed, if the clock has not gone back, exactly under the condition of
      WaitWellTimed. */
  lemma WaitsWellTimed(s: State, c: Call, i: nat)
    requires i <= |c.pauses| && c.start <= TimeAt(c, i) && -0x8000_0000 <= c.budget < 0x8000_0000
    ensures var w := WaitAt(s, c, i);
            WellTimed(w) <==>
            c.budget != FOREVER || w.delayed == [] || NextDelay(w.delayed, w.now) % 0x1_0000_0000 < 0x8000_0000
  {
    DrainIsReadyInOrder(StateAt(s, c, i).q.dmsgq, TimeAt(c, i));
    WaitWellTimed(WaitAt(s, c, i));
  }

  /** Get returns true with a message, or false; `Blocked` is a Get that is still waiting. */
  datatype GetResult = Got(m: Message) | Quitting | WaitFailed | TimedOut | Blocked

  /** Wait i ends well and before the limit, so that Get looks again. */
  predicate GoesOn(c: Call, i: nat) {
    i < |c.pauses| && c.pauses[i].ok && (c.budget == FOREVER || c.pauses[i].now - c.start < c.budget)
  }

  /** Look i takes place, finds nothing and no reason to stop. */
  predicate GoesPast(s: State, c: Call, i: nat) {
    && i <= |c.pauses| && (i > 0 ==> GoesOn(c, i - 1))
    && FoundAt(s, c, i) == None && !LeftBy(s, c, i, false).q.stop
  }

  /** Look i finds nothing and no reason to stop, and `w` is the wait that follows. */
  predicate WaitsAfter(s: State, c: Call, i: nat, w: WaitCall) {
    GoesPast(s, c, i) && w == WaitAt(s, c, i)
  }

  /** Each look but the last is followed by its wait, and each wait but the last by a further look. */
  predicate Waited(s: State, c: Call, waits: seq<WaitCall>) {
    forall i | 0 <= i < |waits| :: WaitsAfter(s, c, i, waits[i])
  }

  /** Look n takes place. */
  predicate Looks(c: Call, n: nat) {
    n <= |c.pauses| && (n > 0 ==> GoesOn(c, n - 1))
  }

  /** How Get ends, and what it leaves: `n` waits, then a look that finds a message or the queue quitting, or a
      wait that fails, ends too late, or has not ended. */
  predicate Ends(s: State, c: Call, n: nat, result: GetResult, end: State, forPeek: bool) {
    match result
    case Got(m) => Looks(c, n) && FoundAt(s, c, n) == Some(m) && end == LeftBy(s, c, n, forPeek)
    case Quitting =>
      && Looks(c, n) && FoundAt(s, c, n) == None && LeftBy(s, c, n, false).q.stop
      && end == LeftBy(s, c, n, forPeek)
    case WaitFailed => 0 < n <= |c.pauses| && !c.pauses[n - 1].ok && end == StateAt(s, c, n)
    case TimedOut => 0 < n <= |c.pauses| && c.pauses[n - 1].ok && !GoesOn(c, n - 1) && end == StateAt(s, c, n)
    case Blocked => n == |c.pauses| + 1 && end == LeftBy(s, c, n - 1, forPeek)
  }

  predicate Outcome(s: State, c: Call, waits: seq<WaitCall>, result: GetResult, end: State, forPeek: bool) {
    Waited(s, c, waits) && Ends(s, c, |waits|, result, end, forPeek)
  }

  lemma WaitedGoesPast(s: State, c: Call, waits: seq<WaitCall>, n: nat)
    requires Waited(s, c, waits) && n < |waits|
    ensures GoesPast(s, c, n)
  {
    assert WaitsAfter(s, c, n, waits[n]);
  }

  lemma EndedDoesNot(s: State, c: Call, n: nat, result: GetResult, end: State, forPeek: bool)
    requires Ends(s, c, n, result, end, forPeek)
    ensures !GoesPast(s, c, n)
  {
  }

  lemma NoEarlierEnd(s: State, c: Call, n: nat, result: GetResult, end: State, waits': seq<WaitCall>, forPeek: bool)
    requires Ends(s, c, n, result, end, forPeek) && Waited(s, c, waits')
    ensures |waits'| <= n
  {
    EndedDoesNot(s, c, n, result, end, forPeek);
    if n < |waits'| {
      WaitedGoesPast(s, c, waits', n);
    }
  }

  /** What Get does is determined by the queue, the limit, how its waits end and what happens meanwhile. */
  lemma OutcomeDetermined(s: State, c: Call, forPeek: bool, waits: seq<WaitCall>, result: GetResult, end: State,
                          waits': seq<WaitCall>, result': GetResult, end': State)
    requires Outcome(s, c, waits, result, end, forPeek) && Outcome(s, c, waits', result', end', forPeek)
    ensures waits == waits' && result == result' && end == end'
  {
    NoEarlierEnd(s, c, |waits|, result, end, waits', forPeek);
    NoEarlierEnd(s, c, |waits'|, result', end', waits, forPeek);
    forall i | 0 <= i < |waits|
      ensures waits[i] == waits'[i]
    {
      assert WaitsAfter(s, c, i, waits[i]) && WaitsAfter(s, c, i, waits'[i]);
    }
  }

  // ---------------------------------------------------------------- steps of the loop

  /** `cur` is the queue and `at` the time of look i. */
  predicate AtLook(s: State, c: Call, i: nat, cur: State, at: int) {
    i <= |c.pauses| && cur == StateAt(s, c, i) && at == TimeAt(c, i)
  }

  lemma NextLook(s: State, c: Call, i: nat, next: State)
    requires i < |c.pauses| && next == ArriveAll(LeftBy(s, c, i, false), c.pauses[i].arrivals)
    ensures AtLook(s, c, i + 1, next, c.pauses[i].now)
  {
  }

  lemma OneMoreWait(s: State, c: Call, waits: seq<WaitCall>, w: WaitCall)
    requires Waited(s, c, waits) && WaitsAfter(s, c, |waits|, w)
    ensures Waited(s, c, waits + [w])
  {
    var waits' := waits + [w];
    forall i | 0 <= i < |waits'|
      ensures WaitsAfter(s, c, i, waits'[i])
    {
      if i < |waits| {
        assert waits'[i] == waits[i];
      }
    }
  }

  /** What Peek does with what Get returned. */
  function InHand(end: State, m: Message): State {
    State(end.q.(hand := Some(m)), end.log.(returned := end.log.returned - multiset{m}))
  }

  lemma {:induction false} PulledInHand(s: State, gaps: seq<seq<Arrival>>)
    requires Pulled(s, gaps, false).0.Some?
    ensures Pulled(s, gaps, true).1 == InHand(Pulled(s, gaps, false).1, Pulled(s, gaps, false).0.value)
    decreases |gaps|, |s.q.msgq|
  {
    if s.q.msgq[0].id == MQID_DISPOSE {
      PulledInHand(ArriveAll(DisposedFirst(s), First(gaps)), Rest(gaps));
    } else {
      var m := s.q.msgq[0];
      assert s.log.returned + multiset{m} - multiset{m} == s.log.returned;
    }
  }

  /** Peek is Get, but for where the message ends up. */
  lemma PeekOutcome(s: State, c: Call, waits: seq<WaitCall>, result: GetResult, end: State)
    requires Outcome(s, c, waits, result, end, false)
    ensures Outcome(s, c, waits, result, if result.Got? then InHand(end, result.m) else end, true)
  {
    var n := |waits|;
    if result.Got? {
      PulledInHand(Due(StateAt(s, c, n), TimeAt(c, n)), TurnAt(c, n).gaps);
      PulledTheSame(Due(StateAt(s, c, n), TimeAt(c, n)), TurnAt(c, n).gaps);
    } else if result.Quitting? {
      NothingTaken(StateAt(s, c, n), TimeAt(c, n), TurnAt(c, n));
    } else if result.Blocked? {
      WaitedGoesPast(s, c, waits, n - 1);
      NothingTaken(StateAt(s, c, n - 1), TimeAt(c, n - 1), TurnAt(c, n - 1));
    }
  }

  /** The last step of Peek. */
  function Stashed(s: State): State {
    State(s.q.(peek := s.q.hand, hand := None), s.log)
  }

  /** The same, but for a message that `s'` has in hand and `s` counts as returned. */
  ghost predicate ButInHand(s: State, s': State) {
    s.q.hand == None && s'.q == s.q.(hand := s'.q.hand) && s'.log == s.log.(returned := s'.log.returned)
  }

  ghost predicate KeepsHand(s: State, s': State, t: State, t': State) {
    ButInHand(t, t') && t'.q.hand == s'.q.hand && t'.log.returned == s'.log.returned && t.log.returned == s.log.returned
  }

  lemma ArrivesInHand(s: State, s': State, a: Arrival)
    requires ButInHand(s, s')
    ensures KeepsHand(s, s', Apply(s, ActionOf(a)), Apply(s', ActionOf(a)))
  {
    match a
    case Posted(_) =>
    case PostedDelayed(_, _, _) =>
    case Cleared(handler, id) => ClearsInHand(s, s', handler, id);
    case Stopped =>
    case Restarted =>
  }

  lemma ClearApplied(s: State, handler: nat, id: nat)
    ensures var q := ApplyClear(s.q, handler, id);
            Apply(s, Clear(handler, id)) == State(q, s.log.(cleared := s.log.cleared + (Held(s.q) - Held(q))))
  {
  }

  lemma ClearsInHand(s: State, s': State, handler: nat, id: nat)
    requires ButInHand(s, s')
    ensures KeepsHand(s, s', Apply(s, Clear(handler, id)), Apply(s', Clear(handler, id)))
  {
    ClearInHand(s.q, s'.q, handler, id);
    ClearApplied(s, handler, id);
    ClearApplied(s', handler, id);
  }

  /** What arrives between the two steps of Peek does not see what it has in hand. */
  lemma {:induction false} ArriveInHand(s: State, s': State, arrivals: seq<Arrival>)
    requires ButInHand(s, s')
    ensures KeepsHand(s, s', ArriveAll(s, arrivals), ArriveAll(s', arrivals))
    decreases |arrivals|
  {
    if arrivals != [] {
      var a := arrivals[0];
      ArrivesInHand(s, s', a);
      ArriveInHand(Apply(s, ActionOf(a)), Apply(s', ActionOf(a)), arrivals[1..]);
    }
  }

  lemma StashedIs(s: State, m: Message, late: seq<Arrival>, t: State, t': State)
    requires s.q.hand == None && t == ArriveAll(s, late)
    requires t' == State(t.q.(peek := Some(m)), t.log.(returned := t.log.returned - multiset{m}))
    ensures t' == Stashed(ArriveAll(InHand(s, m), late))
  {
    ArriveInHand(s, InHand(s, m), late);
  }

  lemma ClearInHand(q: Queue, q': Queue, handler: nat, id: nat)
    requires q.hand == None && q' == q.(hand := q'.hand)
    ensures Held(q') - Held(ApplyClear(q', handler, id)) == Held(q) - Held(ApplyClear(q, handler, id))
  {
    var r, r' := ApplyClear(q, handler, id), ApplyClear(q', handler, id);
    HeldInHand(q, q');
    HeldInHand(r, r');
    SameDifference(Held(q), Held(r), Bag(q'.hand));
  }

  lemma HeldInHand(q: Queue, q': Queue)
    requires q.hand == None && q' == q.(hand := q'.hand)
    ensures Held(q') == Held(q) + Bag(q'.hand)
  {
  }

  lemma SameDifference(a: multiset<Message>, b: multiset<Message>, x: multiset<Message>)
    ensures (a + x) - (b + x) == a - b
  {
  }

  // ---------------------------------------------------------------- Get is a run

  predicate Empty(q: Queue) {
    q.peek == None && q.hand == None
  }

  /** The due messages move, one step each. */
  lemma {:induction false} DueReachable(s: State, at: int)
    requires Reachable(s)
    ensures Reachable(Due(s, at))
    decreases |s.q.dmsgq|
  {
    var ds := s.q.dmsgq;
    if ds == [] || at < ds[TopIndex(ds)].trigger {
      assert Line(s.q, at) == s.q.msgq;
    } else {
      ReachableStep(s, Transfer(at));
      DueReachable(Apply(s, Transfer(at)), at);
      DueAfterOne(s, at);
    }
  }

  lemma DueAfterOne(s: State, at: int)
    requires Enabled(s, Transfer(at))
    ensures Due(Apply(s, Transfer(at)), at) == Due(s, at)
  {
    var ds := s.q.dmsgq;
    var i := TopIndex(ds);
    MsgsCons(ds[i], Drain(Without(ds, i), at).0);
    Regroup(s.q.msgq, ds[i].msg, Msgs(Drain(Without(ds, i), at).0));
  }

  lemma Regroup(a: seq<Message>, m: Message, b: seq<Message>)
    ensures a + [m] + b == a + ([m] + b)
  {
  }

  /** What arrives after each message disposed of keeps the rules. */
  predicate GapsKept(s: State, gaps: seq<seq<Arrival>>)
    decreases |gaps|, |s.q.msgq|
  {
    s.q.msgq != [] && s.q.msgq[0].id == MQID_DISPOSE ==>
      && RulesKept(DisposedFirst(s), First(gaps))
      && GapsKept(ArriveAll(DisposedFirst(s), First(gaps)), Rest(gaps))
  }

  lemma DisposeStep(s: State, forPeek: bool)
    requires Empty(s.q) && s.q.msgq != [] && s.q.msgq[0].id == MQID_DISPOSE
    ensures Enabled(s, Pull(forPeek)) && Apply(s, Pull(forPeek)) == DisposedFirst(s)
  {
  }

  lemma TakeStep(s: State, forPeek: bool)
    requires Empty(s.q) && s.q.msgq != [] && s.q.msgq[0].id != MQID_DISPOSE
    ensures Enabled(s, Pull(forPeek)) && Apply(s, Pull(forPeek)) == TookFirst(s, forPeek)
  {
  }

  /** Messages come off the front of msgq_, one step each, and others act in between. */
  lemma {:induction false} PullsReachable(s: State, gaps: seq<seq<Arrival>>, forPeek: bool)
    requires Reachable(s) && Empty(s.q) && GapsKept(s, gaps)
    ensures Reachable(Pulled(s, gaps, forPeek).1) && Pulled(s, gaps, forPeek).1.q.peek == None
    ensures Pulled(s, gaps, forPeek).0 == None || !forPeek ==> Empty(Pulled(s, gaps, forPeek).1.q)
    decreases |gaps|, |s.q.msgq|
  {
    if s.q.msgq != [] {
      if s.q.msgq[0].id == MQID_DISPOSE {
        DisposeStep(s, forPeek);
        ReachableStep(s, Pull(forPeek));
        ArrivalsReachable(DisposedFirst(s), First(gaps));
        ArrivalsLeaveSlot(DisposedFirst(s), First(gaps));
        PullsReachable(ArriveAll(DisposedFirst(s), First(gaps)), Rest(gaps), forPeek);
      } else {
        TakeStep(s, forPeek);
        ReachableStep(s, Pull(forPeek));
      }
    }
  }

  /** What happens during a look keeps the rules. */
  predicate TurnKept(s: State, at: int, turn: Turn) {
    && GapsKept(Due(s, at), turn.gaps)
    && (Found(s, at, turn) == None ==> RulesKept(Pulled(Due(s, at), turn.gaps, false).1, turn.before))
  }

  lemma LookReachable(s: State, at: int, turn: Turn, forPeek: bool)
    requires Reachable(s) && Empty(s.q) && TurnKept(s, at, turn)
    ensures var s' := AfterLook(s, at, turn, forPeek);
            Reachable(s') && s'.q.peek == None && (!forPeek || Found(s, at, turn) == None ==> Empty(s'.q))
  {
    DueReachable(s, at);
    PullsReachable(Due(s, at), turn.gaps, forPeek);
    PulledTheSame(Due(s, at), turn.gaps);
    if Found(s, at, turn) == None {
      var s' := Pulled(Due(s, at), turn.gaps, false).1;
      ArrivalsReachable(s', turn.before);
      ArrivalsLeaveSlot(s', turn.before);
    }
  }

  /** What happens during look i and the wait after it keeps the rules. */
  predicate LookKept(s: State, c: Call, i: nat) {
    && i <= |c.pauses| && TurnKept(StateAt(s, c, i), TimeAt(c, i), TurnAt(c, i))
    && (i < |c.pauses| ==> RulesKept(LeftBy(s, c, i, false), c.pauses[i].arrivals))
  }

  /** The queue before look i can be reached. */
  ghost predicate Sound(s: State, c: Call, i: nat) {
    i <= |c.pauses| && Reachable(StateAt(s, c, i)) && Empty(StateAt(s, c, i).q)
  }

  lemma SoundNext(s: State, c: Call, i: nat)
    requires Sound(s, c, i) && LookKept(s, c, i) && i < |c.pauses|
    ensures Sound(s, c, i + 1)
  {
    LookReachable(StateAt(s, c, i), TimeAt(c, i), TurnAt(c, i), false);
    ArrivalsReachable(LeftBy(s, c, i, false), c.pauses[i].arrivals);
    ArrivalsLeaveSlot(LeftBy(s, c, i, false), c.pauses[i].arrivals);
  }

  lemma LooksReachable(s: State, c: Call, n: nat)
    requires Reachable(s) && Empty(s.q) && n <= |c.pauses|
    requires forall i | 0 <= i < n :: LookKept(s, c, i)
    ensures Sound(s, c, n)
  {
    for i := 0 to n
      invariant Sound(s, c, i)
    {
      SoundNext(s, c, i);
    }
  }

  /** Whatever Get does is a run of the step system, so that conservation and the barrier hold of it; so is
      what Peek does until it has the message in hand. */
  lemma OutcomeReachable(s: State, c: Call, waits: seq<WaitCall>, result: GetResult, end: State, forPeek: bool)
    requires Reachable(s) && Empty(s.q) && Outcome(s, c, waits, result, end, forPeek)
    requires forall i | 0 <= i <= |waits| && i <= |c.pauses| :: LookKept(s, c, i)
    ensures Reachable(end) && end.q.peek == None
  {
    var n := Min(|waits|, |c.pauses|);
    LooksReachable(s, c, n);
    if !result.WaitFailed? && !result.TimedOut? {
      assert LookKept(s, c, n);
      LookReachable(StateAt(s, c, n), TimeAt(c, n), TurnAt(c, n), forPeek);
    }
  }

  /** The rest of Peek is, too. */
  lemma StashReachable(s: State, late: seq<Arrival>)
    requires Reachable(s) && s.q.peek == None && s.q.hand.Some? && RulesKept(s, late)
    ensures Reachable(Stashed(ArriveAll(s, late)))
  {
    ArrivalsReachable(s, late);
    ArrivalsLeaveSlot(s, late);
    ReachableStep(ArriveAll(s, late), Stash);
  }
}
