/**
 The recursive lock built from one counter, an owner field, a recursion count and a
 semaphore (base/criticalsection.cc, the Mac path), as an interleaved step system over
 any number of threads.

 Every step is an atomic operation, a semaphore operation, or an access to a shared field: one read,
 one write, or a statement of the source that updates a field only the holder writes.  `Run(t)` lets
 thread `t` make the next access of the call it is in; `Call(t, op)` makes an idle thread start a call.
 A failed RTC_DCHECK sends its thread to `Failed`, so "no thread is ever `Failed`" is the statement that
 every check passes.
 */
module CriticalSectionModel {
  import opened Basics

  /** Thread references.  0 is "no thread", as in the source. */
  type Tid = nat

  datatype Pc =
    | Idle
      // Enter
    | ReadOwner(spin: nat)
    | LoadQueue(spin: nat)
    | CasQueue(spin: nat)
    | BumpQueue
    | SlowBump
    | CheckNotOwner
    | Park
    | CheckNoOwner
    | CheckNoRecursion
    | WriteOwner
    | BumpRecursion
      // the debug bookkeeping at the end of Enter and TryEnter
    | DebugReadCount
    | DebugCheckFree
    | DebugWriteThread
    | DebugCheckOwner
    | DebugBump
      // TryEnter
    | TryReadOwner
    | TryCas
    | TryWriteOwner
    | TryCheckRecursion
    | TryBumpQueue
      // Leave
    | LeaveCheckDebug
    | LeaveDebugDrop
    | LeaveCheckCount
    | LeaveDebugThread
    | LeaveCheckOwner
    | LeaveCheckRecursion
    | DropRecursion
    | DropOwner
    | DropQueue
    | ReadRecursion
    | Signal
      // an RTC_DCHECK did not hold
    | Failed

  /** `depth` is how many Enter/TryEnter calls of this thread succeeded and were not yet
      undone by Leave. */
  datatype Thread = Thread(pc: Pc, depth: nat)

  /** The fields of the lock object. */
  datatype Lock = Lock(lockQueue: int, owner: Tid, recursion: int, sem: nat, debugThread: Tid, debugCount: int)

  datatype State = State(lock: Lock, threads: map<Tid, Thread>)

  datatype Op = Enter | TryEnter | Leave
  datatype Action = Call(t: Tid, op: Op) | Run(t: Tid)

  const SPIN: nat := 3000

  function Init(ids: set<Tid>): State {
    State(Lock(0, 0, 0, 0, 0, 0), map t | t in ids :: Thread(Idle, 0))
  }

  /** What one step leaves behind: the lock's fields and the moving thread. */
  datatype Effect = Effect(lock: Lock, thread: Thread)

  /** The only step that blocks is the semaphore wait. */
  predicate CanRun(l: Lock, th: Thread) {
    th.pc != Idle && th.pc != Failed && (th.pc == Park ==> l.sem > 0)
  }

  /** The tail of the spin loop: yield, count down, try again or stop spinning. */
  function SpinAgain(spin: nat): Pc {
    if spin > 1 then ReadOwner(spin - 1) else SlowBump
  }

  function Check(ok: bool, next: Pc): Pc {
    if ok then next else Failed
  }

  function RunEnter(l: Lock, t: Tid, th: Thread): Effect
    requires CanRun(l, th)
  {
    match th.pc
    case ReadOwner(spin) => Effect(l, th.(pc := if l.owner == t then BumpQueue else LoadQueue(spin)))
    case LoadQueue(spin) => Effect(l, th.(pc := if l.lockQueue == 0 then CasQueue(spin) else SpinAgain(spin)))
    case CasQueue(spin) =>
      if l.lockQueue == 0 then Effect(l.(lockQueue := 1), th.(pc := WriteOwner))
      else Effect(l, th.(pc := SpinAgain(spin)))
    case BumpQueue => Effect(l.(lockQueue := l.lockQueue + 1), th.(pc := WriteOwner))
    case SlowBump =>
      Effect(l.(lockQueue := l.lockQueue + 1), th.(pc := if l.lockQueue + 1 > 1 then CheckNotOwner else WriteOwner))
    case CheckNotOwner => Effect(l, th.(pc := Check(l.owner != t, Park)))
    case Park => Effect(l.(sem := l.sem - 1), th.(pc := CheckNoOwner))
    case CheckNoOwner => Effect(l, th.(pc := Check(l.owner == 0, CheckNoRecursion)))
    case CheckNoRecursion => Effect(l, th.(pc := Check(l.recursion == 0, WriteOwner)))
    case WriteOwner => Effect(l.(owner := t), th.(pc := BumpRecursion))
    case BumpRecursion => Effect(l.(recursion := l.recursion + 1), th.(pc := DebugReadCount))
    case DebugReadCount => Effect(l, th.(pc := if l.debugCount == 0 then DebugCheckFree else DebugCheckOwner))
    case DebugCheckFree => Effect(l, th.(pc := Check(l.debugThread == 0, DebugWriteThread)))
    case DebugWriteThread => Effect(l.(debugThread := t), th.(pc := DebugBump))
    case DebugCheckOwner => Effect(l, th.(pc := Check(l.debugThread == t, DebugBump)))
    case DebugBump => Effect(l.(debugCount := l.debugCount + 1), Thread(Idle, th.depth + 1))
    case _ => Effect(l, th)
  }

  /** TryEnter up to the point where it joins the end of Enter. */
  function RunTryEnter(l: Lock, t: Tid, th: Thread): Effect
    requires CanRun(l, th)
  {
    match th.pc
    case TryReadOwner => Effect(l, th.(pc := if l.owner == t then TryBumpQueue else TryCas))
    case TryCas =>
      if l.lockQueue == 0 then Effect(l.(lockQueue := 1), th.(pc := TryWriteOwner)) else Effect(l, th.(pc := Idle))
    case TryWriteOwner => Effect(l.(owner := t), th.(pc := TryCheckRecursion))
    case TryCheckRecursion => Effect(l, th.(pc := Check(l.recursion == 0, BumpRecursion)))
    case TryBumpQueue => Effect(l.(lockQueue := l.lockQueue + 1), th.(pc := BumpRecursion))
    case _ => Effect(l, th)
  }

  /** Leave has returned: the thread holds the lock one time less. */
  function Left(th: Thread): Thread {
    Thread(Idle, if th.depth > 0 then th.depth - 1 else 0)
  }

  function RunLeave(l: Lock, t: Tid, th: Thread): Effect
    requires CanRun(l, th)
  {
    match th.pc
    case LeaveCheckDebug => Effect(l, th.(pc := Check(l.debugThread == t, LeaveDebugDrop)))
    case LeaveDebugDrop => Effect(l.(debugCount := l.debugCount - 1), th.(pc := LeaveCheckCount))
    case LeaveCheckCount => Effect(l, th.(pc := Check(l.debugCount >= 0, LeaveDebugThread)))
    case LeaveDebugThread =>
      Effect(l.(debugThread := if l.debugCount == 0 then 0 else l.debugThread), th.(pc := LeaveCheckOwner))
    case LeaveCheckOwner => Effect(l, th.(pc := Check(l.owner == t, LeaveCheckRecursion)))
    case LeaveCheckRecursion => Effect(l, th.(pc := Check(l.recursion >= 0, DropRecursion)))
    case DropRecursion => Effect(l.(recursion := l.recursion - 1), th.(pc := DropOwner))
    case DropOwner => Effect(l.(owner := if l.recursion == 0 then 0 else l.owner), th.(pc := DropQueue))
    case DropQueue =>
      Effect(l.(lockQueue := l.lockQueue - 1), if l.lockQueue - 1 > 0 then th.(pc := ReadRecursion) else Left(th))
    case ReadRecursion => Effect(l, if l.recursion == 0 then th.(pc := Signal) else Left(th))
    case Signal => Effect(l.(sem := l.sem + 1), Left(th))
    case _ => Effect(l, th)
  }

  predicate InTryEnter(pc: Pc) {
    pc == TryReadOwner || pc == TryCas || pc == TryWriteOwner || pc == TryCheckRecursion || pc == TryBumpQueue
  }

  predicate InLeave(pc: Pc) {
    || pc == LeaveCheckDebug || pc == LeaveDebugDrop || pc == LeaveCheckCount || pc == LeaveDebugThread
    || pc == LeaveCheckOwner || pc == LeaveCheckRecursion || pc == DropRecursion || pc == DropOwner
    || pc == DropQueue || pc == ReadRecursion || pc == Signal
  }

  function RunThread(l: Lock, t: Tid, th: Thread): Effect
    requires CanRun(l, th)
  {
    if InTryEnter(th.pc) then RunTryEnter(l, t, th)
    else if InLeave(th.pc) then RunLeave(l, t, th)
    else RunEnter(l, t, th)
  }

  function Begin(op: Op): Pc {
    match op
    case Enter => ReadOwner(SPIN)
    case TryEnter => TryReadOwner
    case Leave => LeaveCheckDebug
  }

  /** Leave may only be called by a thread that holds the lock. */
  predicate EnabledFor(l: Lock, th: Thread, a: Action) {
    match a
    case Call(_, op) => th.pc == Idle && (op == Leave ==> th.depth > 0)
    case Run(_) => CanRun(l, th)
  }

  function EffectOf(l: Lock, th: Thread, a: Action): Effect
    requires EnabledFor(l, th, a)
  {
    if a.Call? then Effect(l, th.(pc := Begin(a.op))) else RunThread(l, a.t, th)
  }

  predicate Enabled(s: State, a: Action) {
    a.t in s.threads && EnabledFor(s.lock, s.threads[a.t], a)
  }

  function Apply(s: State, a: Action): State
    requires Enabled(s, a)
  {
    var e := EffectOf(s.lock, s.threads[a.t], a);
    State(e.lock, s.threads[a.t := e.thread])
  }

  // ---------------------------------------------------------------- runs

  predicate ValidRun(s: State, acts: seq<Action>)
    decreases |acts|
  {
    acts == [] || (Enabled(s, acts[0]) && ValidRun(Apply(s, acts[0]), acts[1..]))
  }

  function After(s: State, acts: seq<Action>): State
    requires ValidRun(s, acts)
    decreases |acts|
  {
    if acts == [] then s else After(Apply(s, acts[0]), acts[1..])
  }

  /** The states some run from a freshly constructed lock over some threads ends in. */
  ghost predicate Reachable(s: State) {
    exists ids: set<Tid>, acts: seq<Action> ::
      0 !in ids && ValidRun(Init(ids), acts) && After(Init(ids), acts) == s
  }

  // ---------------------------------------------------------------- meaning of a thread's position

  /** In line for the lock: counted in lock_queue_, not yet granted. */
  predicate Waits(th: Thread) {
    th.pc == CheckNotOwner || th.pc == Park
  }

  /** Between the successful acquisition and the return of Enter or TryEnter. */
  predicate Acquired(th: Thread) {
    || th.pc == CheckNoOwner || th.pc == CheckNoRecursion || th.pc == WriteOwner || th.pc == BumpRecursion
    || th.pc == TryWriteOwner || th.pc == TryCheckRecursion
    || th.pc == DebugReadCount || th.pc == DebugCheckFree || th.pc == DebugWriteThread
    || th.pc == DebugCheckOwner || th.pc == DebugBump
  }

  /** Leave has given its unit of lock_queue_ back but not yet returned. */
  predicate Releasing(th: Thread) {
    th.pc == ReadRecursion || th.pc == Signal
  }

  /** The thread has the lock, or has let go of it and still owes the wake-up. */
  predicate Baton(th: Thread) {
    Acquired(th) || (th.depth > 0 && !Waits(th))
  }

  /** How many units of lock_queue_ the thread's own locking accounts for. */
  function Holds(th: Thread): nat {
    if Waits(th) then 0
    else if Acquired(th) then th.depth + 1
    else if Releasing(th) && th.depth > 0 then th.depth - 1
    else th.depth
  }

  ghost function Waiters(s: State): set<Tid> {
    set t | t in s.threads && Waits(s.threads[t])
  }

  // ---------------------------------------------------------------- the invariant

  /** What a thread's position says about its own depth. */
  predicate DepthFits(th: Thread) {
    && th.pc != Failed
    && ((th.pc.LoadQueue? || th.pc.CasQueue? || th.pc == SlowBump || th.pc == TryCas || Waits(th)
        || th.pc == CheckNoOwner || th.pc == CheckNoRecursion || th.pc == TryWriteOwner
        || th.pc == TryCheckRecursion || th.pc == DebugCheckFree || th.pc == DebugWriteThread) ==> th.depth == 0)
    && ((th.pc == BumpQueue || th.pc == TryBumpQueue || InLeave(th.pc) || th.pc == DebugCheckOwner) ==> th.depth > 0)
    && (th.pc == Signal ==> th.depth == 1)
  }

  /** The value of owning_thread_ while `t` has the baton. */
  function OwnerOf(t: Tid, th: Thread): Tid {
    match th.pc
    case CheckNoOwner | CheckNoRecursion | TryWriteOwner | Signal => 0
    case WriteOwner => if th.depth > 0 then t else 0
    case DropQueue | ReadRecursion => if th.depth > 1 then t else 0
    case _ => t
  }

  /** The value of recursion_ while a thread at `th` has the baton. */
  function RecursionOf(th: Thread): int {
    match th.pc
    case DebugReadCount | DebugCheckFree | DebugWriteThread | DebugCheckOwner | DebugBump => th.depth + 1
    case DropOwner | DropQueue | ReadRecursion | Signal => th.depth - 1
    case _ => th.depth
  }

  function DebugCountOf(th: Thread): int {
    if InLeave(th.pc) && th.pc != LeaveCheckDebug && th.pc != LeaveDebugDrop then th.depth - 1 else th.depth
  }

  function DebugThreadOf(t: Tid, th: Thread): Tid {
    match th.pc
    case DebugBump | LeaveCheckCount | LeaveDebugThread => t
    case LeaveCheckOwner | LeaveCheckRecursion | DropRecursion | DropOwner | DropQueue | ReadRecursion | Signal =>
      if th.depth > 1 then t else 0
    case _ => if th.depth > 0 then t else 0
  }

  /** The lock as the thread `t` with the baton sees it, with `w` threads waiting. */
  predicate HeldBy(l: Lock, t: Tid, th: Thread, w: nat) {
    && l.lockQueue == Holds(th) + w
    && l.sem == 0
    && l.owner == OwnerOf(t, th)
    && l.recursion == RecursionOf(th)
    && l.debugCount == DebugCountOf(th)
    && l.debugThread == DebugThreadOf(t, th)
    && (Releasing(th) && th.depth == 1 ==> w > 0)
  }

  /** The lock while no thread has the baton: free, or one wake-up on its way to a waiter. */
  predicate HeldByNone(l: Lock, w: nat) {
    && l.lockQueue == w
    && l.sem == (if w == 0 then 0 else 1)
    && l.owner == 0 && l.recursion == 0 && l.debugCount == 0 && l.debugThread == 0
  }

  /** `h` is the thread with the baton; 0 when there is none. */
  ghost predicate InvAt(s: State, h: Tid) {
    && 0 !in s.threads && (h == 0 || h in s.threads)
    && (forall t | t in s.threads :: DepthFits(s.threads[t]) && (Baton(s.threads[t]) <==> t == h))
    && (if h in s.threads then HeldBy(s.lock, h, s.threads[h], |Waiters(s)|) else HeldByNone(s.lock, |Waiters(s)|))
  }

  // ---------------------------------------------------------------- preservation

  lemma WaitersAfter(s: State, s': State, t: Tid)
    requires t in s.threads && s'.threads.Keys == s.threads.Keys
    requires forall u | u in s.threads && u != t :: s'.threads[u] == s.threads[u]
    ensures |Waiters(s')| == |Waiters(s)| + One(Waits(s'.threads[t])) - One(Waits(s.threads[t]))
    ensures Waits(s.threads[t]) ==> t in Waiters(s)
  {
    assert Waiters(s') - {t} == Waiters(s) - {t};
    CountApart(Waiters(s), t);
    CountApart(Waiters(s'), t);
  }

  lemma CountApart(a: set<Tid>, t: Tid)
    ensures |a| == |a - {t}| + One(t in a)
  {
    if t in a {
      assert a == (a - {t}) + {t};
    } else {
      assert a == a - {t};
    }
  }

  /** A thread that does not have the baton while another one does can only look, or get in line. */
  lemma BystanderStep(l: Lock, th: Thread, a: Action)
    requires DepthFits(th) && !Baton(th) && EnabledFor(l, th, a)
    requires l.lockQueue > 0 && l.owner != a.t && l.sem == 0
    ensures var e := EffectOf(l, th, a);
            && DepthFits(e.thread) && !Baton(e.thread) && (Waits(th) ==> Waits(e.thread))
            && e.lock == l.(lockQueue := l.lockQueue + One(Waits(e.thread)) - One(Waits(th)))
  {
  }

  /** A step while nobody has the baton: the mover takes it, or nothing but the queue changes. */
  lemma ContenderStep(l: Lock, th: Thread, a: Action, w: nat)
    requires DepthFits(th) && !Baton(th) && EnabledFor(l, th, a) && a.t != 0
    requires HeldByNone(l, w) && (Waits(th) ==> w > 0)
    ensures var e := EffectOf(l, th, a);
            var w' := w + One(Waits(e.thread)) - One(Waits(th));
            && DepthFits(e.thread) && w' >= 0
            && if Baton(e.thread) then HeldBy(e.lock, a.t, e.thread, w') else HeldByNone(e.lock, w')
  {
    if a.Run? {
      if InTryEnter(th.pc) { ContenderTries(l, th, a.t, w); } else { ContenderEnters(l, th, a.t, w); }
    }
  }

  /** The mover has taken the baton, or nothing but the queue has changed. */
  predicate TakesOrWaits(e: Effect, t: Tid, w: int) {
    && DepthFits(e.thread) && w >= 0
    && if Baton(e.thread) then HeldBy(e.lock, t, e.thread, w) else HeldByNone(e.lock, w)
  }

  lemma ContenderEnters(l: Lock, th: Thread, t: Tid, w: nat)
    requires DepthFits(th) && !Baton(th) && CanRun(l, th) && t != 0
    requires HeldByNone(l, w) && (Waits(th) ==> w > 0) && !InTryEnter(th.pc) && !InLeave(th.pc)
    ensures var e := RunEnter(l, t, th); TakesOrWaits(e, t, w + One(Waits(e.thread)) - One(Waits(th)))
  {
  }

  lemma ContenderTries(l: Lock, th: Thread, t: Tid, w: nat)
    requires DepthFits(th) && !Baton(th) && CanRun(l, th) && t != 0
    requires HeldByNone(l, w) && InTryEnter(th.pc)
    ensures var e := RunTryEnter(l, t, th); TakesOrWaits(e, t, w + One(Waits(e.thread)) - One(Waits(th)))
  {
  }

  predicate KeepsOrPasses(e: Effect, t: Tid, w: nat) {
    && DepthFits(e.thread) && !Waits(e.thread)
    && if Baton(e.thread) then HeldBy(e.lock, t, e.thread, w) else HeldByNone(e.lock, w)
  }

  predicate InDebug(pc: Pc) {
    pc == DebugReadCount || pc == DebugCheckFree || pc == DebugWriteThread || pc == DebugCheckOwner || pc == DebugBump
  }

  predicate InLeaveDebug(pc: Pc) {
    pc == LeaveCheckDebug || pc == LeaveDebugDrop || pc == LeaveCheckCount || pc == LeaveDebugThread
  }

  lemma HolderEnters(l: Lock, t: Tid, th: Thread, w: nat)
    requires DepthFits(th) && Baton(th) && CanRun(l, th) && t != 0
    requires HeldBy(l, t, th, w) && !InTryEnter(th.pc) && !InLeave(th.pc) && !InDebug(th.pc)
    ensures KeepsOrPasses(RunEnter(l, t, th), t, w)
  {
  }

  /** The debug bookkeeping at the end of Enter and TryEnter: its checks. */
  lemma HolderDebugs(l: Lock, t: Tid, th: Thread, w: nat)
    requires DepthFits(th) && Baton(th) && CanRun(l, th) && t != 0
    requires HeldBy(l, t, th, w) && (th.pc == DebugReadCount || th.pc == DebugCheckFree || th.pc == DebugCheckOwner)
    ensures KeepsOrPasses(RunEnter(l, t, th), t, w)
  {
  }

  /** And its updates. */
  lemma HolderRecords(l: Lock, t: Tid, th: Thread, w: nat)
    requires DepthFits(th) && Baton(th) && CanRun(l, th) && t != 0
    requires HeldBy(l, t, th, w) && (th.pc == DebugWriteThread || th.pc == DebugBump)
    ensures KeepsOrPasses(RunEnter(l, t, th), t, w)
  {
  }

  lemma HolderTries(l: Lock, t: Tid, th: Thread, w: nat)
    requires DepthFits(th) && Baton(th) && CanRun(l, th) && t != 0
    requires HeldBy(l, t, th, w) && InTryEnter(th.pc)
    ensures KeepsOrPasses(RunTryEnter(l, t, th), t, w)
  {
  }

  /** The debug bookkeeping at the start of Leave. */
  lemma HolderChecksDebug(l: Lock, t: Tid, th: Thread, w: nat)
    requires DepthFits(th) && Baton(th) && CanRun(l, th) && t != 0
    requires HeldBy(l, t, th, w) && InLeaveDebug(th.pc)
    ensures KeepsOrPasses(RunLeave(l, t, th), t, w)
  {
  }

  /** The checks before the lock's own fields are given up. */
  lemma HolderChecks(l: Lock, t: Tid, th: Thread, w: nat)
    requires DepthFits(th) && Baton(th) && CanRun(l, th) && t != 0
    requires HeldBy(l, t, th, w) && (th.pc == LeaveCheckOwner || th.pc == LeaveCheckRecursion)
    ensures KeepsOrPasses(RunLeave(l, t, th), t, w)
  {
  }

  /** Leave gives up recursion_ and owning_thread_. */
  lemma HolderDrops(l: Lock, t: Tid, th: Thread, w: nat)
    requires DepthFits(th) && Baton(th) && CanRun(l, th) && t != 0
    requires HeldBy(l, t, th, w) && (th.pc == DropRecursion || th.pc == DropOwner)
    ensures KeepsOrPasses(RunLeave(l, t, th), t, w)
  {
  }

  /** Leave gives up its unit of lock_queue_. */
  lemma HolderDropsQueue(l: Lock, t: Tid, th: Thread, w: nat)
    requires DepthFits(th) && Baton(th) && CanRun(l, th) && t != 0
    requires HeldBy(l, t, th, w) && th.pc == DropQueue
    ensures KeepsOrPasses(RunLeave(l, t, th), t, w)
  {
  }

  /** Leave wakes a waiter. */
  lemma HolderHandsOver(l: Lock, t: Tid, th: Thread, w: nat)
    requires DepthFits(th) && Baton(th) && CanRun(l, th) && t != 0
    requires HeldBy(l, t, th, w) && (th.pc == ReadRecursion || th.pc == Signal)
    ensures KeepsOrPasses(RunLeave(l, t, th), t, w)
  {
  }

  /** A step of the thread with the baton keeps it, or passes it on: to nobody if nobody waits,
      and to the semaphore if somebody does. */
  lemma HolderStep(l: Lock, th: Thread, a: Action, w: nat)
    requires DepthFits(th) && Baton(th) && EnabledFor(l, th, a) && a.t != 0
    requires HeldBy(l, a.t, th, w)
    ensures KeepsOrPasses(EffectOf(l, th, a), a.t, w)
  {
    if a.Run? {
      if InTryEnter(th.pc) { HolderTries(l, a.t, th, w); }
      else if InLeaveDebug(th.pc) { HolderChecksDebug(l, a.t, th, w); }
      else if th.pc == LeaveCheckOwner || th.pc == LeaveCheckRecursion { HolderChecks(l, a.t, th, w); }
      else if th.pc == DropRecursion || th.pc == DropOwner { HolderDrops(l, a.t, th, w); }
      else if th.pc == DropQueue { HolderDropsQueue(l, a.t, th, w); }
      else if th.pc == ReadRecursion || th.pc == Signal { HolderHandsOver(l, a.t, th, w); }
      else if th.pc == DebugWriteThread || th.pc == DebugBump { HolderRecords(l, a.t, th, w); }
      else if InDebug(th.pc) { HolderDebugs(l, a.t, th, w); }
      else { HolderEnters(l, a.t, th, w); }
    }
  }

  /** Who has the baton after thread `t` moved. */
  function BatonAfter(s': State, t: Tid, h: Tid): Tid
    requires t in s'.threads
  {
    if Baton(s'.threads[t]) then t else if h == t then 0 else h
  }

  /** The invariant after thread `t` moved, from what its own step did. */
  lemma InvAfter(s: State, s': State, t: Tid, h: Tid)
    requires InvAt(s, h) && t in s.threads && s'.threads.Keys == s.threads.Keys && DepthFits(s'.threads[t])
    requires forall u | u in s.threads && u != t :: s'.threads[u] == s.threads[u]
    requires h != 0 && h != t ==> !Baton(s'.threads[t])
    requires var h' := BatonAfter(s', t, h);
             var w := |Waiters(s)| + One(Waits(s'.threads[t])) - One(Waits(s.threads[t]));
             w >= 0 && if h' == 0 then HeldByNone(s'.lock, w) else HeldBy(s'.lock, h', s'.threads[h'], w)
    ensures InvAt(s', BatonAfter(s', t, h))
  {
    WaitersAfter(s, s', t);
  }

  lemma WaiterCounted(s: State, t: Tid)
    requires t in s.threads && Waits(s.threads[t])
    ensures |Waiters(s)| > 0
  {
    assert t in Waiters(s);
  }

  function Moved(s: State, t: Tid, e: Effect): State {
    State(e.lock, s.threads[t := e.thread])
  }

  lemma HolderMoved(s: State, t: Tid, e: Effect)
    requires InvAt(s, t) && t in s.threads && KeepsOrPasses(e, t, |Waiters(s)|)
    ensures InvAt(Moved(s, t, e), BatonAfter(Moved(s, t, e), t, t))
  {
    InvAfter(s, Moved(s, t, e), t, t);
  }

  lemma ContenderMoved(s: State, t: Tid, e: Effect, w: nat)
    requires InvAt(s, 0) && t in s.threads && DepthFits(e.thread)
    requires w == |Waiters(s)| + One(Waits(e.thread)) - One(Waits(s.threads[t]))
    requires if Baton(e.thread) then HeldBy(e.lock, t, e.thread, w) else HeldByNone(e.lock, w)
    ensures InvAt(Moved(s, t, e), BatonAfter(Moved(s, t, e), t, 0))
  {
    InvAfter(s, Moved(s, t, e), t, 0);
  }

  lemma BystanderMoved(s: State, t: Tid, h: Tid, e: Effect)
    requires InvAt(s, h) && t in s.threads && h != t && h != 0 && DepthFits(e.thread) && !Baton(e.thread)
    requires Waits(s.threads[t]) ==> Waits(e.thread)
    requires e.lock == s.lock.(lockQueue := s.lock.lockQueue + One(Waits(e.thread)) - One(Waits(s.threads[t])))
    ensures InvAt(Moved(s, t, e), BatonAfter(Moved(s, t, e), t, h))
  {
    InvAfter(s, Moved(s, t, e), t, h);
  }

  /** Every step of every thread keeps the invariant. */
  lemma StepKeeps(s: State, h: Tid, a: Action)
    requires InvAt(s, h) && Enabled(s, a)
    ensures InvAt(Apply(s, a), BatonAfter(Apply(s, a), a.t, h))
  {
    var l, th, w := s.lock, s.threads[a.t], |Waiters(s)|;
    var e := EffectOf(l, th, a);
    if Waits(th) {
      WaiterCounted(s, a.t);
    }
    if h == a.t {
      HolderStep(l, th, a, w);
      HolderMoved(s, a.t, e);
    } else if h == 0 {
      ContenderStep(l, th, a, w);
      ContenderMoved(s, a.t, e, w + One(Waits(e.thread)) - One(Waits(th)));
    } else {
      BystanderStep(l, th, a);
      BystanderMoved(s, a.t, h, e);
    }
  }

  // ---------------------------------------------------------------- whole runs

  lemma {:induction false} RunKeeps(s: State, h: Tid, acts: seq<Action>) returns (h': Tid)
    requires InvAt(s, h) && ValidRun(s, acts)
    ensures InvAt(After(s, acts), h')
    decreases |acts|
  {
    if acts == [] {
      h' := h;
    } else {
      StepKeeps(s, h, acts[0]);
      h' := RunKeeps(Apply(s, acts[0]), BatonAfter(Apply(s, acts[0]), acts[0].t, h), acts[1..]);
    }
  }

  /** In every interleaving of any number of threads some thread, or nobody, has the baton,
      and the invariant relates the lock's fields to it. */
  lemma Safety(s: State) returns (h: Tid)
    requires Reachable(s)
    ensures InvAt(s, h)
  {
    var ids: set<Tid>, acts: seq<Action> :|
      0 !in ids && ValidRun(Init(ids), acts) && After(Init(ids), acts) == s;
    assert Waiters(Init(ids)) == {};
    h := RunKeeps(Init(ids), 0, acts);
  }

  /** A thread is inside the critical section once its call has returned, until it calls Leave. */
  predicate Inside(th: Thread) {
    th.pc == Idle && th.depth > 0
  }

  /** At most one thread has the lock, counting every thread between its acquisition and its
      release as having it; owning_thread_ never names anybody else. */
  lemma MutualExclusion(s: State, t: Tid, u: Tid)
    requires Reachable(s) && t in s.threads && u in s.threads
    requires Holds(s.threads[t]) > 0 && Holds(s.threads[u]) > 0
    ensures t == u && s.lock.owner in {0, t}
    ensures Inside(s.threads[t]) ==> s.lock.owner == t && s.lock.recursion == s.threads[t].depth
  {
    var h := Safety(s);
    assert DepthFits(s.threads[t]) && DepthFits(s.threads[u]);
  }

  /** The documented meaning of lock_queue_: the number of times the lock has been locked plus
      the number of threads waiting. */
  lemma QueueMeaning(s: State, t: Tid)
    requires Reachable(s) && t in s.threads
    ensures Holds(s.threads[t]) > 0 ==> s.lock.lockQueue == Holds(s.threads[t]) + |Waiters(s)|
    ensures (forall u | u in s.threads :: Holds(s.threads[u]) == 0) ==> s.lock.lockQueue == |Waiters(s)|
  {
    var h := Safety(s);
    assert DepthFits(s.threads[t]);
  }

  /** No RTC_DCHECK in Enter, TryEnter or Leave ever fires. */
  lemma ChecksPass(s: State, t: Tid)
    requires Reachable(s) && t in s.threads
    ensures s.threads[t].pc != Failed
  {
    var h := Safety(s);
    assert DepthFits(s.threads[t]);
  }

  /** The wake-up for a waiting thread is in exactly one place: with a thread that has the lock
      or has just let go of it and is about to signal, or in the semaphore, which never holds
      more than one. */
  lemma WakeupNeitherLostNorDuplicated(s: State, t: Tid)
    requires Reachable(s) && t in s.threads && Waits(s.threads[t])
    ensures s.lock.sem <= 1
    ensures s.lock.sem == 1 <==> !exists h :: h in s.threads && Baton(s.threads[h])
    ensures forall h, g | h in s.threads && Baton(s.threads[h]) && g in s.threads && Baton(s.threads[g]) :: h == g
    ensures forall h | h in s.threads && Baton(s.threads[h]) :: h != t && !Waits(s.threads[h])
  {
    var h := Safety(s);
    WakeupAt(s, h, t);
  }

  lemma WakeupAt(s: State, h: Tid, t: Tid)
    requires InvAt(s, h) && t in s.threads && Waits(s.threads[t])
    ensures s.lock.sem <= 1
    ensures s.lock.sem == 1 <==> !exists h :: h in s.threads && Baton(s.threads[h])
    ensures forall h, g | h in s.threads && Baton(s.threads[h]) && g in s.threads && Baton(s.threads[g]) :: h == g
    ensures forall h | h in s.threads && Baton(s.threads[h]) :: h != t && !Waits(s.threads[h])
  {
    assert t in Waiters(s);
  }

  /** Nobody waits in vain: if a parked thread cannot go on, then some other thread can, or that
      other thread is inside the critical section, between its calls. */
  lemma NoDeadlock(s: State, t: Tid) returns (h: Tid)
    requires Reachable(s) && t in s.threads && s.threads[t].pc == Park && !Enabled(s, Run(t))
    ensures h in s.threads && h != t && (Enabled(s, Run(h)) || Inside(s.threads[h]))
  {
    h := Safety(s);
    assert t in Waiters(s);
    assert DepthFits(s.threads[h]);
  }

  // ---------------------------------------------------------------- both paths can be taken

  lemma {:induction false} RunExtends(s: State, acts: seq<Action>, a: Action)
    requires ValidRun(s, acts) && Enabled(After(s, acts), a)
    ensures ValidRun(s, acts + [a]) && After(s, acts + [a]) == Apply(After(s, acts), a)
    decreases |acts|
  {
    if acts == [] {
      assert acts + [a] == [a];
    } else {
      RunExtends(Apply(s, acts[0]), acts[1..], a);
      assert (acts + [a])[1..] == acts[1..] + [a];
    }
  }

  /** Like `start`, but the lock is `l` and thread `t` is at `th`; and reachable. */
  ghost predicate Reached(start: State, t: Tid, l: Lock, th: Thread) {
    t in start.threads && Reachable(State(l, start.threads[t := th]))
  }

  lemma Go(start: State, a: Action, l: Lock, th: Thread, e: Effect)
    requires Reached(start, a.t, l, th) && EnabledFor(l, th, a) && EffectOf(l, th, a) == e
    ensures Reached(start, a.t, e.lock, e.thread)
  {
    var s := State(l, start.threads[a.t := th]);
    var ids: set<Tid>, acts: seq<Action> :|
      0 !in ids && ValidRun(Init(ids), acts) && After(Init(ids), acts) == s;
    RunExtends(Init(ids), acts, a);
    assert start.threads[a.t := th][a.t := e.thread] == start.threads[a.t := e.thread];
  }

  const FREE: Lock := Lock(0, 0, 0, 0, 0, 0)

  function TakenBy(t: Tid, queue: int): Lock {
    Lock(queue, t, 1, 0, t, 1)
  }

  /** A thread that calls Enter on a free lock can go on until it is inside. */
  lemma FreeLockCanBeTaken(start: State, t: Tid)
    requires Reached(start, t, FREE, Thread(Idle, 0)) && t != 0
    ensures Reached(start, t, TakenBy(t, 1), Thread(Idle, 1))
  {
    TakeQueue(start, t);
    TakeOwner(start, t);
    TakeDebug(start, t);
  }

  lemma TakeDebug(start: State, t: Tid)
    requires Reached(start, t, Lock(1, t, 1, 0, 0, 0), Thread(DebugCheckFree, 0))
    ensures Reached(start, t, TakenBy(t, 1), Thread(Idle, 1))
  {
    var l := Lock(1, t, 1, 0, 0, 0);
    Go(start, Run(t), l, Thread(DebugCheckFree, 0), Effect(l, Thread(DebugWriteThread, 0)));
    Go(start, Run(t), l, Thread(DebugWriteThread, 0), Effect(l.(debugThread := t), Thread(DebugBump, 0)));
    Go(start, Run(t), l.(debugThread := t), Thread(DebugBump, 0), Effect(TakenBy(t, 1), Thread(Idle, 1)));
  }

  lemma TakeQueue(start: State, t: Tid)
    requires Reached(start, t, FREE, Thread(Idle, 0)) && t != 0
    ensures Reached(start, t, Lock(1, 0, 0, 0, 0, 0), Thread(WriteOwner, 0))
  {
    Go(start, Call(t, Enter), FREE, Thread(Idle, 0), Effect(FREE, Thread(ReadOwner(SPIN), 0)));
    Go(start, Run(t), FREE, Thread(ReadOwner(SPIN), 0), Effect(FREE, Thread(LoadQueue(SPIN), 0)));
    SwapQueue(start, t);
  }

  lemma SwapQueue(start: State, t: Tid)
    requires Reached(start, t, FREE, Thread(LoadQueue(SPIN), 0))
    ensures Reached(start, t, Lock(1, 0, 0, 0, 0, 0), Thread(WriteOwner, 0))
  {
    Go(start, Run(t), FREE, Thread(LoadQueue(SPIN), 0), Effect(FREE, Thread(CasQueue(SPIN), 0)));
    Go(start, Run(t), FREE, Thread(CasQueue(SPIN), 0), Effect(Lock(1, 0, 0, 0, 0, 0), Thread(WriteOwner, 0)));
  }

  lemma TakeOwner(start: State, t: Tid)
    requires Reached(start, t, Lock(1, 0, 0, 0, 0, 0), Thread(WriteOwner, 0)) && t != 0
    ensures Reached(start, t, Lock(1, t, 1, 0, 0, 0), Thread(DebugCheckFree, 0))
  {
    var l := Lock(1, t, 1, 0, 0, 0);
    Go(start, Run(t), Lock(1, 0, 0, 0, 0, 0), Thread(WriteOwner, 0),
       Effect(l.(recursion := 0), Thread(BumpRecursion, 0)));
    Go(start, Run(t), l.(recursion := 0), Thread(BumpRecursion, 0), Effect(l, Thread(DebugReadCount, 0)));
    Go(start, Run(t), l, Thread(DebugReadCount, 0), Effect(l, Thread(DebugCheckFree, 0)));
  }

  lemma {:induction false} SpinOut(start: State, t: Tid, u: Tid, spin: nat)
    requires t != u && spin > 0 && Reached(start, u, TakenBy(t, 1), Thread(ReadOwner(spin), 0))
    ensures Reached(start, u, TakenBy(t, 1), Thread(SlowBump, 0))
    decreases spin
  {
    var l := TakenBy(t, 1);
    Go(start, Run(u), l, Thread(ReadOwner(spin), 0), Effect(l, Thread(LoadQueue(spin), 0)));
    Go(start, Run(u), l, Thread(LoadQueue(spin), 0), Effect(l, Thread(SpinAgain(spin), 0)));
    if spin > 1 {
      SpinOut(start, t, u, spin - 1);
    }
  }

  /** A second thread that calls Enter can spin out, get in line and park. */
  lemma SecondThreadCanPark(start: State, t: Tid, u: Tid)
    requires t != u && Reached(start, u, TakenBy(t, 1), Thread(Idle, 0))
    ensures Reached(start, u, TakenBy(t, 2), Thread(Park, 0))
  {
    Go(start, Call(u, Enter), TakenBy(t, 1), Thread(Idle, 0), Effect(TakenBy(t, 1), Thread(ReadOwner(SPIN), 0)));
    SpinOut(start, t, u, SPIN);
    GetInLine(start, t, u);
  }

  lemma GetInLine(start: State, t: Tid, u: Tid)
    requires t != u && Reached(start, u, TakenBy(t, 1), Thread(SlowBump, 0))
    ensures Reached(start, u, TakenBy(t, 2), Thread(Park, 0))
  {
    Go(start, Run(u), TakenBy(t, 1), Thread(SlowBump, 0), Effect(TakenBy(t, 2), Thread(CheckNotOwner, 0)));
    Go(start, Run(u), TakenBy(t, 2), Thread(CheckNotOwner, 0), Effect(TakenBy(t, 2), Thread(Park, 0)));
  }

  /** So there are reachable states with one thread inside and another parked. */
  lemma ContentionIsReachable(t: Tid, u: Tid) returns (s: State)
    requires t != 0 && u != 0 && t != u
    ensures Reachable(s) && t in s.threads && u in s.threads
    ensures Inside(s.threads[t]) && s.threads[u].pc == Park && s.lock == TakenBy(t, 2)
  {
    var start := Init({t, u});
    assert ValidRun(start, []) && After(start, []) == start;
    assert start == State(FREE, start.threads[t := Thread(Idle, 0)]);
    FreeLockCanBeTaken(start, t);
    var inside := State(TakenBy(t, 1), start.threads[t := Thread(Idle, 1)]);
    assert inside == State(TakenBy(t, 1), inside.threads[u := Thread(Idle, 0)]);
    SecondThreadCanPark(inside, t, u);
    s := State(TakenBy(t, 2), inside.threads[u := Thread(Park, 0)]);
  }

  // ---------------------------------------------------------------- refinement

  /** The lock a client sees: free, or locked `count` times by one thread. */
  datatype Abstract = Free | Held(tid: Tid, count: nat)

  ghost function Abstraction(s: State): Abstract {
    if exists t :: t in s.threads && Holds(s.threads[t]) > 0 then
      var t :| t in s.threads && Holds(s.threads[t]) > 0;
      Held(t, Holds(s.threads[t]))
    else Free
  }

  /** What thread `t` may do to an atomic recursive lock: nothing, unlock it once in Leave,
      lock it once in the other calls. */
  predicate AtomicStep(a: Abstract, a': Abstract, t: Tid, leaving: bool) {
    || a' == a
    || (!leaving && a == Free && a' == Held(t, 1))
    || (!leaving && a.Held? && a.tid == t && a' == Held(t, a.count + 1))
    || (leaving && a.Held? && a.tid == t && a' == if a.count > 1 then Held(t, a.count - 1) else Free)
  }

  /** Nobody but `h` holds the lock. */
  predicate OnlyHolds(s: State, h: Tid) {
    forall t | t in s.threads && t != h :: Holds(s.threads[t]) == 0
  }

  function View(s: State, h: Tid): Abstract {
    if h in s.threads && Holds(s.threads[h]) > 0 then Held(h, Holds(s.threads[h])) else Free
  }

  lemma AbstractionAt(s: State, h: Tid)
    requires InvAt(s, h)
    ensures OnlyHolds(s, h)
    ensures Abstraction(s) == View(s, h)
  {
    assert forall t | t in s.threads && t != h :: !Baton(s.threads[t]);
  }

  lemma EnterHolds(l: Lock, t: Tid, th: Thread)
    requires DepthFits(th) && CanRun(l, th)
    requires !InTryEnter(th.pc) && !InLeave(th.pc)
    requires RunEnter(l, t, th).thread.pc != Failed
    ensures Holds(th) <= Holds(RunEnter(l, t, th).thread) <= Holds(th) + 1
  {
  }

  lemma TryEnterHolds(l: Lock, t: Tid, th: Thread)
    requires DepthFits(th) && CanRun(l, th) && InTryEnter(th.pc)
    requires RunTryEnter(l, t, th).thread.pc != Failed
    ensures Holds(th) <= Holds(RunTryEnter(l, t, th).thread) <= Holds(th) + 1
  {
  }

  lemma LeaveHolds(l: Lock, t: Tid, th: Thread)
    requires DepthFits(th) && CanRun(l, th) && InLeave(th.pc)
    requires RunLeave(l, t, th).thread.pc != Failed
    ensures Holds(th) - 1 <= Holds(RunLeave(l, t, th).thread) <= Holds(th)
  {
  }

  /** Enter and TryEnter lock at most once in a step, Leave unlocks at most once. */
  lemma HoldsChange(l: Lock, th: Thread, a: Action)
    requires DepthFits(th) && EnabledFor(l, th, a) && EffectOf(l, th, a).thread.pc != Failed
    ensures var k := Holds(EffectOf(l, th, a).thread);
            k == Holds(th) || k == Holds(th) + (if InLeave(th.pc) then -1 else 1)
  {
    if a.Run? {
      if InTryEnter(th.pc) { TryEnterHolds(l, a.t, th); }
      else if InLeave(th.pc) { LeaveHolds(l, a.t, th); }
      else { EnterHolds(l, a.t, th); }
    }
  }

  lemma AtomicFromHolds(s: State, s': State, h: Tid, h': Tid, t: Tid, leaving: bool)
    requires OnlyHolds(s, h) && OnlyHolds(s', h') && t in s.threads && s'.threads.Keys == s.threads.Keys
    requires forall u | u in s.threads && u != t :: s'.threads[u] == s.threads[u]
    requires var k := Holds(s'.threads[t]);
             k == Holds(s.threads[t]) || k == Holds(s.threads[t]) + (if leaving then -1 else 1)
    ensures AtomicStep(View(s, h), View(s', h'), t, leaving)
  {
  }

  /** The lock implements an atomic recursive lock: every step of every reachable state is, to a
      client, nothing or one atomic lock or unlock by the thread that moved. */
  lemma RefinesAtomicLock(s: State, a: Action)
    requires Reachable(s) && Enabled(s, a)
    ensures AtomicStep(Abstraction(s), Abstraction(Apply(s, a)), a.t, InLeave(s.threads[a.t].pc))
  {
    var h := Safety(s);
    StepKeeps(s, h, a);
    RefinesAt(s, h, BatonAfter(Apply(s, a), a.t, h), a);
  }

  lemma RefinesAt(s: State, h: Tid, h': Tid, a: Action)
    requires InvAt(s, h) && Enabled(s, a) && InvAt(Apply(s, a), h')
    ensures AtomicStep(Abstraction(s), Abstraction(Apply(s, a)), a.t, InLeave(s.threads[a.t].pc))
  {
    AbstractionAt(s, h);
    AbstractionAt(Apply(s, a), h');
    AtomicAt(s, Apply(s, a), h, h', a);
  }

  lemma AtomicAt(s: State, s': State, h: Tid, h': Tid, a: Action)
    requires Enabled(s, a) && s' == Apply(s, a) && OnlyHolds(s, h) && OnlyHolds(s', h')
    requires DepthFits(s.threads[a.t]) && s'.threads[a.t].pc != Failed
    ensures AtomicStep(View(s, h), View(s', h'), a.t, InLeave(s.threads[a.t].pc))
  {
    HoldsChange(s.lock, s.threads[a.t], a);
    AtomicFromHolds(s, s', h, h', a.t, InLeave(s.threads[a.t].pc));
  }

  /** Between calls a thread's successful Enter and TryEnter calls, less its Leave calls, are
      exactly what the abstract lock says it holds. */
  lemma CallsAgreeWithAtomicLock(s: State, t: Tid)
    requires Reachable(s) && t in s.threads && s.threads[t].pc == Idle
    ensures if s.threads[t].depth > 0 then Abstraction(s) == Held(t, s.threads[t].depth)
            else !(Abstraction(s).Held? && Abstraction(s).tid == t)
  {
    var h := Safety(s);
    CallsAgreeAt(s, h, t);
  }

  lemma CallsAgreeAt(s: State, h: Tid, t: Tid)
    requires InvAt(s, h) && t in s.threads && s.threads[t].pc == Idle
    ensures if s.threads[t].depth > 0 then Abstraction(s) == Held(t, s.threads[t].depth)
            else !(Abstraction(s).Held? && Abstraction(s).tid == t)
  {
    AbstractionAt(s, h);
  }
}
