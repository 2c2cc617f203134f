/** From events::send to the consumers: events are posted to the io_service, its one thread
    hands each of them to the listeners, and a consumer thread per listener waits on a
    condition variable. Pushing and clearing the run flag happen outside the lock. */
module EventPipeline {
  import Ports

  type Event = Ports.Event

  /** Who holds a listener's mutex. */
  datatype Holder = Free | Consumer | Handler | Stopper

  /** Where the consumer thread stands. From Outer to Popping it holds the mutex. */
  datatype Pc =
    | Entering                   // about to lock
    | Outer                      // while (run)
    | QueueTest                  // queue.empty() &&
    | RunTest                    // && run
    | Waiting                    // about to wait
    | Asleep(signalled: bool)    // in cond.wait, the mutex released
    | Leaving                    // if (!run) return
    | Popping                    // front, pop_front and send
    | Returned

  /** stop(): run = false; then lock, notify_one and unlock. */
  datatype StopPhase = NotStopping | Cleared | StopLocked | StopNotified | Stopped

  /** An SSEContext, or a JsProcessor (which nothing stops), with its consumer. */
  datatype Listener = Listener(
    base: nat,                   // events handled before the subscription
    queue: seq<Event>,
    run: bool,
    stoppable: bool,
    mutex: Holder,
    pc: Pc,
    stopper: StopPhase,
    consumed: seq<Event>)

  /** add_event: push_back, then lock, notify_one and unlock. */
  datatype Phase = Pushing | Locking | Notifying | Unlocking

  /** The io_service thread between events, or handing one to listeners next, ... upTo - 1. */
  datatype Thread = Idle | Emitting(event: Event, next: nat, upTo: nat, phase: Phase)

  datatype State = State(posted: seq<Event>, handled: nat, thread: Thread, listeners: seq<Listener>)

  datatype Action =
    | Post(event: Event)
    | Subscribe(stoppable: bool)
    | Handle                     // a step of the io_service thread
    | Consume(listener: nat)     // a step of a consumer
    | Stop(listener: nat)        // a step of whoever stops it
    | Spurious(listener: nat)    // a spurious wakeup

  // ---------- steps of one listener ----------

  predicate CanConsume(x: Listener) {
    match x.pc
    case Entering => x.mutex.Free?
    case Asleep(signalled) => signalled && x.mutex.Free?
    case Popping => x.queue != []
    case Returned => false
    case _ => true
  }

  function ConsumeStep(x: Listener): Listener
    requires CanConsume(x)
  {
    match x.pc
    case Entering => x.(mutex := Consumer, pc := Outer)
    case Outer => if x.run then x.(pc := QueueTest) else x.(mutex := Free, pc := Returned)
    case QueueTest => if x.queue == [] then x.(pc := RunTest) else x.(pc := Leaving)
    case RunTest => if x.run then x.(pc := Waiting) else x.(pc := Leaving)
    case Waiting => x.(mutex := Free, pc := Asleep(false))
    case Asleep(_) => x.(mutex := Consumer, pc := QueueTest)
    case Leaving => if x.run then x.(pc := Popping) else x.(mutex := Free, pc := Returned)
    case Popping => x.(consumed := x.consumed + [x.queue[0]], queue := x.queue[1..], pc := Outer)
  }

  /** notify_one wakes the consumer if it is asleep. */
  function Notified(x: Listener): Listener {
    if x.pc.Asleep? then x.(pc := Asleep(true)) else x
  }

  predicate CanStop(x: Listener) {
    match x.stopper
    case NotStopping => x.stoppable
    case Cleared => x.mutex.Free?
    case StopLocked => true
    case StopNotified => true
    case Stopped => false
  }

  function StopStep(x: Listener): Listener
    requires CanStop(x)
  {
    match x.stopper
    case NotStopping => x.(run := false, stopper := Cleared)
    case Cleared => x.(mutex := Stopper, stopper := StopLocked)
    case StopLocked => Notified(x).(stopper := StopNotified)
    case StopNotified => x.(mutex := Free, stopper := Stopped)
  }

  // ---------- steps of the system ----------

  ghost predicate Enabled(s: State, a: Action) {
    match a
    case Post(_) => true
    case Subscribe(_) => true
    case Handle =>
      if s.thread.Idle? then s.handled < |s.posted|
      else s.thread.next < |s.listeners| && (s.thread.phase.Locking? ==> s.listeners[s.thread.next].mutex.Free?)
    case Consume(l) => l < |s.listeners| && CanConsume(s.listeners[l])
    case Stop(l) => l < |s.listeners| && CanStop(s.listeners[l])
    case Spurious(l) => l < |s.listeners| && s.listeners[l].pc.Asleep?
  }

  /** The thread goes on to the next listener. */
  function Proceed(t: Thread): Thread
    requires t.Emitting?
  {
    if t.next + 1 < t.upTo then t.(next := t.next + 1, phase := Pushing) else Idle
  }

  function HandleStep(s: State): State
    requires if s.thread.Idle? then s.handled < |s.posted| else s.thread.next < |s.listeners|
  {
    if s.thread.Idle? then
      // the signal is emitted to the listeners connected now
      s.(handled := s.handled + 1,
         thread := if s.listeners == [] then Idle else Emitting(s.posted[s.handled], 0, |s.listeners|, Pushing))
    else
      var l, t := s.thread.next, s.thread;
      var x := s.listeners[l];
      match t.phase
      case Pushing =>
        s.(listeners := s.listeners[l := x.(queue := x.queue + [t.event])], thread := t.(phase := Locking))
      case Locking => s.(listeners := s.listeners[l := x.(mutex := Handler)], thread := t.(phase := Notifying))
      case Notifying => s.(listeners := s.listeners[l := Notified(x)], thread := t.(phase := Unlocking))
      case Unlocking => s.(listeners := s.listeners[l := x.(mutex := Free)], thread := Proceed(t))
  }

  ghost function Next(s: State, a: Action): State
    requires Enabled(s, a)
  {
    match a
    case Post(e) => s.(posted := s.posted + [e])
    case Subscribe(stoppable) =>
      s.(listeners := s.listeners + [Listener(s.handled, [], true, stoppable, Free, Entering, NotStopping, [])])
    case Handle => HandleStep(s)
    case Consume(l) => s.(listeners := s.listeners[l := ConsumeStep(s.listeners[l])])
    case Stop(l) => s.(listeners := s.listeners[l := StopStep(s.listeners[l])])
    case Spurious(l) => s.(listeners := s.listeners[l := s.listeners[l].(pc := Asleep(true))])
  }

  // ---------- the invariant ----------

  /** The thread has pushed its event to listener l and not yet notified it. */
  predicate NotifyDue(t: Thread, l: nat) {
    t.Emitting? && t.next == l && (t.phase.Locking? || t.phase.Notifying?)
  }

  predicate HandlerHolds(t: Thread, l: nat) {
    t.Emitting? && t.next == l && (t.phase.Notifying? || t.phase.Unlocking?)
  }

  /** A sleeping consumer that has not been signalled has nothing to do, or whoever gave it
      something to do has yet to notify it. */
  predicate NoLostWakeup(x: Listener, due: bool) {
    x.pc == Asleep(false) ==>
      && (x.queue != [] ==> due)
      && (!x.run ==> x.stopper.Cleared? || x.stopper.StopLocked?)
  }

  ghost predicate ListenerInvariant(x: Listener, due: bool, held: bool) {
    && (x.mutex.Consumer? <==>
          x.pc.Outer? || x.pc.QueueTest? || x.pc.RunTest? || x.pc.Waiting? || x.pc.Leaving? || x.pc.Popping?)
    && (x.mutex.Stopper? <==> x.stopper.StopLocked? || x.stopper.StopNotified?)
    && (x.mutex.Handler? <==> held)
    && (x.run <==> x.stopper.NotStopping?) && (!x.run ==> x.stoppable)
    && NoLostWakeup(x, due)
    && (x.pc.RunTest? || x.pc.Waiting? ==> x.queue != [] ==> due)
    && (x.pc.Waiting? ==> !x.run ==> x.stopper.Cleared?)
    && (x.pc.Leaving? ==> x.queue != [] || !x.run)
    && (x.pc.Popping? ==> x.queue != [])
    && (x.pc.Returned? ==> !x.run)
  }

  /** How many of the posted events have been pushed to listener l. */
  function PushedTo(s: State, l: nat): int {
    if s.thread.Emitting? && l < s.thread.upTo && (s.thread.next < l || (s.thread.next == l && s.thread.phase.Pushing?))
    then s.handled - 1 else s.handled
  }

  /** What a listener has consumed and holds are the events handled since its subscription, in order. */
  ghost predicate InOrder(s: State, l: nat)
    requires l < |s.listeners|
  {
    var x, n := s.listeners[l], PushedTo(s, l);
    x.base <= n <= |s.posted| && x.consumed + x.queue == s.posted[x.base..n]
  }

  ghost predicate ThreadInvariant(s: State) {
    && s.handled <= |s.posted|
    && (s.thread.Emitting? ==>
          && s.thread.next < s.thread.upTo <= |s.listeners|
          && s.handled > 0 && s.thread.event == s.posted[s.handled - 1])
  }

  ghost predicate Invariant(s: State) {
    && ThreadInvariant(s)
    && forall l :: 0 <= l < |s.listeners| ==>
         InOrder(s, l) && ListenerInvariant(s.listeners[l], NotifyDue(s.thread, l), HandlerHolds(s.thread, l))
  }

  // ---------- one step keeps it ----------

  lemma ConsumeKeeps(x: Listener, due: bool, held: bool)
    requires ListenerInvariant(x, due, held) && CanConsume(x)
    ensures ListenerInvariant(ConsumeStep(x), due, held)
    ensures ConsumeStep(x).consumed + ConsumeStep(x).queue == x.consumed + x.queue
    ensures ConsumeStep(x).base == x.base
  {
  }

  lemma StopKeeps(x: Listener, due: bool, held: bool)
    requires ListenerInvariant(x, due, held) && CanStop(x)
    ensures ListenerInvariant(StopStep(x), due, held)
    ensures StopStep(x).consumed == x.consumed && StopStep(x).queue == x.queue && StopStep(x).base == x.base
  {
  }

  /** The four steps of add_event, and of doing nothing to a listener. */
  lemma AddEventKeeps(x: Listener, e: Event)
    ensures ListenerInvariant(x, false, false) ==> ListenerInvariant(x.(queue := x.queue + [e]), true, false)
    ensures ListenerInvariant(x, true, false) && x.mutex.Free? ==> ListenerInvariant(x.(mutex := Handler), true, true)
    ensures ListenerInvariant(x, true, true) ==> ListenerInvariant(Notified(x), false, true)
    ensures ListenerInvariant(x, false, true) ==> ListenerInvariant(x.(mutex := Free), false, false)
  {
  }

  /** A step that changes one listener only, and what it holds not at all. */
  lemma ListenerChanged(s: State, l: nat, y: Listener)
    requires Invariant(s) && l < |s.listeners| && y.base == s.listeners[l].base
    requires y.consumed + y.queue == s.listeners[l].consumed + s.listeners[l].queue
    requires ListenerInvariant(y, NotifyDue(s.thread, l), HandlerHolds(s.thread, l))
    ensures Invariant(s.(listeners := s.listeners[l := y]))
  {
    hide ListenerInvariant;
    var s' := s.(listeners := s.listeners[l := y]);
    forall k | 0 <= k < |s.listeners| ensures InOrder(s', k) {
      assert InOrder(s, k);
    }
  }

  lemma StepInvariant(s: State, a: Action)
    requires Invariant(s) && Enabled(s, a)
    ensures Invariant(Next(s, a))
  {
    match a
    case Post(e) => PostKeeps(s, e);
    case Subscribe(stoppable) => SubscribeKeeps(s, stoppable);
    case Handle => HandleKeeps(s);
    case Consume(l) =>
      ConsumeKeeps(s.listeners[l], NotifyDue(s.thread, l), HandlerHolds(s.thread, l));
      ListenerChanged(s, l, ConsumeStep(s.listeners[l]));
    case Stop(l) =>
      StopKeeps(s.listeners[l], NotifyDue(s.thread, l), HandlerHolds(s.thread, l));
      ListenerChanged(s, l, StopStep(s.listeners[l]));
    case Spurious(l) =>
      ListenerChanged(s, l, s.listeners[l].(pc := Asleep(true)));
  }

  lemma PostKeeps(s: State, e: Event)
    requires Invariant(s)
    ensures Invariant(s.(posted := s.posted + [e]))
  {
    hide ListenerInvariant;
    var s' := s.(posted := s.posted + [e]);
    forall l | 0 <= l < |s.listeners| ensures InOrder(s', l) {
      assert InOrder(s, l);
      assert s'.posted[s.listeners[l].base..PushedTo(s, l)] == s.posted[s.listeners[l].base..PushedTo(s, l)];
    }
  }

  lemma SubscribeKeeps(s: State, stoppable: bool)
    requires Invariant(s)
    ensures Invariant(Next(s, Subscribe(stoppable)))
  {
    var s' := Next(s, Subscribe(stoppable));
    var n := |s.listeners|;
    assert ListenerInvariant(s'.listeners[n], false, false);
    hide ListenerInvariant;
    forall l | 0 <= l < |s'.listeners|
      ensures InOrder(s', l)
      ensures ListenerInvariant(s'.listeners[l], NotifyDue(s'.thread, l), HandlerHolds(s'.thread, l))
    {
      if l < n {
        assert InOrder(s, l);
      }
    }
  }

  lemma HandleKeeps(s: State)
    requires Invariant(s) && Enabled(s, Handle)
    ensures Invariant(HandleStep(s))
  {
    hide ListenerInvariant, InOrder, HandleStep, NotifyDue, HandlerHolds;
    HandleThread(s);
    var s' := HandleStep(s);
    forall l | 0 <= l < |s'.listeners|
      ensures InOrder(s', l)
      ensures ListenerInvariant(s'.listeners[l], NotifyDue(s'.thread, l), HandlerHolds(s'.thread, l))
    {
      HandleInOrder(s, l);
      HandleListener(s, l);
    }
  }

  lemma HandleThread(s: State)
    requires ThreadInvariant(s) && Enabled(s, Handle)
    ensures ThreadInvariant(HandleStep(s)) && |HandleStep(s).listeners| == |s.listeners|
  {
  }

  lemma HandleInOrder(s: State, l: nat)
    requires ThreadInvariant(s) && Enabled(s, Handle) && l < |s.listeners| && InOrder(s, l)
    ensures InOrder(HandleStep(s), l)
  {
    NotifiedHolds(s.listeners[l]);
    if s.thread.Emitting? && s.thread.next == l && s.thread.phase.Pushing? {
      var x := s.listeners[l];
      assert s.posted[x.base..s.handled] == s.posted[x.base..s.handled - 1] + [s.posted[s.handled - 1]];
    }
  }

  lemma HandleListener(s: State, l: nat)
    requires ThreadInvariant(s) && Enabled(s, Handle) && l < |s.listeners|
    requires ListenerInvariant(s.listeners[l], NotifyDue(s.thread, l), HandlerHolds(s.thread, l))
    ensures var s' := HandleStep(s);
      ListenerInvariant(s'.listeners[l], NotifyDue(s'.thread, l), HandlerHolds(s'.thread, l))
  {
    hide ListenerInvariant;
    if s.thread.Emitting? {
      AddEventKeeps(s.listeners[l], s.thread.event);
    }
  }

  lemma NotifiedHolds(x: Listener)
    ensures Notified(x) == x.(pc := Notified(x).pc)
  {
  }

  // ---------- every run ----------

  const START: State := State([], 0, Idle, [])

  /** The states of a run that takes the given actions. */
  ghost predicate Run(s: State, actions: seq<Action>, s': State)
    decreases |actions|
  {
    if actions == [] then s' == s
    else Enabled(s, actions[0]) && Run(Next(s, actions[0]), actions[1..], s')
  }

  lemma {:induction false} RunInvariant(s: State, actions: seq<Action>, s': State)
    requires Invariant(s) && Run(s, actions, s')
    ensures Invariant(s')
    decreases |actions|
  {
    if actions != [] {
      StepInvariant(s, actions[0]);
      RunInvariant(Next(s, actions[0]), actions[1..], s');
    }
  }

  /** In every reachable state: no wakeup is lost, and what each listener has consumed is an
      in-order, duplicate-free prefix of the events not yet handled at its subscription. */
  lemma PipelineSafe(actions: seq<Action>, s: State, l: nat)
    requires Run(START, actions, s) && l < |s.listeners|
    ensures NoLostWakeup(s.listeners[l], NotifyDue(s.thread, l))
    ensures s.listeners[l].base <= |s.posted| && s.listeners[l].consumed <= s.posted[s.listeners[l].base..]
  {
    RunInvariant(START, actions, s);
    var x := s.listeners[l];
    assert InOrder(s, l);
    assert s.posted[x.base..PushedTo(s, l)] <= s.posted[x.base..];
    assert x.consumed <= x.consumed + x.queue;
  }

  // ---------- a stopped consumer sends nothing more ----------

  lemma StoppedStep(s: State, a: Action, l: nat)
    requires Enabled(s, a) && l < |s.listeners| && !s.listeners[l].run
    ensures l < |Next(s, a).listeners|
    ensures var x, y := s.listeners[l], Next(s, a).listeners[l];
      && !y.run && (y.pc.Popping? ==> x.pc.Popping?)
      && (y.consumed == x.consumed || (x.pc.Popping? && !y.pc.Popping? && y.consumed == x.consumed + [x.queue[0]]))
  {
  }

  /** Once the run flag of a consumer is cleared, whatever all threads do, it sends nothing
      more; only an event that it was about to pop when the flag was cleared goes out still. */
  lemma {:induction false} StoppedSendsNoMore(s: State, actions: seq<Action>, s': State, l: nat)
    requires Run(s, actions, s') && l < |s.listeners| && !s.listeners[l].run
    ensures l < |s'.listeners| && !s'.listeners[l].run
    ensures var x, y := s.listeners[l], s'.listeners[l];
      && x.consumed <= y.consumed && |y.consumed| <= |x.consumed| + 1
      && (!x.pc.Popping? ==> y.consumed == x.consumed && !y.pc.Popping?)
    decreases |actions|
  {
    hide Next, Enabled;
    if actions != [] {
      StoppedStep(s, actions[0], l);
      StoppedSendsNoMore(Next(s, actions[0]), actions[1..], s', l);
    }
  }

  // ---------- and every event is consumed ----------

  /** A step of the threads themselves: nothing is posted, subscribed or newly stopped, and
      no wakeup is spurious. */
  ghost predicate Internal(s: State, a: Action) {
    match a
    case Handle => true
    case Consume(_) => true
    case Stop(l) => l < |s.listeners| && !s.listeners[l].stopper.NotStopping?
    case _ => false
  }

  predicate Settled(x: Listener) {
    && (x.stopper.NotStopping? || x.stopper.Stopped?)
    && (x.pc.Returned? || (x.pc == Asleep(false) && x.queue == [] && x.run))
  }

  ghost predicate Quiescent(s: State) {
    s.thread.Idle? && s.handled == |s.posted| && forall l :: 0 <= l < |s.listeners| ==> Settled(s.listeners[l])
  }

  /** A running consumer has consumed every event not yet handled at its subscription; a
      stopped one has returned. */
  ghost predicate CaughtUp(s: State, x: Listener) {
    && (x.run ==> x.base <= |s.posted| && x.consumed == s.posted[x.base..])
    && (!x.run ==> x.pc.Returned? && x.stopper.Stopped?)
  }

  lemma QuiescentConsumed(s: State, l: nat)
    requires Invariant(s) && Quiescent(s) && l < |s.listeners|
    ensures CaughtUp(s, s.listeners[l])
  {
    var x := s.listeners[l];
    assert InOrder(s, l) && Settled(x);
    assert x.consumed + [] == x.consumed && s.posted[x.base..|s.posted|] == s.posted[x.base..];
  }

  /** Whoever holds a mutex can go on. */
  lemma HolderMoves(s: State, l: nat) returns (a: Action)
    requires Invariant(s) && l < |s.listeners| && !s.listeners[l].mutex.Free?
    ensures Internal(s, a) && Enabled(s, a)
  {
    var x := s.listeners[l];
    a := if x.mutex.Consumer? then Consume(l) else if x.mutex.Stopper? then Stop(l) else Handle;
  }

  /** No deadlock: unless all is at rest, some thread can take a step. */
  lemma Progress(s: State) returns (a: Action)
    requires Invariant(s) && !Quiescent(s)
    ensures Internal(s, a) && Enabled(s, a)
  {
    if s.thread.Idle? {
      if s.handled < |s.posted| {
        return Handle;
      }
      var l :| 0 <= l < |s.listeners| && !Settled(s.listeners[l]);
      var x := s.listeners[l];
      if !x.mutex.Free? {
        a := HolderMoves(s, l);
      } else {
        a := if x.stopper.Cleared? then Stop(l) else Consume(l);
      }
    } else if Enabled(s, Handle) {
      a := Handle;
    } else {
      a := HolderMoves(s, s.thread.next);
    }
  }

  // ---------- steps to come ----------

  function Rank(pc: Pc): nat {
    match pc
    case Entering => 6
    case Outer => 5
    case QueueTest => 4
    case RunTest => 3
    case Waiting => 1
    case Asleep(signalled) => if signalled then 5 else 0
    case Leaving => 2
    case Popping => 1
    case Returned => 0
  }

  function StopRank(phase: StopPhase): nat {
    match phase
    case NotStopping => 0
    case Cleared => 13
    case StopLocked => 12
    case StopNotified => 1
    case Stopped => 0
  }

  /** Bounds the steps a listener causes: 10 for each notification and each event to come. */
  function ListenerWork(s: State, l: nat): int
    requires l < |s.listeners|
  {
    var x := s.listeners[l];
    var current := s.thread.Emitting? && l < s.thread.upTo;
    var toPush := if current && (s.thread.next < l || (s.thread.next == l && s.thread.phase.Pushing?)) then 1 else 0;
    var toNotify :=
      if current && (s.thread.next < l || (s.thread.next == l && !s.thread.phase.Unlocking?)) then 1 else 0;
    20 * (|s.posted| - s.handled) + 10 * toPush + 10 * toNotify + 10 * |x.queue| + Rank(x.pc) + StopRank(x.stopper)
  }

  function ThreadWork(s: State): int {
    (|s.posted| - s.handled) * (1 + 4 * |s.listeners|)
    + match s.thread
      case Idle => 0
      case Emitting(_, next, upTo, phase) =>
        4 * (upTo - next - 1)
        + (match phase case Pushing => 4 case Locking => 3 case Notifying => 2 case Unlocking => 1)
  }

  function SumWork(s: State, n: nat): int
    requires n <= |s.listeners|
  {
    if n == 0 then 0 else SumWork(s, n - 1) + ListenerWork(s, n - 1)
  }

  function Work(s: State): int {
    ThreadWork(s) + SumWork(s, |s.listeners|)
  }

  lemma {:induction false} SumMonotone(s: State, s': State, n: nat)
    requires n <= |s.listeners| == |s'.listeners|
    requires forall l :: 0 <= l < n ==> ListenerWork(s', l) <= ListenerWork(s, l)
    ensures SumWork(s', n) <= SumWork(s, n)
    ensures (exists l :: 0 <= l < n && ListenerWork(s', l) < ListenerWork(s, l)) ==> SumWork(s', n) < SumWork(s, n)
  {
    if n > 0 {
      SumMonotone(s, s', n - 1);
    }
  }

  lemma {:induction false} WorkNonNegative(s: State)
    requires Invariant(s)
    ensures Work(s) >= 0
  {
    SumNonNegative(s, |s.listeners|);
    assert (|s.posted| - s.handled) * (1 + 4 * |s.listeners|) >= 0;
  }

  lemma {:induction false} SumNonNegative(s: State, n: nat)
    requires ThreadInvariant(s) && n <= |s.listeners|
    ensures SumWork(s, n) >= 0
  {
    if n > 0 {
      SumNonNegative(s, n - 1);
    }
  }

  lemma HandleWork(s: State)
    requires ThreadInvariant(s) && Enabled(s, Handle)
    ensures ThreadWork(HandleStep(s)) < ThreadWork(s)
    ensures |HandleStep(s).listeners| == |s.listeners|
    ensures forall l :: 0 <= l < |s.listeners| ==> ListenerWork(HandleStep(s), l) <= ListenerWork(s, l)
  {
    if s.thread.Idle? {
      var n, k := |s.posted| - s.handled, 1 + 4 * |s.listeners|;
      assert n * k == (n - 1) * k + k;
    }
  }

  /** A step of one listener's consumer or stopper leaves less to do there, and no more elsewhere. */
  lemma OwnStepWorks(s: State, l: nat, y: Listener)
    requires l < |s.listeners|
    requires var x := s.listeners[l];
      10 * |y.queue| + Rank(y.pc) + StopRank(y.stopper) < 10 * |x.queue| + Rank(x.pc) + StopRank(x.stopper)
    ensures Work(s.(listeners := s.listeners[l := y])) < Work(s)
  {
    hide Rank, StopRank;
    var s' := s.(listeners := s.listeners[l := y]);
    assert ListenerWork(s', l) < ListenerWork(s, l);
    SumMonotone(s, s', |s.listeners|);
  }

  /** Every internal step leaves less to do. */
  lemma InternalStepWorks(s: State, a: Action)
    requires Invariant(s) && Enabled(s, a) && Internal(s, a)
    ensures Work(Next(s, a)) < Work(s)
  {
    hide Work, ListenerWork, ThreadWork, SumWork, InOrder;
    match a
    case Handle =>
      HandleWork(s);
      SumMonotone(s, HandleStep(s), |s.listeners|);
      WorkSplits(s);
      WorkSplits(HandleStep(s));
    case Consume(l) => OwnStepWorks(s, l, ConsumeStep(s.listeners[l]));
    case Stop(l) => OwnStepWorks(s, l, StopStep(s.listeners[l]));
  }

  lemma WorkSplits(s: State)
    ensures Work(s) == ThreadWork(s) + SumWork(s, |s.listeners|)
  {
  }

  ghost predicate InternalRun(s: State, actions: seq<Action>)
    decreases |actions|
  {
    || actions == []
    || (Enabled(s, actions[0]) && Internal(s, actions[0]) && InternalRun(Next(s, actions[0]), actions[1..]))
  }

  /** The threads cannot run on for ever without new events. */
  lemma {:induction false} InternalRunsEnd(s: State, actions: seq<Action>)
    requires Invariant(s) && InternalRun(s, actions)
    ensures |actions| <= Work(s)
    decreases |actions|
  {
    if actions == [] {
      WorkNonNegative(s);
    } else {
      StepInvariant(s, actions[0]);
      InternalStepWorks(s, actions[0]);
      InternalRunsEnd(Next(s, actions[0]), actions[1..]);
    }
  }

  /** However the threads are scheduled, they come to rest, and then every running consumer
      has consumed every event not yet handled at its subscription: a run of internal steps that
      cannot be prolonged ends in a quiescent state, and no run is longer than Work(s). */
  lemma {:induction false} EventuallyConsumed(s: State, actions: seq<Action>, s': State)
    requires Invariant(s) && InternalRun(s, actions) && Run(s, actions, s')
    requires forall a :: Internal(s', a) ==> !Enabled(s', a)
    ensures Quiescent(s') && |actions| <= Work(s)
    ensures forall x :: x in s'.listeners ==> CaughtUp(s', x)
  {
    RunInvariant(s, actions, s');
    InternalRunsEnd(s, actions);
    if !Quiescent(s') {
      var a := Progress(s');
    }
    forall x | x in s'.listeners ensures CaughtUp(s', x) {
      var l :| 0 <= l < |s'.listeners| && s'.listeners[l] == x;
      QuiescentConsumed(s', l);
    }
  }
}
