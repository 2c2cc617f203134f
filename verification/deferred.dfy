/** jQuery.Deferred: three callback lists, wired so that settling one disables the other.
    The laws hold for every run of the machine of CallbackSpec in which scripts make only
    the calls that a Deferred exposes, however the handlers re-enter it. */
module Deferreds {
  import opened CallbackSpec
  import opened Wrappers

  const DONE: nat := 0
  const FAIL: nat := 1
  const PROGRESS: nat := 2

  /** The functions that Deferred itself adds first to the done (fail) list. */
  function Own(l: nat): seq<Handler> {
    if l == DONE then [SetState(Resolved), DisableList(FAIL), LockList(PROGRESS)]
    else [SetState(Rejected), DisableList(DONE), LockList(PROGRESS)]
  }

  function Fresh(l: nat): List {
    EnlistAll(NewList(Options(l != PROGRESS, true, false, false)), if l == PROGRESS then [] else Own(l))
  }

  /** A new Deferred. */
  function NewDeferred(): World {
    World([Fresh(DONE), Fresh(FAIL), Fresh(PROGRESS)], Pending, [], true)
  }

  /** done, fail and progress add users' functions; resolve, reject and notify fire. */
  ghost predicate PromiseCall(op: Op) {
    match op
    case Add(l, hs) => l <= PROGRESS && forall i :: 0 <= i < |hs| ==> hs[i].User?
    case Fire(l, _) => l <= PROGRESS
    case _ => false
  }

  ghost predicate PromiseRun(log: seq<Event>) {
    forall i :: 0 <= i < |log| && log[i].Called? ==> PromiseCall(log[i].op)
  }

  /** The first call of resolve or reject, with its arguments. */
  ghost function FirstSettling(log: seq<Event>): Option<(nat, Data)> {
    if log == [] then None
    else
      var n := |log| - 1;
      if FirstSettling(log[..n]).Some? then FirstSettling(log[..n])
      else if log[n].Called? && log[n].op.Fire? && log[n].op.list < PROGRESS then Some((log[n].op.list, log[n].op.data))
      else None
  }

  /** Everything ever added to list l, in order, its own functions first. */
  ghost function Registered(log: seq<Event>, l: nat): seq<Handler> {
    if log == [] then Own(l)
    else
      var n := |log| - 1;
      Registered(log[..n], l)
      + if log[n].Called? && log[n].op.Add? && log[n].op.list == l then log[n].op.handlers else []
  }

  /** What list l has run, in order, and that it was called with data only. */
  ghost function Run(log: seq<Event>, l: nat): seq<Handler> {
    if log == [] then []
    else
      var n := |log| - 1;
      Run(log[..n], l) + if log[n].Ran? && log[n].list == l then [log[n].entry.handler] else []
  }

  ghost predicate RunWith(log: seq<Event>, l: nat, data: Data) {
    forall i :: 0 <= i < |log| && log[i].Ran? && log[i].list == l ==> log[i].data == data
  }

  // ---------- the invariant ----------

  /** List l (done or fail) before anything is settled. */
  ghost predicate Waiting(a: List, l: nat, log: seq<Event>) {
    && a.options == Options(true, true, false, false) && a.live && a.firing.None? && a.skip == 0
    && !a.queued && a.queue == [] && a.memory.None? && !a.fired
    && a.pending == [] && Handlers(a.done) == Registered(log, l) && Run(log, l) == []
  }

  /** The winning list: what has run and what is pending make up what was registered. */
  ghost predicate Won(a: List, l: nat, data: Data, log: seq<Event>) {
    && a.options == Options(true, true, false, false) && a.live && a.skip == 0
    && !a.queued && a.queue == [] && a.memory == Some(data) && a.fired
    && (a.firing.Some? ==> a.firing == Some(data))
    && (a.firing.None? ==> a.pending == [] && a.done == [])
    && Run(log, l) + Handlers(a.pending) == Registered(log, l) && RunWith(log, l, data)
  }

  ghost predicate Lost(a: List, l: nat, log: seq<Event>) {
    !a.live && a.firing.None? && a.memory.None? && a.pending == [] && Run(log, l) == []
  }

  /** The progress list holds users' functions only. */
  ghost predicate UsersOnly(a: List) {
    && !a.options.stopOnFalse && !a.options.unique
    && (forall i :: 0 <= i < |a.done| ==> a.done[i].handler.User?)
    && (forall i :: 0 <= i < |a.pending| ==> a.pending[i].handler.User?)
  }

  ghost predicate Invariant(w: World, log: seq<Event>) {
    && WellFormed(w) && |w.lists| == 3 && UsersOnly(w.lists[PROGRESS])
    && match FirstSettling(log)
       case None =>
         w.state == Pending && Waiting(w.lists[DONE], DONE, log) && Waiting(w.lists[FAIL], FAIL, log)
       case Some((l, data)) =>
         var taken := |Run(log, l)|;
         && l < PROGRESS && Won(w.lists[l], l, data, log)
         && w.state == (if taken == 0 then Pending else if l == DONE then Resolved else Rejected)
         && (if taken < 2 then Waiting(w.lists[1 - l], 1 - l, log) else Lost(w.lists[1 - l], 1 - l, log))
         && (taken < 3 ==> !w.inScript && w.frames != [] && w.frames[|w.frames| - 1] == l)
  }

  // ---------- one step keeps it ----------

  lemma Appended(log: seq<Event>, ev: Event)
    ensures var longer := log + [ev];
      && (forall l :: Registered(longer, l) == Registered(log, l)
            + if ev.Called? && ev.op.Add? && ev.op.list == l then ev.op.handlers else [])
      && (forall l :: Run(longer, l) == Run(log, l) + if ev.Ran? && ev.list == l then [ev.entry.handler] else [])
      && (forall l, data :: RunWith(longer, l, data) <==>
            RunWith(log, l, data) && (ev.Ran? && ev.list == l ==> ev.data == data))
      && FirstSettling(longer) ==
           (if FirstSettling(log).Some? then FirstSettling(log)
            else if ev.Called? && ev.op.Fire? && ev.op.list < PROGRESS then Some((ev.op.list, ev.op.data)) else None)
  {
    var longer := log + [ev];
    assert longer[..|log|] == log && longer[|log|] == ev;
    forall l, data
      ensures RunWith(longer, l, data) <==> RunWith(log, l, data) && (ev.Ran? && ev.list == l ==> ev.data == data)
    {
      assert forall i :: 0 <= i < |log| ==> longer[i] == log[i];
    }
  }

  /** What is registered: the own functions first, then only users' functions. */
  lemma {:induction false} OwnFirst(log: seq<Event>, l: nat)
    requires PromiseRun(log)
    ensures Own(l) <= Registered(log, l)
    ensures forall i :: 3 <= i < |Registered(log, l)| ==> Registered(log, l)[i].User?
  {
    if log != [] {
      OwnFirst(log[..|log| - 1], l);
    }
  }

  /** Without "unique", additions go to the end. */
  lemma {:induction false} EnlistAppends(a: List, hs: seq<Handler>)
    requires !a.options.unique && a.skip == 0
    ensures var b := EnlistAll(a, hs);
      && b.skip == 0
      && (a.firing.Some? ==> b.done == a.done && Handlers(b.pending) == Handlers(a.pending) + hs)
      && (a.firing.None? ==> b.pending == a.pending && Handlers(b.done) == Handlers(a.done) + hs)
  {
    if hs != [] {
      var n := |hs| - 1;
      EnlistAppends(a, hs[..n]);
      EnlistAllKeeps(a, hs[..n]);
      var e := Entry(EnlistAll(a, hs[..n]).tags, hs[n]);
      HandlersConcat(EnlistAll(a, hs[..n]).done, [e]);
      HandlersConcat(EnlistAll(a, hs[..n]).pending, [e]);
      assert Handlers([e]) == [hs[n]];
      assert hs == hs[..n] + [hs[n]];
    }
  }

  lemma {:induction false} EnlistUsers(a: List, hs: seq<Handler>)
    requires UsersOnly(a) && forall i :: 0 <= i < |hs| ==> hs[i].User?
    ensures UsersOnly(EnlistAll(a, hs))
  {
    EnlistAllKeeps(a, hs);
    if hs != [] {
      EnlistUsers(a, hs[..|hs| - 1]);
    }
  }

  /** The progress list, whatever happens to it. */
  lemma ProgressKeeps(a: List, op: Op)
    requires UsersOnly(a)
    ensures PromiseCall(op) ==> UsersOnly(Apply(a, op))
    ensures UsersOnly(Locked(a)) && UsersOnly(Settle(a))
    ensures a.pending != [] ==> a.pending[0].handler.User? && UsersOnly(TakeTurn(a))
    ensures !a.options.stopOnFalse
  {
    if op.Add? && PromiseCall(op) {
      EnlistUsers(a, op.handlers);
    }
    hide EnlistAll;
  }

  /** An event of other lists changes nothing for list l. */
  lemma Elsewhere(a: List, l: nat, data: Data, log: seq<Event>, ev: Event)
    requires !(ev.Called? && ev.op.Add? && ev.op.list == l) && !(ev.Ran? && ev.list == l)
    ensures Waiting(a, l, log) ==> Waiting(a, l, log + [ev])
    ensures Won(a, l, data, log) ==> Won(a, l, data, log + [ev])
    ensures Lost(a, l, log) ==> Lost(a, l, log + [ev])
    ensures Run(log + [ev], l) == Run(log, l)
  {
    Appended(log, ev);
  }

  /** A call before anything is settled. */
  lemma WaitingCall(a: List, l: nat, op: Op, log: seq<Event>)
    requires Waiting(a, l, log) && PromiseCall(op) && op.list == l
    ensures a.firing.None? && Run(log + [Called(op)], l) == []
    ensures op.Add? ==> Waiting(Apply(a, op), l, log + [Called(op)]) && Apply(a, op).firing.None?
    ensures op.Fire? ==> Won(Apply(a, op), l, op.data, log + [Called(op)]) && Apply(a, op).firing.Some?
  {
    Appended(log, Called(op));
    if op.Add? {
      EnlistAppends(a, op.handlers);
      EnlistAllKeeps(a, op.handlers);
    } else {
      assert a.done + a.pending == a.done;
      assert (a.done + a.pending)[0..] == a.done;
      NothingRun(log, l, op.data);
    }
  }

  lemma {:induction false} NothingRun(log: seq<Event>, l: nat, data: Data)
    requires Run(log, l) == []
    ensures RunWith(log, l, data)
  {
    if log != [] {
      NothingRun(log[..|log| - 1], l, data);
    }
  }

  /** What a call adds to the records of its list. */
  lemma CallAppended(log: seq<Event>, l: nat, data: Data, op: Op)
    requires op.list == l
    ensures var longer := log + [Called(op)];
      && Registered(longer, l) == Registered(log, l) + (if op.Add? then op.handlers else [])
      && Run(longer, l) == Run(log, l) && (RunWith(longer, l, data) <==> RunWith(log, l, data))
  {
    Appended(log, Called(op));
  }

  /** A call on the list that has been settled. */
  lemma WonCall(a: List, l: nat, data: Data, op: Op, log: seq<Event>)
    requires Won(a, l, data, log) && PromiseCall(op) && op.list == l
    ensures Won(Apply(a, op), l, data, log + [Called(op)])
    ensures Run(log + [Called(op)], l) == Run(log, l)
  {
    hide Run, Registered, RunWith, EnlistAll, Apply;
    CallAppended(log, l, data, op);
    match op
    case Add(_, hs) =>
      WonAdd(a, op, data);
      Joins(Run(log, l), Handlers(a.pending), hs);
    case Fire(_, _) =>
      assert Registered(log, l) + [] == Registered(log, l);
      WonFire(a, op);
  }

  lemma WonFire(a: List, op: Op)
    requires op.Fire? && a.fired && !a.queued
    ensures Apply(a, op) == a
  {
  }

  /** What is added to the settled list becomes pending: the list fires, or begins to. */
  lemma WonAdd(a: List, op: Op, data: Data)
    requires op.Add? && !a.options.unique && a.live && a.skip == 0
    requires a.memory == Some(data) && a.options.memory && a.fired
    requires a.firing.None? ==> a.pending == [] && a.done == []
    ensures var b := Apply(a, op);
      && b == a.(done := b.done, pending := b.pending, firing := b.firing, tags := b.tags)
      && b.firing == (if a.firing.None? then Some(data) else a.firing)
      && Handlers(b.pending) == Handlers(a.pending) + op.handlers
  {
    EnlistAppends(a, op.handlers);
    EnlistAllKeeps(a, op.handlers);
    hide EnlistAll;
    if a.firing.None? {
      var b := EnlistAll(a, op.handlers);
      assert b.done + b.pending == b.done && b.done[0..] == b.done;
    }
  }

  /** A call on the list that has been disabled. */
  lemma LostCall(a: List, l: nat, op: Op, log: seq<Event>)
    requires Lost(a, l, log) && PromiseCall(op)
    ensures Apply(a, op) == a && a.firing.None? && Lost(a, l, log + [Called(op)])
  {
    Appended(log, Called(op));
  }

  /** The settled list takes its next turn, in the order of registration. */
  lemma WonTurn(a: List, l: nat, data: Data, log: seq<Event>)
    requires Won(a, l, data, log) && a.pending != [] && a.firing.Some? && PromiseRun(log)
    ensures a.firing == Some(data) && Won(TakeTurn(a), l, data, log + [Ran(l, a.pending[0], data)])
    ensures |Run(log + [Ran(l, a.pending[0], data)], l)| == |Run(log, l)| + 1
    ensures match |Run(log, l)|
            case 0 => a.pending[0].handler == Own(l)[0]
            case 1 => a.pending[0].handler == Own(l)[1]
            case 2 => a.pending[0].handler == Own(l)[2]
            case _ => a.pending[0].handler.User?
  {
    Appended(log, Ran(l, a.pending[0], data));
    OwnFirst(log, l);
    hide Run, Registered;
    Shifted(Run(log, l), Handlers(a.pending));
    assert Handlers(a.pending)[1..] == Handlers(a.pending[1..]);
    assert Registered(log, l)[|Run(log, l)|] == a.pending[0].handler;
  }

  lemma Shifted(run: seq<Handler>, hs: seq<Handler>)
    requires hs != []
    ensures (run + [hs[0]]) + hs[1..] == run + hs
    ensures (run + hs)[|run|] == hs[0]
  {
  }

  /** The settled list has no turn left: everything registered has run. */
  lemma WonFinished(a: List, l: nat, data: Data, log: seq<Event>)
    requires Won(a, l, data, log) && PromiseRun(log) && (a.live ==> a.pending == [])
    ensures Run(log, l) == Registered(log, l) && |Run(log, l)| >= 3
    ensures Won(Settle(a), l, data, log + [Finished(l)]) && Settle(a).firing.None?
    ensures Run(log + [Finished(l)], l) == Run(log, l)
  {
    Appended(log, Finished(l));
    OwnFirst(log, l);
    assert Run(log, l) + Handlers([]) == Run(log, l);
  }

  lemma WaitingFacts(a: List, l: nat, log: seq<Event>)
    ensures Waiting(a, l, log) ==> a.firing.None? && Run(log, l) == [] && Lost(Off(a), l, log) && !a.options.stopOnFalse
    ensures Lost(a, l, log) ==> a.firing.None? && !a.live
  {
  }

  lemma WonFacts(a: List, l: nat, data: Data, log: seq<Event>)
    ensures Won(a, l, data, log) ==> !a.options.stopOnFalse && a.live
  {
  }

  lemma FirstAppended(log: seq<Event>, ev: Event)
    ensures FirstSettling(log + [ev]) ==
      if FirstSettling(log).Some? then FirstSettling(log)
      else if ev.Called? && ev.op.Fire? && ev.op.list < PROGRESS then Some((ev.op.list, ev.op.data)) else None
  {
    Appended(log, ev);
  }

  /** Every step keeps the invariant. */
  lemma StepInvariant(w: World, log: seq<Event>, ev: Event)
    requires Invariant(w, log) && Enabled(w, ev) && PromiseRun(log + [ev])
    ensures Invariant(Next(w, ev), log + [ev])
  {
    assert PromiseRun(log) && (ev.Called? ==> PromiseCall(ev.op)) by {
      assert (log + [ev])[|log|] == ev && forall i :: 0 <= i < |log| ==> (log + [ev])[i] == log[i];
    }
    hide Waiting, Won, Lost, UsersOnly, Run, Registered, RunWith, FirstSettling, PromiseRun;
    NextWellFormed(w, ev);
    match ev
    case Called(op) => CalledInvariant(w, log, op);
    case Ran(l, e, data) => RanInvariant(w, log, l, e, data);
    case Returned(stop) => ReturnedInvariant(w, log, stop);
    case Finished(l) => FinishedInvariant(w, log, l);
  }

  lemma CalledInvariant(w: World, log: seq<Event>, op: Op)
    requires Invariant(w, log) && Enabled(w, Called(op)) && PromiseCall(op)
    requires WellFormed(Next(w, Called(op)))
    ensures Invariant(Next(w, Called(op)), log + [Called(op)])
  {
    hide Waiting, Won, Lost, UsersOnly, Run, Registered, RunWith, FirstSettling, Apply;
    var ev := Called(op);
    FirstAppended(log, ev);
    assert op.list <= PROGRESS;
    var a := w.lists[op.list];
    if op.list == PROGRESS {
      ProgressKeeps(a, op);
    }
    match FirstSettling(log) {
      case None =>
        if op.list < PROGRESS {
          WaitingCall(a, op.list, op, log);
          Elsewhere(w.lists[1 - op.list], 1 - op.list, 0, log, ev);
        } else {
          Elsewhere(w.lists[DONE], DONE, 0, log, ev);
          Elsewhere(w.lists[FAIL], FAIL, 0, log, ev);
        }
      case Some((l, data)) =>
        if op.list == l {
          WonCall(a, l, data, op, log);
        } else {
          Elsewhere(w.lists[l], l, data, log, ev);
        }
        if op.list == 1 - l {
          LostCall(a, op.list, op, log);
        } else {
          Elsewhere(w.lists[1 - l], 1 - l, data, log, ev);
        }
    }
  }

  lemma RanInvariant(w: World, log: seq<Event>, l: nat, e: Entry, data: Data)
    requires Invariant(w, log) && Enabled(w, Ran(l, e, data)) && PromiseRun(log)
    requires WellFormed(Next(w, Ran(l, e, data)))
    ensures Invariant(Next(w, Ran(l, e, data)), log + [Ran(l, e, data)])
  {
    hide Waiting, Won, Lost, UsersOnly, Run, Registered, RunWith, FirstSettling, PromiseRun, TakeTurn, Off, Locked;
    var ev := Ran(l, e, data);
    FirstAppended(log, ev);
    WaitingFacts(w.lists[DONE], DONE, log);
    WaitingFacts(w.lists[FAIL], FAIL, log);
    ProgressKeeps(w.lists[PROGRESS], Empty(0));
    var settled := if FirstSettling(log).Some? then FirstSettling(log).value.1 else 0;
    if l == PROGRESS {
      Elsewhere(w.lists[DONE], DONE, settled, log, ev);
      Elsewhere(w.lists[FAIL], FAIL, settled, log, ev);
    } else {
      assert FirstSettling(log).Some? && l == FirstSettling(log).value.0;
      WonTurn(w.lists[l], l, settled, log);
      Elsewhere(w.lists[1 - l], 1 - l, data, log, ev);
      Elsewhere(Off(w.lists[1 - l]), 1 - l, data, log, ev);
    }
  }

  lemma ReturnedInvariant(w: World, log: seq<Event>, stop: bool)
    requires Invariant(w, log) && Enabled(w, Returned(stop))
    requires WellFormed(Next(w, Returned(stop)))
    ensures Invariant(Next(w, Returned(stop)), log + [Returned(stop)])
  {
    hide Waiting, Won, Lost, UsersOnly, Run, Registered, RunWith, FirstSettling;
    var ev := Returned(stop);
    FirstAppended(log, ev);
    var settled := if FirstSettling(log).Some? then FirstSettling(log).value.1 else 0;
    WaitingFacts(w.lists[DONE], DONE, log);
    WaitingFacts(w.lists[FAIL], FAIL, log);
    WonFacts(w.lists[DONE], DONE, settled, log);
    WonFacts(w.lists[FAIL], FAIL, settled, log);
    ProgressKeeps(w.lists[PROGRESS], Empty(0));
    Elsewhere(w.lists[DONE], DONE, settled, log, ev);
    Elsewhere(w.lists[FAIL], FAIL, settled, log, ev);
  }

  lemma FinishedInvariant(w: World, log: seq<Event>, l: nat)
    requires Invariant(w, log) && Enabled(w, Finished(l)) && PromiseRun(log)
    requires WellFormed(Next(w, Finished(l)))
    ensures Invariant(Next(w, Finished(l)), log + [Finished(l)])
  {
    hide Waiting, Won, Lost, UsersOnly, Run, Registered, RunWith, FirstSettling, PromiseRun, Settle;
    var ev := Finished(l);
    FirstAppended(log, ev);
    var settled := if FirstSettling(log).Some? then FirstSettling(log).value.1 else 0;
    WaitingFacts(w.lists[DONE], DONE, log);
    WaitingFacts(w.lists[FAIL], FAIL, log);
    ProgressKeeps(w.lists[PROGRESS], Empty(0));
    Elsewhere(w.lists[DONE], DONE, settled, log, ev);
    Elsewhere(w.lists[FAIL], FAIL, settled, log, ev);
    if l != PROGRESS {
      WonFinished(w.lists[l], l, settled, log);
    }
  }

  // ---------- the laws ----------

  lemma FreshList(l: nat)
    ensures var own := if l == PROGRESS then [] else Own(l);
            var a := Fresh(l);
      && a == NewList(Options(l != PROGRESS, true, false, false)).(done := a.done, tags := a.tags)
      && Handlers(a.done) == own
  {
    var empty := NewList(Options(l != PROGRESS, true, false, false));
    var own := if l == PROGRESS then [] else Own(l);
    EnlistAppends(empty, own);
    EnlistAllKeeps(empty, own);
    assert Handlers(empty.done) + own == own;
  }

  lemma NewDeferredInvariant()
    ensures Invariant(NewDeferred(), [])
  {
    FreshList(DONE);
    FreshList(FAIL);
    FreshList(PROGRESS);
    assert Fresh(PROGRESS).done == [];
  }

  lemma {:induction false} RunInvariant(log: seq<Event>)
    requires Legal(NewDeferred(), log) && PromiseRun(log)
    ensures Invariant(After(NewDeferred(), log), log)
  {
    if log == [] {
      NewDeferredInvariant();
    } else {
      var n := |log| - 1;
      assert log == log[..n] + [log[n]];
      RunInvariant(log[..n]);
      StepInvariant(After(NewDeferred(), log[..n]), log[..n], log[n]);
    }
  }

  /** A Deferred settles at most once, by the first call of resolve or reject in the run:
      the handlers of the other outcome never run, those of this outcome run with that
      call's arguments, once each and in the order in which they were added; and whenever no
      firing is under way, all that were added have run. */
  ghost predicate SettledOnce(w: World, log: seq<Event>) {
    match FirstSettling(log)
    case None => w.state == Pending && Run(log, DONE) == [] && Run(log, FAIL) == []
    case Some((l, data)) =>
      && l < PROGRESS && Run(log, 1 - l) == []
      && RunWith(log, l, data) && Run(log, l) <= Registered(log, l)
      && (w.frames == [] ==>
            Run(log, l) == Registered(log, l) && w.state == if l == DONE then Resolved else Rejected)
  }

  /** Whatever the handlers call. */
  lemma SettlesOnce(log: seq<Event>)
    requires Legal(NewDeferred(), log) && PromiseRun(log)
    ensures SettledOnce(After(NewDeferred(), log), log)
  {
    RunInvariant(log);
    var w := After(NewDeferred(), log);
    if FirstSettling(log).Some? {
      var l := FirstSettling(log).value.0;
      OwnFirst(log, l);
      FiringInFrames(log, l);
      var pending := Handlers(w.lists[l].pending);
      assert Run(log, l) <= Run(log, l) + pending;
      assert pending == [] ==> Run(log, l) + pending == Run(log, l);
    }
  }

  /** A list that fires is on the stack of firings. */
  lemma {:induction false} FiringInFrames(log: seq<Event>, l: nat)
    requires Legal(NewDeferred(), log) && l <= PROGRESS
    ensures var w := After(NewDeferred(), log); |w.lists| == 3 && (w.lists[l].firing.Some? ==> l in w.frames)
  {
    var w := After(NewDeferred(), log);
    if log == [] {
      FreshList(DONE);
      FreshList(FAIL);
      FreshList(PROGRESS);
    } else {
      var n := |log| - 1;
      FiringInFrames(log[..n], l);
      FramesStep(After(NewDeferred(), log[..n]), log[n], l);
    }
  }

  lemma FramesStep(w: World, ev: Event, l: nat)
    requires WellFormed(w) && Enabled(w, ev) && l < |w.lists|
    requires w.lists[l].firing.Some? ==> l in w.frames
    ensures Next(w, ev).lists[l].firing.Some? ==> l in Next(w, ev).frames
  {
    var w' := Next(w, ev);
    if ev.Called? && ev.op.list < |w.lists| {
      ApplyKeepsFiring(w.lists[ev.op.list], ev.op);
    }
    if ev.Finished? && l in w.frames && l != ev.list {
      var i :| 0 <= i < |w.frames| && w.frames[i] == l;
      assert w.frames[..|w.frames| - 1][i] == l;
    }
  }
}
