/** What the options of a callback list and its lock and disable mean for whole runs: which
    handlers run, how often and with what. */
module OptionLaws {
  import opened CallbackLaws
  import opened CallbackRuntime
  import opened CallbackSpec
  import opened Deferreds
  import opened Wrappers

  /** What an event does to list l. */
  ghost function ListStep(w: World, ev: Event, l: nat): List
    requires WellFormed(w) && Enabled(w, ev) && l < |w.lists|
  {
    var a := w.lists[l];
    match ev
    case Called(op) => if op.list == l then Apply(a, op) else a
    case Ran(k, e, _) =>
      var b := if k == l then TakeTurn(a) else a;
      if e.handler == DisableList(l) then Off(b) else if e.handler == LockList(l) then Locked(b) else b
    case Returned(stop) => if stop && l == w.frames[|w.frames| - 1] && a.options.stopOnFalse then Abandon(a) else a
    case Finished(k) => if k == l then Settle(a) else a
  }

  lemma NextAt(w: World, ev: Event, l: nat)
    requires WellFormed(w) && Enabled(w, ev) && l < |w.lists|
    ensures |Next(w, ev).lists| == |w.lists| && Next(w, ev).lists[l] == ListStep(w, ev, l)
  {
    hide Apply, Settle, Off, Locked, TakeTurn, Abandon;
  }

  ghost predicate RunsIn(ev: Event, l: nat) {
    ev.Ran? && ev.list == l
  }

  ghost predicate Empties(ev: Event, l: nat) {
    ev.Called? && ev.op == Empty(l)
  }

  /** A call of list l's lock, by a script or by Deferred. */
  ghost predicate Locks(ev: Event, l: nat) {
    match ev
    case Called(op) => op == Lock(l)
    case Ran(_, e, _) => e.handler == LockList(l)
    case _ => false
  }

  ghost predicate Disables(ev: Event, l: nat) {
    match ev
    case Called(op) => op == Disable(l)
    case Ran(_, e, _) => e.handler == DisableList(l)
    case _ => false
  }

  /** An event that makes the list forget what it last fired with. */
  ghost predicate Forgets(w: World, ev: Event, l: nat)
    requires WellFormed(w) && l < |w.lists|
  {
    || Disables(ev, l)
    || (ev == Returned(true) && w.frames != [] && w.frames[|w.frames| - 1] == l && w.lists[l].options.stopOnFalse)
  }

  // ---------- what holds of a list in every run ----------

  ghost predicate Sound(a: List) {
    && (a.memory.Some? ==> a.fired && a.options.memory && a.live)
    && (a.firing.Some? ==> a.fired)
    && (a.memory.Some? && a.firing.Some? ==> a.memory == a.firing)
    && (a.options.once || !a.live ==> !a.queued)
    && (!a.queued ==> a.queue == [])
    && (a.firing.None? ==> a.skip == 0)
  }

  lemma OffSound(a: List)
    requires Sound(a)
    ensures Sound(Off(a)) && Sound(Locked(a)) && Sound(Abandon(a)) && Sound(Settle(a))
    ensures a.pending != [] ==> Sound(TakeTurn(a))
  {
  }

  lemma ApplySound(a: List, op: Op)
    requires Sound(a)
    ensures Sound(Apply(a, op))
  {
    match op
    case Add(_, hs) =>
      EnlistAllKeeps(a, hs);
      hide EnlistAll;
    case Remove(_, hs) =>
      StrikeAllKeeps(a, hs);
      hide StrikeAll;
    case _ => OffSound(a);
  }

  lemma SoundStep(w: World, ev: Event, l: nat)
    requires WellFormed(w) && Enabled(w, ev) && l < |w.lists| && Sound(w.lists[l])
    ensures |Next(w, ev).lists| == |w.lists| && Sound(Next(w, ev).lists[l])
    ensures Next(w, ev).lists[l].options == w.lists[l].options
  {
    hide Apply, Settle, Off, Locked, TakeTurn, Abandon, Sound, Next;
    NextAt(w, ev, l);
    var a := w.lists[l];
    OffSound(a);
    if ev.Called? {
      ApplySound(a, ev.op);
      ApplyKeepsFiring(a, ev.op);
    }
    if ev.Ran? {
      var b := if ev.list == l then TakeTurn(a) else a;
      OffSound(b);
    }
    OptionsKept(a);
  }

  lemma OptionsKept(a: List)
    ensures Off(a).options == Locked(a).options == Abandon(a).options == Settle(a).options == a.options
    ensures a.pending != [] ==> var b := TakeTurn(a);
      Off(b).options == Locked(b).options == b.options == a.options
  {
  }

  lemma {:induction false} SoundRun(w: World, log: seq<Event>, l: nat)
    requires Legal(w, log) && l < |w.lists| && Sound(w.lists[l])
    ensures Sound(After(w, log).lists[l]) && After(w, log).lists[l].options == w.lists[l].options
  {
    hide Sound;
    if log != [] {
      SoundRun(w, log[..|log| - 1], l);
      SoundStep(After(w, log[..|log| - 1]), log[|log| - 1], l);
    }
  }

  lemma IdleSound(options: seq<Options>, first: seq<seq<Handler>>, l: nat)
    requires |first| == |options| && l < |options|
    ensures WellFormed(Idle(options, first)) && Sound(Idle(options, first).lists[l])
    ensures Idle(options, first).lists[l].options == options[l]
  {
    IdleOrdered(options, first);
    EnlistAllKeeps(NewList(options[l]), first[l]);
    hide EnlistAll;
  }

  // ---------- lock and disable ----------

  /** The world before event k. */
  ghost function Before(w: World, log: seq<Event>, k: nat): World
    requires Legal(w, log) && k <= |log|
  {
    CutRun(w, log, k);
    After(w, log[..k])
  }

  lemma OffStep(w: World, ev: Event, l: nat)
    requires WellFormed(w) && Enabled(w, ev) && l < |w.lists|
    requires !w.lists[l].live && !Empties(ev, l)
    ensures |Next(w, ev).lists| == |w.lists| && !Next(w, ev).lists[l].live && !RunsIn(ev, l)
  {
    NextAt(w, ev, l);
    hide Next, EnlistAll, StrikeAll;
  }

  /** A disabled list stays disabled until it is emptied. */
  lemma {:induction false} OffStaysOff(w: World, log: seq<Event>, l: nat)
    requires Legal(w, log) && l < |w.lists| && !w.lists[l].live
    requires forall i :: 0 <= i < |log| ==> !Empties(log[i], l)
    ensures !After(w, log).lists[l].live
    ensures forall i :: 0 <= i < |log| ==> !RunsIn(log[i], l)
  {
    hide Empties, RunsIn, Next, Enabled;
    if log != [] {
      var n := |log| - 1;
      OffStaysOff(w, log[..n], l);
      OffStep(After(w, log[..n]), log[n], l);
    }
  }

  lemma TurnedOff(w: World, ev: Event, l: nat)
    requires WellFormed(w) && Enabled(w, ev) && l < |w.lists|
    requires Disables(ev, l) || (Locks(ev, l) && w.lists[l].memory.None?)
    ensures |Next(w, ev).lists| == |w.lists| && !Next(w, ev).lists[l].live
  {
    NextAt(w, ev, l);
  }

  /** After disable, or after lock when nothing is remembered, no handler of the list runs,
      whatever is added or fired; only empty makes the list work again. */
  lemma Silenced(w: World, log: seq<Event>, k: nat, l: nat)
    requires Legal(w, log) && k < |log| && l < |w.lists|
    requires Disables(log[k], l) || (Locks(log[k], l) && Before(w, log, k).lists[l].memory.None?)
    requires forall i :: k < i < |log| ==> !Empties(log[i], l)
    ensures forall i :: k < i < |log| ==> !RunsIn(log[i], l)
  {
    hide Legal, After, Next, Enabled, RunsIn, Empties;
    LegalStep(w, log, k);
    CutRun(w, log, k + 1);
    TurnedOff(After(w, log[..k]), log[k], l);
    var rest := log[k + 1..];
    OffStaysOff(After(w, log[..k + 1]), rest, l);
    assert forall i :: k < i < |log| ==> log[i] == rest[i - k - 1];
  }

  /** A list whose only firing so far, or only remembered one, was with the given data, and
      which keeps no more requests. */
  ghost predicate ClosedWith(a: List, data: Data) {
    && Sound(a) && !a.queued && a.fired
    && (a.memory.Some? ==> a.memory == Some(data))
    && (a.firing.Some? ==> a.firing == Some(data))
  }

  lemma ClosedStep(w: World, ev: Event, l: nat, data: Data)
    requires WellFormed(w) && Enabled(w, ev) && l < |w.lists| && ClosedWith(w.lists[l], data)
    ensures |Next(w, ev).lists| == |w.lists| && ClosedWith(Next(w, ev).lists[l], data)
    ensures RunsIn(ev, l) ==> ev.data == data
    ensures ev.Called? && ev.op.Fire? && ev.op.list == l ==> Next(w, ev) == w
  {
    SoundStep(w, ev, l);
    NextAt(w, ev, l);
    hide EnlistAll, StrikeAll, Sound;
    var a := w.lists[l];
    if ev.Called? && ev.op.Add? {
      EnlistAllKeeps(a, ev.op.handlers);
    } else if ev.Called? && ev.op.Remove? {
      StrikeAllKeeps(a, ev.op.handlers);
    }
  }

  lemma {:induction false} ClosedRun(w: World, log: seq<Event>, l: nat, data: Data)
    requires Legal(w, log) && l < |w.lists| && ClosedWith(w.lists[l], data)
    ensures ClosedWith(After(w, log).lists[l], data)
    ensures forall i :: 0 <= i < |log| && RunsIn(log[i], l) ==> log[i].data == data
  {
    hide ClosedWith, Next, Enabled, RunsIn, Sound;
    if log != [] {
      ClosedRun(w, log[..|log| - 1], l, data);
      ClosedStep(After(w, log[..|log| - 1]), log[|log| - 1], l, data);
    }
  }

  /** The same from event k on. */
  lemma ClosedFrom(w: World, log: seq<Event>, k: nat, l: nat, data: Data)
    requires Legal(w, log) && k <= |log| && l < |w.lists| && ClosedWith(Before(w, log, k).lists[l], data)
    ensures ClosedWith(After(w, log).lists[l], data)
    ensures forall i :: k <= i < |log| && RunsIn(log[i], l) ==> log[i].data == data
  {
    hide Legal, After, Next, Enabled, RunsIn, ClosedWith;
    CutRun(w, log, k);
    ClosedRun(After(w, log[..k]), log[k..], l, data);
    assert forall i :: k <= i < |log| ==> log[i] == log[k..][i - k];
  }

  /** After lock, whatever is remembered is all that the list runs its handlers with. */
  lemma LockedWith(w: World, log: seq<Event>, k: nat, l: nat, data: Data)
    requires Legal(w, log) && k < |log| && l < |w.lists| && Sound(w.lists[l])
    requires Locks(log[k], l) && Before(w, log, k).lists[l].memory == Some(data)
    ensures forall i :: k < i < |log| && RunsIn(log[i], l) ==> log[i].data == data
    ensures forall d :: After(w, log).inScript ==>
      Enabled(After(w, log), Called(Fire(l, d))) && Next(After(w, log), Called(Fire(l, d))) == After(w, log)
  {
    LegalStep(w, log, k);
    SoundRun(w, log[..k], l);
    SoundStep(After(w, log[..k]), log[k], l);
    NextAt(After(w, log[..k]), log[k], l);
    ClosedFrom(w, log, k + 1, l, data);
    forall d | After(w, log).inScript
      ensures Enabled(After(w, log), Called(Fire(l, d))) && Next(After(w, log), Called(Fire(l, d))) == After(w, log)
    {
      ClosedStep(After(w, log), Called(Fire(l, d)), l, data);
    }
  }

  // ---------- once ----------

  /** With "once" a list runs its handlers with the arguments of one call of fire. */
  lemma OnceOneFiring(options: seq<Options>, first: seq<seq<Handler>>, log: seq<Event>, i: nat, j: nat, l: nat)
    requires |first| == |options| && Legal(Idle(options, first), log) && l < |options| && options[l].once
    requires i < j < |log| && RunsIn(log[i], l) && RunsIn(log[j], l)
    ensures log[i].data == log[j].data
  {
    var w := Idle(options, first);
    IdleSound(options, first, l);
    LegalStep(w, log, i);
    SoundRun(w, log[..i], l);
    ClosedFrom(w, log, i, l, log[i].data);
  }

  /** The turns taken, and those to come, are of different registrations. */
  ghost predicate TurnsApart(a: List, turns: seq<Entry>) {
    && Increasing(turns + a.pending) && Below(turns + a.pending, a.tags)
    && (!a.fired ==> turns == [])
  }

  lemma {:induction false} EnlistApart(a: List, hs: seq<Handler>, turns: seq<Entry>)
    requires Increasing(turns + a.pending) && Below(turns + a.pending, a.tags)
    ensures var b := EnlistAll(a, hs); Increasing(turns + b.pending) && Below(turns + b.pending, b.tags)
  {
    if hs != [] {
      var n := |hs| - 1;
      EnlistApart(a, hs[..n], turns);
      var c := EnlistAll(a, hs[..n]);
      var b, e := Enlist(c, hs[n]), Entry(c.tags, hs[n]);
      if b.pending != c.pending {
        assert turns + b.pending == (turns + c.pending) + [e];
      }
    }
  }

  /** What is added to an idle list stands behind the rest, under new tags. */
  lemma {:induction false} EnlistTail(a: List, hs: seq<Handler>)
    requires a.firing.None? && a.skip == 0
    ensures var b := EnlistAll(a, hs);
      && a.done <= b.done && b.pending == a.pending && a.tags <= b.tags && b.skip == 0
      && Increasing(b.done[|a.done|..])
      && forall e :: e in b.done[|a.done|..] ==> a.tags <= e.tag < b.tags
  {
    EnlistAllKeeps(a, hs);
    if hs != [] {
      var n := |hs| - 1;
      EnlistTail(a, hs[..n]);
      EnlistAllKeeps(a, hs[..n]);
      var c := EnlistAll(a, hs[..n]);
      var b, e := Enlist(c, hs[n]), Entry(c.tags, hs[n]);
      if b != c {
        assert b.done[|a.done|..] == c.done[|a.done|..] + [e];
      }
    }
  }

  lemma TailApart(turns: seq<Entry>, tail: seq<Entry>, low: nat, high: nat)
    requires Increasing(turns) && Below(turns, low) && low <= high
    requires Increasing(tail) && forall e :: e in tail ==> low <= e.tag < high
    ensures Increasing(turns + tail) && Below(turns + tail, high)
  {
  }

  lemma AddApart(a: List, op: Op, turns: seq<Entry>)
    requires Sound(a) && Ordered(a) && a.options.once && TurnsApart(a, turns) && op.Add?
    ensures TurnsApart(Apply(a, op), turns)
  {
    EnlistAllKeeps(a, op.handlers);
    EnlistApart(a, op.handlers, turns);
    if a.live && a.firing.None? {
      EnlistTail(a, op.handlers);
      var b := EnlistAll(a, op.handlers);
      hide EnlistAll, Ordered;
      assert a.done + a.pending == a.done && b.done + b.pending == b.done && turns + [] == turns;
      TailApart(turns, b.done[|a.done|..], a.tags, b.tags);
    }
  }

  lemma FireApart(a: List, op: Op, turns: seq<Entry>)
    requires Sound(a) && Ordered(a) && a.options.once && TurnsApart(a, turns) && op.Fire?
    ensures TurnsApart(Apply(a, op), turns)
  {
    var items := a.done + a.pending;
    assert [] + items == items && items[0..] == items;
  }

  lemma ApplyApart(a: List, op: Op, turns: seq<Entry>)
    requires Sound(a) && Ordered(a) && a.options.once && TurnsApart(a, turns)
    ensures TurnsApart(Apply(a, op), turns)
  {
    match op
    case Add(_, hs) => AddApart(a, op, turns);
    case Remove(_, hs) =>
      StrikeAllKeeps(a, hs);
      StrikeOrdered(turns, a, hs);
    case Fire(_, _) => FireApart(a, op, turns);
    case _ => CutApart(a, turns);
  }

  lemma TurnsStep(w: World, ev: Event, l: nat, turns: seq<Entry>)
    requires WellFormed(w) && Enabled(w, ev) && l < |w.lists| && w.lists[l].options.once
    requires Sound(w.lists[l]) && Ordered(w.lists[l]) && TurnsApart(w.lists[l], turns)
    ensures |Next(w, ev).lists| == |w.lists|
    ensures TurnsApart(Next(w, ev).lists[l], turns + if RunsIn(ev, l) then [ev.entry] else [])
  {
    NextAt(w, ev, l);
    var a := w.lists[l];
    assert RunsIn(ev, l) ==> a.fired && a.pending != [];
    hide Next, Apply, Ordered, Sound, TurnsApart, TakeTurn, Off, Locked, Abandon, Settle, WellFormed;
    assert turns + [] == turns;
    CutApart(a, turns);
    if ev.Called? {
      ApplyApart(a, ev.op, turns);
    } else if RunsIn(ev, l) {
      TurnApart(a, turns);
      CutApart(TakeTurn(a), turns + [ev.entry]);
    }
  }

  lemma TurnApart(a: List, turns: seq<Entry>)
    requires TurnsApart(a, turns) && a.pending != [] && a.fired
    ensures TurnsApart(TakeTurn(a), turns + [a.pending[0]])
  {
    assert turns + a.pending == (turns + [a.pending[0]]) + a.pending[1..];
  }

  lemma CutApart(a: List, turns: seq<Entry>)
    requires TurnsApart(a, turns)
    ensures TurnsApart(Off(a), turns) && TurnsApart(Locked(a), turns) && TurnsApart(Abandon(a), turns)
    ensures TurnsApart(Cleared(a).(live := true), turns)
    ensures a.options.once && Sound(a) ==> TurnsApart(Settle(a), turns)
  {
    assert turns + [] == turns;
    assert forall i :: 0 <= i < |turns| ==> (turns + a.pending)[i] == turns[i];
  }

  /** With "once", no registration has more than one turn in the whole run. */
  lemma {:induction false} OnceEach(options: seq<Options>, first: seq<seq<Handler>>, log: seq<Event>, l: nat)
    requires |first| == |options| && Legal(Idle(options, first), log) && l < |options| && options[l].once
    ensures TurnsApart(After(Idle(options, first), log).lists[l], Turns(log, l))
    ensures Increasing(Turns(log, l))
  {
    var w := Idle(options, first);
    IdleSound(options, first, l);
    IdleOrdered(options, first);
    hide Ordered, Sound, Enabled, Next, WellFormed;
    if log == [] {
      IdleApart(options, first, l);
    } else {
      var n := |log| - 1;
      OnceEach(options, first, log[..n], l);
      SoundRun(w, log[..n], l);
      OrderedRun(w, log[..n]);
      TurnsStep(After(w, log[..n]), log[n], l, Turns(log[..n], l));
      assert RunsIn(log[n], l) <==> log[n].Ran? && log[n].list == l;
    }
    var a, turns := After(w, log).lists[l], Turns(log, l);
    assert forall i :: 0 <= i < |turns| ==> (turns + a.pending)[i] == turns[i];
  }

  lemma IdleApart(options: seq<Options>, first: seq<seq<Handler>>, l: nat)
    requires |first| == |options| && l < |options|
    ensures TurnsApart(Idle(options, first).lists[l], [])
  {
    EnlistAllKeeps(NewList(options[l]), first[l]);
    hide EnlistAll;
    NoneOrdered(0);
    assert [] + Idle(options, first).lists[l].pending == [] + [];
  }

  // ---------- memory ----------

  /** What the list last fired with, if nothing has made it forget. */
  ghost function Remembered(w: World, log: seq<Event>, l: nat): Option<Data>
    requires Legal(w, log) && l < |w.lists|
  {
    if log == [] then None
    else
      var n := |log| - 1;
      var v := After(w, log[..n]);
      if Forgets(v, log[n], l) then None
      else if Starts(v, log[n], l) then After(w, log).lists[l].firing
      else Remembered(w, log[..n], l)
  }

  lemma MemoryStep(w: World, ev: Event, l: nat)
    requires WellFormed(w) && Enabled(w, ev) && l < |w.lists| && Sound(w.lists[l])
    ensures var a, b := w.lists[l], Next(w, ev).lists[l];
      a.options.memory ==>
        b.memory == if Forgets(w, ev, l) then None else if Starts(w, ev, l) then b.firing else a.memory
  {
    NextAt(w, ev, l);
    hide EnlistAll, StrikeAll;
    var a := w.lists[l];
    if ev.Called? && ev.op.Add? {
      EnlistAllKeeps(a, ev.op.handlers);
    } else if ev.Called? && ev.op.Remove? {
      StrikeAllKeeps(a, ev.op.handlers);
    }
    hide Next;
  }

  /** With "memory" a list remembers what it last fired with. */
  lemma {:induction false} MemoryOfLast(options: seq<Options>, first: seq<seq<Handler>>, log: seq<Event>, l: nat)
    requires |first| == |options| && Legal(Idle(options, first), log) && l < |options|
    ensures After(Idle(options, first), log).lists[l].memory
         == if options[l].memory then Remembered(Idle(options, first), log, l) else None
  {
    var w := Idle(options, first);
    IdleSound(options, first, l);
    SoundRun(w, log, l);
    if log == [] {
      EnlistAllKeeps(NewList(options[l]), first[l]);
    } else {
      var n := |log| - 1;
      hide Sound, Enabled, Next, WellFormed, Forgets, Starts, Idle;
      MemoryOfLast(options, first, log[..n], l);
      SoundRun(w, log[..n], l);
      MemoryStep(After(w, log[..n]), log[n], l);
    }
  }

  /** What is added to an idle list is run at once, if the list has "memory" and has
      something to remember, and with that; then the additions are all that is to run. */
  lemma AddReplays(options: seq<Options>, first: seq<seq<Handler>>, log: seq<Event>, l: nat, hs: seq<Handler>)
    requires |first| == |options| && Legal(Idle(options, first), log) && l < |options|
    requires var w := After(Idle(options, first), log); w.inScript && w.lists[l].firing.None?
    ensures var w := After(Idle(options, first), log);
            var b := Next(w, Called(Add(l, hs))).lists[l];
      && b.firing == (if options[l].memory then Remembered(Idle(options, first), log, l) else None)
      && (b.firing.Some? ==> w.lists[l].live && b.done == w.lists[l].done)
      && (b.firing.Some? && !options[l].unique ==> Handlers(b.pending) == hs)
  {
    var w := After(Idle(options, first), log);
    MemoryOfLast(options, first, log, l);
    IdleSound(options, first, l);
    SoundRun(Idle(options, first), log, l);
    IdleOrdered(options, first);
    OrderedRun(Idle(options, first), log);
    var a := w.lists[l];
    assert Ordered(a);
    AddToIdle(a, l, hs);
    NextAt(w, Called(Add(l, hs)), l);
  }

  lemma AddToIdle(a: List, l: nat, hs: seq<Handler>)
    requires Sound(a) && a.firing.None? && a.pending == []
    ensures var b := Apply(a, Add(l, hs));
      && b.firing == a.memory
      && (b.firing.Some? ==> a.live && b.done == a.done)
      && (b.firing.Some? && !a.options.unique ==> Handlers(b.pending) == hs)
  {
    if a.live {
      EnlistAllKeeps(a, hs);
      EnlistTail(a, hs);
      var c := EnlistAll(a, hs);
      assert a.done + a.pending == a.done && c.done + c.pending == c.done;
      if !a.options.unique {
        EnlistAppends(a, hs);
        hide EnlistAll, Sound;
        HandlersTail(a.done, c.done, hs);
      }
    }
  }

  lemma HandlersTail(before: seq<Entry>, after: seq<Entry>, hs: seq<Handler>)
    requires before <= after && Handlers(after) == Handlers(before) + hs
    ensures Handlers(after[|before|..]) == hs
  {
    assert (Handlers(before) + hs)[|before|..] == hs;
  }

  // ---------- stopOnFalse ----------

  /** With "stopOnFalse", a handler that returns false ends the firing; without it, the answer
      of a handler changes nothing in any list. */
  lemma FalseStops(w: World, log: seq<Event>, k: nat)
    requires Legal(w, log) && k + 1 < |log| && log[k].Returned?
    ensures var v := Before(w, log, k);
      && v.frames != [] && v.frames[|v.frames| - 1] < |v.lists|
      && var l := v.frames[|v.frames| - 1];
         if log[k] == Returned(true) && v.lists[l].options.stopOnFalse then log[k + 1] == Finished(l)
         else Before(w, log, k + 1).lists == v.lists
  {
    hide Legal, After, Next, Enabled, WellFormed;
    LegalStep(w, log, k);
    LegalStep(w, log, k + 1);
    ReturnStops(After(w, log[..k]), log[k], log[k + 1]);
  }

  lemma ReturnStops(v: World, ev: Event, next: Event)
    requires WellFormed(v) && Enabled(v, ev) && WellFormed(Next(v, ev)) && Enabled(Next(v, ev), next) && ev.Returned?
    ensures v.frames != [] && v.frames[|v.frames| - 1] < |v.lists|
    ensures var l := v.frames[|v.frames| - 1];
      if ev == Returned(true) && v.lists[l].options.stopOnFalse then next == Finished(l)
      else Next(v, ev).lists == v.lists
  {
  }

  /** A list with "once" and without "memory" that has fired. */
  ghost predicate Spent(a: List) {
    Sound(a) && a.fired && !a.queued && !a.options.memory && a.firing.None?
  }

  lemma SpentStep(w: World, ev: Event, l: nat)
    requires WellFormed(w) && Enabled(w, ev) && l < |w.lists|
    ensures |Next(w, ev).lists| == |w.lists|
    ensures Spent(w.lists[l]) ==> Spent(Next(w, ev).lists[l]) && !RunsIn(ev, l)
    ensures ev == Finished(l) && Sound(w.lists[l]) && w.lists[l].options.once && !w.lists[l].options.memory ==>
      Spent(Next(w, ev).lists[l])
  {
    NextAt(w, ev, l);
    var a := w.lists[l];
    if Sound(a) {
      SoundStep(w, ev, l);
    }
    hide Next, EnlistAll, StrikeAll;
    if ev.Called? && ev.op.Add? {
      EnlistAllKeeps(a, ev.op.handlers);
    } else if ev.Called? && ev.op.Remove? {
      StrikeAllKeeps(a, ev.op.handlers);
    }
  }

  lemma {:induction false} SpentRun(w: World, log: seq<Event>, l: nat)
    requires Legal(w, log) && l < |w.lists| && Spent(w.lists[l])
    ensures Spent(After(w, log).lists[l]) && forall i :: 0 <= i < |log| ==> !RunsIn(log[i], l)
  {
    hide Spent, Enabled, Next, RunsIn;
    if log != [] {
      SpentRun(w, log[..|log| - 1], l);
      SpentStep(After(w, log[..|log| - 1]), log[|log| - 1], l);
    }
  }

  /** With "once" and without "memory", the end of the first firing is the end of all. */
  lemma OnceThenSilent(options: seq<Options>, first: seq<seq<Handler>>, log: seq<Event>, k: nat, l: nat)
    requires |first| == |options| && Legal(Idle(options, first), log) && l < |options|
    requires options[l].once && !options[l].memory && k < |log| && log[k] == Finished(l)
    ensures forall i :: k < i < |log| ==> !RunsIn(log[i], l)
  {
    var w := Idle(options, first);
    hide Legal, After, Next, Enabled, RunsIn, Spent, Sound, Idle;
    IdleSound(options, first, l);
    LegalStep(w, log, k);
    CutRun(w, log, k + 1);
    SoundRun(w, log[..k], l);
    SpentStep(After(w, log[..k]), log[k], l);
    SpentRun(After(w, log[..k + 1]), log[k + 1..], l);
    assert forall i :: k < i < |log| ==> log[i] == log[k + 1..][i - k - 1];
  }
}
