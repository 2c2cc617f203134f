/** What a callback list holds in whole runs: what add brings in, what remove and empty take
    out, and that a list with "unique" holds no function twice. */
module EntryLaws {
  import opened CallbackLaws
  import opened CallbackRuntime
  import opened CallbackSpec
  import opened OptionLaws
  import opened Wrappers

  ghost predicate All(a: List, p: Entry -> bool) {
    forall e :: e in a.done + a.pending ==> p(e)
  }

  /** Whatever the event adds to the list has the property. */
  ghost predicate Adds(w: World, ev: Event, l: nat, p: Entry -> bool)
    requires l < |w.lists|
  {
    ev.Called? && ev.op.Add? && ev.op.list == l ==>
      forall t: nat, h :: w.lists[l].tags <= t && h in ev.op.handlers ==> p(Entry(t, h))
  }

  lemma {:induction false} EnlistAllHas(a: List, hs: seq<Handler>, p: Entry -> bool)
    requires All(a, p) && forall t: nat, h :: a.tags <= t && h in hs ==> p(Entry(t, h))
    ensures All(EnlistAll(a, hs), p) && a.tags <= EnlistAll(a, hs).tags
  {
    if hs != [] {
      EnlistAllHas(a, hs[..|hs| - 1], p);
    }
  }

  lemma {:induction false} WithoutHas(es: seq<Entry>, h: Handler)
    ensures forall e :: e in Without(es, h) <==> e in es && e.handler != h
  {
    if es != [] {
      WithoutHas(es[..|es| - 1], h);
      assert es == es[..|es| - 1] + [es[|es| - 1]];
    }
  }

  /** remove takes out the entries of the given functions, wherever they are, and no other. */
  lemma {:induction false} StrikeAllHas(a: List, hs: seq<Handler>)
    ensures forall e :: e in StrikeAll(a, hs).done <==> e in a.done && e.handler !in hs
    ensures forall e :: e in StrikeAll(a, hs).pending <==> e in a.pending && e.handler !in hs
  {
    if hs != [] {
      var n := |hs| - 1;
      StrikeAllHas(a, hs[..n]);
      WithoutHas(StrikeAll(a, hs[..n]).done, hs[n]);
      WithoutHas(StrikeAll(a, hs[..n]).pending, hs[n]);
      assert hs == hs[..n] + [hs[n]];
    }
  }

  lemma ApplyHas(a: List, op: Op, p: Entry -> bool)
    requires All(a, p)
    requires op.Add? ==> forall t: nat, h :: a.tags <= t && h in op.handlers ==> p(Entry(t, h))
    ensures All(Apply(a, op), p)
  {
    match op
    case Add(_, hs) =>
      EnlistAllHas(a, hs, p);
      var b := EnlistAll(a, hs);
      BeginSame(b, if b.memory.Some? then b.memory.value else 0, |a.done + a.pending|);
    case Remove(_, hs) => StrikeAllHas(a, hs);
    case Fire(_, data) => BeginSame(a, data, 0);
    case _ =>
  }

  lemma BeginSame(a: List, data: Data, start: nat)
    ensures Begin(a, data, start).done + Begin(a, data, start).pending == a.done + a.pending
  {
  }

  lemma AllStep(w: World, ev: Event, l: nat, p: Entry -> bool)
    requires WellFormed(w) && Enabled(w, ev) && l < |w.lists| && All(w.lists[l], p) && Adds(w, ev, l, p)
    ensures |Next(w, ev).lists| == |w.lists| && All(Next(w, ev).lists[l], p)
    ensures RunsIn(ev, l) ==> p(ev.entry)
  {
    NextAt(w, ev, l);
    var a := w.lists[l];
    OffHas(a, p);
    if RunsIn(ev, l) {
      TurnHas(a, p);
      OffHas(TakeTurn(a), p);
    } else if ev.Called? && ev.op.list == l {
      ApplyHas(a, ev.op, p);
    }
    hide Next, Apply, Off, Locked, Settle, Abandon, TakeTurn, All;
  }

  lemma TurnHas(a: List, p: Entry -> bool)
    requires a.pending != [] && All(a, p)
    ensures All(TakeTurn(a), p) && p(a.pending[0])
  {
    assert a.pending[0] in a.done + a.pending;
    assert TakeTurn(a).done + TakeTurn(a).pending == a.done + a.pending;
  }

  lemma OffHas(a: List, p: Entry -> bool)
    requires All(a, p)
    ensures All(Off(a), p) && All(Locked(a), p) && All(Abandon(a), p) && All(Settle(a), p)
  {
    hide Begin;
    var b := a.(firing := None, skip := 0);
    if b.queue != [] {
      BeginSame(b.(queue := b.queue[1..]), b.queue[0], 0);
    }
  }

  lemma {:induction false} WithoutRun(w: World, log: seq<Event>, l: nat, h: Handler)
    requires Legal(w, log) && l < |w.lists| && All(w.lists[l], Other(h))
    requires forall i :: 0 <= i < |log| ==> !AddsHandler(log[i], l, h)
    ensures All(After(w, log).lists[l], Other(h))
    ensures forall i :: 0 <= i < |log| && RunsIn(log[i], l) ==> log[i].entry.handler != h
  {
    hide All, Enabled, Next, RunsIn;
    if log != [] {
      var n := |log| - 1;
      WithoutRun(w, log[..n], l, h);
      AllStep(After(w, log[..n]), log[n], l, Other(h));
    }
  }

  ghost function Other(h: Handler): Entry -> bool {
    (e: Entry) => e.handler != h
  }

  ghost function From(tag: nat): Entry -> bool {
    (e: Entry) => e.tag >= tag
  }

  ghost predicate AddsHandler(ev: Event, l: nat, h: Handler) {
    ev.Called? && ev.op.Add? && ev.op.list == l && h in ev.op.handlers
  }

  /** A function that has been removed does not run until it is added again. */
  lemma RemovedSilent(options: seq<Options>, first: seq<seq<Handler>>, log: seq<Event>,
                      k: nat, l: nat, h: Handler)
    requires |first| == |options| && Legal(Idle(options, first), log) && l < |options| && k < |log|
    requires log[k].Called? && log[k].op.Remove? && log[k].op.list == l && h in log[k].op.handlers
    requires forall i :: k < i < |log| ==> !AddsHandler(log[i], l, h)
    ensures forall i :: k < i < |log| && RunsIn(log[i], l) ==> log[i].entry.handler != h
  {
    var w := Idle(options, first);
    IdleOrdered(options, first);
    hide Legal, After, Next, Enabled, RunsIn, Idle, AddsHandler, WellFormed;
    LegalStep(w, log, k);
    CutRun(w, log, k + 1);
    OrderedRun(w, log[..k]);
    RemoveTakes(After(w, log[..k]), log[k].op, h);
    WithoutRun(After(w, log[..k + 1]), log[k + 1..], l, h);
    assert forall i :: k < i < |log| ==> log[i] == log[k + 1..][i - k - 1];
  }

  lemma RemoveTakes(w: World, op: Op, h: Handler)
    requires WellFormed(w) && Enabled(w, Called(op)) && op.Remove? && op.list < |w.lists|
    requires h in op.handlers && Ordered(w.lists[op.list])
    ensures |Next(w, Called(op)).lists| == |w.lists|
    ensures All(Next(w, Called(op)).lists[op.list], Other(h))
  {
    NextAt(w, Called(op), op.list);
    StrikeAllHas(w.lists[op.list], op.handlers);
  }

  /** remove keeps the entries of all other functions, with their turns to come. */
  lemma RemoveKeepsOthers(w: World, op: Op)
    requires WellFormed(w) && Enabled(w, Called(op)) && op.Remove? && op.list < |w.lists|
    ensures |Next(w, Called(op)).lists| == |w.lists|
    ensures var a, b := w.lists[op.list], Next(w, Called(op)).lists[op.list];
      && (forall e :: e in b.done <==> e in a.done && (a.live ==> e.handler !in op.handlers))
      && (forall e :: e in b.pending <==> e in a.pending && (a.live ==> e.handler !in op.handlers))
  {
    NextAt(w, Called(op), op.list);
    StrikeAllHas(w.lists[op.list], op.handlers);
  }

  ghost predicate Since(a: List, tag: nat) {
    tag <= a.tags && All(a, From(tag))
  }

  lemma SinceStep(w: World, ev: Event, l: nat, tag: nat)
    requires WellFormed(w) && Enabled(w, ev) && l < |w.lists| && Since(w.lists[l], tag)
    ensures |Next(w, ev).lists| == |w.lists| && Since(Next(w, ev).lists[l], tag)
    ensures RunsIn(ev, l) ==> ev.entry.tag >= tag
  {
    AllStep(w, ev, l, From(tag));
    NextAt(w, ev, l);
    hide Next, All, EnlistAll, StrikeAll;
    if ev.Called? && ev.op.Add? {
      EnlistAllKeeps(w.lists[l], ev.op.handlers);
    } else if ev.Called? && ev.op.Remove? {
      StrikeAllKeeps(w.lists[l], ev.op.handlers);
    }
  }

  lemma {:induction false} SinceRun(w: World, log: seq<Event>, l: nat, tag: nat)
    requires Legal(w, log) && l < |w.lists| && Since(w.lists[l], tag)
    ensures Since(After(w, log).lists[l], tag)
    ensures forall i :: 0 <= i < |log| && RunsIn(log[i], l) ==> log[i].entry.tag >= tag
  {
    hide Since, Enabled, Next, RunsIn;
    if log != [] {
      SinceRun(w, log[..|log| - 1], l, tag);
      SinceStep(After(w, log[..|log| - 1]), log[|log| - 1], l, tag);
    }
  }

  /** After empty, only what is added later runs. */
  lemma EmptyForgets(w: World, log: seq<Event>, k: nat, l: nat)
    requires Legal(w, log) && k < |log| && l < |w.lists| && Empties(log[k], l)
    ensures forall i :: k < i < |log| && RunsIn(log[i], l) ==> log[i].entry.tag >= Before(w, log, k).lists[l].tags
  {
    LegalStep(w, log, k);
    CutRun(w, log, k + 1);
    NextAt(After(w, log[..k]), log[k], l);
    hide Legal, After, Next, Enabled, RunsIn;
    SinceRun(After(w, log[..k + 1]), log[k + 1..], l, After(w, log[..k]).lists[l].tags);
    assert forall i :: k < i < |log| ==> log[i] == log[k + 1..][i - k - 1];
  }

  // ---------- what a firing starts with ----------

  /** A firing that fire begins, or that a queued request begins, has all entries before it. */
  lemma FiringTakesAll(w: World, ev: Event, l: nat)
    requires WellFormed(w) && Enabled(w, ev) && l < |w.lists| && Ordered(w.lists[l])
    requires Starts(w, ev, l) && !(ev.Called? && ev.op.Add?)
    ensures |Next(w, ev).lists| == |w.lists|
    ensures var a, b := w.lists[l], Next(w, ev).lists[l];
      b.done == [] && b.pending == a.done + a.pending && b.skip == 0
  {
    NextAt(w, ev, l);
    hide EnlistAll;
    if ev.Called? && ev.op.Remove? {
      StrikeAllKeeps(w.lists[l], ev.op.handlers);
    }
  }

  /** Nothing is removed, and the firing is not cut short. */
  ghost predicate Undisturbed(w: World, log: seq<Event>, l: nat)
    requires Legal(w, log) && l < |w.lists|
  {
    Calm(w, log, l) && forall i :: 0 <= i < |log| && log[i].Called? && log[i].op.Remove? ==> log[i].op.list != l
  }

  lemma UndisturbedStep(w: World, ev: Event, l: nat)
    requires WellFormed(w) && Enabled(w, ev) && l < |w.lists| && Mild(w, ev, l)
    requires ev.Called? && ev.op.Remove? ==> ev.op.list != l
    requires w.lists[l].firing.Some? && w.lists[l].skip == 0
    ensures |Next(w, ev).lists| == |w.lists|
    ensures var a, b := w.lists[l], Next(w, ev).lists[l];
      && b.firing == a.firing && b.skip == 0 && b.options == a.options
      && |b.done| == |a.done| + if RunsIn(ev, l) then 1 else 0
  {
    NextAt(w, ev, l);
    hide Next, EnlistAll, StrikeAll;
    if ev.Called? && ev.op.Add? {
      EnlistAllKeeps(w.lists[l], ev.op.handlers);
    }
  }

  /** In an undisturbed firing of the whole list the turns taken are the entries behind. */
  lemma {:induction false} TurnsBehind(w: World, log: seq<Event>, l: nat)
    requires Legal(w, log) && l < |w.lists| && Undisturbed(w, log, l)
    requires w.lists[l].firing.Some? && w.lists[l].skip == 0 && w.lists[l].done == []
    ensures var b := After(w, log).lists[l];
      && b.firing.Some? && b.skip == 0 && b.options == w.lists[l].options
      && |b.done| == |Turns(log, l)|
  {
    if log != [] {
      var n := |log| - 1;
      assert Undisturbed(w, log[..n], l);
      TurnsBehind(w, log[..n], l);
      UndisturbedStep(After(w, log[..n]), log[n], l);
    }
  }

  /** After empty during such a firing, as many additions as there were turns are passed over:
      the index of the firing stays where it is. Those after them have their turns. */
  lemma EmptyPassesOver(w: World, log: seq<Event>, l: nat, hs: seq<Handler>)
    requires Legal(w, log) && l < |w.lists| && Undisturbed(w, log, l) && !w.lists[l].options.unique
    requires w.lists[l].firing.Some? && w.lists[l].skip == 0 && w.lists[l].done == []
    ensures var b := EnlistAll(Apply(After(w, log).lists[l], Empty(l)), hs); var turns := |Turns(log, l)|;
      Handlers(b.pending) == if |hs| <= turns then [] else hs[turns..]
  {
    TurnsBehind(w, log, l);
    SkipCounts(Apply(After(w, log).lists[l], Empty(l)), hs);
  }

  lemma {:induction false} SkipCounts(a: List, hs: seq<Handler>)
    requires a.firing.Some? && a.pending == [] && !a.options.unique
    ensures var b := EnlistAll(a, hs);
      && b.firing == a.firing && b.options == a.options
      && b.skip == (if |hs| <= a.skip then a.skip - |hs| else 0)
      && Handlers(b.pending) == if |hs| <= a.skip then [] else hs[a.skip..]
  {
    if hs != [] {
      var n := |hs| - 1;
      SkipCounts(a, hs[..n]);
      var c := EnlistAll(a, hs[..n]);
      if |hs| > a.skip {
        HandlersConcat(c.pending, [Entry(c.tags, hs[n])]);
        assert hs[a.skip..] == (if n <= a.skip then [] else hs[..n][a.skip..]) + [hs[n]];
      }
    }
  }

  // ---------- unique ----------

  ghost predicate Distinct(items: seq<Entry>) {
    forall i, j :: 0 <= i < j < |items| ==> items[i].handler != items[j].handler
  }

  lemma EnlistDistinct(a: List, h: Handler)
    requires a.options.unique && Distinct(a.done + a.pending) && (a.skip > 0 || a.firing.None? ==> a.pending == [])
    ensures var b := Enlist(a, h);
      Distinct(b.done + b.pending) && (b.skip > 0 || b.firing.None? ==> b.pending == [])
  {
    var b, items := Enlist(a, h), a.done + a.pending;
    if b != a {
      assert b.done + b.pending == items + [Entry(a.tags, h)];
    }
  }

  lemma {:induction false} EnlistAllDistinct(a: List, hs: seq<Handler>)
    requires a.options.unique && Distinct(a.done + a.pending) && (a.skip > 0 || a.firing.None? ==> a.pending == [])
    ensures var b := EnlistAll(a, hs);
      && b.options == a.options && Distinct(b.done + b.pending)
      && (b.skip > 0 || b.firing.None? ==> b.pending == [])
  {
    hide Enlist, Distinct;
    if hs != [] {
      EnlistAllDistinct(a, hs[..|hs| - 1]);
      EnlistDistinct(EnlistAll(a, hs[..|hs| - 1]), hs[|hs| - 1]);
      EnlistAllKeeps(a, hs);
    }
  }

  lemma {:induction false} WithoutDistinct(es: seq<Entry>, h: Handler)
    requires Distinct(es)
    ensures Distinct(Without(es, h))
  {
    if es != [] {
      var n := |es| - 1;
      WithoutDistinct(es[..n], h);
      var kept := Without(es[..n], h);
      WithoutHas(es[..n], h);
      forall i | 0 <= i < |kept| ensures kept[i].handler != es[n].handler {
        assert kept[i] in kept;
        var j :| 0 <= j < n && es[j] == kept[i];
      }
    }
  }

  lemma {:induction false} StrikeAllDistinct(a: List, hs: seq<Handler>)
    requires Distinct(a.done + a.pending)
    ensures Distinct(StrikeAll(a, hs).done + StrikeAll(a, hs).pending)
  {
    if hs != [] {
      var n := |hs| - 1;
      StrikeAllDistinct(a, hs[..n]);
      var b := StrikeAll(a, hs[..n]);
      WithoutDistinct(b.done + b.pending, hs[n]);
      WithoutConcat(b.done, b.pending, hs[n]);
    }
  }

  lemma ApplyDistinct(a: List, op: Op)
    requires a.options.unique && Distinct(a.done + a.pending) && (a.skip > 0 || a.firing.None? ==> a.pending == [])
    ensures Distinct(Apply(a, op).done + Apply(a, op).pending)
  {
    hide Distinct;
    match op
    case Add(_, hs) =>
      EnlistAllDistinct(a, hs);
      var b := EnlistAll(a, hs);
      BeginSame(b, if b.memory.Some? then b.memory.value else 0, |a.done + a.pending|);
    case Remove(_, hs) => StrikeAllDistinct(a, hs);
    case Fire(_, data) => BeginSame(a, data, 0);
    case _ => NoneDistinct();
  }

  lemma NoneDistinct()
    ensures Distinct([] + [])
  {
  }

  lemma DistinctStep(w: World, ev: Event, l: nat)
    requires WellFormed(w) && Enabled(w, ev) && l < |w.lists| && w.lists[l].options.unique
    requires Ordered(w.lists[l]) && Distinct(w.lists[l].done + w.lists[l].pending)
    ensures |Next(w, ev).lists| == |w.lists|
    ensures Distinct(Next(w, ev).lists[l].done + Next(w, ev).lists[l].pending)
  {
    NextAt(w, ev, l);
    var a := w.lists[l];
    hide Next, Apply, Off, Locked, Settle, Abandon, TakeTurn, Distinct;
    OffDistinct(a);
    if ev.Called? && ev.op.list == l {
      ApplyDistinct(a, ev.op);
    } else if RunsIn(ev, l) {
      TurnSame(a);
      OffDistinct(TakeTurn(a));
    }
  }

  lemma TurnSame(a: List)
    requires a.pending != []
    ensures TakeTurn(a).done + TakeTurn(a).pending == a.done + a.pending
  {
  }

  lemma OffDistinct(a: List)
    requires Distinct(a.done + a.pending)
    ensures Distinct(Off(a).done + Off(a).pending) && Distinct(Locked(a).done + Locked(a).pending)
    ensures Distinct(Abandon(a).done + Abandon(a).pending) && Distinct(Settle(a).done + Settle(a).pending)
  {
    NoneDistinct();
    hide Distinct, Begin;
    assert Abandon(a).done + Abandon(a).pending == a.done + a.pending;
    var b := a.(firing := None, skip := 0);
    if b.queue != [] {
      BeginSame(b.(queue := b.queue[1..]), b.queue[0], 0);
    }
  }

  /** With "unique", the list never holds a function twice. */
  lemma {:induction false} UniqueRun(options: seq<Options>, first: seq<seq<Handler>>, log: seq<Event>, l: nat)
    requires |first| == |options| && Legal(Idle(options, first), log) && l < |options| && options[l].unique
    ensures var a := After(Idle(options, first), log).lists[l]; Distinct(a.done + a.pending)
  {
    var w := Idle(options, first);
    IdleSound(options, first, l);
    IdleOrdered(options, first);
    hide Distinct, Ordered, Sound, Enabled, Next, WellFormed;
    if log == [] {
      NoneDistinct();
      EnlistAllDistinct(NewList(options[l]), first[l]);
    } else {
      var n := |log| - 1;
      UniqueRun(options, first, log[..n], l);
      SoundRun(w, log[..n], l);
      OrderedRun(w, log[..n]);
      DistinctStep(After(w, log[..n]), log[n], l);
    }
  }

  /** Every function given to add is in the list afterwards, with a turn to come if the list
      fires and it was not there before. */
  lemma {:induction false} AddedPresent(a: List, hs: seq<Handler>, h: Handler)
    requires h in hs
    ensures var b := EnlistAll(a, hs); Has(b.done + b.pending, h)
    ensures a.firing.Some? && a.skip == 0 && !Has(a.done + a.pending, h) ==> Has(EnlistAll(a, hs).pending, h)
  {
    var n := |hs| - 1;
    var c := EnlistAll(a, hs[..n]);
    EnlistAllKeeps(a, hs[..n]);
    if h in hs[..n] {
      AddedPresent(a, hs[..n], h);
      EnlistKeepsHas(c, hs[n], h);
    } else {
      assert hs[n] == h;
      EnlistHas(c, h);
      if !Has(a.done + a.pending, h) {
        NotYet(a, hs[..n], h);
      }
    }
  }

  lemma EnlistKeepsHas(a: List, g: Handler, h: Handler)
    ensures var b := Enlist(a, g);
      && (Has(a.done + a.pending, h) ==> Has(b.done + b.pending, h)) && (Has(a.pending, h) ==> Has(b.pending, h))
  {
    var b := Enlist(a, g);
    forall i | 0 <= i < |a.pending| ensures b.pending[i] == a.pending[i] {
    }
    if i :| 0 <= i < |a.done + a.pending| && (a.done + a.pending)[i].handler == h {
      var e := (a.done + a.pending)[i];
      var j := if i < |a.done| then i else i - |a.done| + |b.done|;
      assert (b.done + b.pending)[j] == e;
    }
  }

  lemma EnlistHas(a: List, h: Handler)
    ensures var b := Enlist(a, h);
      && Has(b.done + b.pending, h)
      && (a.firing.Some? && a.skip == 0 && !Has(a.done + a.pending, h) ==> Has(b.pending, h))
  {
    var b := Enlist(a, h);
    if b != a {
      var i := if b.pending == a.pending then |a.done| else |b.done| + |a.pending|;
      assert (b.done + b.pending)[i].handler == h;
      if b.pending != a.pending {
        assert b.pending[|a.pending|].handler == h;
      }
    }
  }

  lemma {:induction false} NotYet(a: List, hs: seq<Handler>, h: Handler)
    requires h !in hs && !Has(a.done + a.pending, h)
    ensures !Has(EnlistAll(a, hs).done + EnlistAll(a, hs).pending, h)
  {
    if hs != [] {
      var n := |hs| - 1;
      NotYet(a, hs[..n], h);
      var c := EnlistAll(a, hs[..n]);
      var b := Enlist(c, hs[n]);
      forall i | 0 <= i < |b.done + b.pending| ensures (b.done + b.pending)[i].handler != h {
        assert (b.done + b.pending)[i] in c.done + c.pending || (b.done + b.pending)[i].handler == hs[n];
      }
    }
  }
}
