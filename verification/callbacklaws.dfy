/** What callback lists promise: no turn is skipped or taken twice, however handlers add
    and remove while the list fires, and firings requested meanwhile follow in order. */
module CallbackLaws {
  import opened CallbackPlans
  import opened CallbackSpec
  import opened Callbacks
  import opened CallbackRuntime
  import opened Wrappers

  ghost predicate HasTag(es: seq<Entry>, tag: nat) {
    exists i :: 0 <= i < |es| && es[i].tag == tag
  }

  ghost predicate Increasing(es: seq<Entry>) {
    forall i, j :: 0 <= i < j < |es| ==> es[i].tag < es[j].tag
  }

  ghost predicate Below(es: seq<Entry>, bound: nat) {
    forall i :: 0 <= i < |es| ==> es[i].tag < bound
  }

  /** The turns list l took. */
  ghost function Turns(log: seq<Event>, l: nat): seq<Entry> {
    if log == [] then []
    else
      var n := |log| - 1;
      Turns(log[..n], l) + if log[n].Ran? && log[n].list == l then [log[n].entry] else []
  }

  /** The registrations that remove took out of list l before their turn. */
  ghost predicate Struck(w: World, log: seq<Event>, l: nat, tag: nat)
    requires Legal(w, log) && l < |w.lists|
  {
    && log != []
    && var n := |log| - 1;
       Struck(w, log[..n], l, tag) || Leaves(After(w, log[..n]), log[n], l, tag)
  }

  ghost predicate Leaves(w: World, ev: Event, l: nat, tag: nat)
    requires WellFormed(w) && Enabled(w, ev) && l < |w.lists|
  {
    && ev.Called? && ev.op.Remove? && ev.op.list == l
    && HasTag(w.lists[l].pending, tag) && !HasTag(Next(w, ev).lists[l].pending, tag)
  }

  /** The event neither ends l's firing nor drops its entries wholesale (empty, disable,
      lock without memory, stopOnFalse). */
  ghost predicate Mild(w: World, ev: Event, l: nat)
    requires WellFormed(w) && l < |w.lists|
  {
    match ev
    case Called(op) =>
      op.list == l ==> op.Add? || op.Remove? || op.Fire? || (op.Lock? && w.lists[l].memory.Some?)
    case Ran(_, e, _) =>
      e.handler != DisableList(l) && (e.handler == LockList(l) ==> w.lists[l].memory.Some?)
    case Returned(stop) => !(stop && w.frames != [] && w.frames[|w.frames| - 1] == l && w.lists[l].options.stopOnFalse)
    case Finished(k) => k != l
  }

  ghost predicate Calm(w: World, log: seq<Event>, l: nat)
    requires Legal(w, log) && l < |w.lists|
  {
    log != [] ==>
      var n := |log| - 1;
      Calm(w, log[..n], l) && Mild(After(w, log[..n]), log[n], l)
  }

  // ---------- one list, one event ----------

  lemma {:induction false} WithoutOrdered(before: seq<Entry>, es: seq<Entry>, h: Handler, bound: nat)
    requires Increasing(before + es) && Below(before + es, bound)
    ensures Increasing(before + Without(es, h)) && Below(before + Without(es, h), bound)
    ensures forall e :: e in Without(es, h) ==> e in es
  {
    if es != [] {
      var n := |es| - 1;
      assert before + es == (before + es[..n]) + [es[n]];
      assert forall i :: 0 <= i < |before + es[..n]| ==> (before + es[..n])[i] == (before + es)[i];
      WithoutOrdered(before, es[..n], h, bound);
      var kept := before + Without(es[..n], h);
      if es[n].handler != h {
        forall i | 0 <= i < |kept| ensures kept[i].tag < es[n].tag {
          if i >= |before| {
            assert kept[i] in Without(es[..n], h);
            var j :| 0 <= j < n && es[j] == kept[i];
            assert (before + es)[|before| + j] == es[j] && (before + es)[|before| + n] == es[n];
          } else {
            assert (before + es)[i] == kept[i] && (before + es)[|before| + n] == es[n];
          }
        }
        assert (before + es)[|before| + n] == es[n];
        assert before + Without(es, h) == kept + [es[n]];
      } else {
        assert Without(es, h) == Without(es[..n], h);
      }
    }
  }

  lemma {:induction false} StrikeOrdered(before: seq<Entry>, a: List, hs: seq<Handler>)
    requires Increasing(before + a.pending) && Below(before + a.pending, a.tags)
    ensures var b := StrikeAll(a, hs);
      && Increasing(before + b.pending) && Below(before + b.pending, b.tags) && b.tags == a.tags
      && forall e :: e in b.pending ==> e in a.pending
  {
    if hs != [] {
      var n := |hs| - 1;
      StrikeOrdered(before, a, hs[..n]);
      WithoutOrdered(before, StrikeAll(a, hs[..n]).pending, hs[n], a.tags);
    }
  }

  /** Additions during a firing are pending, under new tags. */
  lemma {:induction false} EnlistOrdered(before: seq<Entry>, a: List, hs: seq<Handler>)
    requires Increasing(before + a.pending) && Below(before + a.pending, a.tags)
    requires a.firing.Some? && a.skip == 0
    ensures var b := EnlistAll(a, hs);
      && Increasing(before + b.pending) && Below(before + b.pending, b.tags) && a.tags <= b.tags
      && forall t: nat :: HasTag(b.pending, t) <==> HasTag(a.pending, t) || a.tags <= t < b.tags
  {
    EnlistAllKeeps(a, hs);
    if hs != [] {
      var n := |hs| - 1;
      EnlistOrdered(before, a, hs[..n]);
      EnlistAllKeeps(a, hs[..n]);
      var c := EnlistAll(a, hs[..n]);
      EnlistOneOrdered(before, c, hs[n]);
    }
  }

  lemma EnlistOneOrdered(before: seq<Entry>, c: List, h: Handler)
    requires Increasing(before + c.pending) && Below(before + c.pending, c.tags)
    requires c.firing.Some? && c.skip == 0
    ensures var b := Enlist(c, h);
      && Increasing(before + b.pending) && Below(before + b.pending, b.tags) && c.tags <= b.tags
      && forall t: nat :: HasTag(b.pending, t) <==> HasTag(c.pending, t) || c.tags <= t < b.tags
  {
    var b, e := Enlist(c, h), Entry(c.tags, h);
    if b != c {
      assert before + b.pending == (before + c.pending) + [e];
      assert b.pending[|c.pending|] == e;
      assert forall i :: 0 <= i < |c.pending| ==> b.pending[i] == c.pending[i];
    }
  }

  /** In the middle of a firing, after the given turns. */
  ghost predicate MidFiring(a: List, turns: seq<Entry>) {
    && a.live && a.firing.Some? && a.skip == 0
    && Increasing(turns + a.pending) && Below(turns + a.pending, a.tags)
  }

  /** Whether an entry has had its turn, or is still pending. */
  ghost predicate Accounted(turns: seq<Entry>, a: List, tag: nat) {
    HasTag(turns, tag) || HasTag(a.pending, tag)
  }

  /** The effect of a mild event on the firing of list l. */
  lemma MildStep(w: World, ev: Event, l: nat, turns: seq<Entry>)
    requires WellFormed(w) && Enabled(w, ev) && l < |w.lists| && Mild(w, ev, l)
    requires MidFiring(w.lists[l], turns)
    ensures var a, b := w.lists[l], Next(w, ev).lists[l];
            var turns' := turns + if ev.Ran? && ev.list == l then [ev.entry] else [];
      && MidFiring(b, turns') && b.firing == a.firing && a.tags <= b.tags
      && forall t: nat :: Accounted(turns', b, t) <==>
           (Accounted(turns, a, t) || a.tags <= t < b.tags) && !Leaves(w, ev, l, t)
    ensures forall t: nat :: Leaves(w, ev, l, t) ==> t < w.lists[l].tags
  {
    var a := w.lists[l];
    assert turns + [] == turns;
    assert forall i :: 0 <= i < |a.pending| ==> (turns + a.pending)[|turns| + i] == a.pending[i];
    if ev.Called? && ev.op.list == l {
      CallStep(a, ev.op, turns);
    } else if ev.Ran? && ev.list == l {
      assert a.pending == [ev.entry] + a.pending[1..];
      assert turns + a.pending == (turns + [ev.entry]) + a.pending[1..];
      TurnTags(turns, a.pending);
    }
  }

  lemma TurnTags(turns: seq<Entry>, pending: seq<Entry>)
    requires pending != []
    ensures forall t: nat ::
      HasTag(turns + [pending[0]], t) || HasTag(pending[1..], t) <==> HasTag(turns, t) || HasTag(pending, t)
  {
    forall t: nat ensures HasTag(turns + [pending[0]], t) <==> HasTag(turns, t) || pending[0].tag == t {
      assert (turns + [pending[0]])[|turns|] == pending[0];
      assert forall i :: 0 <= i < |turns| ==> (turns + [pending[0]])[i] == turns[i];
    }
    forall t: nat ensures HasTag(pending, t) <==> HasTag(pending[1..], t) || pending[0].tag == t {
      assert forall i :: 0 <= i < |pending| - 1 ==> pending[1..][i] == pending[i + 1];
    }
  }

  lemma CallStep(a: List, op: Op, turns: seq<Entry>)
    requires op.Add? || op.Remove? || op.Fire? || (op.Lock? && a.memory.Some?)
    requires MidFiring(a, turns)
    ensures var b := Apply(a, op);
      && MidFiring(b, turns) && b.firing == a.firing && a.tags <= b.tags
      && forall t: nat :: Accounted(turns, b, t) <==>
           (Accounted(turns, a, t) || a.tags <= t < b.tags)
           && !(op.Remove? && HasTag(a.pending, t) && !HasTag(b.pending, t))
  {
    if op.Add? {
      EnlistOrdered(turns, a, op.handlers);
      EnlistAllKeeps(a, op.handlers);
    } else if op.Remove? {
      StrikeOrdered(turns, a, op.handlers);
      StrikeAllKeeps(a, op.handlers);
      var b := Apply(a, op);
      forall t: nat
        ensures Accounted(turns, b, t) <==> Accounted(turns, a, t) && !(HasTag(a.pending, t) && !HasTag(b.pending, t))
      {
        if HasTag(b.pending, t) {
          var i :| 0 <= i < |b.pending| && b.pending[i].tag == t;
          assert b.pending[i] in a.pending;
        }
        NotTwice(turns, a.pending, t);
      }
    }
  }

  /** No entry is both behind and ahead. */
  lemma NotTwice(turns: seq<Entry>, pending: seq<Entry>, t: nat)
    requires Increasing(turns + pending)
    ensures !(HasTag(turns, t) && HasTag(pending, t))
  {
    forall i, j | 0 <= i < |turns| && 0 <= j < |pending| ensures turns[i].tag < pending[j].tag {
      assert (turns + pending)[i] == turns[i] && (turns + pending)[|turns| + j] == pending[j];
    }
  }

  // ---------- the laws ----------

  /** During a firing, the entries pending at first and those added meanwhile are taken in
      order of registration and once each; each of them has had its turn, is still pending,
      or was removed before its turn. A firing ends only when nothing is pending. */
  lemma {:induction false} NoTurnSkippedOrRepeated(w: World, log: seq<Event>, l: nat)
    requires Legal(w, log) && l < |w.lists| && Calm(w, log, l)
    requires MidFiring(w.lists[l], [])
    ensures var a, b := w.lists[l], After(w, log).lists[l];
      && MidFiring(b, Turns(log, l)) && b.firing == a.firing && a.tags <= b.tags
      && (forall t: nat :: Struck(w, log, l, t) ==> t < b.tags)
      && forall t: nat :: Accounted(Turns(log, l), b, t) <==>
           (HasTag(a.pending, t) || a.tags <= t < b.tags) && !Struck(w, log, l, t)
  {
    assert Turns([], l) + w.lists[l].pending == [] + w.lists[l].pending;
    if log != [] {
      var n := |log| - 1;
      var v, ev, turns := After(w, log[..n]), log[n], Turns(log[..n], l);
      NoTurnSkippedOrRepeated(w, log[..n], l);
      MildStep(v, ev, l, turns);
      hide Leaves, HasTag, Accounted, MidFiring, Next, Enabled, Mild;
      var a, b, c := w.lists[l], v.lists[l], After(w, log).lists[l];
      forall t: nat
        ensures Accounted(Turns(log, l), c, t) <==>
          (HasTag(a.pending, t) || a.tags <= t < c.tags) && !Struck(w, log, l, t)
      {
        assert Struck(w, log, l, t) <==> Struck(w, log[..n], l, t) || Leaves(v, ev, l, t);
        assert Accounted(turns, b, t) <==> (HasTag(a.pending, t) || a.tags <= t < b.tags) && !Struck(w, log[..n], l, t);
        assert Struck(w, log[..n], l, t) ==> t < b.tags;
      }
    }
  }

  // ---------- every firing of every run ----------

  /** Entries stand in the order of registration; only a firing has pending ones. */
  ghost predicate Ordered(a: List) {
    && Increasing(a.done + a.pending) && Below(a.done + a.pending, a.tags)
    && (a.skip > 0 || a.firing.None? ==> a.pending == [])
    && (!a.live ==> a.done == [] && a.pending == [])
  }

  ghost predicate AllOrdered(lists: seq<List>) {
    forall k :: 0 <= k < |lists| ==> Ordered(lists[k])
  }

  lemma NoneOrdered(bound: nat)
    ensures Increasing([] + []) && Below([] + [], bound)
  {
  }

  /** An addition goes to the end, under a new tag. */
  lemma EnlistOrdersAll(a: List, h: Handler)
    requires Ordered(a) && a.live
    ensures Ordered(Enlist(a, h)) && Enlist(a, h).live && Enlist(a, h).firing == a.firing
  {
    var b, e := Enlist(a, h), Entry(a.tags, h);
    if b != a {
      var items := a.done + a.pending;
      assert b.done + b.pending == items + [e];
      assert forall i :: 0 <= i < |items| ==> (items + [e])[i] == items[i];
    }
  }

  lemma {:induction false} EnlistAllOrdersAll(a: List, hs: seq<Handler>)
    requires Ordered(a) && a.live
    ensures Ordered(EnlistAll(a, hs)) && EnlistAll(a, hs).live && EnlistAll(a, hs).firing == a.firing
  {
    hide Ordered, Enlist;
    if hs != [] {
      EnlistAllOrdersAll(a, hs[..|hs| - 1]);
      EnlistOrdersAll(EnlistAll(a, hs[..|hs| - 1]), hs[|hs| - 1]);
    }
  }

  lemma {:induction false} WithoutConcat(es: seq<Entry>, fs: seq<Entry>, h: Handler)
    ensures Without(es + fs, h) == Without(es, h) + Without(fs, h)
    decreases |fs|
  {
    if fs == [] {
      assert es + fs == es;
    } else {
      var n := |fs| - 1;
      var last := if fs[n].handler == h then [] else [fs[n]];
      assert (es + fs)[..|es + fs| - 1] == es + fs[..n];
      assert Without(es + fs, h) == Without(es + fs[..n], h) + last && Without(fs, h) == Without(fs[..n], h) + last;
      hide Without;
      WithoutConcat(es, fs[..n], h);
      Joins(Without(es, h), Without(fs[..n], h), last);
    }
  }

  lemma StrikeOrdersAll(a: List, h: Handler)
    requires Ordered(a)
    ensures Ordered(Strike(a, h)) && Strike(a, h).firing == a.firing && Strike(a, h).live == a.live
  {
    var items := a.done + a.pending;
    assert [] + items == items;
    WithoutOrdered([], items, h, a.tags);
    assert [] + Without(items, h) == Without(items, h);
    WithoutConcat(a.done, a.pending, h);
  }

  lemma {:induction false} StrikeAllOrdersAll(a: List, hs: seq<Handler>)
    requires Ordered(a)
    ensures Ordered(StrikeAll(a, hs)) && StrikeAll(a, hs).firing == a.firing
  {
    hide Ordered, Strike;
    if hs != [] {
      StrikeAllOrdersAll(a, hs[..|hs| - 1]);
      StrikeOrdersAll(StrikeAll(a, hs[..|hs| - 1]), hs[|hs| - 1]);
    }
  }

  /** A firing begins in the middle of nothing: no turn taken, the entries to come in order. */
  lemma BeginOrders(a: List, data: Data, start: nat)
    requires Ordered(a) && a.live
    ensures Ordered(Begin(a, data, start)) && MidFiring(Begin(a, data, start), [])
  {
    var items := a.done + a.pending;
    var k := if start <= |items| then start else |items|;
    assert items[..k] + items[k..] == items;
    TailOrdered(items, k, a.tags);
  }

  lemma TailOrdered(items: seq<Entry>, k: nat, bound: nat)
    requires Increasing(items) && Below(items, bound) && k <= |items|
    ensures Increasing([] + items[k..]) && Below([] + items[k..], bound)
  {
    var tail := [] + items[k..];
    forall i, j | 0 <= i < j < |tail| ensures tail[i].tag < tail[j].tag {
      assert tail[i] == items[k + i] && tail[j] == items[k + j];
    }
    forall i | 0 <= i < |tail| ensures tail[i].tag < bound {
      assert tail[i] == items[k + i];
    }
  }

  lemma TurnOrders(a: List)
    requires Ordered(a) && a.live && a.pending != []
    ensures Ordered(TakeTurn(a))
  {
    assert TakeTurn(a).done + TakeTurn(a).pending == a.done + a.pending;
  }

  lemma OffOrders(a: List)
    requires Ordered(a)
    ensures Ordered(Off(a)) && Ordered(Locked(a)) && Ordered(Cleared(a).(live := true))
    ensures Off(a).firing == a.firing && Locked(a).firing == a.firing
  {
    hide Ordered;
    ClearedOrders(Off(a));
    ClearedOrders(Cleared(a).(live := true));
    if a.memory.Some? {
      SameEntries(a, Locked(a));
    }
  }

  lemma ClearedOrders(a: List)
    requires a.done == [] && a.pending == []
    ensures Ordered(a)
  {
    NoneOrdered(a.tags);
  }

  lemma SameEntries(a: List, b: List)
    requires Ordered(a) && b == a.(queued := b.queued, queue := b.queue)
    ensures Ordered(b)
  {
  }

  lemma AbandonOrders(a: List)
    requires Ordered(a)
    ensures Ordered(Abandon(a)) && Abandon(a).firing == a.firing
  {
    assert (a.done + a.pending) + [] == a.done + a.pending;
  }

  /** A call keeps the order; if it starts a firing, that firing is at its beginning. */
  lemma ApplyOrders(a: List, op: Op)
    requires Ordered(a)
    ensures Ordered(Apply(a, op))
    ensures a.firing.None? && Apply(a, op).firing.Some? ==> MidFiring(Apply(a, op), [])
  {
    hide Ordered, Begin, MidFiring, Off, Locked, Cleared;
    match op
    case Add(_, hs) =>
      if a.live {
        EnlistAllOrdersAll(a, hs);
        var b := EnlistAll(a, hs);
        if b.firing.None? && b.memory.Some? {
          BeginOrders(b, b.memory.value, |a.done + a.pending|);
        }
      }
    case Remove(_, hs) =>
      StrikeAllOrdersAll(a, hs);
    case Fire(_, data) =>
      if a.live {
        BeginOrders(a, data, 0);
        QueueOrders(a, data);
      }
    case _ =>
      OffOrders(a);
      ClearedFiring(a);
  }

  lemma QueueOrders(a: List, data: Data)
    requires Ordered(a)
    ensures Ordered(a.(queue := a.queue + [data]))
  {
  }

  lemma ClearedFiring(a: List)
    ensures Cleared(a).(live := true).firing == a.firing
  {
  }

  /** At the end of a firing: order is kept, and a firing that follows at once is at its beginning. */
  lemma SettleOrders(a: List)
    requires Ordered(a) && (a.live ==> a.pending == [])
    ensures Ordered(Settle(a))
    ensures Settle(a).firing.Some? ==> MidFiring(Settle(a), [])
  {
    var b := a.(firing := None, skip := 0);
    assert Ordered(b);
    NoneOrdered(a.tags);
    if b.live && b.queued && b.queue != [] {
      assert Ordered(b.(queue := b.queue[1..]));
      BeginOrders(b.(queue := b.queue[1..]), b.queue[0], 0);
    } else {
      OffOrders(b);
    }
  }

  /** The event starts a firing of list l. */
  ghost predicate Starts(w: World, ev: Event, l: nat)
    requires WellFormed(w) && Enabled(w, ev) && l < |w.lists|
  {
    && l < |Next(w, ev).lists| && Next(w, ev).lists[l].firing.Some?
    && if ev.Called? then ev.op.list == l && w.lists[l].firing.None? else ev == Finished(l)
  }

  /** Every event keeps the order in all lists, and a firing it starts is at its beginning. */
  lemma OrderedStep(w: World, ev: Event)
    requires WellFormed(w) && Enabled(w, ev) && AllOrdered(w.lists)
    ensures |Next(w, ev).lists| == |w.lists| && AllOrdered(Next(w, ev).lists)
    ensures forall l :: 0 <= l < |w.lists| && Starts(w, ev, l) ==> MidFiring(Next(w, ev).lists[l], [])
  {
    hide Ordered, MidFiring, Apply, Settle, TakeTurn, Abandon, Off, Locked;
    NextWellFormed(w, ev);
    match ev
    case Called(op) =>
      if op.list < |w.lists| {
        ApplyOrders(w.lists[op.list], op);
      }
    case Ran(l, e, _) => RanOrders(w, l, e);
    case Returned(_) => AbandonOrders(w.lists[w.frames[|w.frames| - 1]]);
    case Finished(l) => SettleOrders(w.lists[l]);
  }

  lemma RanOrders(w: World, l: nat, e: Entry)
    requires WellFormed(w) && l < |w.lists| && AllOrdered(w.lists)
    requires w.lists[l].live && w.lists[l].pending != []
    ensures AllOrdered(Effect(w.(lists := w.lists[l := TakeTurn(w.lists[l])]), e.handler).lists)
  {
    hide Ordered, TakeTurn, Off, Locked;
    TurnOrders(w.lists[l]);
    var turned := w.lists[l := TakeTurn(w.lists[l])];
    match e.handler
    case DisableList(k) => if k < |turned| { OffOrders(turned[k]); }
    case LockList(k) => if k < |turned| { OffOrders(turned[k]); }
    case _ =>
  }

  lemma {:induction false} OrderedRun(w: World, log: seq<Event>)
    requires Legal(w, log) && AllOrdered(w.lists)
    ensures AllOrdered(After(w, log).lists)
  {
    hide Ordered;
    if log != [] {
      OrderedRun(w, log[..|log| - 1]);
      OrderedStep(After(w, log[..|log| - 1]), log[|log| - 1]);
    }
  }

  /** Lists to which functions were added when nothing had fired. */
  lemma IdleOrdered(options: seq<Options>, first: seq<seq<Handler>>)
    requires |first| == |options|
    ensures WellFormed(Idle(options, first)) && AllOrdered(Idle(options, first).lists)
  {
    var w := Idle(options, first);
    forall k | 0 <= k < |w.lists| ensures Ordered(w.lists[k]) {
      NoneOrdered(0);
      EnlistAllOrdersAll(NewList(options[k]), first[k]);
    }
  }

  /** A run can be cut anywhere. */
  lemma {:induction false} CutRun(w: World, log: seq<Event>, k: nat)
    requires Legal(w, log) && k <= |log|
    ensures Legal(w, log[..k]) && Legal(After(w, log[..k]), log[k..])
    ensures After(After(w, log[..k]), log[k..]) == After(w, log)
    decreases |log|
  {
    if k == |log| {
      assert log[..k] == log && log[k..] == [];
    } else {
      var n := |log| - 1;
      CutRun(w, log[..n], k);
      assert log[..n][..k] == log[..k] && log[..n][k..] == log[k..][..n - k];
    }
  }

  /** What a firing of list l owes, log having been recorded since it began in w. */
  ghost predicate FiringAccounted(w: World, log: seq<Event>, l: nat)
    requires Legal(w, log) && l < |w.lists|
  {
    var a, b, turns := w.lists[l], After(w, log).lists[l], Turns(log, l);
    && b.firing == a.firing && b.live && a.tags <= b.tags
    && Increasing(turns + b.pending)
    && forall t: nat :: Accounted(turns, b, t) <==>
         (HasTag(a.pending, t) || a.tags <= t < b.tags) && !Struck(w, log, l, t)
  }

  /** The law of a firing of l that event k starts, up to event m: unless it has been cut short,
      its turns are accounted for; and if it ends there, every entry that was pending or has
      been added had its turn, or was removed before it. */
  ghost predicate FiringLaw(w: World, log: seq<Event>, k: nat, m: nat, l: nat)
    requires Legal(w, log) && k < m <= |log| && l < |w.lists|
  {
    StartsAt(w, log, k, l) && CalmBetween(w, log, k + 1, m, l) ==>
      && AccountedBetween(w, log, k + 1, m, l)
      && (m < |log| && log[m] == Finished(l) ==> AllHadTurns(w, log, k + 1, m, l))
  }

  /** The law holds of every firing of every run of lists made from nothing. */
  lemma EveryFiring(options: seq<Options>, first: seq<seq<Handler>>, log: seq<Event>, k: nat, m: nat, l: nat)
    requires |first| == |options| && Legal(Idle(options, first), log) && l < |options| && k < m <= |log|
    ensures FiringLaw(Idle(options, first), log, k, m, l)
  {
    hide Ordered, Legal, After, Next, Enabled, WellFormed, Calm, MidFiring, Accounted, Struck, Starts;
    var w := Idle(options, first);
    if StartsAt(w, log, k, l) && CalmBetween(w, log, k + 1, m, l) {
      IdleOrdered(options, first);
      FiringBegins(w, log, k, l);
      CutBetween(w, log, k + 1, m);
      var v := After(w, log[..k + 1]);
      NoTurnSkippedOrRepeated(v, log[k + 1..m], l);
      FiringMiddle(After(w, log[..m]).lists[l], Turns(log[k + 1..m], l));
      if m < |log| && log[m] == Finished(l) {
        NothingPending(w, log, m, l);
        AllAccounted(v, log[k + 1..m], l);
      }
    }
  }

  lemma AllAccounted(v: World, log: seq<Event>, l: nat)
    requires Legal(v, log) && l < |v.lists| && FiringAccounted(v, log, l) && After(v, log).lists[l].pending == []
    ensures forall t: nat :: HasTag(v.lists[l].pending, t) || v.lists[l].tags <= t < After(v, log).lists[l].tags ==>
      HasTag(Turns(log, l), t) || Struck(v, log, l, t)
  {
    hide Struck, Legal, After;
    var b, turns := After(v, log).lists[l], Turns(log, l);
    assert forall t: nat :: Accounted(turns, b, t) <==> HasTag(turns, t);
  }

  ghost predicate StartsAt(w: World, log: seq<Event>, k: nat, l: nat)
    requires Legal(w, log) && k < |log| && l < |w.lists|
  {
    CutRun(w, log, k);
    CutRun(w, log, k + 1);
    LegalStep(w, log, k);
    Starts(After(w, log[..k]), log[k], l)
  }

  ghost predicate CalmBetween(w: World, log: seq<Event>, k: nat, m: nat, l: nat)
    requires Legal(w, log) && k <= m <= |log| && l < |w.lists|
  {
    CutBetween(w, log, k, m);
    Calm(After(w, log[..k]), log[k..m], l)
  }

  ghost predicate AccountedBetween(w: World, log: seq<Event>, k: nat, m: nat, l: nat)
    requires Legal(w, log) && k <= m <= |log| && l < |w.lists|
  {
    CutBetween(w, log, k, m);
    FiringAccounted(After(w, log[..k]), log[k..m], l)
  }

  /** Each entry pending in l at k, or added up to m, has had its turn or was removed before it. */
  ghost predicate AllHadTurns(w: World, log: seq<Event>, k: nat, m: nat, l: nat)
    requires Legal(w, log) && k <= m <= |log| && l < |w.lists|
  {
    CutBetween(w, log, k, m);
    var v := After(w, log[..k]);
    forall t: nat :: HasTag(v.lists[l].pending, t) || v.lists[l].tags <= t < After(w, log[..m]).lists[l].tags ==>
      HasTag(Turns(log[k..m], l), t) || Struck(v, log[k..m], l, t)
  }

  lemma LegalStep(w: World, log: seq<Event>, k: nat)
    requires Legal(w, log) && k < |log|
    ensures Legal(w, log[..k]) && Enabled(After(w, log[..k]), log[k])
    ensures Legal(w, log[..k + 1]) && After(w, log[..k + 1]) == Next(After(w, log[..k]), log[k])
  {
    CutRun(w, log, k + 1);
    assert log[..k + 1][..k] == log[..k];
  }

  lemma CutBetween(w: World, log: seq<Event>, k: nat, m: nat)
    requires Legal(w, log) && k <= m <= |log|
    ensures Legal(w, log[..k]) && Legal(w, log[..m]) && Legal(After(w, log[..k]), log[k..m])
    ensures After(After(w, log[..k]), log[k..m]) == After(w, log[..m])
  {
    hide Legal, After;
    CutRun(w, log, m);
    CutRun(w, log[..m], k);
    assert log[..m][..k] == log[..k] && log[..m][k..] == log[k..m];
  }

  lemma FiringBegins(w: World, log: seq<Event>, k: nat, l: nat)
    requires Legal(w, log) && AllOrdered(w.lists) && k < |log| && l < |w.lists| && StartsAt(w, log, k, l)
    ensures Legal(w, log[..k + 1]) && MidFiring(After(w, log[..k + 1]).lists[l], [])
  {
    hide Ordered, MidFiring, Next, Legal, After, Enabled, WellFormed;
    LegalStep(w, log, k);
    OrderedRun(w, log[..k]);
    OrderedStep(After(w, log[..k]), log[k]);
  }

  lemma FiringMiddle(b: List, turns: seq<Entry>)
    requires MidFiring(b, turns)
    ensures b.live && Increasing(turns + b.pending)
  {
  }

  lemma NothingPending(w: World, log: seq<Event>, m: nat, l: nat)
    requires Legal(w, log) && m < |log| && log[m] == Finished(l) && l < |w.lists|
    ensures Legal(w, log[..m]) && (After(w, log[..m]).lists[l].live ==> After(w, log[..m]).lists[l].pending == [])
  {
    LegalStep(w, log, m);
  }

  // ---------- firings requested during a firing ----------

  /** The data list l was asked to fire with. */
  ghost function Requested(log: seq<Event>, l: nat): seq<Data> {
    if log == [] then []
    else
      var n := |log| - 1;
      Requested(log[..n], l)
      + if log[n].Called? && log[n].op.Fire? && log[n].op.list == l then [log[n].op.data] else []
  }

  /** The data of the firings that began, other than the replays that add makes on a list
      with memory. */
  ghost function Begun(w: World, log: seq<Event>, l: nat): seq<Data>
    requires Legal(w, log) && l < |w.lists|
  {
    if log == [] then []
    else
      var n := |log| - 1;
      var a, b := After(w, log[..n]).lists[l], After(w, log).lists[l];
      Begun(w, log[..n], l)
      + if log[n].Called? && log[n].op.Fire? && log[n].op.list == l && a.firing.None? then [log[n].op.data]
        else if log[n] == Finished(l) && b.firing.Some? then [b.firing.value]
        else []
  }

  /** The list is neither disabled nor locked. */
  ghost predicate StaysOpen(w: World, log: seq<Event>, l: nat)
    requires Legal(w, log) && l < |w.lists|
  {
    && After(w, log).lists[l].live && After(w, log).lists[l].queued
    && (log != [] ==> StaysOpen(w, log[..|log| - 1], l))
  }

  /** Firings begin in the order in which they were requested; those requested during a
      firing wait in line, and none is lost. */
  lemma {:induction false} FiringsInOrder(w: World, log: seq<Event>, l: nat)
    requires Legal(w, log) && l < |w.lists| && StaysOpen(w, log, l)
    requires w.lists[l].firing.None? ==> w.lists[l].queue == []
    ensures var b := After(w, log).lists[l];
      && Begun(w, log, l) + b.queue == w.lists[l].queue + Requested(log, l)
      && (b.firing.None? ==> b.queue == [])
  {
    if log != [] {
      var n := |log| - 1;
      FiringsInOrder(w, log[..n], l);
      var a, b := After(w, log[..n]).lists[l], After(w, log).lists[l];
      QueueStep(After(w, log[..n]), log[n], l);
      var ev, begun, requested := log[n], Begun(w, log[..n], l), Requested(log[..n], l);
      var d := if ev.Called? && ev.op.Fire? then ev.op.data else if b.firing.Some? then b.firing.value else 0;
      InLine(begun, a.queue, w.lists[l].queue, requested, d, b.queue);
    }
  }

  lemma InLine(begun: seq<Data>, queue: seq<Data>, first: seq<Data>, requested: seq<Data>, d: Data, rest: seq<Data>)
    requires begun + queue == first + requested
    ensures (begun + []) + queue == first + (requested + [])
    ensures queue == [] ==> (begun + [d]) + [] == first + (requested + [d])
    ensures (begun + []) + (queue + [d]) == first + (requested + [d])
    ensures queue == [d] + rest ==> (begun + [d]) + rest == first + (requested + [])
  {
    assert begun + [] == begun && requested + [] == requested;
    assert first + (requested + [d]) == (begun + queue) + [d];
  }

  /** How an event changes the line of requests. */
  lemma QueueStep(w: World, ev: Event, l: nat)
    requires WellFormed(w) && Enabled(w, ev) && l < |w.lists|
    requires w.lists[l].live && w.lists[l].queued && (w.lists[l].firing.None? ==> w.lists[l].queue == [])
    requires Next(w, ev).lists[l].live && Next(w, ev).lists[l].queued
    ensures var a, b := w.lists[l], Next(w, ev).lists[l];
      && (b.firing.None? ==> b.queue == [])
      && if ev.Called? && ev.op.Fire? && ev.op.list == l then
           if a.firing.None? then b.queue == [] && b.firing == Some(ev.op.data) else b.queue == a.queue + [ev.op.data]
         else if ev == Finished(l) && b.firing.Some? then a.queue == [b.firing.value] + b.queue
         else b.queue == a.queue
  {
    if ev.Called? && ev.op.list == l {
      match ev.op
      case Add(_, hs) => EnlistAllKeeps(w.lists[l], hs);
      case Remove(_, hs) => StrikeAllKeeps(w.lists[l], hs);
      case _ =>
    }
  }

  // ---------- lists at work ----------

  ghost predicate EveryFiringLawful(w: World, log: seq<Event>)
    requires Legal(w, log)
  {
    forall k: nat, m: nat, l: nat :: k < m <= |log| && l < |w.lists| ==> FiringLaw(w, log, k, m, l)
  }

  ghost predicate RequestsInOrder(w: World, log: seq<Event>)
    requires Legal(w, log)
  {
    forall l: nat :: l < |w.lists| && StaysOpen(w, log, l) ==>
      Begun(w, log, l) + After(w, log).lists[l].queue == Requested(log, l)
  }

  lemma LawfulRun(options: seq<Options>, first: seq<seq<Handler>>, log: seq<Event>)
    requires |first| == |options| && Legal(Idle(options, first), log)
    ensures EveryFiringLawful(Idle(options, first), log) && RequestsInOrder(Idle(options, first), log)
  {
    hide FiringLaw, Legal, After, Begun, Requested, StaysOpen;
    var w := Idle(options, first);
    forall k: nat, m: nat, l: nat | k < m <= |log| && l < |w.lists| ensures FiringLaw(w, log, k, m, l) {
      EveryFiring(options, first, log, k, m, l);
    }
    forall l: nat | l < |w.lists| && StaysOpen(w, log, l)
      ensures Begun(w, log, l) + After(w, log).lists[l].queue == Requested(log, l)
    {
      EnlistAllKeeps(NewList(options[l]), first[l]);
      FiringsInOrder(w, log, l);
      assert [] + Requested(log, l) == Requested(log, l);
    }
  }

  lemma IdleAtRest(options: seq<Options>, first: seq<seq<Handler>>)
    requires |first| == |options|
    ensures Idle(options, first).inScript && Idle(options, first).frames == []
  {
  }

  predicate AnyCall(op: Op) {
    true
  }

  /** Creates lists with their first functions and makes the given calls, while the functions
      run the given scripts, and nothing else: the run, of which there is only one
      (OneCompleteRun), obeys the laws above. */
  method RunLists(options: seq<Options>, first: seq<seq<Handler>>, calls: seq<Op>, scripts: seq<Script>)
      returns (runtime: Runtime)
    requires |first| == |options|
    ensures fresh(runtime) && runtime.Valid(Running)
    ensures Legal(Idle(options, first), runtime.log) && runtime.world == After(Idle(options, first), runtime.log)
    ensures Carried(Whole(calls, scripts), runtime.log)
    ensures Complete(runtime.world, CarriedTo(Whole(calls, scripts), runtime.log))
    ensures EveryFiringLawful(Idle(options, first), runtime.log) && RequestsInOrder(Idle(options, first), runtime.log)
  {
    IdleAtRest(options, first);
    hide EveryFiringLawful, RequestsInOrder, Legal, After, Carried, CarriedTo, Idle, CallbackList.Rel, WellFormed;
    runtime := new Runtime(options, first, calls, scripts, AnyCall);
    for i := 0 to |calls|
      invariant runtime.Valid(Running) && runtime.world.inScript && runtime.world.frames == []
      invariant runtime.start == Idle(options, first) && runtime.whole == Whole(calls, scripts)
      invariant runtime.PlanKept([Script(calls[i..], false)])
      invariant fresh(runtime) && forall k :: 0 <= k < |runtime.lists| ==> fresh(runtime.lists[k])
    {
      runtime.Perform(calls[i]);
    }
    LawfulRun(options, first, runtime.log);
  }
}
