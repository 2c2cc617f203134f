/** What callback lists are for, without any index arithmetic: while a list fires, the
    entries that had their turn are apart from the pending ones, and a firing takes the
    first pending entry until none is left. Handlers are scripts that call back into the
    lists, so the model also keeps the stack of firings under way. */
module CallbackSpec {
  import opened Wrappers

  datatype Settlement = Pending | Resolved | Rejected

  /** A user's function, or one of the three that Deferred puts in its lists. */
  datatype Handler = User(id: nat) | SetState(state: Settlement) | DisableList(list: nat) | LockList(list: nat)

  /** The context and arguments of a firing. */
  type Data = int

  datatype Options = Options(once: bool, memory: bool, unique: bool, stopOnFalse: bool)

  /** A call on the callback list of the given number. */
  datatype Op =
    | Add(list: nat, handlers: seq<Handler>)
    | Remove(list: nat, handlers: seq<Handler>)
    | Empty(list: nat)
    | Disable(list: nat)
    | Lock(list: nat)
    | Fire(list: nat, data: Data)

  /** A registration: the same function can be registered more than once. */
  datatype Entry = Entry(tag: nat, handler: Handler)

  function Handlers(es: seq<Entry>): (hs: seq<Handler>)
    ensures |hs| == |es| && forall i :: 0 <= i < |es| ==> hs[i] == es[i].handler
  {
    seq(|es|, i requires 0 <= i < |es| => es[i].handler)
  }

  lemma HandlersConcat(es: seq<Entry>, fs: seq<Entry>)
    ensures Handlers(es + fs) == Handlers(es) + Handlers(fs)
  {
  }

  /** One callback list. While it fires, done holds the entries that had their turn and
      pending those to come; skip is non-zero only after Empty or Disable during a firing,
      when that many further additions will be passed over. An idle list has no pending
      entries. */
  datatype List = List(
    options: Options,
    live: bool,               // not disabled
    done: seq<Entry>,
    pending: seq<Entry>,
    skip: nat,
    firing: Option<Data>,
    queued: bool,             // firings requested during a firing are kept
    queue: seq<Data>,
    memory: Option<Data>,
    fired: bool,
    tags: nat)                // registrations so far

  function NewList(options: Options): List {
    List(options, true, [], [], 0, None, !options.once, [], None, false, 0)
  }

  function Has(entries: seq<Entry>, h: Handler): bool {
    exists i :: 0 <= i < |entries| && entries[i].handler == h
  }

  function Enlist(a: List, h: Handler): List {
    if a.options.unique && Has(a.done + a.pending, h) then a
    else
      var e := Entry(a.tags, h);
      if a.firing.Some? && a.skip == 0 then a.(pending := a.pending + [e], tags := a.tags + 1)
      else a.(done := a.done + [e], skip := if a.skip > 0 then a.skip - 1 else 0, tags := a.tags + 1)
  }

  function EnlistAll(a: List, hs: seq<Handler>): List {
    if hs == [] then a else Enlist(EnlistAll(a, hs[..|hs| - 1]), hs[|hs| - 1])
  }

  function Without(entries: seq<Entry>, h: Handler): seq<Entry> {
    if entries == [] then []
    else
      var n := |entries| - 1;
      Without(entries[..n], h) + if entries[n].handler == h then [] else [entries[n]]
  }

  function Strike(a: List, h: Handler): List {
    a.(done := Without(a.done, h), pending := Without(a.pending, h))
  }

  function StrikeAll(a: List, hs: seq<Handler>): List {
    if hs == [] then a else Strike(StrikeAll(a, hs[..|hs| - 1]), hs[|hs| - 1])
  }

  /** The list starts to fire, from its start-th entry on. */
  function Begin(a: List, data: Data, start: nat): List {
    var items := a.done + a.pending;
    var k := if start <= |items| then start else |items|;
    a.(firing := Some(data), memory := if a.options.memory then Some(data) else None, fired := true,
       done := items[..k], pending := items[k..], skip := 0)
  }

  /** No entries are left; a firing under way has had its turns all the same. */
  function Cleared(a: List): List {
    a.(done := [], pending := [], skip := if a.firing.Some? then |a.done| + a.skip else 0)
  }

  function Off(a: List): List {
    Cleared(a).(live := false, queued := false, queue := [], memory := None)
  }

  function Locked(a: List): List {
    if a.memory.Some? then a.(queued := false, queue := []) else Off(a)
  }

  /** The effect of a call on its own list. */
  function Apply(a: List, op: Op): List {
    match op
    case Add(_, hs) =>
      if !a.live then a
      else
        var b := EnlistAll(a, hs);
        if b.firing.None? && b.memory.Some? then Begin(b, b.memory.value, |a.done + a.pending|) else b
    case Remove(_, hs) => if a.live then StrikeAll(a, hs) else a
    case Empty(_) => Cleared(a).(live := true)
    case Disable(_) => Off(a)
    case Lock(_) => Locked(a)
    case Fire(_, data) =>
      if !a.live || (a.fired && !a.queued) then a
      else if a.firing.Some? then a.(queue := a.queue + [data])
      else Begin(a, data, 0)
  }

  /** All lists, the state of a Deferred, the lists that are firing (innermost last), and
      whether a script is running (at the top level or in the innermost firing's handler). */
  datatype World = World(lists: seq<List>, state: Settlement, frames: seq<nat>, inScript: bool)

  datatype Event =
    | Called(op: Op)                               // a script calls op
    | Ran(list: nat, entry: Entry, data: Data)     // the innermost firing takes its next entry
    | Returned(stop: bool)                         // the handler's script ends, stop: it returned false
    | Finished(list: nat)                          // the innermost firing has no entry left

  ghost predicate WellFormed(w: World) {
    && (forall i :: 0 <= i < |w.frames| ==> w.frames[i] < |w.lists| && w.lists[w.frames[i]].firing.Some?)
    && (forall i, j :: 0 <= i < j < |w.frames| ==> w.frames[i] != w.frames[j])
    && (w.frames == [] ==> w.inScript)
  }

  ghost predicate Enabled(w: World, ev: Event)
    requires WellFormed(w)
  {
    match ev
    case Called(op) => w.inScript
    case Ran(l, e, data) =>
      && !w.inScript && l == w.frames[|w.frames| - 1]
      && w.lists[l].live && w.lists[l].pending != []
      && e == w.lists[l].pending[0] && w.lists[l].firing == Some(data)
    case Returned(_) => w.inScript && w.frames != []
    case Finished(l) =>
      && !w.inScript && l == w.frames[|w.frames| - 1]
      && (w.lists[l].live ==> w.lists[l].pending == [])
  }

  /** The effect of Deferred's own handlers. */
  function Effect(w: World, h: Handler): World {
    match h
    case User(_) => w.(inScript := true)
    case SetState(s) => w.(state := s)
    case DisableList(k) => if k < |w.lists| then w.(lists := w.lists[k := Off(w.lists[k])]) else w
    case LockList(k) => if k < |w.lists| then w.(lists := w.lists[k := Locked(w.lists[k])]) else w
  }

  function TakeTurn(a: List): List
    requires a.pending != []
  {
    a.(done := a.done + [a.pending[0]], pending := a.pending[1..])
  }

  function Abandon(a: List): List {
    a.(memory := None, done := a.done + a.pending, pending := [])
  }

  /** What becomes of a list after a firing, and whether it fires again at once. */
  function Settle(a: List): List {
    var b := a.(firing := None, skip := 0);
    if !b.live then b
    else if b.queued then
      if b.queue != [] then Begin(b.(queue := b.queue[1..]), b.queue[0], 0) else b
    else if b.memory.Some? then b.(done := [], pending := [])
    else Off(b)
  }

  ghost function Next(w: World, ev: Event): World
    requires WellFormed(w) && Enabled(w, ev)
  {
    match ev
    case Called(op) =>
      if op.list >= |w.lists| then w
      else
        var a := w.lists[op.list];
        var b := Apply(a, op);
        if a.firing.None? && b.firing.Some? then
          w.(lists := w.lists[op.list := b], frames := w.frames + [op.list], inScript := false)
        else
          w.(lists := w.lists[op.list := b])
    case Ran(l, e, _) =>
      Effect(w.(lists := w.lists[l := TakeTurn(w.lists[l])]), e.handler)
    case Returned(stop) =>
      var l := w.frames[|w.frames| - 1];
      if stop && w.lists[l].options.stopOnFalse then
        w.(lists := w.lists[l := Abandon(w.lists[l])], inScript := false)
      else
        w.(inScript := false)
    case Finished(l) =>
      var b := Settle(w.lists[l]);
      if b.firing.Some? then w.(lists := w.lists[l := b])
      else w.(lists := w.lists[l := b], frames := w.frames[..|w.frames| - 1], inScript := true)
  }

  lemma NextWellFormed(w: World, ev: Event)
    requires WellFormed(w) && Enabled(w, ev)
    ensures WellFormed(Next(w, ev))
    ensures |Next(w, ev).lists| == |w.lists|
  {
    hide Apply, Settle, Off, Locked;
    if ev.Called? && ev.op.list < |w.lists| {
      ApplyKeepsFiring(w.lists[ev.op.list], ev.op);
    }
    forall a: List ensures Off(a).firing == a.firing && Locked(a).firing == a.firing {
      OffKeepsFiring(a);
    }
  }

  lemma OffKeepsFiring(a: List)
    ensures Off(a).firing == a.firing && Locked(a).firing == a.firing
  {
  }

  lemma ApplyKeepsFiring(a: List, op: Op)
    ensures a.firing.Some? ==> Apply(a, op).firing == a.firing
    ensures Apply(a, op).options == a.options
  {
    match op
    case Add(_, hs) => EnlistAllKeeps(a, hs);
    case Remove(_, hs) => StrikeAllKeeps(a, hs);
    case _ =>
  }

  /** Additions change nothing but the entries; they do not shift the turns taken. */
  lemma {:induction false} EnlistAllKeeps(a: List, hs: seq<Handler>)
    ensures var b := EnlistAll(a, hs);
      && b == a.(done := b.done, pending := b.pending, skip := b.skip, tags := b.tags)
      && (a.firing.Some? ==> |b.done| + b.skip == |a.done| + a.skip)
      && (a.firing.None? && a.skip == 0 ==> b.skip == 0)
      && (a.firing.None? ==> b.pending == a.pending)
      && (b.skip > 0 && a.firing.Some? ==> b.pending == a.pending)
      && a.tags <= b.tags && b.skip <= a.skip && |a.done| <= |b.done| && |a.pending| <= |b.pending|
  {
    if hs != [] {
      EnlistAllKeeps(a, hs[..|hs| - 1]);
    }
  }

  lemma {:induction false} StrikeAllKeeps(a: List, hs: seq<Handler>)
    ensures var b := StrikeAll(a, hs);
      && b == a.(done := b.done, pending := b.pending)
      && (a.pending == [] ==> b.pending == [])
      && |b.pending| <= |a.pending|
  {
    if hs != [] {
      StrikeAllKeeps(a, hs[..|hs| - 1]);
      WithoutShorter(StrikeAll(a, hs[..|hs| - 1]).pending, hs[|hs| - 1]);
    }
  }

  lemma {:induction false} WithoutShorter(es: seq<Entry>, h: Handler)
    ensures |Without(es, h)| <= |es|
  {
    if es != [] {
      WithoutShorter(es[..|es| - 1], h);
    }
  }

  // ---------- runs ----------

  /** Every event of the log could happen when it did. */
  ghost predicate Legal(w: World, log: seq<Event>)
    decreases |log|, 0
  {
    if log == [] then WellFormed(w)
    else
      var n := |log| - 1;
      Legal(w, log[..n]) && Enabled(After(w, log[..n]), log[n])
  }

  /** The world after a run. */
  ghost function After(w: World, log: seq<Event>): (r: World)
    requires Legal(w, log)
    ensures WellFormed(r) && |r.lists| == |w.lists|
    decreases |log|, 1
  {
    if log == [] then w
    else
      var n := |log| - 1;
      NextWellFormed(After(w, log[..n]), log[n]);
      Next(After(w, log[..n]), log[n])
  }

  lemma Extend(w: World, log: seq<Event>, ev: Event)
    requires Legal(w, log) && Enabled(After(w, log), ev)
    ensures Legal(w, log + [ev]) && After(w, log + [ev]) == Next(After(w, log), ev)
  {
    assert (log + [ev])[..|log|] == log;
  }
}
