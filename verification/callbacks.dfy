/** jQuery.Callbacks: one array of functions and three indices, with handlers that call
    back into the lists, proved to behave like the lists of CallbackSpec. */
module Callbacks {
  import opened CallbackSpec
  import opened Wrappers

  /** Where the innermost firing stands: in a handler, between two handlers, or past the
      loop. Every other firing is in a handler. */
  datatype Phase = Running | Between | Ending

  class CallbackList {
    const options: Options
    var live: bool              // list is not undefined
    var list: seq<Handler>
    var queued: bool            // stack is an array
    var stack: seq<Data>
    var memory: Option<Data>
    var fired: bool
    var firing: bool
    var firingStart: nat
    var firingLength: int
    var firingIndex: int

    /** The list stands for the abstract list a. */
    ghost predicate Rel(a: List, phase: Phase)
      reads this
    {
      && options == a.options && live == a.live && queued == a.queued && stack == a.queue
      && memory == a.memory && fired == a.fired && firing == a.firing.Some? && firingStart == 0
      && list == Items(a)
      && (!live ==> list == [])
      && (a.skip > 0 ==> firing) && (a.skip > 0 || !firing ==> a.pending == [])
      && (firing ==> fired)
      && (firing && phase.Running? ==> firingIndex + 1 == |a.done| + a.skip)
      && (firing && phase.Between? ==> firingIndex == |a.done| + a.skip)
      && (firing && live && !phase.Ending? ==> firingLength == |list|)
    }

    constructor (options: Options)
      ensures Rel(NewList(options), Running)
    {
      this.options := options;
      live, list, queued, stack, memory := true, [], !options.once, [], None;
      fired, firing, firingStart, firingLength, firingIndex := false, false, 0, 0, 0;
    }

    /** The first part of add: pushes the functions. */
    method Push(hs: seq<Handler>, ghost a: List)
      requires live && Rel(a, Running)
      modifies this
      ensures Rel(EnlistAll(a, hs), Running)
    {
      assert hs[..0] == [];
      for i := 0 to |hs|
        invariant unchanged(`live, `queued, `stack, `memory, `fired, `firing, `firingStart, `firingIndex)
        invariant list == Items(EnlistAll(a, hs[..i]))
      {
        PushStep(a, hs, i);
        if !options.unique || !(hs[i] in list) {
          list := list + [hs[i]];
        }
      }
      assert hs[..|hs|] == hs;
      EnlistAllKeeps(a, hs);
      if firing {
        firingLength := |list|;
      }
    }

    /** One step of remove: splices out the function at index, with the firing indices. */
    method Splice(index: nat)
      requires index < |list|
      modifies `list, `firingLength, `firingIndex
      ensures list == old(list[..index] + list[index + 1..])
      ensures firingLength == old(firingLength) - if firing && index <= old(firingLength) then 1 else 0
      ensures firingIndex == old(firingIndex) - if firing && index <= old(firingIndex) then 1 else 0
    {
      list := list[..index] + list[index + 1..];
      if firing {
        if index <= firingLength {
          firingLength := firingLength - 1;
        }
        if index <= firingIndex {
          firingIndex := firingIndex - 1;
        }
      }
    }

    /** remove, for one function: every occurrence, keeping the firing indices in step. */
    method RemoveHandler(h: Handler, ghost a: List)
      requires live && Rel(a, Running)
      modifies `list, `firingLength, `firingIndex
      ensures Rel(Strike(a, h), Running)
    {
      hide Scanned, Drop, TurnsKept, Strike, Items;
      ghost var hs, turns, p, start := list, |a.done|, 0, 0;
      ScanStart(hs, h, turns);
      var index := InArray(h, list, 0);
      while index >= 0
        invariant 0 <= p <= |hs| && 0 <= start <= |list| && Scanned(hs, h, p, list, start)
        invariant index == -1 || (start <= index < |list| && list[index] == h)
        invariant h !in list[start..if index == -1 then |list| else index]
        invariant firing ==> firingIndex + 1 == TurnsKept(hs, h, turns, p) + a.skip && firingLength == |list|
        decreases |hs| - p
      {
        ScanNext(hs, h, turns, p, list, start, index);
        Splice(index);
        p, start := p + index - start + 1, index;
        index := InArray(h, list, index);
      }
      ScanEnd(a, h, p, list, start);
    }

    method RemoveHandlers(hs: seq<Handler>, ghost a: List)
      requires live && Rel(a, Running)
      modifies `list, `firingLength, `firingIndex
      ensures Rel(StrikeAll(a, hs), Running)
    {
      assert hs[..0] == [];
      for i := 0 to |hs|
        invariant live && Rel(StrikeAll(a, hs[..i]), Running)
      {
        assert hs[..i + 1][..i] == hs[..i];
        RemoveHandler(hs[i], StrikeAll(a, hs[..i]));
      }
      assert hs[..|hs|] == hs;
    }

    method Empty(ghost a: List)
      requires Rel(a, Running)
      modifies this
      ensures Rel(Cleared(a).(live := true), Running)
    {
      live, list, firingLength := true, [], 0;
    }

    method Disable(ghost a: List, ghost phase: Phase)
      requires Rel(a, phase)
      modifies this
      ensures Rel(Off(a), phase) && |stack| <= |old(stack)|
    {
      live, list, queued, stack, memory := false, [], false, [], None;
    }

    method Lock(ghost a: List, ghost phase: Phase)
      requires Rel(a, phase)
      modifies this
      ensures Rel(Locked(a), phase) && |stack| <= |old(stack)|
    {
      queued, stack := false, [];
      if memory.None? {
        Disable(a.(queued := false, queue := []), phase);
      }
    }

    /** About to fire: a fires already, the list still has to be set up for it. */
    ghost predicate Primed(a: List, data: Data)
      reads this
    {
      && options == a.options && live && a.live && queued == a.queued && stack == a.queue
      && !firing && a.firing == Some(data) && firingStart == |a.done| && a.skip == 0
      && a.memory == (if options.memory then Some(data) else None) && a.fired
      && list == Items(a)
    }

    /** A call from a script: its effect on the list, and the data of the firing that
        add or fireWith start, if any. */
    method Call(op: Op, ghost a: List) returns (starts: Option<Data>)
      requires Rel(a, Running)
      modifies this
      ensures starts == if old(firing) then None else Apply(a, op).firing
      ensures if starts.Some? then Primed(Apply(a, op), starts.value) else Rel(Apply(a, op), Running)
    {
      starts := None;
      match op
      case Add(_, hs) =>
        if live {
          starts := AddAll(hs, a);
        }
      case Remove(_, hs) =>
        if live {
          RemoveHandlers(hs, a);
        }
      case Empty(_) => Empty(a);
      case Disable(_) => Disable(a, Running);
      case Lock(_) => Lock(a, Running);
      case Fire(_, data) =>
        if live && (!fired || queued) {
          if firing {
            stack := stack + [data];
          } else {
            starts := Some(data);
            PrimedItems(a, 0);
          }
        }
    }

    /** add: a list with memory that is not firing fires at once, from the first addition. */
    method AddAll(hs: seq<Handler>, ghost a: List) returns (starts: Option<Data>)
      requires live && Rel(a, Running)
      modifies this
      ensures starts == if old(firing) then None else Apply(a, Add(0, hs)).firing
      ensures if starts.Some? then Primed(Apply(a, Add(0, hs)), starts.value) else Rel(Apply(a, Add(0, hs)), Running)
    {
      var start := |list|;
      Push(hs, a);
      EnlistAllKeeps(a, hs);
      if firing || memory.None? {
        return None;
      }
      firingStart := start;
      starts := memory;
      PrimedItems(EnlistAll(a, hs), start);
    }

    /** The handler returned: on to the next one. */
    method Advance(ghost a: List)
      requires Rel(a, Running)
      modifies `firingIndex
      ensures Rel(a, Between)
    {
      firingIndex := firingIndex + 1;
    }

    /** The handler returned false in a list with stopOnFalse: the loop is left. */
    method Break(ghost a: List)
      requires Rel(a, Running) && firing
      modifies `memory
      ensures Rel(Abandon(a), Ending)
    {
      HandlersConcat(a.done, a.pending);
      memory := None;
    }

    /** The first statements of fire. */
    method StartFiring(data: Data, ghost a: List)
      requires Primed(a, data)
      modifies this
      ensures Rel(a, Between) && a.firing == Some(data) && stack == old(stack)
    {
      memory := if options.memory then Some(data) else None;
      fired := true;
      firingIndex := firingStart;
      firingStart := 0;
      firingLength := |list|;
      firing := true;
    }

    /** The last statements of fire: the data of a firing that follows at once, if any. */
    method EndFiring(ghost a: List) returns (again: Option<Data>)
      requires firing && Rel(a, Ending) && (live ==> a.pending == [])
      modifies this
      ensures again == Settle(a).firing
      ensures if again.Some? then Primed(Settle(a), again.value) && |stack| < |old(stack)| else Rel(Settle(a), Running)
    {
      firing := false;
      again := None;
      if live {
        if queued {
          if stack != [] {
            again := Some(stack[0]);
            stack := stack[1..];
          }
        } else if memory.Some? {
          list := [];
        } else {
          Disable(a.(firing := None, skip := 0), Running);
        }
      }
    }
  }

  /** The handlers without h. */
  function Drop(hs: seq<Handler>, h: Handler): (r: seq<Handler>)
    ensures |r| <= |hs|
  {
    if hs == [] then []
    else Drop(hs[..|hs| - 1], h) + if hs[|hs| - 1] == h then [] else [hs[|hs| - 1]]
  }

  lemma {:induction false} DropHandlers(es: seq<Entry>, h: Handler)
    ensures Drop(Handlers(es), h) == Handlers(Without(es, h))
  {
    if es != [] {
      var n := |es| - 1;
      DropHandlers(es[..n], h);
      assert Handlers(es)[..n] == Handlers(es[..n]);
    }
  }

  /** Where no h stands, nothing is dropped. */
  lemma {:induction false} DropSlice(hs: seq<Handler>, h: Handler, p: nat, q: nat)
    requires p <= q <= |hs| && h !in hs[p..q]
    ensures Drop(hs[..q], h) == Drop(hs[..p], h) + hs[p..q]
    ensures |Drop(hs[..q], h)| == |Drop(hs[..p], h)| + q - p
    decreases q
  {
    if p == q {
      assert hs[p..q] == [];
    } else {
      assert hs[p..q] == hs[p..q - 1] + [hs[q - 1]];
      DropSlice(hs, h, p, q - 1);
      DropLast(hs, h, q - 1);
    }
  }

  lemma DropLast(hs: seq<Handler>, h: Handler, q: nat)
    requires q < |hs|
    ensures Drop(hs[..q + 1], h) == Drop(hs[..q], h) + if hs[q] == h then [] else [hs[q]]
  {
    assert hs[..q + 1][..q] == hs[..q];
  }

  lemma {:induction false} DropMonotone(hs: seq<Handler>, h: Handler, p: nat, q: nat)
    requires p <= q <= |hs|
    ensures |Drop(hs[..p], h)| <= |Drop(hs[..q], h)|
    decreases q
  {
    if p < q {
      DropMonotone(hs, h, p, q - 1);
      DropLast(hs, h, q - 1);
    }
  }

  lemma {:induction false} DropConcat(hs: seq<Handler>, ks: seq<Handler>, h: Handler)
    ensures Drop(hs + ks, h) == Drop(hs, h) + Drop(ks, h)
    decreases |ks|
  {
    if ks == [] {
      assert hs + ks == hs;
    } else {
      var n := |ks| - 1;
      var init, last := ks[..n], if ks[n] == h then [] else [ks[n]];
      assert (hs + ks)[..|hs + ks| - 1] == hs + init;
      assert Drop(hs + ks, h) == Drop(hs + init, h) + last && Drop(ks, h) == Drop(init, h) + last;
      hide Drop;
      DropConcat(hs, init, h);
      Joins(Drop(hs, h), Drop(init, h), last);
    }
  }

  /** jQuery.inArray from a given index on: the first occurrence of h, or -1. */
  method InArray(h: Handler, list: seq<Handler>, start: nat) returns (index: int)
    requires start <= |list|
    ensures index == -1 || (start <= index < |list| && list[index] == h)
    ensures h !in list[start..if index == -1 then |list| else index]
  {
    index := start;
    while index < |list|
      invariant start <= index <= |list| && h !in list[start..index]
    {
      if list[index] == h {
        return;
      }
      index := index + 1;
    }
    return -1;
  }

  lemma PrimedItems(a: List, start: nat)
    requires start <= |a.done| + |a.pending|
    ensures Items(a.(done := (a.done + a.pending)[..start], pending := (a.done + a.pending)[start..])) == Items(a)
  {
    var items := a.done + a.pending;
    HandlersConcat(items[..start], items[start..]);
    HandlersConcat(a.done, a.pending);
    assert items[..start] + items[start..] == items;
  }

  lemma TurnItems(a: List)
    requires a.pending != []
    ensures Items(TakeTurn(a)) == Items(a)
    ensures Items(a)[|a.done|] == a.pending[0].handler
  {
    var items, k := a.done + a.pending, |a.done|;
    PrimedItems(a, k + 1);
    assert items[..k + 1] == a.done + [a.pending[0]] && items[k + 1..] == a.pending[1..];
    assert Items(a)[k] == Handlers(a.pending)[0];
  }

  /** The function at the firing index is the first pending one. */
  lemma NextEntry(c: CallbackList, a: List)
    requires c.Rel(a, Between) && c.firing && c.live && c.firingIndex < c.firingLength
    ensures a.live && a.pending != [] && 0 <= c.firingIndex < |c.list|
    ensures c.list[c.firingIndex] == a.pending[0].handler
    ensures c.Rel(TakeTurn(a), Running)
  {
    hide Items;
    TurnItems(a);
  }

  /** How many of the first turns remain, once the occurrences of h before p are gone. */
  function TurnsKept(hs: seq<Handler>, h: Handler, turns: nat, p: nat): int
    requires turns <= |hs| && p <= |hs|
  {
    if p <= turns then |Drop(hs[..p], h)| + turns - p else |Drop(hs[..turns], h)|
  }

  /** Splicing out the next occurrence of h, at q: its index is among the turns taken
      exactly when the firing index has to be decreased. */
  lemma SpliceStep(hs: seq<Handler>, h: Handler, turns: nat, p: nat, q: nat)
    requires turns <= |hs| && p <= q < |hs| && h !in hs[p..q] && hs[q] == h
    ensures Drop(hs[..q + 1], h) == Drop(hs[..p], h) + hs[p..q]
    ensures var index := |Drop(hs[..p], h)| + q - p;
      && (index < TurnsKept(hs, h, turns, p) <==> q < turns)
      && TurnsKept(hs, h, turns, q + 1) == TurnsKept(hs, h, turns, p) - if q < turns then 1 else 0
  {
    hide Drop;
    DropSlice(hs, h, p, q);
    DropLast(hs, h, q);
    if p <= turns <= q {
      SubSlice(hs, h, p, turns, q);
      DropSlice(hs, h, p, turns);
      DropMonotone(hs, h, turns, q);
    } else if turns < p {
      DropMonotone(hs, h, turns, p);
    }
  }

  /** The search for h has come to index start of list: what lies before has been
      searched, and corresponds to the first p handlers of hs. */
  ghost predicate Scanned(hs: seq<Handler>, h: Handler, p: int, list: seq<Handler>, start: int) {
    && 0 <= p <= |hs| && start == |Drop(hs[..p], h)| && start <= |list|
    && list == Drop(hs[..p], h) + hs[p..] && |list| == start + |hs| - p
  }

  lemma ScanStart(hs: seq<Handler>, h: Handler, turns: nat)
    requires turns <= |hs|
    ensures Scanned(hs, h, 0, hs, 0) && TurnsKept(hs, h, turns, 0) == turns
  {
  }

  /** Splicing out the next occurrence: its index is among the turns taken exactly when
      the firing index has to be decreased. */
  lemma ScanNext(hs: seq<Handler>, h: Handler, turns: nat, p: int, list: seq<Handler>, start: int, index: int)
    requires Scanned(hs, h, p, list, start) && turns <= |hs|
    requires start <= index < |list| && list[index] == h && h !in list[start..index]
    ensures var q := p + index - start;
      && q < |hs| && Scanned(hs, h, q + 1, list[..index] + list[index + 1..], index)
      && (index < TurnsKept(hs, h, turns, p) <==> q < turns)
      && TurnsKept(hs, h, turns, q + 1) == TurnsKept(hs, h, turns, p) - if q < turns then 1 else 0
  {
    hide Drop;
    var q := p + index - start;
    var kept := Drop(hs[..p], h);
    assert list[start..index] == hs[p..q];
    assert list[index] == hs[q];
    SpliceStep(hs, h, turns, p, q);
    assert list[..index] == kept + hs[p..q];
    assert list[index + 1..] == hs[q + 1..];
  }

  lemma ScanEnd(a: List, h: Handler, p: int, list: seq<Handler>, start: int)
    requires Scanned(Items(a), h, p, list, start) && h !in list[start..|list|]
    ensures list == Items(Strike(a, h))
    ensures Strike(a, h) == a.(done := Strike(a, h).done, pending := Strike(a, h).pending)
    ensures |Strike(a, h).done| == TurnsKept(Items(a), h, |a.done|, p)
    ensures a.pending == [] ==> Strike(a, h).pending == []
  {
    assert list[start..|list|] == Items(a)[p..];
    StrikeItems(a, h, p);
  }

  lemma SubSlice(hs: seq<Handler>, h: Handler, p: nat, r: nat, q: nat)
    requires p <= r <= q <= |hs| && h !in hs[p..q]
    ensures h !in hs[p..r]
  {
    assert forall i :: p <= i < r ==> hs[i] == hs[p..q][i - p];
  }

  function Items(a: List): (hs: seq<Handler>)
    ensures |hs| == |a.done| + |a.pending|
  {
    Handlers(a.done) + Handlers(a.pending)
  }

  lemma PushStep(a: List, hs: seq<Handler>, i: nat)
    requires i < |hs| && (a.skip > 0 || a.firing.None? ==> a.pending == [])
    ensures Items(EnlistAll(a, hs[..i + 1])) ==
      var items := Items(EnlistAll(a, hs[..i]));
      if a.options.unique && hs[i] in items then items else items + [hs[i]]
  {
    var b, h := EnlistAll(a, hs[..i]), hs[i];
    assert hs[..i + 1][..i] == hs[..i];
    EnlistAllKeeps(a, hs[..i]);
    EnlistItems(b, h);
  }

  lemma EnlistItems(b: List, h: Handler)
    requires b.skip > 0 || b.firing.None? ==> b.pending == []
    ensures Items(Enlist(b, h)) == if b.options.unique && h in Items(b) then Items(b) else Items(b) + [h]
  {
    HasHandler(b, h);
    var e := Entry(b.tags, h);
    HandlersConcat(b.done, [e]);
    HandlersConcat(b.pending, [e]);
    assert Handlers([e]) == [h];
  }

  lemma HasHandler(b: List, h: Handler)
    ensures Has(b.done + b.pending, h) <==> h in Items(b)
  {
    HandlersConcat(b.done, b.pending);
    assert forall i :: 0 <= i < |b.done + b.pending| ==>
      (b.done + b.pending)[i].handler == Handlers(b.done + b.pending)[i];
  }

  /** After the last occurrence nothing else is dropped. */
  lemma StrikeItems(a: List, h: Handler, p: nat)
    requires p <= |Items(a)| && h !in Items(a)[p..]
    ensures Items(Strike(a, h)) == Drop(Items(a)[..p], h) + Items(a)[p..]
    ensures Strike(a, h) == a.(done := Strike(a, h).done, pending := Strike(a, h).pending)
    ensures |Strike(a, h).done| == TurnsKept(Items(a), h, |a.done|, p)
    ensures a.pending == [] ==> Strike(a, h).pending == []
  {
    hide Drop;
    var hs, turns := Items(a), |a.done|;
    DropHandlers(a.done, h);
    DropHandlers(a.pending, h);
    DropConcat(Handlers(a.done), Handlers(a.pending), h);
    assert hs[p..] == hs[p..|hs|] && hs[..|hs|] == hs;
    DropSlice(hs, h, p, |hs|);
    assert hs[..turns] == Handlers(a.done);
    if p <= turns {
      SubSlice(hs, h, p, turns, |hs|);
      DropSlice(hs, h, p, turns);
    }
  }
}
