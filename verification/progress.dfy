/** Deferred's progress list: its handlers run only with the arguments of calls of notify that
    came before the first resolve or reject; a notify after that changes nothing. */
module ProgressLaws {
  import opened CallbackSpec
  import opened Deferreds
  import opened OptionLaws
  import opened Wrappers

  /** A call of notify with the data, made before the Deferred was settled. */
  ghost predicate Told(log: seq<Event>, data: Data) {
    exists j :: 0 <= j < |log| && log[j] == Called(Fire(PROGRESS, data)) && FirstSettling(log[..j]).None?
  }

  /** Every turn of a progress handler passes on such a notify, made earlier in the run. */
  ghost predicate ProgressLawful(log: seq<Event>) {
    forall i :: 0 <= i < |log| && RunsIn(log[i], PROGRESS) ==> Told(log[..i], log[i].data)
  }

  // ---------- the invariant ----------

  ghost predicate AllTold(a: List, log: seq<Event>) {
    && (a.memory.Some? ==> Told(log, a.memory.value))
    && (a.firing.Some? ==> Told(log, a.firing.value))
    && forall i :: 0 <= i < |a.queue| ==> Told(log, a.queue[i])
  }

  /** Deferred's own three handlers have had their turns. */
  ghost predicate Closed(log: seq<Event>) {
    FirstSettling(log).Some? && |Run(log, FirstSettling(log).value.0)| >= 3
  }

  ghost predicate Open(a: List) {
    a.live && a.queued && (a.fired ==> a.memory.Some?)
  }

  ghost predicate Shut(a: List) {
    !a.queued && (a.live ==> a.fired)
  }

  ghost predicate ProgressInvariant(a: List, log: seq<Event>) {
    && Sound(a) && a.options == Options(false, true, false, false) && AllTold(a, log)
    && (if Closed(log) then Shut(a) else Open(a))
  }

  lemma ToldLonger(log: seq<Event>, ev: Event)
    ensures forall d :: Told(log, d) ==> Told(log + [ev], d)
    ensures forall a :: AllTold(a, log) ==> AllTold(a, log + [ev])
    ensures forall d :: ev == Called(Fire(PROGRESS, d)) && FirstSettling(log).None? ==> Told(log + [ev], d)
  {
    var longer := log + [ev];
    assert longer[..|log|] == log && longer[|log|] == ev;
    forall d | Told(log, d) ensures Told(longer, d) {
      var j :| 0 <= j < |log| && log[j] == Called(Fire(PROGRESS, d)) && FirstSettling(log[..j]).None?;
      assert longer[j] == log[j] && longer[..j] == log[..j];
    }
  }

  /** A call on the progress list itself; it cannot come between the settling call and the
      turns of Deferred's own handlers. */
  lemma CallKeeps(a: List, op: Op, log: seq<Event>)
    requires ProgressInvariant(a, log) && PromiseCall(op) && op.list == PROGRESS
    requires FirstSettling(log).Some? ==> Closed(log)
    ensures var b := Apply(a, op);
      && Sound(b) && b.options == a.options && AllTold(b, log + [Called(op)])
      && (if Closed(log) then Shut(b) else Open(b))
  {
    ToldLonger(log, Called(op));
    ApplySound(a, op);
    ApplyKeepsFiring(a, op);
    hide Told, EnlistAll, Sound;
    if op.Add? {
      EnlistAllKeeps(a, op.handlers);
    }
  }

  lemma SettleKeeps(a: List, log: seq<Event>)
    requires Sound(a) && a.options == Options(false, true, false, false) && AllTold(a, log)
    ensures AllTold(Settle(a), log) && Settle(a).options == a.options
    ensures Open(a) ==> Open(Settle(a))
    ensures Shut(a) ==> Shut(Settle(a))
  {
  }

  lemma LockKeeps(a: List, log: seq<Event>)
    requires Sound(a) && Open(a) && AllTold(a, log)
    ensures Shut(Locked(a)) && AllTold(Locked(a), log) && Locked(a).options == a.options
  {
  }

  lemma TurnKeeps(a: List, log: seq<Event>)
    requires a.pending != []
    ensures AllTold(a, log) ==> AllTold(TakeTurn(a), log)
    ensures TakeTurn(a).options == a.options && (Open(a) ==> Open(TakeTurn(a))) && (Shut(a) ==> Shut(TakeTurn(a)))
  {
  }

  /** How far Deferred's own handlers have come. */
  lemma ClosedStep(w: World, log: seq<Event>, ev: Event)
    requires Invariant(w, log) && Enabled(w, ev) && PromiseRun(log) && (ev.Called? ==> PromiseCall(ev.op))
    ensures ev.Called? && FirstSettling(log).Some? ==> Closed(log)
    ensures Closed(log + [ev]) <==> Closed(log) || (ev.Ran? && ev.entry.handler == LockList(PROGRESS))
    ensures ev.Ran? && ev.list == PROGRESS ==> ev.entry.handler.User?
    ensures ev.Ran? && ev.entry.handler == LockList(PROGRESS) ==> ev.list != PROGRESS && !Closed(log)
    ensures ev.Ran? ==> ev.entry.handler != DisableList(PROGRESS)
  {
    Appended(log, ev);
    hide Waiting, Won, Lost, Run, Registered, RunWith, FirstSettling, PromiseRun;
    var settled := if FirstSettling(log).Some? then FirstSettling(log).value.1 else 0;
    WaitingFacts(w.lists[DONE], DONE, log);
    WaitingFacts(w.lists[FAIL], FAIL, log);
    match ev
    case Ran(l, e, data) =>
      if l == PROGRESS {
        ProgressKeeps(w.lists[PROGRESS], Empty(0));
      } else {
        WonTurn(w.lists[l], l, settled, log);
      }
    case _ =>
  }

  lemma ProgressStep(w: World, log: seq<Event>, ev: Event)
    requires Invariant(w, log) && Enabled(w, ev) && PromiseRun(log) && (ev.Called? ==> PromiseCall(ev.op))
    requires ProgressInvariant(w.lists[PROGRESS], log)
    ensures |Next(w, ev).lists| == 3 && ProgressInvariant(Next(w, ev).lists[PROGRESS], log + [ev])
    ensures RunsIn(ev, PROGRESS) ==> Told(log, ev.data)
  {
    var a := w.lists[PROGRESS];
    ClosedStep(w, log, ev);
    SoundStep(w, ev, PROGRESS);
    NextAt(w, ev, PROGRESS);
    ToldLonger(log, ev);
    hide Invariant, Next, Sound, Apply, TakeTurn, Locked, Settle, Closed, Told, Open, Shut, FirstSettling;
    match ev
    case Called(op) =>
      if op.list == PROGRESS {
        CallKeeps(a, op, log);
      }
    case Ran(k, e, data) =>
      if k == PROGRESS {
        TurnKeeps(a, log + [ev]);
      } else if e.handler == LockList(PROGRESS) {
        LockKeeps(a, log + [ev]);
      }
    case Returned(_) =>
    case Finished(k) =>
      SettleKeeps(a, log + [ev]);
  }

  lemma {:induction false} ProgressRun(log: seq<Event>)
    requires Legal(NewDeferred(), log) && PromiseRun(log)
    ensures var w := After(NewDeferred(), log); |w.lists| == 3 && ProgressInvariant(w.lists[PROGRESS], log)
    ensures ProgressLawful(log)
  {
    hide Invariant, Told;
    if log == [] {
      FreshList(PROGRESS);
      assert !Closed([]);
    } else {
      var n := |log| - 1;
      assert log == log[..n] + [log[n]];
      ProgressRun(log[..n]);
      RunInvariant(log[..n]);
      ProgressStep(After(NewDeferred(), log[..n]), log[..n], log[n]);
      forall i | 0 <= i < |log| && RunsIn(log[i], PROGRESS) ensures Told(log[..i], log[i].data) {
        if i < n {
          assert log[..n][i] == log[i] && log[..n][..i] == log[..i];
        }
      }
    }
  }

  // ---------- the laws ----------

  /** In every run, progress handlers run only with what notify was called with before the
      Deferred was settled. */
  lemma ProgressToldBefore(log: seq<Event>, i: nat)
    requires Legal(NewDeferred(), log) && PromiseRun(log) && i < |log| && RunsIn(log[i], PROGRESS)
    ensures exists j :: 0 <= j < i && log[j] == Called(Fire(PROGRESS, log[i].data)) && FirstSettling(log[..j]).None?
  {
    ProgressRun(log);
    var j :| 0 <= j < i && log[..i][j] == Called(Fire(PROGRESS, log[i].data)) && FirstSettling(log[..i][..j]).None?;
    assert log[..i][..j] == log[..j];
  }

  /** Without a notify before the first resolve or reject, no progress handler ever runs. */
  lemma NeverTold(log: seq<Event>)
    requires Legal(NewDeferred(), log) && PromiseRun(log)
    requires forall j, d :: 0 <= j < |log| && FirstSettling(log[..j]).None? ==> log[j] != Called(Fire(PROGRESS, d))
    ensures Run(log, PROGRESS) == []
  {
    forall i | 0 <= i < |log| ensures !RunsIn(log[i], PROGRESS) {
      if RunsIn(log[i], PROGRESS) {
        ProgressToldBefore(log, i);
      }
    }
    NoRun(log);
  }

  lemma {:induction false} NoRun(log: seq<Event>)
    requires forall i :: 0 <= i < |log| ==> !RunsIn(log[i], PROGRESS)
    ensures Run(log, PROGRESS) == []
  {
    if log != [] {
      NoRun(log[..|log| - 1]);
    }
  }

  /** What notify does when a script can call it: nothing once the Deferred is settled; before
      that it starts a firing of all progress handlers, or queues one behind those under way. */
  lemma NotifyEffect(log: seq<Event>, data: Data)
    requires Legal(NewDeferred(), log) && PromiseRun(log) && After(NewDeferred(), log).inScript
    ensures var w := After(NewDeferred(), log); var ev := Called(Fire(PROGRESS, data));
      && Enabled(w, ev) && |w.lists| == 3 && |Next(w, ev).lists| == 3
      && var a, b := w.lists[PROGRESS], Next(w, ev).lists[PROGRESS];
      if FirstSettling(log).Some? then Next(w, ev) == w
      else if a.firing.Some? then b == a.(queue := a.queue + [data])
      else b.firing == Some(data) && b.done == [] && b.pending == a.done + a.pending
  {
    var w := After(NewDeferred(), log);
    ProgressRun(log);
    RunInvariant(log);
    hide Told, Run, FirstSettling, PromiseRun, Waiting, Won, Lost;
    NextWellFormed(w, Called(Fire(PROGRESS, data)));
    ClosedStep(w, log, Called(Fire(PROGRESS, data)));
    assert FirstSettling(log).Some? <==> Closed(log);
  }

  /** Once the Deferred is settled and nothing fires, the progress list has been locked. */
  lemma ClosedAtRest(log: seq<Event>)
    requires Legal(NewDeferred(), log) && PromiseRun(log)
    requires FirstSettling(log).Some? && After(NewDeferred(), log).frames == []
    ensures Closed(log)
  {
    SettlesOnce(log);
    OwnFirst(log, FirstSettling(log).value.0);
  }
}
