/** A Deferred in use: the lists of the code, wired as Deferred wires them, with a program's
    calls and handlers that call back. */
module DeferredRuns {
  import opened CallbackPlans
  import opened CallbackRuntime
  import opened Callbacks
  import opened CallbackSpec
  import opened Deferreds
  import opened ProgressLaws
  import opened Wrappers

  const SETTLING := Options(true, true, false, false)
  const REPEATING := Options(false, true, false, false)

  predicate Settles(op: Op) {
    op.Fire? && op.list < PROGRESS
  }

  /** The first resolve or reject among calls. */
  function FirstIn(ops: seq<Op>): Option<(nat, Data)> {
    if ops == [] then None
    else
      var n := |ops| - 1;
      if FirstIn(ops[..n]).Some? then FirstIn(ops[..n])
      else if Settles(ops[n]) then Some((ops[n].list, ops[n].data))
      else None
  }

  predicate AddsTo(op: Op, l: nat) {
    op.Add? && op.list == l
  }

  /** The handlers that calls add to list l, in order. */
  function AddedIn(ops: seq<Op>, l: nat): seq<Handler> {
    if ops == [] then []
    else
      var n := |ops| - 1;
      AddedIn(ops[..n], l) + if AddsTo(ops[n], l) then ops[n].handlers else []
  }

  // ---------- what the calls in a log decide ----------

  lemma {:induction false} SettlingOfCalls(log: seq<Event>)
    ensures FirstSettling(log) == FirstIn(CallsIn(log))
  {
    if log != [] {
      var n := |log| - 1;
      SettlingOfCalls(log[..n]);
      assert CallsIn(log[..n]) + [] == CallsIn(log[..n]);
      if log[n].Called? {
        assert CallsIn(log)[..|CallsIn(log)| - 1] == CallsIn(log[..n]);
      }
    }
  }

  lemma {:induction false} RegisteredByCalls(log: seq<Event>, l: nat)
    ensures Registered(log, l) == Own(l) + AddedIn(CallsIn(log), l)
  {
    if log == [] {
      assert Own(l) + [] == Own(l);
    } else {
      var n := |log| - 1;
      RegisteredByCalls(log[..n], l);
      var before := CallsIn(log[..n]);
      assert before + [] == before;
      if log[n].Called? {
        var more := if AddsTo(log[n].op, l) then log[n].op.handlers else [];
        assert CallsIn(log)[..|CallsIn(log)| - 1] == before;
        Joins(Own(l), AddedIn(before, l), more);
      }
    }
  }

  lemma {:induction false} FirstOfFiltered(ops: seq<Op>)
    ensures FirstIn(Filter(Settles, ops)) == FirstIn(ops)
  {
    if ops != [] {
      var n := |ops| - 1;
      FirstOfFiltered(ops[..n]);
      var kept := Filter(Settles, ops[..n]);
      assert kept + [] == kept;
      assert (kept + [ops[n]])[..|kept|] == kept;
    }
  }

  lemma {:induction false} AddedOfFiltered(ops: seq<Op>, l: nat)
    ensures AddedIn(Filter(op => AddsTo(op, l), ops), l) == AddedIn(ops, l)
  {
    if ops != [] {
      var n := |ops| - 1;
      AddedOfFiltered(ops[..n], l);
      var kept := Filter(op => AddsTo(op, l), ops[..n]);
      assert kept + [] == kept;
      assert (kept + [ops[n]])[..|kept|] == kept;
    }
  }

  lemma {:induction false} SomeSettles(ops: seq<Op>, i: nat)
    requires i < |ops| && Settles(ops[i])
    ensures FirstIn(ops).Some?
  {
    if i < |ops| - 1 {
      SomeSettles(ops[..|ops| - 1], i);
    }
  }

  lemma {:induction false} InCalls(log: seq<Event>, k: nat)
    requires k < |log| && log[k].Called?
    ensures log[k].op in CallsIn(log)
  {
    if k < |log| - 1 {
      InCalls(log[..|log| - 1], k);
    }
  }

  /** A program that resolves or rejects settles the Deferred, whatever the handlers do. */
  lemma ProgramSettles(calls: seq<Op>, scripts: seq<Script>, log: seq<Event>, i: nat)
    requires Carried(Whole(calls, scripts), log)
    requires CarriedTo(Whole(calls, scripts), log).active[0].calls == []
    requires i < |calls| && Settles(calls[i])
    ensures FirstSettling(log).Some?
  {
    var made := MadeInOrder(calls, scripts, log);
    InCalls(log, made[i]);
    SettlingOfCalls(log);
    var k :| 0 <= k < |CallsIn(log)| && CallsIn(log)[k] == calls[i];
    SomeSettles(CallsIn(log), k);
  }

  /** If no handler settles it, the program's first resolve or reject does. */
  lemma ProgramSettlesFirst(calls: seq<Op>, scripts: seq<Script>, log: seq<Event>)
    requires Carried(Whole(calls, scripts), log) && ScriptsAvoid(Settles, scripts)
    requires CarriedTo(Whole(calls, scripts), log).active[0].calls == []
    ensures FirstSettling(log) == FirstIn(calls)
  {
    OnlyTheProgram(Settles, calls, scripts, log);
    assert Filter(Settles, CallsIn(log)) + [] == Filter(Settles, CallsIn(log));
    FirstOfFiltered(CallsIn(log));
    FirstOfFiltered(calls);
    SettlingOfCalls(log);
  }

  /** If no handler adds to list l, it holds what the program adds. */
  lemma ProgramRegisters(calls: seq<Op>, scripts: seq<Script>, log: seq<Event>, l: nat)
    requires Carried(Whole(calls, scripts), log) && ScriptsAvoid(op => AddsTo(op, l), scripts)
    requires CarriedTo(Whole(calls, scripts), log).active[0].calls == []
    ensures Registered(log, l) == Own(l) + AddedIn(calls, l)
  {
    var p := op => AddsTo(op, l);
    OnlyTheProgram(p, calls, scripts, log);
    assert Filter(p, CallsIn(log)) + [] == Filter(p, CallsIn(log));
    AddedOfFiltered(CallsIn(log), l);
    AddedOfFiltered(calls, l);
    RegisteredByCalls(log, l);
  }

  // ---------- the code ----------

  /** What a program's calls, with the scripts of its handlers, lead to. */
  ghost predicate Outcome(state: Settlement, log: seq<Event>, calls: seq<Op>, scripts: seq<Script>) {
    && ((exists i :: 0 <= i < |calls| && Settles(calls[i])) ==> state != Pending)
    && (ScriptsAvoid(Settles, scripts) ==> SettledBy(FirstIn(calls), state, log, calls, scripts))
  }

  /** The Deferred has been settled by the given call, and by no other. */
  ghost predicate SettledBy(first: Option<(nat, Data)>, state: Settlement, log: seq<Event>,
                            calls: seq<Op>, scripts: seq<Script>) {
    match first
    case None => state == Pending && Run(log, DONE) == [] && Run(log, FAIL) == []
    case Some((l, data)) =>
      && l < PROGRESS && state == (if l == DONE then Resolved else Rejected)
      && Run(log, 1 - l) == [] && RunWith(log, l, data)
      && (ScriptsAvoid(op => AddsTo(op, l), scripts) ==> Run(log, l) == Own(l) + AddedIn(calls, l))
  }

  lemma OutcomeOfRun(calls: seq<Op>, scripts: seq<Script>, w: World, log: seq<Event>)
    requires Carried(Whole(calls, scripts), log) && Complete(w, CarriedTo(Whole(calls, scripts), log))
    requires SettledOnce(w, log)
    ensures Outcome(w.state, log, calls, scripts)
  {
    hide Run, Registered, RunWith, FirstSettling, FirstIn, AddedIn, Carried, CarriedTo;
    if i :| 0 <= i < |calls| && Settles(calls[i]) {
      ProgramSettles(calls, scripts, log, i);
    }
    if ScriptsAvoid(Settles, scripts) {
      ProgramSettlesFirst(calls, scripts, log);
      if FirstIn(calls).Some? {
        var l := FirstIn(calls).value.0;
        if ScriptsAvoid(op => AddsTo(op, l), scripts) {
          ProgramRegisters(calls, scripts, log, l);
        }
      }
    }
  }

  /** Creates a Deferred and makes the given calls, while its handlers run the given scripts,
      and nothing else: the run, of which there is only one (OneCompleteRun), obeys the laws of
      Deferreds. */
  method RunDeferred(calls: seq<Op>, scripts: seq<Script>) returns (deferred: Runtime)
    requires forall i :: 0 <= i < |calls| ==> PromiseCall(calls[i])
    requires OnlyAllowed(scripts, PromiseCall)
    ensures fresh(deferred) && deferred.Valid(Running)
    ensures Legal(NewDeferred(), deferred.log) && PromiseRun(deferred.log)
    ensures deferred.world == After(NewDeferred(), deferred.log) && deferred.state == deferred.world.state
    ensures Carried(Whole(calls, scripts), deferred.log)
    ensures Complete(deferred.world, CarriedTo(Whole(calls, scripts), deferred.log))
    ensures SettledOnce(deferred.world, deferred.log) && Outcome(deferred.state, deferred.log, calls, scripts)
    ensures ProgressLawful(deferred.log)
  {
    IdleDeferred();
    hide Legal, After, Carried, CarriedTo, SettledOnce, NewDeferred, PromiseCall, Idle, CallbackList.Rel, WellFormed;
    hide Own, Outcome, ProgressLawful;
    deferred := new Runtime([SETTLING, SETTLING, REPEATING], [Own(DONE), Own(FAIL), []], calls, scripts, PromiseCall);
    for i := 0 to |calls|
      invariant deferred.Valid(Running) && deferred.world.inScript && deferred.world.frames == []
      invariant deferred.start == NewDeferred() && deferred.whole == Whole(calls, scripts)
      invariant deferred.PlanKept([Script(calls[i..], false)])
      invariant fresh(deferred) && forall k :: 0 <= k < |deferred.lists| ==> fresh(deferred.lists[k])
    {
      deferred.Perform(calls[i]);
    }
    SettlesOnce(deferred.log);
    ProgressRun(deferred.log);
    OutcomeOfRun(calls, scripts, deferred.world, deferred.log);
  }

  /** The lists as Deferred makes them are those of a new Deferred. */
  lemma IdleDeferred()
    ensures Idle([SETTLING, SETTLING, REPEATING], [Own(DONE), Own(FAIL), []]) == NewDeferred()
    ensures NewDeferred().inScript && NewDeferred().frames == []
  {
    var w := Idle([SETTLING, SETTLING, REPEATING], [Own(DONE), Own(FAIL), []]);
    assert w.lists == NewDeferred().lists;
  }
}
