/** Who makes which calls in a run: the calls of the program, and the script that each
    invocation of a user's function runs. A plan says what is left to do; together with the
    machine of CallbackSpec it leaves no event of a run open. */
module CallbackPlans {
  import opened CallbackSpec
  import opened Wrappers

  /** What one invocation of a user's function does: the calls it makes, and whether it
      returns false. */
  datatype Script = Script(calls: seq<Op>, returnsFalse: bool)

  /** What is left of the program and of the invocations under way (the innermost last), and
      the scripts of the invocations to come; afterwards functions do nothing. */
  datatype Plan = Plan(active: seq<Script>, coming: seq<Script>)

  function Whole(calls: seq<Op>, scripts: seq<Script>): Plan {
    Plan([Script(calls, false)], scripts)
  }

  function NextScript(coming: seq<Script>): Script {
    if coming == [] then Script([], false) else coming[0]
  }

  function Later(coming: seq<Script>): seq<Script> {
    if coming == [] then [] else coming[1..]
  }

  function Innermost(p: Plan): Script
    requires p.active != []
  {
    p.active[|p.active| - 1]
  }

  /** The active scripts with the innermost one replaced. */
  function Replaced(active: seq<Script>, s: Script): seq<Script>
    requires active != []
  {
    active[..|active| - 1] + [s]
  }

  /** The event is what the plan asks for. */
  predicate Due(p: Plan, ev: Event) {
    && p.active != []
    && match ev
       case Called(op) => Innermost(p).calls != [] && Innermost(p).calls[0] == op
       case Ran(_, _, _) => true
       case Returned(stop) => |p.active| > 1 && Innermost(p).calls == [] && Innermost(p).returnsFalse == stop
       case Finished(_) => true
  }

  function Carry(p: Plan, ev: Event): (q: Plan)
    requires Due(p, ev)
    ensures q.active != []
  {
    match ev
    case Called(_) => p.(active := Replaced(p.active, Innermost(p).(calls := Innermost(p).calls[1..])))
    case Ran(_, e, _) =>
      if e.handler.User? then Plan(p.active + [NextScript(p.coming)], Later(p.coming)) else p
    case Returned(_) => p.(active := p.active[..|p.active| - 1])
    case Finished(_) => p
  }

  /** The log follows the plan, and what is then left of it. */
  ghost predicate Carried(p: Plan, log: seq<Event>)
    decreases |log|, 0
  {
    if log == [] then p.active != []
    else
      var n := |log| - 1;
      Carried(p, log[..n]) && Due(CarriedTo(p, log[..n]), log[n])
  }

  ghost function CarriedTo(p: Plan, log: seq<Event>): (q: Plan)
    requires Carried(p, log)
    ensures q.active != []
    decreases |log|, 1
  {
    if log == [] then p
    else
      var n := |log| - 1;
      Carry(CarriedTo(p, log[..n]), log[n])
  }

  lemma CarryOn(p: Plan, log: seq<Event>, ev: Event)
    requires Carried(p, log) && Due(CarriedTo(p, log), ev)
    ensures Carried(p, log + [ev]) && CarriedTo(p, log + [ev]) == Carry(CarriedTo(p, log), ev)
  {
    assert (log + [ev])[..|log|] == log;
  }

  // ---------- the run is determined ----------

  /** No two events are both possible for the machine and asked for by the plan. */
  lemma OneWay(w: World, p: Plan, a: Event, b: Event)
    requires WellFormed(w) && Enabled(w, a) && Enabled(w, b) && Due(p, a) && Due(p, b)
    ensures a == b
  {
  }

  lemma {:induction false} Prefix(w: World, p: Plan, log: seq<Event>, k: nat)
    requires Legal(w, log) && Carried(p, log) && k < |log|
    ensures Legal(w, log[..k]) && Carried(p, log[..k])
    ensures Enabled(After(w, log[..k]), log[k]) && Due(CarriedTo(p, log[..k]), log[k])
    decreases |log|
  {
    var n := |log| - 1;
    if k < n {
      Prefix(w, p, log[..n], k);
      assert log[..n][..k] == log[..k];
    }
  }

  /** Two runs of the same lists by the same plan are one run, as far as both have come. */
  lemma {:induction false} Determined(w: World, p: Plan, a: seq<Event>, b: seq<Event>)
    requires Legal(w, a) && Carried(p, a) && Legal(w, b) && Carried(p, b) && |a| <= |b|
    ensures a <= b
    decreases |a|
  {
    hide Legal, After, Carried, CarriedTo, Enabled, Due, WellFormed;
    if a != [] {
      var n := |a| - 1;
      Prefix(w, p, a, n);
      Prefix(w, p, b, n);
      Determined(w, p, a[..n], b);
      assert a[..n] == b[..n];
      OneWay(After(w, a[..n]), CarriedTo(p, a[..n]), a[n], b[n]);
      assert a == a[..n] + [a[n]];
    }
  }

  /** Nothing is left to do. */
  predicate Complete(w: World, p: Plan) {
    w.frames == [] && p.active == [Script([], false)]
  }

  /** So there is only one complete run. */
  lemma OneCompleteRun(w: World, p: Plan, a: seq<Event>, b: seq<Event>)
    requires Legal(w, a) && Carried(p, a) && Complete(After(w, a), CarriedTo(p, a))
    requires Legal(w, b) && Carried(p, b) && Complete(After(w, b), CarriedTo(p, b))
    ensures a == b
  {
    NoLonger(w, p, a, b);
    NoLonger(w, p, b, a);
    Determined(w, p, a, b);
  }

  lemma NoLonger(w: World, p: Plan, a: seq<Event>, b: seq<Event>)
    requires Legal(w, a) && Carried(p, a) && Complete(After(w, a), CarriedTo(p, a))
    requires Legal(w, b) && Carried(p, b)
    ensures |b| <= |a|
  {
    if |a| < |b| {
      Determined(w, p, a, b);
      assert b[..|a|] == a;
      Prefix(w, p, b, |a|);
    }
  }

  // ---------- whose script an invocation runs ----------

  /** How often a user's function has been invoked. */
  ghost function Invocations(log: seq<Event>): nat {
    if log == [] then 0
    else
      var n := |log| - 1;
      Invocations(log[..n]) + if log[n].Ran? && log[n].entry.handler.User? then 1 else 0
  }

  /** The invocations take the scripts in order. */
  lemma {:induction false} ScriptsInOrder(calls: seq<Op>, scripts: seq<Script>, log: seq<Event>)
    requires Carried(Whole(calls, scripts), log)
    ensures CarriedTo(Whole(calls, scripts), log).coming
         == if Invocations(log) <= |scripts| then scripts[Invocations(log)..] else []
  {
    if log != [] {
      ScriptsInOrder(calls, scripts, log[..|log| - 1]);
    }
  }

  /** The d-th activity is still under way at every point of the log from i on. */
  ghost predicate UnderWay(p: Plan, log: seq<Event>, i: nat, d: nat)
    requires Carried(p, log)
  {
    && |CarriedTo(p, log).active| >= d
    && (|log| > i ==> UnderWay(p, log[..|log| - 1], i, d))
  }

  /** The calls the d-th activity has made since point i: those made while it is the innermost. */
  ghost function OwnCalls(p: Plan, log: seq<Event>, i: nat, d: nat): seq<Op>
    requires Carried(p, log)
  {
    if |log| <= i then []
    else
      var n := |log| - 1;
      OwnCalls(p, log[..n], i, d)
      + if |CarriedTo(p, log[..n]).active| == d && log[n].Called? then [log[n].op] else []
  }

  /** Whatever else happens meanwhile, an invocation makes the calls of its script, in order. */
  lemma {:induction false} ScriptFollowed(p: Plan, log: seq<Event>, i: nat, d: nat)
    requires 0 < d && i <= |log| && Carried(p, log) && UnderWay(p, log, i, d)
    ensures Carried(p, log[..i]) && |CarriedTo(p, log[..i]).active| >= d
    ensures var s, left := CarriedTo(p, log[..i]).active[d - 1], CarriedTo(p, log).active[d - 1];
      s.calls == OwnCalls(p, log, i, d) + left.calls && s.returnsFalse == left.returnsFalse
    decreases |log|
  {
    hide Carry, Due;
    if |log| == i {
      assert log[..i] == log;
    } else {
      var n := |log| - 1;
      ScriptFollowed(p, log[..n], i, d);
      assert log[..n][..i] == log[..i];
      OwnStep(CarriedTo(p, log[..n]), log[n], d);
      var own := if |CarriedTo(p, log[..n]).active| == d && log[n].Called? then [log[n].op] else [];
      Joins(OwnCalls(p, log[..n], i, d), own, CarriedTo(p, log).active[d - 1].calls);
    }
  }

  lemma OwnStep(q: Plan, ev: Event, d: nat)
    requires Due(q, ev) && 0 < d <= |q.active| && d <= |Carry(q, ev).active|
    ensures var s, left := q.active[d - 1], Carry(q, ev).active[d - 1];
      && s.calls == (if |q.active| == d && ev.Called? then [ev.op] else []) + left.calls
      && s.returnsFalse == left.returnsFalse
  {
  }

  // ---------- what the program's own calls come to ----------

  /** The calls in a log. */
  ghost function CallsIn(log: seq<Event>): seq<Op> {
    if log == [] then []
    else
      var n := |log| - 1;
      CallsIn(log[..n]) + if log[n].Called? then [log[n].op] else []
  }

  function Filter(p: Op -> bool, ops: seq<Op>): seq<Op> {
    if ops == [] then []
    else
      var n := |ops| - 1;
      Filter(p, ops[..n]) + if p(ops[n]) then [ops[n]] else []
  }

  lemma {:induction false} FilterJoins(p: Op -> bool, x: seq<Op>, y: seq<Op>)
    ensures Filter(p, x + y) == Filter(p, x) + Filter(p, y)
    decreases |y|
  {
    if y == [] {
      assert x + y == x;
    } else {
      var n := |y| - 1;
      FilterJoins(p, x, y[..n]);
      assert (x + y)[..|x + y| - 1] == x + y[..n];
    }
  }

  lemma FilterFirst(p: Op -> bool, ops: seq<Op>)
    requires ops != []
    ensures Filter(p, ops) == (if p(ops[0]) then [ops[0]] else []) + Filter(p, ops[1..])
  {
    FilterJoins(p, [ops[0]], ops[1..]);
    assert [ops[0]] + ops[1..] == ops;
    assert [ops[0]][..0] == [];
  }

  /** The program's calls are made in order, as far as the run has come. */
  lemma {:induction false} MadeInOrder(calls: seq<Op>, scripts: seq<Script>, log: seq<Event>) returns (made: seq<nat>)
    requires Carried(Whole(calls, scripts), log)
    ensures var left := CarriedTo(Whole(calls, scripts), log).active[0].calls;
      |made| + |left| == |calls| && left == calls[|made|..]
    ensures forall i :: 0 <= i < |made| ==> made[i] < |log| && log[made[i]] == Called(calls[i])
    ensures forall i, j :: 0 <= i < j < |made| ==> made[i] < made[j]
  {
    if log == [] {
      made := [];
    } else {
      var n := |log| - 1;
      made := MadeInOrder(calls, scripts, log[..n]);
      if log[n].Called? && |CarriedTo(Whole(calls, scripts), log[..n]).active| == 1 {
        made := made + [n];
      }
    }
  }

  /** None of the calls satisfies p. */
  predicate NoneOf(p: Op -> bool, ops: seq<Op>) {
    forall i :: 0 <= i < |ops| ==> !p(ops[i])
  }

  predicate ScriptsAvoid(p: Op -> bool, scripts: seq<Script>) {
    forall i :: 0 <= i < |scripts| ==> NoneOf(p, scripts[i].calls)
  }

  /** If no script makes a call of some kind, the calls of that kind in the log are the
      program's own, in order, but for those it has yet to make. */
  lemma {:induction false} OnlyTheProgram(p: Op -> bool, calls: seq<Op>, scripts: seq<Script>, log: seq<Event>)
    requires Carried(Whole(calls, scripts), log) && ScriptsAvoid(p, scripts)
    ensures var q := CarriedTo(Whole(calls, scripts), log);
      && ScriptsAvoid(p, q.active[1..]) && ScriptsAvoid(p, q.coming)
      && Filter(p, CallsIn(log)) + Filter(p, q.active[0].calls) == Filter(p, calls)
  {
    if log == [] {
      assert [] + Filter(p, calls) == Filter(p, calls);
    } else {
      var n := |log| - 1;
      OnlyTheProgram(p, calls, scripts, log[..n]);
      StepAvoids(p, CarriedTo(Whole(calls, scripts), log[..n]), log[n], CallsIn(log[..n]));
    }
  }

  lemma StepAvoids(p: Op -> bool, q: Plan, ev: Event, before: seq<Op>)
    requires Due(q, ev) && ScriptsAvoid(p, q.active[1..]) && ScriptsAvoid(p, q.coming)
    ensures var r, made := Carry(q, ev), before + if ev.Called? then [ev.op] else [];
      && ScriptsAvoid(p, r.active[1..]) && ScriptsAvoid(p, r.coming)
      && Filter(p, made) + Filter(p, r.active[0].calls) == Filter(p, before) + Filter(p, q.active[0].calls)
  {
    var r := Carry(q, ev);
    match ev
    case Called(op) => CallAvoids(p, q, op, before);
    case Ran(_, e, _) =>
      assert before + [] == before;
      if e.handler.User? {
        assert r.active[1..] == q.active[1..] + [NextScript(q.coming)];
      }
    case Returned(_) =>
      assert before + [] == before;
      assert r.active[1..] == q.active[1..][..|q.active| - 2];
    case Finished(_) =>
      assert before + [] == before;
  }

  lemma CallAvoids(p: Op -> bool, q: Plan, op: Op, before: seq<Op>)
    requires Due(q, Called(op)) && ScriptsAvoid(p, q.active[1..])
    ensures var r := Carry(q, Called(op));
      && ScriptsAvoid(p, r.active[1..])
      && Filter(p, before + [op]) + Filter(p, r.active[0].calls) == Filter(p, before) + Filter(p, q.active[0].calls)
  {
    hide Filter;
    var r := Carry(q, Called(op));
    FilterLast(p, before, op);
    if |q.active| > 1 {
      assert r.active[1..] == Replaced(q.active[1..], Innermost(r));
      assert q.active[1..][|q.active| - 2] == Innermost(q);
      assert NoneOf(p, Innermost(q).calls) && Innermost(q).calls[0] == op;
      assert r.active[0] == q.active[0];
    } else {
      assert r.active[0].calls == q.active[0].calls[1..];
      FilterFirst(p, q.active[0].calls);
      Joins(Filter(p, before), if p(op) then [op] else [], Filter(p, r.active[0].calls));
    }
  }

  lemma FilterLast(p: Op -> bool, before: seq<Op>, op: Op)
    ensures Filter(p, before + [op]) == Filter(p, before) + if p(op) then [op] else []
  {
    assert (before + [op])[..|before|] == before;
  }
}
