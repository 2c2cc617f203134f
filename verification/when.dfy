/** jQuery.when: the master Deferred of several subordinates. */
module Whens {

  /** The arguments a Deferred is settled with. */
  type Arguments = seq<int>

  /** What resolveValues holds for a subordinate: its argument as given, or the arguments it
      was resolved with (a single one unwrapped). */
  datatype Value = Given(value: int) | Undefined | Single(value: int) | Several(values: seq<int>)

  function Unwrap(args: Arguments): Value {
    if |args| > 1 then Several(args) else if |args| == 1 then Single(args[0]) else Undefined
  }

  /** An argument of when: a plain value, or a promise with its state. */
  datatype Subordinate = Plain(value: int) | Waiting | Done(args: Arguments) | Failed(args: Arguments)

  datatype Outcome = Pending | Resolved(values: seq<Value>) | Rejected(args: Arguments)

  // ---------- what when promises ----------

  predicate Outstanding(s: Subordinate) {
    s.Waiting? || s.Failed?
  }

  /** How many subordinates are not resolved. */
  ghost function Unresolved(subs: seq<Subordinate>): (n: nat)
    ensures n <= |subs|
  {
    if subs == [] then 0
    else Unresolved(subs[..|subs| - 1]) + if Outstanding(subs[|subs| - 1]) then 1 else 0
  }

  ghost function ValueOf(s: Subordinate): Value
    requires !Outstanding(s)
  {
    if s.Plain? then Given(s.value) else Unwrap(s.args)
  }

  /** Values in the order of the arguments, for those that have one. */
  ghost predicate Holds(values: seq<Value>, subs: seq<Subordinate>) {
    |values| == |subs| && forall i :: 0 <= i < |subs| && !Outstanding(subs[i]) ==> values[i] == ValueOf(subs[i])
  }

  function AsGiven(args: Arguments): seq<Value> {
    seq(|args|, i requires 0 <= i < |args| => Given(args[i]))
  }

  /** A promise's own outcome. */
  function OutcomeOf(s: Subordinate): Outcome {
    match s
    case Done(args) => Resolved(AsGiven(args))
    case Failed(args) => Rejected(args)
    case _ => Pending
  }

  /** A single promise, with which when has nothing to do but to return it. */
  predicate SinglePromise(subs: seq<Subordinate>) {
    |subs| == 1 && !subs[0].Plain?
  }

  /** The outcome that the subordinates and their rejections, in the order of time, call
      for: a single promise's own; else the first rejection, or all the values once nothing
      is outstanding. */
  ghost predicate Verdict(outcome: Outcome, subs: seq<Subordinate>, rejections: seq<Arguments>) {
    if SinglePromise(subs) then outcome == OutcomeOf(subs[0])
    else if rejections != [] then outcome == Rejected(rejections[0])
    else if forall i :: 0 <= i < |subs| ==> !Outstanding(subs[i]) then
      outcome.Resolved? && |outcome.values| == |subs|
      && forall i :: 0 <= i < |subs| ==> outcome.values[i] == ValueOf(subs[i])
    else outcome == Pending
  }

  lemma {:induction false} NothingUnresolved(subs: seq<Subordinate>)
    ensures Unresolved(subs) == 0 <==> forall i :: 0 <= i < |subs| ==> !Outstanding(subs[i])
  {
    if subs != [] {
      NothingUnresolved(subs[..|subs| - 1]);
    }
  }

  lemma {:induction false} Settling(subs: seq<Subordinate>, i: nat, s: Subordinate)
    requires i < |subs|
    ensures Unresolved(subs[i := s]) ==
      Unresolved(subs) - (if Outstanding(subs[i]) then 1 else 0) + if Outstanding(s) then 1 else 0
  {
    var n := |subs| - 1;
    if i < n {
      Settling(subs[..n], i, s);
      assert subs[i := s][..n] == subs[..n][i := s];
    } else {
      assert subs[i := s][..n] == subs[..n];
    }
  }

  ghost predicate NoneFailed(subs: seq<Subordinate>) {
    forall i :: 0 <= i < |subs| ==> !subs[i].Failed?
  }

  /** The outcome is determined, however the subordinates came to their states. */
  lemma VerdictUnique(a: Outcome, b: Outcome, subs: seq<Subordinate>, rejections: seq<Arguments>)
    requires Verdict(a, subs, rejections) && Verdict(b, subs, rejections)
    ensures a == b
  {
    if a.Resolved? {
      assert a.values == b.values;
    }
  }

  /** When a master is settled, and how: resolved exactly if every argument is a plain value or
      a resolved promise, rejected exactly if some promise is, with what the first rejection
      of the run gave. */
  lemma OutcomeDecided(outcome: Outcome, subs: seq<Subordinate>, rejections: seq<Arguments>)
    requires Verdict(outcome, subs, rejections) && (rejections == [] <==> NoneFailed(subs))
    ensures outcome.Resolved? <==> forall i :: 0 <= i < |subs| ==> subs[i].Plain? || subs[i].Done?
    ensures outcome.Rejected? <==> exists i :: 0 <= i < |subs| && subs[i].Failed?
    ensures outcome.Rejected? && |subs| > 1 ==> rejections != [] && outcome.args == rejections[0]
    ensures outcome.Rejected? && |subs| == 1 ==> subs[0].Failed? && outcome.args == subs[0].args
  {
    if outcome.Resolved? {
      forall i | 0 <= i < |subs| ensures subs[i].Plain? || subs[i].Done? {
        assert |subs| == 1 || !Outstanding(subs[i]);
      }
    }
  }

  /** What the handlers of a resolved master get: for a single promise its own arguments; else
      one value for each argument of when, a plain value as given, a promise's only argument
      as it is, several of them as an array, and undefined for none. */
  lemma ResolvedValues(outcome: Outcome, subs: seq<Subordinate>, rejections: seq<Arguments>, i: nat)
    requires Verdict(outcome, subs, rejections) && outcome.Resolved?
    ensures |subs| == 1 && !subs[0].Plain? ==>
      && subs[0].Done? && |outcome.values| == |subs[0].args|
      && (i < |outcome.values| ==> outcome.values[i] == Given(subs[0].args[i]))
    ensures !(|subs| == 1 && !subs[0].Plain?) ==> |outcome.values| == |subs|
    ensures !(|subs| == 1 && !subs[0].Plain?) && i < |subs| ==>
      && (subs[i].Plain? || subs[i].Done?)
      && (subs[i].Plain? ==> outcome.values[i] == Given(subs[i].value))
      && (subs[i].Done? && |subs[i].args| == 0 ==> outcome.values[i] == Undefined)
      && (subs[i].Done? && |subs[i].args| == 1 ==> outcome.values[i] == Single(subs[i].args[0]))
      && (subs[i].Done? && |subs[i].args| > 1 ==> outcome.values[i] == Several(subs[i].args))
  {
    if !(|subs| == 1 && !subs[0].Plain?) && i < |subs| {
      assert !Outstanding(subs[i]) && outcome.values[i] == ValueOf(subs[i]);
    }
  }

  // ---------- the code ----------

  /** The master Deferred, which only its first settling call settles. */
  class Master {
    var outcome: Outcome

    constructor (outcome: Outcome)
      ensures this.outcome == outcome
    {
      this.outcome := outcome;
    }

    method ResolveWith(values: seq<Value>)
      modifies this
      ensures outcome == if old(outcome) == Pending then Resolved(values) else old(outcome)
    {
      if outcome == Pending {
        outcome := Resolved(values);
      }
    }

    method Reject(args: Arguments)
      modifies this
      ensures outcome == if old(outcome) == Pending then Rejected(args) else old(outcome)
    {
      if outcome == Pending {
        outcome := Rejected(args);
      }
    }
  }

  class When {
    const deferred: Master       // the subordinate itself if it is a single promise
    var resolveValues: seq<Value>
    var remaining: int
    ghost var subs: seq<Subordinate>
    ghost var rejections: seq<Arguments>

    /** Between calls: remaining counts the unresolved subordinates, but is not kept for a
        single promise. */
    ghost predicate Valid()
      reads this, deferred
    {
      && |resolveValues| == |subs|
      && (if SinglePromise(subs) then remaining == 1 else Holds(resolveValues, subs) && remaining == Unresolved(subs))
      && (rejections == [] <==> NoneFailed(subs))
      && Verdict(deferred.outcome, subs, rejections)
    }

    /** when. Promises that are settled already run the handlers at once. */
    constructor (args: seq<Subordinate>)
      ensures Valid() && fresh(deferred) && subs == args
      ensures rejections == Failures(args)
    {
      deferred := new Master(if SinglePromise(args) then OutcomeOf(args[0]) else Pending);
      resolveValues := seq(|args|, i requires 0 <= i < |args| =>
        if args[i].Plain? then Given(args[i].value) else Undefined);
      remaining := if |args| != 1 || SinglePromise(args) then |args| else 0;
      subs := args;
      rejections := if SinglePromise(args) then Failures(args) else [];
      new;
      if |args| > 1 {
        Attach(args);
      }
      NothingUnresolved(subs);
      OneFailure(args);
      if remaining == 0 {
        deferred.ResolveWith(resolveValues);
      }
    }

    /** The loop of when: attaches handlers to the promises and counts off the plain values. */
    method Attach(args: seq<Subordinate>)
      requires deferred.outcome == Pending && remaining == |args| == |resolveValues| && rejections == []
      requires Filled(resolveValues, args, 0)
      modifies `resolveValues, `remaining, `rejections, deferred
      ensures Holds(resolveValues, args) && remaining == Unresolved(args) && rejections == Failures(args)
      ensures rejections == [] <==> NoneFailed(args)
      ensures if rejections != [] then deferred.outcome == Rejected(rejections[0])
              else deferred.outcome == Pending || (remaining == 0 && deferred.outcome == Resolved(resolveValues))
    {
      assert args[..0] == [] && Unresolved([]) == 0 && Failures([]) == [] && NoneFailed([]);
      hide Unresolved, Failures, NoneFailed, Filled;
      for i := 0 to |args|
        invariant Filled(resolveValues, args, i)
        invariant remaining == |args| - i + Unresolved(args[..i])
        invariant rejections == Failures(args[..i]) && (rejections == [] <==> NoneFailed(args[..i]))
        invariant if rejections != [] then deferred.outcome == Rejected(rejections[0])
                  else deferred.outcome == Pending || (remaining == 0 && deferred.outcome == Resolved(resolveValues))
      {
        Longer(args, i);
        FilledNext(resolveValues, args, i);
        match args[i] {
          case Plain(_) =>
            remaining := remaining - 1;
          case Done(values) =>
            Update(i, values);
          case Failed(values) =>
            deferred.Reject(values);
            rejections := rejections + [values];
          case Waiting =>
        }
      }
      assert args[..|args|] == args;
      FilledAll(resolveValues, args);
    }

    /** The plain values are in place, and the resolved ones among the first i. */
    static ghost predicate Filled(values: seq<Value>, args: seq<Subordinate>, i: nat) {
      && |values| == |args|
      && forall j :: 0 <= j < |args| && !Outstanding(args[j]) && (j < i || args[j].Plain?) ==>
           values[j] == ValueOf(args[j])
    }

    static lemma FilledNext(values: seq<Value>, args: seq<Subordinate>, i: nat)
      requires i < |args| && Filled(values, args, i)
      ensures |values| == |args|
      ensures if args[i].Done? then Filled(values[i := Unwrap(args[i].args)], args, i + 1)
              else Filled(values, args, i + 1)
    {
    }

    static lemma FilledAll(values: seq<Value>, args: seq<Subordinate>)
      ensures Filled(values, args, |args|) ==> Holds(values, args)
    {
    }

    static lemma Longer(args: seq<Subordinate>, i: nat)
      requires i < |args|
      ensures Unresolved(args[..i + 1]) == Unresolved(args[..i]) + if Outstanding(args[i]) then 1 else 0
      ensures Failures(args[..i + 1]) == Failures(args[..i]) + if args[i].Failed? then [args[i].args] else []
      ensures NoneFailed(args[..i + 1]) <==> NoneFailed(args[..i]) && !args[i].Failed?
      ensures Unresolved(args[..i]) == 0 ==> NoneFailed(args[..i])
    {
      assert args[..i + 1][..i] == args[..i];
      assert args[..i + 1][i] == args[i];
      NothingUnresolved(args[..i]);
    }

    /** The done handler that updateFunc makes for subordinate i. */
    method Update(i: nat, args: Arguments)
      requires i < |resolveValues|
      modifies `resolveValues, `remaining, deferred
      ensures resolveValues == old(resolveValues)[i := Unwrap(args)] && remaining == old(remaining) - 1
      ensures deferred.outcome ==
        if old(deferred.outcome) == Pending && remaining == 0 then Resolved(resolveValues) else old(deferred.outcome)
    {
      resolveValues := resolveValues[i := Unwrap(args)];
      remaining := remaining - 1;
      if remaining == 0 {
        deferred.ResolveWith(resolveValues);
      }
    }

    /** Subordinate i is resolved. */
    method SubordinateDone(i: nat, args: Arguments)
      requires Valid() && i < |subs| && subs[i].Waiting?
      modifies this, deferred
      ensures Valid() && subs == old(subs)[i := Done(args)] && rejections == old(rejections)
    {
      Settling(subs, i, Done(args));
      SameFailures(subs, i, args);
      subs := subs[i := Done(args)];
      NothingUnresolved(subs);
      if |resolveValues| == 1 {
        deferred.ResolveWith(AsGiven(args));
      } else {
        Update(i, args);
      }
    }

    /** Subordinate i is rejected, which rejects the master. */
    method SubordinateFailed(i: nat, args: Arguments)
      requires Valid() && i < |subs| && subs[i].Waiting?
      modifies this, deferred
      ensures Valid() && subs == old(subs)[i := Failed(args)] && rejections == old(rejections) + [args]
    {
      Settling(subs, i, Failed(args));
      assert Outstanding(subs[i]);
      subs := subs[i := Failed(args)];
      assert subs[i].Failed?;
      rejections := rejections + [args];
      deferred.Reject(args);
    }
  }

  lemma SameFailures(subs: seq<Subordinate>, i: nat, args: Arguments)
    requires i < |subs| && subs[i].Waiting?
    ensures NoneFailed(subs[i := Done(args)]) <==> NoneFailed(subs)
    ensures Unresolved(subs) > 0
  {
    var after := subs[i := Done(args)];
    assert forall j :: 0 <= j < |subs| && j != i ==> after[j] == subs[j];
    if !NoneFailed(subs) {
      var j :| 0 <= j < |subs| && subs[j].Failed?;
      assert after[j].Failed?;
    }
    NothingUnresolved(subs);
    assert Outstanding(subs[i]);
  }

  lemma OneFailure(args: seq<Subordinate>)
    ensures |args| <= 1 ==> (Failures(args) == [] <==> NoneFailed(args))
    ensures |args| <= 1 && !SinglePromise(args) ==> Failures(args) == []
  {
    if |args| == 1 {
      assert args[..0] == [];
    }
  }

  /** The rejections among the arguments, in order. */
  ghost function Failures(args: seq<Subordinate>): seq<Arguments> {
    if args == [] then []
    else Failures(args[..|args| - 1]) + if args[|args| - 1].Failed? then [args[|args| - 1].args] else []
  }
}
