/** Callback lists at work: fire, add and fireWith with handlers that run scripts of calls
    on the same lists. Every run is a run of the machine of CallbackSpec. */
module CallbackRuntime {
  import opened CallbackPlans
  import opened CallbackSpec
  import opened Callbacks
  import opened Wrappers

  ghost predicate OnlyAllowed(scripts: seq<Script>, allowed: Op -> bool) {
    forall i, j :: 0 <= i < |scripts| && 0 <= j < |scripts[i].calls| ==> allowed(scripts[i].calls[j])
  }

  /** The firings under way in w are still under way in w'. */
  ghost predicate StillFiring(w: World, w': World) {
    && w.frames <= w'.frames && |w.lists| <= |w'.lists|
    && forall k :: 0 <= k < |w.lists| && k in w.frames ==> w'.lists[k].firing == w.lists[k].firing
  }

  /** Without the innermost firing. */
  ghost function Outer(w: World): World
    requires |w.frames| > 0
  {
    w.(frames := w.frames[..|w.frames| - 1])
  }

  lemma NextCalled(w: World, op: Op)
    requires WellFormed(w) && w.inScript
    ensures Enabled(w, Called(op))
    ensures var w' := Next(w, Called(op));
      if op.list >= |w.lists| then w' == w
      else
        var a, b := w.lists[op.list], Apply(w.lists[op.list], op);
        && w'.lists == w.lists[op.list := b] && w'.state == w.state
        && (a.firing.Some? ==> b.firing == a.firing)
        && if a.firing.None? && b.firing.Some? then
             !w'.inScript && w'.frames == w.frames + [op.list] && op.list !in w.frames
             && StillFiring(w, Outer(w'))
           else
             w'.inScript && w'.frames == w.frames && StillFiring(w, w')
  {
    if op.list < |w.lists| {
      ApplyKeepsFiring(w.lists[op.list], op);
      var w' := Next(w, Called(op));
      if w'.frames != w.frames {
        assert w'.frames[..|w'.frames| - 1] == w.frames;
      }
    }
  }

  /** The innermost list takes its next turn; an own handler acts on list k, a user's
      function starts a script. */
  lemma NextRan(w: World, l: nat, data: Data)
    requires WellFormed(w) && !w.inScript && l == w.frames[|w.frames| - 1]
    requires w.lists[l].live && w.lists[l].pending != [] && w.lists[l].firing == Some(data)
    ensures var e := w.lists[l].pending[0];
            var ev, turned := Ran(l, e, data), w.lists[l := TakeTurn(w.lists[l])];
      && Enabled(w, ev)
      && var w' := Next(w, ev);
      && w'.frames == w.frames && w'.inScript == e.handler.User?
      && w'.state == (if e.handler.SetState? then e.handler.state else w.state)
      && w'.lists == (match e.handler
           case DisableList(k) => if k < |w.lists| then turned[k := Off(turned[k])] else turned
           case LockList(k) => if k < |w.lists| then turned[k := Locked(turned[k])] else turned
           case _ => turned)
      && w'.lists[l].firing == Some(data)
      && |w'.lists[l].pending| < |w.lists[l].pending|
      && StillFiring(w, w')
  {
  }

  lemma NextReturned(w: World, stop: bool)
    requires WellFormed(w) && w.inScript && w.frames != []
    ensures Enabled(w, Returned(stop))
    ensures var l, w' := w.frames[|w.frames| - 1], Next(w, Returned(stop));
      && l < |w.lists| && !w'.inScript && w'.frames == w.frames && w'.state == w.state
      && w'.lists == (if stop && w.lists[l].options.stopOnFalse then w.lists[l := Abandon(w.lists[l])] else w.lists)
      && StillFiring(w, w')
  {
  }

  lemma NextFinished(w: World, l: nat)
    requires WellFormed(w) && !w.inScript && l == w.frames[|w.frames| - 1]
    requires w.lists[l].live ==> w.lists[l].pending == []
    ensures Enabled(w, Finished(l))
    ensures var b, w' := Settle(w.lists[l]), Next(w, Finished(l));
      && w'.lists == w.lists[l := b] && w'.state == w.state
      && (if b.firing.Some? then w'.frames == w.frames && !w'.inScript
          else w'.frames == Outer(w).frames && w'.inScript)
      && StillFiring(Outer(w), w')
  {
  }

  class Runtime {
    const lists: seq<CallbackList>
    var state: Settlement
    var scripts: seq<Script>      // of the invocations to come; afterwards functions do nothing
    ghost const start: World
    ghost const whole: Plan
    ghost const allowed: Op -> bool  // the calls that scripts may make
    ghost var world: World
    ghost var plan: Plan
    ghost var log: seq<Event>

    /** Where list k's firing stands; phase is that of the innermost one outside scripts. */
    static ghost function PhaseOf(w: World, phase: Phase, k: int): Phase {
      if !w.inScript && |w.frames| > 0 && k == w.frames[|w.frames| - 1] then phase else Running
    }

    ghost predicate Recorded()
      reads this
    {
      && (forall j, k :: 0 <= j < k < |lists| ==> lists[j] != lists[k])
      && |lists| == |world.lists|
      && Legal(start, log) && world == After(start, log) && WellFormed(world)
      && Carried(whole, log) && plan == CarriedTo(whole, log)
      && OnlyAllowed(scripts, allowed)
      && (forall i :: 0 <= i < |log| && log[i].Called? ==> allowed(log[i].op))
    }

    /** The lists stand for those of the abstract world, except perhaps list l. */
    ghost predicate Simulates(phase: Phase, l: int)
      requires |lists| == |world.lists|
      reads this, lists
    {
      && state == world.state
      && forall k :: 0 <= k < |lists| && k != l ==> lists[k].Rel(world.lists[k], PhaseOf(world, phase, k))
    }

    ghost predicate Valid(phase: Phase)
      reads this, lists
    {
      Recorded() && Simulates(phase, -1)
    }

    /** The scripts to come are those of the plan. */
    ghost predicate OnPlan()
      reads this
    {
      plan.coming == scripts
    }

    /** The plan is as it was, but for the scripts to come. */
    ghost predicate PlanKept(active: seq<Script>)
      reads this
    {
      OnPlan() && plan.active == active
    }

    ghost predicate InFiring(l: nat)
      reads this
    {
      !world.inScript && |world.frames| > 0 && world.frames[|world.frames| - 1] == l
    }

    /** Creates the lists and adds each one's first functions; calls: what the program is going
        to call. */
    constructor (options: seq<Options>, first: seq<seq<Handler>>, ghost calls: seq<Op>, scripts: seq<Script>,
                 ghost allowed: Op -> bool)
      requires |first| == |options| && OnlyAllowed(scripts, allowed)
      ensures Valid(Running) && log == [] && start == world == Idle(options, first)
      ensures whole == plan == Whole(calls, scripts) && OnPlan()
      ensures this.scripts == scripts && this.allowed == allowed && forall k :: 0 <= k < |lists| ==> fresh(lists[k])
    {
      hide CallbackList.Rel, EnlistAll;
      var made: seq<CallbackList> := [];
      for i := 0 to |options|
        invariant |made| == i && forall k :: 0 <= k < i ==> fresh(made[k])
        invariant forall j, k :: 0 <= j < k < i ==> made[j] != made[k]
        invariant forall k :: 0 <= k < i ==> made[k].Rel(EnlistAll(NewList(options[k]), first[k]), Running)
      {
        var c := new CallbackList(options[i]);
        c.Push(first[i], NewList(options[i]));
        made := made + [c];
      }
      lists, state, this.scripts, this.allowed := made, Pending, scripts, allowed;
      start, world, log := Idle(options, first), Idle(options, first), [];
      whole, plan := Whole(calls, scripts), Whole(calls, scripts);
    }

    /** Records an event of the abstract machine. */
    ghost method Record(ev: Event)
      requires Recorded() && Enabled(world, ev) && Due(plan, ev) && (ev.Called? ==> allowed(ev.op))
      modifies `world, `log, `plan
      ensures Recorded() && world == Next(old(world), ev) && log == old(log) + [ev]
      ensures plan == Carry(old(plan), ev)
    {
      Extend(start, log, ev);
      CarryOn(whole, log, ev);
      NextWellFormed(world, ev);
      world, log, plan := Next(world, ev), log + [ev], Carry(plan, ev);
    }

    /** A call of one of the methods of a callback list. */
    method Perform(op: Op)
      requires Valid(Running) && world.inScript && allowed(op) && OnPlan() && Due(plan, Called(op))
      modifies `state, `scripts, `world, `log, `plan, lists
      ensures Valid(Running) && world.inScript && world.frames == old(world.frames)
      ensures old(log) + [Called(op)] <= log && PlanKept(Carry(old(plan), Called(op)).active)
      ensures StillFiring(old(world), world) && |scripts| <= |old(scripts)|
      decreases |scripts|, 2, 0
    {
      hide CallbackList.Rel, CallbackList.Primed, Apply, Legal, After, Carried, CarriedTo, Next, Enabled, WellFormed;
      NextCalled(world, op);
      if op.list >= |lists| {
        Record(Called(op));
        return;
      }
      var l := op.list;
      ghost var a := world.lists[l];
      FiringField(lists[l], a, Running);
      var starts := lists[l].Call(op, a);
      Record(Called(op));
      if starts.Some? {
        Fire(l, starts.value);
      }
    }

    /** fire */
    method Fire(l: nat, data: Data)
      requires l < |lists| && Recorded() && Simulates(Running, l) && InFiring(l)
      requires lists[l].Primed(world.lists[l], data) && OnPlan()
      modifies `state, `scripts, `world, `log, `plan, lists
      ensures Valid(Running) && world.inScript && PlanKept(old(plan.active))
      ensures world.frames == old(Outer(world)).frames
      ensures StillFiring(old(Outer(world)), world) && |scripts| <= |old(scripts)| && old(log) <= log
      decreases |scripts|, 1, |lists[l].stack|, 1
    {
      hide CallbackList.Rel, CallbackList.Primed, Apply, Legal, After, Carried, CarriedTo, Next, Enabled, WellFormed;
      hide Settle;
      lists[l].StartFiring(data, world.lists[l]);
      var stopped := TakeTurns(l);
      AllTurnsTaken(lists[l], world.lists[l], stopped);
      NextFinished(world, l);
      var again := lists[l].EndFiring(world.lists[l]);
      Record(Finished(l));
      if again.Some? {
        Fire(l, again.value);
      }
    }

    /** The loop of fire. */
    method TakeTurns(l: nat) returns (stopped: bool)
      requires l < |lists| && Valid(Between) && InFiring(l) && world.lists[l].firing.Some? && OnPlan()
      modifies `state, `scripts, `world, `log, `plan, lists
      ensures Valid(if stopped then Ending else Between) && InFiring(l) && PlanKept(old(plan.active))
      ensures world.frames == old(world.frames) && world.lists[l].firing.Some?
      ensures stopped ==> world.lists[l].pending == []
      ensures stopped || !lists[l].live || lists[l].firingIndex >= lists[l].firingLength
      ensures StillFiring(old(world), world) && |scripts| <= |old(scripts)| && old(log) <= log
      ensures |scripts| == |old(scripts)| ==> |lists[l].stack| <= |old(lists[l].stack)|
      decreases |scripts|, 1, |lists[l].stack|, 0
    {
      hide CallbackList.Rel, WellFormed, Legal, After, Carried, CarriedTo, PhaseOf;
      stopped := false;
      while !stopped && lists[l].live && lists[l].firingIndex < lists[l].firingLength
        invariant Valid(if stopped then Ending else Between) && InFiring(l) && PlanKept(old(plan.active))
        invariant world.frames == old(world.frames) && world.lists[l].firing.Some?
        invariant stopped ==> world.lists[l].pending == []
        invariant StillFiring(old(world), world) && |scripts| <= |old(scripts)| && old(log) <= log
        invariant |scripts| == |old(scripts)| ==> |lists[l].stack| <= |old(lists[l].stack)|
        decreases |scripts|, |world.lists[l].pending|, !stopped
      {
        stopped := Turn(l);
      }
    }

    /** Since then the first pending entry of l has run, with the firing's data. */
    ghost predicate TookTurn(l: nat, before: World, log0: seq<Event>)
      reads this
    {
      && l < |before.lists| && before.lists[l].pending != [] && before.lists[l].firing.Some?
      && log0 + [Ran(l, before.lists[l].pending[0], before.lists[l].firing.value)] <= log
    }

    /** One pass through the loop of fire. */
    method Turn(l: nat) returns (stopped: bool)
      requires l < |lists| && Valid(Between) && InFiring(l) && world.lists[l].firing.Some?
      requires lists[l].live && lists[l].firingIndex < lists[l].firingLength && OnPlan()
      modifies `state, `scripts, `world, `log, `plan, lists
      ensures InFiring(l) && world.frames == old(world.frames) && PlanKept(old(plan.active))
      ensures Valid(if stopped then Ending else Between)
      ensures TookTurn(l, old(world), old(log))
      ensures stopped ==> world.lists[l].pending == []
      ensures StillFiring(old(world), world) && |scripts| <= |old(scripts)|
      ensures |scripts| == |old(scripts)| ==>
        |world.lists[l].pending| < |old(world.lists[l].pending)| && |lists[l].stack| <= |old(lists[l].stack)|
      decreases |scripts|, 0, 2
    {
      hide CallbackList.Rel, CallbackList.Primed, Apply, Legal, After, Carried, CarriedTo, Next, Enabled, WellFormed;
      hide TakeTurn;
      ghost var a := world.lists[l];
      FiringField(lists[l], a, Between);
      NextEntry(lists[l], a);
      var h := lists[l].list[lists[l].firingIndex];
      NextRan(world, l, a.firing.value);
      ghost var ev := Ran(l, a.pending[0], a.firing.value);
      if h.User? {
        Record(ev);
        stopped := UserTurn(l);
      } else {
        OwnTurn(l, h, ev);
        stopped := false;
      }
    }

    /** The plan has gone on to the script that the invoked function is about to run. */
    ghost predicate Invoked()
      reads this
    {
      && |plan.active| > 1 && Innermost(plan) == NextScript(scripts) && plan.coming == Later(scripts)
    }

    /** The turn of a user's function. */
    method UserTurn(l: nat) returns (stopped: bool)
      requires l < |lists| && Valid(Running) && world.inScript && world.frames != []
      requires world.frames[|world.frames| - 1] == l && world.lists[l].firing.Some? && Invoked()
      modifies `state, `scripts, `world, `log, `plan, lists
      ensures InFiring(l) && world.frames == old(world.frames) && PlanKept(old(plan.active[..|plan.active| - 1]))
      ensures Valid(if stopped then Ending else Between)
      ensures stopped ==> world.lists[l].pending == []
      ensures StillFiring(old(world), world) && old(log) <= log && |scripts| <= |old(scripts)|
      ensures |scripts| == |old(scripts)| ==>
        |world.lists[l].pending| <= |old(world.lists[l].pending)| && |lists[l].stack| <= |old(lists[l].stack)|
      decreases |scripts|, 0, 1
    {
      hide CallbackList.Rel, CallbackList.Primed, Apply, Legal, After, Carried, CarriedTo, Next, Enabled, WellFormed;
      var returned := Invoke();
      ghost var a := world.lists[l];
      NextReturned(world, returned);
      FiringField(lists[l], a, Running);
      Record(Returned(returned));
      stopped := returned && lists[l].options.stopOnFalse;
      if stopped {
        lists[l].Break(a);
      } else {
        lists[l].Advance(a);
      }
    }

    /** The turn of one of Deferred's own functions. */
    method OwnTurn(l: nat, h: Handler, ghost ev: Event)
      requires l < |lists| && Valid(Between) && InFiring(l) && !h.User?
      requires world.lists[l].pending != [] && lists[l].Rel(TakeTurn(world.lists[l]), Running)
      requires Enabled(world, ev) && ev.Ran? && ev.list == l && ev.entry.handler == h
      modifies `state, `world, `log, `plan, lists
      ensures InFiring(l) && Valid(Between) && world == Next(old(world), ev)
      ensures log == old(log) + [ev] && plan == old(plan) && |lists[l].stack| <= |old(lists[l].stack)|
    {
      hide CallbackList.Rel, CallbackList.Primed, Apply, Legal, After, Carried, CarriedTo, WellFormed;
      hide TakeTurn, Off, Locked;
      ghost var turned := world.lists[l := TakeTurn(world.lists[l])];
      match h {
        case SetState(s) =>
          state := s;
        case DisableList(k) =>
          if k < |lists| {
            lists[k].Disable(turned[k], Running);
          }
        case LockList(k) =>
          if k < |lists| {
            lists[k].Lock(turned[k], Running);
          }
      }
      Record(ev);
      lists[l].Advance(world.lists[l]);
    }

    /** Calls a user's function, which runs the next script. */
    method Invoke() returns (returned: bool)
      requires Valid(Running) && world.inScript && Invoked()
      modifies `state, `scripts, `world, `log, `plan, lists
      ensures Valid(Running) && world.inScript && world.frames == old(world.frames)
      ensures returned == old(NextScript(scripts)).returnsFalse
      ensures PlanKept(Replaced(old(plan.active), Script([], returned)))
      ensures StillFiring(old(world), world) && old(log) <= log
      ensures if old(scripts) == [] then scripts == [] && world == old(world) && unchanged(lists)
              else |scripts| < |old(scripts)|
      decreases |scripts|, 0, 0
    {
      hide CallbackList.Rel, CallbackList.Primed, Apply, Legal, After, Carried, CarriedTo, Next, Enabled, WellFormed;
      if scripts == [] {
        return false;
      }
      var script := scripts[0];
      scripts := scripts[1..];
      for i := 0 to |script.calls|
        invariant Valid(Running) && world.inScript && world.frames == old(world.frames)
        invariant StillFiring(old(world), world) && |scripts| < |old(scripts)| && old(log) <= log
        invariant PlanKept(Replaced(old(plan.active), Script(script.calls[i..], script.returnsFalse)))
      {
        Perform(script.calls[i]);
      }
      return script.returnsFalse;
    }

    static lemma AllTurnsTaken(c: CallbackList, a: List, stopped: bool)
      requires c.Rel(a, if stopped then Ending else Between) && a.firing.Some?
      requires stopped ==> a.pending == []
      requires stopped || !c.live || c.firingIndex >= c.firingLength
      ensures c.firing && c.Rel(a, Ending) && c.live == a.live && (a.live ==> a.pending == [])
    {
    }

    static lemma FiringField(c: CallbackList, a: List, phase: Phase)
      requires c.Rel(a, phase)
      ensures c.firing == a.firing.Some? && c.options == a.options
    {
    }
  }

  /** Nothing has been called yet. */
  ghost function Idle(options: seq<Options>, first: seq<seq<Handler>>): World
    requires |first| == |options|
  {
    World(seq(|options|, i requires 0 <= i < |options| => EnlistAll(NewList(options[i]), first[i])), Pending, [], true)
  }
}
