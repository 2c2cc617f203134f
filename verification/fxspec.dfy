/** What an fx queue promises, and what the entries and the program that use it do: together
    they leave no event of a run open. */
module FxSpec {
  import opened Wrappers

  type Id = nat

  // ---------- what the queue promises ----------

  /** NextCalled(id) is a dequeue while id is the running entry (its next, or whoever else calls
      it); Returned is the end of the started function itself. */
  datatype Event = Enqueued(id: Id) | Started(id: Id) | Returned | NextCalled(id: Id) | IdleDequeued | Drained

  /** waiting entries, the started entry that has not called next, and whether the queue
      still has to move on (start an entry or report that it has drained). */
  datatype Queue = Queue(waiting: seq<Id>, running: Option<Id>, due: bool)

  ghost predicate Enabled(q: Queue, ev: Event) {
    match ev
    case Enqueued(_) => !q.due
    case NextCalled(id) => !q.due && q.running == Some(id)
    case IdleDequeued => !q.due && q.running.None?
    case Returned => !q.due
    case Started(id) => q.due && q.running.None? && q.waiting != [] && q.waiting[0] == id
    case Drained => q.due && q.running.None? && q.waiting == []
  }

  ghost function Step(q: Queue, ev: Event): Queue
    requires Enabled(q, ev)
  {
    match ev
    case Enqueued(id) => Queue(q.waiting + [id], q.running, q.running.None?)
    case NextCalled(_) => Queue(q.waiting, None, true)
    case IdleDequeued => q
    case Returned => q
    case Started(id) => Queue(q.waiting[1..], Some(id), false)
    case Drained => Queue([], None, false)
  }

  ghost predicate Legal(log: seq<Event>)
    decreases |log|, 0
  {
    log == [] || (Legal(log[..|log| - 1]) && Enabled(After(log[..|log| - 1]), log[|log| - 1]))
  }

  ghost function After(log: seq<Event>): Queue
    requires Legal(log)
    decreases |log|, 1
  {
    if log == [] then Queue([], None, false) else Step(After(log[..|log| - 1]), log[|log| - 1])
  }

  ghost function EnqueuedIn(log: seq<Event>): seq<Id> {
    if log == [] then []
    else
      var n := |log| - 1;
      EnqueuedIn(log[..n]) + if log[n].Enqueued? then [log[n].id] else []
  }

  ghost function StartedIn(log: seq<Event>): seq<Id> {
    if log == [] then []
    else
      var n := |log| - 1;
      StartedIn(log[..n]) + if log[n].Started? then [log[n].id] else []
  }

  /** How often the queue went from busy to idle, and how often it reported so. */
  ghost function Drains(log: seq<Event>): nat {
    if log == [] then 0 else Drains(log[..|log| - 1]) + if log[|log| - 1].Drained? then 1 else 0
  }

  ghost function BusyPeriods(log: seq<Event>): nat
    requires Legal(log)
  {
    if log == [] then 0
    else
      var n := |log| - 1;
      var q := After(log[..n]);
      BusyPeriods(log[..n]) + if log[n].Enqueued? && q.running.None? then 1 else 0
  }

  /** Entries start in the order they were enqueued, each once; at most one is running, and
      an idle queue has started everything. Every busy period ends with exactly one report
      that the queue has drained. */
  lemma {:induction false} QueueLaws(log: seq<Event>)
    requires Legal(log)
    ensures var q := After(log);
      && EnqueuedIn(log) == StartedIn(log) + q.waiting
      && (!q.due && q.running.None? ==> q.waiting == [])
      && BusyPeriods(log) == Drains(log) + if q.running.Some? || q.due then 1 else 0
  {
    if log != [] {
      var n := |log| - 1;
      QueueLaws(log[..n]);
      LineStep(After(log[..n]), log[n], EnqueuedIn(log[..n]), StartedIn(log[..n]));
    }
  }

  lemma LineStep(q: Queue, ev: Event, enqueued: seq<Id>, started: seq<Id>)
    requires Enabled(q, ev) && enqueued == started + q.waiting
    ensures enqueued + (if ev.Enqueued? then [ev.id] else [])
         == started + (if ev.Started? then [ev.id] else []) + Step(q, ev).waiting
  {
    if ev.Started? {
      assert q.waiting == [ev.id] + q.waiting[1..];
    }
  }

  // ---------- what the entries and the program do ----------

  /** What an entry does while it is started: it may enqueue, and call its next, which is to
      dequeue; a program does the same from outside (a next that is called later). */
  datatype Act = EnqueueMore(id: Id) | CallNext

  /** What is left of the program and of the started functions that have not returned (the
      innermost last), and what the entries to be started will do; afterwards they do nothing. */
  datatype Plan = Plan(active: seq<seq<Act>>, coming: seq<seq<Act>>)

  function Whole(program: seq<Act>, scripts: seq<seq<Act>>): Plan {
    Plan([program], scripts)
  }

  function NextScript(coming: seq<seq<Act>>): seq<Act> {
    if coming == [] then [] else coming[0]
  }

  function Later(coming: seq<seq<Act>>): seq<seq<Act>> {
    if coming == [] then [] else coming[1..]
  }

  function Innermost(p: Plan): seq<Act>
    requires p.active != []
  {
    p.active[|p.active| - 1]
  }

  /** The plan with the innermost script replaced. */
  function Going(p: Plan, acts: seq<Act>): Plan
    requires p.active != []
  {
    p.(active := p.active[|p.active| - 1 := acts])
  }

  function ActOf(ev: Event): Option<Act> {
    match ev
    case Enqueued(id) => Some(EnqueueMore(id))
    case NextCalled(_) => Some(CallNext)
    case IdleDequeued => Some(CallNext)
    case _ => None
  }

  /** The event is what the plan asks for. */
  ghost predicate Due(p: Plan, ev: Event) {
    && p.active != []
    && (ActOf(ev).Some? ==> Innermost(p) != [] && ActOf(ev) == Some(Innermost(p)[0]))
    && (ev.Returned? ==> |p.active| > 1 && Innermost(p) == [])
  }

  ghost function Carry(p: Plan, ev: Event): (q: Plan)
    requires Due(p, ev)
    ensures q.active != []
  {
    match ev
    case Started(_) => Plan(p.active + [NextScript(p.coming)], Later(p.coming))
    case Returned => p.(active := p.active[..|p.active| - 1])
    case Drained => p
    case _ => Going(p, Innermost(p)[1..])
  }

  /** The log follows the plan, and what is then left of it. */
  ghost predicate Carried(p: Plan, log: seq<Event>)
    decreases |log|, 0
  {
    if log == [] then p.active != []
    else
      var n := |log| - 1;
      Carried(p, log[..n]) && Due(CarriedTo(p, log[..n]), log[n])
  }

  ghost function CarriedTo(p: Plan, log: seq<Event>): (q: Plan)
    requires Carried(p, log)
    ensures q.active != []
    decreases |log|, 1
  {
    if log == [] then p
    else
      var n := |log| - 1;
      Carry(CarriedTo(p, log[..n]), log[n])
  }

  // ---------- the run is determined ----------

  lemma OneWay(q: Queue, p: Plan, a: Event, b: Event)
    requires Enabled(q, a) && Enabled(q, b) && Due(p, a) && Due(p, b)
    ensures a == b
  {
  }

  lemma {:induction false} Prefix(p: Plan, log: seq<Event>, k: nat)
    requires Legal(log) && Carried(p, log) && k < |log|
    ensures Legal(log[..k]) && Carried(p, log[..k])
    ensures Enabled(After(log[..k]), log[k]) && Due(CarriedTo(p, log[..k]), log[k])
    ensures Legal(log[..k + 1]) && Carried(p, log[..k + 1])
    ensures CarriedTo(p, log[..k + 1]) == Carry(CarriedTo(p, log[..k]), log[k])
    decreases |log|
  {
    var n := |log| - 1;
    if k < n {
      Prefix(p, log[..n], k);
      assert log[..n][..k] == log[..k] && log[..n][..k + 1] == log[..k + 1];
    } else {
      assert log[..k + 1] == log;
    }
  }

  /** Two runs by the same plan are one run, as far as both have come. */
  lemma {:induction false} Determined(p: Plan, a: seq<Event>, b: seq<Event>)
    requires Legal(a) && Carried(p, a) && Legal(b) && Carried(p, b) && |a| <= |b|
    ensures a <= b
    decreases |a|
  {
    hide Legal, After, Carried, CarriedTo, Enabled, Due;
    if a != [] {
      var n := |a| - 1;
      Prefix(p, a, n);
      Prefix(p, b, n);
      Determined(p, a[..n], b);
      assert a[..n] == b[..n];
      OneWay(After(a[..n]), CarriedTo(p, a[..n]), a[n], b[n]);
      assert a == a[..n] + [a[n]];
    }
  }

  /** Nothing is left to do. */
  predicate Complete(q: Queue, p: Plan) {
    !q.due && p.active == [[]]
  }

  /** So there is only one complete run. */
  lemma OneCompleteRun(p: Plan, a: seq<Event>, b: seq<Event>)
    requires Legal(a) && Carried(p, a) && Complete(After(a), CarriedTo(p, a))
    requires Legal(b) && Carried(p, b) && Complete(After(b), CarriedTo(p, b))
    ensures a == b
  {
    NoLonger(p, a, b);
    NoLonger(p, b, a);
    Determined(p, a, b);
  }

  lemma NoLonger(p: Plan, a: seq<Event>, b: seq<Event>)
    requires Legal(a) && Carried(p, a) && Complete(After(a), CarriedTo(p, a))
    requires Legal(b) && Carried(p, b)
    ensures |b| <= |a|
  {
    if |a| < |b| {
      Determined(p, a, b);
      assert b[..|a|] == a;
      Prefix(p, b, |a|);
    }
  }

  // ---------- who does what ----------

  /** The entries take the scripts in the order in which they are started. */
  lemma {:induction false} ScriptsInOrder(program: seq<Act>, scripts: seq<seq<Act>>, log: seq<Event>)
    requires Carried(Whole(program, scripts), log)
    ensures var k := |StartedIn(log)|;
      CarriedTo(Whole(program, scripts), log).coming == if k <= |scripts| then scripts[k..] else []
  {
    if log != [] {
      ScriptsInOrder(program, scripts, log[..|log| - 1]);
    }
  }

  /** The d-th innermost activity is still under way at every point of the log from i on. */
  ghost predicate UnderWay(p: Plan, log: seq<Event>, i: nat, d: nat)
    requires Carried(p, log)
  {
    && |CarriedTo(p, log).active| >= d
    && (|log| > i ==> UnderWay(p, log[..|log| - 1], i, d))
  }

  /** What the d-th activity has done since point i: its own acts are the events that come
      while it is the innermost one. */
  ghost function OwnActs(p: Plan, log: seq<Event>, i: nat, d: nat): seq<Act>
    requires Carried(p, log)
  {
    if |log| <= i then []
    else
      var n := |log| - 1;
      OwnActs(p, log[..n], i, d)
      + if |CarriedTo(p, log[..n]).active| == d && ActOf(log[n]).Some? then [ActOf(log[n]).value] else []
  }

  /** Whatever else happens meanwhile, an activity does what its script says, in order. */
  lemma {:induction false} ScriptFollowed(p: Plan, log: seq<Event>, i: nat, d: nat)
    requires 0 < d && i <= |log| && Carried(p, log) && UnderWay(p, log, i, d)
    ensures Carried(p, log[..i]) && |CarriedTo(p, log[..i]).active| >= d
    ensures CarriedTo(p, log[..i]).active[d - 1] == OwnActs(p, log, i, d) + CarriedTo(p, log).active[d - 1]
    decreases |log|
  {
    hide Carry, Due, ActOf;
    if |log| == i {
      assert log[..i] == log;
    } else {
      var n := |log| - 1;
      ScriptFollowed(p, log[..n], i, d);
      assert log[..n][..i] == log[..i];
      OwnStep(CarriedTo(p, log[..n]), log[n], d);
      var act := if |CarriedTo(p, log[..n]).active| == d && ActOf(log[n]).Some? then [ActOf(log[n]).value] else [];
      Joins(OwnActs(p, log[..n], i, d), act, CarriedTo(p, log).active[d - 1]);
    }
  }

  lemma OwnStep(q: Plan, ev: Event, d: nat)
    requires Due(q, ev) && 0 < d <= |q.active| && d <= |Carry(q, ev).active|
    ensures q.active[d - 1]
         == (if |q.active| == d && ActOf(ev).Some? then [ActOf(ev).value] else []) + Carry(q, ev).active[d - 1]
  {
  }
}
