/** The fx queue of an element: jQuery.fn.queue, jQuery.dequeue, the "inprogress" sentinel
    and hooks.empty, with entries that may enqueue and call next at once, later or never. */
module FxQueue {
  import opened FxSpec
  import opened Wrappers

  /** An element of the queue array: the string "inprogress", or a function. */
  datatype Item = Inprogress | Entry(id: Id)

  ghost function Entries(ids: seq<Id>): (items: seq<Item>)
    ensures |items| == |ids| && forall i :: 0 <= i < |ids| ==> items[i] == Entry(ids[i])
  {
    seq(|ids|, i requires 0 <= i < |ids| => Entry(ids[i]))
  }

  lemma EntriesConcat(ids: seq<Id>, id: Id)
    ensures Entries(ids + [id]) == Entries(ids) + [Entry(id)]
  {
  }

  lemma EntriesMembers(ids: seq<Id>)
    ensures ids != [] ==> Entries(ids) == [Entry(ids[0])] + Entries(ids[1..])
  {
  }

  ghost function Items(q: Queue): seq<Item> {
    (if q.running.Some? then [Inprogress] else []) + Entries(q.waiting)
  }

  /** What a dequeue is at rest. */
  ghost function DequeueOf(q: Queue): Event {
    match q.running
    case Some(id) => NextCalled(id)
    case None => IdleDequeued
  }

  /** The hooks object of a queue, whose empty list fires once. */
  class Hooks {
    var fired: bool

    constructor ()
      ensures !fired
    {
      fired := false;
    }
  }

  class Element {
    var present: bool          // data_priv holds "fxqueue"
    var queue: seq<Item>
    var hooks: Hooks?          // data_priv's "fxqueueHooks"
    var scripts: seq<seq<Act>> // what the entries to be started do, in the order of starting
    ghost var whole: Plan
    ghost var log: seq<Event>

    /** The log is a run of the queue by the plan. */
    ghost predicate Logged()
      reads this
    {
      Legal(log) && Carried(whole, log) && CarriedTo(whole, log).coming == scripts
    }

    /** The activities that have not ended: what each has left to do. */
    ghost function Active(): (r: seq<seq<Act>>)
      reads this
      requires Logged()
      ensures r != []
    {
      CarriedTo(whole, log).active
    }

    /** The act is what the innermost activity does next. */
    ghost predicate Asked(act: Act)
      reads this
      requires Logged()
    {
      Innermost(CarriedTo(whole, log)) != [] && Innermost(CarriedTo(whole, log))[0] == act
    }

    ghost predicate HooksReady()
      reads this, hooks
    {
      hooks != null ==> !hooks.fired
    }

    /** The array is the waiting entries, behind the sentinel while an entry is running;
        between calls nothing is due. */
    ghost predicate Valid()
      reads this, hooks
    {
      Logged() && !After(log).due && queue == Items(After(log)) && (!present ==> queue == []) && HooksReady()
    }

    constructor (program: seq<Act>, scripts: seq<seq<Act>>)
      ensures Valid() && log == [] && hooks == null && whole == Whole(program, scripts)
    {
      present, queue, hooks, this.scripts, log := false, [], null, scripts, [];
      whole := Whole(program, scripts);
    }

    ghost method Record(ev: Event)
      requires Logged() && Enabled(After(log), ev) && Due(CarriedTo(whole, log), ev) && !ev.Started?
      modifies `log
      ensures Logged() && log == old(log) + [ev] && After(log) == Step(old(After(log)), ev)
      ensures CarriedTo(whole, log) == Carry(old(CarriedTo(whole, log)), ev)
    {
      assert (log + [ev])[..|log|] == log;
      log := log + [ev];
    }

    /** The first waiting entry is started; it takes the next script. */
    method TakeScript(ghost id: Id) returns (acts: seq<Act>)
      requires Logged() && Enabled(After(log), Started(id))
      modifies `log, `scripts
      ensures Logged() && log == old(log) + [Started(id)] && After(log) == Step(old(After(log)), Started(id))
      ensures Active() == old(Active()) + [acts]
      ensures acts == NextScript(old(scripts)) && scripts == Later(old(scripts))
    {
      acts := NextScript(scripts);
      scripts := Later(scripts);
      assert (log + [Started(id)])[..|log|] == log;
      log := log + [Started(id)];
    }

    /** _queueHooks: the current hooks, made if there are none. */
    method QueueHooks() returns (h: Hooks)
      requires HooksReady()
      modifies `hooks
      ensures hooks == h && !h.fired && (h == old(hooks) || fresh(h))
    {
      if hooks == null {
        hooks := new Hooks();
      }
      return hooks;
    }

    /** queue.shift() */
    method Shift() returns (first: Option<Item>)
      modifies `queue
      ensures first == if old(queue) == [] then None else Some(old(queue)[0])
      ensures queue == if old(queue) == [] then [] else old(queue)[1..]
    {
      if queue == [] {
        return None;
      }
      first := Some(queue[0]);
      queue := queue[1..];
    }

    /** Takes the next entry off the queue. If the fx queue is dequeued, the progress
        sentinel is always removed, and not counted. */
    method TakeNext(ghost sentinel: bool, ghost waiting: seq<Id>) returns (fn: Option<Item>, startLength: nat)
      requires queue == (if sentinel then [Inprogress] else []) + Entries(waiting)
      modifies `queue
      ensures startLength == |waiting|
      ensures fn == if waiting == [] then None else Some(Entry(waiting[0]))
      ensures queue == if waiting == [] then [] else Entries(waiting[1..])
    {
      EntriesMembers(waiting);
      startLength := |queue|;
      fn := Shift();
      if fn == Some(Inprogress) {
        assert queue == Entries(waiting);
        fn := Shift();
        startLength := startLength - 1;
      }
    }

    /** hooks.empty.fire(): the first time, removes the queue and its hooks. */
    method FireEmpty(h: Hooks)
      requires Logged() && After(log).running.None? && After(log).waiting == [] && !h.fired
      modifies `present, `queue, `hooks, `log, h
      ensures Valid() && hooks == null && Active() == old(Active())
      ensures log == old(log) + if old(After(log)).due then [Drained] else []
    {
      if !h.fired {
        h.fired := true;
        present, queue, hooks := false, [], null;
        if After(log).due {
          Record(Drained);
        }
      }
    }

    /** fn.queue( data ) for one function: it starts the function if none is running. */
    method Enqueue(id: Id)
      requires Valid() && Asked(EnqueueMore(id))
      modifies this, hooks
      ensures Valid() && whole == old(whole)
      ensures Active() == Going(old(CarriedTo(whole, log)), Innermost(old(CarriedTo(whole, log)))[1..]).active
      ensures old(log) + [Enqueued(id)] <= log
      ensures old(After(log)).running.Some? ==>
        log == old(log) + [Enqueued(id)] && After(log).running == old(After(log)).running
      ensures |scripts| <= |old(scripts)| && (hooks == old(hooks) || hooks == null || fresh(hooks))
      decreases |scripts|, 2
    {
      hide Legal, Carried, CarriedTo, After;
      IdleEmpty(log);
      ghost var q := After(log);
      if present {
        queue := queue + [Entry(id)];
      } else {
        present, queue := true, [Entry(id)];
      }
      EntriesConcat(q.waiting, id);
      Record(Enqueued(id));
      var _ := QueueHooks();
      if queue[0] != Inprogress {
        MoveOn(false);
      }
    }

    /** dequeue, by whomever it is called: while an entry is running it acts as that entry's
        next, and an idle queue stays idle. */
    method Dequeue()
      requires Valid() && Asked(CallNext)
      modifies this, hooks
      ensures Valid() && whole == old(whole)
      ensures Active() == Going(old(CarriedTo(whole, log)), Innermost(old(CarriedTo(whole, log)))[1..]).active
      ensures old(log) + [DequeueOf(old(After(log)))] <= log
      ensures old(After(log)).running.None? ==> log == old(log) + [IdleDequeued]
      ensures |scripts| <= |old(scripts)| && (hooks == old(hooks) || hooks == null || fresh(hooks))
      decreases |scripts|, 2
    {
      hide Legal, Carried, CarriedTo, After;
      IdleEmpty(log);
      ghost var q := After(log);
      Record(DequeueOf(q));
      MoveOn(q.running.Some?);
    }

    /** The statements of dequeue, when the queue has to move on, or is idle. */
    method MoveOn(ghost sentinel: bool)
      requires Logged() && After(log).running.None? && HooksReady()
      requires queue == (if sentinel then [Inprogress] else []) + Entries(After(log).waiting)
      requires if After(log).due then present else !sentinel && After(log).waiting == []
      modifies this, hooks
      ensures Valid() && whole == old(whole) && Active() == old(Active())
      ensures if old(After(log)).due then old(log) < log else log == old(log)
      ensures |scripts| <= |old(scripts)| && (hooks == old(hooks) || hooks == null || fresh(hooks))
      decreases |scripts|, 1
    {
      hide Legal, After, Carried, CarriedTo, Entries;
      ghost var waiting := After(log).waiting;
      var h := QueueHooks();
      var fn, startLength := TakeNext(sentinel, waiting);
      if fn.Some? {
        queue := [Inprogress] + queue;
        var acts := TakeScript(waiting[0]);
        Start(acts, waiting[0]);
      }
      if startLength == 0 {
        FireEmpty(h);
      }
    }

    /** fn.call( elem, next, hooks ): the started entry does what its script says, and returns.
        Until something dequeues, it stays the running one. */
    method Start(acts: seq<Act>, ghost id: Id)
      requires Valid() && |Active()| > 1 && Active()[|Active()| - 1] == acts && After(log).running == Some(id)
      modifies this, hooks
      ensures Valid() && whole == old(whole) && old(log) < log
      ensures Active() == old(Active())[..|old(Active())| - 1]
      ensures CallNext !in acts ==> After(log).running == Some(id)
      ensures |scripts| <= |old(scripts)| && (hooks == old(hooks) || hooks == null || fresh(hooks))
      decreases |scripts| + (if acts == [] then 0 else 1), 0
    {
      hide Legal, After, Carried, CarriedTo;
      ghost var outer := Active()[..|Active()| - 1];
      for i := 0 to |acts|
        invariant Valid() && whole == old(whole) && old(log) <= log && |scripts| <= |old(scripts)|
        invariant Active() == outer + [acts[i..]]
        invariant hooks == old(hooks) || hooks == null || fresh(hooks)
        invariant CallNext !in acts ==> After(log).running == Some(id)
      {
        match acts[i] {
          case EnqueueMore(more) => Enqueue(more);
          case CallNext => Dequeue();
        }
        assert acts[i..][1..] == acts[i + 1..];
      }
      Record(Returned);
    }
  }

  /** An idle queue at rest has started everything. */
  lemma IdleEmpty(log: seq<Event>)
    requires Legal(log)
    ensures !After(log).due && After(log).running.None? ==> After(log).waiting == []
  {
    QueueLaws(log);
  }

  /** An element's queue at work: the program enqueues and dequeues, the entries do what their
      scripts say, and nothing else happens; the run, of which there is only one
      (OneCompleteRun), obeys the laws of FxSpec. */
  method RunQueue(program: seq<Act>, scripts: seq<seq<Act>>) returns (element: Element)
    ensures fresh(element) && element.Valid() && element.whole == Whole(program, scripts)
    ensures Legal(element.log) && Carried(Whole(program, scripts), element.log)
    ensures Complete(After(element.log), CarriedTo(Whole(program, scripts), element.log))
  {
    hide Legal, After, Carried, CarriedTo;
    element := new Element(program, scripts);
    WholeActive(program, scripts);
    for i := 0 to |program|
      invariant fresh(element) && element.Valid() && element.whole == Whole(program, scripts)
      invariant element.Active() == [program[i..]]
      invariant element.hooks == null || fresh(element.hooks)
    {
      match program[i] {
        case EnqueueMore(id) => element.Enqueue(id);
        case CallNext => element.Dequeue();
      }
      assert program[i..][1..] == program[i + 1..];
    }
  }

  lemma WholeActive(program: seq<Act>, scripts: seq<seq<Act>>)
    ensures Carried(Whole(program, scripts), []) && CarriedTo(Whole(program, scripts), []).active == [program]
    ensures program[0..] == program
  {
  }
}
