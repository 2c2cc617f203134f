/** From PortState::set_value to the browser: what a running pipeline, as it stands at any
    moment of any schedule, has shown there. */
module EndToEnd {
  import opened Ports
  import opened EventPipeline

  /** The pipeline has been posted the events of the changes made so far; listener l
      subscribed when those of the missed changes had been handled. */
  ghost predicate Feeds(s: State, l: nat, ports: map<Key, Port>, missed: seq<Change>, changes: seq<Change>) {
    && l < |s.listeners|
    && s.posted == Events(ports, missed + changes)
    && s.listeners[l].base == |Events(ports, missed)|
  }

  /** A snapshot taken at the subscription and brought up to date with what listener l has
      sent shows every port's value after some number of the changes since, whatever the
      threads were doing; and after all of them once the pipeline is at rest. */
  lemma BrowserFollows(actions: seq<Action>, s: State, l: nat, ports: map<Key, Port>, missed: seq<Change>,
                       changes: seq<Change>, devices: seq<MirrorDevice>) returns (n: nat)
    requires Run(START, actions, s) && Feeds(s, l, ports, missed, changes)
    requires NoneSilent(changes) && UniqueIds(devices) && Shows(devices, After(ports, missed))
    ensures n <= |changes| && s.listeners[l].consumed == Events(After(ports, missed), changes[..n])
    ensures Shows(Replayed(devices, s.listeners[l].consumed), After(ports, missed + changes[..n]))
    ensures Quiescent(s) && s.listeners[l].run ==>
      Shows(Replayed(devices, s.listeners[l].consumed), After(ports, missed + changes))
  {
    hide After, Events, Replayed, Shows, UniqueIds, Quiescent, Run, NoLostWakeup;
    var start, x := After(ports, missed), s.listeners[l];
    PipelineSafe(actions, s, l);
    RunsJoin(ports, missed, changes);
    var events := Events(start, changes);
    assert s.posted[x.base..] == events;
    assert x.consumed == events[..|x.consumed|];
    n := PrefixReplay(start, changes, |x.consumed|, devices);
    RunsJoin(ports, missed, changes[..n]);
    if Quiescent(s) && x.run {
      RunInvariant(START, actions, s);
      QuiescentConsumed(s, l);
      assert x.consumed == events[..|events|] == events;
      WholeReplay(start, changes, devices);
      RunsJoin(ports, missed, changes);
    }
  }

  lemma WholeReplay(start: map<Key, Port>, changes: seq<Change>, devices: seq<MirrorDevice>)
    requires NoneSilent(changes) && UniqueIds(devices) && Shows(devices, start)
    ensures Shows(Replayed(devices, Events(start, changes)), After(start, changes))
  {
    assert [] + [] + changes == changes == [] + changes;
    ReplayConverges(start, [], [], changes, devices);
  }
}
