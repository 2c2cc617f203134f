/** Port values: PortState::set_value announces changes as events, and the browser replays the
    port_set events onto its copy of the devices. */
module Ports {
  import opened Wrappers

  /** A port is known by the ids of its device and its own. */
  type Key = (int, int)

  datatype Port = Port(digital: bool, value: int)

  /** A JSON value: a Boolean for digital ports, a Number for analogic ones. */
  datatype Shown = Flag(on: bool) | Number(value: int)

  /** PortState::to_json_object, which a listing of the devices contains. */
  function Projection(digital: bool, value: int): Shown {
    if digital then (if value > 0 then Flag(true) else Flag(false)) else Number(value)
  }

  /** The values of Event::to_json. */
  function EventValue(digital: bool, value: int): Shown {
    if digital then (if value > 0 then Flag(true) else Flag(false)) else Number(value)
  }

  datatype Event =
    | PortSet(device: int, port: int, digital: bool, oldValue: int, newValue: int)
    | DeviceConnected(device: int)
    | DeviceDisconnected(device: int)

  /** What the browser gets for an event. */
  datatype Message =
    | PortMessage(device: int, port: int, value: Shown, oldValue: Shown)
    | ConnectedMessage(device: int)
    | DisconnectedMessage(device: int)

  function ToJson(e: Event): Message {
    match e
    case PortSet(device, port, digital, oldValue, newValue) =>
      PortMessage(device, port, EventValue(digital, newValue), EventValue(digital, oldValue))
    case DeviceConnected(device) => ConnectedMessage(device)
    case DeviceDisconnected(device) => DisconnectedMessage(device)
  }

  /** A value as it should be shown: whether it is above zero if the port is digital, and else
      the value itself. */
  ghost predicate ShowsValue(shown: Shown, digital: bool, value: int) {
    match shown
    case Flag(on) => digital && (on <==> value > 0)
    case Number(n) => !digital && n == value
  }

  /** Listings and events show values alike, and as they should be shown. */
  lemma ShownAlike(digital: bool, value: int, shown: Shown)
    ensures shown == Projection(digital, value) <==> ShowsValue(shown, digital, value)
    ensures shown == EventValue(digital, value) <==> ShowsValue(shown, digital, value)
  {
  }

  /** The message of a port_set event tells the new value and the old one. */
  lemma MessageTells(e: Event)
    requires e.PortSet?
    ensures ToJson(e).PortMessage? && ToJson(e).device == e.device && ToJson(e).port == e.port
    ensures ShowsValue(ToJson(e).value, e.digital, e.newValue) && ShowsValue(ToJson(e).oldValue, e.digital, e.oldValue)
  {
    ShownAlike(e.digital, e.newValue, ToJson(e).value);
    ShownAlike(e.digital, e.oldValue, ToJson(e).oldValue);
  }

  // ---------- runs of set_value calls ----------

  /** A call of set_value on a port found by its ids, or a device that connects or
      disconnects: one whose ports are not among those considered. */
  datatype Change = Change(key: Key, value: int, silent: bool) | Notice(device: int, connected: bool)

  ghost function Apply(ports: map<Key, Port>, c: Change): map<Key, Port> {
    if c.Change? && c.key in ports then ports[c.key := ports[c.key].(value := c.value)] else ports
  }

  ghost function Announced(ports: map<Key, Port>, c: Change): seq<Event> {
    match c
    case Notice(device, connected) => [if connected then DeviceConnected(device) else DeviceDisconnected(device)]
    case Change(key, value, silent) =>
      if key in ports && !silent && ports[key].value != value
      then [PortSet(key.0, key.1, ports[key].digital, ports[key].value, value)]
      else []
  }

  ghost function After(ports: map<Key, Port>, changes: seq<Change>): map<Key, Port> {
    if changes == [] then ports
    else Apply(After(ports, changes[..|changes| - 1]), changes[|changes| - 1])
  }

  ghost function Events(ports: map<Key, Port>, changes: seq<Change>): seq<Event> {
    if changes == [] then []
    else
      var n := |changes| - 1;
      Events(ports, changes[..n]) + Announced(After(ports, changes[..n]), changes[n])
  }

  ghost predicate NoneSilent(changes: seq<Change>) {
    forall i :: 0 <= i < |changes| && changes[i].Change? ==> !changes[i].silent
  }

  predicate Concerns(e: Event, key: Key) {
    e.PortSet? && (e.device, e.port) == key
  }

  /** The value the last of the events gives a port, or else the one it had. */
  function Latest(events: seq<Event>, key: Key, value: int): int {
    if events == [] then value
    else
      var e := events[|events| - 1];
      if Concerns(e, key) then e.newValue else Latest(events[..|events| - 1], key, value)
  }

  /** A port's events form a chain from the given value: each starts where the one before it
      ended, and each changes something. */
  ghost predicate Chained(events: seq<Event>, key: Key, value: int) {
    events == [] ||
    var n := |events| - 1;
    && Chained(events[..n], key, value)
    && (Concerns(events[n], key) ==> events[n].oldValue == Latest(events[..n], key, value) != events[n].newValue)
  }

  lemma {:induction false} SameDomain(ports: map<Key, Port>, changes: seq<Change>, key: Key)
    ensures key in After(ports, changes) <==> key in ports
    ensures key in ports ==> After(ports, changes)[key].digital == ports[key].digital
  {
    if changes != [] {
      SameDomain(ports, changes[..|changes| - 1], key);
    }
  }

  /** Without silent changes, the events tell every port's value, and each port's events chain. */
  lemma {:induction false} EventsTell(ports: map<Key, Port>, changes: seq<Change>, key: Key)
    requires NoneSilent(changes) && key in ports
    ensures key in After(ports, changes)
    ensures After(ports, changes)[key].value == Latest(Events(ports, changes), key, ports[key].value)
    ensures Chained(Events(ports, changes), key, ports[key].value)
  {
    if changes != [] {
      var n := |changes| - 1;
      EventsTell(ports, changes[..n], key);
      var events, more := Events(ports, changes[..n]), Announced(After(ports, changes[..n]), changes[n]);
      if more != [] {
        assert (events + more)[..|events + more| - 1] == events;
      } else {
        assert events + more == events;
      }
    }
  }

  /** Every port_set event is about a port there is, and says whether it is digital. */
  lemma {:induction false} EventsOfPorts(ports: map<Key, Port>, changes: seq<Change>, i: nat)
    requires i < |Events(ports, changes)|
    ensures var e := Events(ports, changes)[i];
      e.PortSet? ==> (e.device, e.port) in ports && ports[(e.device, e.port)].digital == e.digital
  {
    var n := |changes| - 1;
    if i < |Events(ports, changes[..n])| {
      EventsOfPorts(ports, changes[..n], i);
    } else {
      if changes[n].Change? {
        SameDomain(ports, changes[..n], changes[n].key);
      }
    }
  }

  lemma {:induction false} RunsJoin(ports: map<Key, Port>, a: seq<Change>, b: seq<Change>)
    ensures After(ports, a + b) == After(After(ports, a), b)
    ensures Events(ports, a + b) == Events(ports, a) + Events(After(ports, a), b)
  {
    hide Apply, Announced;
    if b == [] {
      assert a + b == a;
    } else {
      var n := |b| - 1;
      RunsJoin(ports, a, b[..n]);
      assert (a + b)[..|a + b| - 1] == a + b[..n] && (a + b)[|a + b| - 1] == b[n];
    }
  }

  lemma OneMoreChange(ports: map<Key, Port>, changes: seq<Change>, i: nat)
    requires i < |changes|
    ensures After(ports, changes[..i + 1]) == Apply(After(ports, changes[..i]), changes[i])
    ensures Events(ports, changes[..i + 1]) ==
            Events(ports, changes[..i]) + Announced(After(ports, changes[..i]), changes[i])
  {
    assert changes[..i + 1][..i] == changes[..i];
  }

  // ---------- the browser's copy ----------

  datatype MirrorPort = MirrorPort(id: int, value: Option<Shown>)

  datatype MirrorDevice = MirrorDevice(id: int, connected: bool, ports: seq<MirrorPort>)

  /** device: the first with that id. */
  function IndexOf(devices: seq<MirrorDevice>, id: int): (i: nat)
    ensures i <= |devices|
    ensures i < |devices| ==> devices[i].id == id
    ensures forall k :: 0 <= k < i ==> devices[k].id != id
  {
    if devices == [] || devices[0].id == id then 0 else 1 + IndexOf(devices[1..], id)
  }

  function WithValue(ports: seq<MirrorPort>, id: int, value: Shown): (r: seq<MirrorPort>)
    ensures |r| == |ports|
    ensures forall k :: 0 <= k < |r| ==> r[k] == if ports[k].id == id then ports[k].(value := Some(value)) else ports[k]
  {
    if ports == [] then []
    else
      var p := ports[0];
      [if p.id == id then p.(value := Some(value)) else p] + WithValue(ports[1..], id, value)
  }

  function Received(devices: seq<MirrorDevice>, m: Message): seq<MirrorDevice> {
    var i := IndexOf(devices, m.device);
    if i == |devices| then devices
    else
      var d := devices[i];
      match m
      case PortMessage(_, port, value, _) => devices[i := d.(ports := WithValue(d.ports, port, value))]
      case ConnectedMessage(_) => devices[i := d.(connected := true)]
      case DisconnectedMessage(_) => devices[i := d.(connected := false)]
  }

  function Replayed(devices: seq<MirrorDevice>, events: seq<Event>): seq<MirrorDevice> {
    if events == [] then devices
    else Received(Replayed(devices, events[..|events| - 1]), ToJson(events[|events| - 1]))
  }

  /** The ids of the devices table are unique. */
  ghost predicate UniqueIds(devices: seq<MirrorDevice>) {
    forall i, j :: 0 <= i < j < |devices| ==> devices[i].id != devices[j].id
  }

  /** Every port listed shows the projection of its value. */
  ghost predicate Shows(devices: seq<MirrorDevice>, ports: map<Key, Port>) {
    forall i, j :: 0 <= i < |devices| && 0 <= j < |devices[i].ports| ==>
      PortShown(devices[i].id, devices[i].ports[j], ports)
  }

  predicate PortShown(device: int, p: MirrorPort, ports: map<Key, Port>) {
    var key := (device, p.id);
    key in ports ==> p.value == Some(Projection(ports[key].digital, ports[key].value))
  }

  ghost predicate SameShape(a: seq<MirrorDevice>, b: seq<MirrorDevice>) {
    && |a| == |b|
    && forall i :: 0 <= i < |a| ==>
         && a[i].id == b[i].id && |a[i].ports| == |b[i].ports|
         && forall j :: 0 <= j < |a[i].ports| ==> a[i].ports[j].id == b[i].ports[j].id
  }

  lemma {:induction false} ReplayKeepsShape(devices: seq<MirrorDevice>, events: seq<Event>)
    ensures SameShape(devices, Replayed(devices, events))
  {
    if events != [] {
      ReplayKeepsShape(devices, events[..|events| - 1]);
    }
  }

  /** After a replay a port shows what the last event about it says, or what it showed before. */
  lemma {:induction false} ReplayedPort(devices: seq<MirrorDevice>, events: seq<Event>, i: nat, j: nat, port: Port)
    requires UniqueIds(devices) && i < |devices| && j < |devices[i].ports|
    requires devices[i].ports[j].value == Some(Projection(port.digital, port.value))
    requires forall k :: 0 <= k < |events| && Concerns(events[k], (devices[i].id, devices[i].ports[j].id)) ==>
      events[k].digital == port.digital
    ensures SameShape(devices, Replayed(devices, events))
    ensures Replayed(devices, events)[i].ports[j].value ==
      Some(Projection(port.digital, Latest(events, (devices[i].id, devices[i].ports[j].id), port.value)))
  {
    ReplayKeepsShape(devices, events);
    if events != [] {
      var n := |events| - 1;
      ReplayKeepsShape(devices, events[..n]);
      ReplayedPort(devices, events[..n], i, j, port);
    }
  }

  /** A port that shows the projection of its value shows what it should. */
  lemma ShownMeans(device: int, p: MirrorPort, ports: map<Key, Port>)
    requires PortShown(device, p, ports) && (device, p.id) in ports
    ensures p.value.Some? && ShowsValue(p.value.value, ports[(device, p.id)].digital, ports[(device, p.id)].value)
  {
    ShownAlike(ports[(device, p.id)].digital, ports[(device, p.id)].value, p.value.value);
  }

  /** What the last of the events says of a device's connection, or else what was known. */
  ghost function LastNotice(events: seq<Event>, device: int, known: bool): bool {
    if events == [] then known
    else
      match events[|events| - 1]
      case DeviceConnected(d) => if d == device then true else LastNotice(events[..|events| - 1], device, known)
      case DeviceDisconnected(d) => if d == device then false else LastNotice(events[..|events| - 1], device, known)
      case PortSet(_, _, _, _, _) => LastNotice(events[..|events| - 1], device, known)
  }

  /** Whether a device is connected after the changes, by its notices. */
  ghost function ConnectedAfter(changes: seq<Change>, device: int, known: bool): bool {
    if changes == [] then known
    else
      var n := |changes| - 1;
      if changes[n].Notice? && changes[n].device == device then changes[n].connected
      else ConnectedAfter(changes[..n], device, known)
  }

  /** The events tell it. */
  lemma {:induction false} NoticesTold(ports: map<Key, Port>, changes: seq<Change>, device: int, known: bool)
    ensures LastNotice(Events(ports, changes), device, known) == ConnectedAfter(changes, device, known)
  {
    if changes != [] {
      var n := |changes| - 1;
      NoticesTold(ports, changes[..n], device, known);
      var events, more := Events(ports, changes[..n]), Announced(After(ports, changes[..n]), changes[n]);
      if more == [] {
        assert events + more == events;
      } else {
        assert (events + more)[..|events + more| - 1] == events;
      }
    }
  }

  /** After a replay a device shows as connected what the last notice about it says. */
  lemma {:induction false} ReplayedConnection(devices: seq<MirrorDevice>, events: seq<Event>, i: nat)
    requires UniqueIds(devices) && i < |devices|
    ensures SameShape(devices, Replayed(devices, events))
    ensures Replayed(devices, events)[i].connected == LastNotice(events, devices[i].id, devices[i].connected)
  {
    ReplayKeepsShape(devices, events);
    if events != [] {
      var n := |events| - 1;
      ReplayKeepsShape(devices, events[..n]);
      ReplayedConnection(devices, events[..n], i);
      assert UniqueIds(Replayed(devices, events[..n]));
    }
  }

  /** Whenever the browser took its snapshot - before or after it began to receive events, but
      not before the last change whose event it missed - replaying the events it received
      shows every port's value after all the changes. */
  lemma ReplayConverges(ports: map<Key, Port>, missed: seq<Change>, overlap: seq<Change>, rest: seq<Change>,
                        devices: seq<MirrorDevice>)
    requires NoneSilent(overlap) && NoneSilent(rest)
    requires UniqueIds(devices) && Shows(devices, After(ports, missed + overlap))
    ensures var received := Events(After(ports, missed), overlap + rest);
      Shows(Replayed(devices, received), After(ports, missed + overlap + rest))
  {
    hide After, Events, Replayed, Latest, NoneSilent, UniqueIds;
    var start := After(ports, missed);
    RunsJoin(ports, missed, overlap);
    RunsJoin(ports, missed, overlap + rest);
    assert missed + overlap + rest == missed + (overlap + rest);
    OverlapConverges(start, overlap, rest, devices);
  }

  lemma OverlapConverges(start: map<Key, Port>, overlap: seq<Change>, rest: seq<Change>, devices: seq<MirrorDevice>)
    requires NoneSilent(overlap) && NoneSilent(rest)
    requires UniqueIds(devices) && Shows(devices, After(start, overlap))
    ensures Shows(Replayed(devices, Events(start, overlap + rest)), After(start, overlap + rest))
  {
    hide After, Events, Replayed, Latest, NoneSilent, UniqueIds, PortShown;
    var seen := Replayed(devices, Events(start, overlap + rest));
    var end := After(start, overlap + rest);
    ReplayKeepsShape(devices, Events(start, overlap + rest));
    forall i, j | 0 <= i < |seen| && 0 <= j < |seen[i].ports| ensures PortShown(seen[i].id, seen[i].ports[j], end) {
      var key := (devices[i].id, devices[i].ports[j].id);
      SameDomain(start, overlap + rest, key);
      if key in start {
        OverlappingPort(start, overlap, rest, devices, i, j);
      } else {
        NotShown(seen[i].id, seen[i].ports[j], end);
      }
    }
  }

  lemma NotShown(device: int, p: MirrorPort, ports: map<Key, Port>)
    requires (device, p.id) !in ports
    ensures PortShown(device, p, ports)
  {
  }

  lemma OverlappingPort(start: map<Key, Port>, overlap: seq<Change>, rest: seq<Change>,
                        devices: seq<MirrorDevice>, i: nat, j: nat)
    requires NoneSilent(overlap) && NoneSilent(rest)
    requires UniqueIds(devices) && Shows(devices, After(start, overlap))
    requires i < |devices| && j < |devices[i].ports| && (devices[i].id, devices[i].ports[j].id) in start
    ensures var seen := Replayed(devices, Events(start, overlap + rest));
      && SameShape(devices, seen)
      && PortShown(seen[i].id, seen[i].ports[j], After(start, overlap + rest))
  {
    var key := (devices[i].id, devices[i].ports[j].id);
    var middle, events := After(start, overlap), Events(start, overlap + rest);
    assert PortShown(devices[i].id, devices[i].ports[j], middle);
    SameDomain(start, overlap, key);
    SameDomain(start, overlap + rest, key);
    forall k | 0 <= k < |events| && Concerns(events[k], key) ensures events[k].digital == middle[key].digital {
      EventsOfPorts(start, overlap + rest, k);
    }
    ReplayedPort(devices, events, i, j, middle[key]);
    RunsJoin(start, overlap, rest);
    EventsTell(start, overlap, key);
    EventsTell(middle, rest, key);
    LatestJoins(Events(start, overlap), Events(middle, rest), key, start[key].value);
    LatestJoins(Events(start, overlap), Events(middle, rest), key, middle[key].value);
    LatestAgain(Events(start, overlap), key, start[key].value);
  }

  lemma {:induction false} LatestJoins(a: seq<Event>, b: seq<Event>, key: Key, value: int)
    ensures Latest(a + b, key, value) == Latest(b, key, Latest(a, key, value))
  {
    if b == [] {
      assert a + b == a;
    } else {
      assert (a + b)[..|a + b| - 1] == a + b[..|b| - 1];
      LatestJoins(a, b[..|b| - 1], key, value);
    }
  }

  /** Hearing the same events twice is hearing them once. */
  lemma {:induction false} LatestAgain(events: seq<Event>, key: Key, value: int)
    ensures Latest(events, key, Latest(events, key, value)) == Latest(events, key, value)
  {
    if events != [] {
      var n := |events| - 1;
      LatestAgain(events[..n], key, value);
      LatestEither(events[..n], key, value, Latest(events, key, value));
    }
  }

  lemma {:induction false} LatestEither(events: seq<Event>, key: Key, v: int, w: int)
    ensures || Latest(events, key, v) == Latest(events, key, w)
            || (Latest(events, key, v) == v && Latest(events, key, w) == w)
  {
    if events != [] {
      LatestEither(events[..|events| - 1], key, v, w);
    }
  }

  /** Any prefix of the events, replayed on an earlier snapshot, shows every port as it was
      after so many of the changes as these events announce. */
  lemma PrefixReplay(ports: map<Key, Port>, changes: seq<Change>, k: nat, devices: seq<MirrorDevice>) returns (n: nat)
    requires NoneSilent(changes) && k <= |Events(ports, changes)|
    requires UniqueIds(devices) && Shows(devices, ports)
    ensures n <= |changes| && Events(ports, changes[..n]) == Events(ports, changes)[..k]
    ensures Shows(Replayed(devices, Events(ports, changes)[..k]), After(ports, changes[..n]))
  {
    n := PrefixOfChanges(ports, changes, k);
    assert [] + [] + changes[..n] == changes[..n] == [] + changes[..n];
    ReplayConverges(ports, [], [], changes[..n], devices);
  }

  lemma {:induction false} PrefixOfChanges(ports: map<Key, Port>, changes: seq<Change>, k: nat) returns (n: nat)
    requires k <= |Events(ports, changes)|
    ensures n <= |changes| && Events(ports, changes[..n]) == Events(ports, changes)[..k]
  {
    if k == |Events(ports, changes)| {
      n := |changes|;
      assert changes[..n] == changes;
    } else {
      var m := |changes| - 1;
      n := PrefixOfChanges(ports, changes[..m], k);
      assert changes[..m][..n] == changes[..n];
    }
  }

  /** With silent changes the browser shows a port's last announced value, which is its value
      just if every later silent change left the projection as it was. */
  lemma SilentChanges(ports: map<Key, Port>, changes: seq<Change>, devices: seq<MirrorDevice>, i: nat, j: nat)
    requires UniqueIds(devices) && Shows(devices, ports)
    requires i < |devices| && j < |devices[i].ports| && (devices[i].id, devices[i].ports[j].id) in ports
    ensures var key := (devices[i].id, devices[i].ports[j].id);
      var seen := Replayed(devices, Events(ports, changes));
      var digital := ports[key].digital;
      && SameShape(devices, seen)
      && key in After(ports, changes)
      && (PortShown(key.0, seen[i].ports[j], After(ports, changes)) <==>
            Projection(digital, After(ports, changes)[key].value)
            == Projection(digital, Latest(Events(ports, changes), key, ports[key].value)))
  {
    var key, events := (devices[i].id, devices[i].ports[j].id), Events(ports, changes);
    assert PortShown(devices[i].id, devices[i].ports[j], ports);
    forall k | 0 <= k < |events| && Concerns(events[k], key) ensures events[k].digital == ports[key].digital {
      EventsOfPorts(ports, changes, k);
    }
    ReplayedPort(devices, events, i, j, ports[key]);
    SameDomain(ports, changes, key);
  }

  /** A copy that was right is wrong after the changes. */
  ghost predicate Misled(ports: map<Key, Port>, changes: seq<Change>, devices: seq<MirrorDevice>) {
    && UniqueIds(devices) && Shows(devices, ports)
    && !Shows(Replayed(devices, Events(ports, changes)), After(ports, changes))
  }

  /** A digital port set to 1 by a silent change is still shown as off. */
  lemma SilentChangeHidden()
    ensures exists ports, changes, devices :: Misled(ports, changes, devices)
  {
    var ports: map<Key, Port> := map[(1, 1) := Port(true, 0)];
    var changes := [Change((1, 1), 1, true)];
    var devices := [MirrorDevice(1, true, [MirrorPort(1, Some(Flag(false)))])];
    assert changes[..0] == [];
    assert After(ports, []) == ports && Events(ports, []) == [];
    assert Events(ports, changes) == [] && After(ports, changes)[(1, 1)] == Port(true, 1);
    assert Replayed(devices, []) == devices;
    assert !PortShown(devices[0].id, devices[0].ports[0], After(ports, changes));
    assert Misled(ports, changes, devices);
  }

  // ---------- the objects ----------

  class EventsService {
    var posted: seq<Event>

    constructor ()
      ensures posted == []
    {
      posted := [];
    }
  }

  /** "set <port> <value>", sent to a network device. */
  datatype Command = Set(port: int, value: int)

  class DeviceState {
    const id: int
    const isVirtual: bool
    var signalled: seq<Command>

    constructor (id: int, isVirtual: bool)
      ensures this.id == id && this.isVirtual == isVirtual && signalled == []
    {
      this.id, this.isVirtual, signalled := id, isVirtual, [];
    }
  }

  class PortState {
    const device: DeviceState
    const id: int
    const digital: bool
    var value: int

    constructor (device: DeviceState, id: int, digital: bool)
      ensures this.device == device && this.id == id && this.digital == digital && value == -1
    {
      this.device, this.id, this.digital, value := device, id, digital, -1;
    }

    method SetValue(newValue: int, silent: bool, events: EventsService)
      modifies `value, events`posted, device`signalled
      ensures value == newValue
      ensures var told := !silent && old(value) != newValue;
        && events.posted == old(events.posted)
             + (if told then [PortSet(device.id, id, digital, old(value), newValue)] else [])
        && device.signalled == old(device.signalled) + (if told && !device.isVirtual then [Set(id, newValue)] else [])
    {
      if value == newValue {
        return;
      }
      if !silent {
        events.posted := events.posted + [PortSet(device.id, id, digital, value, newValue)];
        if !device.isVirtual {
          device.signalled := device.signalled + [Set(id, newValue)];
        }
      }
      value := newValue;
    }

    /** The overload for digital ports. */
    method SetFlag(newValue: bool, events: EventsService)
      modifies `value, events`posted, device`signalled
      ensures value == if newValue then 1 else 0
      ensures events.posted == old(events.posted)
        + (if old(value) != value then [PortSet(device.id, id, digital, old(value), value)] else [])
      ensures device.signalled == old(device.signalled)
        + (if old(value) != value && !device.isVirtual then [Set(id, value)] else [])
      ensures old(value) in {0, 1} ==>
        (events.posted == old(events.posted) <==> Projection(true, old(value)) == Projection(true, value))
    {
      var value: int;
      if newValue {
        value := 1;
      } else {
        value := 0;
      }
      SetValue(value, false, events);
    }
  }

  /** The active devices' ports, found by ids. */
  class ActivePorts {
    const events: EventsService
    var states: map<Key, PortState>

    ghost predicate Valid()
      reads this
    {
      forall key :: key in states ==> states[key].device.id == key.0 && states[key].id == key.1
    }

    ghost function View(): map<Key, Port>
      reads this, states.Values
    {
      map key | key in states :: Port(states[key].digital, states[key].value)
    }

    constructor (events: EventsService)
      ensures Valid() && this.events == events && states == map[]
    {
      this.events, states := events, map[];
    }

    method Set(c: Change)
      requires Valid()
      modifies states.Values`value, events`posted, (set p | p in states.Values :: p.device)`signalled
      ensures Valid() && View() == Apply(old(View()), c)
      ensures events.posted == old(events.posted) + Announced(old(View()), c)
    {
      match c
      case Notice(device, connected) =>
        events.posted := events.posted + [if connected then DeviceConnected(device) else DeviceDisconnected(device)];
      case Change(key, value, silent) =>
        if key in states {
          states[key].SetValue(value, silent, events);
        }
    }

    /** A run of calls posts the events that the laws above speak of. */
    method SetAll(changes: seq<Change>)
      requires Valid()
      modifies states.Values`value, events`posted, (set p | p in states.Values :: p.device)`signalled
      ensures Valid() && View() == After(old(View()), changes)
      ensures events.posted == old(events.posted) + Events(old(View()), changes)
    {
      for i := 0 to |changes|
        invariant View() == After(old(View()), changes[..i])
        invariant events.posted == old(events.posted) + Events(old(View()), changes[..i])
      {
        hide Apply, Announced;
        OneMoreChange(old(View()), changes, i);
        Set(changes[i]);
      }
      assert changes[..|changes|] == changes;
    }
  }

  class DevicesManager {
    var devices: seq<MirrorDevice>

    constructor (devices: seq<MirrorDevice>)
      ensures this.devices == devices
    {
      this.devices := devices;
    }

    method Device(id: int) returns (i: nat)
      ensures i == IndexOf(devices, id)
    {
      i := 0;
      while i < |devices| && devices[i].id != id
        invariant i <= |devices| && forall k :: 0 <= k < i ==> devices[k].id != id
      {
        i := i + 1;
      }
    }

    /** A port_set for a device that is not listed raises a TypeError. */
    method OnMessage(m: Message) returns (ok: bool)
      modifies this
      ensures devices == Received(old(devices), m)
      ensures ok <==> m.PortMessage? ==> exists k :: 0 <= k < |devices| && devices[k].id == m.device
    {
      var i := Device(m.device);
      if i == |devices| {
        return !m.PortMessage?;
      }
      ok := true;
      match m {
        case PortMessage(_, port, value, _) =>
          SetPorts(i, port, value);
        case ConnectedMessage(_) =>
          devices := devices[i := devices[i].(connected := true)];
        case DisconnectedMessage(_) =>
          devices := devices[i := devices[i].(connected := false)];
      }
      assert devices[i].id == m.device;
    }

    method SetPorts(i: nat, port: int, value: Shown)
      requires i < |devices|
      modifies this
      ensures devices == old(devices)[i := old(devices)[i].(ports := WithValue(old(devices)[i].ports, port, value))]
    {
      var ports := devices[i].ports;
      var target := WithValue(ports, port, value);
      for j := 0 to |ports|
        invariant |ports| == |target|
        invariant forall k :: 0 <= k < |ports| ==> ports[k] == if k < j then target[k] else devices[i].ports[k]
      {
        if ports[j].id == port {
          ports := ports[j := ports[j].(value := Some(value))];
        }
      }
      assert ports == target;
      devices := devices[i := devices[i].(ports := ports)];
    }
  }
}
