/** The reconnecting WebSocket, opened automatically: its sockets and timers, the delays
    between attempts, and what close() stops. */
module Reconnecting {
  import opened Wrappers

  datatype ReadyState = CONNECTING | OPEN | CLOSED

  /** A native WebSocket with what the closures of one open() know of it. */
  datatype Socket = Socket(
    reconnectAttempt: bool,
    connectTimer: bool,          // its connection timeout is pending
    closeAsked: bool,
    closed: bool)                // its close event has been delivered

  /** What a listener may do while an event is dispatched. */
  datatype Call = CallClose | CallRefresh

  /** open events, close events of lost connections, scheduled attempts, the final close. */
  datatype Happening = Opened | Lost | Retry(delay: real) | Ended

  // ---------- delays ----------

  /** Math.pow */
  function Pow(b: real, n: nat): real {
    if n == 0 then 1.0 else b * Pow(b, n - 1)
  }

  datatype Settings = Settings(reconnectInterval: real, maxReconnectInterval: real, reconnectDecay: real)

  function Delay(s: Settings, attempts: nat): real {
    var timeout := s.reconnectInterval * Pow(s.reconnectDecay, attempts);
    if timeout > s.maxReconnectInterval then s.maxReconnectInterval else timeout
  }

  lemma {:induction false} PowGrows(b: real, m: nat, n: nat)
    requires b >= 1.0 && m <= n
    ensures 0.0 < Pow(b, m) <= Pow(b, n)
    decreases n
  {
    if n == 0 {
    } else if m == n {
      PowGrows(b, m - 1, n - 1);
      assert b * Pow(b, n - 1) > 0.0;
    } else {
      PowGrows(b, m, n - 1);
      assert b * Pow(b, n - 1) >= 1.0 * Pow(b, n - 1);
    }
  }

  lemma DelayGrows(s: Settings, m: nat, n: nat)
    requires s.reconnectInterval >= 0.0 && s.reconnectDecay >= 1.0 && m <= n
    ensures Delay(s, m) <= Delay(s, n) <= s.maxReconnectInterval
  {
    PowGrows(s.reconnectDecay, m, n);
    Scaled(s.reconnectInterval, Pow(s.reconnectDecay, m), Pow(s.reconnectDecay, n));
  }

  lemma Scaled(a: real, x: real, y: real)
    requires a >= 0.0 && x <= y
    ensures a * x <= a * y
  {
    assert a * (y - x) >= 0.0;
  }

  // ---------- histories ----------

  /** The attempts scheduled since the last successful open. */
  function Streak(history: seq<Happening>): nat {
    if history == [] then 0
    else
      var n := |history| - 1;
      match history[n]
      case Opened => 0
      case Retry(_) => Streak(history[..n]) + 1
      case _ => Streak(history[..n])
  }

  /** Attempts are delayed by their number in the streak; a connection is reported lost once,
      straight after it opened (or when the first attempt fails), and before the first attempt
      to open another; nothing follows the end. */
  ghost predicate Proper(s: Settings, history: seq<Happening>) {
    forall i :: 0 <= i < |history| ==> ProperAt(s, history, i)
  }

  ghost predicate ProperAt(s: Settings, history: seq<Happening>, i: nat)
    requires i < |history|
  {
    match history[i]
    case Opened => i == 0 || !history[i - 1].Lost?
    case Lost => i == 0 || history[i - 1].Opened?
    case Retry(delay) =>
      && i > 0 && (history[i - 1].Lost? || history[i - 1].Retry?)
      && delay == Delay(s, Streak(history[..i]))
    case Ended => i == |history| - 1 && (i == 0 || !history[i - 1].Lost?)
  }

  lemma ProperGrows(s: Settings, history: seq<Happening>, h: Happening)
    requires Proper(s, history) && Ended !in history
    requires h.Lost? ==> history == [] || history[|history| - 1].Opened?
    requires h.Opened? || h.Ended? ==> history == [] || !history[|history| - 1].Lost?
    requires h.Retry? ==> history != [] && (history[|history| - 1].Lost? || history[|history| - 1].Retry?)
    requires h.Retry? ==> h.delay == Delay(s, Streak(history))
    ensures Proper(s, history + [h])
    ensures Streak(history + [h]) == if h.Opened? then 0 else Streak(history) + if h.Retry? then 1 else 0
    ensures !h.Ended? ==> Ended !in history + [h]
  {
    hide Delay;
    var next := history + [h];
    assert next[..|history|] == history;
    forall i | 0 <= i < |next| ensures ProperAt(s, next, i) {
      if i < |history| {
        ProperStays(s, history, h, i);
      }
    }
  }

  lemma ProperStays(s: Settings, history: seq<Happening>, h: Happening, i: nat)
    requires i < |history| && ProperAt(s, history, i) && !history[i].Ended?
    ensures ProperAt(s, history + [h], i)
  {
    hide Delay;
    assert (history + [h])[..i] == history[..i];
  }

  lemma {:induction false} StreakGrows(history: seq<Happening>, i: nat, j: nat)
    requires i <= j <= |history|
    requires forall k :: i <= k < j ==> !history[k].Opened?
    ensures Streak(history[..i]) <= Streak(history[..j])
    ensures i < j && history[i].Retry? ==> Streak(history[..i]) < Streak(history[..j])
    decreases j
  {
    if i < j {
      assert history[..j][..j - 1] == history[..j - 1];
      StreakGrows(history, i, j - 1);
    }
  }

  /** Within a streak of failures the delays never fall, and none exceeds the maximum. */
  lemma DelaysInStreak(s: Settings, history: seq<Happening>, i: nat, j: nat)
    requires s.reconnectInterval >= 0.0 && s.reconnectDecay >= 1.0
    requires Proper(s, history) && i <= j < |history| && history[i].Retry? && history[j].Retry?
    requires forall k :: i <= k < j ==> !history[k].Opened?
    ensures history[i].delay <= history[j].delay <= s.maxReconnectInterval
  {
    assert ProperAt(s, history, i) && ProperAt(s, history, j);
    StreakGrows(history, i, j);
    DelayGrows(s, Streak(history[..i]), Streak(history[..j]));
  }

  /** After an attempt that fails, the next one waits longer by the decay factor, up to the
      maximum. */
  lemma NextDelay(s: Settings, history: seq<Happening>, i: nat, j: nat)
    requires s.reconnectInterval >= 0.0 && s.reconnectDecay >= 1.0 && s.maxReconnectInterval >= 0.0
    requires Proper(s, history) && i < j < |history| && history[i].Retry? && history[j].Retry?
    requires forall k :: i < k < j ==> !history[k].Opened? && !history[k].Retry?
    ensures var longer := s.reconnectDecay * history[i].delay;
      history[j].delay == if longer > s.maxReconnectInterval then s.maxReconnectInterval else longer
  {
    assert ProperAt(s, history, i) && ProperAt(s, history, j);
    assert history[..i + 1][..i] == history[..i];
    SameStreak(history, i + 1, j);
    DelayDecays(s, Streak(history[..i]));
  }

  lemma DelayDecays(s: Settings, n: nat)
    requires s.reconnectInterval >= 0.0 && s.reconnectDecay >= 1.0 && s.maxReconnectInterval >= 0.0
    ensures var longer := s.reconnectDecay * Delay(s, n);
      Delay(s, n + 1) == if longer > s.maxReconnectInterval then s.maxReconnectInterval else longer
  {
    var timeout := s.reconnectInterval * Pow(s.reconnectDecay, n);
    assert s.reconnectInterval * (s.reconnectDecay * Pow(s.reconnectDecay, n)) == s.reconnectDecay * timeout;
    var max := s.maxReconnectInterval;
    AtLeast(s.reconnectDecay, max);
    if timeout > max {
      Scaled(s.reconnectDecay, max, timeout);
    }
  }

  lemma AtLeast(factor: real, x: real)
    requires factor >= 1.0 && x >= 0.0
    ensures factor * x >= x
  {
    assert (factor - 1.0) * x >= 0.0;
  }

  lemma {:induction false} SameStreak(history: seq<Happening>, i: nat, j: nat)
    requires i <= j <= |history|
    requires forall k :: i <= k < j ==> !history[k].Opened? && !history[k].Retry?
    ensures Streak(history[..j]) == Streak(history[..i])
    decreases j
  {
    if i < j {
      assert history[..j][..j - 1] == history[..j - 1];
      SameStreak(history, i, j - 1);
    }
  }

  /** The first attempt after a successful open, or ever, waits for the base interval. */
  lemma DelayAfterOpen(s: Settings, history: seq<Happening>, i: nat, j: nat)
    requires Proper(s, history) && i <= j < |history| && history[j].Retry?
    requires i == 0 || history[i - 1].Opened?
    requires forall k :: i <= k < j ==> !history[k].Opened? && !history[k].Retry?
    ensures history[j].delay ==
            if s.reconnectInterval > s.maxReconnectInterval then s.maxReconnectInterval else s.reconnectInterval
  {
    NoRetries(history, i, j);
    assert ProperAt(s, history, j);
    assert s.reconnectInterval * Pow(s.reconnectDecay, 0) == s.reconnectInterval;
  }

  lemma NoRetries(history: seq<Happening>, i: nat, j: nat)
    requires i <= j <= |history|
    requires i == 0 || history[i - 1].Opened?
    requires forall k :: i <= k < j ==> !history[k].Opened? && !history[k].Retry?
    ensures Streak(history[..j]) == 0
  {
    SameStreak(history, i, j);
    assert i > 0 ==> history[..i][|history[..i]| - 1].Opened?;
  }

  // ---------- the client ----------

  class ReconnectingWebSocket {
    const settings: Settings
    var readyState: ReadyState
    var reconnectAttempts: nat
    var ws: Option<nat>          // which of the sockets
    var forcedClose: bool
    var timedOut: bool

    // what the client has asked the browser for
    var sockets: seq<Socket>
    var reconnectTimers: nat     // pending calls of open(true)
    var history: seq<Happening>

    ghost var limit: nat         // sockets there will be, once close() has been called

    /** Every socket but the one in ws has been closed. */
    ghost predicate OnlyLive()
      reads this
    {
      && (ws.Some? ==> ws.value < |sockets|)
      && forall k :: 0 <= k < |sockets| ==> (!sockets[k].closed <==> ws == Some(k))
    }

    /** The live socket is a reconnection attempt that has not opened. */
    ghost predicate IsRetry()
      reads this
    {
      ws.Some? && ws.value < |sockets| && sockets[ws.value].reconnectAttempt
    }

    /** The history fits the number of attempts and the socket in ws. */
    ghost predicate HistoryFits()
      reads this
    {
      && Proper(settings, history)
      && (readyState.CLOSED? <==> Ended in history)
      && (!readyState.CLOSED? ==> Streak(history) == reconnectAttempts + reconnectTimers)
      && (ws.Some? && ws.value < |sockets| && !sockets[ws.value].reconnectAttempt ==>
            history == [] || history[|history| - 1].Opened?)
      && (IsRetry() || reconnectTimers > 0 ==> history != [] && history[|history| - 1].Retry?)
      && (history != [] ==> !history[|history| - 1].Lost?)
    }

    ghost predicate Valid()
      reads this
    {
      && OnlyLive() && HistoryFits()
      && reconnectTimers == (if ws.None? && !readyState.CLOSED? then 1 else 0)
      && (readyState.CLOSED? ==> ws.None? && forcedClose)
      && !timedOut
      && (forcedClose ==> |sockets| + reconnectTimers == limit)
    }

    constructor (settings: Settings, listeners: seq<Call>)
      ensures Valid() && this.settings == settings && !readyState.CLOSED?
      ensures ws == Some(0) && |sockets| == 1 && history == [] && !IsRetry() && reconnectAttempts == 0
      ensures forcedClose <==> CallClose in listeners
    {
      this.settings := settings;
      reconnectAttempts, readyState, ws, forcedClose, timedOut := 0, CONNECTING, None, false, false;
      sockets, reconnectTimers, history, limit := [], 0, [], 0;
      new;
      Open(false, listeners);
    }

    /** listeners: what the listeners of the connecting event do. */
    method Open(reconnectAttempt: bool, listeners: seq<Call>)
      requires ws.None? && OnlyLive() && HistoryFits() && reconnectTimers == 0 && !readyState.CLOSED? && !timedOut
      requires if reconnectAttempt then history != [] && history[|history| - 1].Retry? else history == []
      requires forcedClose ==> |sockets| + 1 == limit
      modifies this
      ensures Valid() && readyState == old(readyState) && history == old(history)
      ensures reconnectAttempts == old(reconnectAttempts)
      ensures |sockets| == |old(sockets)| + 1 && ws == Some(|old(sockets)|) && IsRetry() == reconnectAttempt
      ensures forcedClose == (old(forcedClose) || (!reconnectAttempt && CallClose in listeners))
      ensures old(forcedClose) ==> limit == old(limit)
    {
      ws := Some(|sockets|);
      sockets := sockets + [Socket(reconnectAttempt, true, false, false)];
      if !reconnectAttempt {
        Dispatch(listeners);
      }
    }

    /** Listeners may close or refresh; that changes no more than what the client wants and
        what it has asked its socket. */
    method Dispatch(listeners: seq<Call>)
      requires OnlyLive()
      requires forcedClose ==> limit == Limit()
      modifies `forcedClose, `limit, `sockets
      ensures OnlyLive() && OnlyAsked(old(sockets))
      ensures forcedClose == (old(forcedClose) || CallClose in listeners)
      ensures old(forcedClose) ==> limit == old(limit)
      ensures forcedClose ==> limit == Limit()
    {
      for i := 0 to |listeners|
        invariant OnlyLive() && OnlyAsked(old(sockets))
        invariant forcedClose == (old(forcedClose) || CallClose in listeners[..i])
        invariant old(forcedClose) ==> limit == old(limit)
        invariant forcedClose ==> limit == Limit()
      {
        match listeners[i] {
          case CallClose => Close();
          case CallRefresh => Refresh();
        }
      }
    }

    /** How many sockets there will be if none is wanted beyond a pending or imminent attempt. */
    ghost function Limit(): nat
      reads this
    {
      |sockets| + if ws.None? && !readyState.CLOSED? then 1 else 0
    }

    ghost predicate OnlyAsked(before: seq<Socket>)
      reads this
    {
      && |sockets| == |before|
      && forall k :: 0 <= k < |sockets| ==> sockets[k] == before[k].(closeAsked := sockets[k].closeAsked)
    }

    /** The native close() of a socket; its event comes later. */
    method CloseSocket(k: nat)
      requires k < |sockets|
      modifies `sockets
      ensures OnlyAsked(old(sockets))
      ensures forall i :: 0 <= i < |sockets| ==>
        sockets[i].closeAsked == (old(sockets)[i].closeAsked || (i == k && !sockets[k].closed))
    {
      if !sockets[k].closed {
        sockets := sockets[k := sockets[k].(closeAsked := true)];
      }
    }

    /** From the first call on, the sockets there will be are those there are, and one more
        only if the client was between two attempts. */
    method Close()
      requires OnlyLive()
      requires forcedClose ==> limit == Limit()
      modifies `forcedClose, `limit, `sockets
      ensures OnlyLive() && OnlyAsked(old(sockets)) && forcedClose && limit == Limit()
      ensures old(forcedClose) ==> limit == old(limit)
      ensures ws.Some? ==> sockets[ws.value].closeAsked
    {
      if !forcedClose {
        limit := Limit();
      }
      forcedClose := true;
      if ws.Some? {
        CloseSocket(ws.value);
      }
    }

    method Refresh()
      requires OnlyLive()
      modifies `sockets
      ensures OnlyLive() && OnlyAsked(old(sockets))
      ensures ws.Some? ==> sockets[ws.value].closeAsked
    {
      if ws.Some? {
        CloseSocket(ws.value);
      }
    }

    /** The connection timeout of a socket, which onclose does not clear. */
    method OnConnectTimeout(k: nat)
      requires Valid() && k < |sockets| && sockets[k].connectTimer
      modifies `timedOut, `sockets
      ensures Valid() && ws == old(ws) && |sockets| == |old(sockets)|
      ensures forall i :: 0 <= i < |sockets| && i != k ==> sockets[i] == old(sockets)[i]
      ensures var socket := old(sockets)[k];
        sockets[k] == socket.(connectTimer := false, closeAsked := socket.closeAsked || ws == Some(k))
    {
      sockets := sockets[k := sockets[k].(connectTimer := false)];
      timedOut := true;
      CloseSocket(k);
      timedOut := false;
    }

    method OnOpen(k: nat, listeners: seq<Call>)
      requires Valid() && k < |sockets| && !sockets[k].closed
      modifies this
      ensures Valid() && readyState == OPEN && reconnectAttempts == 0
      ensures history == old(history) + [Opened] && ws == old(ws) && |sockets| == |old(sockets)| && !IsRetry()
      ensures forcedClose == (old(forcedClose) || CallClose in listeners)
      ensures old(forcedClose) ==> forcedClose && limit == old(limit)
    {
      sockets := sockets[k := sockets[k].(connectTimer := false, reconnectAttempt := false)];
      readyState := OPEN;
      reconnectAttempts := 0;
      ProperGrows(settings, history, Opened);
      history := history + [Opened];
      Dispatch(listeners);
    }

    method OnClose(k: nat, onConnecting: seq<Call>, onClose: seq<Call>)
      requires Valid() && k < |sockets| && !sockets[k].closed
      modifies this
      ensures Valid() && ws.None? && |sockets| == |old(sockets)|
      ensures readyState == if old(forcedClose) then CLOSED else CONNECTING
      ensures reconnectAttempts == old(reconnectAttempts)
      ensures forcedClose == (old(forcedClose) || CallClose in onConnecting
                              || (!old(sockets)[k].reconnectAttempt && CallClose in onClose))
      ensures old(forcedClose) ==> forcedClose && limit == old(limit) && history == old(history) + [Ended]
      ensures !old(forcedClose) ==>
        history == old(history) + (if old(sockets)[k].reconnectAttempt then [] else [Lost])
                   + [Retry(Delay(settings, old(reconnectAttempts)))]
    {
      hide Delay, Proper, Streak;
      var reconnectAttempt := sockets[k].reconnectAttempt;
      sockets := sockets[k := sockets[k].(closed := true)];
      ws := None;
      if forcedClose {
        readyState := CLOSED;
        ProperGrows(settings, history, Ended);
        history := history + [Ended];
        Dispatch(onClose);
      } else {
        readyState := CONNECTING;
        Dispatch(onConnecting);
        if !reconnectAttempt && !timedOut {
          ProperGrows(settings, history, Lost);
          history := history + [Lost];
          Dispatch(onClose);
        }
        var delay := Delay(settings, reconnectAttempts);
        ProperGrows(settings, history, Retry(delay));
        history := history + [Retry(delay)];
        reconnectTimers := reconnectTimers + 1;
      }
    }

    method OnReconnectTimer()
      requires Valid() && reconnectTimers > 0
      modifies this
      ensures Valid() && ws == Some(|old(sockets)|) && |sockets| == |old(sockets)| + 1
      ensures reconnectAttempts == old(reconnectAttempts) + 1 && history == old(history)
      ensures IsRetry() && forcedClose == old(forcedClose)
      ensures old(forcedClose) ==> forcedClose && limit == old(limit)
    {
      reconnectTimers := reconnectTimers - 1;
      reconnectAttempts := reconnectAttempts + 1;
      Open(true, []);
    }
  }

  // ---------- every run ----------

  ghost function LiveSockets(c: ReconnectingWebSocket): set<nat>
    reads c
  {
    set k: nat | k < |c.sockets| && !c.sockets[k].closed
  }

  /** Until it is CLOSED the client has exactly one of a live socket and a pending timer; then neither. */
  lemma OneOrTheOther(c: ReconnectingWebSocket)
    requires c.Valid()
    ensures |LiveSockets(c)| + c.reconnectTimers == if c.readyState.CLOSED? then 0 else 1
  {
    assert LiveSockets(c) == if c.ws.Some? then {c.ws.value} else {};
  }

  datatype Step =
    | Opening(listeners: seq<Call>)
    | Closing(onConnecting: seq<Call>, onClose: seq<Call>)
    | ConnectTimeout(socket: nat)
    | ReconnectTimer
    | Calling(call: Call)

  /** What steps come to: whether a socket is live, and is a retry that has not opened; the
      attempts; whether close() has been called; and all that happened. */
  datatype Client = Client(live: bool, retry: bool, attempts: nat, forced: bool, history: seq<Happening>)

  function Stepped(settings: Settings, c: Client, step: Step): Client {
    match step
    case Opening(calls) =>
      if !c.live then c
      else Client(true, false, 0, c.forced || CallClose in calls, c.history + [Opened])
    case Closing(onConnecting, onClose) =>
      if !c.live then c
      else if c.forced then Client(false, false, c.attempts, true, c.history + [Ended])
      else
        Client(false, false, c.attempts, CallClose in onConnecting || (!c.retry && CallClose in onClose),
               c.history + (if c.retry then [] else [Lost]) + [Retry(Delay(settings, c.attempts))])
    case ConnectTimeout(_) => c
    case ReconnectTimer =>
      if c.live || Ended in c.history then c else c.(live := true, retry := true, attempts := c.attempts + 1)
    case Calling(call) => c.(forced := c.forced || call == CallClose)
  }

  function ClientAfter(settings: Settings, listeners: seq<Call>, steps: seq<Step>): Client {
    if steps == [] then Client(true, false, 0, CallClose in listeners, [])
    else
      var n := |steps| - 1;
      Stepped(settings, ClientAfter(settings, listeners, steps[..n]), steps[n])
  }

  ghost predicate Shows(c: ReconnectingWebSocket, v: Client)
    reads c
  {
    && c.ws.Some? == v.live && c.IsRetry() == v.retry && c.reconnectAttempts == v.attempts
    && c.forcedClose == v.forced && c.history == v.history
  }

  /** One browser event (only when it can happen) or call. */
  method Take(c: ReconnectingWebSocket, step: Step, ghost v: Client)
    requires c.Valid() && Shows(c, v)
    modifies c
    ensures c.Valid() && Shows(c, Stepped(c.settings, v, step))
  {
    hide Delay, Proper, Streak;
    match step
    case Opening(calls) =>
      if c.ws.Some? {
        c.OnOpen(c.ws.value, calls);
      }
    case Closing(onConnecting, onClose) =>
      if c.ws.Some? {
        c.OnClose(c.ws.value, onConnecting, onClose);
      }
    case ConnectTimeout(k) =>
      if k < |c.sockets| && c.sockets[k].connectTimer {
        c.OnConnectTimeout(k);
      }
    case ReconnectTimer =>
      if c.reconnectTimers > 0 {
        c.OnReconnectTimer();
      }
    case Calling(call) =>
      c.Dispatch([call]);
  }

  /** Any sequence of browser events and calls: what happens is what the steps come to. */
  method Drive(settings: Settings, listeners: seq<Call>, steps: seq<Step>) returns (c: ReconnectingWebSocket)
    ensures c.Valid() && c.settings == settings && Shows(c, ClientAfter(settings, listeners, steps))
    ensures |LiveSockets(c)| + c.reconnectTimers == if c.readyState.CLOSED? then 0 else 1
    ensures Proper(settings, c.history)
  {
    c := new ReconnectingWebSocket(settings, listeners);
    hide Stepped;
    for i := 0 to |steps|
      invariant fresh(c) && c.Valid() && c.settings == settings
      invariant Shows(c, ClientAfter(settings, listeners, steps[..i]))
    {
      assert steps[..i + 1][..i] == steps[..i];
      Take(c, steps[i], ClientAfter(settings, listeners, steps[..i]));
    }
    assert steps[..|steps|] == steps;
    OneOrTheOther(c);
  }

  /** close() between two attempts does not stop the pending one: the client can be OPEN afterwards. */
  method CloseBetweenAttempts(settings: Settings) returns (c: ReconnectingWebSocket)
    ensures c.Valid() && c.forcedClose && c.readyState == OPEN && c.reconnectTimers == 0
  {
    hide Delay, Proper, Streak;
    c := new ReconnectingWebSocket(settings, []);
    c.OnClose(0, [], []);
    c.Close();
    c.OnReconnectTimer();
    c.OnOpen(1, []);
  }
}
