/** A device's connection: the queue that allows one write in flight, the framing of raw and
    in-session messages by newlines, and what each end reads from the other. */
module DeviceWire {
  import opened HexCoding
  import opened Wrappers

  /** What has been asked to be sent, before and within a session. */
  datatype Outgoing = Plain(text: Bytes) | InSession(message: Bytes)

  datatype Notice = Connected | Disconnected

  // ---------- frames ----------

  /** What send_raw puts in the queue; hex_encode's buffer counts its NUL. */
  ghost function Entry(o: Outgoing): Bytes {
    match o
    case Plain(text) => text
    case InSession(message) => Hex(message) + [0]
  }

  /** A C string: the bytes before the first NUL. */
  function CString(s: Bytes): (text: Bytes)
    ensures |text| <= |s| && 0 !in text && text <= s
    ensures |text| < |s| ==> s[|text|] == 0
  {
    if s == [] || s[0] == 0 then [] else [s[0]] + CString(s[1..])
  }

  ghost function Line(o: Outgoing): Bytes {
    CString(Entry(o))
  }

  ghost function Entries(os: seq<Outgoing>): (entries: seq<Bytes>)
    ensures |entries| == |os| && forall i :: 0 <= i < |os| ==> entries[i] == Entry(os[i])
  {
    if os == [] then [] else Entries(os[..|os| - 1]) + [Entry(os[|os| - 1])]
  }

  ghost function Lines(os: seq<Outgoing>): (lines: seq<Bytes>)
    ensures |lines| == |os| && forall i :: 0 <= i < |os| ==> lines[i] == Line(os[i])
  {
    if os == [] then [] else [Line(os[0])] + Lines(os[1..])
  }

  /** The frames of the given messages, one after the other. */
  ghost function Stream(os: seq<Outgoing>): Bytes {
    if os == [] then [] else Line(os[0]) + [NEWLINE] + Stream(os[1..])
  }

  lemma {:induction false} StreamJoins(a: seq<Outgoing>, b: seq<Outgoing>)
    ensures Stream(a + b) == Stream(a) + Stream(b)
  {
    hide Line;
    if a == [] {
      assert a + b == b;
    } else {
      var line := Line(a[0]) + [NEWLINE];
      calc {
        Stream(a + b);
        { assert (a + b)[1..] == a[1..] + b; }
        line + Stream(a[1..] + b);
        { StreamJoins(a[1..], b); }
        line + (Stream(a[1..]) + Stream(b));
        { Joins(line, Stream(a[1..]), Stream(b)); }
        line + Stream(a[1..]) + Stream(b);
        Stream(a) + Stream(b);
      }
    }
  }

  // ---------- the stream cut at newlines ----------

  function IndexOf(s: Bytes, b: Byte): (i: nat)
    requires b in s
    ensures i < |s| && s[i] == b && b !in s[..i]
  {
    if s[0] == b then 0 else 1 + IndexOf(s[1..], b)
  }

  /** The complete lines of what has arrived. */
  function Split(s: Bytes): seq<Bytes>
    decreases |s|
  {
    if NEWLINE !in s then []
    else
      var i := IndexOf(s, NEWLINE);
      [s[..i]] + Split(s[i + 1..])
  }

  lemma {:induction false} IndexAfter(line: Bytes, b: Byte, rest: Bytes)
    requires b !in line
    ensures b in line + [b] + rest
    ensures IndexOf(line + [b] + rest, b) == |line|
  {
    assert (line + [b] + rest)[|line|] == b;
    if line != [] {
      IndexAfter(line[1..], b, rest);
      assert (line + [b] + rest)[1..] == line[1..] + [b] + rest;
    }
  }

  lemma SplitLine(line: Bytes, rest: Bytes)
    requires NEWLINE !in line
    ensures Split(line + [NEWLINE] + rest) == [line] + Split(rest)
  {
    IndexAfter(line, NEWLINE, rest);
    var s := line + [NEWLINE] + rest;
    assert s[..|line|] == line && s[|line| + 1..] == rest;
  }

  ghost predicate NoNewline(os: seq<Outgoing>) {
    forall i :: 0 <= i < |os| && os[i].Plain? ==> NEWLINE !in os[i].text
  }

  lemma {:induction false} TextBeforeNul(text: Bytes)
    requires 0 !in text
    ensures CString(text + [0]) == text
  {
    if text != [] {
      TextBeforeNul(text[1..]);
      assert (text + [0])[1..] == text[1..] + [0];
    }
  }

  lemma LineHasNoNewline(o: Outgoing)
    requires o.Plain? ==> NEWLINE !in o.text
    ensures NEWLINE !in Line(o)
    ensures o.InSession? ==> Line(o) == Hex(o.message)
  {
    if o.InSession? {
      HexIsText(o.message);
      TextBeforeNul(Hex(o.message));
    }
  }

  /** However much of the stream has arrived, its complete lines are the first of the lines
      sent, and all of them once all of it has arrived. */
  lemma {:induction false} StreamSplits(os: seq<Outgoing>, arrived: Bytes)
    requires NoNewline(os) && arrived <= Stream(os)
    ensures Split(arrived) <= Lines(os)
    ensures arrived == Stream(os) ==> Split(arrived) == Lines(os)
    decreases |os|
  {
    if os != [] {
      var line := Line(os[0]);
      LineHasNoNewline(os[0]);
      hide Line;
      if |arrived| <= |line| {
        StreamBegins(line, Stream(os[1..]), arrived);
        assert NEWLINE !in arrived;
      } else {
        var rest := arrived[|line| + 1..];
        StreamContinues(line, Stream(os[1..]), arrived);
        SplitLine(line, rest);
        StreamSplits(os[1..], rest);
      }
    }
  }

  lemma StreamBegins(line: Bytes, more: Bytes, arrived: Bytes)
    requires arrived <= line + [NEWLINE] + more && |arrived| <= |line|
    ensures arrived <= line
  {
    assert arrived == (line + [NEWLINE] + more)[..|arrived|] == line[..|arrived|];
  }

  lemma StreamContinues(line: Bytes, more: Bytes, arrived: Bytes)
    requires arrived <= line + [NEWLINE] + more && |arrived| > |line|
    ensures arrived == line + [NEWLINE] + arrived[|line| + 1..]
    ensures arrived[|line| + 1..] <= more
    ensures arrived == line + [NEWLINE] + more ==> arrived[|line| + 1..] == more
  {
    var whole := line + [NEWLINE] + more;
    assert arrived == whole[..|arrived|];
    assert whole[|line| + 1..] == more;
    assert arrived[|line| + 1..] == more[..|arrived| - |line| - 1];
    assert arrived[..|line| + 1] == line + [NEWLINE];
  }

  // ---------- the device's end ----------

  /** The device hands a line with its newline to hex_decode. */
  ghost function ReadByDevice(line: Bytes): Bytes {
    Decoded(line + [NEWLINE], DecodedLength(|line| + 1))
  }

  ghost function Received(lines: seq<Bytes>): (messages: seq<Bytes>)
    ensures |messages| == |lines| && forall i :: 0 <= i < |lines| ==> messages[i] == ReadByDevice(lines[i])
  {
    if lines == [] then [] else [ReadByDevice(lines[0])] + Received(lines[1..])
  }

  ghost function Session(messages: seq<Bytes>): (os: seq<Outgoing>)
    ensures |os| == |messages| && forall i :: 0 <= i < |os| ==> os[i] == InSession(messages[i])
  {
    if messages == [] then [] else [InSession(messages[0])] + Session(messages[1..])
  }

  lemma LineRead(message: Bytes)
    ensures ReadByDevice(Line(InSession(message))) == message
  {
    LineHasNoNewline(InSession(message));
    HexLength(message);
    DecodesPrefix(message, [NEWLINE], |message|);
    assert message[..|message|] == message;
  }

  /** Whatever part of the stream has arrived since the session began, the device has read the
      exact bytes of the first messages sent in it, and of all once all has arrived. */
  lemma DeviceReceives(before: seq<Outgoing>, messages: seq<Bytes>, arrived: Bytes)
    requires arrived <= Stream(before + Session(messages)) && |Stream(before)| <= |arrived|
    ensures Received(Split(arrived[|Stream(before)|..])) <= messages
    ensures arrived == Stream(before + Session(messages)) ==> Received(Split(arrived[|Stream(before)|..])) == messages
  {
    var os := Session(messages);
    StreamJoins(before, os);
    var rest := arrived[|Stream(before)|..];
    assert rest <= Stream(os);
    StreamSplits(os, rest);
    var lines := Split(rest);
    forall i | 0 <= i < |lines| ensures Received(lines)[i] == messages[i] {
      assert lines[i] == Lines(os)[i];
      LineRead(messages[i]);
    }
  }

  // ---------- the server's end ----------

  /** What process_input dispatches in a session for the n bytes of one read. */
  ghost function ReadByServer(input: Bytes): Bytes
    requires input != []
  {
    Decoded(input, DecodedLength(|input| - 1))
  }

  /** Of a read that starts with an encoded message, the server gets the message itself exactly
      if two to four bytes follow (a device sends the NUL and one byte more); after the one
      newline that ends the server's own frames, its last byte would be lost. */
  lemma ServerReads(message: Bytes, tail: Bytes)
    requires Hex(message) + tail != []
    ensures ReadByServer(Hex(message) + tail) == message <==> |tail| <= 4 && (message == [] || 2 <= |tail|)
    ensures |tail| == 1 && message != [] ==> ReadByServer(Hex(message) + tail) == message[..|message| - 1]
  {
    hide Hex, ReadByServer;
    ReadOf(message, tail);
    CountRead(message, tail);
  }

  /** What is read agrees with the message as far as both go. */
  lemma ReadOf(message: Bytes, tail: Bytes)
    requires Hex(message) + tail != []
    ensures |ReadByServer(Hex(message) + tail)| == DecodedLength(|Hex(message) + tail| - 1)
    ensures |ReadByServer(Hex(message) + tail)| <= |message| ==>
      ReadByServer(Hex(message) + tail) == message[..|ReadByServer(Hex(message) + tail)|]
    ensures |ReadByServer(Hex(message) + tail)| == |message| <==> ReadByServer(Hex(message) + tail) == message
  {
    hide Hex, Decoded, DecodedLength;
    var read := ReadByServer(Hex(message) + tail);
    DecodedSize(Hex(message) + tail, DecodedLength(|Hex(message) + tail| - 1));
    if |read| <= |message| {
      DecodesPrefix(message, tail, |read|);
      assert message[..|message|] == message;
    }
  }

  lemma CountRead(message: Bytes, tail: Bytes)
    requires Hex(message) + tail != []
    ensures |ReadByServer(Hex(message) + tail)| == |message| <==> |tail| <= 4 && (message == [] || 2 <= |tail|)
    ensures |tail| == 1 && message != [] ==> |ReadByServer(Hex(message) + tail)| == |message| - 1
  {
    hide Hex, Decoded;
    HexLength(message);
    DecodedSize(Hex(message) + tail, DecodedLength(|Hex(message) + tail| - 1));
  }

  lemma DecodedSize(input: Bytes, count: nat)
    ensures |Decoded(input, count)| == count
  {
  }

  // ---------- the connection ----------

  /** How many writes have begun. */
  function Begun(queue: seq<Bytes>, acknowledged: nat): nat {
    acknowledged + if queue == [] then 0 else 1
  }

  /** The queue holds the messages not yet acknowledged; the wire has been given the frames of
      the acknowledged ones and of the head of the queue, whose write is in flight unless it
      has failed. */
  ghost predicate InOrder(queue: seq<Bytes>, wire: Bytes, writesInFlight: nat,
                          sent: seq<Outgoing>, acknowledged: nat, failed: bool) {
    && acknowledged <= |sent| && queue == Entries(sent[acknowledged..])
    && wire == Stream(sent[..Begun(queue, acknowledged)])
    && writesInFlight == (if queue == [] || failed then 0 else 1)
    && (failed ==> queue != [])
  }

  /** Sending a message while the queue is empty begins its write, and otherwise only queues it. */
  lemma Queued(queue: seq<Bytes>, wire: Bytes, writesInFlight: nat,
               sent: seq<Outgoing>, acknowledged: nat, failed: bool, o: Outgoing)
    requires InOrder(queue, wire, writesInFlight, sent, acknowledged, failed)
    ensures queue != [] ==> InOrder(queue + [Entry(o)], wire, writesInFlight, sent + [o], acknowledged, failed)
    ensures queue == [] ==>
      InOrder(queue + [Entry(o)], wire + Line(o) + [NEWLINE], writesInFlight + 1, sent + [o], acknowledged, failed)
  {
    hide Entry, Line;
    var sent' := sent + [o];
    assert sent'[acknowledged..] == sent[acknowledged..] + [o];
    assert (sent[acknowledged..] + [o])[..|sent| - acknowledged] == sent[acknowledged..];
    if queue == [] {
      assert sent[..acknowledged] == sent;
      StreamOneMore(sent', acknowledged);
    } else {
      assert sent'[..acknowledged + 1] == sent[..acknowledged + 1];
    }
  }

  lemma StreamOneMore(sent: seq<Outgoing>, n: nat)
    requires n < |sent|
    ensures Stream(sent[..n + 1]) == Stream(sent[..n]) + Line(sent[n]) + [NEWLINE]
  {
    hide Line;
    assert sent[..n + 1] == sent[..n] + [sent[n]];
    StreamJoins(sent[..n], [sent[n]]);
    assert Stream([sent[n]]) == Line(sent[n]) + [NEWLINE] + Stream([]);
  }

  /** A successful write takes its message off the queue, and begins the next one's. */
  lemma Popped(queue: seq<Bytes>, wire: Bytes, writesInFlight: nat,
               sent: seq<Outgoing>, acknowledged: nat, failed: bool)
    requires InOrder(queue, wire, writesInFlight, sent, acknowledged, failed) && writesInFlight > 0
    ensures |queue| == 1 ==> InOrder(queue[1..], wire, 0, sent, acknowledged + 1, failed)
    ensures |queue| > 1 ==>
      InOrder(queue[1..], wire + CString(queue[1]) + [NEWLINE], 1, sent, acknowledged + 1, failed)
  {
    hide Entry, CString;
    assert sent[acknowledged..][1..] == sent[acknowledged + 1..];
    assert queue[1..] == Entries(sent[acknowledged + 1..]);
    if |queue| > 1 {
      StreamOneMore(sent, acknowledged + 1);
    }
  }

  class DeviceConnection {
    var messageQueue: seq<Bytes>
    var sessionStarted: bool
    var open: bool
    var notices: seq<Notice>     // events posted
    var wire: Bytes              // handed to async_write
    var writesInFlight: nat      // async_writes whose handler has not run

    ghost var sent: seq<Outgoing>
    ghost var acknowledged: nat  // writes that succeeded
    ghost var failed: bool       // a write has failed

    ghost predicate Valid()
      reads this
    {
      InOrder(messageQueue, wire, writesInFlight, sent, acknowledged, failed)
    }

    /** No operation takes anything back, and after a failed write nothing more is written. */
    ghost predicate Follows(sent0: seq<Outgoing>, wire0: Bytes, failed0: bool)
      reads this
    {
      sent0 <= sent && wire0 <= wire && (failed0 ==> failed && wire == wire0)
    }

    constructor ()
      ensures Valid() && sent == [] && wire == [] && acknowledged == 0 && !failed
      ensures !sessionStarted && open && notices == []
    {
      messageQueue, wire, writesInFlight, notices := [], [], 0, [];
      sessionStarted, open := false, true;
      sent, acknowledged, failed := [], 0, false;
    }

    /** Starts writing the head of the queue. */
    method Write()
      requires messageQueue != []
      modifies `wire, `writesInFlight
      ensures wire == old(wire) + CString(messageQueue[0]) + [NEWLINE]
      ensures writesInFlight == old(writesInFlight) + 1
    {
      var stream := CString(messageQueue[0]) + [NEWLINE];
      var length := |messageQueue[0]| + 1;
      // asio::buffer(string, length) stops at the end of the string
      wire := wire + stream[..if length < |stream| then length else |stream|];
      writesInFlight := writesInFlight + 1;
    }

    method SendRaw(msg: Bytes, ghost o: Outgoing)
      requires Valid() && msg == Entry(o)
      modifies `messageQueue, `wire, `writesInFlight, `sent
      ensures Valid() && sent == old(sent) + [o]
      ensures Follows(old(sent), old(wire), old(failed))
    {
      hide InOrder, Entry;
      Queued(messageQueue, wire, writesInFlight, sent, acknowledged, failed, o);
      QueueNotEmptyAfterFailure();
      var writeInProgress := messageQueue != [];
      messageQueue := messageQueue + [msg];
      sent := sent + [o];
      if !writeInProgress {
        assert messageQueue[0] == msg;
        Write();
      }
    }

    lemma QueueNotEmptyAfterFailure()
      requires Valid()
      ensures failed ==> messageQueue != []
    {
    }

    method Send(msg: Bytes)
      requires Valid()
      modifies `messageQueue, `wire, `writesInFlight, `sent
      ensures Valid() && sent == old(sent) + [if sessionStarted then InSession(msg) else Plain(msg)]
      ensures Follows(old(sent), old(wire), old(failed))
    {
      if sessionStarted {
        SendCrypted(msg);
      } else {
        SendRaw(msg, Plain(msg));
      }
    }

    method SendCrypted(msg: Bytes)
      requires Valid()
      modifies `messageQueue, `wire, `writesInFlight, `sent
      ensures Valid() && sent == old(sent) + [InSession(msg)]
      ensures Follows(old(sent), old(wire), old(failed))
    {
      var hex := HexEncode(msg);
      SendRaw(hex[..], InSession(msg));
    }

    /** The handler of the one write in flight. */
    method HandleWrite(error: bool)
      requires Valid() && writesInFlight > 0
      modifies `messageQueue, `wire, `writesInFlight, `acknowledged, `failed
      ensures Valid() && failed == error
      ensures acknowledged == old(acknowledged) + if error then 0 else 1
      ensures Follows(sent, old(wire), false) && (error ==> wire == old(wire))
    {
      hide CString, Entry;
      Popped(messageQueue, wire, writesInFlight, sent, acknowledged, failed);
      writesInFlight := writesInFlight - 1;
      if error {
        failed := true;
        return;
      }
      hide InOrder;
      messageQueue := messageQueue[1..];
      acknowledged := acknowledged + 1;
      if messageQueue != [] {
        Write();
      }
    }

    method Close()
      modifies `open, `notices
      ensures !open && notices == old(notices) + if sessionStarted then [Disconnected] else []
    {
      open := false;
      if sessionStarted {
        notices := notices + [Disconnected];
      }
    }

    /** found: the device is in the database; sessionString: of the new block cipher. */
    method CreateSession(found: bool, sessionString: Bytes) returns (created: bool)
      requires Valid()
      modifies this
      ensures Valid() && created == found
      ensures sessionStarted == (old(sessionStarted) || found) && open == old(open)
      ensures var text := if found then sessionString else NotAcceptable();
        sent == old(sent) + [if old(sessionStarted) then InSession(text) else Plain(text)]
      ensures notices == old(notices) + if found then [Connected] else []
      ensures acknowledged == old(acknowledged) && failed == old(failed)
      ensures Follows(old(sent), old(wire), old(failed))
    {
      hide InOrder, NotAcceptable;
      if !found {
        Send(NotAcceptable());
        return false;
      }
      Send(sessionString);
      sessionStarted := true;
      notices := notices + [Connected];
      return true;
    }

    method ReactTo(r: Reaction)
      requires Valid()
      modifies this
      ensures Valid() && Follows(old(sent), old(wire), old(failed))
      ensures sent == old(sent) + Answers(old(sessionStarted), r)
      ensures sessionStarted == (old(sessionStarted) || (r.Creates? && r.found))
      ensures open == (old(open) && r != Closes)
      ensures notices == old(notices) + Notices(old(sessionStarted), r)
      ensures acknowledged == old(acknowledged) && failed == old(failed)
    {
      hide InOrder, NotAcceptable;
      match r
      case Sends(msg) => Send(msg);
      case Creates(found, sessionString) =>
        var _ := CreateSession(found, sessionString);
      case Closes => Close();
    }

    /** What the handler of a dispatched request does with the connection. */
    method React(reactions: seq<Reaction>)
      requires Valid()
      modifies this
      ensures Valid() && Follows(old(sent), old(wire), old(failed))
      ensures sent == old(sent) + SentBy(old(sessionStarted), reactions)
      ensures sessionStarted == SessionAfter(old(sessionStarted), reactions)
      ensures open == (old(open) && Closes !in reactions)
      ensures notices == old(notices) + NoticesBy(old(sessionStarted), reactions)
      ensures acknowledged == old(acknowledged) && failed == old(failed)
    {
      ghost var session, sent0, notices0 := sessionStarted, sent, notices;
      NoReactions(session, reactions);
      hide InOrder, SentBy, NoticesBy, SessionAfter, Answers, Notices;
      for i := 0 to |reactions|
        invariant Valid() && Follows(old(sent), old(wire), old(failed))
        invariant acknowledged == old(acknowledged) && failed == old(failed)
        invariant sent == sent0 + SentBy(session, reactions[..i])
        invariant sessionStarted == SessionAfter(session, reactions[..i])
        invariant open == (old(open) && Closes !in reactions[..i])
        invariant notices == notices0 + NoticesBy(session, reactions[..i])
      {
        ReactionsMore(session, reactions, i);
        Joins(sent0, SentBy(session, reactions[..i]), Answers(sessionStarted, reactions[i]));
        Joins(notices0, NoticesBy(session, reactions[..i]), Notices(sessionStarted, reactions[i]));
        ReactTo(reactions[i]);
      }
    }

    /** Dispatches the bytes of one read (up to where the buffer is zero). The request's
        handler reacts, and may throw: within a session that ends it. */
    method ProcessInput(input: Bytes, reactions: seq<Reaction>, failing: bool) returns (request: Bytes)
      requires Valid() && input != []
      modifies this
      ensures Valid() && Follows(old(sent), old(wire), old(failed))
      ensures request == if old(sessionStarted) then ReadByServer(input) else CString(input)
      ensures acknowledged == old(acknowledged) && failed == old(failed)
      ensures var refused := old(sessionStarted) && failing;
        && sent == old(sent) + SentBy(old(sessionStarted), reactions) + (if refused then [Plain(BadRequest())] else [])
        && sessionStarted == (SessionAfter(old(sessionStarted), reactions) && !refused)
        && open == (old(open) && Closes !in reactions && !refused)
        && notices == old(notices) + NoticesBy(old(sessionStarted), reactions)
    {
      hide InOrder, Ascii, Decoded, DecodedLength, Entry, SentBy, NoticesBy, BadRequest;
      if !sessionStarted {
        request := CString(input);
        React(reactions);
        return;
      }
      var clean := HexDecode(input, |input| - 1);
      request := clean[..];
      React(reactions);
      if failing {
        sessionStarted := false;
        Send(BadRequest());
        Close();
      }
    }
  }

  datatype Reaction = Sends(msg: Bytes) | Creates(found: bool, sessionString: Bytes) | Closes

  predicate SessionAfter(session: bool, reactions: seq<Reaction>) {
    if reactions == [] then session
    else
      var n := |reactions| - 1;
      SessionAfter(session, reactions[..n]) || (reactions[n].Creates? && reactions[n].found)
  }

  function Wrapped(session: bool, text: Bytes): Outgoing {
    if session then InSession(text) else Plain(text)
  }

  function Answers(session: bool, r: Reaction): seq<Outgoing> {
    match r
    case Sends(msg) => [Wrapped(session, msg)]
    case Creates(found, sessionString) => [Wrapped(session, if found then sessionString else NotAcceptable())]
    case Closes => []
  }

  function Notices(session: bool, r: Reaction): seq<Notice> {
    if r.Creates? && r.found then [Connected] else if r.Closes? && session then [Disconnected] else []
  }

  /** What the reactions send: encoded once a session has started. */
  function SentBy(session: bool, reactions: seq<Reaction>): seq<Outgoing> {
    if reactions == [] then []
    else
      var n := |reactions| - 1;
      SentBy(session, reactions[..n]) + Answers(SessionAfter(session, reactions[..n]), reactions[n])
  }

  function NoticesBy(session: bool, reactions: seq<Reaction>): seq<Notice> {
    if reactions == [] then []
    else
      var n := |reactions| - 1;
      NoticesBy(session, reactions[..n]) + Notices(SessionAfter(session, reactions[..n]), reactions[n])
  }

  lemma NoReactions(session: bool, reactions: seq<Reaction>)
    ensures SentBy(session, reactions[..0]) == [] && NoticesBy(session, reactions[..0]) == []
    ensures SessionAfter(session, reactions[..0]) == session && reactions[..|reactions|] == reactions
  {
  }

  lemma ReactionsMore(session: bool, reactions: seq<Reaction>, i: nat)
    requires i < |reactions|
    ensures var r, started := reactions[i], SessionAfter(session, reactions[..i]);
      && SessionAfter(session, reactions[..i + 1]) == (started || (r.Creates? && r.found))
      && SentBy(session, reactions[..i + 1]) == SentBy(session, reactions[..i]) + Answers(started, r)
      && NoticesBy(session, reactions[..i + 1]) == NoticesBy(session, reactions[..i]) + Notices(started, r)
      && (Closes in reactions[..i + 1] <==> Closes in reactions[..i] || r == Closes)
  {
    assert reactions[..i + 1][..i] == reactions[..i];
  }

  function NotAcceptable(): Bytes {
    Ascii("406 Not Acceptable")
  }

  function BadRequest(): Bytes {
    Ascii("400 Bad Request")
  }

  function Ascii(s: string): Bytes {
    seq(|s|, i requires 0 <= i < |s| => s[i] as int % 256)
  }

  // ---------- every run ----------

  datatype Operation =
    | Sending(msg: Bytes)
    | Written(error: bool)       // the handler of a write in flight
    | Reading(input: Bytes, reactions: seq<Reaction>, failing: bool)
    | CreatingSession(found: bool, sessionString: Bytes)
    | Closing

  ghost predicate WrittenInOrder(c: DeviceConnection)
    reads c
  {
    var n := Begun(c.messageQueue, c.acknowledged);
    n <= |c.sent| && c.wire == Stream(c.sent[..n])
  }

  lemma AtMostOneWrite(c: DeviceConnection)
    requires c.Valid()
    ensures c.writesInFlight <= 1 && WrittenInOrder(c)
  {
  }

  /** What operations come to: what has been sent, whether a session is on, how many writes
      have succeeded, and whether one has failed. */
  datatype Account = Account(sent: seq<Outgoing>, session: bool, acknowledged: nat, failed: bool)

  function Entered(a: Account, op: Operation): Account {
    match op
    case Sending(msg) => a.(sent := a.sent + [Wrapped(a.session, msg)])
    case Written(error) =>
      if a.failed || a.acknowledged >= |a.sent| then a
      else if error then a.(failed := true)
      else a.(acknowledged := a.acknowledged + 1)
    case Reading(input, reactions, failing) =>
      var refused := a.session && failing;
      if input == [] then a
      else
        a.(sent := a.sent + SentBy(a.session, reactions) + (if refused then [Plain(BadRequest())] else []),
           session := SessionAfter(a.session, reactions) && !refused)
    case CreatingSession(found, sessionString) =>
      a.(sent := a.sent + Answers(a.session, Creates(found, sessionString)), session := a.session || found)
    case Closing => a
  }

  function AccountOf(operations: seq<Operation>): Account {
    if operations == [] then Account([], false, 0, false)
    else
      var n := |operations| - 1;
      Entered(AccountOf(operations[..n]), operations[n])
  }

  ghost predicate Shows(c: DeviceConnection, a: Account)
    reads c
  {
    c.sent == a.sent && c.sessionStarted == a.session && c.acknowledged == a.acknowledged && c.failed == a.failed
  }

  lemma InFlightJustIf(c: DeviceConnection)
    requires c.Valid()
    ensures c.writesInFlight > 0 <==> !c.failed && c.acknowledged < |c.sent|
  {
  }

  /** One operation; a write's handler runs only while one is in flight. */
  method Operate(c: DeviceConnection, op: Operation, ghost a: Account)
    requires c.Valid() && Shows(c, a)
    modifies c
    ensures c.Valid() && Shows(c, Entered(a, op)) && old(c.wire) <= c.wire
  {
    hide InOrder, Entry, ReadByServer, CString, SentBy, NoticesBy, SessionAfter, BadRequest, NotAcceptable;
    InFlightJustIf(c);
    match op
    case Sending(msg) =>
      c.Send(msg);
    case Written(error) =>
      if c.writesInFlight > 0 {
        c.HandleWrite(error);
      }
    case Reading(input, reactions, failing) =>
      if input != [] {
        var _ := c.ProcessInput(input, reactions, failing);
      }
    case CreatingSession(found, sessionString) =>
      var _ := c.CreateSession(found, sessionString);
    case Closing =>
      c.Close();
  }

  /** Any sequence of operations on a new connection: what is sent, and how far it has been
      written, is what the operations come to; at most one write is ever in flight, and what
      has been written is the stream of the first messages sent, in order, also after a write
      has failed. */
  method Drive(operations: seq<Operation>) returns (c: DeviceConnection, wires: seq<Bytes>)
    ensures c.Valid() && c.writesInFlight <= 1 && WrittenInOrder(c) && Shows(c, AccountOf(operations))
    ensures |wires| == |operations| && forall i :: 0 <= i < |wires| ==> wires[i] <= c.wire
  {
    c := new DeviceConnection();
    wires := [];
    hide InOrder, Entered;
    for i := 0 to |operations|
      invariant c.Valid() && fresh(c) && Shows(c, AccountOf(operations[..i]))
      invariant |wires| == i && forall k :: 0 <= k < i ==> wires[k] <= c.wire
    {
      assert operations[..i + 1][..i] == operations[..i];
      Operate(c, operations[i], AccountOf(operations[..i]));
      wires := wires + [c.wire];
    }
    assert operations[..|operations|] == operations;
    AtMostOneWrite(c);
  }

  /** Frames in flight or lost by a failed write change nothing for the device: from the bytes
      that have reached it since the session began it reads the first messages sent in it. */
  lemma SessionDelivered(c: DeviceConnection, before: seq<Outgoing>, messages: seq<Bytes>, arrived: Bytes)
    requires c.Valid() && c.sent == before + Session(messages)
    requires arrived <= c.wire && |Stream(before)| <= |arrived|
    ensures Received(Split(arrived[|Stream(before)|..])) <= messages
    ensures arrived == c.wire && c.messageQueue == [] ==> Received(Split(arrived[|Stream(before)|..])) == messages
  {
    hide Session, Received, Split, Stream, Entry;
    var n := Begun(c.messageQueue, c.acknowledged);
    StreamJoins(c.sent[..n], c.sent[n..]);
    assert c.sent == c.sent[..n] + c.sent[n..];
    DeviceReceives(before, messages, arrived);
    if c.messageQueue == [] {
      assert c.sent[..n] == c.sent;
    }
  }
}
