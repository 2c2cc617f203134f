/** A session from beginning to end: what the server's operations send after a session has been
    created, and what the device reads of it. */
module DeviceSessions {
  import opened DeviceWire
  import opened HexCoding
  import opened Wrappers

  /** The operation does not end a session. */
  predicate KeepsSession(op: Operation) {
    op.Reading? && op.input != [] ==> !op.failing
  }

  /** What a handler asks to be sent, whatever state the connection is in. */
  function Spoken(reactions: seq<Reaction>): seq<Bytes> {
    if reactions == [] then []
    else
      var n := |reactions| - 1;
      Spoken(reactions[..n])
      + match reactions[n]
        case Sends(msg) => [msg]
        case Creates(found, sessionString) => [if found then sessionString else NotAcceptable()]
        case Closes => []
  }

  /** The messages that an operation asks to be sent. */
  function MessagesOf(op: Operation): seq<Bytes> {
    match op
    case Sending(msg) => [msg]
    case Reading(input, reactions, _) => if input == [] then [] else Spoken(reactions)
    case CreatingSession(found, sessionString) => [if found then sessionString else NotAcceptable()]
    case Written(_) => []
    case Closing => []
  }

  function Messages(operations: seq<Operation>): seq<Bytes> {
    if operations == [] then []
    else Messages(operations[..|operations| - 1]) + MessagesOf(operations[|operations| - 1])
  }

  lemma {:induction false} SessionJoins(a: seq<Bytes>, b: seq<Bytes>)
    ensures Session(a + b) == Session(a) + Session(b)
  {
    var os := Session(a) + Session(b);
    forall i | 0 <= i < |os| ensures Session(a + b)[i] == os[i] {
    }
  }

  /** Within a session everything that is sent is encoded. */
  lemma {:induction false} SpokenEncoded(reactions: seq<Reaction>)
    ensures SentBy(true, reactions) == Session(Spoken(reactions)) && SessionAfter(true, reactions)
  {
    if reactions != [] {
      var n := |reactions| - 1;
      SpokenEncoded(reactions[..n]);
      var spoken := match reactions[n]
        case Sends(msg) => [msg]
        case Creates(found, sessionString) => [if found then sessionString else NotAcceptable()]
        case Closes => [];
      assert Session(spoken) == Answers(true, reactions[n]);
      SessionJoins(Spoken(reactions[..n]), spoken);
    }
  }

  lemma OperationEncoded(a: Account, op: Operation)
    requires a.session && KeepsSession(op)
    ensures Entered(a, op).session && Entered(a, op).sent == a.sent + Session(MessagesOf(op))
  {
    hide SentBy, SessionAfter, Spoken;
    if op.Reading? && op.input != [] {
      SpokenEncoded(op.reactions);
      assert a.sent + SentBy(true, op.reactions) + [] == a.sent + SentBy(true, op.reactions);
    } else {
      assert a.sent + [] == a.sent && Session([]) == [];
      assert MessagesOf(op) != [] ==> Session(MessagesOf(op)) == [InSession(MessagesOf(op)[0])];
    }
  }

  /** After a session has been created, what is sent is the session string itself and then, as
      long as no request fails, every message encoded, in the order of the operations. */
  lemma SessionSends(operations: seq<Operation>, k: nat)
    requires k < |operations| && operations[k].CreatingSession? && operations[k].found
    requires !AccountOf(operations[..k]).session
    requires forall i :: k < i < |operations| ==> KeepsSession(operations[i])
    ensures var a := AccountOf(operations);
      && a.session
      && a.sent == AccountOf(operations[..k]).sent + [Plain(operations[k].sessionString)]
                   + Session(Messages(operations[k + 1..]))
  {
    assert operations[..|operations|] == operations && operations[k + 1..|operations|] == operations[k + 1..];
    SessionSendsTo(operations, k, |operations|);
  }

  lemma {:induction false} SessionSendsTo(operations: seq<Operation>, k: nat, n: nat)
    requires k < n <= |operations| && operations[k].CreatingSession? && operations[k].found
    requires !AccountOf(operations[..k]).session
    requires forall i :: k < i < n ==> KeepsSession(operations[i])
    ensures var a := AccountOf(operations[..n]);
      && a.session
      && a.sent == AccountOf(operations[..k]).sent + [Plain(operations[k].sessionString)]
                   + Session(Messages(operations[k + 1..n]))
    decreases n
  {
    hide AccountOf, Entered, MessagesOf, Session, KeepsSession, Messages;
    AccountMore(operations, n - 1);
    var start := AccountOf(operations[..k]);
    var before := start.sent + [Plain(operations[k].sessionString)];
    if k + 1 == n {
      assert operations[n..n] == [] && before + [] == before;
      SessionBegins(start, operations[k].sessionString);
    } else {
      SessionSendsTo(operations, k, n - 1);
      MessagesMore(operations, k + 1, n - 1);
      OperationEncoded(AccountOf(operations[..n - 1]), operations[n - 1]);
      var said, more := Messages(operations[k + 1..n - 1]), MessagesOf(operations[n - 1]);
      SessionJoins(said, more);
      Joins(before, Session(said), Session(more));
    }
  }

  lemma SessionBegins(a: Account, sessionString: Bytes)
    requires !a.session
    ensures var b := Entered(a, CreatingSession(true, sessionString));
      b.session && b.sent == a.sent + [Plain(sessionString)]
    ensures Messages([]) == [] && Session([]) == []
  {
  }

  lemma AccountMore(operations: seq<Operation>, n: nat)
    requires n < |operations|
    ensures AccountOf(operations[..n + 1]) == Entered(AccountOf(operations[..n]), operations[n])
  {
    hide Entered;
    assert operations[..n + 1][..n] == operations[..n];
  }

  lemma MessagesMore(operations: seq<Operation>, k: nat, n: nat)
    requires k <= n < |operations|
    ensures Messages(operations[k..n + 1]) == Messages(operations[k..n]) + MessagesOf(operations[n])
  {
    hide MessagesOf;
    var said := operations[k..n + 1];
    assert said[..|said| - 1] == operations[k..n] && said[|said| - 1] == operations[n];
  }

  /** Before that, everything is sent as it is. */
  lemma {:induction false} PlainBeforeSession(operations: seq<Operation>)
    requires !AccountOf(operations).session
    requires forall i :: 0 <= i < |operations| ==> KeepsSession(operations[i])
    ensures forall o :: o in AccountOf(operations).sent ==> o.Plain?
    decreases |operations|
  {
    if operations != [] {
      var n := |operations| - 1;
      var a := AccountOf(operations[..n]);
      assert !a.session by {
        if a.session {
          OperationEncoded(a, operations[n]);
        }
      }
      PlainBeforeSession(operations[..n]);
      if operations[n].Reading? && operations[n].input != [] {
        SpokenPlain(operations[n].reactions);
      }
    }
  }

  lemma {:induction false} SpokenPlain(reactions: seq<Reaction>)
    requires !SessionAfter(false, reactions)
    ensures forall o :: o in SentBy(false, reactions) ==> o.Plain?
  {
    if reactions != [] {
      SpokenPlain(reactions[..|reactions| - 1]);
    }
  }

  /** From the bytes that have reached the device since the session began it reads the first of
      the messages that the server's operations have asked to be sent to it since, exactly and
      in order; and all of them once everything has been written and has arrived. */
  lemma DeviceHears(c: DeviceConnection, operations: seq<Operation>, k: nat, arrived: Bytes)
    requires c.Valid() && Shows(c, AccountOf(operations))
    requires k < |operations| && operations[k].CreatingSession? && operations[k].found
    requires !AccountOf(operations[..k]).session
    requires forall i :: k < i < |operations| ==> KeepsSession(operations[i])
    requires var before := AccountOf(operations[..k]).sent + [Plain(operations[k].sessionString)];
      arrived <= c.wire && |Stream(before)| <= |arrived|
    ensures var before := AccountOf(operations[..k]).sent + [Plain(operations[k].sessionString)];
      var heard := Received(Split(arrived[|Stream(before)|..]));
      && heard <= Messages(operations[k + 1..])
      && (arrived == c.wire && c.messageQueue == [] ==> heard == Messages(operations[k + 1..]))
  {
    hide Received, Split, Stream, Session, Messages, DeviceConnection.Valid;
    SessionSends(operations, k);
    SessionDelivered(c, AccountOf(operations[..k]).sent + [Plain(operations[k].sessionString)],
                     Messages(operations[k + 1..]), arrived);
  }
}
