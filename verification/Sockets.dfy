/**
 BoostSocketsManager as steps on its connections: what is posted to the I/O context, what its completion
 handlers do, and the events they queue for the server. A connection stays in the map after it is closed,
 because handlers still hold it then; FindConnection does not find it any more.
 */
module Sockets {
  import opened Wrappers
  import opened SmtpSession

  /** How an asynchronous operation ends: well, cancelled, or with any other error. */
  datatype IoResult = Fine | Aborted | Broken

  /**
   One ConnectionState. The last four are not fields of the source: the handshakes under way, the messages
   accepted for writing and those written, and whether an I/O error closed the connection.
   */
  datatype Conn = Conn(
    pending: seq<string>,
    tlsEnabled: bool,
    tlsHandshakePending: bool,
    writeInProgress: bool,
    readInProgress: bool,
    closeRequested: bool,
    closed: bool,
    handshakes: nat,
    accepted: seq<string>,
    written: seq<string>,
    failed: bool)

  const NewConn := Conn([], false, false, false, false, false, false, 0, [], [], false)

  // ----- one connection -----

  function FinishClose(c: Conn, emitDisconnected: bool): (Conn, seq<Event>) {
    if c.closed then (c, [])
    else (c.(closeRequested := true, closed := true), if emitDisconnected then [Disconnected] else [])
  }

  /** An operation on the connection failed; the handlers of a closed connection no longer matter. */
  function FailWith(c: Conn, r: IoResult): (Conn, seq<Event>) {
    FinishClose(c.(failed := c.failed || !c.closed), r != Aborted)
  }

  function StartWrite(c: Conn): Conn {
    if c.writeInProgress || c.pending == [] then c else c.(writeInProgress := true)
  }

  function StartTlsHandshake(c: Conn): Conn {
    if c.closeRequested then c else c.(tlsHandshakePending := false, handshakes := c.handshakes + 1)
  }

  predicate Drained(c: Conn) {
    !c.writeInProgress && c.pending == []
  }

  function Send(c: Conn, message: string): Conn {
    if c.closed || c.closeRequested then c
    else StartWrite(c.(pending := c.pending + [message], accepted := c.accepted + [message]))
  }

  function StartTlsOn(c: Conn): Conn {
    if c.closed || c.closeRequested || c.tlsEnabled then c
    else
      var c' := c.(tlsHandshakePending := true);
      if Drained(c') then StartTlsHandshake(c') else c'
  }

  function Close(c: Conn): (Conn, seq<Event>) {
    if c.closed then (c, [])
    else
      var c' := c.(closeRequested := true);
      if Drained(c') then FinishClose(c', true) else (c', [])
  }

  function Continue(c: Conn): Conn {
    if c.closed || c.closeRequested || c.readInProgress then c
    else if c.tlsHandshakePending then if Drained(c) then StartTlsHandshake(c) else c
    else c.(readInProgress := true)
  }

  function ReadEnds(c: Conn, r: IoResult, line: string): (Conn, seq<Event>) {
    var c' := c.(readInProgress := false);
    if r != Fine then FailWith(c', r) else (c', [MessageReceived(line)])
  }

  function WriteEnds(c: Conn, r: IoResult): (Conn, seq<Event>)
    requires c.pending != []
  {
    var c' := c.(writeInProgress := false);
    if r != Fine then FailWith(c', r)
    else
      var c'' := c'.(pending := c.pending[1..], written := c.written + [c.pending[0]]);
      if c''.pending != [] then (StartWrite(c''), [])
      else if c''.tlsHandshakePending then (StartTlsHandshake(c''), [])
      else if c''.closeRequested then FinishClose(c'', true)
      else (c'', [])
  }

  function HandshakeEnds(c: Conn, ok: bool): (Conn, seq<Event>)
    requires c.handshakes > 0
  {
    var c' := c.(handshakes := c.handshakes - 1);
    if ok then (c'.(tlsEnabled := true), [TlsSucceeded])
    else
      var (c'', events) := FailWith(c', Broken);
      (c'', [TlsFailed] + events)
  }

  // ----- all connections -----

  datatype SocketEvent = SocketEvent(id: int, event: Event)

  datatype Post = PostSend(id: int, message: string) | PostStartTls(id: int) | PostClose(id: int)

  /** posted is what waits in the I/O context, in order; ran is what it has run, and arrived all events ever queued. */
  datatype Manager = Manager(
    connections: map<int, Conn>,
    ready: seq<SocketEvent>,
    posted: seq<Post>,
    nextId: int,
    ran: seq<Post>,
    arrived: seq<SocketEvent>)

  const NewManager := Manager(map[], [], [], 1, [], [])

  function Tagged(id: int, events: seq<Event>): seq<SocketEvent> {
    seq(|events|, i requires 0 <= i < |events| => SocketEvent(id, events[i]))
  }

  /** Stores what became of a connection and queues its events. */
  function Put(k: Manager, id: int, r: (Conn, seq<Event>)): Manager {
    k.(connections := k.connections[id := r.0],
       ready := k.ready + Tagged(id, r.1),
       arrived := k.arrived + Tagged(id, r.1))
  }

  function Accept(k: Manager): Manager {
    Put(k, k.nextId, (NewConn, [Connected])).(nextId := k.nextId + 1)
  }

  function RunOn(c: Conn, post: Post): (Conn, seq<Event>) {
    match post
    case PostSend(id, message) => (Send(c, message), [])
    case PostStartTls(id) => (StartTlsOn(c), [])
    case PostClose(id) => Close(c)
  }

  function RunPost(k: Manager): Manager
    requires k.posted != []
  {
    var post := k.posted[0];
    var k' := k.(posted := k.posted[1..], ran := k.ran + [post]);
    if post.id in k.connections then Put(k', post.id, RunOn(k.connections[post.id], post)) else k'
  }

  function ContinueWith(k: Manager, id: int): Manager {
    if id in k.connections then k.(connections := k.connections[id := Continue(k.connections[id])]) else k
  }

  // ----- what one connection keeps -----

  ghost predicate ConnInv(c: Conn) {
    && c.accepted == c.written + c.pending
    && (c.writeInProgress ==> c.pending != [])
    && (!c.closed ==> (c.writeInProgress <==> c.pending != []))
    && (c.closed ==> c.closeRequested)
    && (c.failed ==> c.closed)
    && (c.closed && !c.failed ==> c.pending == [])
    && (c.closeRequested && !c.closed && c.pending == [] ==> c.tlsHandshakePending)
  }

  lemma PostKeeps(c: Conn, post: Post)
    requires ConnInv(c)
    ensures ConnInv(RunOn(c, post).0)
  {}

  lemma WriteEndsKeeps(c: Conn, r: IoResult)
    requires ConnInv(c) && c.writeInProgress
    ensures ConnInv(WriteEnds(c, r).0)
  {
    assert c.written + c.pending == c.written + [c.pending[0]] + c.pending[1..];
  }

  lemma OthersKeep(c: Conn, r: IoResult, line: string, ok: bool)
    requires ConnInv(c)
    ensures ConnInv(Continue(c)) && ConnInv(ReadEnds(c, r, line).0)
    ensures c.handshakes > 0 ==> ConnInv(HandshakeEnds(c, ok).0)
  {}

  /**
   The last write of a connection that is to be closed closes it, unless a TLS handshake is pending: then
   StartTlsHandshake returns early, and nothing calls FinishClose.
   */
  lemma LastWriteCloses(c: Conn)
    requires ConnInv(c) && c.writeInProgress && |c.pending| == 1 && c.closeRequested && !c.closed
    ensures WriteEnds(c, Fine).0.closed <==> !c.tlsHandshakePending
    ensures !c.tlsHandshakePending ==>
      WriteEnds(c, Fine).1 == [Disconnected] && WriteEnds(c, Fine).0.written == c.accepted
  {}

  /** The connection once all its writes have ended well. */
  ghost function WrittenOut(c: Conn): Conn
    requires ConnInv(c)
    decreases |c.pending|
  {
    if !c.writeInProgress then c
    else
      WriteEndsKeeps(c, Fine);
      WrittenOut(WriteEnds(c, Fine).0)
  }

  lemma {:induction false} DrainCloses(c: Conn)
    requires ConnInv(c) && c.closeRequested && !c.closed
    ensures var c' := WrittenOut(c);
      && c'.pending == [] && c'.written == c.accepted
      && (c'.closed <==> !c.tlsHandshakePending)
    decreases |c.pending|
  {
    if c.writeInProgress {
      var c1 := WriteEnds(c, Fine).0;
      WriteEndsKeeps(c, Fine);
      if |c.pending| == 1 {
        LastWriteCloses(c);
        assert c.written + c.pending == c.written + [c.pending[0]];
      } else {
        DrainCloses(c1);
      }
    } else {
      assert c.written + [] == c.written;
    }
  }

  /**
   Close on an open connection, and then the ends of its writes: the connection gets closed if and only if
   nothing was left to write, or no TLS handshake was waiting for it.
   */
  lemma CloseThenDrain(c: Conn)
    requires ConnInv(c) && !c.closed && !c.closeRequested
    ensures ConnInv(Close(c).0)
    ensures WrittenOut(Close(c).0).closed <==> Drained(c) || !c.tlsHandshakePending
    ensures WrittenOut(Close(c).0).written == c.accepted
  {
    PostKeeps(c, PostClose(0));
    if Drained(c) {
      assert c.written + [] == c.written;
    } else {
      DrainCloses(Close(c).0);
    }
  }

  predicate HandshakeStarts(before: Conn, after: Conn) {
    after.handshakes > before.handshakes
  }

  /** A handshake starts only when every accepted message, its 220 reply among them, is written. */
  lemma HandshakeStartsDrained(c: Conn, post: Post, r: IoResult)
    requires ConnInv(c)
    ensures HandshakeStarts(c, Continue(c)) ==> Continue(c).written == c.accepted
    ensures HandshakeStarts(c, RunOn(c, post).0) ==> RunOn(c, post).0.written == c.accepted && post.PostStartTls?
    ensures c.writeInProgress && HandshakeStarts(c, WriteEnds(c, r).0) ==> WriteEnds(c, r).0.written == c.accepted
  {
    if c.writeInProgress {
      assert c.pending == [c.pending[0]] + c.pending[1..];
      assert c.pending[1..] == [] ==> c.written + c.pending == c.written + [c.pending[0]];
    }
  }

  /** Asked to close, with nothing left to write and no operation under way whose end could close it. */
  predicate Stuck(c: Conn) {
    c.closeRequested && !c.closed && Drained(c) && c.handshakes == 0 && !c.readInProgress
  }

  /** Nothing but a second Close ends that: sends, TLS requests and Continue do nothing any more. */
  lemma OnlyCloseEndsStuck(c: Conn, post: Post)
    requires Stuck(c)
    ensures Continue(c) == c
    ensures if post.PostClose? then RunOn(c, post).0.closed && RunOn(c, post).1 == [Disconnected]
            else RunOn(c, post) == (c, [])
  {}

  // ----- the manager as an object -----

  lemma TaggedIs(id: int, e: Event, events: seq<Event>)
    ensures Tagged(id, []) == [] && Tagged(id, [e]) == [SocketEvent(id, e)]
    ensures Tagged(id, [e] + events) == [SocketEvent(id, e)] + Tagged(id, events)
  {}

  lemma Twice<K, V>(m: map<K, V>, k: K, first: V, second: V)
    ensures m[k := first][k := second] == m[k := second]
  {}

  /** Put with no event, with one, and twice. */
  lemma PutIs(k: Manager, id: int, c: Conn, e: Event)
    ensures Put(k, id, (c, [])) == k.(connections := k.connections[id := c])
    ensures Put(k, id, (c, [e])) == k.(connections := k.connections[id := c], ready := k.ready + [SocketEvent(id, e)],
                                       arrived := k.arrived + [SocketEvent(id, e)])
  {
    TaggedIs(id, e, []);
    hide Tagged;
  }

  lemma PutTwice(k: Manager, id: int, c: Conn, e: Event, r: (Conn, seq<Event>))
    ensures Put(Put(k, id, (c, [])), id, r) == Put(k, id, r)
    ensures Put(Put(k, id, (c, [e])), id, r) == Put(k, id, (r.0, [e] + r.1))
  {
    TaggedIs(id, e, r.1);
    hide Tagged;
    Twice(k.connections, id, c, r.0);
    Associate(k.ready, [SocketEvent(id, e)], Tagged(id, r.1));
    Associate(k.arrived, [SocketEvent(id, e)], Tagged(id, r.1));
    Associate(k.ready, [], Tagged(id, r.1));
    Associate(k.arrived, [], Tagged(id, r.1));
  }

  class BoostSocketsManager {
    var connections: map<int, Conn>
    var readyEvents: seq<SocketEvent>
    var posted: seq<Post>
    var nextConnectionId: int
    ghost var ran: seq<Post>
    ghost var arrived: seq<SocketEvent>

    constructor ()
      ensures State() == NewManager
    {
      connections, readyEvents, posted, nextConnectionId, ran, arrived := map[], [], [], 1, [], [];
    }

    ghost function State(): Manager
      reads this
    {
      Manager(connections, readyEvents, posted, nextConnectionId, ran, arrived)
    }

    ghost predicate Valid()
      reads this
    {
      forall id :: id in connections ==> ConnInv(connections[id])
    }

    method QueueEvent(id: int, event: Event)
      modifies this
      ensures State() == old(State()).(ready := old(readyEvents) + [SocketEvent(id, event)],
                                       arrived := old(arrived) + [SocketEvent(id, event)])
    {
      readyEvents := readyEvents + [SocketEvent(id, event)];
      arrived := arrived + [SocketEvent(id, event)];
    }

    /** The handler of async_accept, without an error. */
    method OnAccept()
      modifies this
      ensures State() == Accept(old(State()))
    {
      var id := nextConnectionId;
      nextConnectionId := nextConnectionId + 1;
      connections := connections[id := NewConn];
      QueueEvent(id, Connected);
    }

    method Post(post: Post)
      modifies this
      ensures State() == old(State()).(posted := old(posted) + [post])
    {
      posted := posted + [post];
    }

    method CloseConnection(id: int, emitDisconnected: bool)
      requires id in connections
      modifies this
      ensures State() == Put(old(State()), id, FinishClose(old(connections[id]), emitDisconnected))
    {
      var c := connections[id];
      if !c.closed {
        connections := connections[id := c.(closeRequested := true, closed := true)];
        if emitDisconnected {
          QueueEvent(id, Disconnected);
        }
      } else {
        assert connections == connections[id := c];
      }
    }

    method ContinueReading(id: int)
      modifies this
      ensures State() == ContinueWith(old(State()), id)
    {
      if id in connections {
        var c := connections[id];
        if !c.closed && !c.closeRequested && !c.readInProgress {
          if c.tlsHandshakePending {
            if !c.writeInProgress && c.pending == [] {
              connections := connections[id := StartTlsHandshake(c)];
            }
          } else {
            connections := connections[id := c.(readInProgress := true)];
          }
        }
        assert connections == old(connections)[id := connections[id]];
      }
    }

    /** Runs what was posted first. */
    method RunPosted()
      requires posted != []
      modifies this
      ensures State() == RunPost(old(State()))
    {
      var post := posted[0];
      posted := posted[1..];
      ran := ran + [post];
      if post.id in connections {
        var c := connections[post.id];
        match post {
          case PostSend(id, message) =>
            if !c.closed && !c.closeRequested {
              c := c.(pending := c.pending + [message], accepted := c.accepted + [message]);
              if !c.writeInProgress {
                c := StartWrite(c);
              }
            }
            connections := connections[id := c];
          case PostStartTls(id) =>
            if !c.closed && !c.closeRequested && !c.tlsEnabled {
              c := c.(tlsHandshakePending := true);
              if !c.writeInProgress && c.pending == [] {
                c := StartTlsHandshake(c);
              }
            }
            connections := connections[id := c];
          case PostClose(id) =>
            if !c.closed {
              c := c.(closeRequested := true);
            }
            connections := connections[id := c];
            if !c.closed && !c.writeInProgress && c.pending == [] {
              CloseConnection(id, true);
            }
        }
      }
    }

    /** An operation on a connection has failed. */
    method FailConnection(id: int, c: Conn, r: IoResult)
      requires id in connections
      modifies this
      ensures State() == Put(old(State()), id, FailWith(c, r))
    {
      ghost var k, failed := State(), c.(failed := c.failed || !c.closed);
      connections := connections[id := c.(failed := c.failed || !c.closed)];
      PutIs(k, id, failed, Disconnected);
      PutTwice(k, id, failed, Disconnected, FinishClose(failed, r != Aborted));
      hide Put, FinishClose;
      CloseConnection(id, r != Aborted);
    }

    method OnReadEnds(id: int, r: IoResult, line: string)
      requires id in connections && connections[id].readInProgress
      modifies this
      ensures State() == Put(old(State()), id, ReadEnds(old(connections[id]), r, line))
    {
      var c := connections[id].(readInProgress := false);
      if r != Fine {
        FailConnection(id, c, r);
      } else {
        PutIs(State(), id, c, MessageReceived(line));
        hide Put;
        connections := connections[id := c];
        QueueEvent(id, MessageReceived(line));
      }
    }

    method OnWriteEnds(id: int, r: IoResult)
      requires Valid() && id in connections && connections[id].writeInProgress
      modifies this
      ensures State() == Put(old(State()), id, WriteEnds(old(connections[id]), r))
    {
      var c := connections[id].(writeInProgress := false);
      assert c.pending != [];
      hide Valid, ConnInv, Put;
      if r != Fine {
        FailConnection(id, c, r);
        return;
      }
      ghost var k := State();
      c := c.(pending := c.pending[1..], written := c.written + [c.pending[0]]);
      connections := connections[id := c];
      PutIs(k, id, c, Disconnected);
      if c.pending != [] {
        connections := connections[id := StartWrite(c)];
        PutIs(k, id, StartWrite(c), Disconnected);
      } else if c.tlsHandshakePending {
        connections := connections[id := StartTlsHandshake(c)];
        PutIs(k, id, StartTlsHandshake(c), Disconnected);
      } else if c.closeRequested {
        PutTwice(k, id, c, Disconnected, FinishClose(c, true));
        CloseConnection(id, true);
      }
    }

    method OnHandshakeEnds(id: int, ok: bool)
      requires id in connections && connections[id].handshakes > 0
      modifies this
      ensures State() == Put(old(State()), id, HandshakeEnds(old(connections[id]), ok))
    {
      ghost var k := State();
      var c := connections[id].(handshakes := connections[id].handshakes - 1);
      hide Put, FailWith;
      connections := connections[id := c];
      if ok {
        connections := connections[id := c.(tlsEnabled := true)];
        PutIs(k, id, c.(tlsEnabled := true), TlsSucceeded);
        QueueEvent(id, TlsSucceeded);
      } else {
        PutIs(k, id, c, TlsFailed);
        PutTwice(k, id, c, TlsFailed, FailWith(c, Broken));
        QueueEvent(id, TlsFailed);
        FailConnection(id, c, Broken);
      }
    }

    /** What PollEvents returns after the I/O context has run. */
    method TakeEvents() returns (events: seq<SocketEvent>)
      modifies this
      ensures events == old(readyEvents)
      ensures State() == old(State()).(ready := [])
    {
      events := [];
      while readyEvents != []
        invariant events + readyEvents == old(readyEvents)
        invariant State() == old(State()).(ready := readyEvents)
        decreases |readyEvents|
      {
        events := events + [readyEvents[0]];
        readyEvents := readyEvents[1..];
      }
    }
  }
}
