/**
 When a close that was asked for is carried out, over runs of the whole server: exactly when no TLS handshake
 waits for the last write. Otherwise the connection is stuck, and stays so.
 */
module RequestedClose {
  import opened Wrappers
  import opened Sockets
  import opened ConnectionRun
  import opened LockStep
  import opened ConnectionInvariant
  import opened ServerSystem

  // ----- one action of a connection that is to close -----

  /** The action runs a posted Close. */
  predicate RunsClose(l: Local, a: Action) {
    a.RunsPost? && l.posted != [] && l.posted[0].PostClose?
  }

  /** What stays of a connection that is to close: unless an I/O error closes it, the handshake waits on or does not. */
  ghost predicate Carries(c0: Conn, c: Conn) {
    || c.failed
    || (&& c.closeRequested && c.tlsHandshakePending == c0.tlsHandshakePending
        && (c0.closed ==> c.closed)
        && (c0.tlsHandshakePending && !c0.closed ==> !c.closed))
  }

  /** Failed connections stay failed, and the others carry on. */
  ghost predicate Follows(c: Conn, c': Conn) {
    if c.failed then c'.failed else Carries(c, c')
  }

  lemma ReadFollows(c: Conn, r: IoResult, line: string)
    requires ConnInv(c) && c.closeRequested
    ensures Follows(c, ReadEnds(c, r, line).0)
  {}

  lemma WriteFollows(c: Conn, r: IoResult)
    requires ConnInv(c) && c.closeRequested && c.writeInProgress
    ensures Follows(c, WriteEnds(c, r).0)
  {}

  lemma HandshakeFollows(c: Conn, ok: bool)
    requires ConnInv(c) && c.closeRequested && c.handshakes > 0
    ensures Follows(c, HandshakeEnds(c, ok).0)
  {}

  lemma PostFollows(c: Conn, post: Post)
    requires ConnInv(c) && c.closeRequested && !post.PostClose?
    ensures Follows(c, RunOn(c, post).0)
  {}

  lemma ActionFollows(g: Setting, id: int, l: Local, a: Action)
    requires LocalEnabled(l, a) && !RunsClose(l, a)
    requires l.conn.Some? && ConnInv(l.conn.value) && l.conn.value.closeRequested
    ensures var l' := LocalApply(g, id, l, a); l'.conn.Some? && Follows(l.conn.value, l'.conn.value)
  {
    var c := l.conn.value;
    assert Follows(c, c) && Follows(c, Continue(c));
    match a
    case RunsPost => PostFollows(c, l.posted[0]); hide Follows, RunOn;
    case ReadDone(r, line) => ReadFollows(c, r, line); hide Follows, ReadEnds;
    case WriteDone(r) => WriteFollows(c, r); hide Follows, WriteEnds;
    case HandshakeDone(ok) => HandshakeFollows(c, ok); hide Follows, HandshakeEnds;
    case Processes(tables, fails) => hide Process, Follows;
    case _ => hide Follows, Continue;
  }

  lemma ActionKeepsStuck(g: Setting, id: int, l: Local, a: Action)
    requires LocalEnabled(l, a) && !RunsClose(l, a) && l.conn.Some? && Stuck(l.conn.value)
    ensures LocalApply(g, id, l, a).conn == l.conn
  {
    match a
    case RunsPost => OnlyCloseEndsStuck(l.conn.value, l.posted[0]); hide RunOn;
    case Processes(tables, fails) => hide Process;
    case Continues => OnlyCloseEndsStuck(l.conn.value, PostSend(id, "")); hide Continue;
    case _ =>
  }

  // ----- runs of the server -----

  predicate RunsCloseOf(s: Server, m: Move, id: int) {
    m.action.RunsPost? && s.net.posted != [] && s.net.posted[0] == PostClose(id)
  }

  /** The run runs no posted Close of the connection. */
  ghost predicate NoCloseRuns(g: Setting, s: Server, moves: seq<Move>, id: int)
    requires IsRun(g, s, moves)
    decreases |moves|
  {
    moves == [] || (!RunsCloseOf(s, moves[0], id) && NoCloseRuns(g, Apply(g, s, moves[0]), moves[1..], id))
  }

  lemma SeenConn(s: Server, id: int)
    ensures Seen(s, id).conn == Get(s.net.connections, id)
    ensures s.net.posted != [] && s.net.posted[0].id == id ==>
      Seen(s, id).posted != [] && Seen(s, id).posted[0] == s.net.posted[0]
  {}

  lemma MoveIsAction(g: Setting, s: Server, m: Move, id: int)
    requires Enabled(g, s, m) && ServerInv(s) && !RunsCloseOf(s, m, id) && id in s.net.connections
    ensures var l, l' := Seen(s, id), Seen(Apply(g, s, m), id);
      || l'.conn == l.conn
      || (LocalEnabled(l, m.action) && !RunsClose(l, m.action) && l' == LocalApply(g, id, l, m.action))
  {
    SeenConn(s, id);
    AcceptedIsNext(g, s, m);
    assert m.action.RunsPost? ==> s.net.posted != [] && s.net.posted[0].id == m.id;
    MoveSimulates(g, s, m, id);
    hide Seen, Enabled, Apply, LocalEnabled, LocalApply, LocalInv;
  }

  lemma MoveFollows(g: Setting, s: Server, m: Move, id: int)
    requires Enabled(g, s, m) && ServerInv(s) && !RunsCloseOf(s, m, id)
    requires id in s.net.connections && s.net.connections[id].closeRequested
    ensures var s' := Apply(g, s, m);
      id in s'.net.connections && Follows(s.net.connections[id], s'.net.connections[id])
  {
    var l := Seen(s, id);
    assert LocalInv(id, l);
    assert l.conn.Some? ==> ConnInv(l.conn.value) by {
      hide Seen, ConnInv, InOrder, OneTask, AnnouncedOnce, OwnPosts, NoTlsYet, InLockStep, SendsInOrder;
    }
    assert Follows(s.net.connections[id], s.net.connections[id]);
    hide *;
    SeenConn(s, id);
    SeenConn(Apply(g, s, m), id);
    GetIs(s.net.connections, id);
    GetIs(Apply(g, s, m).net.connections, id);
    MoveIsAction(g, s, m, id);
    if Seen(Apply(g, s, m), id).conn != l.conn {
      ActionFollows(g, id, l, m.action);
    }
  }

  lemma GetIs<T>(m: map<int, T>, id: int)
    ensures Get(m, id) == if id in m then Some(m[id]) else None
  {}

  lemma MoveKeepsStuck(g: Setting, s: Server, m: Move, id: int)
    requires Enabled(g, s, m) && ServerInv(s) && !RunsCloseOf(s, m, id)
    requires id in s.net.connections && Stuck(s.net.connections[id])
    ensures var s' := Apply(g, s, m); id in s'.net.connections && s'.net.connections[id] == s.net.connections[id]
  {
    hide *;
    SeenConn(s, id);
    SeenConn(Apply(g, s, m), id);
    GetIs(s.net.connections, id);
    GetIs(Apply(g, s, m).net.connections, id);
    MoveIsAction(g, s, m, id);
    if Seen(Apply(g, s, m), id).conn != Seen(s, id).conn {
      ActionKeepsStuck(g, id, Seen(s, id), m.action);
    }
  }

  /** A stuck connection is as it is, whatever the server does, until a second Close of it is run. */
  lemma {:induction false} StuckForever(g: Setting, s: Server, moves: seq<Move>, id: int)
    requires ServerInv(s) && IsRun(g, s, moves) && NoCloseRuns(g, s, moves, id)
    requires id in s.net.connections && Stuck(s.net.connections[id])
    ensures var s' := Run(g, s, moves); id in s'.net.connections && s'.net.connections[id] == s.net.connections[id]
    decreases |moves|
  {
    if moves != [] {
      var s1 := Apply(g, s, moves[0]);
      MoveKeepsStuck(g, s, moves[0], id);
      ServerKept(g, s, moves[0]);
      hide ServerInv, Apply, Enabled, Stuck, RunsCloseOf;
      StuckForever(g, s1, moves[1..], id);
    }
  }

  /** Stuck, and no event, task or post of the connection is on its way; its session waits for an event. */
  predicate Abandoned(l: Local) {
    && l.conn.Some? && Stuck(l.conn.value)
    && l.ready == [] && l.polled == [] && l.tasks == [] && l.held == [] && l.posted == []
    && l.live.Some? && l.live.value.events == [] && l.live.value.stage == Idle && !l.live.value.isClosed
  }

  lemma ActionKeepsAbandoned(g: Setting, id: int, l: Local, a: Action)
    requires LocalEnabled(l, a) && Abandoned(l)
    ensures a.Polls? && LocalApply(g, id, l, a) == l
  {}

  lemma MoveKeepsAbandoned(g: Setting, s: Server, m: Move, id: int)
    requires Enabled(g, s, m) && ServerInv(s) && Abandoned(Seen(s, id))
    ensures Seen(Apply(g, s, m), id) == Seen(s, id)
  {
    AcceptedIsNext(g, s, m);
    MoveSimulates(g, s, m, id);
    hide Seen, Enabled, Apply, LocalEnabled, LocalApply, LocalInv, Abandoned;
    if m.id == id || m.action.Polls? {
      ActionKeepsAbandoned(g, id, Seen(s, id), m.action);
    }
  }

  /** Nothing that the server, its workers or the network may do changes an abandoned connection or its session. */
  lemma {:induction false} AbandonedForever(g: Setting, s: Server, moves: seq<Move>, id: int)
    requires ServerInv(s) && IsRun(g, s, moves) && Abandoned(Seen(s, id))
    ensures Seen(Run(g, s, moves), id) == Seen(s, id)
    decreases |moves|
  {
    if moves != [] {
      MoveKeepsAbandoned(g, s, moves[0], id);
      ServerKept(g, s, moves[0]);
      hide ServerInv, Apply, Enabled, Abandoned, Seen;
      AbandonedForever(g, Apply(g, s, moves[0]), moves[1..], id);
    }
  }

  lemma FollowsOn(c0: Conn, c: Conn, c': Conn)
    requires Carries(c0, c) && Follows(c, c')
    ensures Carries(c0, c')
  {}

  lemma CarriesRequested(c0: Conn, c: Conn)
    requires Carries(c0, c) && ConnInv(c)
    ensures c.closeRequested
  {}

  lemma {:induction false} RunCarries(g: Setting, s: Server, moves: seq<Move>, id: int, c0: Conn)
    requires ServerInv(s) && IsRun(g, s, moves) && NoCloseRuns(g, s, moves, id)
    requires id in s.net.connections && Carries(c0, s.net.connections[id])
    ensures var s' := Run(g, s, moves); id in s'.net.connections && Carries(c0, s'.net.connections[id])
    decreases |moves|
  {
    if moves != [] {
      var s1 := Apply(g, s, moves[0]);
      ConnHolds(s, id);
      CarriesRequested(c0, s.net.connections[id]);
      MoveFollows(g, s, moves[0], id);
      FollowsOn(c0, s.net.connections[id], s1.net.connections[id]);
      ServerKept(g, s, moves[0]);
      hide ServerInv, Apply, Enabled, Carries, Follows, RunsCloseOf;
      RunCarries(g, s1, moves[1..], id, c0);
    }
  }

  lemma ConnHolds(s: Server, id: int)
    requires ServerInv(s) && id in s.net.connections
    ensures ConnInv(s.net.connections[id])
  {
    SeenConn(s, id);
    GetIs(s.net.connections, id);
    assert LocalInv(id, Seen(s, id));
    hide Seen, ConnInv, InOrder, OneTask, AnnouncedOnce, OwnPosts, NoTlsYet, InLockStep, SendsInOrder;
  }

  lemma CloseRuns(g: Setting, s: Server, id: int)
    requires s.net.posted != [] && s.net.posted[0] == PostClose(id) && id in s.net.connections
    ensures var m := Move(id, RunsPost);
      && Enabled(g, s, m)
      && id in Apply(g, s, m).net.connections
      && Apply(g, s, m).net.connections[id] == Close(s.net.connections[id]).0
  {
    hide Close;
  }

  lemma Requested(c: Conn, c': Conn)
    requires ConnInv(c) && !c.closed && !c.closeRequested && Carries(Close(c).0, c') && ConnInv(c')
    requires !c'.failed && c'.pending == []
    ensures c'.closed <==> Drained(c) || !c.tlsHandshakePending
  {}

  /**
   A requested close over runs of the server: the Close is run on an open connection, then anything happens that
   runs no second Close of it and meets no I/O error on it; once its writes are through, the connection is closed
   if and only if nothing was left to write when the Close was run, or no TLS handshake was waiting.
   */
  lemma CloseCarriedOut(g: Setting, s: Server, id: int, moves: seq<Move>)
    requires ServerInv(s) && s.net.posted != [] && s.net.posted[0] == PostClose(id) && id in s.net.connections
    requires !s.net.connections[id].closed && !s.net.connections[id].closeRequested
    requires Enabled(g, s, Move(id, RunsPost))
    requires var s1 := Apply(g, s, Move(id, RunsPost)); IsRun(g, s1, moves) && NoCloseRuns(g, s1, moves, id)
    ensures var c, s' := s.net.connections[id], Run(g, Apply(g, s, Move(id, RunsPost)), moves);
      && id in s'.net.connections
      && (!s'.net.connections[id].failed && s'.net.connections[id].pending == [] ==>
            (s'.net.connections[id].closed <==> Drained(c) || !c.tlsHandshakePending))
  {
    var c, m := s.net.connections[id], Move(id, RunsPost);
    var s1 := Apply(g, s, m);
    assert Carries(Close(c).0, Close(c).0);
    hide *;
    ConnHolds(s, id);
    CloseRuns(g, s, id);
    ServerKept(g, s, m);
    RunCarries(g, s1, moves, id, Close(c).0);
    RunKeeps(g, s1, moves);
    var s' := Run(g, s1, moves);
    ConnHolds(s', id);
    if !s'.net.connections[id].failed && s'.net.connections[id].pending == [] {
      Requested(c, s'.net.connections[id]);
    }
  }

  // ----- handshakes -----

  /** If a handshake starts, every accepted message is written. */
  ghost predicate StartsDrained(c: Conn, c': Conn) {
    HandshakeStarts(c, c') ==> c'.written == c'.accepted
  }

  lemma PostStartsDrained(c: Conn, post: Post)
    requires ConnInv(c)
    ensures StartsDrained(c, RunOn(c, post).0)
  {
    HandshakeStartsDrained(c, post, Fine);
  }

  lemma WriteStartsDrained(c: Conn, r: IoResult)
    requires ConnInv(c) && c.writeInProgress
    ensures StartsDrained(c, WriteEnds(c, r).0)
  {
    HandshakeStartsDrained(c, PostClose(0), r);
  }

  lemma OthersStartDrained(c: Conn, r: IoResult, line: string, ok: bool)
    requires ConnInv(c)
    ensures StartsDrained(c, Continue(c)) && StartsDrained(c, ReadEnds(c, r, line).0) && StartsDrained(c, c)
    ensures c.handshakes > 0 ==> StartsDrained(c, HandshakeEnds(c, ok).0)
  {
    HandshakeStartsDrained(c, PostClose(0), r);
  }

  lemma EndedStartsDrained(c: Conn, a: Action)
    requires EndsOperation(a) && LocalEnabled(Unborn.(conn := Some(c)), a) && ConnInv(c)
    ensures StartsDrained(c, Ended(c, a).0)
  {
    match a
    case ReadDone(r, line) => OthersStartDrained(c, r, line, true); hide StartsDrained, ConnInv, ReadEnds;
    case WriteDone(r) => WriteStartsDrained(c, r); hide StartsDrained, WriteEnds;
    case HandshakeDone(ok) => OthersStartDrained(c, Fine, "", ok); hide StartsDrained, ConnInv, HandshakeEnds;
  }

  /** What becomes of the connection by an action. */
  lemma ConnAfter(g: Setting, id: int, l: Local, a: Action)
    requires LocalEnabled(l, a) && l.conn.Some?
    ensures var c, c' := l.conn.value, LocalApply(g, id, l, a).conn;
      || c' == l.conn
      || c' == Some(Continue(c))
      || (a.RunsPost? && c' == Some(RunOn(c, l.posted[0]).0))
      || (EndsOperation(a) && c' == Some(Ended(c, a).0))
  {
    hide Process, Continue, RunOn, ReadEnds, WriteEnds, HandshakeEnds;
  }

  lemma ActionStartsDrained(g: Setting, id: int, l: Local, a: Action)
    requires LocalEnabled(l, a) && l.conn.Some? && ConnInv(l.conn.value)
    ensures var l' := LocalApply(g, id, l, a); l'.conn.Some? && StartsDrained(l.conn.value, l'.conn.value)
  {
    var c := l.conn.value;
    assert EndsOperation(a) ==> LocalEnabled(Unborn.(conn := Some(c)), a);
    hide *;
    ConnAfter(g, id, l, a);
    OthersStartDrained(c, Fine, "", true);
    if EndsOperation(a) {
      EndedStartsDrained(c, a);
    } else if a.RunsPost? {
      PostStartsDrained(c, l.posted[0]);
    }
  }

  /**
   In every run a TLS handshake starts only once everything accepted on the connection is written, the reply to
   STARTTLS among it.
   */
  lemma HandshakesStartDrained(g: Setting, moves: seq<Move>, m: Move, id: int)
    requires IsRun(g, NewServer, moves) && Enabled(g, Run(g, NewServer, moves), m)
    requires id in Run(g, NewServer, moves).net.connections
    ensures var s := Run(g, NewServer, moves);
      var s' := Apply(g, s, m);
      id in s'.net.connections && StartsDrained(s.net.connections[id], s'.net.connections[id])
  {
    hide *;
    NewServerHolds();
    RunKeeps(g, NewServer, moves);
    var s := Run(g, NewServer, moves);
    ConnHolds(s, id);
    MoveStartsDrained(g, s, m, id);
  }

  lemma MoveStartsDrained(g: Setting, s: Server, m: Move, id: int)
    requires Enabled(g, s, m) && ServerInv(s) && id in s.net.connections && ConnInv(s.net.connections[id])
    ensures var s' := Apply(g, s, m);
      id in s'.net.connections && StartsDrained(s.net.connections[id], s'.net.connections[id])
  {
    assert m.action.Accepts? ==> Seen(s, m.id) == Unborn by {
      AcceptedIsNext(g, s, m);
      hide Seen, LocalInv;
    }
    OthersStartDrained(s.net.connections[id], Fine, "", true);
    hide LocalInv, LocalApply, LocalEnabled, Seen, Apply, Enabled, ConnInv, StartsDrained;
    SeenConn(s, id);
    SeenConn(Apply(g, s, m), id);
    MoveSimulates(g, s, m, id);
    if m.id == id || m.action.Polls? {
      ActionStartsDrained(g, id, Seen(s, id), m.action);
    }
  }
}
