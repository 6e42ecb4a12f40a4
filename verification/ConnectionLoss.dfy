/**
 What becomes of a connection that is lost: the operation under way ends with an error, the server is told so once,
 and the session goes. Only an operation that was cancelled closes a connection without a word.
 */
module ConnectionLoss {
  import opened Wrappers
  import opened MailStorage
  import opened SmtpSession
  import opened Sockets
  import opened ConnectionRun
  import opened LockStep
  import opened ConnectionInvariant
  import opened ServerSystem
  import opened ServerLoop
  import opened PipelinedQuit

  // ----- one operation -----

  /** An operation that ends with an error closes an open connection and says Disconnected, once. */
  lemma BrokenIsAnnounced(c: Conn, line: string)
    requires !c.closed
    ensures ReadEnds(c, Broken, line).0.closed && ReadEnds(c, Broken, line).1 == [Disconnected]
    ensures c.pending != [] ==> WriteEnds(c, Broken).0.closed && WriteEnds(c, Broken).1 == [Disconnected]
    ensures c.handshakes > 0 ==>
      HandshakeEnds(c, false).0.closed && HandshakeEnds(c, false).1 == [TlsFailed, Disconnected]
  {
    assert [TlsFailed] + [Disconnected] == [TlsFailed, Disconnected];
  }

  /** One that was cancelled closes it and says nothing. */
  lemma AbortedIsSilent(c: Conn, line: string)
    requires !c.closed
    ensures ReadEnds(c, Aborted, line).0.closed && ReadEnds(c, Aborted, line).1 == []
    ensures c.pending != [] ==> WriteEnds(c, Aborted).0.closed && WriteEnds(c, Aborted).1 == []
  {}

  /** One that ends well queues the line that was read, or that TLS is on, and a read or a handshake closes nothing. */
  lemma FineIsQueued(c: Conn, line: string)
    ensures ReadEnds(c, Fine, line) == (c.(readInProgress := false), [MessageReceived(line)])
    ensures c.handshakes > 0 ==>
      HandshakeEnds(c, true) == (c.(handshakes := c.handshakes - 1, tlsEnabled := true), [TlsSucceeded])
  {}

  // ----- one action of a connection -----

  predicate IsClosed(l: Local) {
    l.conn.Some? && l.conn.value.closed
  }

  /** The action is the end of a cancelled operation of an open connection. */
  predicate Aborts(l: Local, a: Action) {
    (a.ReadDone? || a.WriteDone?) && a.r == Aborted && !IsClosed(l)
  }

  /** Disconnected is said exactly when the connection closes, unless a cancelled operation closes it. */
  ghost predicate SaysSo(closed: bool, r: (Conn, seq<Event>), aborts: bool) {
    && (closed ==> r.0.closed) && (aborts ==> r.0.closed)
    && Disconnects(r.1) == if r.0.closed && !closed && !aborts then 1 else 0
  }

  lemma ReadSaysSo(c: Conn, r: IoResult, line: string)
    ensures SaysSo(c.closed, ReadEnds(c, r, line), !c.closed && r == Aborted)
  {
    CountsOfOne(Disconnected);
    CountsOfOne(MessageReceived(line));
    hide Disconnects;
  }

  lemma WriteSaysSo(c: Conn, r: IoResult)
    requires c.pending != []
    ensures SaysSo(c.closed, WriteEnds(c, r), !c.closed && r == Aborted)
  {
    CountsOfOne(Disconnected);
    hide Disconnects;
  }

  lemma HandshakeSaysSo(c: Conn, ok: bool)
    requires c.handshakes > 0
    ensures SaysSo(c.closed, HandshakeEnds(c, ok), false)
  {
    CountsOfOne(TlsSucceeded);
    CountsOfOne(TlsFailed);
    CountsOfOne(Disconnected);
    CountsOfTwo(TlsFailed, Disconnected);
    assert [TlsFailed] + [] == [TlsFailed] && [TlsFailed] + [Disconnected] == [TlsFailed, Disconnected];
    hide Disconnects;
  }

  lemma EndedSaysSo(c: Conn, a: Action)
    requires EndsOperation(a) && LocalEnabled(Unborn.(conn := Some(c)), a)
    ensures SaysSo(c.closed, Ended(c, a), Aborts(Unborn.(conn := Some(c)), a))
  {
    hide SaysSo, ReadEnds, WriteEnds, HandshakeEnds;
    match a
    case ReadDone(r, line) => ReadSaysSo(c, r, line);
    case WriteDone(r) => WriteSaysSo(c, r);
    case HandshakeDone(ok) => HandshakeSaysSo(c, ok);
  }

  lemma PostSaysSo(c: Conn, post: Post)
    ensures SaysSo(c.closed, RunOn(c, post), false)
  {
    CountsOfOne(Disconnected);
    hide Disconnects;
  }

  /** What an action does to the announcements of its connection. */
  ghost predicate Announces(l: Local, l': Local, aborts: bool) {
    && (IsClosed(l) ==> IsClosed(l')) && (aborts ==> IsClosed(l'))
    && Disconnects(l'.arrived) == Disconnects(l.arrived) + if IsClosed(l') && !IsClosed(l) && !aborts then 1 else 0
  }

  lemma HappensSaysSo(l: Local, c: Conn, r: (Conn, seq<Event>), aborts: bool)
    requires l.conn == Some(c) && SaysSo(c.closed, r, aborts)
    ensures Announces(l, Happens(l, r), aborts)
  {
    CountsAdd(l.arrived, r.1);
    hide Disconnects;
  }

  lemma EndsSaysSo(g: Setting, id: int, l: Local, a: Action)
    requires LocalEnabled(l, a) && EndsOperation(a)
    ensures Announces(l, LocalApply(g, id, l, a), Aborts(l, a))
  {
    var c := l.conn.value;
    assert Aborts(Unborn.(conn := Some(c)), a) == Aborts(l, a);
    hide *;
    EndsHappen(g, id, l, a);
    EndedSaysSo(c, a);
    HappensSaysSo(l, c, Ended(c, a), Aborts(l, a));
  }

  lemma RunsPostSaysSo(g: Setting, id: int, l: Local)
    requires l.posted != []
    ensures Announces(l, LocalApply(g, id, l, RunsPost), false)
  {
    var l' := l.(posted := l.posted[1..], ran := l.ran + [l.posted[0]]);
    if l.conn.Some? {
      PostSaysSo(l.conn.value, l.posted[0]);
      HappensSaysSo(l', l.conn.value, RunOn(l.conn.value, l.posted[0]), false);
    }
    hide RunOn, Happens, SaysSo, Disconnects;
  }

  lemma AcceptSaysSo(g: Setting, id: int)
    ensures Announces(Unborn, LocalApply(g, id, Unborn, Accepts), false)
  {
    CountsOfOne(Connected);
    assert [] + [Connected] == [Connected];
    hide Disconnects;
  }

  lemma OthersSayNothing(g: Setting, id: int, l: Local, a: Action)
    requires LocalEnabled(l, a) && !EndsOperation(a) && !a.Accepts? && !a.RunsPost?
    ensures Announces(l, LocalApply(g, id, l, a), false)
  {
    hide Process, ReadEnds, WriteEnds, HandshakeEnds, RunOn, Disconnects;
  }

  lemma ActionAnnounces(g: Setting, id: int, l: Local, a: Action)
    requires LocalEnabled(l, a)
    ensures Announces(l, LocalApply(g, id, l, a), Aborts(l, a))
  {
    assert Aborts(l, a) ==> EndsOperation(a);
    assert a.Accepts? ==> l == Unborn;
    assert a.RunsPost? ==> l.posted != [];
    hide *;
    if EndsOperation(a) {
      EndsSaysSo(g, id, l, a);
    } else if a.Accepts? {
      AcceptSaysSo(g, id);
    } else if a.RunsPost? {
      RunsPostSaysSo(g, id, l);
    } else {
      OthersSayNothing(g, id, l, a);
    }
  }

  // ----- runs of the server -----

  predicate IsClosedIn(s: Server, id: int) {
    id in s.net.connections && s.net.connections[id].closed
  }

  function Announced(s: Server, id: int): nat {
    Disconnects(EventsOf(s.net.arrived, id))
  }

  /** The move is the end of a cancelled read or write of this connection, which is open. */
  predicate CancelledIn(s: Server, m: Move, id: int) {
    m.id == id && (m.action.ReadDone? || m.action.WriteDone?) && m.action.r == Aborted && !IsClosedIn(s, id)
  }

  /** Some move of the run is. */
  ghost predicate Cancelled(g: Setting, s: Server, moves: seq<Move>, id: int)
    requires IsRun(g, s, moves)
    decreases |moves|
  {
    moves != [] && (CancelledIn(s, moves[0], id) || Cancelled(g, Apply(g, s, moves[0]), moves[1..], id))
  }

  lemma SeenClosed(s: Server, id: int)
    ensures IsClosed(Seen(s, id)) <==> IsClosedIn(s, id)
    ensures Disconnects(Seen(s, id).arrived) == Announced(s, id)
  {
    hide EventsOf, PostsFor, Disconnects;
  }

  lemma MoveAnnounces(g: Setting, s: Server, m: Move, id: int)
    requires Enabled(g, s, m) && ServerInv(s)
    ensures var s' := Apply(g, s, m); var aborts := CancelledIn(s, m, id);
      && (IsClosedIn(s, id) ==> IsClosedIn(s', id)) && (aborts ==> IsClosedIn(s', id))
      && Announced(s', id) == Announced(s, id) + if IsClosedIn(s', id) && !IsClosedIn(s, id) && !aborts then 1 else 0
  {
    AcceptedIsNext(g, s, m);
    SeenClosed(s, id);
    SeenClosed(Apply(g, s, m), id);
    MoveSimulates(g, s, m, id);
    hide Seen, Enabled, Apply, LocalEnabled, LocalApply, LocalInv, IsClosed, IsClosedIn, Announced, Disconnects;
    if m.id == id || m.action.Polls? {
      ActionAnnounces(g, id, Seen(s, id), m.action);
    }
  }

  lemma {:induction false} RunAnnounces(g: Setting, s: Server, moves: seq<Move>, id: int)
    requires ServerInv(s) && IsRun(g, s, moves)
    ensures var s' := Run(g, s, moves);
      && (IsClosedIn(s, id) ==> IsClosedIn(s', id) && !Cancelled(g, s, moves, id))
      && (Cancelled(g, s, moves, id) ==> IsClosedIn(s', id))
      && Announced(s', id) == Announced(s, id)
         + if IsClosedIn(s', id) && !IsClosedIn(s, id) && !Cancelled(g, s, moves, id) then 1 else 0
    decreases |moves|
  {
    if moves != [] {
      var s1 := Apply(g, s, moves[0]);
      MoveAnnounces(g, s, moves[0], id);
      ServerKept(g, s, moves[0]);
      hide ServerInv, Apply, Enabled, Announced, IsClosedIn;
      RunAnnounces(g, s1, moves[1..], id);
      assert IsClosedIn(s, id) ==> !CancelledIn(s, moves[0], id);
    }
  }

  /**
   In every run the server is told of the end of a connection exactly once if it is closed, unless a cancelled
   operation closed it, and not at all while it is open.
   */
  lemma DisconnectedIffClosed(g: Setting, moves: seq<Move>, id: int)
    requires IsRun(g, NewServer, moves)
    ensures var s := Run(g, NewServer, moves);
      && Disconnects(EventsOf(s.net.arrived, id))
         == (if IsClosedIn(s, id) && !Cancelled(g, NewServer, moves, id) then 1 else 0)
      && (Cancelled(g, NewServer, moves, id) ==> IsClosedIn(s, id))
  {
    NewServerHolds();
    RunAnnounces(g, NewServer, moves, id);
    assert Announced(NewServer, id) == 0 && !IsClosedIn(NewServer, id);
    hide ServerInv, IsClosedIn, Run, IsRun, Cancelled;
  }

  // ----- a lost connection -----

  function LostMoves(g: Setting, t: Tables): seq<Move> {
    ArrivalMoves(g, ReadDone(Broken, "")) + HandlingMoves(t) + [Move(1, Removes)]
  }

  /** The client drops the connection while the server reads. */
  lemma LossIsMove(g: Setting, s: Server, c: Conn)
    requires 1 in s.net.connections && s.net.connections[1] == c && c.readInProgress && !c.closed && s.net.ready == []
    ensures var m := Move(1, ReadDone(Broken, "")); var s1 := Apply(g, s, m); var c1 := s1.net.connections[1];
      && Enabled(g, s, m) && s1 == s.(net := s1.net) && s1.net.posted == s.net.posted
      && 1 in s1.net.connections && c1.closed
      && s1.net.ready == [SocketEvent(1, Disconnected)]
  {
    BrokenIsAnnounced(c, "");
    assert [] + Tagged(1, [Disconnected]) == [SocketEvent(1, Disconnected)];
    hide ReadEnds;
  }

  lemma DisconnectIs(g: Setting, session: Session, t: Tables)
    ensures Process(g, 1, Live(session, [], Scheduled(Disconnected), false), Disconnected, t, false)
         == (Live(Reset(session).(phase := Closed), [], Answered(false), true), [])
  {
    AddNothing(PostsOf(1, []));
    hide Reset;
  }

  /** The session has handled Disconnected: it is closed, idle and has nothing left to handle. */
  lemma DisconnectProcessed(g: Setting, s: Server, c: Conn, session: Session, posted: seq<Post>, t: Tables)
    requires InHand(s, c, session, Disconnected, posted) && HoldsTask(s, 1)
    ensures var s1 := Processed(g, s, 1, t, false);
      s1.sessions == map[1 := Live(Reset(session).(phase := Closed), [], Idle, true)] && s1.net == s.net
  {
    DisconnectIs(g, session, t);
    var answered := Live(Reset(session).(phase := Closed), [], Answered(false), true);
    assert s.net.posted + [] == s.net.posted;
    var s1 := ProcessEvent(g, s, 1, t, false);
    assert s1.sessions == map[1 := answered] && s1.net == s.net by {
      hide Process, Without, HoldsTask, Reset;
    }
    hide ProcessEvent, Process, Without, HoldsTask, Continue, Reset;
    assert s1.sessions[1 := answered.(stage := Idle)] == map[1 := answered.(stage := Idle)];
  }

  lemma RemovesIs(g: Setting, s: Server, session: Session)
    requires s.sessions == map[1 := Live(session, [], Idle, true)]
    ensures Enabled(g, s, Move(1, Removes)) && Apply(g, s, Move(1, Removes)) == s.(sessions := map[])
  {}

  /**
   From every state of the server with one connection that is read and idle: when the client drops it, the server
   hears of it, and the session goes.
   */
  lemma LostSessionGoes(g: Setting, s: Server, c: Conn, session: Session, t: Tables)
    requires At(s, c, session, []) && c.readInProgress && !c.closed
    ensures IsRun(g, s, LostMoves(g, t))
    ensures var s' := Run(g, s, LostMoves(g, t)); s'.sessions == map[] && IsClosedIn(s', 1)
  {
    var first := ReadDone(Broken, "");
    var s1 := Apply(g, s, Move(1, first));
    hide Apply, Enabled, IsRun, Run, InHand, Reset, Processed, LostMoves;
    LossIsMove(g, s, c);
    var c1 := s1.net.connections[1];
    Arrives(g, s, first, s1, c1, session, Disconnected, []);
    Vanishes(g, Run(g, s, ArrivalMoves(g, first)), c1, session, t);
    RunSum(g, s, ArrivalMoves(g, first), HandlingMoves(t) + [Move(1, Removes)]);
    LostMovesAre(g, t);
  }

  lemma LostMovesAre(g: Setting, t: Tables)
    ensures LostMoves(g, t) == ArrivalMoves(g, ReadDone(Broken, "")) + (HandlingMoves(t) + [Move(1, Removes)])
  {
    hide ArrivalMoves, HandlingMoves;
  }

  lemma Vanishes(g: Setting, s: Server, c: Conn, session: Session, t: Tables)
    requires InHand(s, c, session, Disconnected, []) && c.closed
    ensures var moves := HandlingMoves(t) + [Move(1, Removes)];
      IsRun(g, s, moves) && Run(g, s, moves).sessions == map[] && IsClosedIn(Run(g, s, moves), 1)
  {
    HoldsIt(s, c, session, Disconnected, []);
    assert 1 in s.net.connections && s.net.connections[1].closed;
    ProcessingIsRun(g, s, 1, t, false);
    DisconnectProcessed(g, s, c, session, [], t);
    var s1 := Processed(g, s, 1, t, false);
    hide InHand, IsRun, Run, Processed, HoldsTask, Apply, Enabled, Reset;
    RemovesIs(g, s1, Reset(session).(phase := Closed));
    OneMove(g, s1, Move(1, Removes));
    RunSum(g, s, HandlingMoves(t), [Move(1, Removes)]);
  }

  /** Such as the server once it has greeted its first client. */
  lemma GreetedThenLost(g: Setting, t: Tables)
    requires g.maxConnections > 0
    ensures IsRun(g, NewServer, GreetedMoves(t) + LostMoves(g, t))
    ensures var s := Run(g, NewServer, GreetedMoves(t) + LostMoves(g, t)); s.sessions == map[] && IsClosedIn(s, 1)
  {
    ReachesGreeted(g, t);
    assert Greeted(g).readInProgress && !Greeted(g).closed;
    hide IsRun, Run, At, Greeted, GreetedMoves, LostMoves, IsClosedIn;
    LostSessionGoes(g, Run(g, NewServer, GreetedMoves(t)), Greeted(g), FreshSession, t);
    RunSum(g, NewServer, GreetedMoves(t), LostMoves(g, t));
  }
}
