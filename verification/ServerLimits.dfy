/** How many sessions the server has, and what TLS is on a connection, in every run. */
module ServerLimits {
  import opened Wrappers
  import opened MailStorage
  import opened SmtpSession
  import opened Sockets
  import opened ConnectionRun
  import opened ConnectionInvariant
  import opened ServerSystem

  // ----- the number of sessions -----

  lemma SizeWith<K, V>(m: map<K, V>, k: K, v: V)
    ensures |m[k := v]| == if k in m then |m| else |m| + 1
  {
    assert m[k := v].Keys == m.Keys + {k};
    assert |m.Keys| == |m| && |m[k := v].Keys| == |m[k := v]|;
  }

  lemma SizeWithout<K, V>(m: map<K, V>, k: K)
    ensures |m - {k}| <= |m|
  {
    assert (m - {k}).Keys == m.Keys - {k};
    assert |m.Keys| == |m| && |(m - {k}).Keys| == |m - {k}|;
    assert m.Keys - {k} <= m.Keys;
    SubsetSize(m.Keys - {k}, m.Keys);
  }

  /** One session changes, or is new while there is room. */
  ghost predicate OneSession(g: Setting, before: map<int, Live>, after: map<int, Live>, id: int) {
    id in after && after == before[id := after[id]] && (id in before || |before| < g.maxConnections)
  }

  lemma OneSessionIs(g: Setting, before: map<int, Live>, id: int, live: Live)
    requires id in before || |before| < g.maxConnections
    ensures OneSession(g, before, before[id := live], id)
  {}

  lemma RouteOnSessions(g: Setting, s: Server)
    requires s.polled != []
    ensures var e, after := s.polled[0], RouteEvent(g, s).sessions;
      after == s.sessions || OneSession(g, s.sessions, after, e.id)
  {
    var e := s.polled[0];
    if e.id in s.sessions {
      OneSessionIs(g, s.sessions, e.id, s.sessions[e.id].(events := s.sessions[e.id].events + [e.event]));
    } else if |s.sessions| < g.maxConnections {
      OneSessionIs(g, s.sessions, e.id, NewLive.(events := [e.event]));
    }
    hide OneSession;
  }

  lemma ProcessOnSessions(g: Setting, s: Server, id: int, tables: Tables, fails: bool)
    requires HoldsTask(s, id)
    ensures OneSession(g, s.sessions, ProcessEvent(g, s, id, tables, fails).sessions, id)
  {
    var live := s.sessions[id];
    OneSessionIs(g, s.sessions, id, Process(g, id, live, live.stage.event, tables, fails).0);
    hide OneSession, Process, EventsOf, Without;
  }

  /** What a move does to the sessions: nothing, or one of them changes, goes, or is new while there is room. */
  lemma SessionsAfter(g: Setting, s: Server, m: Move)
    requires Enabled(g, s, m)
    ensures var before, after := s.sessions, Apply(g, s, m).sessions;
      after == before || after == before - {m.id} || OneSession(g, before, after, m.id)
  {
    hide OneSession, Accept, RunPost, Put, ContinueWith, RouteEvent, ProcessEvent, EventsOf, ReadEnds, WriteEnds,
         HandshakeEnds;
    match m.action
    case Routes(full) => RouteOnSessions(g, s);
    case Processes(tables, fails) => ProcessOnSessions(g, s, m.id, tables, fails);
    case Schedules =>
      var live := s.sessions[m.id];
      OneSessionIs(g, s.sessions, m.id, live.(stage := Scheduled(live.events[0]), events := live.events[1..]));
    case Continues => OneSessionIs(g, s.sessions, m.id, s.sessions[m.id].(stage := Released));
    case Finishes => OneSessionIs(g, s.sessions, m.id, s.sessions[m.id].(stage := Idle));
    case _ =>
  }

  lemma MoveKeepsLimit(g: Setting, s: Server, m: Move)
    requires Enabled(g, s, m) && |s.sessions| <= g.maxConnections
    ensures |Apply(g, s, m).sessions| <= g.maxConnections
  {
    hide Enabled, Apply;
    SessionsAfter(g, s, m);
    SizeWithout(s.sessions, m.id);
    if m.id in Apply(g, s, m).sessions {
      SizeWith(s.sessions, m.id, Apply(g, s, m).sessions[m.id]);
    }
  }

  lemma {:induction false} RunKeepsLimit(g: Setting, s: Server, moves: seq<Move>)
    requires IsRun(g, s, moves) && |s.sessions| <= g.maxConnections
    ensures |Run(g, s, moves).sessions| <= g.maxConnections
    decreases |moves|
  {
    if moves != [] {
      MoveKeepsLimit(g, s, moves[0]);
      hide Apply, Enabled;
      RunKeepsLimit(g, Apply(g, s, moves[0]), moves[1..]);
    }
  }

  /** In every run the server has at most as many sessions as it is configured for. */
  lemma SessionsAreLimited(g: Setting, moves: seq<Move>)
    requires IsRun(g, NewServer, moves)
    ensures |Run(g, NewServer, moves).sessions| <= g.maxConnections
  {
    RunKeepsLimit(g, NewServer, moves);
  }

  /**
   An event of a connection without a session: below the limit, and unless it is the end of the connection, it starts
   one; at the limit the connection is asked to close.
   */
  lemma FirstEvent(g: Setting, s: Server)
    requires s.polled != [] && s.polled[0].id !in s.sessions
    ensures var e, s' := s.polled[0], RouteEvent(g, s);
      && (e.id in s'.sessions <==> e.event != Disconnected && |s.sessions| < g.maxConnections)
      && (e.id in s'.sessions ==> s'.sessions[e.id] == Live(FreshSession, [e.event], Idle, false))
      && s'.net.posted
         == s.net.posted + if e.event != Disconnected && |s.sessions| >= g.maxConnections then [PostClose(e.id)] else []
  {
    assert s.net.posted + [] == s.net.posted;
  }

  // ----- TLS on a connection -----

  predicate HasTls(l: Local) {
    l.conn.Some? && l.conn.value.tlsEnabled
  }

  /** TLS is on exactly where a successful handshake was announced. */
  ghost predicate TlsAnnounced(l: Local) {
    HasTls(l) <==> TlsSucceeded in l.arrived
  }

  /** An operation turns TLS on if and only if it announces that. */
  ghost predicate TurnsOn(c: Conn, r: (Conn, seq<Event>)) {
    r.0.tlsEnabled <==> c.tlsEnabled || TlsSucceeded in r.1
  }

  lemma PostTurnsOn(c: Conn, post: Post)
    ensures TurnsOn(c, RunOn(c, post))
  {}

  lemma FailTurnsNothingOn(c: Conn, r: IoResult)
    ensures FailWith(c, r).0.tlsEnabled == c.tlsEnabled && TlsSucceeded !in FailWith(c, r).1
  {}

  lemma ReadTurnsNothingOn(c: Conn, r: IoResult, line: string)
    ensures TurnsOn(c, ReadEnds(c, r, line))
  {
    FailTurnsNothingOn(c.(readInProgress := false), r);
    hide FailWith;
  }

  lemma WriteTurnsNothingOn(c: Conn, r: IoResult)
    requires c.pending != []
    ensures TurnsOn(c, WriteEnds(c, r))
  {
    FailTurnsNothingOn(c.(writeInProgress := false), r);
    hide FailWith;
  }

  lemma HandshakeTurnsOn(c: Conn, ok: bool)
    requires c.handshakes > 0
    ensures TurnsOn(c, HandshakeEnds(c, ok))
  {
    FailTurnsNothingOn(c.(handshakes := c.handshakes - 1), Broken);
    hide FailWith;
  }

  lemma EndedTurnsOn(c: Conn, a: Action)
    requires EndsOperation(a) && LocalEnabled(Unborn.(conn := Some(c)), a)
    ensures TurnsOn(c, Ended(c, a))
  {
    hide TurnsOn, ReadEnds, WriteEnds, HandshakeEnds;
    match a
    case ReadDone(r, line) => ReadTurnsNothingOn(c, r, line);
    case WriteDone(r) => WriteTurnsNothingOn(c, r);
    case HandshakeDone(ok) => HandshakeTurnsOn(c, ok);
  }

  lemma HappensTls(l: Local, c: Conn, r: (Conn, seq<Event>))
    requires TlsAnnounced(l) && l.conn == Some(c) && TurnsOn(c, r)
    ensures TlsAnnounced(Happens(l, r))
  {}

  lemma ActionKeepsTls(g: Setting, id: int, l: Local, a: Action)
    requires LocalEnabled(l, a) && TlsAnnounced(l)
    ensures TlsAnnounced(LocalApply(g, id, l, a))
  {
    if EndsOperation(a) {
      EndsHappen(g, id, l, a);
      EndedTurnsOn(l.conn.value, a);
      HappensTls(l, l.conn.value, Ended(l.conn.value, a));
      hide TlsAnnounced, LocalApply, Ended, Happens, TurnsOn;
    } else if a.RunsPost? {
      RunsPostKeepsTls(g, id, l);
      hide TlsAnnounced, LocalApply;
    } else {
      hide ReadEnds, WriteEnds, HandshakeEnds, RunOn, Process;
    }
  }

  lemma RunsPostKeepsTls(g: Setting, id: int, l: Local)
    requires l.posted != [] && TlsAnnounced(l)
    ensures TlsAnnounced(LocalApply(g, id, l, RunsPost))
  {
    var l' := l.(posted := l.posted[1..], ran := l.ran + [l.posted[0]]);
    assert TlsAnnounced(l');
    if l.conn.Some? {
      PostTurnsOn(l.conn.value, l.posted[0]);
      HappensTls(l', l.conn.value, RunOn(l.conn.value, l.posted[0]));
    }
    hide RunOn, TlsAnnounced, Happens, TurnsOn;
  }

  lemma MoveKeepsTls(g: Setting, s: Server, m: Move, id: int)
    requires Enabled(g, s, m) && ServerInv(s) && TlsAnnounced(Seen(s, id))
    ensures TlsAnnounced(Seen(Apply(g, s, m), id))
  {
    AcceptedIsNext(g, s, m);
    MoveSimulates(g, s, m, id);
    hide Seen, Enabled, Apply, LocalEnabled, LocalApply, LocalInv, TlsAnnounced;
    if m.id == id || m.action.Polls? {
      ActionKeepsTls(g, id, Seen(s, id), m.action);
    }
  }

  lemma {:induction false} RunKeepsTls(g: Setting, s: Server, moves: seq<Move>, id: int)
    requires ServerInv(s) && IsRun(g, s, moves) && TlsAnnounced(Seen(s, id))
    ensures TlsAnnounced(Seen(Run(g, s, moves), id))
    decreases |moves|
  {
    if moves != [] {
      MoveKeepsTls(g, s, moves[0], id);
      ServerKept(g, s, moves[0]);
      hide ServerInv, Apply, Enabled, TlsAnnounced, Seen;
      RunKeepsTls(g, Apply(g, s, moves[0]), moves[1..], id);
    }
  }

  /** In every run a connection uses TLS if and only if a handshake on it has succeeded. */
  lemma TlsIffHandshake(g: Setting, moves: seq<Move>, id: int)
    requires IsRun(g, NewServer, moves)
    ensures var s := Run(g, NewServer, moves);
      id in s.net.connections && s.net.connections[id].tlsEnabled <==> TlsSucceeded in EventsOf(s.net.arrived, id)
  {
    NewServerHolds();
    assert TlsAnnounced(Seen(NewServer, id));
    RunKeepsTls(g, NewServer, moves, id);
    hide ServerInv, EventsOf, PostsFor, Run, IsRun;
  }

  // ----- handshakes -----

  /** What a starting handshake leaves: one more under way, and none that waits. */
  ghost predicate StartsOne(c: Conn, c': Conn) {
    HandshakeStarts(c, c') ==> c'.handshakes == c.handshakes + 1 && !c'.tlsHandshakePending
  }

  lemma StartTlsStartsOne(c: Conn)
    ensures StartsOne(c, StartTlsOn(c)) && (c.tlsEnabled ==> StartTlsOn(c) == c)
  {}

  lemma PostStartsOne(c: Conn, post: Post)
    ensures StartsOne(c, RunOn(c, post).0)
    ensures c.tlsEnabled && !c.tlsHandshakePending ==>
      RunOn(c, post).0.handshakes == c.handshakes && !RunOn(c, post).0.tlsHandshakePending
  {
    StartTlsStartsOne(c);
    hide StartTlsOn;
  }

  lemma WriteStartsOne(c: Conn, r: IoResult)
    requires c.pending != []
    ensures StartsOne(c, WriteEnds(c, r).0)
    ensures !c.tlsHandshakePending ==> WriteEnds(c, r).0.handshakes == c.handshakes
  {}

  /** Continue starts nothing while a read is under way, else the handshake that waits, or else a read. */
  lemma ContinueStartsOne(c: Conn)
    ensures StartsOne(c, Continue(c)) && (c.readInProgress ==> Continue(c) == c)
    ensures !c.closed && !c.closeRequested && !c.readInProgress ==>
      if c.tlsHandshakePending then HandshakeStarts(c, Continue(c)) <==> Drained(c)
      else Continue(c) == c.(readInProgress := true)
    ensures !c.tlsHandshakePending ==> Continue(c).handshakes == c.handshakes
  {}

  /** A handshake that starts no longer waits; and none starts on a connection that has TLS, unless one waits. */
  lemma HandshakesStartOnce(c: Conn, post: Post, r: IoResult)
    ensures StartsOne(c, RunOn(c, post).0) && StartsOne(c, Continue(c))
    ensures c.pending != [] ==> StartsOne(c, WriteEnds(c, r).0)
    ensures c.tlsEnabled && !c.tlsHandshakePending ==>
      && RunOn(c, post).0.handshakes == c.handshakes && !RunOn(c, post).0.tlsHandshakePending
      && Continue(c).handshakes == c.handshakes
      && (c.pending != [] ==> WriteEnds(c, r).0.handshakes == c.handshakes)
  {
    hide *;
    PostStartsOne(c, post);
    ContinueStartsOne(c);
    if c.pending != [] {
      WriteStartsOne(c, r);
    }
  }

  // ----- the end of a session -----

  /** What ProcessEvent does when the handler throws, and when the session is over. */
  lemma ProcessedIs(g: Setting, id: int, live: Live, event: Event, tables: Tables, fails: bool)
    ensures var h := Handle(g.config, g.users, tables, live.session, event, fails);
      var (live', posts) := Process(g, id, live, event, tables, fails);
      && live'.session == h.session && (h.threw ==> PostClose(id) in posts)
      && (event == Disconnected || h.session.phase == Closed ==> live'.isClosed)
      && (live'.isClosed ==> live.isClosed || event == Disconnected || h.session.phase == Closed)
  {
    hide Handle, PostsOf;
  }

  /** A session that has come to its end is marked, so that it can go. */
  ghost predicate EndIsMarked(l: Local) {
    l.live.Some? && l.live.value.session.phase == Closed ==> l.live.value.isClosed
  }

  lemma ActionKeepsMark(g: Setting, id: int, l: Local, a: Action)
    requires LocalEnabled(l, a) && EndIsMarked(l)
    ensures EndIsMarked(LocalApply(g, id, l, a))
  {
    if a.Processes? {
      ProcessedIs(g, id, l.live.value, l.live.value.stage.event, a.tables, a.fails);
    }
    hide RunOn, ReadEnds, WriteEnds, HandshakeEnds, Continue, Process, Handle;
  }

  lemma MoveKeepsMark(g: Setting, s: Server, m: Move, id: int)
    requires Enabled(g, s, m) && ServerInv(s) && EndIsMarked(Seen(s, id))
    ensures EndIsMarked(Seen(Apply(g, s, m), id))
  {
    AcceptedIsNext(g, s, m);
    MoveSimulates(g, s, m, id);
    hide Seen, Enabled, Apply, LocalEnabled, LocalApply, LocalInv, EndIsMarked;
    if m.id == id || m.action.Polls? {
      ActionKeepsMark(g, id, Seen(s, id), m.action);
    }
  }

  lemma {:induction false} RunKeepsMark(g: Setting, s: Server, moves: seq<Move>, id: int)
    requires ServerInv(s) && IsRun(g, s, moves) && EndIsMarked(Seen(s, id))
    ensures EndIsMarked(Seen(Run(g, s, moves), id))
    decreases |moves|
  {
    if moves != [] {
      MoveKeepsMark(g, s, moves[0], id);
      ServerKept(g, s, moves[0]);
      hide ServerInv, Apply, Enabled, EndIsMarked, Seen;
      RunKeepsMark(g, Apply(g, s, moves[0]), moves[1..], id);
    }
  }

  /** In every run a session that is over, idle and without events can be removed at once. */
  lemma OverMeansRemovable(g: Setting, moves: seq<Move>, id: int)
    requires IsRun(g, NewServer, moves) && id in Run(g, NewServer, moves).sessions
    ensures var s := Run(g, NewServer, moves); var live := s.sessions[id];
      live.session.phase == Closed && live.stage == Idle && live.events == [] ==>
        Enabled(g, s, Move(id, Removes)) && id !in Apply(g, s, Move(id, Removes)).sessions
  {
    NewServerHolds();
    assert EndIsMarked(Seen(NewServer, id));
    RunKeepsMark(g, NewServer, moves, id);
    var s := Run(g, NewServer, moves);
    assert Seen(s, id).live == Some(s.sessions[id]);
    hide ServerInv, Run, IsRun, Seen;
  }
}
