/**
 The run that leaves a connection stuck: a client sends STARTTLS and QUIT in one packet. Nothing fails, and the
 server answers both, but the connection is never closed.
 */
module PipelinedQuit {
  import opened Wrappers
  import opened Text
  import opened MailStorage
  import opened SmtpSession
  import opened Sockets
  import opened ConnectionRun
  import opened ServerSystem
  import opened ServerLoop
  import opened RequestedClose

  /** Connection 1 is the only one; its session is idle, and no event is on its way. */
  ghost predicate At(s: Server, c: Conn, session: Session, posted: seq<Post>) {
    && 1 in s.net.connections && s.net.connections[1] == c
    && s.net.ready == [] && s.polled == [] && s.tasks == [] && s.held == []
    && s.net.posted == posted && s.sessions == map[1 := Live(session, [], Idle, false)]
  }

  // ----- one line -----

  function ArrivalMoves(g: Setting, first: Action): seq<Move> {
    [Move(1, first), Move(1, Polls), Move(1, Routes(1 >= g.maxConnections)), Move(1, Schedules), Move(1, TakesTask)]
  }

  function HandlingMoves(t: Tables): seq<Move> {
    [Move(1, Processes(t, false)), Move(1, Continues), Move(1, Finishes)]
  }

  /** A worker has taken the task of the event. */
  ghost predicate InHand(s: Server, c: Conn, session: Session, event: Event, posted: seq<Post>) {
    && 1 in s.net.connections && s.net.connections[1] == c
    && s.net.ready == [] && s.polled == [] && s.tasks == [] && s.held == [SocketEvent(1, event)]
    && s.net.posted == posted && s.sessions == map[1 := Live(session, [], Scheduled(event), false)]
  }

  lemma FiveMoves(g: Setting, s: Server, m: seq<Move>, s1: Server, s2: Server, s3: Server, s4: Server, s5: Server)
    requires |m| == 5
    requires Enabled(g, s, m[0]) && Apply(g, s, m[0]) == s1
    requires Enabled(g, s1, m[1]) && Apply(g, s1, m[1]) == s2
    requires Enabled(g, s2, m[2]) && Apply(g, s2, m[2]) == s3
    requires Enabled(g, s3, m[3]) && Apply(g, s3, m[3]) == s4
    requires Enabled(g, s4, m[4]) && Apply(g, s4, m[4]) == s5
    ensures IsRun(g, s, m) && Run(g, s, m) == s5
  {
    hide *;
    ThreeMoves(g, s, m[0], m[1], m[2]);
    OneMove(g, s3, m[3]);
    OneMove(g, s4, m[4]);
    RunSum(g, s, [m[0], m[1], m[2]], [m[3]]);
    RunSum(g, s, [m[0], m[1], m[2]] + [m[3]], [m[4]]);
    assert [m[0], m[1], m[2]] + [m[3]] + [m[4]] == m;
  }

  lemma PollIsMove(g: Setting, s: Server)
    requires s.polled == []
    ensures Enabled(g, s, Move(1, Polls))
    ensures Apply(g, s, Move(1, Polls)) == s.(polled := s.net.ready, net := s.net.(ready := []))
  {}

  lemma RouteIsMove(g: Setting, s: Server, event: Event, session: Session)
    requires s.polled == [SocketEvent(1, event)] && s.sessions == map[1 := Live(session, [], Idle, false)]
    ensures var m := Move(1, Routes(1 >= g.maxConnections));
      && Enabled(g, s, m)
      && Apply(g, s, m) == s.(polled := [], sessions := map[1 := Live(session, [event], Idle, false)])
  {
    assert s.polled[1..] == [];
    assert s.sessions.Keys == {1};
    var live := s.sessions[1].(events := s.sessions[1].events + [event]);
    assert live == Live(session, [event], Idle, false);
    assert s.sessions[1 := live] == map[1 := live];
    hide Put;
  }

  lemma ScheduleIsMove(g: Setting, s: Server, event: Event, session: Session)
    requires s.tasks == [] && s.sessions == map[1 := Live(session, [event], Idle, false)]
    ensures var m := Move(1, Schedules);
      && Enabled(g, s, m)
      && Apply(g, s, m) == s.(tasks := [SocketEvent(1, event)],
                              sessions := map[1 := Live(session, [], Scheduled(event), false)])
  {
    var live := Live(session, [], Scheduled(event), false);
    assert s.sessions[1].events[1..] == [];
    assert s.sessions[1 := live] == map[1 := live];
    assert [] + [SocketEvent(1, event)] == [SocketEvent(1, event)];
  }

  lemma TakeIsMove(g: Setting, s: Server, e: SocketEvent)
    requires s.tasks == [e] && e.id == 1 && s.held == []
    ensures Enabled(g, s, Move(1, TakesTask)) && Apply(g, s, Move(1, TakesTask)) == s.(tasks := [], held := [e])
  {}

  /** From an event in the ready queue to its task in the hands of a worker. */
  lemma Arrives(g: Setting, s: Server, first: Action, s1: Server, c: Conn, session: Session, event: Event,
                posted: seq<Post>)
    requires Enabled(g, s, Move(1, first)) && Apply(g, s, Move(1, first)) == s1
    requires 1 in s1.net.connections && s1.net.connections[1] == c && s1.net.ready == [SocketEvent(1, event)]
    requires s1.polled == [] && s1.tasks == [] && s1.held == [] && s1.net.posted == posted
    requires s1.sessions == map[1 := Live(session, [], Idle, false)]
    ensures IsRun(g, s, ArrivalMoves(g, first)) && InHand(Run(g, s, ArrivalMoves(g, first)), c, session, event, posted)
  {
    var e := SocketEvent(1, event);
    var s2 := s1.(polled := [e], net := s1.net.(ready := []));
    var s3 := s2.(polled := [], sessions := map[1 := Live(session, [event], Idle, false)]);
    var s4 := s3.(tasks := [e], sessions := map[1 := Live(session, [], Scheduled(event), false)]);
    var s5 := s4.(tasks := [], held := [e]);
    assert InHand(s5, c, session, event, posted);
    hide Enabled, Apply, IsRun, Run;
    PollIsMove(g, s1);
    RouteIsMove(g, s2, event, session);
    ScheduleIsMove(g, s3, event, session);
    TakeIsMove(g, s4, e);
    FiveMoves(g, s, ArrivalMoves(g, first), s1, s2, s3, s4, s5);
  }

  // ----- the first event makes the session -----

  lemma RouteFirstIsMove(g: Setting, s: Server, event: Event)
    requires g.maxConnections > 0 && event != Disconnected && s.polled == [SocketEvent(1, event)] && s.sessions == map[]
    ensures var m := Move(1, Routes(false));
      && Enabled(g, s, m)
      && Apply(g, s, m) == s.(polled := [], sessions := map[1 := Live(FreshSession, [event], Idle, false)])
  {}

  function ConnectMoves(): seq<Move> {
    [Move(1, Accepts), Move(1, Polls), Move(1, Routes(false)), Move(1, Schedules), Move(1, TakesTask)]
  }

  lemma Connects(g: Setting)
    requires g.maxConnections > 0
    ensures IsRun(g, NewServer, ConnectMoves())
    ensures InHand(Run(g, NewServer, ConnectMoves()), NewConn, FreshSession, Connected, [])
  {
    var e, s := SocketEvent(1, Connected), NewServer;
    var s1 := Apply(g, s, Move(1, Accepts));
    assert Enabled(g, s, Move(1, Accepts)) && s1.net.connections[1] == NewConn && s1.net.ready == [e];
    assert s1.sessions == map[] && s1.polled == [] && s1.tasks == [] && s1.held == [] && s1.net.posted == [];
    var s2 := s1.(polled := [e], net := s1.net.(ready := []));
    var s3 := s2.(polled := [], sessions := map[1 := Live(FreshSession, [Connected], Idle, false)]);
    var s4 := s3.(tasks := [e], sessions := map[1 := Live(FreshSession, [], Scheduled(Connected), false)]);
    var s5 := s4.(tasks := [], held := [e]);
    assert InHand(s5, NewConn, FreshSession, Connected, []);
    hide Enabled, Apply, IsRun, Run;
    PollIsMove(g, s1);
    RouteFirstIsMove(g, s2, Connected);
    ScheduleIsMove(g, s3, Connected, FreshSession);
    TakeIsMove(g, s4, e);
    FiveMoves(g, s, ConnectMoves(), s1, s2, s3, s4, s5);
  }

  // ----- handling -----

  /** The connection after the handler has returned: read on, unless the session is closing. */
  function ReadOn(c: Conn, session: Session): Conn {
    if session.phase == Closing || session.phase == Closed then c else Continue(c)
  }

  lemma HoldsIt(s: Server, c: Conn, session: Session, event: Event, posted: seq<Post>)
    requires InHand(s, c, session, event, posted)
    ensures HoldsTask(s, 1) && Without(s.held, 1) == []
  {}

  lemma ProcessedIs(g: Setting, s: Server, c: Conn, session: Session, event: Event, posted: seq<Post>, t: Tables)
    requires InHand(s, c, session, event, posted) && HoldsTask(s, 1) && Without(s.held, 1) == []
    requires event != Disconnected
    requires var h := Handle(g.config, g.users, t, session, event, false); !h.threw && h.session.phase != Closed
    ensures var h := Handle(g.config, g.users, t, session, event, false);
      At(Processed(g, s, 1, t, false), ReadOn(c, h.session), h.session, posted + PostsOf(1, h.effects))
  {
    var h := Handle(g.config, g.users, t, session, event, false);
    var s1 := ProcessEvent(g, s, 1, t, false);
    ProcessesTo(g, s, c, session, event, posted, t);
    hide Handle, PostsOf, ProcessEvent, Without, HoldsTask, Continue;
    var answered := Live(h.session, [], Answered(h.session.phase != Closing), false);
    assert s1.sessions[1 := answered.(stage := Idle)] == map[1 := Live(h.session, [], Idle, false)];
  }

  lemma ProcessesTo(g: Setting, s: Server, c: Conn, session: Session, event: Event, posted: seq<Post>, t: Tables)
    requires InHand(s, c, session, event, posted) && HoldsTask(s, 1) && Without(s.held, 1) == []
    requires event != Disconnected
    requires var h := Handle(g.config, g.users, t, session, event, false); !h.threw && h.session.phase != Closed
    ensures var h, s1 := Handle(g.config, g.users, t, session, event, false), ProcessEvent(g, s, 1, t, false);
      && s1.sessions == map[1 := Live(h.session, [], Answered(h.session.phase != Closing), false)]
      && s1.net == s.net.(posted := posted + PostsOf(1, h.effects))
      && s1.held == [] && s1.tasks == s.tasks && s1.polled == s.polled
  {
    ProcessIs(g, session, event, t);
    hide Handle, PostsOf, Process, Without, HoldsTask;
  }

  lemma ProcessIs(g: Setting, session: Session, event: Event, t: Tables)
    requires event != Disconnected
    requires var h := Handle(g.config, g.users, t, session, event, false); !h.threw && h.session.phase != Closed
    ensures var h := Handle(g.config, g.users, t, session, event, false);
      Process(g, 1, Live(session, [], Scheduled(event), false), event, t, false)
      == (Live(h.session, [], Answered(h.session.phase != Closing), false), PostsOf(1, h.effects))
  {
    var h := Handle(g.config, g.users, t, session, event, false);
    hide Handle, PostsOf;
    AddNothing(PostsOf(1, h.effects));
  }

  lemma Handles(g: Setting, s: Server, c: Conn, session: Session, event: Event, posted: seq<Post>, t: Tables)
    requires InHand(s, c, session, event, posted) && event != Disconnected
    requires var h := Handle(g.config, g.users, t, session, event, false); !h.threw && h.session.phase != Closed
    ensures var h := Handle(g.config, g.users, t, session, event, false);
      && IsRun(g, s, HandlingMoves(t))
      && At(Run(g, s, HandlingMoves(t)), ReadOn(c, h.session), h.session, posted + PostsOf(1, h.effects))
  {
    HoldsIt(s, c, session, event, posted);
    ProcessedIs(g, s, c, session, event, posted, t);
    ProcessingIsRun(g, s, 1, t, false);
    hide At, InHand, Handle, IsRun, Run, Processed, HoldsTask;
  }

  function LineMoves(g: Setting, line: string, t: Tables): seq<Move> {
    ArrivalMoves(g, ReadDone(Fine, line)) + HandlingMoves(t)
  }

  lemma ReadIsMove(g: Setting, s: Server, c: Conn, line: string)
    requires 1 in s.net.connections && s.net.connections[1] == c && c.readInProgress && s.net.ready == []
    ensures var m, s1 := Move(1, ReadDone(Fine, line)), Apply(g, s, Move(1, ReadDone(Fine, line)));
      && Enabled(g, s, m)
      && s1 == s.(net := s1.net) && s1.net.posted == s.net.posted
      && 1 in s1.net.connections && s1.net.connections[1] == c.(readInProgress := false)
      && s1.net.ready == [SocketEvent(1, MessageReceived(line))]
  {}

  /** A line is read, routed, scheduled, handled, and the next read begins unless the session is closing. */
  lemma LineHandled(g: Setting, s: Server, c: Conn, session: Session, line: string, posted: seq<Post>, t: Tables)
    requires At(s, c, session, posted) && c.readInProgress
    requires var h := Handle(g.config, g.users, t, session, MessageReceived(line), false);
      !h.threw && h.session.phase != Closed
    ensures var h := Handle(g.config, g.users, t, session, MessageReceived(line), false);
      && IsRun(g, s, LineMoves(g, line, t))
      && At(Run(g, s, LineMoves(g, line, t)), ReadOn(c.(readInProgress := false), h.session), h.session,
            posted + PostsOf(1, h.effects))
  {
    var first := ReadDone(Fine, line);
    var c1 := c.(readInProgress := false);
    hide Handle, Apply, Enabled, IsRun, Run, InHand, ReadOn;
    ReadIsMove(g, s, c, line);
    Arrives(g, s, first, Apply(g, s, Move(1, first)), c1, session, MessageReceived(line), posted);
    var s5 := Run(g, s, ArrivalMoves(g, first));
    Handles(g, s5, c1, session, MessageReceived(line), posted, t);
    RunSum(g, s, ArrivalMoves(g, first), HandlingMoves(t));
  }

  // ----- posts and writes -----

  lemma PostRuns(g: Setting, s: Server, c: Conn, session: Session, posted: seq<Post>)
    requires At(s, c, session, posted) && posted != [] && posted[0].id == 1 && RunOn(c, posted[0]).1 == []
    ensures IsRun(g, s, [Move(1, RunsPost)])
    ensures At(Run(g, s, [Move(1, RunsPost)]), RunOn(c, posted[0]).0, session, posted[1..])
  {}

  lemma WriteDoneRuns(g: Setting, s: Server, c: Conn, session: Session, posted: seq<Post>)
    requires At(s, c, session, posted) && c.writeInProgress && c.pending != [] && WriteEnds(c, Fine).1 == []
    ensures IsRun(g, s, [Move(1, WriteDone(Fine))])
    ensures At(Run(g, s, [Move(1, WriteDone(Fine))]), WriteEnds(c, Fine).0, session, posted)
  {}

  // ----- the dialogue -----

  lemma WordIsCommand(word: string)
    requires word in {"STARTTLS", "QUIT"}
    ensures Trimmed(word) == word && Command(word) == word && Argument(word) == ""
    ensures VerbOf(word) == if word == "QUIT" then Quit else StartTls
  {
    assert IsTrimmed("STARTTLS") && IsTrimmed("QUIT") && ' ' !in "STARTTLS" && ' ' !in "QUIT";
    assert Upper("STARTTLS") == "STARTTLS" && Upper("QUIT") == "QUIT";
    TrimmedIsTrimmed(word);
    assert Find(word, ' ') == None;
    assert "STARTTLS"[0] == 'S' && "QUIT"[0] == 'Q';
    assert |"STARTTLS"| == 8;
    hide Trimmed, Upper, Find;
    VerbsAre();
  }

  lemma VerbsAre()
    ensures VerbOf("STARTTLS") == StartTls && VerbOf("QUIT") == Quit
  {}

  function Wire(code: nat, text: string): string {
    Rendered(Reply(code, true, text))
  }

  lemma Greets(g: Setting, t: Tables)
    ensures Handle(g.config, g.users, t, FreshSession, Connected, false)
         == Handled(FreshSession, t, [Reply(220, true, g.config.serverName + " ESMTP ready")], false)
  {}

  /** The session after STARTTLS is accepted. */
  const TlsPending := FreshSession.(phase := WaitingForGreeting, tlsHandshakePending := true)

  lemma WordHandled(g: Setting, t: Tables, session: Session, word: string)
    requires word in {"STARTTLS", "QUIT"} && session.authStage == NoAuth && session.phase != ReceivingMessage
    ensures var verb := if word == "QUIT" then Quit else StartTls;
      var (session', effects) := OnCommand(g.config, g.users, session, verb, "");
      Handle(g.config, g.users, t, session, MessageReceived(word), false) == Handled(session', t, effects, false)
  {
    WordIsCommand(word);
    hide Trimmed, Command, Argument, VerbOf, OnCommand, OnDataLine, OnPlainResponse, OnLoginUsername, OnLoginPassword;
  }

  lemma StartTlsAccepted(g: Setting, t: Tables)
    requires g.config.tlsEnabled
    ensures Handle(g.config, g.users, t, FreshSession, MessageReceived("STARTTLS"), false)
         == Handled(TlsPending, t, [Reply(220, true, "Ready to start TLS"), TlsRequested], false)
  {
    assert OnStartTls(g.config, FreshSession) == (TlsPending, [Reply(220, true, "Ready to start TLS"), TlsRequested]);
    WordHandled(g, t, FreshSession, "STARTTLS");
    hide Handle, OnStartTls;
  }

  lemma QuitCommand(g: Setting, session: Session)
    ensures OnCommand(g.config, g.users, session, Quit, "")
         == (session.(phase := Closing),
             [Reply(221, true, g.config.serverName + " closing connection"), CloseRequested])
  {}

  lemma QuitAccepted(g: Setting, t: Tables)
    ensures Handle(g.config, g.users, t, TlsPending, MessageReceived("QUIT"), false)
         == Handled(TlsPending.(phase := Closing), t,
                    [Reply(221, true, g.config.serverName + " closing connection"), CloseRequested], false)
  {
    assert TlsPending.authStage == NoAuth && TlsPending.phase != ReceivingMessage;
    hide Handle, OnCommand;
    WordHandled(g, t, TlsPending, "QUIT");
    QuitCommand(g, TlsPending);
  }

  lemma PostsAre(code: nat, text: string)
    ensures PostsOf(1, [Reply(code, true, text)]) == [PostSend(1, Wire(code, text))]
    ensures PostsOf(1, [Reply(code, true, text), TlsRequested]) == [PostSend(1, Wire(code, text)), PostStartTls(1)]
    ensures PostsOf(1, [Reply(code, true, text), CloseRequested]) == [PostSend(1, Wire(code, text)), PostClose(1)]
  {
    var reply := Reply(code, true, text);
    assert [reply][1..] == [] && [reply, TlsRequested][1..] == [TlsRequested] && [TlsRequested][1..] == [];
    assert [reply, CloseRequested][1..] == [CloseRequested] && [CloseRequested][1..] == [];
    hide Rendered;
  }

  // ----- the run -----

  ghost predicate Reaches(g: Setting, moves: seq<Move>, c: Conn, session: Session, posted: seq<Post>) {
    IsRun(g, NewServer, moves) && At(Run(g, NewServer, moves), c, session, posted)
  }

  lemma ReachesConnected(g: Setting, t: Tables)
    requires g.maxConnections > 0
    ensures Reaches(g, ConnectMoves() + HandlingMoves(t), Continue(NewConn), FreshSession,
                    [PostSend(1, Wire(220, g.config.serverName + " ESMTP ready"))])
  {
    Greets(g, t);
    PostsAre(220, g.config.serverName + " ESMTP ready");
    assert FreshSession.phase == WaitingForGreeting;
    hide Handle, IsRun, Run, InHand, At, PostsOf, ConnectMoves, HandlingMoves, Continue, Wire;
    Connects(g);
    var s5 := Run(g, NewServer, ConnectMoves());
    Handles(g, s5, NewConn, FreshSession, Connected, [], t);
    RunSum(g, NewServer, ConnectMoves(), HandlingMoves(t));
    var send := PostSend(1, Wire(220, g.config.serverName + " ESMTP ready"));
    assert [] + [send] == [send];
  }

  lemma ReachesLine(g: Setting, moves: seq<Move>, c: Conn, session: Session, posted: seq<Post>, line: string, t: Tables)
    requires Reaches(g, moves, c, session, posted) && c.readInProgress
    requires var h := Handle(g.config, g.users, t, session, MessageReceived(line), false);
      !h.threw && h.session.phase != Closed
    ensures var h := Handle(g.config, g.users, t, session, MessageReceived(line), false);
      Reaches(g, moves + LineMoves(g, line, t), ReadOn(c.(readInProgress := false), h.session), h.session,
              posted + PostsOf(1, h.effects))
  {
    hide Handle, IsRun, Run, At, PostsOf, LineMoves, ReadOn;
    LineHandled(g, Run(g, NewServer, moves), c, session, line, posted, t);
    RunSum(g, NewServer, moves, LineMoves(g, line, t));
  }

  lemma ReachesPost(g: Setting, moves: seq<Move>, c: Conn, session: Session, post: Post, rest: seq<Post>)
    requires Reaches(g, moves, c, session, [post] + rest) && post.id == 1 && RunOn(c, post).1 == []
    ensures Reaches(g, moves + [Move(1, RunsPost)], RunOn(c, post).0, session, rest)
  {
    hide IsRun, Run, At, RunOn;
    PostRuns(g, Run(g, NewServer, moves), c, session, [post] + rest);
    RunSum(g, NewServer, moves, [Move(1, RunsPost)]);
    assert ([post] + rest)[1..] == rest;
  }

  lemma ReachesWrite(g: Setting, moves: seq<Move>, c: Conn, session: Session, posted: seq<Post>)
    requires Reaches(g, moves, c, session, posted) && c.writeInProgress && c.pending != [] && WriteEnds(c, Fine).1 == []
    ensures Reaches(g, moves + [Move(1, WriteDone(Fine))], WriteEnds(c, Fine).0, session, posted)
  {
    hide IsRun, Run, At, WriteEnds;
    WriteDoneRuns(g, Run(g, NewServer, moves), c, session, posted);
    RunSum(g, NewServer, moves, [Move(1, WriteDone(Fine))]);
  }

  function Greeting(g: Setting): string {
    Wire(220, g.config.serverName + " ESMTP ready")
  }

  function Ready(): string {
    Wire(220, "Ready to start TLS")
  }

  function Goodbye(g: Setting): string {
    Wire(221, g.config.serverName + " closing connection")
  }

  /** The greeting is written. */
  function GreetedMoves(t: Tables): seq<Move> {
    ConnectMoves() + HandlingMoves(t) + [Move(1, RunsPost)] + [Move(1, WriteDone(Fine))]
  }

  function Greeted(g: Setting): Conn {
    NewConn.(readInProgress := true, accepted := [Greeting(g)], written := [Greeting(g)])
  }

  lemma GreetedConn(g: Setting)
    ensures Continue(NewConn) == NewConn.(readInProgress := true)
    ensures var c := Send(NewConn.(readInProgress := true), Greeting(g));
      c.writeInProgress && c.pending != [] && WriteEnds(c, Fine) == (Greeted(g), [])
  {
    hide Greeting;
    assert [] + [Greeting(g)] == [Greeting(g)] && [Greeting(g)][1..] == [];
  }

  lemma ReachesGreeted(g: Setting, t: Tables)
    requires g.maxConnections > 0
    ensures Reaches(g, GreetedMoves(t), Greeted(g), FreshSession, [])
  {
    var send := PostSend(1, Greeting(g));
    var c := NewConn.(readInProgress := true);
    assert RunOn(c, send) == (Send(c, Greeting(g)), []);
    ReachesConnected(g, t);
    GreetedConn(g);
    hide Reaches, Send, WriteEnds, RunOn, ConnectMoves, HandlingMoves, Greeted, Wire;
    assert [send] + [] == [send];
    ReachesPost(g, ConnectMoves() + HandlingMoves(t), c, FreshSession, send, []);
    ReachesWrite(g, ConnectMoves() + HandlingMoves(t) + [Move(1, RunsPost)], Send(c, Greeting(g)), FreshSession, []);
  }

  const Leaving := TlsPending.(phase := Closing)

  lemma ReachesStartTls(g: Setting, t: Tables)
    requires g.maxConnections > 0 && g.config.tlsEnabled
    ensures Reaches(g, GreetedMoves(t) + LineMoves(g, "STARTTLS", t), Greeted(g), TlsPending,
                    [PostSend(1, Ready()), PostStartTls(1)])
  {
    var c := Greeted(g);
    assert c.readInProgress && Continue(c.(readInProgress := false)) == c;
    assert TlsPending.phase == WaitingForGreeting;
    StartTlsAccepted(g, t);
    PostsAre(220, "Ready to start TLS");
    ReachesGreeted(g, t);
    hide Reaches, Handle, PostsOf, LineMoves, GreetedMoves, Greeted, Continue, Wire;
    ReachesLine(g, GreetedMoves(t), c, FreshSession, [], "STARTTLS", t);
    var posts := [PostSend(1, Ready()), PostStartTls(1)];
    assert [] + posts == posts;
  }

  /** STARTTLS is handled, and what it posted is run: the 220 reply is being written, and the handshake waits for it. */
  function WaitingMoves(g: Setting, t: Tables): seq<Move> {
    GreetedMoves(t) + LineMoves(g, "STARTTLS", t) + [Move(1, RunsPost)] + [Move(1, RunsPost)]
  }

  function Waiting(g: Setting): Conn {
    StartTlsOn(Send(Greeted(g), Ready()))
  }

  lemma ReachesWaiting(g: Setting, t: Tables)
    requires g.maxConnections > 0 && g.config.tlsEnabled
    ensures Reaches(g, WaitingMoves(g, t), Waiting(g), TlsPending, [])
  {
    var p1, p2 := PostSend(1, Ready()), PostStartTls(1);
    var c, moves, run := Greeted(g), GreetedMoves(t) + LineMoves(g, "STARTTLS", t), [Move(1, RunsPost)];
    assert RunOn(c, p1) == (Send(c, Ready()), []) && RunOn(Send(c, Ready()), p2) == (Waiting(g), []);
    assert p1.id == 1 && p2.id == 1 && [p1, p2] == [p1] + ([p2] + []);
    assert WaitingMoves(g, t) == moves + run + run;
    ReachesStartTls(g, t);
    hide *;
    ReachesPost(g, moves, c, TlsPending, p1, [p2] + []);
    ReachesPost(g, moves + run, Send(c, Ready()), TlsPending, p2, []);
  }

  /** The read that was started before the handshake was asked for ends with the line QUIT. */
  lemma ReachesAsked(g: Setting, t: Tables)
    requires g.maxConnections > 0 && g.config.tlsEnabled
    ensures Reaches(g, WaitingMoves(g, t) + LineMoves(g, "QUIT", t), Waiting(g).(readInProgress := false), Leaving,
                    [PostSend(1, Goodbye(g)), PostClose(1)])
  {
    assert Waiting(g).readInProgress by {
      hide Wire;
    }
    assert Leaving.phase == Closing;
    QuitAccepted(g, t);
    PostsAre(221, g.config.serverName + " closing connection");
    ReachesWaiting(g, t);
    hide Reaches, Handle, PostsOf, LineMoves, WaitingMoves, Waiting, Wire;
    ReachesLine(g, WaitingMoves(g, t), Waiting(g), TlsPending, [], "QUIT", t);
    var posts := [PostSend(1, Goodbye(g)), PostClose(1)];
    assert [] + posts == posts;
  }

  /** The posts of QUIT run while the 220 reply is still being written; then both replies are written. */
  function StuckMoves(g: Setting, t: Tables): seq<Move> {
    WaitingMoves(g, t) + LineMoves(g, "QUIT", t) + [Move(1, RunsPost)] + [Move(1, RunsPost)]
    + [Move(1, WriteDone(Fine))] + [Move(1, WriteDone(Fine))]
  }

  /** The connection after each of the last four moves. */
  lemma FourConns(c: Conn, ready: string, goodbye: string)
    requires ConnInv(c) && !c.closed && !c.closeRequested && c.writeInProgress && c.tlsHandshakePending
    requires c.pending == [ready] && c.handshakes == 0 && !c.readInProgress
    ensures var c1 := Send(c, goodbye);
      && RunOn(c, PostSend(1, goodbye)) == (c1, [])
      && RunOn(c1, PostClose(1)) == (c1.(closeRequested := true), [])
    ensures var c2 := Send(c, goodbye).(closeRequested := true);
      && c2.writeInProgress && c2.pending == [ready, goodbye]
      && var (c3, events) := WriteEnds(c2, Fine);
      && events == [] && c3.writeInProgress && c3.pending == [goodbye]
      && WriteEnds(c3, Fine).1 == [] && Stuck(WriteEnds(c3, Fine).0)
      && WriteEnds(c3, Fine).0.written == c.written + [ready] + [goodbye]
  {}

  lemma WaitingConn(g: Setting)
    ensures var c := Waiting(g).(readInProgress := false);
      && ConnInv(c) && !c.closed && !c.closeRequested && c.writeInProgress && c.tlsHandshakePending
      && c.pending == [Ready()] && c.handshakes == 0 && c.written == [Greeting(g)]
  {
    hide Wire;
  }

  /**
   A client that sends STARTTLS and QUIT in one packet, and does not read the reply to STARTTLS before the server runs
   the Close, leaves the server with a connection that is stuck: both replies are written, the session is closing, and
   nothing is left to run. For every setting with TLS, with every handler run in the order of one I/O thread, and
   without any failure.
   */
  lemma QuitBehindStartTlsSticks(g: Setting, t: Tables)
    requires g.maxConnections > 0 && g.config.tlsEnabled
    ensures IsRun(g, NewServer, StuckMoves(g, t))
    ensures var s := Run(g, NewServer, StuckMoves(g, t));
      && 1 in s.net.connections && Stuck(s.net.connections[1])
      && s.net.connections[1].written == [Greeting(g), Ready(), Goodbye(g)]
      && 1 in s.sessions && s.sessions[1].session.phase == Closing && Abandoned(Seen(s, 1))
  {
    var c := Waiting(g).(readInProgress := false);
    var p3, p4 := PostSend(1, Goodbye(g)), PostClose(1);
    var moves := WaitingMoves(g, t) + LineMoves(g, "QUIT", t);
    var run, wrote := [Move(1, RunsPost)], [Move(1, WriteDone(Fine))];
    WaitingConn(g);
    FourConns(c, Ready(), Goodbye(g));
    var c3 := Send(c, Goodbye(g));
    var c4 := c3.(closeRequested := true);
    var c5 := WriteEnds(c4, Fine).0;
    assert c4.pending != [] && c5.pending != [];
    var c6 := WriteEnds(c5, Fine).0;
    assert [Greeting(g)] + [Ready()] + [Goodbye(g)] == [Greeting(g), Ready(), Goodbye(g)];
    assert StuckMoves(g, t) == moves + run + run + wrote + wrote;
    assert p3.id == 1 && p4.id == 1 && [p3, p4] == [p3] + ([p4] + []);
    ReachesAsked(g, t);
    ReachedIs(g, StuckMoves(g, t), c6);
    hide *;
    ReachesPost(g, moves, c, Leaving, p3, [p4] + []);
    ReachesPost(g, moves + run, c3, Leaving, p4, []);
    ReachesWrite(g, moves + run + run, c4, Leaving, []);
    ReachesWrite(g, moves + run + run + wrote, c5, Leaving, []);
  }

  lemma ReachedIs(g: Setting, moves: seq<Move>, c: Conn)
    requires Stuck(c)
    ensures Reaches(g, moves, c, Leaving, []) ==>
      && IsRun(g, NewServer, moves)
      && var s := Run(g, NewServer, moves);
      && 1 in s.net.connections && s.net.connections[1] == c
      && 1 in s.sessions && s.sessions[1].session.phase == Closing && Abandoned(Seen(s, 1))
  {}

  /** And it stays: no continuation of that run closes the connection or removes its session. */
  lemma NeverClosed(g: Setting, t: Tables, more: seq<Move>)
    requires g.maxConnections > 0 && g.config.tlsEnabled
    requires IsRun(g, NewServer, StuckMoves(g, t)) && IsRun(g, Run(g, NewServer, StuckMoves(g, t)), more)
    ensures var s' := Run(g, Run(g, NewServer, StuckMoves(g, t)), more);
      && 1 in s'.net.connections && Stuck(s'.net.connections[1])
      && 1 in s'.sessions && s'.sessions[1].session.phase == Closing
  {
    var s := Run(g, NewServer, StuckMoves(g, t));
    hide *;
    QuitBehindStartTlsSticks(g, t);
    NewServerHolds();
    RunKeeps(g, NewServer, StuckMoves(g, t));
    AbandonedForever(g, s, more, 1);
    SeenIs(s);
    SeenIs(Run(g, s, more));
  }

  lemma SeenIs(s: Server)
    ensures Seen(s, 1).conn.Some? <==> 1 in s.net.connections
    ensures Seen(s, 1).live.Some? <==> 1 in s.sessions
    ensures 1 in s.net.connections ==> Seen(s, 1).conn.value == s.net.connections[1]
    ensures 1 in s.sessions ==> Seen(s, 1).live.value == s.sessions[1]
  {}
}
