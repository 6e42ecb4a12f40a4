/**
 One connection on its way through the server: the sockets manager, the events vector of RunOnce, the event
 queue of its session and the worker that processes one of them. The actions of all threads interleave freely.
 */
module ConnectionRun {
  import opened Wrappers
  import opened MailStorage
  import opened SmtpSession
  import opened Sockets

  /** Where the task of a session is: not there, scheduled, past HandleEvent, or past Continue. */
  datatype Stage = Idle | Scheduled(event: Event) | Answered(continues: bool) | Released

  /** One SmtpSession object; isProcessing_ is stage != Idle. */
  datatype Live = Live(session: Session, events: seq<Event>, stage: Stage, isClosed: bool)

  const NewLive := Live(FreshSession, [], Idle, false)

  datatype Setting = Setting(config: ServerConfig, users: map<string, string>, maxConnections: nat)

  /**
   What concerns one connection. tasks are those of its session in the queue of the pool, held those that a
   worker has taken and not begun to handle. arrived and finished log the events queued for it and those
   handled or dropped, ran the posts that were run; tlsAsked and quit record an accepted STARTTLS and a QUIT.
   */
  datatype Local = Local(
    conn: Option<Conn>,
    live: Option<Live>,
    polled: seq<Event>,
    tasks: seq<Event>,
    held: seq<Event>,
    ready: seq<Event>,
    posted: seq<Post>,
    ran: seq<Post>,
    arrived: seq<Event>,
    finished: seq<Event>,
    tlsAsked: bool,
    quit: bool)

  const Unborn := Local(None, None, [], [], [], [], [], [], [], [], false, false)

  datatype Action =
    | Accepts
    | RunsPost
    | ReadDone(r: IoResult, line: string)
    | WriteDone(r: IoResult)
    | HandshakeDone(ok: bool)
    | Polls
    | Routes(full: bool)
    | Schedules
    | TakesTask
    | Processes(tables: Tables, fails: bool)
    | Continues
    | Finishes
    | Removes

  function PostsOf(id: int, effects: seq<Effect>): seq<Post>
    decreases |effects|
  {
    if effects == [] then []
    else
      (match effects[0]
       case Reply(code, last, text) => [PostSend(id, Rendered(effects[0]))]
       case CloseRequested => [PostClose(id)]
       case TlsRequested => [PostStartTls(id)]
       case Stored(m, sender, recipients, body) => [])
      + PostsOf(id, effects[1..])
  }

  /** What ProcessEvent has done once HandleEvent has returned or thrown. */
  function Process(g: Setting, id: int, live: Live, event: Event, tables: Tables, fails: bool): (Live, seq<Post>) {
    var h := Handle(g.config, g.users, tables, live.session, event, fails);
    var phase := h.session.phase;
    (live.(session := h.session,
           isClosed := live.isClosed || event == Disconnected || phase == Closed,
           stage := Answered(event != Disconnected && phase != Closing && phase != Closed)),
     PostsOf(id, h.effects) + if h.threw then [PostClose(id)] else [])
  }

  /** A worker holds the task of the scheduled event. */
  predicate CanProcess(l: Local) {
    l.live.Some? && l.live.value.stage.Scheduled? && l.held != [] && l.held[0] == l.live.value.stage.event
  }

  predicate LocalEnabled(l: Local, a: Action) {
    match a
    case Accepts => l == Unborn
    case RunsPost => l.posted != []
    case ReadDone(r, line) => l.conn.Some? && l.conn.value.readInProgress
    case WriteDone(r) => l.conn.Some? && l.conn.value.writeInProgress && l.conn.value.pending != []
    case HandshakeDone(ok) => l.conn.Some? && l.conn.value.handshakes > 0
    case Polls => true
    case Routes(full) => l.polled != []
    case Schedules => l.live.Some? && l.live.value.stage == Idle && l.live.value.events != []
    case TakesTask => l.tasks != []
    case Processes(tables, fails) => CanProcess(l)
    case Continues => l.live.Some? && l.live.value.stage.Answered?
    case Finishes => l.live.Some? && l.live.value.stage == Released
    case Removes => l.live.Some? && l.live.value.isClosed && l.live.value.stage == Idle && l.live.value.events == []
  }

  function Happens(l: Local, r: (Conn, seq<Event>)): Local {
    l.(conn := Some(r.0), ready := l.ready + r.1, arrived := l.arrived + r.1)
  }

  function LocalRoute(id: int, l: Local, full: bool): Local
    requires l.polled != []
  {
    var event, l' := l.polled[0], l.(polled := l.polled[1..]);
    if l.live.Some? then l'.(live := Some(l.live.value.(events := l.live.value.events + [event])))
    else if event == Disconnected then l'.(finished := l.finished + [event])
    else if full then l'.(finished := l.finished + [event], posted := l.posted + [PostClose(id)])
    else l'.(live := Some(NewLive.(events := [event])))
  }

  function LocalProcess(g: Setting, id: int, l: Local, tables: Tables, fails: bool): Local
    requires CanProcess(l)
  {
    var event := l.live.value.stage.event;
    var (live', posts) := Process(g, id, l.live.value, event, tables, fails);
    l.(live := Some(live'),
       held := l.held[1..],
       posted := l.posted + posts,
       finished := l.finished + [event],
       tlsAsked := l.tlsAsked || PostStartTls(id) in posts,
       quit := l.quit || live'.session.phase == Closing)
  }

  function LocalApply(g: Setting, id: int, l: Local, a: Action): Local
    requires LocalEnabled(l, a)
  {
    match a
    case Accepts => Happens(l, (NewConn, [Connected]))
    case RunsPost =>
      var l' := l.(posted := l.posted[1..], ran := l.ran + [l.posted[0]]);
      if l.conn.Some? then Happens(l', RunOn(l.conn.value, l.posted[0])) else l'
    case ReadDone(r, line) => Happens(l, ReadEnds(l.conn.value, r, line))
    case WriteDone(r) => Happens(l, WriteEnds(l.conn.value, r))
    case HandshakeDone(ok) => Happens(l, HandshakeEnds(l.conn.value, ok))
    case Polls => l.(polled := l.polled + l.ready, ready := [])
    case Routes(full) => LocalRoute(id, l, full)
    case Schedules =>
      l.(live := Some(l.live.value.(stage := Scheduled(l.live.value.events[0]), events := l.live.value.events[1..])),
         tasks := l.tasks + [l.live.value.events[0]])
    case TakesTask => l.(tasks := l.tasks[1..], held := l.held + [l.tasks[0]])
    case Processes(tables, fails) => LocalProcess(g, id, l, tables, fails)
    case Continues =>
      var l' := l.(live := Some(l.live.value.(stage := Released)));
      if l.live.value.stage.continues && l.conn.Some? then l'.(conn := Some(Continue(l.conn.value))) else l'
    case Finishes => l.(live := Some(l.live.value.(stage := Idle)))
    case Removes => l.(live := None)
  }

  predicate EndsOperation(a: Action) {
    a.ReadDone? || a.WriteDone? || a.HandshakeDone?
  }

  /** The connection and its new events after an operation has ended. */
  function Ended(c: Conn, a: Action): (Conn, seq<Event>)
    requires EndsOperation(a) && LocalEnabled(Unborn.(conn := Some(c)), a)
  {
    match a
    case ReadDone(r, line) => ReadEnds(c, r, line)
    case WriteDone(r) => WriteEnds(c, r)
    case HandshakeDone(ok) => HandshakeEnds(c, ok)
  }

  lemma EndsHappen(g: Setting, id: int, l: Local, a: Action)
    requires LocalEnabled(l, a) && EndsOperation(a)
    ensures LocalEnabled(Unborn.(conn := l.conn), a) && l.conn.Some?
    ensures LocalApply(g, id, l, a) == Happens(l, Ended(l.conn.value, a))
  {
    hide ReadEnds, WriteEnds, HandshakeEnds, Happens;
  }

  // ----- events: every one once, in order -----

  function InFlight(l: Local): seq<Event> {
    if l.live.Some? && l.live.value.stage.Scheduled? then [l.live.value.stage.event] else []
  }

  function Waiting(l: Local): seq<Event> {
    if l.live.Some? then l.live.value.events else []
  }

  /** The events on their way, first the one that is handled next. */
  function Outstanding(l: Local): seq<Event> {
    InFlight(l) + Waiting(l) + l.polled + l.ready
  }

  ghost predicate InOrder(l: Local) {
    l.arrived == l.finished + Outstanding(l)
  }

  lemma HappensOrder(l: Local, r: (Conn, seq<Event>))
    requires InOrder(l)
    ensures InOrder(Happens(l, r))
  {}

  lemma RunsPostOrder(g: Setting, id: int, l: Local)
    requires l.posted != [] && InOrder(l)
    ensures InOrder(LocalApply(g, id, l, RunsPost))
  {
    var l' := l.(posted := l.posted[1..], ran := l.ran + [l.posted[0]]);
    assert InOrder(l');
    if l.conn.Some? {
      HappensOrder(l', RunOn(l.conn.value, l.posted[0]));
    }
    hide RunOn, InOrder, Happens;
  }

  lemma PollsOrder(l: Local)
    requires InOrder(l)
    ensures InOrder(l.(polled := l.polled + l.ready, ready := []))
  {
    var l' := l.(polled := l.polled + l.ready, ready := []);
    assert InFlight(l') == InFlight(l) && Waiting(l') == Waiting(l);
    hide InFlight, Waiting;
    var front := InFlight(l) + Waiting(l);
    assert front + (l.polled + l.ready) + [] == front + l.polled + l.ready;
  }

  lemma RouteToSession(id: int, l: Local, full: bool)
    requires l.polled != [] && InOrder(l) && l.live.Some?
    ensures var l' := LocalRoute(id, l, full); InOrder(l') && l'.finished == l.finished
  {
    var l' := LocalRoute(id, l, full);
    assert l.polled == [l.polled[0]] + l.polled[1..];
    assert InFlight(l') == InFlight(l) && Waiting(l') == Waiting(l) + [l.polled[0]] && l'.polled == l.polled[1..];
    RoutePushOrder(InFlight(l), Waiting(l), l.polled[0], l.polled[1..], l.ready);
    hide InFlight, Waiting;
  }

  lemma RouteWithoutSession(id: int, l: Local, full: bool)
    requires l.polled != [] && InOrder(l) && l.live.None?
    ensures var l' := LocalRoute(id, l, full);
      && InOrder(l')
      && (l'.finished != l.finished ==> Outstanding(l) == [l.polled[0]] + Outstanding(l'))
  {
    var l' := LocalRoute(id, l, full);
    RouteFacts(id, l, full);
    assert InFlight(l) == [] && Waiting(l) == [];
    hide *;
    OutstandingIs(l);
    OutstandingIs(l');
    HeadTail(l.polled);
    RouteDropOrder(l.finished, l.polled[0], l.polled[1..], l.ready);
    if l'.live.Some? {
      assert Outstanding(l') == Outstanding(l);
    } else {
      assert Outstanding(l) == [l.polled[0]] + Outstanding(l');
    }
  }

  lemma OutstandingIs(l: Local)
    ensures Outstanding(l) == InFlight(l) + Waiting(l) + l.polled + l.ready
    ensures InOrder(l) <==> l.arrived == l.finished + Outstanding(l)
  {}

  lemma HeadTail<T>(s: seq<T>)
    requires s != []
    ensures s == [s[0]] + s[1..]
  {}

  lemma RouteFacts(id: int, l: Local, full: bool)
    requires l.polled != [] && l.live.None?
    ensures var l' := LocalRoute(id, l, full);
      && InFlight(l') == [] && l'.polled == l.polled[1..] && l'.ready == l.ready && l'.arrived == l.arrived
      && Waiting(l') == (if l'.live.Some? then [l.polled[0]] else [])
      && l'.finished == l.finished + if l'.live.Some? then [] else [l.polled[0]]
  {}

  /** A dropped event is the oldest on its way, and there is no session it could go to. */
  lemma RouteOrder(id: int, l: Local, full: bool)
    requires l.polled != [] && InOrder(l)
    ensures var l' := LocalRoute(id, l, full);
      InOrder(l') && (l'.finished != l.finished ==> l.live.None? && Outstanding(l) == [l.polled[0]] + Outstanding(l'))
  {
    if l.live.Some? {
      RouteToSession(id, l, full);
    } else {
      RouteWithoutSession(id, l, full);
    }
    hide InOrder, Outstanding, LocalRoute;
  }

  lemma RoutePushOrder<T>(a: seq<T>, b: seq<T>, event: T, rest: seq<T>, d: seq<T>)
    ensures a + (b + [event]) + rest + d == a + b + ([event] + rest) + d
  {}

  lemma RouteDropOrder<T>(finished: seq<T>, event: T, rest: seq<T>, d: seq<T>)
    ensures [] + [] + ([event] + rest) + d == [event] + ([] + [] + rest + d)
    ensures finished + ([event] + rest + d) == finished + [event] + (rest + d)
    ensures [] + [event] + rest + d == [event] + rest + d
    ensures [] + [] + rest + d == rest + d
    ensures finished + [] == finished
  {}

  lemma ScheduleOrder(g: Setting, id: int, l: Local)
    requires LocalEnabled(l, Schedules) && InOrder(l)
    ensures InOrder(LocalApply(g, id, l, Schedules))
  {
    var events := l.live.value.events;
    assert events == [events[0]] + events[1..];
    assert [] + events == events;
  }

  lemma ProcessOrder(g: Setting, id: int, l: Local, tables: Tables, fails: bool)
    requires CanProcess(l) && InOrder(l)
    ensures InOrder(LocalProcess(g, id, l, tables, fails))
    ensures Outstanding(l) == [l.live.value.stage.event] + Outstanding(LocalProcess(g, id, l, tables, fails))
  {
    var event := l.live.value.stage.event;
    var l' := LocalProcess(g, id, l, tables, fails);
    hide Handle, PostsOf;
    assert InFlight(l) == [event] && InFlight(l') == [] && Waiting(l') == Waiting(l);
    ProcessShift(l.finished, event, Waiting(l), l.polled, l.ready);
    hide LocalProcess, Waiting, InFlight;
    assert l'.polled == l.polled && l'.ready == l.ready && l'.finished == l.finished + [event];
  }

  lemma ProcessShift<T>(finished: seq<T>, event: T, q: seq<T>, p: seq<T>, d: seq<T>)
    ensures [event] + q + p + d == [event] + ([] + q + p + d)
    ensures finished + ([event] + q + p + d) == finished + [event] + ([] + q + p + d)
  {}

  /** Every event is handled or dropped once, in the order of arrival. */
  lemma ActionOrder(g: Setting, id: int, l: Local, a: Action)
    requires LocalEnabled(l, a) && InOrder(l)
    ensures InOrder(LocalApply(g, id, l, a))
  {
    if EndsOperation(a) {
      EndsHappen(g, id, l, a);
      hide *;
      HappensOrder(l, Ended(l.conn.value, a));
    } else {
      hide ReadEnds, WriteEnds, HandshakeEnds, RunOn;
      match a
      case Accepts => HappensOrder(l, (NewConn, [Connected])); hide InOrder, Happens;
      case RunsPost => RunsPostOrder(g, id, l); hide InOrder, LocalApply;
      case Polls => PollsOrder(l); hide InOrder;
      case Routes(full) => RouteOrder(id, l, full); hide LocalRoute, InOrder;
      case Schedules => ScheduleOrder(g, id, l); hide InOrder, LocalApply;
      case Processes(tables, fails) => ProcessOrder(g, id, l, tables, fails); hide LocalProcess, InOrder;
      case Continues => hide Continue, LocalRoute, LocalProcess, Happens;
      case _ => hide LocalRoute, LocalProcess, Happens;
    }
  }

  // ----- tasks: one for every scheduled event -----

  /** A session whose event is scheduled has exactly one task, in the queue or held by a worker; no other has one. */
  ghost predicate OneTask(l: Local) {
    l.tasks + l.held == InFlight(l)
  }

  lemma ActionKeepsTasks(g: Setting, id: int, l: Local, a: Action)
    requires LocalEnabled(l, a) && OneTask(l)
    ensures OneTask(LocalApply(g, id, l, a))
  {
    match a
    case Processes(tables, fails) => ProcessKeepsTasks(g, id, l, tables, fails); hide LocalProcess, OneTask;
    case Routes(full) => RouteKeepsTasks(id, l, full); hide LocalRoute, OneTask;
    case Schedules => NewTask(l.tasks, l.held, l.live.value.events[0]);
    case TakesTask =>
      TakenTask(l.tasks, l.held);
      AtMostOne(l);
      assert InFlight(LocalApply(g, id, l, TakesTask)) == InFlight(l);
      hide InFlight;
    case Accepts =>
    case RunsPost => hide RunOn;
    case ReadDone(r, line) => HappensKeepsTasks(l, ReadEnds(l.conn.value, r, line)); hide ReadEnds, Happens, OneTask;
    case WriteDone(r) => HappensKeepsTasks(l, WriteEnds(l.conn.value, r)); hide WriteEnds, Happens, OneTask;
    case HandshakeDone(ok) =>
      HappensKeepsTasks(l, HandshakeEnds(l.conn.value, ok));
      hide HandshakeEnds, Happens, OneTask;
    case Continues => hide Continue;
    case _ =>
  }

  lemma HappensKeepsTasks(l: Local, r: (Conn, seq<Event>))
    requires OneTask(l)
    ensures OneTask(Happens(l, r))
  {}

  lemma ProcessKeepsTasks(g: Setting, id: int, l: Local, tables: Tables, fails: bool)
    requires CanProcess(l) && OneTask(l)
    ensures OneTask(LocalProcess(g, id, l, tables, fails))
  {
    var l' := LocalProcess(g, id, l, tables, fails);
    hide Handle, PostsOf;
    assert InFlight(l) == [l.live.value.stage.event] && InFlight(l') == [];
    assert l'.tasks == l.tasks && l'.held == l.held[1..];
    hide InFlight, LocalProcess;
    assert |l.tasks + l.held| == 1;
  }

  lemma NewTask<T>(tasks: seq<T>, held: seq<T>, task: T)
    ensures tasks + held == [] ==> tasks + [task] + held == [task]
  {}

  lemma TakenTask<T>(tasks: seq<T>, held: seq<T>)
    requires tasks != []
    ensures |tasks + held| <= 1 ==> tasks[1..] + (held + [tasks[0]]) == tasks + held
  {}

  lemma AtMostOne(l: Local)
    ensures |InFlight(l)| <= 1
  {}

  lemma RouteKeepsTasks(id: int, l: Local, full: bool)
    requires l.polled != [] && OneTask(l)
    ensures OneTask(LocalRoute(id, l, full))
  {
    if l.live.None? {
      RouteFacts(id, l, full);
    }
    hide Outstanding;
  }

  /** So the task that a worker has taken is that of the scheduled event: it can always be handled. */
  lemma HeldTaskCanProcess(l: Local)
    requires OneTask(l) && l.held != []
    ensures CanProcess(l)
  {
    assert (l.tasks + l.held)[|l.tasks|] == l.held[0];
  }
}
