/**
 The whole server: all connections, the loop of SmtpServer and the workers. An action concerns one
 connection, except that PollEvents takes the events of all. Seen from one connection, every run of the
 server is a run of ConnectionRun.
 */
module ServerSystem {
  import opened Wrappers
  import opened MailStorage
  import opened SmtpSession
  import opened Sockets
  import opened ConnectionRun
  import opened LockStep
  import opened ConnectionInvariant

  /** tasks is the queue of the pool, as far as sessions are concerned, held what its workers have taken from it. */
  datatype Server = Server(
    net: Manager,
    polled: seq<SocketEvent>,
    sessions: map<int, Live>,
    tasks: seq<SocketEvent>,
    held: seq<SocketEvent>,
    finished: seq<SocketEvent>,
    tlsAsked: set<int>,
    quit: set<int>)

  const NewServer := Server(NewManager, [], map[], [], [], [], {}, {})

  datatype Move = Move(id: int, action: Action)

  /** The events of one connection, in order. */
  function EventsOf(es: seq<SocketEvent>, id: int): seq<Event> {
    if es == [] then [] else (if es[0].id == id then [es[0].event] else []) + EventsOf(es[1..], id)
  }

  /** Without the first event of the connection. */
  function Without(es: seq<SocketEvent>, id: int): seq<SocketEvent> {
    if es == [] then [] else if es[0].id == id then es[1..] else [es[0]] + Without(es[1..], id)
  }

  /** A worker holds the task of the event that is scheduled. */
  predicate HoldsTask(s: Server, id: int) {
    && id in s.sessions && s.sessions[id].stage.Scheduled?
    && EventsOf(s.held, id) != [] && EventsOf(s.held, id)[0] == s.sessions[id].stage.event
  }

  predicate Enabled(g: Setting, s: Server, m: Move) {
    match m.action
    case Accepts => m.id == s.net.nextId
    case RunsPost => s.net.posted != [] && s.net.posted[0].id == m.id
    case ReadDone(r, line) => m.id in s.net.connections && s.net.connections[m.id].readInProgress
    case WriteDone(r) =>
      m.id in s.net.connections && s.net.connections[m.id].writeInProgress && s.net.connections[m.id].pending != []
    case HandshakeDone(ok) => m.id in s.net.connections && s.net.connections[m.id].handshakes > 0
    case Polls => s.polled == []
    case Routes(full) => s.polled != [] && s.polled[0].id == m.id && full == (|s.sessions| >= g.maxConnections)
    case Schedules => m.id in s.sessions && s.sessions[m.id].stage == Idle && s.sessions[m.id].events != []
    case TakesTask => s.tasks != [] && s.tasks[0].id == m.id
    case Processes(tables, fails) => HoldsTask(s, m.id)
    case Continues => m.id in s.sessions && s.sessions[m.id].stage.Answered?
    case Finishes => m.id in s.sessions && s.sessions[m.id].stage == Released
    case Removes => m.id in s.sessions && IsReadyForRemoval(s.sessions[m.id])
  }

  predicate IsReadyForRemoval(live: Live) {
    live.isClosed && live.stage == Idle && live.events == []
  }

  function RouteEvent(g: Setting, s: Server): Server
    requires s.polled != []
  {
    var e, s' := s.polled[0], s.(polled := s.polled[1..]);
    if e.id in s.sessions then
      s'.(sessions := s.sessions[e.id := s.sessions[e.id].(events := s.sessions[e.id].events + [e.event])])
    else if e.event == Disconnected then s'.(finished := s.finished + [e])
    else if |s.sessions| >= g.maxConnections then
      s'.(finished := s.finished + [e], net := s.net.(posted := s.net.posted + [PostClose(e.id)]))
    else s'.(sessions := s.sessions[e.id := NewLive.(events := [e.event])])
  }

  function ProcessEvent(g: Setting, s: Server, id: int, tables: Tables, fails: bool): Server
    requires HoldsTask(s, id)
  {
    var event := s.sessions[id].stage.event;
    var (live', posts) := Process(g, id, s.sessions[id], event, tables, fails);
    s.(sessions := s.sessions[id := live'],
       held := Without(s.held, id),
       net := s.net.(posted := s.net.posted + posts),
       finished := s.finished + [SocketEvent(id, event)],
       tlsAsked := s.tlsAsked + if PostStartTls(id) in posts then {id} else {},
       quit := s.quit + if live'.session.phase == Closing then {id} else {})
  }

  function WithLive(s: Server, id: int, live: Live): Server {
    s.(sessions := s.sessions[id := live])
  }

  function Apply(g: Setting, s: Server, m: Move): Server
    requires Enabled(g, s, m)
  {
    var id := m.id;
    match m.action
    case Accepts => s.(net := Accept(s.net))
    case RunsPost => s.(net := RunPost(s.net))
    case ReadDone(r, line) => s.(net := Put(s.net, id, ReadEnds(s.net.connections[id], r, line)))
    case WriteDone(r) => s.(net := Put(s.net, id, WriteEnds(s.net.connections[id], r)))
    case HandshakeDone(ok) => s.(net := Put(s.net, id, HandshakeEnds(s.net.connections[id], ok)))
    case Polls => s.(polled := s.net.ready, net := s.net.(ready := []))
    case Routes(full) => RouteEvent(g, s)
    case Schedules =>
      var live := s.sessions[id];
      WithLive(s, id, live.(stage := Scheduled(live.events[0]), events := live.events[1..]))
        .(tasks := s.tasks + [SocketEvent(id, live.events[0])])
    case TakesTask => s.(tasks := s.tasks[1..], held := s.held + [s.tasks[0]])
    case Processes(tables, fails) => ProcessEvent(g, s, id, tables, fails)
    case Continues =>
      var s' := WithLive(s, id, s.sessions[id].(stage := Released));
      if s.sessions[id].stage.continues then s'.(net := ContinueWith(s.net, id)) else s'
    case Finishes => WithLive(s, id, s.sessions[id].(stage := Idle))
    case Removes => s.(sessions := s.sessions - {id})
  }

  // ----- what one connection sees -----

  function PostsFor(ps: seq<Post>, id: int): seq<Post> {
    if ps == [] then [] else (if ps[0].id == id then [ps[0]] else []) + PostsFor(ps[1..], id)
  }

  function Get<T>(m: map<int, T>, id: int): Option<T> {
    if id in m then Some(m[id]) else None
  }

  function Seen(s: Server, id: int): Local {
    Local(Get(s.net.connections, id), Get(s.sessions, id), EventsOf(s.polled, id), EventsOf(s.tasks, id),
          EventsOf(s.held, id), EventsOf(s.net.ready, id), PostsFor(s.net.posted, id), PostsFor(s.net.ran, id),
          EventsOf(s.net.arrived, id), EventsOf(s.finished, id), id in s.tlsAsked, id in s.quit)
  }

  lemma {:induction false} EventsOfSum(a: seq<SocketEvent>, b: seq<SocketEvent>, id: int)
    ensures EventsOf(a + b, id) == EventsOf(a, id) + EventsOf(b, id)
    decreases |a|
  {
    if a == [] {
      assert a + b == b;
    } else {
      var head := if a[0].id == id then [a[0].event] else [];
      assert EventsOf(a + b, id) == head + EventsOf(a[1..] + b, id) by {
        assert (a + b)[0] == a[0] && (a + b)[1..] == a[1..] + b;
      }
      assert EventsOf(a, id) == head + EventsOf(a[1..], id);
      hide EventsOf;
      EventsOfSum(a[1..], b, id);
      Associate(head, EventsOf(a[1..], id), EventsOf(b, id));
    }
  }

  lemma {:induction false} PostsForSum(a: seq<Post>, b: seq<Post>, id: int)
    ensures PostsFor(a + b, id) == PostsFor(a, id) + PostsFor(b, id)
    decreases |a|
  {
    if a == [] {
      assert a + b == b;
    } else {
      var head := if a[0].id == id then [a[0]] else [];
      assert PostsFor(a + b, id) == head + PostsFor(a[1..] + b, id) by {
        assert (a + b)[0] == a[0] && (a + b)[1..] == a[1..] + b;
      }
      assert PostsFor(a, id) == head + PostsFor(a[1..], id);
      hide PostsFor;
      PostsForSum(a[1..], b, id);
      Associate(head, PostsFor(a[1..], id), PostsFor(b, id));
    }
  }

  lemma {:induction false} EventsOfWithout(es: seq<SocketEvent>, id: int, other: int)
    ensures EventsOf(Without(es, id), other)
         == if other == id && EventsOf(es, id) != [] then EventsOf(es, id)[1..] else EventsOf(es, other)
    decreases |es|
  {
    if es != [] && es[0].id != id {
      EventsOfWithout(es[1..], id, other);
      assert ([es[0]] + Without(es[1..], id))[1..] == Without(es[1..], id);
    }
  }

  lemma {:induction false} EventsOfTagged(id: int, events: seq<Event>, other: int)
    ensures EventsOf(Tagged(id, events), other) == if other == id then events else []
    decreases |events|
  {
    if events != [] {
      assert Tagged(id, events)[0] == SocketEvent(id, events[0]);
      assert Tagged(id, events)[1..] == Tagged(id, events[1..]);
      EventsOfTagged(id, events[1..], other);
    }
  }

  lemma {:induction false} PostsForOwn(posts: seq<Post>, id: int, other: int)
    requires forall p :: p in posts ==> p.id == id
    ensures PostsFor(posts, other) == if other == id then posts else []
    decreases |posts|
  {
    if posts != [] {
      assert posts[0] in posts;
      PostsForOwn(posts[1..], id, other);
    }
  }

  lemma OneEvent(e: SocketEvent, id: int)
    ensures EventsOf([e], id) == if e.id == id then [e.event] else []
  {}

  lemma OnePost(p: Post, id: int)
    ensures PostsFor([p], id) == if p.id == id then [p] else []
  {}

  /** An operation on one connection is what that connection sees, and no other sees anything. */
  lemma PutSeen(s: Server, id: int, r: (Conn, seq<Event>), other: int)
    ensures Seen(s.(net := Put(s.net, id, r)), other)
         == if other == id then Happens(Seen(s, other), r) else Seen(s, other)
  {
    EventsOfSum(s.net.ready, Tagged(id, r.1), other);
    EventsOfSum(s.net.arrived, Tagged(id, r.1), other);
    EventsOfTagged(id, r.1, other);
    hide EventsOf, PostsFor;
    assert EventsOf(s.net.ready, other) + [] == EventsOf(s.net.ready, other);
    assert EventsOf(s.net.arrived, other) + [] == EventsOf(s.net.arrived, other);
  }

  ghost predicate Simulates(g: Setting, s: Server, m: Move, id: int)
    requires Enabled(g, s, m)
  {
    if m.id == id || m.action.Polls? then
      && LocalEnabled(Seen(s, id), m.action)
      && Seen(Apply(g, s, m), id) == LocalApply(g, id, Seen(s, id), m.action)
    else Seen(Apply(g, s, m), id) == Seen(s, id)
  }

  lemma AcceptSimulates(g: Setting, s: Server, m: Move, id: int)
    requires Enabled(g, s, m) && m.action.Accepts? && Seen(s, m.id) == Unborn
    ensures Simulates(g, s, m, id)
  {
    PutSeen(s, m.id, (NewConn, [Connected]), id);
    hide EventsOf, PostsFor, Put;
  }

  lemma FirstPost(queue: seq<Post>, id: int)
    requires queue != []
    ensures var posts, rest := PostsFor(queue, id), PostsFor(queue[1..], id);
      if queue[0].id == id then posts != [] && posts[0] == queue[0] && posts[1..] == rest else posts == rest
  {
    var own := if queue[0].id == id then [queue[0]] else [];
    assert PostsFor(queue, id) == own + PostsFor(queue[1..], id);
    hide PostsFor;
  }

  /** The server after the first post was taken, before it is run. */
  function PostTaken(s: Server): Server
    requires s.net.posted != []
  {
    s.(net := s.net.(posted := s.net.posted[1..], ran := s.net.ran + [s.net.posted[0]]))
  }

  lemma TakenSeen(s: Server, id: int)
    requires s.net.posted != []
    ensures var l, post := Seen(s, id), s.net.posted[0];
      if post.id == id then
        l.posted != [] && l.posted[0] == post
        && Seen(PostTaken(s), id) == l.(posted := l.posted[1..], ran := l.ran + [l.posted[0]])
      else Seen(PostTaken(s), id) == l
  {
    var post := s.net.posted[0];
    hide EventsOf, PostsFor;
    PostsForSum(s.net.ran, [post], id);
    OnePost(post, id);
    FirstPost(s.net.posted, id);
    AddNothing(PostsFor(s.net.ran, id));
  }

  lemma RunsPostSimulates(g: Setting, s: Server, m: Move, id: int)
    requires Enabled(g, s, m) && m.action.RunsPost?
    ensures Simulates(g, s, m, id)
  {
    var post := s.net.posted[0];
    TakenSeen(s, id);
    PutSeen(PostTaken(s), m.id,
            if m.id in s.net.connections then RunOn(s.net.connections[m.id], post) else (NewConn, []), id);
    hide EventsOf, PostsFor, Put, RunOn;
  }

  lemma OperationSimulates(g: Setting, s: Server, m: Move, id: int)
    requires Enabled(g, s, m) && (m.action.ReadDone? || m.action.WriteDone? || m.action.HandshakeDone?)
    ensures Simulates(g, s, m, id)
  {
    var c := s.net.connections[m.id];
    var r :=
      if m.action.ReadDone? then ReadEnds(c, m.action.r, m.action.line)
      else if m.action.WriteDone? then WriteEnds(c, m.action.r)
      else HandshakeEnds(c, m.action.ok);
    PutSeen(s, m.id, r, id);
    hide EventsOf, PostsFor, Put, ReadEnds, WriteEnds, HandshakeEnds, Happens;
  }

  lemma PollsSimulates(g: Setting, s: Server, m: Move, id: int)
    requires Enabled(g, s, m) && m.action.Polls?
    ensures Simulates(g, s, m, id)
  {}

  /** A drop finishes the event; over the limit it also posts a Close. */
  lemma DropSeen(s: Server, e: SocketEvent, posts: seq<Post>, id: int)
    requires posts in {[], [PostClose(e.id)]}
    ensures EventsOf(s.finished + [e], id) == EventsOf(s.finished, id) + if e.id == id then [e.event] else []
    ensures PostsFor(s.net.posted + posts, id) == PostsFor(s.net.posted, id) + if e.id == id then posts else []
  {
    EventsOfSum(s.finished, [e], id);
    OneEvent(e, id);
    PostsForSum(s.net.posted, posts, id);
    OnePost(PostClose(e.id), id);
  }

  predicate Dropped(g: Setting, s: Server)
    requires s.polled != []
  {
    s.polled[0].id !in s.sessions && (s.polled[0].event == Disconnected || |s.sessions| >= g.maxConnections)
  }

  lemma RoutesOtherDropped(g: Setting, s: Server, id: int)
    requires s.polled != [] && s.polled[0].id != id && Dropped(g, s)
    ensures Seen(RouteEvent(g, s), id) == Seen(s, id)
  {
    var e := s.polled[0];
    DropSeen(s, e, [], id);
    DropSeen(s, e, [PostClose(e.id)], id);
    assert EventsOf(s.polled, id) == [] + EventsOf(s.polled[1..], id);
    hide EventsOf, PostsFor, Get;
    assert EventsOf(s.finished, id) + [] == EventsOf(s.finished, id);
    assert PostsFor(s.net.posted, id) + [] == PostsFor(s.net.posted, id);
  }

  lemma RoutesOtherQueued(g: Setting, s: Server, id: int)
    requires s.polled != [] && s.polled[0].id != id && !Dropped(g, s)
    ensures Seen(RouteEvent(g, s), id) == Seen(s, id)
  {}

  lemma RoutesOther(g: Setting, s: Server, id: int)
    requires s.polled != [] && s.polled[0].id != id
    ensures Seen(RouteEvent(g, s), id) == Seen(s, id)
  {
    if Dropped(g, s) {
      RoutesOtherDropped(g, s, id);
    } else {
      RoutesOtherQueued(g, s, id);
    }
    hide Seen, RouteEvent;
  }

  lemma RoutesOwn(g: Setting, s: Server)
    requires s.polled != []
    ensures var id := s.polled[0].id;
      && EventsOf(s.polled, id) != []
      && Seen(RouteEvent(g, s), id) == LocalRoute(id, Seen(s, id), |s.sessions| >= g.maxConnections)
  {
    var e := s.polled[0];
    var id := e.id;
    assert EventsOf(s.polled, id) == [e.event] + EventsOf(s.polled[1..], id);
    var rest := EventsOf(s.polled[1..], id);
    assert EventsOf(s.polled, id)[0] == e.event && EventsOf(s.polled, id)[1..] == rest;
    hide EventsOf, PostsFor;
    if id in s.sessions || (e.event != Disconnected && |s.sessions| < g.maxConnections) {
      KeptSeen(g, s);
    } else {
      DropSeen(s, e, [], id);
      DropSeen(s, e, [PostClose(id)], id);
    }
  }

  /** An event that goes to a session, old or new. */
  lemma KeptSeen(g: Setting, s: Server)
    requires s.polled != []
    requires var e := s.polled[0]; EventsOf(s.polled, e.id) == [e.event] + EventsOf(s.polled[1..], e.id)
    requires s.polled[0].id in s.sessions || (s.polled[0].event != Disconnected && |s.sessions| < g.maxConnections)
    ensures var id := s.polled[0].id;
      && EventsOf(s.polled, id) != []
      && Seen(RouteEvent(g, s), id) == LocalRoute(id, Seen(s, id), |s.sessions| >= g.maxConnections)
  {
    hide EventsOf, PostsFor;
  }

  lemma RoutesSimulates(g: Setting, s: Server, m: Move, id: int)
    requires Enabled(g, s, m) && m.action.Routes?
    ensures Simulates(g, s, m, id)
  {
    if m.id == id {
      RoutesOwn(g, s);
      assert Seen(s, id).polled == EventsOf(s.polled, id);
    } else {
      RoutesOther(g, s, id);
    }
    hide Seen, RouteEvent, LocalRoute;
  }

  lemma ProcessPostsOwn(g: Setting, id: int, live: Live, event: Event, tables: Tables, fails: bool)
    ensures forall p :: p in Process(g, id, live, event, tables, fails).1 ==> p.id == id
  {
    PostsOfAreOwn(id, Handle(g.config, g.users, tables, live.session, event, fails).effects);
    hide Handle, PostsOf;
  }

  lemma OthersEvent(es: seq<SocketEvent>, e: SocketEvent, id: int)
    requires e.id != id
    ensures EventsOf(es + [e], id) == EventsOf(es, id)
  {
    EventsOfSum(es, [e], id);
    OneEvent(e, id);
    hide EventsOf;
    AddNothing(EventsOf(es, id));
  }

  lemma OthersPosts(ps: seq<Post>, posts: seq<Post>, m: int, id: int)
    requires m != id && forall p :: p in posts ==> p.id == m
    ensures PostsFor(ps + posts, id) == PostsFor(ps, id)
  {
    PostsForSum(ps, posts, id);
    PostsForOwn(posts, m, id);
    hide PostsFor;
    AddNothing(PostsFor(ps, id));
  }

  lemma ProcessesOther(g: Setting, s: Server, m: int, tables: Tables, fails: bool, id: int)
    requires HoldsTask(s, m) && id != m
    ensures Seen(ProcessEvent(g, s, m, tables, fails), id) == Seen(s, id)
  {
    var event := s.sessions[m].stage.event;
    var posts := Process(g, m, s.sessions[m], event, tables, fails).1;
    ProcessPostsOwn(g, m, s.sessions[m], event, tables, fails);
    OthersEvent(s.finished, SocketEvent(m, event), id);
    OthersPosts(s.net.posted, posts, m, id);
    EventsOfWithout(s.held, m, id);
    hide EventsOf, Without, PostsFor, Process;
  }

  /** What a handled event adds to what its connection sees of the log and of the posts. */
  lemma ProcessedSeen(s: Server, id: int, event: Event, posts: seq<Post>)
    requires forall p :: p in posts ==> p.id == id
    ensures EventsOf(s.finished + [SocketEvent(id, event)], id) == EventsOf(s.finished, id) + [event]
    ensures PostsFor(s.net.posted + posts, id) == PostsFor(s.net.posted, id) + posts
  {
    EventsOfSum(s.finished, [SocketEvent(id, event)], id);
    OneEvent(SocketEvent(id, event), id);
    PostsForSum(s.net.posted, posts, id);
    PostsForOwn(posts, id, id);
    hide EventsOf, PostsFor;
  }

  lemma ProcessesOwn(g: Setting, s: Server, id: int, tables: Tables, fails: bool)
    requires HoldsTask(s, id)
    ensures CanProcess(Seen(s, id))
    ensures Seen(ProcessEvent(g, s, id, tables, fails), id) == LocalProcess(g, id, Seen(s, id), tables, fails)
  {
    var event := s.sessions[id].stage.event;
    var posts := Process(g, id, s.sessions[id], event, tables, fails).1;
    hide EventsOf, Without, PostsFor, Process;
    ProcessPostsOwn(g, id, s.sessions[id], event, tables, fails);
    ProcessedSeen(s, id, event, posts);
    EventsOfWithout(s.held, id, id);
  }

  lemma ProcessesSimulates(g: Setting, s: Server, m: Move, id: int)
    requires Enabled(g, s, m) && m.action.Processes?
    ensures Simulates(g, s, m, id)
  {
    if m.id == id {
      ProcessesOwn(g, s, id, m.action.tables, m.action.fails);
      assert Seen(s, id).live == Some(s.sessions[id]);
    } else {
      ProcessesOther(g, s, m.id, m.action.tables, m.action.fails, id);
    }
    hide Seen, ProcessEvent, LocalProcess;
  }

  lemma LiveSeen(s: Server, id: int, live: Live, k: int)
    ensures Seen(WithLive(s, id, live), k) == if k == id then Seen(s, k).(live := Some(live)) else Seen(s, k)
  {
    hide EventsOf, PostsFor;
  }

  lemma ContinueSeen(s: Server, id: int, k: int)
    ensures Seen(s.(net := ContinueWith(s.net, id)), k)
         == if k == id && id in s.net.connections then Seen(s, k).(conn := Some(Continue(s.net.connections[id])))
            else Seen(s, k)
  {
    hide EventsOf, PostsFor, Continue;
  }

  lemma ContinuesIs(g: Setting, s: Server, m: Move)
    requires Enabled(g, s, m) && m.action.Continues?
    ensures m.id in s.sessions && s.sessions[m.id].stage.Answered?
    ensures var live := s.sessions[m.id];
      var s' := WithLive(s, m.id, live.(stage := Released));
      Apply(g, s, m) == if live.stage.continues then s'.(net := ContinueWith(s'.net, m.id)) else s'
  {
    hide ContinueWith;
  }

  lemma LocalContinuesIs(g: Setting, id: int, l: Local)
    requires l.live.Some? && l.live.value.stage.Answered?
    ensures LocalEnabled(l, Continues)
    ensures var l' := l.(live := Some(l.live.value.(stage := Released)));
      LocalApply(g, id, l, Continues)
      == if l.live.value.stage.continues && l.conn.Some? then l'.(conn := Some(Continue(l.conn.value))) else l'
  {
    hide Continue;
  }

  lemma ContinuesSimulates(g: Setting, s: Server, m: Move, id: int)
    requires Enabled(g, s, m) && m.action.Continues?
    ensures Simulates(g, s, m, id)
  {
    assert m.id in s.sessions ==> Seen(s, m.id).live == Some(s.sessions[m.id]);
    assert Seen(s, m.id).conn == Get(s.net.connections, m.id);
    assert Get(s.net.connections, m.id) == if m.id in s.net.connections then Some(s.net.connections[m.id]) else None;
    ContinuesIs(g, s, m);
    var live := s.sessions[m.id].(stage := Released);
    assert WithLive(s, m.id, live).net == s.net;
    hide Seen, WithLive, ContinueWith, Continue, Get, Enabled, Apply, LocalEnabled, LocalApply;
    LiveSeen(s, m.id, live, id);
    ContinueSeen(WithLive(s, m.id, live), m.id, id);
    LocalContinuesIs(g, m.id, Seen(s, m.id));
  }

  lemma SessionSimulates(g: Setting, s: Server, m: Move, id: int)
    requires Enabled(g, s, m)
    requires m.action.Finishes? || m.action.Removes?
    ensures Simulates(g, s, m, id)
  {
    hide EventsOf, PostsFor, ContinueWith, RouteEvent, ProcessEvent, Put, RunPost, Accept, LocalRoute, LocalProcess,
         Happens;
  }

  lemma ScheduleSimulates(g: Setting, s: Server, m: Move, id: int)
    requires Enabled(g, s, m) && m.action.Schedules?
    ensures Simulates(g, s, m, id)
  {
    var e := SocketEvent(m.id, s.sessions[m.id].events[0]);
    EventsOfSum(s.tasks, [e], id);
    OneEvent(e, id);
    hide EventsOf, PostsFor, ContinueWith, RouteEvent, ProcessEvent, Put, RunPost, Accept, LocalRoute, LocalProcess,
         Happens;
    AddNothing(EventsOf(s.tasks, id));
  }

  lemma FirstEvent(queue: seq<SocketEvent>, id: int)
    requires queue != []
    ensures var events, rest := EventsOf(queue, id), EventsOf(queue[1..], id);
      if queue[0].id == id then events != [] && events[0] == queue[0].event && events[1..] == rest else events == rest
  {
    var own := if queue[0].id == id then [queue[0].event] else [];
    assert EventsOf(queue, id) == own + EventsOf(queue[1..], id);
    hide EventsOf;
  }

  function TaskTaken(s: Server): Server
    requires s.tasks != []
  {
    s.(tasks := s.tasks[1..], held := s.held + [s.tasks[0]])
  }

  lemma TakenTaskSeen(s: Server, id: int)
    requires s.tasks != []
    ensures var l, e := Seen(s, id), s.tasks[0];
      if e.id == id then
        l.tasks != [] && l.tasks[0] == e.event
        && Seen(TaskTaken(s), id) == l.(tasks := l.tasks[1..], held := l.held + [l.tasks[0]])
      else Seen(TaskTaken(s), id) == l
  {
    var e := s.tasks[0];
    hide EventsOf, PostsFor;
    EventsOfSum(s.held, [e], id);
    OneEvent(e, id);
    FirstEvent(s.tasks, id);
    AddNothing(EventsOf(s.held, id));
  }

  lemma TakeIs(g: Setting, s: Server, m: Move)
    requires Enabled(g, s, m) && m.action.TakesTask?
    ensures s.tasks != [] && s.tasks[0].id == m.id && Apply(g, s, m) == TaskTaken(s)
  {}

  lemma LocalTakeIs(g: Setting, id: int, l: Local)
    requires l.tasks != []
    ensures LocalEnabled(l, TakesTask)
    ensures LocalApply(g, id, l, TakesTask) == l.(tasks := l.tasks[1..], held := l.held + [l.tasks[0]])
  {}

  lemma TakeSimulates(g: Setting, s: Server, m: Move, id: int)
    requires Enabled(g, s, m) && m.action.TakesTask?
    ensures Simulates(g, s, m, id)
  {
    hide Seen, Enabled, Apply, LocalEnabled, LocalApply, TaskTaken;
    TakeIs(g, s, m);
    TakenTaskSeen(s, id);
    if m.id == id {
      LocalTakeIs(g, id, Seen(s, id));
    }
  }

  lemma MoveSimulates(g: Setting, s: Server, m: Move, id: int)
    requires Enabled(g, s, m) && (m.action.Accepts? ==> Seen(s, m.id) == Unborn)
    ensures Simulates(g, s, m, id)
  {
    match m.action
    case Accepts => AcceptSimulates(g, s, m, id);
    case RunsPost => RunsPostSimulates(g, s, m, id);
    case ReadDone(r, line) => OperationSimulates(g, s, m, id);
    case WriteDone(r) => OperationSimulates(g, s, m, id);
    case HandshakeDone(ok) => OperationSimulates(g, s, m, id);
    case Polls => PollsSimulates(g, s, m, id);
    case Routes(full) => RoutesSimulates(g, s, m, id);
    case Schedules => ScheduleSimulates(g, s, m, id);
    case TakesTask => TakeSimulates(g, s, m, id);
    case Processes(tables, fails) => ProcessesSimulates(g, s, m, id);
    case Continues => ContinuesSimulates(g, s, m, id);
    case _ => SessionSimulates(g, s, m, id);
  }

  // ----- runs -----

  ghost predicate ServerInv(s: Server) {
    && (forall id :: id >= s.net.nextId ==> Seen(s, id) == Unborn)
    && (forall id :: LocalInv(id, Seen(s, id)))
  }

  lemma NextIdKept(g: Setting, s: Server, m: Move)
    requires Enabled(g, s, m)
    ensures Apply(g, s, m).net.nextId == s.net.nextId + if m.action.Accepts? then 1 else 0
  {
    hide ReadEnds, WriteEnds, HandshakeEnds, Process, RunOn, Continue;
  }

  lemma UnbornStays(g: Setting, id: int, a: Action)
    requires LocalEnabled(Unborn, a) && a != Accepts
    ensures LocalApply(g, id, Unborn, a) == Unborn
  {}

  lemma ServerKept(g: Setting, s: Server, m: Move)
    requires Enabled(g, s, m) && ServerInv(s)
    ensures ServerInv(Apply(g, s, m))
  {
    hide Seen, LocalInv, LocalApply, LocalEnabled, Apply, Enabled;
    var s' := Apply(g, s, m);
    NextIdKept(g, s, m);
    assert m.action.Accepts? ==> Seen(s, m.id) == Unborn by {
      AcceptedIsNext(g, s, m);
    }
    forall id ensures LocalInv(id, Seen(s', id)) && (id >= s'.net.nextId ==> Seen(s', id) == Unborn) {
      MoveSimulates(g, s, m, id);
      if m.id == id || m.action.Polls? {
        LocalKept(g, id, Seen(s, id), m.action);
        if id >= s'.net.nextId {
          AcceptedIsNext(g, s, m);
          UnbornStays(g, id, m.action);
        }
      }
    }
  }

  lemma AcceptedIsNext(g: Setting, s: Server, m: Move)
    requires Enabled(g, s, m)
    ensures m.action.Accepts? ==> m.id == s.net.nextId
  {}

  ghost predicate IsRun(g: Setting, s: Server, moves: seq<Move>)
    decreases |moves|
  {
    moves == [] || (Enabled(g, s, moves[0]) && IsRun(g, Apply(g, s, moves[0]), moves[1..]))
  }

  ghost function Run(g: Setting, s: Server, moves: seq<Move>): Server
    requires IsRun(g, s, moves)
    decreases |moves|
  {
    if moves == [] then s else Run(g, Apply(g, s, moves[0]), moves[1..])
  }

  lemma {:induction false} RunKeeps(g: Setting, s: Server, moves: seq<Move>)
    requires IsRun(g, s, moves) && ServerInv(s)
    ensures ServerInv(Run(g, s, moves))
    decreases |moves|
  {
    if moves != [] {
      ServerKept(g, s, moves[0]);
      hide ServerInv, Apply, Enabled;
      RunKeeps(g, Apply(g, s, moves[0]), moves[1..]);
    }
  }

  lemma NewServerHolds()
    ensures ServerInv(NewServer)
  {}

  // ----- what holds in every run from the start -----

  lemma EveryRun(g: Setting, moves: seq<Move>, id: int)
    requires IsRun(g, NewServer, moves)
    ensures LocalInv(id, Seen(Run(g, NewServer, moves), id))
  {
    NewServerHolds();
    RunKeeps(g, NewServer, moves);
    hide Seen, LocalInv, Run;
  }

  /**
   In every run a session has exactly one task, queued in the pool or held by a worker, while an event of it is
   scheduled, and none otherwise; and a worker that has taken a task can always handle its event.
   */
  lemma OneTaskEach(g: Setting, moves: seq<Move>, id: int)
    requires IsRun(g, NewServer, moves)
    ensures var s := Run(g, NewServer, moves);
      && EventsOf(s.tasks + s.held, id)
         == (if id in s.sessions && s.sessions[id].stage.Scheduled? then [s.sessions[id].stage.event] else [])
      && (EventsOf(s.held, id) != [] ==> HoldsTask(s, id))
  {
    EveryRun(g, moves, id);
    var s := Run(g, NewServer, moves);
    var l := Seen(s, id);
    EventsOfSum(s.tasks, s.held, id);
    if l.held != [] {
      HeldTaskCanProcess(l);
    }
    hide Run, EventsOf, PostsFor, ConnInv, InOrder, AnnouncedOnce, OwnPosts, NoTlsYet, InLockStep, SendsInOrder;
  }

  /** The events of a connection are handled or dropped once each, in the order in which they arrived. */
  lemma EventsInOrder(g: Setting, moves: seq<Move>, id: int)
    requires IsRun(g, NewServer, moves)
    ensures var s := Run(g, NewServer, moves);
      EventsOf(s.net.arrived, id) == EventsOf(s.finished, id) + Outstanding(Seen(s, id))
  {
    EveryRun(g, moves, id);
    hide Run, EventsOf, Outstanding, ConnInv, OneTask, AnnouncedOnce, OwnPosts, NoTlsYet, InLockStep, SendsInOrder;
  }

  /**
   Until a connection has STARTTLS accepted, at most one of: a read in progress, a Connected or line event in
   any queue, a handler that has yet to call Continue. After QUIT, none: no line is read or handled any more.
   */
  lemma ReadInLockStep(g: Setting, moves: seq<Move>, id: int)
    requires IsRun(g, NewServer, moves)
    ensures var s := Run(g, NewServer, moves);
      id !in s.tlsAsked ==> Tokens(Seen(s, id)) <= if id in s.quit then 0 else 1
  {
    EveryRun(g, moves, id);
    hide Run, EventsOf, PostsFor, Tokens, ConnInv, InOrder, OneTask, AnnouncedOnce, OwnPosts, NoTlsYet, SendsInOrder;
  }

  /** A line that is about to be handled is alone: nothing is being read, no other line waits, QUIT was not handled. */
  lemma LinesOneByOne(g: Setting, moves: seq<Move>, id: int)
    requires IsRun(g, NewServer, moves)
    requires var s := Run(g, NewServer, moves);
      && id !in s.tlsAsked && id in s.sessions && s.sessions[id].stage.Scheduled?
      && s.sessions[id].stage.event.MessageReceived?
    ensures var s := Run(g, NewServer, moves);
      var l := Seen(s, id);
      && id !in s.quit && Reading(l) == 0
      && Inputs(s.sessions[id].events + EventsOf(s.polled, id) + EventsOf(s.net.ready, id)) == 0
  {
    EveryRun(g, moves, id);
    var s := Run(g, NewServer, moves);
    assert Seen(s, id).live == Some(s.sessions[id]) && (Seen(s, id).tlsAsked <==> id in s.tlsAsked);
    assert Seen(s, id).quit <==> id in s.quit;
    OneLineAtATime(id, Seen(s, id));
    hide Run, EventsOf, PostsFor, LocalInv, Inputs, Reading;
  }

  /**
   While a connection is open, a write is in progress iff messages wait; what was accepted is written or
   waits, in order.
   */
  lemma WritesConserved(g: Setting, moves: seq<Move>, id: int)
    requires IsRun(g, NewServer, moves) && id in Run(g, NewServer, moves).net.connections
    ensures var c := Run(g, NewServer, moves).net.connections[id];
      && c.accepted == c.written + c.pending
      && (!c.closed ==> (c.writeInProgress <==> c.pending != []))
      && (c.closeRequested && !c.closed && Drained(c) ==> c.tlsHandshakePending)
  {
    EveryRun(g, moves, id);
    var s := Run(g, NewServer, moves);
    assert Seen(s, id).conn == Some(s.net.connections[id]);
    hide Run, Seen, InOrder, OneTask, AnnouncedOnce, OwnPosts, NoTlsYet, InLockStep, SendsInOrder;
  }

  /** A connection that closes without an I/O error has written all that was sent before the first Close. */
  lemma ClosedHasWritten(g: Setting, moves: seq<Move>, id: int)
    requires IsRun(g, NewServer, moves) && id in Run(g, NewServer, moves).net.connections
    ensures var s := Run(g, NewServer, moves);
      var c := s.net.connections[id];
      c.closed && !c.failed ==> c.written == AskedToSend(PostsFor(s.net.ran + s.net.posted, id))
  {
    EveryRun(g, moves, id);
    var s := Run(g, NewServer, moves);
    var l := Seen(s, id);
    assert l.conn == Some(s.net.connections[id]);
    PostsForSum(s.net.ran, s.net.posted, id);
    if l.conn.value.closed && !l.conn.value.failed {
      CloseWritesEverything(id, l);
    }
    hide Run, LocalInv, AskedToSend, PostsFor, EventsOf;
  }

  lemma DisconnectedOnce(g: Setting, moves: seq<Move>, id: int)
    requires IsRun(g, NewServer, moves)
    ensures Disconnects(EventsOf(Run(g, NewServer, moves).net.arrived, id)) <= 1
  {
    EveryRun(g, moves, id);
    hide Run, EventsOf, Disconnects, ConnInv, InOrder, OwnPosts, NoTlsYet, InLockStep, SendsInOrder;
  }
}
