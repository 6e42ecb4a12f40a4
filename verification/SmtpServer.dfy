/**
 SmtpSession and SmtpServer as the objects of the source: the event queue of a session, and the loop that
 routes events, schedules sessions and removes closed ones. The methods are tied to the moves of
 ServerSystem, so its guarantees hold of them.
 */
module SmtpServer {
  import opened Wrappers
  import opened MailStorage
  import opened SmtpSession
  import opened SmtpHandler
  import opened Sockets
  import opened Dispatcher
  import opened ConnectionRun
  import opened ServerLoop
  import System = ServerSystem

  lemma {:induction false} LastPost(id: int, effects: seq<Effect>)
    ensures effects == [] ==> PostsOf(id, effects) == []
    ensures effects != [] ==>
      PostsOf(id, effects) == PostsOf(id, effects[..|effects| - 1]) + PostsOf(id, [effects[|effects| - 1]])
    decreases |effects|
  {
    if |effects| > 1 {
      LastPost(id, effects[1..]);
      assert effects[1..][..|effects| - 2] == effects[..|effects| - 1][1..];
    }
  }

  /** One SmtpSession. The stage of its task is known to its isProcessing flag as Idle or not. */
  class ConnectionSession {
    const id: int
    const state: SmtpSessionState
    const context: SmtpSessionContext
    const handler: SmtpSessionHandler
    var events: seq<Event>
    var isProcessing: bool
    var isClosed: bool
    ghost var stage: Stage

    constructor (id: int, context: SmtpSessionContext, handler: SmtpSessionHandler)
      ensures this.id == id && this.context == context && this.handler == handler && fresh(state)
      ensures Value() == NewLive && Valid()
    {
      this.id, this.context, this.handler := id, context, handler;
      events, isProcessing, isClosed, stage := [], false, false, Idle;
      state := new SmtpSessionState();
    }

    ghost predicate Valid()
      reads this
    {
      isProcessing <==> stage != Idle
    }

    ghost function Value(): Live
      reads this, state
    {
      Live(state.Value(), events, stage, isClosed)
    }

    method PushEvent(event: Event)
      requires Valid()
      modifies this`events
      ensures Valid() && Value() == old(Value()).(events := old(events) + [event])
    {
      events := events + [event];
    }

    /** At most one task of a session exists: none is handed out while one is being processed. */
    method TryExtractNextTask() returns (task: Option<Event>)
      requires Valid()
      modifies this
      ensures Valid()
      ensures task.Some? <==> old(stage) == Idle && old(events) != []
      ensures task.Some? ==> task.value == old(events)[0]
                             && Value() == old(Value()).(events := old(events)[1..], stage := Scheduled(task.value))
      ensures task.None? ==> Value() == old(Value())
    {
      if isProcessing {
        return None;
      }
      if events == [] {
        return None;
      }
      var event := events[0];
      events := events[1..];
      isProcessing := true;
      stage := Scheduled(event);
      return Some(event);
    }

    method IsReadyForRemoval() returns (ready: bool)
      requires Valid()
      ensures ready <==> System.IsReadyForRemoval(Value())
    {
      ready := isClosed && !isProcessing && events == [];
    }

    /**
     The task of one event, undisturbed: HandleEvent, a Close if it threw, then Continue unless the session is
     over. The requests of the handler are posted in the order in which it made them.
     */
    method ProcessEvent(event: Event, manager: BoostSocketsManager, fault: nat)
      requires Valid() && stage == Scheduled(event) && context.store.saved.None?
      modifies this, state, context, context.store, manager
      ensures Valid() && context.store.saved.None?
      ensures
        var g := Setting(context.config, context.users, 0);
        var t := old(context.store.State());
        var fails := fault < 4 + |old(state.recipients)|;
        var (after, posts) := Process(g, id, old(Value()), event, t, fails);
        && Value() == after.(stage := Idle)
        && context.store.State() == Handle(context.config, context.users, t, old(state.Value()), event, fails).tables
        && var k := old(manager.State()).(posted := old(manager.posted) + posts);
           manager.State() == if after.stage == Answered(true) then ContinueWith(k, id) else k
    {
      hide Handle, PostsOf, ContinueWith;
      var continues := Answer(event, manager, fault);
      if continues {
        manager.ContinueReading(id);
      }
      isProcessing := false;
      stage := Idle;
    }

    /** HandleEvent inside its try block, and the flags; Continue is still to be called. */
    method Answer(event: Event, manager: BoostSocketsManager, fault: nat) returns (continues: bool)
      requires Valid() && stage == Scheduled(event) && context.store.saved.None?
      modifies this`isClosed, this`stage, state, context, context.store, manager
      ensures context.store.saved.None? && stage == Answered(continues)
      ensures
        var g := Setting(context.config, context.users, 0);
        var t := old(context.store.State());
        var fails := fault < 4 + |old(state.recipients)|;
        var (after, posts) := Process(g, id, old(Value()), event, t, fails);
        && Value() == after
        && context.store.State() == Handle(context.config, context.users, t, old(state.Value()), event, fails).tables
        && manager.State() == old(manager.State()).(posted := old(manager.posted) + posts)
    {
      hide Handle, PostsOf;
      var threw := HandleAndPost(event, manager, fault);
      if threw {
        manager.Post(PostClose(id));
      }
      if event == Disconnected {
        isClosed := true;
      }
      if state.phase == Closed {
        isClosed := true;
      }
      continues := event != Disconnected && state.phase != Closing && state.phase != Closed;
      stage := Answered(continues);
    }

    /** HandleEvent; what it asks of the sockets manager is posted in the order in which it asks. */
    method HandleAndPost(event: Event, manager: BoostSocketsManager, fault: nat) returns (threw: bool)
      requires context.store.saved.None?
      modifies state, context, context.store, manager
      ensures context.store.saved.None?
      ensures var h := Handle(context.config, context.users, old(context.store.State()), old(state.Value()), event,
                              fault < 4 + |old(state.recipients)|);
        && state.Value() == h.session && context.store.State() == h.tables && threw == h.threw
        && manager.State() == old(manager.State()).(posted := old(manager.posted) + PostsOf(id, h.effects))
    {
      hide Handle;
      var before := |context.effects|;
      threw := handler.HandleEvent(event, state, context, fault);
      PostEffects(context.effects[before..], manager);
    }

    method PostOne(effect: Effect, manager: BoostSocketsManager)
      modifies manager
      ensures manager.State() == old(manager.State()).(posted := old(manager.posted) + PostsOf(id, [effect]))
    {
      assert [effect][1..] == [];
      match effect
      case Reply(code, last, text) => manager.Post(PostSend(id, Rendered(effect)));
      case CloseRequested => manager.Post(PostClose(id));
      case TlsRequested => manager.Post(PostStartTls(id));
      case Stored(m, sender, recipients, body) => assert manager.posted + [] == manager.posted;
    }

    method PostEffects(effects: seq<Effect>, manager: BoostSocketsManager)
      modifies manager
      ensures manager.State() == old(manager.State()).(posted := old(manager.posted) + PostsOf(id, effects))
    {
      hide PostsOf;
      var i := 0;
      assert PostsOf(id, []) == [] by {
        LastPost(id, []);
      }
      assert effects[..0] == [];
      while i < |effects|
        invariant 0 <= i <= |effects|
        invariant manager.State() == old(manager.State()).(posted := old(manager.posted) + PostsOf(id, effects[..i]))
      {
        PostOne(effects[i], manager);
        assert effects[..i + 1] == effects[..i] + [effects[i]];
        LastPost(id, effects[..i + 1]);
        i := i + 1;
      }
      assert effects[..i] == effects;
    }
  }

  class SmtpServer {
    const setting: Setting
    const manager: BoostSocketsManager
    const pool: ThreadPool<SocketEvent>
    const store: MailStore
    const handler: SmtpSessionHandler
    var sessions: map<int, ConnectionSession>
    var polled: seq<SocketEvent>
    ghost var lives: map<int, Live>
    ghost var objects: set<ConnectionSession>
    ghost var states: set<SmtpSessionState>
    ghost var held: seq<SocketEvent>
    ghost var finished: seq<SocketEvent>
    ghost var tlsAsked: set<int>
    ghost var quit: set<int>

    constructor (setting: Setting, manager: BoostSocketsManager, pool: ThreadPool<SocketEvent>, store: MailStore)
      requires manager.State() == NewManager && pool.tasks == []
      ensures this.setting == setting && this.manager == manager && this.pool == pool && this.store == store
      ensures Valid() && State() == System.NewServer
    {
      this.setting, this.manager, this.pool, this.store := setting, manager, pool, store;
      sessions, polled, lives, objects, states := map[], [], map[], {}, {};
      held, finished, tlsAsked, quit := [], [], {}, {};
      handler := new SmtpSessionHandler();
    }

    ghost predicate Holds(id: int)
      requires id in sessions && id in lives
      reads `sessions, `lives, sessions[id], sessions[id].state
    {
      sessions[id].id == id && sessions[id].Valid() && sessions[id].Value() == lives[id]
    }

    /** lives is the value of every session, and objects and states are what the sessions are made of. */
    ghost predicate Valid()
      reads `sessions, `lives, `objects, `states, objects, states
    {
      && sessions.Keys == lives.Keys
      && (forall id :: id in sessions ==> sessions[id] in objects && sessions[id].state in states)
      && (forall id :: id in sessions ==> Holds(id))
    }

    ghost function State(): System.Server
      reads this, manager, pool
    {
      System.Server(manager.State(), polled, lives, pool.tasks, held, finished, tlsAsked, quit)
    }

    method PushTo(id: int, event: Event)
      requires Valid() && id in sessions
      modifies this`lives, objects
      ensures Valid() && lives == old(lives)[id := old(lives[id]).(events := old(lives[id]).events + [event])]
    {
      assert Holds(id);
      sessions[id].PushEvent(event);
      lives := lives[id := lives[id].(events := lives[id].events + [event])];
      forall k | k in sessions ensures Holds(k) {
        assert old(Holds(k));
      }
    }

    /** The session of a connection that has none yet, with its first event. */
    method NewSession(id: int, event: Event) returns (session: ConnectionSession)
      ensures fresh(session) && fresh(session.state)
      ensures session.id == id && session.Valid() && session.Value() == NewLive.(events := [event])
    {
      var context := new SmtpSessionContext(setting.config, setting.users, store);
      session := new ConnectionSession(id, context, handler);
      session.PushEvent(event);
    }

    method Create(id: int, event: Event)
      requires Valid() && id !in sessions
      modifies this`sessions, this`lives, this`objects, this`states
      ensures fresh(objects - old(objects))
      ensures Valid() && lives == old(lives)[id := NewLive.(events := [event])]
    {
      var session := NewSession(id, event);
      sessions, objects, states := sessions[id := session], objects + {session}, states + {session.state};
      lives := lives[id := NewLive.(events := [event])];
      forall k | k in sessions ensures Holds(k) {
        assert k != id ==> old(Holds(k));
      }
    }

    /** An event of a connection without a session: dropped, refused, or the first of a new session. */
    method RouteNew(event: SocketEvent)
      requires Valid() && event.id !in sessions
      modifies this`sessions, this`lives, this`objects, this`states, this`finished, manager
      ensures Valid() && fresh(objects - old(objects))
      ensures var dropped := event.event == Disconnected || |old(lives)| >= setting.maxConnections;
        && lives == (if dropped then old(lives) else old(lives)[event.id := NewLive.(events := [event.event])])
        && finished == (if dropped then old(finished) + [event] else old(finished))
        && manager.State() == if dropped && event.event != Disconnected
             then old(manager.State()).(posted := old(manager.posted) + [PostClose(event.id)]) else old(manager.State())
    {
      assert sessions.Keys == lives.Keys;
      hide Holds, Valid;
      if event.event == Disconnected {
        finished := finished + [event];
      } else if |sessions| >= setting.maxConnections {
        finished := finished + [event];
        manager.Post(PostClose(event.id));
      } else {
        Create(event.id, event.event);
      }
    }

    /** Routes the first event of the vector that PollEvents returned. */
    method RouteEvent()
      requires Valid() && polled != []
      modifies this`polled, this`sessions, this`lives, this`objects, this`states, this`finished, manager, objects
      ensures Valid() && fresh(objects - old(objects))
      ensures var s := System.RouteEvent(setting, old(State()));
        polled == s.polled && lives == s.sessions && finished == s.finished && manager.State() == s.net
    {
      var event := polled[0];
      polled := polled[1..];
      assert sessions.Keys == lives.Keys;
      hide Holds, Valid;
      if event.id in sessions {
        PushTo(event.id, event.event);
      } else {
        RouteNew(event);
      }
    }

    method ScheduleOne(id: int) returns (threw: bool)
      requires Valid() && id in sessions
      modifies this`lives, objects, pool
      ensures Valid() && lives == old(lives)[id := Ticked(old(lives[id]))]
      ensures pool.stopping == old(pool.stopping) && (threw <==> pool.stopping && CanRun(old(lives[id])))
      ensures pool.tasks == if threw then old(pool.tasks) else old(pool.tasks) + TaskOf(id, old(lives[id]))
    {
      assert Holds(id);
      threw := false;
      var task := sessions[id].TryExtractNextTask();
      if task.Some? {
        var r := pool.AddTask(SocketEvent(id, task.value));
        threw := r.Err?;
      }
      lives := lives[id := Ticked(lives[id])];
      forall k | k in sessions ensures Holds(k) {
        assert old(Holds(k));
      }
    }

    /**
     One task for every session that is idle and has an event, none for any other; the order among sessions is
     free. added are the tasks made. A pool that is stopping refuses the first of them: that session stays marked,
     and the exception leaves the loop.
     */
    method ScheduleReadySessions() returns (threw: bool, ghost added: seq<SocketEvent>)
      requires Valid()
      modifies this`lives, objects, pool
      ensures Valid() && pool.stopping == old(pool.stopping)
      ensures threw <==> pool.stopping && SomeCanRun(old(lives))
      ensures !threw ==> lives == AllTicked(old(lives))
                         && pool.tasks == old(pool.tasks) + added && AreDue(old(lives), added)
      ensures threw ==> OneTicked(old(lives), lives) && pool.tasks == old(pool.tasks)
    {
      assert sessions.Keys == lives.Keys;
      hide Holds, Valid, Ticked, AllTicked, ScheduledBut, AreDue, TaskOf, CanRun;
      ghost var was, before := lives, pool.tasks;
      added := [];
      var rest := sessions.Keys;
      NothingScheduled(was);
      while rest != {}
        invariant Valid() && rest <= sessions.Keys && sessions.Keys == lives.Keys && pool.stopping == old(pool.stopping)
        invariant pool.tasks == before + added && ScheduledBut(was, lives, added, rest)
        invariant pool.stopping ==> NoneCanRun(was, was.Keys - rest) && lives == was && added == []
        decreases |rest|
      {
        NonEmpty(rest);
        var id :| id in rest;
        OneMoreScheduled(was, lives, added, rest, id);
        Associate(before, added, TaskOf(id, lives[id]));
        ghost var live := lives[id];
        threw := ScheduleOne(id);
        if threw {
          return true, added;
        }
        added := added + TaskOf(id, live);
        if pool.stopping {
          OneMoreIdle(was, rest, id);
        }
        rest := rest - {id};
      }
      AllScheduled(was, lives, added);
      return false, added;
    }

    method RemoveOne(id: int)
      requires Valid() && id in sessions
      modifies this`sessions, this`lives
      ensures Valid() && sessions.Keys == lives.Keys
      ensures lives == if System.IsReadyForRemoval(old(lives[id])) then old(lives) - {id} else old(lives)
    {
      assert Holds(id);
      var ready := sessions[id].IsReadyForRemoval();
      if ready {
        sessions := sessions - {id};
        lives := lives - {id};
        forall k | k in sessions ensures Holds(k) {
          assert old(Holds(k));
        }
      }
    }

    method RemoveClosedSessions()
      requires Valid()
      modifies this`sessions, this`lives
      ensures Valid()
      ensures State() == old(State()).(sessions := Remaining(old(lives)))
    {
      assert sessions.Keys == lives.Keys;
      hide Holds, Valid, System.IsReadyForRemoval, Remaining, RemovedBut;
      ghost var was := lives;
      var rest := sessions.Keys;
      NothingRemoved(was);
      while rest != {}
        invariant Valid() && sessions.Keys == lives.Keys && RemovedBut(was, lives, rest)
        decreases |rest|
      {
        NonEmpty(rest);
        var id :| id in rest;
        OneMoreRemoved(was, lives, rest, id);
        RemoveOne(id);
        rest := rest - {id};
      }
      OnlyRemaining(was, lives);
    }

    /** What PollEvents returned, one event after the other. */
    method RouteAll()
      requires Valid()
      modifies this, manager, objects
      ensures Valid() && State() == Routed(setting, old(State())) && fresh(objects - old(objects))
    {
      hide Valid, System.RouteEvent;
      while polled != []
        invariant Valid() && fresh(objects - old(objects))
        invariant Routed(setting, State()) == Routed(setting, old(State()))
        decreases |polled|
      {
        RoutedStep(setting, State());
        RouteKeepsRest(setting, State());
        RouteEvent();
      }
    }

    /** One turn of the server loop, once the I/O context has run; the dispatcher's Poll works on other objects. */
    method RunOnce() returns (threw: bool, ghost added: seq<SocketEvent>)
      requires Valid() && polled == []
      modifies this, manager, objects, pool
      ensures Valid() && pool.stopping == old(pool.stopping)
      ensures threw <==> pool.stopping && SomeCanRun(RoutedSessions(setting, old(State())))
      ensures !threw ==> State() == LoopOnce(setting, old(State()), added)
                         && AreDue(RoutedSessions(setting, old(State())), added)
      ensures threw ==> OneTicked(RoutedSessions(setting, old(State())), lives)
                        && State() == Routed(setting, ServerLoop.Polled(old(State()))).(sessions := lives)
    {
      hide Valid, Routed, AllTicked, Remaining, AreDue, SomeCanRun, OneTicked;
      polled := manager.TakeEvents();
      RouteAll();
      threw, added := ScheduleReadySessions();
      if !threw {
        RemoveClosedSessions();
      }
    }
  }
}
