/**
 What holds of every connection in every interleaving: it is read in lock-step until STARTTLS is accepted,
 nothing is handled after QUIT, Disconnected is announced once, and a close that was asked for writes
 everything first.
 */
module LockStep {
  import opened Wrappers
  import opened MailStorage
  import opened SmtpSession
  import opened Sockets
  import opened ConnectionRun

  // ----- counting -----

  predicate IsInput(e: Event) {
    e.Connected? || e.MessageReceived?
  }

  predicate IsTls(e: Event) {
    e.TlsSucceeded? || e.TlsFailed?
  }

  function Inputs(es: seq<Event>): nat {
    if es == [] then 0 else Inputs(es[..|es| - 1]) + if IsInput(es[|es| - 1]) then 1 else 0
  }

  function Disconnects(es: seq<Event>): nat {
    if es == [] then 0 else Disconnects(es[..|es| - 1]) + if es[|es| - 1].Disconnected? then 1 else 0
  }

  lemma {:induction false} CountsAdd(a: seq<Event>, b: seq<Event>)
    ensures Inputs(a + b) == Inputs(a) + Inputs(b)
    ensures Disconnects(a + b) == Disconnects(a) + Disconnects(b)
    decreases |b|
  {
    if b == [] {
      assert a + b == a;
    } else {
      CountsAdd(a, b[..|b| - 1]);
      assert (a + b)[..|a + b| - 1] == a + b[..|b| - 1];
    }
  }

  lemma CountsOfOne(e: Event)
    ensures Inputs([e]) == if IsInput(e) then 1 else 0
    ensures Disconnects([e]) == if e.Disconnected? then 1 else 0
    ensures Inputs([]) == 0 && Disconnects([]) == 0
  {}

  lemma CountsOfTwo(e: Event, f: Event)
    ensures Inputs([e, f]) == Inputs([e]) + Inputs([f])
    ensures Disconnects([e, f]) == Disconnects([e]) + Disconnects([f])
  {}

  // ----- the token that lock-step is about -----

  function Reading(l: Local): nat {
    if l.conn.Some? && l.conn.value.readInProgress then 1 else 0
  }

  function OwedContinue(l: Local): nat {
    if l.live.Some? && l.live.value.stage == Answered(true) then 1 else 0
  }

  /** A read in progress, a Connected or line event anywhere on its way, a handler that is going to call Continue. */
  function Tokens(l: Local): nat {
    Reading(l) + Inputs(Outstanding(l)) + OwedContinue(l)
  }

  lemma TokensOnTheWay(l: Local)
    requires InOrder(l)
    ensures Tokens(l) == Reading(l) + Inputs(l.arrived) - Inputs(l.finished) + OwedContinue(l)
  {
    CountsAdd(l.finished, Outstanding(l));
  }

  // ----- what the operations of a connection do to the counts -----

  /** An aborted operation closes without an announcement, hence at most. */
  ghost predicate AnnouncesOnce(c: Conn, r: (Conn, seq<Event>)) {
    && (c.closed ==> r.0.closed)
    && Disconnects(r.1) <= (if r.0.closed then 1 else 0) - (if c.closed then 1 else 0)
  }

  lemma RunOnCounts(c: Conn, post: Post)
    ensures AnnouncesOnce(c, RunOn(c, post)) && Inputs(RunOn(c, post).1) == 0
    ensures RunOn(c, post).0.readInProgress == c.readInProgress
  {}

  lemma ReadEndsCounts(c: Conn, r: IoResult, line: string)
    requires c.readInProgress
    ensures AnnouncesOnce(c, ReadEnds(c, r, line))
    ensures Inputs(ReadEnds(c, r, line).1) <= 1 && !ReadEnds(c, r, line).0.readInProgress
  {}

  lemma WriteEndsCounts(c: Conn, r: IoResult)
    requires c.pending != []
    ensures AnnouncesOnce(c, WriteEnds(c, r)) && Inputs(WriteEnds(c, r).1) == 0
    ensures WriteEnds(c, r).0.readInProgress == c.readInProgress
  {
    CountsOfOne(Disconnected);
    hide Inputs, Disconnects;
  }

  lemma HandshakeEndsCounts(c: Conn, ok: bool)
    requires c.handshakes > 0
    ensures AnnouncesOnce(c, HandshakeEnds(c, ok)) && Inputs(HandshakeEnds(c, ok).1) == 0
    ensures HandshakeEnds(c, ok).0.readInProgress == c.readInProgress
  {
    CountsOfOne(Disconnected);
    CountsOfOne(TlsSucceeded);
    CountsOfOne(TlsFailed);
    CountsOfTwo(TlsFailed, Disconnected);
    assert [TlsFailed] + [Disconnected] == [TlsFailed, Disconnected];
    assert [TlsFailed] + [] == [TlsFailed];
    hide Inputs, Disconnects;
  }

  // ----- Disconnected once -----

  ghost predicate AnnouncedOnce(l: Local) {
    Disconnects(l.arrived) <= if l.conn.Some? && l.conn.value.closed then 1 else 0
  }

  lemma HappensAnnounces(l: Local, c: Conn, r: (Conn, seq<Event>))
    requires AnnouncedOnce(l) && l.conn == Some(c) && AnnouncesOnce(c, r)
    ensures AnnouncedOnce(Happens(l, r))
  {
    CountsAdd(l.arrived, r.1);
    hide Disconnects, Inputs;
  }

  lemma RunsPostAnnounces(g: Setting, id: int, l: Local)
    requires l.posted != [] && AnnouncedOnce(l)
    ensures AnnouncedOnce(LocalApply(g, id, l, RunsPost))
  {
    var l' := l.(posted := l.posted[1..], ran := l.ran + [l.posted[0]]);
    assert AnnouncedOnce(l');
    if l.conn.Some? {
      RunOnCounts(l.conn.value, l.posted[0]);
      HappensAnnounces(l', l.conn.value, RunOn(l.conn.value, l.posted[0]));
    }
    hide AnnouncedOnce, RunOn, Happens, AnnouncesOnce;
  }

  lemma EndedCounts(c: Conn, a: Action)
    requires EndsOperation(a) && LocalEnabled(Unborn.(conn := Some(c)), a)
    ensures AnnouncesOnce(c, Ended(c, a))
  {
    match a
    case ReadDone(r, line) => ReadEndsCounts(c, r, line); hide ReadEnds, AnnouncesOnce;
    case WriteDone(r) => WriteEndsCounts(c, r); hide WriteEnds, AnnouncesOnce;
    case HandshakeDone(ok) => HandshakeEndsCounts(c, ok); hide HandshakeEnds, AnnouncesOnce;
  }

  lemma EndsAnnounce(g: Setting, id: int, l: Local, a: Action)
    requires LocalEnabled(l, a) && AnnouncedOnce(l) && EndsOperation(a)
    ensures AnnouncedOnce(LocalApply(g, id, l, a))
  {
    var c := l.conn.value;
    hide *;
    EndsHappen(g, id, l, a);
    EndedCounts(c, a);
    HappensAnnounces(l, c, Ended(c, a));
  }

  lemma AcceptAnnounces(g: Setting, id: int)
    ensures AnnouncedOnce(LocalApply(g, id, Unborn, Accepts))
  {
    CountsOfOne(Connected);
    assert [] + [Connected] == [Connected];
    hide Disconnects;
  }

  /** An action that queues no event and opens nothing. */
  lemma SilenceAnnounces(l: Local, l': Local)
    requires AnnouncedOnce(l) && l'.arrived == l.arrived
    requires l.conn.Some? && l.conn.value.closed ==> l'.conn.Some? && l'.conn.value.closed
    ensures AnnouncedOnce(l')
  {
    hide Disconnects;
  }

  lemma OthersAreSilent(g: Setting, id: int, l: Local, a: Action)
    requires LocalEnabled(l, a) && !EndsOperation(a) && !a.Accepts? && !a.RunsPost?
    ensures var l' := LocalApply(g, id, l, a);
      && l'.arrived == l.arrived
      && (l.conn.Some? && l.conn.value.closed ==> l'.conn.Some? && l'.conn.value.closed)
  {
    hide Process, ReadEnds, WriteEnds, HandshakeEnds, RunOn;
  }

  lemma AnnouncedOnceKept(g: Setting, id: int, l: Local, a: Action)
    requires LocalEnabled(l, a) && AnnouncedOnce(l)
    ensures AnnouncedOnce(LocalApply(g, id, l, a))
  {
    hide AnnouncedOnce, LocalApply, EndsOperation;
    if a.Accepts? {
      AcceptAnnounces(g, id);
    } else if a.RunsPost? {
      RunsPostAnnounces(g, id, l);
    } else if EndsOperation(a) {
      EndsAnnounce(g, id, l, a);
    } else {
      OthersAreSilent(g, id, l, a);
      SilenceAnnounces(l, LocalApply(g, id, l, a));
    }
  }

  // ----- no TLS before it is asked for -----

  ghost predicate NoTlsYet(id: int, l: Local) {
    !l.tlsAsked ==>
      && PostStartTls(id) !in l.posted
      && (l.conn.Some? ==> !l.conn.value.tlsHandshakePending && l.conn.value.handshakes == 0)
      && (forall e :: e in l.arrived ==> !IsTls(e))
  }

  ghost predicate Plain(r: (Conn, seq<Event>)) {
    !r.0.tlsHandshakePending && r.0.handshakes == 0 && forall e :: e in r.1 ==> !IsTls(e)
  }

  lemma StaysPlain(c: Conn, post: Post, r: IoResult, line: string)
    requires !c.tlsHandshakePending && c.handshakes == 0
    ensures !post.PostStartTls? ==> Plain(RunOn(c, post))
    ensures Plain(ReadEnds(c, r, line))
    ensures c.pending != [] ==> Plain(WriteEnds(c, r))
    ensures Plain((Continue(c), []))
  {}

  lemma HappensPlain(id: int, l: Local, r: (Conn, seq<Event>))
    requires NoTlsYet(id, l) && (!l.tlsAsked ==> Plain(r))
    ensures NoTlsYet(id, Happens(l, r))
  {}

  /** The posts of a connection name it. */
  ghost predicate OwnPosts(id: int, l: Local) {
    forall p :: p in l.posted ==> p.id == id
  }

  lemma {:induction false} PostsOfAreOwn(id: int, effects: seq<Effect>)
    ensures forall p :: p in PostsOf(id, effects) ==> p.id == id
    decreases |effects|
  {
    if effects != [] {
      PostsOfAreOwn(id, effects[1..]);
    }
  }

  lemma OwnPostsKept(g: Setting, id: int, l: Local, a: Action)
    requires LocalEnabled(l, a) && OwnPosts(id, l)
    ensures OwnPosts(id, LocalApply(g, id, l, a))
  {
    match a
    case Processes(tables, fails) =>
      var h := Handle(g.config, g.users, tables, l.live.value.session, l.live.value.stage.event, fails);
      PostsOfAreOwn(id, h.effects);
      hide Handle, PostsOf;
    case RunsPost => hide RunOn;
    case Routes(full) =>
    case Accepts => hide RunOn;
    case _ => hide RunOn, ReadEnds, WriteEnds, HandshakeEnds, Continue;
  }

  lemma ScheduledArrived(l: Local)
    requires InOrder(l) && l.live.Some? && l.live.value.stage.Scheduled?
    ensures l.live.value.stage.event in l.arrived
  {}

  lemma EndedPlain(c: Conn, a: Action)
    requires EndsOperation(a) && LocalEnabled(Unborn.(conn := Some(c)), a)
    requires !c.tlsHandshakePending && c.handshakes == 0
    ensures Plain(Ended(c, a))
  {
    match a
    case ReadDone(r, line) => StaysPlain(c, PostClose(0), r, line); hide ReadEnds, Plain;
    case WriteDone(r) => StaysPlain(c, PostClose(0), r, ""); hide WriteEnds, Plain;
  }

  lemma EndsPlain(g: Setting, id: int, l: Local, a: Action)
    requires LocalEnabled(l, a) && NoTlsYet(id, l) && EndsOperation(a)
    ensures NoTlsYet(id, LocalApply(g, id, l, a))
  {
    var c := l.conn.value;
    assert !l.tlsAsked ==> !c.tlsHandshakePending && c.handshakes == 0;
    hide *;
    EndsHappen(g, id, l, a);
    if !l.tlsAsked {
      EndedPlain(c, a);
    }
    HappensPlain(id, l, Ended(c, a));
  }

  lemma NoTlsKept(g: Setting, id: int, l: Local, a: Action)
    requires LocalEnabled(l, a) && NoTlsYet(id, l) && OwnPosts(id, l)
    ensures NoTlsYet(id, LocalApply(g, id, l, a))
  {
    if EndsOperation(a) {
      hide *;
      EndsPlain(g, id, l, a);
    } else {
      if a.Continues? && !l.tlsAsked && l.conn.Some? {
        StaysPlain(l.conn.value, PostClose(id), Fine, "");
      }
      hide ReadEnds, WriteEnds, HandshakeEnds, RunOn, Process, Continue;
      match a
      case RunsPost => RunsPostPlain(g, id, l); hide NoTlsYet, LocalApply;
      case Routes(full) =>
      case Accepts => hide LocalRoute, LocalProcess;
      case Processes(tables, fails) => hide LocalRoute, Happens;
      case _ => hide LocalRoute, LocalProcess, Happens;
    }
  }

  lemma RunsPostPlain(g: Setting, id: int, l: Local)
    requires l.posted != [] && NoTlsYet(id, l) && OwnPosts(id, l)
    ensures NoTlsYet(id, LocalApply(g, id, l, RunsPost))
  {
    var l' := l.(posted := l.posted[1..], ran := l.ran + [l.posted[0]]);
    assert l.posted[0] in l.posted;
    assert NoTlsYet(id, l');
    if l.conn.Some? {
      if !l.tlsAsked {
        StaysPlain(l.conn.value, l.posted[0], Fine, "");
      }
      HappensPlain(id, l', RunOn(l.conn.value, l.posted[0]));
    }
    hide RunOn, Plain, Happens;
  }

  // ----- lock-step -----

  lemma HappensTokens(l: Local, c: Conn, r: (Conn, seq<Event>))
    requires InOrder(l) && l.conn == Some(c)
    requires Inputs(r.1) + (if r.0.readInProgress then 1 else 0) <= if c.readInProgress then 1 else 0
    ensures Tokens(Happens(l, r)) <= Tokens(l)
  {
    HappensOrder(l, r);
    TokensOnTheWay(l);
    TokensOnTheWay(Happens(l, r));
    CountsAdd(l.arrived, r.1);
    hide InOrder, Outstanding, Inputs, Tokens;
  }

  lemma RunsPostTokens(g: Setting, id: int, l: Local)
    requires l.posted != [] && InOrder(l)
    ensures Tokens(LocalApply(g, id, l, RunsPost)) <= Tokens(l)
  {
    var l' := l.(posted := l.posted[1..], ran := l.ran + [l.posted[0]]);
    assert InOrder(l') && Tokens(l') == Tokens(l);
    if l.conn.Some? {
      RunOnCounts(l.conn.value, l.posted[0]);
      HappensTokens(l', l.conn.value, RunOn(l.conn.value, l.posted[0]));
    }
    hide InOrder, RunOn, Happens, Tokens, AnnouncesOnce, Inputs;
  }

  lemma RouteTokens(id: int, l: Local, full: bool)
    requires l.polled != [] && InOrder(l)
    ensures Tokens(LocalRoute(id, l, full)) <= Tokens(l)
  {
    var l' := LocalRoute(id, l, full);
    RouteOrder(id, l, full);
    assert Reading(l') == Reading(l) && OwedContinue(l') == OwedContinue(l) && l'.arrived == l.arrived;
    assert l'.finished == l.finished || l'.finished == l.finished + [l.polled[0]];
    TokensOnTheWay(l);
    TokensOnTheWay(l');
    CountsAdd(l.finished, [l.polled[0]]);
    hide InOrder, Outstanding, Inputs, LocalRoute, Reading, OwedContinue, Tokens;
  }

  /** Handling an input passes its token on, to the Continue that follows or to nobody. */
  lemma ProcessTokens(g: Setting, id: int, l: Local, tables: Tables, fails: bool)
    requires CanProcess(l) && InOrder(l) && !IsTls(l.live.value.stage.event)
    ensures var l' := LocalProcess(g, id, l, tables, fails);
      && Tokens(l') <= Tokens(l)
      && (l'.live.value.session.phase == Closing && IsInput(l.live.value.stage.event) ==> Tokens(l') < Tokens(l))
  {
    var event := l.live.value.stage.event;
    var l' := LocalProcess(g, id, l, tables, fails);
    ProcessOrder(g, id, l, tables, fails);
    CountsAdd([event], Outstanding(l'));
    CountsOfOne(event);
    hide Handle, PostsOf, Outstanding, Inputs, InOrder;
    assert OwedContinue(l) == 0 && Reading(l') == Reading(l);
    assert l'.live.value.session.phase == Closing || event.Disconnected? ==> OwedContinue(l') == 0;
  }

  lemma PollsTokens(l: Local)
    ensures Tokens(l.(polled := l.polled + l.ready, ready := [])) == Tokens(l)
  {
    var l' := l.(polled := l.polled + l.ready, ready := []);
    assert InFlight(l') == InFlight(l) && Waiting(l') == Waiting(l);
    var front := InFlight(l) + Waiting(l);
    assert front + (l.polled + l.ready) + [] == front + l.polled + l.ready;
    assert Reading(l') == Reading(l) && OwedContinue(l') == OwedContinue(l);
    hide InFlight, Waiting, Inputs, Reading, OwedContinue;
  }

  lemma ScheduleIs(g: Setting, id: int, l: Local)
    requires LocalEnabled(l, Schedules)
    ensures var l' := LocalApply(g, id, l, Schedules);
      && Reading(l') == Reading(l) && OwedContinue(l') == OwedContinue(l)
      && l'.arrived == l.arrived && l'.finished == l.finished
  {}

  lemma ScheduleTokens(g: Setting, id: int, l: Local)
    requires LocalEnabled(l, Schedules) && InOrder(l)
    ensures Tokens(LocalApply(g, id, l, Schedules)) == Tokens(l)
  {
    hide *;
    ScheduleIs(g, id, l);
    ScheduleOrder(g, id, l);
    TokensOnTheWay(l);
    TokensOnTheWay(LocalApply(g, id, l, Schedules));
  }

  lemma ContinueTokens(g: Setting, id: int, l: Local)
    requires LocalEnabled(l, Continues)
    ensures Tokens(LocalApply(g, id, l, Continues)) <= Tokens(l)
  {
    var l' := LocalApply(g, id, l, Continues);
    assert Outstanding(l') == Outstanding(l);
    hide Outstanding, Inputs;
  }

  /** No action makes a second token, as long as no TLS event is handled. */
  lemma TokensNeverGrow(g: Setting, id: int, l: Local, a: Action)
    requires LocalEnabled(l, a) && InOrder(l) && a != Accepts
    requires a.Processes? ==> !IsTls(l.live.value.stage.event)
    ensures Tokens(LocalApply(g, id, l, a)) <= Tokens(l)
  {
    match a
    case RunsPost => RunsPostTokens(g, id, l); hide Tokens, LocalApply;
    case ReadDone(r, line) =>
      ReadEndsCounts(l.conn.value, r, line);
      HappensTokens(l, l.conn.value, ReadEnds(l.conn.value, r, line));
      hide Tokens, Happens, ReadEnds, InOrder, Inputs, AnnouncesOnce;
    case WriteDone(r) =>
      WriteEndsCounts(l.conn.value, r);
      HappensTokens(l, l.conn.value, WriteEnds(l.conn.value, r));
      hide Tokens, Happens, WriteEnds, InOrder, Inputs, AnnouncesOnce;
    case HandshakeDone(ok) =>
      HandshakeEndsCounts(l.conn.value, ok);
      HappensTokens(l, l.conn.value, HandshakeEnds(l.conn.value, ok));
      hide Tokens, Happens, HandshakeEnds, InOrder, Inputs, AnnouncesOnce;
    case Polls => PollsTokens(l); hide Tokens;
    case Routes(full) => RouteTokens(id, l, full); hide Tokens, LocalRoute;
    case Schedules => ScheduleTokens(g, id, l); hide Tokens, LocalApply;
    case Processes(tables, fails) => ProcessTokens(g, id, l, tables, fails); hide Tokens, LocalProcess;
    case Continues => ContinueTokens(g, id, l); hide Tokens, LocalApply;
    case TakesTask => assert Outstanding(LocalApply(g, id, l, a)) == Outstanding(l); hide Outstanding;
    case Finishes => assert Outstanding(LocalApply(g, id, l, a)) == Outstanding(l); hide Outstanding;
    case Removes => assert Outstanding(LocalApply(g, id, l, a)) == Outstanding(l); hide Outstanding;
  }
}
