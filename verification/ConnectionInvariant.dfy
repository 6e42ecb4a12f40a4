/** Over every run of one connection: lock-step, QUIT, and what a requested close has written. */
module ConnectionInvariant {
  import opened Wrappers
  import opened MailStorage
  import opened SmtpSession
  import opened Sockets
  import opened ConnectionRun
  import opened LockStep

  // ----- lock-step as an invariant -----

  /** Until STARTTLS is accepted there is one token, and none after QUIT. */
  ghost predicate InLockStep(l: Local) {
    && (l.live.Some? && l.live.value.session.phase == Closing ==> l.quit)
    && (!l.tlsAsked ==> Tokens(l) <= if l.quit then 0 else 1)
  }

  /** A session enters Closing only by handling a line. */
  lemma ClosingByLine(g: Setting, id: int, l: Local, tables: Tables, fails: bool)
    requires CanProcess(l)
    requires LocalProcess(g, id, l, tables, fails).live.value.session.phase == Closing
    ensures l.live.value.stage.event.MessageReceived? || IsTls(l.live.value.stage.event)
  {
    hide OnLine, PostsOf;
  }

  lemma ProcessKeepsLockStep(g: Setting, id: int, l: Local, tables: Tables, fails: bool)
    requires CanProcess(l) && InOrder(l) && NoTlsYet(id, l) && InLockStep(l)
    ensures InLockStep(LocalProcess(g, id, l, tables, fails))
  {
    var l' := LocalProcess(g, id, l, tables, fails);
    assert l'.quit == (l.quit || l'.live.value.session.phase == Closing) && (l.tlsAsked ==> l'.tlsAsked);
    if !l'.tlsAsked {
      ScheduledArrived(l);
      ProcessTokens(g, id, l, tables, fails);
      if l'.live.value.session.phase == Closing {
        ClosingByLine(g, id, l, tables, fails);
      }
    }
    hide LocalProcess, Tokens, InOrder;
  }

  lemma AcceptTokens(g: Setting, id: int)
    ensures Tokens(LocalApply(g, id, Unborn, Accepts)) == 1
  {
    var l := LocalApply(g, id, Unborn, Accepts);
    assert Outstanding(l) == [Connected];
    CountsOfOne(Connected);
    hide Inputs, Outstanding;
  }

  lemma LockStepKept(g: Setting, id: int, l: Local, a: Action)
    requires LocalEnabled(l, a) && InOrder(l) && NoTlsYet(id, l) && InLockStep(l)
    ensures InLockStep(LocalApply(g, id, l, a))
  {
    match a
    case Accepts => AcceptTokens(g, id); hide Tokens;
    case Processes(tables, fails) => ProcessKeepsLockStep(g, id, l, tables, fails); hide InLockStep, LocalProcess;
    case _ =>
      SessionsStay(g, id, l, a);
      TokensNeverGrow(g, id, l, a);
      hide Tokens, LocalApply;
  }

  lemma SessionsStay(g: Setting, id: int, l: Local, a: Action)
    requires LocalEnabled(l, a) && !a.Processes? && !a.Accepts?
    ensures var l' := LocalApply(g, id, l, a);
      && l'.quit == l.quit && l'.tlsAsked == l.tlsAsked
      && (l'.live.Some? ==> l'.live.value.session == (if l.live.Some? then l.live.value.session else FreshSession))
  {
    hide RunOn, ReadEnds, WriteEnds, HandshakeEnds, Continue, Process, LocalProcess;
  }

  // ----- sends and the close that follows them -----

  predicate HasClose(posts: seq<Post>) {
    exists i :: 0 <= i < |posts| && posts[i].PostClose?
  }

  /** The messages that were asked to be sent before the first request to close. */
  function AskedToSend(posts: seq<Post>): seq<string> {
    if posts == [] then []
    else
      var before, last := posts[..|posts| - 1], posts[|posts| - 1];
      if last.PostSend? && !HasClose(before) then AskedToSend(before) + [last.message] else AskedToSend(before)
  }

  lemma AskedGrows(posts: seq<Post>, p: Post)
    ensures AskedToSend(posts + [p]) == AskedToSend(posts) + if p.PostSend? && !HasClose(posts) then [p.message] else []
    ensures HasClose(posts + [p]) <==> HasClose(posts) || p.PostClose?
  {}

  lemma {:induction false} AskedOnlyBeforeClose(ran: seq<Post>, later: seq<Post>)
    requires HasClose(ran)
    ensures AskedToSend(ran + later) == AskedToSend(ran) && HasClose(ran + later)
    decreases |later|
  {
    if later == [] {
      assert ran + later == ran;
    } else {
      var n := |later| - 1;
      AskedOnlyBeforeClose(ran, later[..n]);
      AskedGrows(ran + later[..n], later[n]);
      assert ran + later == ran + later[..n] + [later[n]];
      hide AskedToSend, HasClose;
    }
  }

  ghost predicate SendsInOrder(l: Local) {
    l.conn.Some? && !l.conn.value.failed ==>
      && l.conn.value.accepted == AskedToSend(l.ran)
      && (l.conn.value.closeRequested <==> HasClose(l.ran))
  }

  ghost predicate SameSends(c: Conn, c': Conn) {
    c'.failed || (!c.failed && c'.accepted == c.accepted && c'.closeRequested == c.closeRequested)
  }

  lemma ContinueSends(c: Conn)
    ensures SameSends(c, Continue(c))
  {}

  lemma FailSends(c: Conn, r: IoResult)
    requires ConnInv(c)
    ensures SameSends(c, FailWith(c.(readInProgress := false), r).0)
    ensures SameSends(c, FailWith(c.(writeInProgress := false), r).0)
    ensures c.handshakes > 0 ==> SameSends(c, FailWith(c.(handshakes := c.handshakes - 1), r).0)
  {}

  lemma EndedSends(c: Conn, a: Action)
    requires EndsOperation(a) && LocalEnabled(Unborn.(conn := Some(c)), a) && ConnInv(c)
    ensures SameSends(c, Ended(c, a).0)
  {
    FailSends(c, if a.ReadDone? || a.WriteDone? then a.r else Broken);
    assert c.failed ==> c.closed;
    assert c.closed && !c.failed ==> c.pending == [];
    hide FailWith, ConnInv;
  }

  lemma PostOnConnection(c: Conn, post: Post)
    requires ConnInv(c)
    ensures var c' := RunOn(c, post).0;
      && c'.failed == c.failed
      && c'.accepted == c.accepted + (if post.PostSend? && !c.closeRequested then [post.message] else [])
      && (c'.closeRequested <==> c.closeRequested || post.PostClose?)
  {}

  lemma RunsPostKeepsSends(g: Setting, id: int, l: Local)
    requires l.posted != [] && SendsInOrder(l) && (l.conn.Some? ==> ConnInv(l.conn.value))
    ensures SendsInOrder(LocalApply(g, id, l, RunsPost))
  {
    AskedGrows(l.ran, l.posted[0]);
    if l.conn.Some? {
      PostOnConnection(l.conn.value, l.posted[0]);
    }
    hide RunOn, ConnInv, AskedToSend, HasClose;
  }

  lemma HappensKeepsSends(l: Local, c: Conn, r: (Conn, seq<Event>))
    requires SendsInOrder(l) && l.conn == Some(c) && SameSends(c, r.0)
    ensures SendsInOrder(Happens(l, r))
  {}

  lemma EndsKeepSends(g: Setting, id: int, l: Local, a: Action)
    requires LocalEnabled(l, a) && SendsInOrder(l) && EndsOperation(a) && (l.conn.Some? ==> ConnInv(l.conn.value))
    ensures SendsInOrder(LocalApply(g, id, l, a))
  {
    EndsHappen(g, id, l, a);
    hide *;
    EndedSends(l.conn.value, a);
    HappensKeepsSends(l, l.conn.value, Ended(l.conn.value, a));
  }

  lemma SendsKept(g: Setting, id: int, l: Local, a: Action)
    requires LocalEnabled(l, a) && SendsInOrder(l) && (l.conn.Some? ==> ConnInv(l.conn.value))
    ensures SendsInOrder(LocalApply(g, id, l, a))
  {
    if EndsOperation(a) {
      hide *;
      EndsKeepSends(g, id, l, a);
    } else {
      if a.Continues? && l.conn.Some? {
        ContinueSends(l.conn.value);
      }
      hide ReadEnds, WriteEnds, HandshakeEnds, ConnInv, RunOn, Process, Continue;
      match a
      case RunsPost => RunsPostKeepsSends(g, id, l); hide SendsInOrder, LocalApply;
      case Accepts => hide LocalRoute, LocalProcess;
      case _ => hide AskedToSend, HasClose, Happens;
    }
  }

  // ----- all of it, over every run -----

  ghost predicate LocalInv(id: int, l: Local) {
    && (l.conn.None? ==> l == Unborn)
    && (l.conn.Some? ==> ConnInv(l.conn.value))
    && InOrder(l) && OneTask(l) && AnnouncedOnce(l) && OwnPosts(id, l) && NoTlsYet(id, l) && InLockStep(l)
    && SendsInOrder(l)
  }

  lemma EndedKeeps(c: Conn, a: Action)
    requires EndsOperation(a) && LocalEnabled(Unborn.(conn := Some(c)), a) && ConnInv(c)
    ensures ConnInv(Ended(c, a).0)
  {
    match a
    case ReadDone(r, line) => OthersKeep(c, r, line, true); hide ReadEnds, ConnInv;
    case WriteDone(r) => WriteEndsKeeps(c, r); hide WriteEnds, ConnInv;
    case HandshakeDone(ok) => OthersKeep(c, Fine, "", ok); hide HandshakeEnds, ConnInv;
  }

  lemma ConnectionKept(g: Setting, id: int, l: Local, a: Action)
    requires LocalEnabled(l, a) && (l.conn.None? ==> l == Unborn) && (l.conn.Some? ==> ConnInv(l.conn.value))
    ensures var l' := LocalApply(g, id, l, a);
      (l'.conn.None? ==> l' == Unborn) && (l'.conn.Some? ==> ConnInv(l'.conn.value))
  {
    if EndsOperation(a) {
      EndsHappen(g, id, l, a);
      EndedKeeps(l.conn.value, a);
      hide LocalApply, Ended, ConnInv, EndsOperation, LocalEnabled;
    } else {
      hide ReadEnds, WriteEnds, HandshakeEnds;
      match a
      case RunsPost =>
        if l.conn.Some? {
          PostKeeps(l.conn.value, l.posted[0]);
        }
        hide RunOn, ConnInv;
      case Continues =>
        if l.conn.Some? {
          OthersKeep(l.conn.value, Fine, "", true);
        }
        hide Continue, ConnInv;
      case Processes(tables, fails) => hide Process, ConnInv;
      case _ => hide RunOn;
    }
  }

  lemma LocalKept(g: Setting, id: int, l: Local, a: Action)
    requires LocalEnabled(l, a) && LocalInv(id, l)
    ensures LocalInv(id, LocalApply(g, id, l, a))
  {
    ConnectionKept(g, id, l, a);
    ActionOrder(g, id, l, a);
    ActionKeepsTasks(g, id, l, a);
    AnnouncedOnceKept(g, id, l, a);
    OwnPostsKept(g, id, l, a);
    NoTlsKept(g, id, l, a);
    LockStepKept(g, id, l, a);
    SendsKept(g, id, l, a);
    hide ConnInv, InOrder, OneTask, AnnouncedOnce, OwnPosts, NoTlsYet, InLockStep, SendsInOrder, LocalApply,
         LocalEnabled;
  }

  // ----- what the invariant means -----

  /** A line is handled only while it is the one token: nothing is being read, nothing else is on its way. */
  lemma OneLineAtATime(id: int, l: Local)
    requires LocalInv(id, l) && !l.tlsAsked
    requires l.live.Some? && l.live.value.stage.Scheduled? && l.live.value.stage.event.MessageReceived?
    ensures !l.quit && Reading(l) == 0
    ensures Inputs(Waiting(l) + l.polled + l.ready) == 0
  {
    var event := l.live.value.stage.event;
    var rest := Waiting(l) + l.polled + l.ready;
    assert Outstanding(l) == [event] + rest;
    CountsAdd([event], rest);
    CountsOfOne(event);
    hide ConnInv, InOrder, OneTask, AnnouncedOnce, OwnPosts, NoTlsYet, SendsInOrder, Inputs, Outstanding, Waiting;
  }

  /**
   A connection that was closed without an I/O error has written everything that it was asked to send before
   the first request to close it, in that order, whatever was posted afterwards.
   */
  lemma CloseWritesEverything(id: int, l: Local)
    requires LocalInv(id, l) && l.conn.Some? && l.conn.value.closed && !l.conn.value.failed
    ensures l.conn.value.written == AskedToSend(l.ran + l.posted)
  {
    AskedOnlyBeforeClose(l.ran, l.posted);
    assert l.conn.value.written + [] == l.conn.value.written;
    hide InOrder, OneTask, AnnouncedOnce, OwnPosts, NoTlsYet, InLockStep, AskedToSend, HasClose;
  }
}
