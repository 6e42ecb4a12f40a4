/** One turn of SmtpServer::RunOnce on the value of the server, and that it is a run of its moves. */
module ServerLoop {
  import opened Wrappers
  import opened MailStorage
  import opened Sockets
  import opened ConnectionRun
  import opened ServerSystem

  /** TryExtractNextTask will give a task. */
  predicate CanRun(live: Live) {
    live.stage == Idle && live.events != []
  }

  /** A session after TryExtractNextTask. */
  ghost function Ticked(live: Live): Live {
    if CanRun(live) then live.(stage := Scheduled(live.events[0]), events := live.events[1..])
    else live
  }

  ghost function AllTicked(lives: map<int, Live>): map<int, Live> {
    map id | id in lives :: Ticked(lives[id])
  }

  ghost function Remaining(lives: map<int, Live>): map<int, Live> {
    map id | id in lives && !IsReadyForRemoval(lives[id]) :: lives[id]
  }

  /** The sessions in rest are as they were, the others ticked. */
  ghost predicate TickedBut(was: map<int, Live>, lives: map<int, Live>, rest: set<int>) {
    && lives.Keys == was.Keys && rest <= was.Keys
    && forall id :: id in was ==> lives[id] == if id in rest then was[id] else Ticked(was[id])
  }

  lemma EachTicked(was: map<int, Live>, lives: map<int, Live>)
    requires TickedBut(was, lives, {})
    ensures lives == AllTicked(was)
  {
    var all := AllTicked(was);
    assert forall id :: id in all <==> id in was;
    assert all.Keys == lives.Keys;
    assert forall id :: id in was ==> all[id] == lives[id];
  }

  /** Those not in rest that were ready for removal are gone; no other is. */
  ghost predicate RemovedBut(was: map<int, Live>, lives: map<int, Live>, rest: set<int>) {
    && rest <= lives.Keys
    && (forall id :: id in lives ==> id in was && lives[id] == was[id])
    && (forall id :: id in was ==> (id in lives <==> id in rest || !IsReadyForRemoval(was[id])))
  }

  lemma OnlyRemaining(was: map<int, Live>, lives: map<int, Live>)
    requires RemovedBut(was, lives, {})
    ensures lives == Remaining(was)
  {
    var all := Remaining(was);
    assert forall id :: id in all <==> id in was && !IsReadyForRemoval(was[id]);
    forall id ensures id in all <==> id in lives {}
    assert forall id :: id in all ==> all[id] == lives[id];
  }

  lemma NothingRemoved(was: map<int, Live>)
    ensures RemovedBut(was, was, was.Keys)
  {}

  lemma OneMoreRemoved(was: map<int, Live>, lives: map<int, Live>, rest: set<int>, id: int)
    requires RemovedBut(was, lives, rest) && id in rest
    ensures id in lives
    ensures RemovedBut(was, if IsReadyForRemoval(lives[id]) then lives - {id} else lives, rest - {id})
  {}

  // ----- the tasks that are due -----

  /** One task for each of these sessions that can run. */
  ghost function Due(lives: map<int, Live>, ids: set<int>): set<SocketEvent> {
    set id | id in ids && id in lives && CanRun(lives[id]) :: SocketEvent(id, lives[id].events[0])
  }

  ghost function TaskOf(id: int, live: Live): seq<SocketEvent> {
    if CanRun(live) then [SocketEvent(id, live.events[0])] else []
  }

  /** The tasks that are handed to the pool in one turn: one for each session that can run, in some order. */
  ghost predicate AreDue(lives: map<int, Live>, added: seq<SocketEvent>) {
    multiset(added) == multiset(Due(lives, lives.Keys))
  }

  lemma CancelOne(e: SocketEvent, a: multiset<SocketEvent>, b: multiset<SocketEvent>)
    requires multiset{e} + a == multiset{e} + b
    ensures a == b
  {
    forall x ensures a[x] == b[x] {
      assert (multiset{e} + a)[x] == (multiset{e} + b)[x];
    }
  }

  /** All but the sessions in rest are ticked, and these are the tasks made for them. */
  ghost predicate ScheduledBut(was: map<int, Live>, lives: map<int, Live>, added: seq<SocketEvent>, rest: set<int>) {
    TickedBut(was, lives, rest) && multiset(added) == multiset(Due(was, was.Keys - rest))
  }

  ghost predicate NoneCanRun(lives: map<int, Live>, ids: set<int>) {
    forall id :: id in ids && id in lives ==> !CanRun(lives[id])
  }

  ghost predicate SomeCanRun(lives: map<int, Live>) {
    !NoneCanRun(lives, lives.Keys)
  }

  /** One session that can run is marked, and nothing else has changed. */
  ghost predicate OneTicked(was: map<int, Live>, lives: map<int, Live>) {
    exists id :: id in was && CanRun(was[id]) && lives == was[id := Ticked(was[id])]
  }

  lemma OneMoreIdle(was: map<int, Live>, rest: set<int>, id: int)
    requires id in rest && id in was && NoneCanRun(was, was.Keys - rest) && !CanRun(was[id])
    ensures NoneCanRun(was, was.Keys - (rest - {id}))
    ensures was[id := Ticked(was[id])] == was && TaskOf(id, was[id]) == []
  {}

  lemma NothingScheduled(was: map<int, Live>)
    ensures ScheduledBut(was, was, [], was.Keys)
  {}

  lemma OneMoreScheduled(was: map<int, Live>, lives: map<int, Live>, added: seq<SocketEvent>, rest: set<int>, id: int)
    requires ScheduledBut(was, lives, added, rest) && id in rest
    ensures id in lives && ScheduledBut(was, lives[id := Ticked(lives[id])], added + TaskOf(id, lives[id]), rest - {id})
  {}

  lemma AllScheduled(was: map<int, Live>, lives: map<int, Live>, added: seq<SocketEvent>)
    requires ScheduledBut(was, lives, added, {})
    ensures lives == AllTicked(was) && AreDue(was, added)
  {
    EachTicked(was, lives);
    assert was.Keys - {} == was.Keys;
    hide TickedBut, AllTicked, Due;
  }

  /** Scheduling one session of those due leaves the others due. */
  lemma DueShrinks(lives: map<int, Live>, id: int, rest: seq<SocketEvent>)
    requires id in lives && CanRun(lives[id])
    requires AreDue(lives, [SocketEvent(id, lives[id].events[0])] + rest)
    ensures AreDue(lives[id := Ticked(lives[id])], rest)
  {
    var e, after := SocketEvent(id, lives[id].events[0]), lives[id := Ticked(lives[id])];
    var all, left := Due(lives, lives.Keys), Due(after, after.Keys);
    assert !CanRun(after[id]);
    assert e in all && e !in left;
    forall x ensures x in all <==> x in left + {e} {
      if x.id in lives && x.id != id {
        assert after[x.id] == lives[x.id];
      }
    }
    assert all == left + {e};
    assert multiset([e] + rest) == multiset{e} + multiset(rest);
    assert multiset(left + {e}) == multiset{e} + multiset(left);
    CancelOne(e, multiset(rest), multiset(left));
  }

  // ----- routing -----

  lemma RouteKeepsRest(g: Setting, s: Server)
    requires s.polled != []
    ensures var s' := RouteEvent(g, s);
      s'.tasks == s.tasks && s'.held == s.held && s'.tlsAsked == s.tlsAsked && s'.quit == s.quit
  {}

  /** All events of the vector routed, in order. */
  function Routed(g: Setting, s: Server): Server
    decreases |s.polled|
  {
    if s.polled == [] then s else Routed(g, RouteEvent(g, s))
  }

  lemma RoutedStep(g: Setting, s: Server)
    requires s.polled != []
    ensures Routed(g, s) == Routed(g, RouteEvent(g, s)) && |RouteEvent(g, s).polled| < |s.polled|
  {}

  ghost function Polled(s: Server): Server {
    s.(polled := s.net.ready, net := s.net.(ready := []))
  }

  /** PollEvents has returned; route, hand these tasks to the pool, remove. */
  ghost function LoopOnce(g: Setting, s: Server, added: seq<SocketEvent>): Server {
    var s' := Routed(g, Polled(s));
    s'.(sessions := Remaining(AllTicked(s'.sessions)), tasks := s'.tasks + added)
  }

  /** The sessions, once the polled events are routed. */
  ghost function RoutedSessions(g: Setting, s: Server): map<int, Live> {
    Routed(g, Polled(s)).sessions
  }

  // ----- a turn of the loop is a run -----

  lemma RunCons(g: Setting, s: Server, m: Move, rest: seq<Move>)
    ensures IsRun(g, s, [m] + rest) <==> Enabled(g, s, m) && IsRun(g, Apply(g, s, m), rest)
    ensures IsRun(g, s, [m] + rest) ==> Run(g, s, [m] + rest) == Run(g, Apply(g, s, m), rest)
  {}

  lemma HeadTailSum<T>(a: seq<T>, b: seq<T>)
    requires a != []
    ensures a == [a[0]] + a[1..] && a + b == [a[0]] + (a[1..] + b)
  {}

  lemma {:induction false} RunSum(g: Setting, s: Server, a: seq<Move>, b: seq<Move>)
    requires IsRun(g, s, a) && IsRun(g, Run(g, s, a), b)
    ensures IsRun(g, s, a + b) && Run(g, s, a + b) == Run(g, Run(g, s, a), b)
    decreases |a|
  {
    if a == [] {
      assert a + b == b;
      hide Enabled, Apply;
    } else {
      hide *;
      HeadTailSum(a, b);
      RunCons(g, s, a[0], a[1..]);
      RunCons(g, s, a[0], a[1..] + b);
      RunSum(g, Apply(g, s, a[0]), a[1..], b);
    }
  }

  lemma OneMove(g: Setting, s: Server, m: Move)
    requires Enabled(g, s, m)
    ensures IsRun(g, s, [m]) && Run(g, s, [m]) == Apply(g, s, m)
  {}

  lemma {:induction false} RoutingIsRun(g: Setting, s: Server) returns (moves: seq<Move>)
    ensures IsRun(g, s, moves) && Run(g, s, moves) == Routed(g, s)
    decreases |s.polled|
  {
    moves := [];
    if s.polled != [] {
      var m := Move(s.polled[0].id, Routes(|s.sessions| >= g.maxConnections));
      assert Enabled(g, s, m) && Apply(g, s, m) == RouteEvent(g, s);
      RoutedStep(g, s);
      OneMove(g, s, m);
      var rest := RoutingIsRun(g, RouteEvent(g, s));
      hide Enabled, Apply, Routed, IsRun, Run;
      RunSum(g, s, [m], rest);
      moves := [m] + rest;
    }
  }

  lemma DueHas(lives: map<int, Live>, id: int)
    requires id in lives
    ensures CanRun(lives[id]) ==> Due(lives, lives.Keys) != {}
  {
    if CanRun(lives[id]) {
      assert SocketEvent(id, lives[id].events[0]) in Due(lives, lives.Keys);
    }
  }

  lemma NoneDue(lives: map<int, Live>)
    requires AreDue(lives, [])
    ensures AllTicked(lives) == lives
  {
    var due := Due(lives, lives.Keys);
    assert |multiset(due)| == 0 && due == {};
    forall id | id in lives ensures !CanRun(lives[id]) {
      DueHas(lives, id);
    }
    var all := AllTicked(lives);
    assert forall id :: id in all <==> id in lives;
    assert forall id :: id in lives ==> all[id] == lives[id];
  }

  lemma FirstDue(lives: map<int, Live>, added: seq<SocketEvent>)
    requires added != [] && AreDue(lives, added)
    ensures var e := added[0]; e.id in lives && CanRun(lives[e.id]) && e == SocketEvent(e.id, lives[e.id].events[0])
  {
    assert added[0] in multiset(added);
  }

  lemma TickedAgain(lives: map<int, Live>, id: int)
    requires id in lives
    ensures AllTicked(lives[id := Ticked(lives[id])]) == AllTicked(lives)
  {}

  /** Whatever the order in which the tasks are made, making them is a run. */
  lemma {:induction false} SchedulingIsRun(g: Setting, s: Server, added: seq<SocketEvent>) returns (moves: seq<Move>)
    requires AreDue(s.sessions, added)
    ensures IsRun(g, s, moves)
    ensures Run(g, s, moves) == s.(sessions := AllTicked(s.sessions), tasks := s.tasks + added)
    decreases |added|
  {
    moves := [];
    if added == [] {
      NoneDue(s.sessions);
      assert s.tasks + [] == s.tasks;
    } else {
      FirstDue(s.sessions, added);
      var e, rest := added[0], added[1..];
      HeadTail(added);
      var m := Move(e.id, Schedules);
      var s' := s.(sessions := s.sessions[e.id := Ticked(s.sessions[e.id])], tasks := s.tasks + [e]);
      assert Enabled(g, s, m) && Apply(g, s, m) == s';
      hide *;
      OneMove(g, s, m);
      DueShrinks(s.sessions, e.id, rest);
      TickedAgain(s.sessions, e.id);
      var more := SchedulingIsRun(g, s', rest);
      Associate(s.tasks, [e], rest);
      RunSum(g, s, [m], more);
      moves := [m] + more;
    }
  }

  lemma {:induction false} RemovingIsRun(g: Setting, s: Server, was: map<int, Live>, rest: set<int>)
    returns (moves: seq<Move>)
    requires RemovedBut(was, s.sessions, rest)
    ensures IsRun(g, s, moves) && Run(g, s, moves) == s.(sessions := Remaining(was))
    decreases |rest|
  {
    moves := [];
    if rest == {} {
      OnlyRemaining(was, s.sessions);
    } else {
      NonEmpty(rest);
      var id :| id in rest;
      OneMoreRemoved(was, s.sessions, rest, id);
      if IsReadyForRemoval(s.sessions[id]) {
        var m := Move(id, Removes);
        var s' := s.(sessions := s.sessions - {id});
        assert Enabled(g, s, m) && Apply(g, s, m) == s';
        OneMove(g, s, m);
        var more := RemovingIsRun(g, s', was, rest - {id});
        hide Enabled, Apply, IsRun, Run, Remaining;
        RunSum(g, s, [m], more);
        moves := [m] + more;
      } else {
        moves := RemovingIsRun(g, s, was, rest - {id});
      }
    }
  }

  /**
   A turn of the loop that nobody disturbs is a run, in whatever order the tasks are made, so the guarantees of
   every run hold of it.
   */
  lemma LoopIsRun(g: Setting, s: Server, added: seq<SocketEvent>)
    requires s.polled == [] && AreDue(RoutedSessions(g, s), added)
    ensures exists moves :: IsRun(g, s, moves) && Run(g, s, moves) == LoopOnce(g, s, added)
  {
    var poll := Move(0, Polls);
    var s1 := Polled(s);
    assert Enabled(g, s, poll) && Apply(g, s, poll) == s1;
    OneMove(g, s, poll);
    var routes := RoutingIsRun(g, s1);
    var s2 := Routed(g, s1);
    var schedules := SchedulingIsRun(g, s2, added);
    var s3 := s2.(sessions := AllTicked(s2.sessions), tasks := s2.tasks + added);
    NothingRemoved(s3.sessions);
    var removes := RemovingIsRun(g, s3, s3.sessions, s3.sessions.Keys);
    hide Enabled, Apply, IsRun, Run, Routed, AllTicked, Remaining, Polled;
    RunSum(g, s, [poll], routes);
    RunSum(g, s, [poll] + routes, schedules);
    RunSum(g, s, [poll] + routes + schedules, removes);
  }

  /** ProcessEvent that nobody disturbs: handle, Continue unless the session is over, and let go of the session. */
  ghost function Processed(g: Setting, s: Server, id: int, tables: Tables, fails: bool): Server
    requires HoldsTask(s, id)
  {
    LetGo(ProcessEvent(g, s, id, tables, fails), id)
  }

  ghost function LetGo(s: Server, id: int): Server
    requires id in s.sessions
  {
    s.(sessions := s.sessions[id := s.sessions[id].(stage := Idle)],
       net := if s.sessions[id].stage == Answered(true) then ContinueWith(s.net, id) else s.net)
  }

  lemma LettingGo(g: Setting, s: Server, id: int)
    requires id in s.sessions && s.sessions[id].stage.Answered?
    ensures var m2, m3 := Move(id, Continues), Move(id, Finishes);
      && Enabled(g, s, m2) && Enabled(g, Apply(g, s, m2), m3)
      && Apply(g, Apply(g, s, m2), m3) == LetGo(s, id)
  {}

  lemma ThreeMoves(g: Setting, s: Server, m1: Move, m2: Move, m3: Move)
    requires Enabled(g, s, m1) && Enabled(g, Apply(g, s, m1), m2)
    requires Enabled(g, Apply(g, Apply(g, s, m1), m2), m3)
    ensures IsRun(g, s, [m1, m2, m3]) && Run(g, s, [m1, m2, m3]) == Apply(g, Apply(g, Apply(g, s, m1), m2), m3)
  {
    hide *;
    var s1, s2 := Apply(g, s, m1), Apply(g, Apply(g, s, m1), m2);
    OneMove(g, s, m1);
    OneMove(g, s1, m2);
    OneMove(g, s2, m3);
    RunSum(g, s, [m1], [m2]);
    RunSum(g, s, [m1] + [m2], [m3]);
    assert [m1] + [m2] + [m3] == [m1, m2, m3];
  }

  lemma ProcessingIsRun(g: Setting, s: Server, id: int, tables: Tables, fails: bool)
    requires HoldsTask(s, id)
    ensures var moves := [Move(id, Processes(tables, fails)), Move(id, Continues), Move(id, Finishes)];
      IsRun(g, s, moves) && Run(g, s, moves) == Processed(g, s, id, tables, fails)
  {
    hide *;
    Answering(g, s, id, tables, fails);
    LettingGo(g, ProcessEvent(g, s, id, tables, fails), id);
    ThreeMoves(g, s, Move(id, Processes(tables, fails)), Move(id, Continues), Move(id, Finishes));
  }

  lemma Answering(g: Setting, s: Server, id: int, tables: Tables, fails: bool)
    requires HoldsTask(s, id)
    ensures var m, s1 := Move(id, Processes(tables, fails)), ProcessEvent(g, s, id, tables, fails);
      && Enabled(g, s, m) && Apply(g, s, m) == s1
      && id in s1.sessions && s1.sessions[id].stage.Answered?
      && Processed(g, s, id, tables, fails) == LetGo(s1, id)
  {}
}
