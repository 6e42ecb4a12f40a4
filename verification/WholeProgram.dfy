/**
 The whole program: the server with its sessions and the delivery queue, on the same tables. Runs of it are what
 joins the theorems about the server, about sessions and about delivery.
 */
module WholeProgram {
  import opened Wrappers
  import opened SmtpSession
  import opened SessionInvariant
  import opened SessionDialogue
  import opened Sockets
  import opened ConnectionRun
  import S = ServerSystem
  import L = ServerLoop
  import D = DeliverySystem
  import Summary = DeliverySummary
  import Outcome = DeliveryOutcome

  /** inputs logs what each session has handled, with the tables that it met. */
  datatype Program = Program(server: S.Server, mail: D.System, inputs: map<int, seq<Input>>)

  /** A move of the server, or a step of the delivery queue. */
  datatype Turn = Serves(move: S.Move) | Delivers(step: D.Step)

  /** The program starts without connections; the tables may hold the mail of an earlier run. */
  function Start(mail: D.System): Program {
    Program(S.NewServer, mail, map[])
  }

  // ----- turns -----

  /** A session handles an event on the tables as they are; mail arrives only that way. */
  ghost predicate Enabled(g: Setting, c: D.Config, p: Program, turn: Turn) {
    match turn
    case Serves(m) => S.Enabled(g, p.server, m) && (m.action.Processes? ==> m.action.tables == p.mail.tables)
    case Delivers(step) => !step.Arrive? && D.Enabled(c, p.mail, step)
  }

  function InputOf(s: S.Server, m: S.Move): Input
    requires m.action.Processes? && S.HoldsTask(s, m.id)
  {
    Input(s.sessions[m.id].stage.event, m.action.tables, m.action.fails)
  }

  /** What the handler of a session makes of its event. */
  function Handles(g: Setting, s: S.Server, m: S.Move): Handled
    requires m.action.Processes? && S.HoldsTask(s, m.id)
  {
    Handle(g.config, g.users, m.action.tables, s.sessions[m.id].session, s.sessions[m.id].stage.event, m.action.fails)
  }

  /** A new session has handled nothing, and a session that is removed takes its log with it. */
  ghost function Logged(p: Program, m: S.Move, after: map<int, Live>): map<int, seq<Input>>
    requires m.action.Processes? ==> S.HoldsTask(p.server, m.id)
  {
    map id | id in after ::
      (if id in p.inputs then p.inputs[id] else [])
      + (if m.action.Processes? && m.id == id then [InputOf(p.server, m)] else [])
  }

  ghost function MailAfter(g: Setting, p: Program, m: S.Move): D.System
    requires m.action.Processes? ==> S.HoldsTask(p.server, m.id)
  {
    if m.action.Processes? then p.mail.(tables := Handles(g, p.server, m).tables) else p.mail
  }

  ghost function Apply(g: Setting, c: D.Config, p: Program, turn: Turn): Program
    requires Enabled(g, c, p, turn)
  {
    match turn
    case Serves(m) =>
      var server := S.Apply(g, p.server, m);
      Program(server, MailAfter(g, p, m), Logged(p, m, server.sessions))
    case Delivers(step) => p.(mail := D.Apply(c, p.mail, step))
  }

  ghost predicate IsRun(g: Setting, c: D.Config, p: Program, turns: seq<Turn>)
    decreases |turns|, 0
  {
    turns == [] ||
    var n := |turns| - 1;
    IsRun(g, c, p, turns[..n]) && Enabled(g, c, Run(g, c, p, turns[..n]), turns[n])
  }

  ghost function Run(g: Setting, c: D.Config, p: Program, turns: seq<Turn>): Program
    requires IsRun(g, c, p, turns)
    decreases |turns|, 1
  {
    if turns == [] then p else
    var n := |turns| - 1;
    Apply(g, c, Run(g, c, p, turns[..n]), turns[n])
  }

  // ----- every session is what its events made of it -----

  function EventsIn(inputs: seq<Input>): seq<Event> {
    seq(|inputs|, i requires 0 <= i < |inputs| => inputs[i].event)
  }

  ghost predicate EndsWith<T>(s: seq<T>, end: seq<T>) {
    |end| <= |s| && s[|s| - |end|..] == end
  }

  ghost predicate Follows(g: Setting, p: Program, id: int)
    requires id in p.server.sessions && id in p.inputs
  {
    && p.server.sessions[id].session == After(g.config, g.users, FreshSession, p.inputs[id])
    && EndsWith(S.EventsOf(p.server.finished, id), EventsIn(p.inputs[id]))
  }

  /** The log of a session is what it was made by, and the events last handled for its connection. */
  ghost predicate SessionsFollow(g: Setting, p: Program) {
    p.inputs.Keys == p.server.sessions.Keys && forall id :: id in p.inputs ==> Follows(g, p, id)
  }

  /** What a move does to the session of a connection. */
  lemma SessionAfter(g: Setting, s: S.Server, m: S.Move, id: int)
    requires S.Enabled(g, s, m) && id in S.Apply(g, s, m).sessions
    ensures var session := S.Apply(g, s, m).sessions[id].session;
      if id !in s.sessions then session == FreshSession && !(m.action.Processes? && m.id == id)
      else if m.action.Processes? && m.id == id then session == Handles(g, s, m).session
      else session == s.sessions[id].session
  {
    hide Accept, RunPost, Put, ContinueWith, ReadEnds, WriteEnds, HandshakeEnds, Handle, PostsOf, S.EventsOf, S.Without;
  }

  /** What it does to the events handled or dropped: those of a session are handled. */
  lemma FinishedAfter(g: Setting, s: S.Server, m: S.Move, id: int)
    requires S.Enabled(g, s, m) && id in S.Apply(g, s, m).sessions
    ensures S.EventsOf(S.Apply(g, s, m).finished, id)
         == S.EventsOf(s.finished, id) + if m.action.Processes? && m.id == id then [InputOf(s, m).event] else []
  {
    if m.action.Processes? {
      LastFinished(s.finished, SocketEvent(m.id, s.sessions[m.id].stage.event), id);
    } else if m.action.Routes? {
      LastFinished(s.finished, s.polled[0], id);
    }
    AddNothing(S.EventsOf(s.finished, id));
    hide Accept, RunPost, Put, ContinueWith, ReadEnds, WriteEnds, HandshakeEnds, Handle, PostsOf, S.EventsOf, S.Without;
  }

  lemma LastFinished(finished: seq<SocketEvent>, e: SocketEvent, id: int)
    ensures S.EventsOf(finished + [e], id) == S.EventsOf(finished, id) + if e.id == id then [e.event] else []
  {
    S.EventsOfSum(finished, [e], id);
    S.OneEvent(e, id);
    hide S.EventsOf;
  }

  lemma {:induction false} AfterOneMore(g: Setting, s: Session, inputs: seq<Input>, last: Input)
    ensures After(g.config, g.users, s, inputs + [last])
         == Next(g.config, g.users, After(g.config, g.users, s, inputs), last)
    decreases |inputs|
  {
    if inputs == [] {
      assert [] + [last] == [last] && [last][1..] == [];
      hide Next;
    } else {
      assert (inputs + [last])[0] == inputs[0] && (inputs + [last])[1..] == inputs[1..] + [last];
      hide Next;
      AfterOneMore(g, Next(g.config, g.users, s, inputs[0]), inputs[1..], last);
    }
  }

  lemma EndsLater<T>(s: seq<T>, end: seq<T>, x: T)
    requires EndsWith(s, end)
    ensures EndsWith(s + [x], end + [x])
  {}

  lemma EventsInSum(inputs: seq<Input>, last: Input)
    ensures EventsIn(inputs + [last]) == EventsIn(inputs) + [last.event] && EventsIn([]) == []
  {}

  lemma FollowsOn(g: Setting, c: D.Config, p: Program, m: S.Move, id: int)
    requires SessionsFollow(g, p) && Enabled(g, c, p, Serves(m))
    requires id in Apply(g, c, p, Serves(m)).server.sessions
    ensures var p' := Apply(g, c, p, Serves(m)); id in p'.inputs && Follows(g, p', id)
  {
    var p' := Apply(g, c, p, Serves(m));
    var log := if id in p.inputs then p.inputs[id] else [];
    assert S.Enabled(g, p.server, m) && p'.server == S.Apply(g, p.server, m);
    assert id in p.inputs <==> id in p.server.sessions;
    assert id in p.inputs ==> Follows(g, p, id);
    assert p'.inputs[id] == log + if m.action.Processes? && m.id == id then [InputOf(p.server, m)] else [];
    hide SessionsFollow, Enabled, Apply, S.Enabled, S.Apply, Logged, MailAfter, After, S.EventsOf, EventsIn;
    SessionAfter(g, p.server, m, id);
    FinishedAfter(g, p.server, m, id);
    AddNothing(log);
    AddNothing(S.EventsOf(p.server.finished, id));
    FreshAfter(g, S.EventsOf(p.server.finished, id));
    if m.action.Processes? && m.id == id {
      AfterOneMore(g, FreshSession, log, InputOf(p.server, m));
      EventsInSum(log, InputOf(p.server, m));
      EndsLater(S.EventsOf(p.server.finished, id), EventsIn(log), InputOf(p.server, m).event);
    }
  }

  lemma FreshAfter(g: Setting, events: seq<Event>)
    ensures After(g.config, g.users, FreshSession, []) == FreshSession && EndsWith(events, EventsIn([]))
  {}

  // ----- what the delivery queue sees of a turn -----

  /** The mail that the turn stores. */
  ghost predicate StoresMail(g: Setting, p: Program, turn: Turn) {
    && turn.Serves? && turn.move.action.Processes? && S.HoldsTask(p.server, turn.move.id)
    && !NoStore(Handles(g, p.server, turn.move).effects)
  }

  /** The dialogue of the connection with its session. */
  ghost function DialogueOf(g: Setting, p: Program, id: int): seq<Exchange>
    requires id in p.inputs
  {
    Dialogue(g.config, g.users, FreshSession, p.inputs[id])
  }

  /** The mail under way on the connection whose event the turn handles, as its dialogue shows it. */
  ghost function Shown(g: Setting, p: Program, turn: Turn): View
    requires turn.Serves? && turn.move.id in p.inputs
  {
    ViewOf(DialogueOf(g, p, turn.move.id))
  }

  ghost predicate IsMail(v: View) {
    v.sender.Some? && v.recipients != [] && v.body.Some?
  }

  lemma StoredIsShown(g: Setting, c: D.Config, p: Program, m: S.Move)
    requires SessionsFollow(g, p) && Enabled(g, c, p, Serves(m)) && m.action.Processes?
    ensures m.id in p.inputs
    ensures var v, t, t' := Shown(g, p, Serves(m)), p.mail.tables, Handles(g, p.server, m).tables;
      if StoresMail(g, p, Serves(m)) then IsMail(v) && t' == D.StoreMail(t, v.sender.value, v.recipients, v.body.value)
      else t' == t
  {
    var id := m.id;
    assert S.HoldsTask(p.server, id) && m.action.tables == p.mail.tables;
    assert id in p.inputs && Follows(g, p, id);
    hide SessionsFollow, Enabled, Handle, After, Dialogue, ViewOf, D.StoreMail, S.Enabled, EndsWith, S.EventsOf;
    StoredEqualsDialogue(g.config, g.users, p.inputs[id], InputOf(p.server, m));
  }

  /** The step of the delivery queue that a turn is, if it is one. */
  ghost function StepOf(g: Setting, p: Program, turn: Turn): Option<D.Step> {
    if turn.Delivers? then Some(turn.step)
    else if !StoresMail(g, p, turn) || turn.move.id !in p.inputs then None
    else
      var v := Shown(g, p, turn);
      if IsMail(v) then Some(D.Arrive(v.sender.value, v.recipients, v.body.value)) else None
  }

  lemma TurnIsStep(g: Setting, c: D.Config, p: Program, turn: Turn)
    requires SessionsFollow(g, p) && Enabled(g, c, p, turn)
    ensures match StepOf(g, p, turn)
      case None => Apply(g, c, p, turn).mail == p.mail
      case Some(step) => D.Enabled(c, p.mail, step) && Apply(g, c, p, turn).mail == D.Apply(c, p.mail, step)
  {
    if turn.Serves? && turn.move.action.Processes? {
      StoredIsShown(g, c, p, turn.move);
      hide SessionsFollow, D.StoreMail, Handle, S.Enabled, S.Apply, Logged, Shown;
    } else {
      hide SessionsFollow, D.StoreMail, Handle, S.Enabled, S.Apply, Logged, Shown, D.Apply, D.Enabled;
    }
  }

  // ----- what every turn keeps -----

  ghost predicate ProgramInv(g: Setting, p: Program) {
    S.ServerInv(p.server) && SessionsFollow(g, p) && Summary.SummaryInv(p.mail)
  }

  lemma FollowKept(g: Setting, c: D.Config, p: Program, turn: Turn)
    requires SessionsFollow(g, p) && Enabled(g, c, p, turn)
    ensures SessionsFollow(g, Apply(g, c, p, turn))
  {
    var p' := Apply(g, c, p, turn);
    if turn.Serves? {
      assert p'.inputs.Keys == p'.server.sessions.Keys;
      forall id | id in p'.inputs ensures Follows(g, p', id) {
        FollowsOn(g, c, p, turn.move, id);
      }
      hide Enabled, Apply, Follows;
    } else {
      assert p'.inputs == p.inputs && p'.server == p.server;
      hide Enabled, Apply;
      forall id | id in p'.inputs ensures Follows(g, p', id) {
        assert Follows(g, p, id);
      }
    }
  }

  lemma ServerTurn(g: Setting, c: D.Config, p: Program, turn: Turn)
    requires Enabled(g, c, p, turn)
    ensures match turn
      case Serves(m) => S.Enabled(g, p.server, m) && Apply(g, c, p, turn).server == S.Apply(g, p.server, m)
      case Delivers(step) => Apply(g, c, p, turn).server == p.server
  {
    hide S.Enabled, S.Apply, Logged, MailAfter, D.Apply, D.Enabled;
  }

  lemma TurnKeeps(g: Setting, c: D.Config, p: Program, turn: Turn)
    requires ProgramInv(g, p) && Enabled(g, c, p, turn)
    ensures ProgramInv(g, Apply(g, c, p, turn))
  {
    FollowKept(g, c, p, turn);
    ServerTurn(g, c, p, turn);
    TurnIsStep(g, c, p, turn);
    hide Enabled, Apply, StepOf, S.ServerInv, SessionsFollow, Summary.SummaryInv, S.Apply, S.Enabled;
    if turn.Serves? {
      S.ServerKept(g, p.server, turn.move);
    }
    var step := StepOf(g, p, turn);
    if step.Some? {
      Summary.StepKeepsSummary(c, p.mail, step.value);
    }
  }

  lemma StartHolds(g: Setting, mail: D.System)
    requires Outcome.Fresh(mail)
    ensures ProgramInv(g, Start(mail))
  {
    S.NewServerHolds();
    Outcome.FreshHolds(mail);
    hide S.ServerInv, Summary.SummaryInv, Outcome.Fresh;
  }

  /**
   In every run of the program each session is what the events handled for its connection make of a fresh one, each
   with the tables it met; and the server, the handoff and the message statuses keep their invariants.
   */
  lemma {:induction false} ProgramKept(g: Setting, c: D.Config, p: Program, turns: seq<Turn>)
    requires ProgramInv(g, p) && IsRun(g, c, p, turns)
    ensures ProgramInv(g, Run(g, c, p, turns))
    decreases |turns|
  {
    if turns != [] {
      var n := |turns| - 1;
      hide ProgramInv, Enabled, Apply;
      ProgramKept(g, c, p, turns[..n]);
      TurnKeeps(g, c, Run(g, c, p, turns[..n]), turns[n]);
    }
  }

  /** So what holds over all event sequences holds of every session of the running program. */
  lemma SessionsInEveryRun(g: Setting, c: D.Config, mail: D.System, turns: seq<Turn>, id: int)
    requires Outcome.Fresh(mail) && IsRun(g, c, Start(mail), turns)
    requires id in Run(g, c, Start(mail), turns).server.sessions
    ensures var p := Run(g, c, Start(mail), turns);
      && id in p.inputs
      && p.server.sessions[id].session == After(g.config, g.users, FreshSession, p.inputs[id])
      && EndsWith(S.EventsOf(p.server.finished, id), EventsIn(p.inputs[id]))
      && SessionInv(g.config, p.server.sessions[id].session)
  {
    StartHolds(g, mail);
    ProgramKept(g, c, Start(mail), turns);
    var p := Run(g, c, Start(mail), turns);
    assert SessionsFollow(g, p);
    assert id in p.inputs && Follows(g, p, id);
    FreshHolds(g.config);
    InvariantAlways(g.config, g.users, FreshSession, p.inputs[id]);
    hide Run, IsRun, After, SessionInv, ProgramInv;
  }

  // ----- a run of the program is a run of the server and one of the delivery queue -----

  function MovesOf(turns: seq<Turn>): seq<S.Move>
    decreases |turns|
  {
    if turns == [] then []
    else
      var n := |turns| - 1;
      MovesOf(turns[..n]) + if turns[n].Serves? then [turns[n].move] else []
  }

  /** Everything proved about the runs of the server holds of the server in the program. */
  lemma {:induction false} ServerRuns(g: Setting, c: D.Config, p: Program, turns: seq<Turn>)
    requires IsRun(g, c, p, turns)
    ensures S.IsRun(g, p.server, MovesOf(turns))
    ensures S.Run(g, p.server, MovesOf(turns)) == Run(g, c, p, turns).server
    decreases |turns|
  {
    if turns != [] {
      var n := |turns| - 1;
      var before := Run(g, c, p, turns[..n]);
      ServerTurn(g, c, before, turns[n]);
      hide Enabled, Apply, S.Enabled, S.Apply, S.IsRun, S.Run;
      ServerRuns(g, c, p, turns[..n]);
      if turns[n].Serves? {
        L.OneMove(g, before.server, turns[n].move);
        L.RunSum(g, p.server, MovesOf(turns[..n]), [turns[n].move]);
      } else {
        AddNothing(MovesOf(turns[..n]));
      }
    }
  }

  /** The steps of the delivery queue in a run: its own, and each stored mail as one that arrives. */
  ghost function StepsOf(g: Setting, c: D.Config, p: Program, turns: seq<Turn>): seq<D.Step>
    requires IsRun(g, c, p, turns)
    decreases |turns|
  {
    if turns == [] then []
    else
      var n := |turns| - 1;
      var step := StepOf(g, Run(g, c, p, turns[..n]), turns[n]);
      StepsOf(g, c, p, turns[..n]) + if step.Some? then [step.value] else []
  }

  /** Everything proved about the runs of the delivery queue holds of the queue in the program. */
  lemma {:induction false} DeliveryRuns(g: Setting, c: D.Config, p: Program, turns: seq<Turn>)
    requires ProgramInv(g, p) && IsRun(g, c, p, turns)
    ensures D.IsRun(c, p.mail, StepsOf(g, c, p, turns))
    ensures D.Run(c, p.mail, StepsOf(g, c, p, turns)) == Run(g, c, p, turns).mail
    decreases |turns|
  {
    if turns != [] {
      var n := |turns| - 1;
      var before := Run(g, c, p, turns[..n]);
      ProgramKept(g, c, p, turns[..n]);
      assert SessionsFollow(g, before);
      TurnIsStep(g, c, before, turns[n]);
      hide ProgramInv, SessionsFollow, StepOf, Enabled, Apply, D.IsRun, D.Run, D.Enabled, D.Apply;
      DeliveryRuns(g, c, p, turns[..n]);
      var step := StepOf(g, before, turns[n]);
      if step.Some? {
        D.OneStepMore(c, p.mail, StepsOf(g, c, p, turns[..n]), step.value);
      } else {
        AddNothing(StepsOf(g, c, p, turns[..n]));
      }
    }
  }
}
