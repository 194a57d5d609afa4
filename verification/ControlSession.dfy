/** One /ws/control session: which inputs its client holds, and what each message, turn loss or
    disconnect makes it send. */
module ControlSession {
  import opened Wrappers
  import opened Protocol
  import opened ControlState
  import opened Store

  /** What a snapshot says about the turn: None while offline, Some(None) between turns. */
  type TurnInfo = Option<Option<int>>

  // ---------------------------------------------------------------- a session step by step
  //
  // Between two steps the reader thread, the claim requests, the game and the network may act; the
  // other sessions may not, since a handler runs on the event loop and awaits only when it is done.

  datatype Pc =
    | Receiving
    | Looking(action: ControlAction, phase: ControlPhase, value: int, team: int)
    | Sending(action: ControlAction, phase: ControlPhase, value: int, team: int)
    | Releasing(todo: set<ControlAction>, ending: bool)
    | Gone

  datatype Session = Session(email: string, held: set<ControlAction>, heldTeam: Option<int>, pc: Pc)

  function NewSession(email: string): Session { Session(email, {}, None, Receiving) }

  /** `_release_held`, up to its first send. */
  function StartRelease(s: Session, ending: bool): Session {
    if s.heldTeam.None? then s.(pc := if ending then Gone else Receiving)
    else s.(pc := Releasing(s.held, ending))
  }

  /** A well-formed message arrives and the snapshot is read. */
  function OnReceive(s: Session, action: ControlAction, phase: ControlPhase, value: int,
                     turn: TurnInfo): Session {
    if turn.None? then s
    else if turn.value.None? then StartRelease(s, false)
    else s.(pc := Looking(action, phase, value, turn.value.value))
  }

  /** The owner of the turn's team is looked up. */
  function OnLookup(s: Session, owner: Option<string>): Session
    requires s.pc.Looking?
  {
    if owner == Some(s.email)
    then s.(pc := Sending(s.pc.action, s.pc.phase, s.pc.value, s.pc.team))
    else StartRelease(s, false)
  }

  function Tracked(held: set<ControlAction>, action: ControlAction, phase: ControlPhase): set<ControlAction> {
    if !IsLevel(action) then held else if phase.Press? then held + {action} else held - {action}
  }

  /** send_command returned (`ok`) or raised. */
  function OnSend(s: Session, ok: bool): Session
    requires s.pc.Sending?
  {
    var s1 := s.(pc := Receiving);
    if !ok then s1
    else s1.(held := Tracked(s.held, s.pc.action, s.pc.phase),
             heldTeam := if IsLevel(s.pc.action) then Some(s.pc.team) else s.heldTeam)
  }

  function OnReleased(s: Session, act: ControlAction): Session
    requires s.pc.Releasing?
  {
    s.(pc := Releasing(s.pc.todo - {act}, s.pc.ending))
  }

  function OnReleaseDone(s: Session): Session
    requires s.pc.Releasing?
  {
    s.(held := {}, pc := if s.pc.ending then Gone else Receiving)
  }

  // ---------------------------------------------------------------- the handler itself

  /** One call of send_command and whether it returned. */
  datatype Try = Try(cmd: Command, ok: bool)

  /** The transport's command side: without a socket every send raises, with one it may. */
  class Transport {
    var connected: bool
    var turn: TurnInfo
    ghost var tries: seq<Try>

    constructor (connected: bool, turn: TurnInfo)
      ensures this.connected == connected && this.turn == turn && tries == []
    {
      this.connected, this.turn, tries := connected, turn, [];
    }

    method SendCommand(cmd: Command) returns (ok: bool)
      modifies this`tries
      ensures tries == old(tries) + [Try(cmd, ok)]
      ensures !connected ==> !ok
    {
      ok := *;
      if !connected { ok := false; }
      tries := tries + [Try(cmd, ok)];
    }
  }

  datatype Reply = UnknownAction | UnknownPhase | NotYourTurn(turn: Option<int>) | GameOffline
    | Done(action: ControlAction, phase: ControlPhase)

  /** Whose turn it is, for this user. */
  datatype Verdict = Offline | Refused(turn: Option<int>) | Allowed(team: int)

  function Judge(turn: TurnInfo, t: Table, email: string): Verdict {
    if turn.None? then Offline
    else if turn.value.None? then Refused(None)
    else if EmailFor(t, turn.value.value) == Some(email) then Allowed(turn.value.value)
    else Refused(turn.value)
  }

  /** A user whose (lower-case) email owns a team may act exactly while it is that team's turn. */
  lemma JudgeExactly(turn: TurnInfo, t: Table, email: string, team: int)
    requires TwoWayUnique(t) && Lower(email) == email
    ensures Judge(turn, t, email) == Allowed(team) <==> turn == Some(Some(team)) && TeamFor(t, email) == Some(team)
    ensures Judge(turn, t, email) == Offline <==> turn == None
    ensures Judge(turn, t, email).Refused? <==>
              turn.Some? && (turn.value == None || turn.value != TeamFor(t, email))
    ensures Judge(turn, t, email).Refused? ==> Judge(turn, t, email).turn == turn.value
  {
  }

  /** `tries` releases each action of `held` once, for `team`. */
  ghost predicate ReleasesAll(tries: seq<Try>, held: set<ControlAction>, team: int) {
    && (forall i | 0 <= i < |tries| ::
          tries[i].cmd == Command(team, tries[i].cmd.action, Release, 0) && tries[i].cmd.action in held)
    && (forall i, j | 0 <= i < j < |tries| :: tries[i].cmd.action != tries[j].cmd.action)
    && (forall a | a in held :: exists i | 0 <= i < |tries| :: tries[i].cmd.action == a)
  }

  class ControlSession {
    const email: string
    var held: set<ControlAction>
    var heldTeam: Option<int>

    ghost function View(pc: Pc): Session
      reads this
    {
      Session(email, held, heldTeam, pc)
    }

    constructor (email: string)
      ensures View(Receiving) == NewSession(email)
    {
      this.email, held, heldTeam := email, {}, None;
    }

    /** Sends a release for everything held, whether or not the sends succeed, and forgets it all;
        does nothing when no team was ever controlled. */
    method ReleaseHeld(ipc: Transport)
      modifies this`held, ipc`tries
      ensures heldTeam.None? ==> held == old(held) && ipc.tries == old(ipc.tries)
      ensures heldTeam.Some? ==>
                held == {} && old(ipc.tries) <= ipc.tries &&
                ReleasesAll(ipc.tries[|old(ipc.tries)|..], old(held), heldTeam.value)
    {
      if heldTeam.None? { return; }
      var todo := held;
      ghost var sent: seq<Try> := [];
      while todo != {}
        invariant todo <= held && held == old(held)
        invariant ipc.tries == old(ipc.tries) + sent
        invariant ReleasesAll(sent, held - todo, heldTeam.value)
        decreases todo
      {
        var act :| act in todo;
        ghost var before := sent;
        var ok := ipc.SendCommand(Command(heldTeam.value, act, Release, 0));
        sent := sent + [Try(Command(heldTeam.value, act, Release, 0), ok)];
        ReleasesOneMore(before, held - todo, heldTeam.value, act, ok);
        todo := todo - {act};
        assert held - todo == held - (todo + {act}) + {act};
      }
      assert held - todo == held;
      held := {};
    }

    method OnMessage(actionRaw: string, phaseRaw: Option<string>, value: int, ipc: Transport,
                     store: MappingStore) returns (reply: Reply)
      modifies this, ipc`tries
      ensures old(ipc.tries) <= ipc.tries
      ensures var action, phase, new' :=
                ParseAction(actionRaw), StrictPhase(if phaseRaw.Some? then phaseRaw.value else "press"),
                ipc.tries[|old(ipc.tries)|..];
              if action.None? then reply == UnknownAction && Kept(old(held), old(heldTeam)) && new' == []
              else if phase.None? then reply == UnknownPhase && Kept(old(held), old(heldTeam)) && new' == []
              else match Judge(ipc.turn, store.table, email)
                   case Offline => reply == GameOffline && Kept(old(held), old(heldTeam)) && new' == []
                   case Refused(turn) =>
                     reply == NotYourTurn(turn) && heldTeam == old(heldTeam) &&
                     (if heldTeam.None? then held == old(held) && new' == []
                      else held == {} && ReleasesAll(new', old(held), heldTeam.value))
                   case Allowed(team) =>
                     |new'| == 1 && new'[0].cmd == Command(team, action.value, phase.value, value) &&
                     (if new'[0].ok
                      then reply == Done(action.value, phase.value) &&
                           held == Tracked(old(held), action.value, phase.value) &&
                           heldTeam == (if IsLevel(action.value) then Some(team) else old(heldTeam))
                      else reply == GameOffline && Kept(old(held), old(heldTeam)))
    {
      var action := ParseAction(actionRaw);
      if action.None? { return UnknownAction; }
      var phase := StrictPhase(if phaseRaw.Some? then phaseRaw.value else "press");
      if phase.None? { return UnknownPhase; }
      if ipc.turn.None? { return GameOffline; }
      var turn := ipc.turn.value;
      var allowed := false;
      if turn.Some? {
        var owner := store.EmailForTeam(turn.value);
        allowed := owner == Some(email);
      }
      if !allowed {
        ReleaseHeld(ipc);
        return NotYourTurn(turn);
      }
      var ok := ipc.SendCommand(Command(turn.value, action.value, phase.value, value));
      if !ok { return GameOffline; }
      if IsLevel(action.value) {
        heldTeam := turn;
        if phase.value.Press? {
          held := held + {action.value};
        } else {
          held := held - {action.value};
        }
      }
      return Done(action.value, phase.value);
    }

    ghost predicate Kept(oldHeld: set<ControlAction>, oldTeam: Option<int>)
      reads this
    {
      held == oldHeld && heldTeam == oldTeam
    }

    method OnDisconnect(ipc: Transport)
      modifies this`held, ipc`tries
      ensures heldTeam.None? ==> ipc.tries == old(ipc.tries)
      ensures heldTeam.Some? ==>
                old(ipc.tries) <= ipc.tries &&
                ReleasesAll(ipc.tries[|old(ipc.tries)|..], old(held), heldTeam.value)
    {
      ReleaseHeld(ipc);
    }
  }

  lemma ReleasesOneMore(tries: seq<Try>, held: set<ControlAction>, team: int, act: ControlAction, ok: bool)
    requires ReleasesAll(tries, held, team) && act !in held
    ensures ReleasesAll(tries + [Try(Command(team, act, Release, 0), ok)], held + {act}, team)
  {
    var more := tries + [Try(Command(team, act, Release, 0), ok)];
    forall a | a in held + {act} ensures exists i | 0 <= i < |more| :: more[i].cmd.action == a {
      if a == act {
        assert more[|tries|].cmd.action == a;
      } else {
        var i :| 0 <= i < |tries| && tries[i].cmd.action == a;
        assert more[i].cmd.action == a;
      }
    }
  }

  // ---------------------------------------------------------------- the handler takes the steps

  /** The step-by-step session after the release loop has sent `tries`. */
  function AfterReleases(s: Session, tries: seq<Try>): Session
    requires s.pc.Releasing?
  {
    if tries == [] then s
    else
      var before := AfterReleases(s, tries[..|tries| - 1]);
      if before.pc.Releasing? then OnReleased(before, tries[|tries| - 1].cmd.action) else before
  }

  lemma {:induction false} AfterReleasesMeaning(s: Session, tries: seq<Try>)
    requires s.pc.Releasing?
    ensures AfterReleases(s, tries) ==
            s.(pc := Releasing(s.pc.todo - (set i | 0 <= i < |tries| :: tries[i].cmd.action), s.pc.ending))
  {
    if tries != [] {
      var before := tries[..|tries| - 1];
      AfterReleasesMeaning(s, before);
      var a := set i | 0 <= i < |before| :: before[i].cmd.action;
      var b := set i | 0 <= i < |tries| :: tries[i].cmd.action;
      assert b == a + {tries[|tries| - 1].cmd.action} by {
        assert forall i | 0 <= i < |before| :: tries[i] == before[i];
      }
      assert s.pc.todo - a - {tries[|tries| - 1].cmd.action} == s.pc.todo - b;
    }
  }

  /** A whole release loop, in any order and with any outcomes, ends the step-by-step session's loop
      and leaves nothing held, as the handler does. */
  lemma ReleaseLoopMatches(s: Session, ending: bool, tries: seq<Try>)
    requires s.heldTeam.Some? && ReleasesAll(tries, s.held, s.heldTeam.value)
    ensures var end := AfterReleases(StartRelease(s, ending), tries);
            && end.pc == Releasing({}, ending)
            && OnReleaseDone(end) == s.(held := {}, pc := if ending then Gone else Receiving)
  {
    AfterReleasesMeaning(StartRelease(s, ending), tries);
    var released := set i | 0 <= i < |tries| :: tries[i].cmd.action;
    assert s.held <= released;
  }

  /** Served as the handler serves a message when nothing changes in between: what the steps of one
      message leave of the session, for each verdict and either outcome of the send. */
  lemma StepsMatchHandler(s: Session, action: ControlAction, phase: ControlPhase, value: int,
                          turn: TurnInfo, t: Table, ok: bool)
    requires s.pc.Receiving?
    ensures var s1 := OnReceive(s, action, phase, value, turn);
            var s2 := if s1.pc.Looking? then OnLookup(s1, EmailFor(t, s1.pc.team)) else s1;
            match Judge(turn, t, s.email)
            case Offline => s2 == s
            case Refused(_) => s2 == StartRelease(s, false)
            case Allowed(team) =>
              && s2.pc == Sending(action, phase, value, team)
              && OnSend(s2, ok) ==
                 if !ok then s
                 else s.(held := Tracked(s.held, action, phase),
                         heldTeam := if IsLevel(action) then Some(team) else s.heldTeam)
  {
  }
}
