/** What holds over every run of the control path: exactly which flags stay set, that nothing is
    forwarded without the turn, and what sessions hold. */
module ControlHistory {
  import opened Wrappers
  import opened Protocol
  import opened ControlState
  import opened Store
  import opened ControlSession
  import opened ControlPlane
  import GameThread

  /** The state before step `n` of a run. */
  function At(steps: seq<Step>, n: nat): State
    requires n <= |steps|
  {
    Run(steps[..n])
  }

  lemma AtNext(steps: seq<Step>, n: nat)
    requires n < |steps|
    ensures At(steps, n + 1) == Do(At(steps, n), steps[n])
  {
    assert steps[..n + 1][..n] == steps[..n];
  }

  lemma AtEnd(steps: seq<Step>)
    ensures At(steps, |steps|) == Run(steps)
  {
    assert steps[..|steps|] == steps;
  }

  lemma AtInv(steps: seq<Step>, n: nat)
    requires n <= |steps|
    ensures Inv(At(steps, n))
  {
    RunInv(INIT, steps[..n]);
  }

  // ---------------------------------------------------------------- exactly the flags left set

  /** The command about `a` that a step hands to the link, if it does. */
  function Handed(s: State, step: Step, a: ControlAction): Option<(ControlPhase, Fate)> {
    match step
    case Send(sid, fate) =>
      if sid in s.backend.sessions && s.backend.sessions[sid].pc.Sending? &&
         s.backend.sessions[sid].pc.action == a
      then Some((s.backend.sessions[sid].pc.phase, fate)) else None
    case ReleaseOne(sid, action, fate) =>
      if sid in s.backend.sessions && s.backend.sessions[sid].pc.Releasing? &&
         action in s.backend.sessions[sid].pc.todo && action == a
      then Some((Release, fate)) else None
    case _ => None
  }

  predicate FlagOf(s: State, a: ControlAction) { Flag(s.dll.reg, s.link.queue, a) }

  /** The step loses a release of `a`: with a dead connection, behind a torn line, or (an automatic
      one) because send_command raised. */
  predicate LosesRelease(s: State, step: Step, a: ControlAction) {
    match step
    case Lose(from, upTo) => Within(s.link.queue, from, upTo) && a in ReleasesIn(s.link.queue[from..upTo])
    case _ =>
      var h := Handed(s, step, a);
      h.Some? && h.value.0.Release? && !Enqueued(s.link, h.value.1) &&
      (step.ReleaseOne? || Ok(s.link, h.value.1))
  }

  /** ... and the flag of `a` is set without it. */
  predicate Strands(s: State, step: Step, a: ControlAction) {
    LosesRelease(s, step, a) && FlagOf(Do(s, step), a)
  }

  /** The step undoes such a loss: an edge of `a` gets through, the press is lost too, or the game
      ends with nothing on its way that would set the flag again. */
  predicate Frees(s: State, step: Step, a: ControlAction) {
    match step
    case Lose(from, upTo) => Within(s.link.queue, from, upTo) && !FlagOf(Do(s, step), a)
    case Teardown => !Flag(CLEARED, s.link.queue, a)
    case _ => var h := Handed(s, step, a); h.Some? && Enqueued(s.link, h.value.1)
  }

  predicate StuckRule(s: State, step: Step, a: ControlAction) {
    a in Do(s, step).stuck <==> Strands(s, step, a) || (a in s.stuck && !Frees(s, step, a))
  }

  lemma StuckHanded(s: State, step: Step, a: ControlAction)
    requires step.Send? || step.ReleaseOne?
    ensures StuckRule(s, step, a)
  {
  }

  lemma StuckStep(s: State, step: Step, a: ControlAction)
    ensures StuckRule(s, step, a)
  {
    if step.Send? || step.ReleaseOne? { StuckHanded(s, step, a); }
  }

  /** `on` holds at `i` and `off` at no later number below `n`. */
  predicate OnAt(on: nat -> bool, off: nat -> bool, n: nat, i: nat) {
    i < n && on(i) && forall j: nat | i < j < n :: !off(j)
  }

  predicate OnSince(on: nat -> bool, off: nat -> bool, n: nat) {
    exists i: nat | i < n :: OnAt(on, off, n, i)
  }

  lemma OnNext(on: nat -> bool, off: nat -> bool, n: nat)
    ensures OnSince(on, off, n + 1) <==> on(n) || (OnSince(on, off, n) && !off(n))
  {
    if on(n) { assert OnAt(on, off, n + 1, n); }
    if OnSince(on, off, n) && !off(n) {
      var i: nat :| i < n && OnAt(on, off, n, i);
      assert OnAt(on, off, n + 1, i);
    }
    if OnSince(on, off, n + 1) {
      var i: nat :| i < n + 1 && OnAt(on, off, n + 1, i);
      if i < n { assert OnAt(on, off, n, i) && !off(n); }
    }
  }

  function StrandsAt(steps: seq<Step>, a: ControlAction): nat -> bool {
    (i: nat) => i < |steps| && Strands(At(steps, i), steps[i], a)
  }

  function FreesAt(steps: seq<Step>, a: ControlAction): nat -> bool {
    (i: nat) => i < |steps| && Frees(At(steps, i), steps[i], a)
  }

  /** Among the first `n` steps, one strands `a` and no later one frees it. */
  predicate Stuck(steps: seq<Step>, n: nat, a: ControlAction) {
    OnSince(StrandsAt(steps, a), FreesAt(steps, a), n)
  }

  lemma StuckNext(steps: seq<Step>, n: nat, a: ControlAction)
    requires n < |steps|
    ensures Stuck(steps, n + 1, a) <==>
              Strands(At(steps, n), steps[n], a) || (Stuck(steps, n, a) && !Frees(At(steps, n), steps[n], a))
  {
    OnNext(StrandsAt(steps, a), FreesAt(steps, a), n);
  }

  /** The actions recorded as stuck are those with such a step behind them. */
  lemma {:induction false} StuckIsHistory(steps: seq<Step>, n: nat, a: ControlAction)
    requires n <= |steps|
    ensures a in At(steps, n).stuck <==> Stuck(steps, n, a)
  {
    if n > 0 {
      StuckIsHistory(steps, n - 1, a);
      StuckStays(steps, n - 1, a);
    } else {
      assert steps[..0] == [];
    }
  }

  lemma StuckStays(steps: seq<Step>, n: nat, a: ControlAction)
    requires n < |steps| && (a in At(steps, n).stuck <==> Stuck(steps, n, a))
    ensures a in At(steps, n + 1).stuck <==> Stuck(steps, n + 1, a)
  {
    AtNext(steps, n);
    StuckStep(At(steps, n), steps[n], a);
    StuckNext(steps, n, a);
  }

  /** Stuck input, exactly: for any number of sessions and any interleaving, the flag that an action
      no session holds will have, once all commands in flight are applied, is set if and only if some
      step lost a release of it leaving it set, and none since has undone that. While a session
      holds the action, such a loss still means a set flag. */
  lemma NoStuckInput(steps: seq<Step>, a: ControlAction, converted: nat -> int)
    requires IsLevel(a)
    ensures var s := Run(steps);
            var isSet := Level(AfterQueue(s.dll.reg, s.link.queue, converted), a);
            && (!HeldBySomeone(s.backend, a) ==> (isSet <==> Stuck(steps, |steps|, a)))
            && (Stuck(steps, |steps|, a) ==> isSet)
  {
    RunInv(INIT, steps);
    var s := Run(steps);
    assert FlagOk(s, a);
    FlagMeaning(s.dll.reg, s.link.queue, converted, a);
    AtEnd(steps);
    StuckIsHistory(steps, |steps|, a);
  }

  // ---------------------------------------------------------------- a release that is lost for good

  /** A player holds move-left, the connection drops (`lost`: taking the press with it), the player
      leaves, the connection returns. */
  function Stranded(email: string, lost: bool): seq<Step> {
    [LinkUp, SetTable(map[0 := email]), Publish(Some(Some(0))), Connect(email),
     Message(0, MoveLeft, Press, 0), Lookup(0), Send(0, Went), if lost then Lose(0, 1) else Deliver(0),
     LinkDown, Disconnect(0), ReleaseOne(0, MoveLeft, Raised(0)), ReleaseDone(0), LinkUp]
  }

  /** One session, `ses`, whose user owns the team that has the turn. */
  predicate Alone(s: State, ses: Session, l: Link, h: Held) {
    && s.backend.world == World(Some(Some(0)), map[0 := ses.email])
    && s.backend.sessions == map[0 := ses] && s.link == l && s.dll.reg == h
  }

  const LINKED := Link(true, false, [])

  function Walking(lost: bool): Held { CLEARED.(moveLeft := !lost) }

  function Holding(email: string, pc: Pc): Session { Session(email, {MoveLeft}, Some(0), pc) }

  lemma Connects(email: string, lost: bool)
    ensures Alone(At(Stranded(email, lost), 4), NewSession(email), LINKED, CLEARED)
  {
    var steps := Stranded(email, lost);
    assert steps[..0] == [];
    AtNext(steps, 0);
    AtNext(steps, 1);
    AtNext(steps, 2);
    AtNext(steps, 3);
  }

  lemma Authorises(s: State, email: string)
    requires Alone(s, NewSession(email), LINKED, CLEARED)
    ensures Alone(Do(Do(s, Message(0, MoveLeft, Press, 0)), Lookup(0)),
                  NewSession(email).(pc := Sending(MoveLeft, Press, 0, 0)), LINKED, CLEARED)
  {
    assert Alone(Do(s, Message(0, MoveLeft, Press, 0)),
                 NewSession(email).(pc := Looking(MoveLeft, Press, 0, 0)), LINKED, CLEARED);
  }

  lemma Presses(s: State, email: string, lost: bool)
    requires Alone(s, NewSession(email).(pc := Sending(MoveLeft, Press, 0, 0)), LINKED, CLEARED)
    ensures Alone(Do(Do(s, Send(0, Went)), if lost then Lose(0, 1) else Deliver(0)), Holding(email, Receiving),
                  LINKED, Walking(lost))
  {
    assert Tracked({}, MoveLeft, Press) == {MoveLeft};
    assert Alone(Do(s, Send(0, Went)), Holding(email, Receiving),
                 LINKED.(queue := [Command(0, MoveLeft, Press, 0)]), CLEARED);
  }

  lemma Drops(s: State, email: string, lost: bool)
    requires Alone(s, Holding(email, Receiving), LINKED, Walking(lost))
    ensures Alone(Do(Do(s, LinkDown), Disconnect(0)), Holding(email, Releasing({MoveLeft}, true)),
                  Link(false, false, []), Walking(lost))
  {
  }

  lemma Swallows(s: State, email: string, lost: bool)
    requires Alone(s, Holding(email, Releasing({MoveLeft}, true)), Link(false, false, []), Walking(lost))
    ensures Alone(Do(s, ReleaseOne(0, MoveLeft, Raised(0))), Holding(email, Releasing({}, true)),
                  Link(false, false, []), Walking(lost))
  {
    var none: set<ControlAction> := {MoveLeft} - {MoveLeft};
    assert none == {};
  }

  lemma Leaves(s: State, email: string, lost: bool)
    requires Alone(s, Holding(email, Releasing({}, true)), Link(false, false, []), Walking(lost))
    ensures var t := Do(Do(s, ReleaseDone(0)), LinkUp);
            t.backend.sessions == map[] && t.link == LINKED && t.dll.reg == Walking(lost)
  {
  }

  lemma StrandedSends(email: string, lost: bool)
    ensures Alone(At(Stranded(email, lost), 6), NewSession(email).(pc := Sending(MoveLeft, Press, 0, 0)),
                  LINKED, CLEARED)
  {
    var steps := Stranded(email, lost);
    Connects(email, lost);
    Authorises(At(steps, 4), email);
    AtNext(steps, 4);
    AtNext(steps, 5);
  }

  lemma StrandedHolds(email: string, lost: bool)
    ensures Alone(At(Stranded(email, lost), 8), Holding(email, Receiving), LINKED, Walking(lost))
  {
    var steps := Stranded(email, lost);
    StrandedSends(email, lost);
    Presses(At(steps, 6), email, lost);
    AtNext(steps, 6);
    AtNext(steps, 7);
  }

  lemma StrandedDrops(email: string, lost: bool)
    ensures Alone(At(Stranded(email, lost), 10), Holding(email, Releasing({MoveLeft}, true)), Link(false,
                  false, []), Walking(lost))
  {
    var steps := Stranded(email, lost);
    StrandedHolds(email, lost);
    Drops(At(steps, 8), email, lost);
    AtNext(steps, 8);
    AtNext(steps, 9);
  }

  lemma StrandedSwallows(email: string, lost: bool)
    ensures Alone(At(Stranded(email, lost), 11), Holding(email, Releasing({}, true)), Link(false, false, []),
                  Walking(lost))
  {
    var steps := Stranded(email, lost);
    StrandedDrops(email, lost);
    Swallows(At(steps, 10), email, lost);
    AtNext(steps, 10);
  }

  /** Its automatic release is swallowed and nothing clears the register: with every session gone, the
      link up again and nothing in flight, the flag is set, unless the press was lost as well. */
  lemma SwallowedReleaseSticks(email: string, lost: bool)
    ensures var s := Run(Stranded(email, lost));
            && s.backend.sessions == map[] && s.link == LINKED && s.dll.reg == CLEARED.(moveLeft := !lost)
            && (Stuck(Stranded(email, lost), 13, MoveLeft) <==> !lost)
  {
    var steps := Stranded(email, lost);
    StrandedSwallows(email, lost);
    Leaves(At(steps, 11), email, lost);
    AtNext(steps, 11);
    AtNext(steps, 12);
    AtEnd(steps);
    NoStuckInput(steps, MoveLeft, n => 0);
    assert !HeldBySomeone(Run(steps).backend, MoveLeft);
  }

  // ---------------------------------------------------------------- a link that loses nothing

  /** A step on which the link loses nothing. */
  predicate Faithful(step: Step) {
    && !step.Lose? && !step.LinkDown?
    && (step.Send? || step.ReleaseOne? ==> step.fate.Went?)
  }

  predicate Sound(s: State) { s.link.up && !s.link.torn && s.stuck == {} }

  lemma {:induction false} LinkStaysSound(s: State, steps: seq<Step>)
    requires Sound(s)
    requires forall i | 0 <= i < |steps| :: Faithful(steps[i])
    ensures Sound(RunFrom(s, steps))
  {
    if steps != [] {
      LinkStaysSound(s, steps[..|steps| - 1]);
      assert Faithful(steps[|steps| - 1]);
    }
  }

  /** So while the link stays up, with all sessions gone and the stream drained, all five flags are
      off, and after one more active frame as many ReleaseWeapon inputs of the game have been
      requested as FireWeapon ones. */
  lemma AllReleased(before: seq<Step>, steps: seq<Step>)
    requires Sound(Run(before)) && forall i | 0 <= i < |steps| :: Faithful(steps[i])
    requires var s := RunFrom(Run(before), steps); s.backend.sessions == map[] && s.link.queue == []
    ensures var s := RunFrom(Run(before), steps);
            && (forall a | IsLevel(a) :: !Level(s.dll.reg, a))
            && var fires := Do(s, Frame(true)).dll.fires;
               GameThread.Count(fires, true) == GameThread.Count(fires, false)
  {
    RunInv(INIT, before);
    RunInv(Run(before), steps);
    LinkStaysSound(Run(before), steps);
    Drained(RunFrom(Run(before), steps));
  }

  lemma Drained(s: State)
    requires Inv(s) && Sound(s) && s.backend.sessions == map[] && s.link.queue == []
    ensures forall a | IsLevel(a) :: !Level(s.dll.reg, a)
    ensures var fires := Do(s, Frame(true)).dll.fires;
            GameThread.Count(fires, true) == GameThread.Count(fires, false)
  {
    forall a | IsLevel(a) ensures !Level(s.dll.reg, a) {
      assert FlagOk(s, a);
      assert !HeldBySomeone(s.backend, a);
    }
    assert !Level(s.dll.reg, Fire);
    StepKeepsInv(s, Frame(true));
    GameThread.AlternatingCounts(Do(s, Frame(true)).dll.fires);
  }

  /** What the control path keeps of the game thread's state. */
  function DllOf(g: GameThread.Game): Dll { Dll(g.reg, g.wasFiring, GameThread.FireLog(g.requests)) }

  /** The frames and teardowns here are the game thread's, and its other messages change nothing. */
  lemma FrameIsGameThread(g: GameThread.Game, m: GameThread.Msg, env: GameThread.Env)
    ensures DllOf(GameThread.OnMessage(g, m, env)) ==
            if m.mtype == GameThread.FRAME_FINISH && env.loaded then DoFrame(DllOf(g)) else DllOf(g)
    ensures DllOf(GameThread.TornDown(g)) == Dll(CLEARED, false, [])
  {
    if m.mtype == GameThread.FRAME_FINISH && env.loaded {
      var g' := g.(turnTeam := GameThread.TurnAfter(g.turnTeam, m));
      GameThread.FireFrame(g', GameThread.Event.Message(m, env));
    }
  }

  // ---------------------------------------------------------------- authorised history

  /** Entry `i` is the last of session `sid` about `a`. */
  predicate LastCommand(log: seq<Entry>, sid: nat, a: ControlAction, i: nat) {
    && i < |log| && log[i].sid == sid && log[i].action == a
    && forall j | i < j < |log| :: !(log[j].sid == sid && log[j].action == a)
  }

  lemma {:induction false} PressedLastMeaning(log: seq<Entry>, sid: nat, a: ControlAction)
    ensures PressedLast(log, sid, a) <==>
            exists i | 0 <= i < |log| ::
              LastCommand(log, sid, a, i) && log[i].Forwarded? && log[i].phase.Press?
  {
    if log != [] {
      var before, e := log[..|log| - 1], log[|log| - 1];
      PressedLastMeaning(before, sid, a);
      if e.sid == sid && e.action == a {
        assert LastCommand(log, sid, a, |log| - 1);
      } else {
        assert forall i | 0 <= i < |before| ::
            LastCommand(before, sid, a, i) <==> LastCommand(log, sid, a, i);
      }
    }
  }

  /** Entry `i` is the last level command forwarded for session `sid`. */
  predicate LastLevel(log: seq<Entry>, sid: nat, i: nat) {
    && i < |log| && log[i].sid == sid && log[i].Forwarded? && IsLevel(log[i].action)
    && forall j | i < j < |log| :: !(log[j].sid == sid && log[j].Forwarded? && IsLevel(log[j].action))
  }

  lemma {:induction false} LastTeamMeaning(log: seq<Entry>, sid: nat, team: int)
    ensures LastTeam(log, sid) == Some(team) <==>
            exists i | 0 <= i < |log| :: LastLevel(log, sid, i) && log[i].team == team
  {
    if log != [] {
      var before, e := log[..|log| - 1], log[|log| - 1];
      LastTeamMeaning(before, sid, team);
      if e.sid == sid && e.Forwarded? && IsLevel(e.action) {
        assert LastLevel(log, sid, |log| - 1);
      } else {
        assert forall i | 0 <= i < |before| :: LastLevel(before, sid, i) <==> LastLevel(log, sid, i);
      }
    }
  }

  /** A session's held team is that of the last level command forwarded for it. */
  lemma HeldTeamIsHistory(steps: seq<Step>, sid: nat, team: int)
    requires sid in Run(steps).backend.sessions
    ensures var b := Run(steps).backend;
            b.sessions[sid].heldTeam == Some(team) <==>
            exists i | 0 <= i < |b.log| :: LastLevel(b.log, sid, i) && b.log[i].team == team
  {
    RunInv(INIT, steps);
    LastTeamMeaning(Run(steps).backend.log, sid, team);
  }

  /** Nothing happens to any session between step `from` and step `upTo`. */
  predicate Still(steps: seq<Step>, from: nat, upTo: nat)
    requires from <= upTo <= |steps|
  {
    forall m | from <= m <= upTo ::
      At(steps, m).backend.sessions == At(steps, from).backend.sessions &&
      At(steps, m).backend.log == At(steps, from).backend.log
  }

  /** Step `i` is the client's message for `e`: the session was waiting for it, and the snapshot of
      that moment shows the team's turn. */
  predicate Asked(steps: seq<Step>, e: Entry, i: nat)
    requires i < |steps| && e.Forwarded?
  {
    var b := At(steps, i).backend;
    && steps[i] == Message(e.sid, e.action, e.phase, e.value)
    && e.sid in b.sessions && b.sessions[e.sid].pc.Receiving? && b.sessions[e.sid].email == e.email
    && b.world.turn == Some(Some(e.team))
  }

  /** Step `j` looks the owner up, and the store of that moment maps the team to the user. */
  predicate Granted(steps: seq<Step>, e: Entry, j: nat)
    requires j < |steps| && e.Forwarded?
  {
    steps[j] == Lookup(e.sid) && EmailFor(At(steps, j).backend.world.table, e.team) == Some(e.email)
  }

  predicate LookingFor(steps: seq<Step>, n: nat, e: Entry, i: nat)
    requires i < n <= |steps| && e.Forwarded?
  {
    Asked(steps, e, i) && Still(steps, i + 1, n)
  }

  predicate SendingFor(steps: seq<Step>, n: nat, e: Entry, i: nat, j: nat)
    requires i < j < n <= |steps| && e.Forwarded?
  {
    LookingFor(steps, j, e, i) && Granted(steps, e, j) && Still(steps, j + 1, n)
  }

  /** A session that looks up or sends does so for a message it was just given. */
  ghost predicate Serving(steps: seq<Step>, n: nat, sid: nat)
    requires n <= |steps|
  {
    sid in At(steps, n).backend.sessions ==>
      var ses := At(steps, n).backend.sessions[sid];
      match ses.pc
      case Looking(action, phase, value, team) =>
        exists i | 0 <= i < n :: LookingFor(steps, n, Forwarded(sid, ses.email, team, action, phase, value), i)
      case Sending(action, phase, value, team) =>
        exists i, j | 0 <= i < j < n ::
          SendingFor(steps, n, Forwarded(sid, ses.email, team, action, phase, value), i, j)
      case _ => true
  }

  predicate Quiet(s: State, t: State) {
    t.backend.sessions == s.backend.sessions && t.backend.log == s.backend.log
  }

  /** How a session comes to look up or to send, when it is not already doing so. */
  lemma BusyStep(s: State, step: Step, sid: nat)
    requires OneBusy(s.backend) && sid in Do(s, step).backend.sessions && !Quiet(s, Do(s, step))
    ensures var ses, b := Do(s, step).backend.sessions[sid], s.backend;
            match ses.pc
            case Looking(action, phase, value, team) =>
              && step == Message(sid, action, phase, value) && b.world.turn == Some(Some(team))
              && sid in b.sessions && b.sessions[sid].pc.Receiving? && b.sessions[sid].email == ses.email
            case Sending(action, phase, value, team) =>
              && step == Lookup(sid) && EmailFor(b.world.table, team) == Some(ses.email)
              && sid in b.sessions && b.sessions[sid].pc == Looking(action, phase, value, team)
              && b.sessions[sid].email == ses.email
            case _ => true
  {
  }

  lemma StillLonger(steps: seq<Step>, from: nat, n: nat)
    requires from <= n < |steps| && Still(steps, from, n) && Quiet(At(steps, n), At(steps, n + 1))
    ensures Still(steps, from, n + 1)
  {
  }

  lemma ServingStep(steps: seq<Step>, n: nat, sid: nat)
    requires n < |steps| && Serving(steps, n, sid)
    ensures Serving(steps, n + 1, sid)
  {
    AtInv(steps, n);
    AtNext(steps, n);
    var s, t := At(steps, n), At(steps, n + 1);
    if sid in t.backend.sessions {
      if Quiet(s, t) {
        ServingLonger(steps, n, sid);
      } else {
        BusyStep(s, steps[n], sid);
        ServingNow(steps, n, sid);
      }
    }
  }

  lemma ServingLonger(steps: seq<Step>, n: nat, sid: nat)
    requires n < |steps| && Serving(steps, n, sid) && Quiet(At(steps, n), At(steps, n + 1))
    ensures Serving(steps, n + 1, sid)
  {
    if sid in At(steps, n).backend.sessions {
      var ses := At(steps, n).backend.sessions[sid];
      match ses.pc
      case Looking(action, phase, value, team) =>
        var e := Forwarded(sid, ses.email, team, action, phase, value);
        var i :| 0 <= i < n && LookingFor(steps, n, e, i);
        StillLonger(steps, i + 1, n);
        assert LookingFor(steps, n + 1, e, i);
      case Sending(action, phase, value, team) =>
        var e := Forwarded(sid, ses.email, team, action, phase, value);
        var i, j :| 0 <= i < j < n && SendingFor(steps, n, e, i, j);
        StillLonger(steps, j + 1, n);
        assert SendingFor(steps, n + 1, e, i, j);
      case _ =>
    }
  }

  lemma ServingNow(steps: seq<Step>, n: nat, sid: nat)
    requires n < |steps| && Serving(steps, n, sid) && sid in At(steps, n + 1).backend.sessions
    requires var ses, b := At(steps, n + 1).backend.sessions[sid], At(steps, n).backend;
             match ses.pc
             case Looking(action, phase, value, team) =>
               Asked(steps, Forwarded(sid, ses.email, team, action, phase, value), n)
             case Sending(action, phase, value, team) =>
               && Granted(steps, Forwarded(sid, ses.email, team, action, phase, value), n)
               && sid in b.sessions && b.sessions[sid].pc == Looking(action, phase, value, team)
               && b.sessions[sid].email == ses.email
             case _ => true
    ensures Serving(steps, n + 1, sid)
  {
    var ses := At(steps, n + 1).backend.sessions[sid];
    match ses.pc
    case Looking(action, phase, value, team) =>
      assert LookingFor(steps, n + 1, Forwarded(sid, ses.email, team, action, phase, value), n);
    case Sending(action, phase, value, team) =>
      var e := Forwarded(sid, ses.email, team, action, phase, value);
      var i :| 0 <= i < n && LookingFor(steps, n, e, i);
      assert SendingFor(steps, n + 1, e, i, n);
    case _ =>
  }

  lemma {:induction false} AlwaysServing(steps: seq<Step>, n: nat, sid: nat)
    requires n <= |steps|
    ensures Serving(steps, n, sid)
  {
    if n == 0 {
      assert steps[..0] == [];
    } else {
      AlwaysServing(steps, n - 1, sid);
      ServingStep(steps, n - 1, sid);
    }
  }

  lemma LogStep(s: State, step: Step)
    ensures var log, b := Do(s, step).backend.log, s.backend;
            || log == b.log
            || (|log| == |b.log| + 1 && log[..|b.log|] == b.log &&
                (log[|b.log|].Forwarded? ==>
                   var e := log[|b.log|];
                   && step == Send(e.sid, Went) && s.link.up && e.sid in b.sessions
                   && b.sessions[e.sid].email == e.email
                   && b.sessions[e.sid].pc == Sending(e.action, e.phase, e.value, e.team)))
  {
  }

  /** Entry `k` of the history is made by the step sent at `m`, which forwards the message of step `i`
      after the lookup of step `j`; no session does anything in between. */
  predicate ServedBy(steps: seq<Step>, log: seq<Entry>, k: nat, i: nat, j: nat, m: nat)
    requires i < j < m < |steps| && k < |log| && log[k].Forwarded?
  {
    && SendingFor(steps, m, log[k], i, j)
    && steps[m] == Send(log[k].sid, Went) && At(steps, m).link.up
    && At(steps, m).backend.log == log[..k]
  }

  lemma ForwardedLast(steps: seq<Step>, m: nat, log: seq<Entry>)
    requires m < |steps| && log == At(steps, m + 1).backend.log
    requires var k := |At(steps, m).backend.log|; |log| == k + 1 && log[k].Forwarded?
    ensures var k := |At(steps, m).backend.log|; exists i, j | 0 <= i < j < m :: ServedBy(steps, log, k, i, j, m)
  {
    AtNext(steps, m);
    LogStep(At(steps, m), steps[m]);
    var k := |At(steps, m).backend.log|;
    AlwaysServing(steps, m, log[k].sid);
    var i, j :| 0 <= i < j < m && SendingFor(steps, m, log[k], i, j);
    assert ServedBy(steps, log, k, i, j, m);
  }

  lemma {:induction false} ForwardedServed(steps: seq<Step>, n: nat, k: nat, log: seq<Entry>)
    requires n <= |steps| && log == At(steps, n).backend.log && k < |log| && log[k].Forwarded?
    ensures exists i, j, m | 0 <= i < j < m < n :: ServedBy(steps, log, k, i, j, m)
  {
    if n > 0 {
      AtNext(steps, n - 1);
      LogStep(At(steps, n - 1), steps[n - 1]);
      var before := At(steps, n - 1).backend.log;
      if k < |before| {
        assert before[k] == log[k] && before[..k] == log[..k];
        ForwardedServed(steps, n - 1, k, before);
        var i, j, m :| 0 <= i < j < m < n - 1 && ServedBy(steps, before, k, i, j, m);
        assert ServedBy(steps, log, k, i, j, m);
      } else {
        ForwardedLast(steps, n - 1, log);
      }
    }
  }

  /** Authorised history: every forwarded command is a message just received from its session, for the
      team that the snapshot read on its arrival showed to have the turn, looked up thereafter and
      found to be the user's, and sent before any session did anything else; every automatic release
      is of an action whose last command from that session was such a forwarded press. */
  lemma AuthorisedHistory(steps: seq<Step>, k: nat)
    requires k < |Run(steps).backend.log|
    ensures var log := Run(steps).backend.log;
            match log[k]
            case Forwarded(_, _, _, _, _, _) =>
              exists i, j, m | 0 <= i < j < m < |steps| :: ServedBy(steps, log, k, i, j, m)
            case Auto(sid, team, action, _) =>
              && (exists i | 0 <= i < k :: LastCommand(log[..k], sid, action, i) &&
                                           log[i].Forwarded? && log[i].phase.Press?)
              && (exists i | 0 <= i < k :: LastLevel(log[..k], sid, i) && log[i].team == team)
  {
    RunInv(INIT, steps);
    AtEnd(steps);
    var log := Run(steps).backend.log;
    assert EntryOk(log, k);
    if log[k].Auto? {
      PressedLastMeaning(log[..k], log[k].sid, log[k].action);
      var i :| 0 <= i < k && LastCommand(log[..k], log[k].sid, log[k].action, i) &&
               log[..k][i].Forwarded? && log[..k][i].phase.Press?;
      assert log[..k][i] == log[i];
      LastTeamMeaning(log[..k], log[k].sid, log[k].team);
    } else {
      ForwardedServed(steps, |steps|, k, log);
    }
  }

  /** A session waiting for its client holds exactly the level actions whose last command (swallowed
      automatic releases included) was a forwarded press, and then has a held team. */
  lemma HeldIsHistory(steps: seq<Step>, sid: nat, a: ControlAction)
    requires sid in Run(steps).backend.sessions && Run(steps).backend.sessions[sid].pc.Receiving?
    ensures var b := Run(steps).backend;
            && (a in b.sessions[sid].held <==>
                  IsLevel(a) && exists i | 0 <= i < |b.log| ::
                    LastCommand(b.log, sid, a, i) && b.log[i].Forwarded? && b.log[i].phase.Press?)
            && (b.sessions[sid].held != {} ==> b.sessions[sid].heldTeam.Some?)
  {
    RunInv(INIT, steps);
    var b := Run(steps).backend;
    PressedLastMeaning(b.log, sid, a);
    assert SessionOk(b.sessions[sid]);
    if IsLevel(a) { assert Holds(b.sessions[sid], a) == PressedLast(b.log, sid, a); }
  }
}
