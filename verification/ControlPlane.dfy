/** The whole control path as one transition system: any number of browser sessions, the claim store
    and snapshot they read, the command link with its failures, the game's held-input register and
    its fire edges. Every interleaving is a sequence of steps. */
module ControlPlane {
  import opened Wrappers
  import opened Protocol
  import opened ControlState
  import opened Store
  import opened ControlSession
  import GameThread

  // ---------------------------------------------------------------- state

  /** What sessions read: the snapshot's turn and the claim table. */
  datatype World = World(turn: TurnInfo, table: Table)

  /** The history of commands handed to send_command: those forwarded for a client, and automatic
      releases, `sent` unless swallowed. */
  datatype Entry =
    | Forwarded(sid: nat, email: string, team: int, action: ControlAction, phase: ControlPhase, value: int)
    | Auto(sid: nat, team: int, action: ControlAction, sent: bool)

  datatype Backend = Backend(sessions: map<nat, Session>, nextSid: nat, world: World, log: seq<Entry>)

  /** `queue` holds the commands on their way; `torn` says that a send broke off inside its line and
      nothing has been sent on the connection since (see CommandLink). */
  datatype Link = Link(up: bool, torn: bool, queue: seq<Command>)

  /** The register, and the fire requests of the current game (true: FireWeapon). */
  datatype Dll = Dll(reg: Held, wasFiring: bool, fires: seq<bool>)

  /** `stuck`: actions a release of which was lost and whose flag that left set (see StuckIsHistory). */
  datatype State = State(backend: Backend, link: Link, dll: Dll, stuck: set<ControlAction>)

  const INIT := State(Backend(map[], 0, World(None, map[]), []), Link(false, false, []),
                      Dll(CLEARED, false, []), {})

  /** send_command's fate: the line went out whole, or it raised after `bytes` of the line. */
  datatype Fate = Went | Raised(bytes: nat)

  datatype Step =
    | Publish(turn: TurnInfo)        // the transport's snapshot changes
    | SetTable(table: Table)         // a claim, a removal, a new game
    | Connect(email: string)
    | Message(sid: nat, action: ControlAction, phase: ControlPhase, value: int)
    | Lookup(sid: nat)
    | Send(sid: nat, fate: Fate)
    | ReleaseOne(sid: nat, action: ControlAction, fate: Fate)
    | ReleaseDone(sid: nat)
    | Disconnect(sid: nat)
    | LinkUp
    | LinkDown
    | Lose(from: nat, upTo: nat)     // a dead connection takes undelivered commands with it
    | Deliver(converted: int)        // the game's IPC thread applies the next command
    | Frame(active: bool)            // the game thread's frame
    | Teardown                       // the game ends

  // ---------------------------------------------------------------- steps

  predicate Idle(b: Backend) { forall sid | sid in b.sessions :: b.sessions[sid].pc.Receiving? }

  function WithSession(b: Backend, sid: nat, s: Session): Backend {
    b.(sessions := if s.pc.Gone? then b.sessions - {sid} else b.sessions[sid := s])
  }

  /** What the link makes of one command that send_command was given. */
  function Transmit(l: Link, cmd: Command, fate: Fate): Link {
    if !l.up then l
    else if fate.Raised? then l.(torn := l.torn || fate.bytes > 0)
    else if l.torn then l.(torn := false)
    else l.(queue := l.queue + [cmd])
  }

  predicate Ok(l: Link, fate: Fate) { l.up && fate.Went? }

  /** The command reaches the queue, not a torn line. */
  predicate Enqueued(l: Link, fate: Fate) { Ok(l, fate) && !l.torn }

  // ---------------------------------------------------------------- the level an action will have

  function ReleasesIn(q: seq<Command>): set<ControlAction> {
    set i | 0 <= i < |q| && q[i].phase.Release? :: q[i].action
  }

  /** What a received command does to the register (see Protocol.CommandRoundTrip). What the game
      reads for a value outside 64 bits is not defined: any `converted`. */
  function ApplyCommand(h: Held, c: Command, converted: int): Held {
    Apply(h, c.action, c.phase, if Is64Bit(c.value) then Wrap32(c.value) else converted)
  }

  /** The phase of the last queued edge of `a`. */
  function LastEdge(q: seq<Command>, a: ControlAction): Option<ControlPhase> {
    if q == [] then None
    else if q[|q| - 1].action == a then Some(q[|q| - 1].phase)
    else LastEdge(q[..|q| - 1], a)
  }

  /** The register once the queue has been applied; `converted` gives the undefined values, by the
      number of commands left. */
  function AfterQueue(h: Held, q: seq<Command>, converted: nat -> int): Held
    decreases |q|
  {
    if q == [] then h else AfterQueue(ApplyCommand(h, q[0], converted(|q|)), q[1..], converted)
  }

  /** The flag of `a` once everything in flight has been applied. */
  function Flag(h: Held, q: seq<Command>, a: ControlAction): bool {
    match LastEdge(q, a)
    case None => Level(h, a)
    case Some(phase) => phase.Press?
  }

  // ---------------------------------------------------------------- what a step does

  /** A lost release strands its action if the flag stays set without it. */
  function StuckAfter(s: State, cmd: Command, fate: Fate, auto: bool): set<ControlAction> {
    if Enqueued(s.link, fate) then s.stuck - {cmd.action}
    else if cmd.phase.Release? && (Ok(s.link, fate) || auto) && Flag(s.dll.reg, s.link.queue, cmd.action)
    then s.stuck + {cmd.action}
    else s.stuck
  }

  function DoSend(s: State, sid: nat, fate: Fate): State
    requires sid in s.backend.sessions && s.backend.sessions[sid].pc.Sending?
  {
    var ses := s.backend.sessions[sid];
    var cmd := Command(ses.pc.team, ses.pc.action, ses.pc.phase, ses.pc.value);
    var ok := Ok(s.link, fate);
    var b := WithSession(s.backend, sid, OnSend(ses, ok));
    State(if ok
          then b.(log := b.log + [Forwarded(sid, ses.email, ses.pc.team, cmd.action, cmd.phase, cmd.value)])
          else b,
          Transmit(s.link, cmd, fate), s.dll, StuckAfter(s, cmd, fate, false))
  }

  function DoRelease(s: State, sid: nat, action: ControlAction, fate: Fate): State
    requires sid in s.backend.sessions && s.backend.sessions[sid].pc.Releasing?
  {
    var ses := s.backend.sessions[sid];
    var team := if ses.heldTeam.Some? then ses.heldTeam.value else 0;
    var cmd := Command(team, action, Release, 0);
    var b := WithSession(s.backend, sid, OnReleased(ses, action));
    State(b.(log := b.log + [Auto(sid, team, action, Ok(s.link, fate))]),
          Transmit(s.link, cmd, fate), s.dll, StuckAfter(s, cmd, fate, true))
  }

  function DoFrame(d: Dll): Dll {
    Dll(Consumed(d.reg), d.reg.firing,
        d.fires + if d.reg.firing != d.wasFiring then [d.reg.firing] else [])
  }

  predicate Within(q: seq<Command>, from: nat, upTo: nat) { from <= upTo <= |q| }

  function Without(q: seq<Command>, from: nat, upTo: nat): seq<Command>
    requires Within(q, from, upTo)
  {
    q[..from] + q[upTo..]
  }

  function DoLose(s: State, from: nat, upTo: nat): State
    requires Within(s.link.queue, from, upTo)
  {
    var q := Without(s.link.queue, from, upTo);
    s.(link := s.link.(queue := q),
       stuck := set a | a in s.stuck + ReleasesIn(s.link.queue[from..upTo]) && Flag(s.dll.reg, q, a))
  }

  function Do(s: State, step: Step): State {
    var b := s.backend;
    match step
    case Publish(turn) => s.(backend := b.(world := b.world.(turn := turn)))
    case SetTable(table) => s.(backend := b.(world := b.world.(table := table)))
    case Connect(email) =>
      if !Idle(b) then s
      else s.(backend := b.(sessions := b.sessions[b.nextSid := NewSession(email)], nextSid := b.nextSid + 1))
    case Message(sid, action, phase, value) =>
      if !Idle(b) || sid !in b.sessions then s
      else s.(backend := WithSession(b, sid, OnReceive(b.sessions[sid], action, phase, value, b.world.turn)))
    case Lookup(sid) =>
      if sid !in b.sessions || !b.sessions[sid].pc.Looking? then s
      else s.(backend := WithSession(b, sid,
                OnLookup(b.sessions[sid], EmailFor(b.world.table, b.sessions[sid].pc.team))))
    case Send(sid, fate) =>
      if sid !in b.sessions || !b.sessions[sid].pc.Sending? then s else DoSend(s, sid, fate)
    case ReleaseOne(sid, action, fate) =>
      if sid !in b.sessions || !b.sessions[sid].pc.Releasing? || action !in b.sessions[sid].pc.todo then s
      else DoRelease(s, sid, action, fate)
    case ReleaseDone(sid) =>
      if sid !in b.sessions || !b.sessions[sid].pc.Releasing? || b.sessions[sid].pc.todo != {} then s
      else s.(backend := WithSession(b, sid, OnReleaseDone(b.sessions[sid])))
    case Disconnect(sid) =>
      if !Idle(b) || sid !in b.sessions then s
      else s.(backend := WithSession(b, sid, StartRelease(b.sessions[sid], true)))
    case LinkUp => s.(link := s.link.(up := true, torn := false))
    case LinkDown => s.(link := s.link.(up := false, torn := false))
    case Lose(from, upTo) => if Within(s.link.queue, from, upTo) then DoLose(s, from, upTo) else s
    case Deliver(converted) =>
      if s.link.queue == [] then s
      else
        s.(link := s.link.(queue := s.link.queue[1..]),
           dll := s.dll.(reg := ApplyCommand(s.dll.reg, s.link.queue[0], converted)))
    case Frame(active) => if active then s.(dll := DoFrame(s.dll)) else s
    case Teardown =>
      s.(dll := Dll(CLEARED, false, []), stuck := set a | a in s.stuck && Flag(CLEARED, s.link.queue, a))
  }

  // ---------------------------------------------------------------- laws of that level

  lemma {:induction false} LastEdgeAppend(p: seq<Command>, q: seq<Command>, a: ControlAction)
    ensures LastEdge(p + q, a) == if LastEdge(q, a).Some? then LastEdge(q, a) else LastEdge(p, a)
    decreases |q|
  {
    if q == [] {
      assert p + q == p;
    } else {
      assert (p + q)[..|p + q| - 1] == p + q[..|q| - 1];
      LastEdgeAppend(p, q[..|q| - 1], a);
    }
  }

  lemma CommandLevel(h: Held, c: Command, converted: int, a: ControlAction)
    requires IsLevel(a)
    ensures Level(ApplyCommand(h, c, converted), a) == if c.action == a then c.phase.Press? else Level(h, a)
  {
    ApplyLevel(h, c.action, c.phase, if Is64Bit(c.value) then Wrap32(c.value) else converted, a);
  }

  lemma {:induction false} FlagMeaning(h: Held, q: seq<Command>, converted: nat -> int, a: ControlAction)
    requires IsLevel(a)
    ensures Flag(h, q, a) == Level(AfterQueue(h, q, converted), a)
    decreases |q|
  {
    if q != [] {
      FlagMeaning(ApplyCommand(h, q[0], converted(|q|)), q[1..], converted, a);
      FlagDeliver(h, q, converted(|q|), a);
    }
  }

  lemma LastEdgeFirst(c: Command, q: seq<Command>, a: ControlAction)
    ensures LastEdge([c] + q, a) ==
            if LastEdge(q, a).Some? then LastEdge(q, a)
            else if c.action == a then Some(c.phase) else None
  {
    LastEdgeAppend([c], q, a);
    assert [c][..0] == [];
  }

  lemma FlagDeliver(h: Held, q: seq<Command>, converted: int, a: ControlAction)
    requires IsLevel(a) && q != []
    ensures Flag(ApplyCommand(h, q[0], converted), q[1..], a) == Flag(h, q, a)
  {
    CommandLevel(h, q[0], converted, a);
    LastEdgeFirst(q[0], q[1..], a);
    assert [q[0]] + q[1..] == q;
  }

  lemma FlagSend(h: Held, q: seq<Command>, c: Command, a: ControlAction)
    ensures Flag(h, q + [c], a) == if c.action == a then c.phase.Press? else Flag(h, q, a)
  {
    assert (q + [c])[..|q|] == q;
  }

  lemma {:induction false} LastEdgeIn(q: seq<Command>, a: ControlAction)
    ensures LastEdge(q, a) == Some(Release) ==> a in ReleasesIn(q)
  {
    if q != [] && q[|q| - 1].action != a { LastEdgeIn(q[..|q| - 1], a); }
  }

  lemma FlagLose(h: Held, x: seq<Command>, y: seq<Command>, z: seq<Command>, a: ControlAction)
    ensures Flag(h, x + z, a) ==> Flag(h, x + y + z, a) || a in ReleasesIn(y)
  {
    LastEdgeAppend(x, z, a);
    LastEdgeAppend(x + y, z, a);
    LastEdgeAppend(x, y, a);
    LastEdgeIn(y, a);
  }

  // ---------------------------------------------------------------- invariants

  /** The session will still send a release of `a`. */
  predicate Holds(s: Session, a: ControlAction) {
    a in s.held && (s.pc.Releasing? ==> a in s.pc.todo)
  }

  predicate SessionOk(s: Session) {
    && (forall a | a in s.held :: IsLevel(a))
    && (s.held != {} ==> s.heldTeam.Some?)
    && !s.pc.Gone?
    && (s.pc.Releasing? ==> s.pc.todo <= s.held && s.heldTeam.Some?)
  }

  /** The last command of session `sid` about `a`, swallowed ones included, is a forwarded press. */
  function PressedLast(log: seq<Entry>, sid: nat, a: ControlAction): bool {
    if log == [] then false
    else
      var e := log[|log| - 1];
      if e.sid == sid && e.action == a then e.Forwarded? && e.phase.Press?
      else PressedLast(log[..|log| - 1], sid, a)
  }

  /** The team of the session's last forwarded level command. */
  function LastTeam(log: seq<Entry>, sid: nat): Option<int> {
    if log == [] then None
    else
      var e := log[|log| - 1];
      if e.sid == sid && e.Forwarded? && IsLevel(e.action) then Some(e.team)
      else LastTeam(log[..|log| - 1], sid)
  }

  predicate EntryOk(log: seq<Entry>, k: nat)
    requires k < |log|
  {
    log[k].Auto? ==> PressedLast(log[..k], log[k].sid, log[k].action) &&
                     LastTeam(log[..k], log[k].sid) == Some(log[k].team)
  }

  /** Handlers run on one event loop and yield only between messages. */
  predicate OneBusy(b: Backend) {
    forall x, y | x in b.sessions && y in b.sessions &&
                  !b.sessions[x].pc.Receiving? && !b.sessions[y].pc.Receiving? :: x == y
  }

  predicate BackendOk(b: Backend) {
    && OneBusy(b)
    && (forall sid | sid in b.sessions :: sid < b.nextSid && SessionOk(b.sessions[sid]))
    && (forall i | 0 <= i < |b.log| :: b.log[i].sid < b.nextSid && EntryOk(b.log, i))
    && (forall sid, a | sid in b.sessions && IsLevel(a) ::
          Holds(b.sessions[sid], a) == PressedLast(b.log, sid, a))
    && (forall sid | sid in b.sessions :: b.sessions[sid].heldTeam == LastTeam(b.log, sid))
  }

  ghost predicate HeldBySomeone(b: Backend, a: ControlAction) {
    exists sid :: sid in b.sessions && Holds(b.sessions[sid], a)
  }

  /** A set flag is held by a session or stuck, and a stuck action's flag is set. */
  ghost predicate FlagOk(s: State, a: ControlAction) {
    && (Flag(s.dll.reg, s.link.queue, a) ==> a in s.stuck || HeldBySomeone(s.backend, a))
    && (a in s.stuck ==> Flag(s.dll.reg, s.link.queue, a))
  }

  ghost predicate FlagsOk(s: State) { forall a | IsLevel(a) :: FlagOk(s, a) }

  predicate DllOk(d: Dll) {
    GameThread.Alternating(d.fires) && d.wasFiring == (|d.fires| % 2 == 1)
  }

  ghost predicate Inv(s: State) { BackendOk(s.backend) && FlagsOk(s) && DllOk(s.dll) }

  // ---------------------------------------------------------------- sessions keep the backend's invariant

  /** Replacing one session by one that holds the same, or dropping one that holds nothing. */
  lemma SessionMoves(b: Backend, sid: nat, s: Session)
    requires BackendOk(b) && sid in b.sessions
    requires forall a | IsLevel(a) :: Holds(s, a) == Holds(b.sessions[sid], a)
    requires if s.pc.Gone? then s.held == {} else SessionOk(s) && s.heldTeam == b.sessions[sid].heldTeam
    requires Idle(b) || !b.sessions[sid].pc.Receiving?
    ensures BackendOk(WithSession(b, sid, s))
    ensures forall a | IsLevel(a) && HeldBySomeone(b, a) :: HeldBySomeone(WithSession(b, sid, s), a)
  {
    var b1 := WithSession(b, sid, s);
    forall a | IsLevel(a) && HeldBySomeone(b, a) ensures HeldBySomeone(b1, a) {
      var other :| other in b.sessions && Holds(b.sessions[other], a);
      assert other in b1.sessions && Holds(b1.sessions[other], a);
    }
  }

  lemma LogGrows(b: Backend, e: Entry)
    requires forall i | 0 <= i < |b.log| :: b.log[i].sid < b.nextSid && EntryOk(b.log, i)
    requires e.sid < b.nextSid
    requires e.Auto? ==> PressedLast(b.log, e.sid, e.action) && LastTeam(b.log, e.sid) == Some(e.team)
    ensures var log := b.log + [e]; forall i | 0 <= i < |log| :: log[i].sid < b.nextSid && EntryOk(log, i)
  {
    var log := b.log + [e];
    assert log[..|b.log|] == b.log;
    forall i | 0 <= i < |log| ensures log[i].sid < b.nextSid && EntryOk(log, i) {
      if i < |b.log| {
        assert log[..i] == b.log[..i];
        assert EntryOk(b.log, i);
      }
    }
  }

  lemma LogMore(log: seq<Entry>, e: Entry, sid: nat, a: ControlAction)
    ensures PressedLast(log + [e], sid, a) ==
            if e.sid == sid && e.action == a then e.Forwarded? && e.phase.Press? else PressedLast(log, sid, a)
    ensures LastTeam(log + [e], sid) ==
            if e.sid == sid && e.Forwarded? && IsLevel(e.action) then Some(e.team) else LastTeam(log, sid)
  {
    assert (log + [e])[..|log|] == log;
  }

  /** The same for a session that sent a command: the log grows by its entry. */
  lemma SessionLogs(b: Backend, sid: nat, s: Session, e: Entry)
    requires BackendOk(b) && sid in b.sessions && !b.sessions[sid].pc.Receiving?
    requires e.sid == sid && SessionOk(s)
    requires forall a | IsLevel(a) ::
               Holds(s, a) == if a == e.action then e.Forwarded? && e.phase.Press?
                              else Holds(b.sessions[sid], a)
    requires e.Auto? ==> PressedLast(b.log, sid, e.action) && b.sessions[sid].heldTeam == Some(e.team)
    requires s.heldTeam == if e.Forwarded? && IsLevel(e.action) then Some(e.team) else b.sessions[sid].heldTeam
    ensures BackendOk(WithSession(b, sid, s).(log := b.log + [e]))
    ensures forall a | IsLevel(a) && a != e.action && HeldBySomeone(b, a) ::
              HeldBySomeone(WithSession(b, sid, s).(log := b.log + [e]), a)
  {
    var b1 := WithSession(b, sid, s).(log := b.log + [e]);
    LogGrows(b, e);
    forall x, a | x in b1.sessions && IsLevel(a)
      ensures Holds(b1.sessions[x], a) == PressedLast(b1.log, x, a)
      ensures b1.sessions[x].heldTeam == LastTeam(b1.log, x)
    {
      LogMore(b.log, e, x, a);
    }
    forall x | x in b1.sessions ensures b1.sessions[x].heldTeam == LastTeam(b1.log, x) {
      LogMore(b.log, e, x, Fire);
    }
    forall a | IsLevel(a) && a != e.action && HeldBySomeone(b, a) ensures HeldBySomeone(b1, a) {
      var other :| other in b.sessions && Holds(b.sessions[other], a);
      assert other in b1.sessions && Holds(b1.sessions[other], a);
    }
  }

  lemma StartReleaseHolds(s: Session, ending: bool)
    requires SessionOk(s) && !s.pc.Releasing?
    ensures var s1 := StartRelease(s, ending);
            && (forall a :: Holds(s1, a) == Holds(s, a))
            && (if s1.pc.Gone? then s1.held == {} else SessionOk(s1)) && s1.heldTeam == s.heldTeam
            && (s1.pc.Gone? || s1.pc.Receiving? || s1.pc.Releasing?)
  {
  }

  // ---------------------------------------------------------------- every step keeps the invariant

  lemma QuietStep(s: State, t: State)
    requires Inv(s) && BackendOk(t.backend)
    requires t.link.queue == s.link.queue && t.dll == s.dll && t.stuck == s.stuck
    requires forall a | IsLevel(a) && HeldBySomeone(s.backend, a) :: HeldBySomeone(t.backend, a)
    ensures Inv(t)
  {
    forall a | IsLevel(a) ensures FlagOk(t, a) { assert FlagOk(s, a); }
  }

  lemma SameSessions(b: Backend, c: Backend)
    requires b.sessions == c.sessions
    ensures forall a :: HeldBySomeone(b, a) == HeldBySomeone(c, a)
  {
  }

  lemma WorldStep(s: State, step: Step)
    requires Inv(s) && (step.Publish? || step.SetTable?)
    ensures Inv(Do(s, step))
  {
    SameSessions(s.backend, Do(s, step).backend);
    QuietStep(s, Do(s, step));
  }

  lemma {:induction false} NoEntries(log: seq<Entry>, sid: nat, a: ControlAction)
    requires forall i | 0 <= i < |log| :: log[i].sid != sid
    ensures !PressedLast(log, sid, a) && LastTeam(log, sid) == None
  {
    if log != [] { NoEntries(log[..|log| - 1], sid, a); }
  }

  lemma Joins(b: Backend, email: string)
    requires BackendOk(b) && Idle(b)
    ensures BackendOk(b.(sessions := b.sessions[b.nextSid := NewSession(email)], nextSid := b.nextSid + 1))
  {
    forall a ensures !PressedLast(b.log, b.nextSid, a) { NoEntries(b.log, b.nextSid, a); }
    NoEntries(b.log, b.nextSid, Fire);
  }

  lemma ConnectStep(s: State, email: string)
    requires Inv(s)
    ensures Inv(Do(s, Connect(email)))
  {
    var b, t := s.backend, Do(s, Connect(email));
    if Idle(b) {
      Joins(b, email);
      forall a | IsLevel(a) && HeldBySomeone(b, a) ensures HeldBySomeone(t.backend, a) {
        var sid :| sid in b.sessions && Holds(b.sessions[sid], a);
        assert sid in t.backend.sessions && Holds(t.backend.sessions[sid], a);
      }
      QuietStep(s, t);
    }
  }

  lemma MoveStep(s: State, sid: nat, ses: Session)
    requires Inv(s) && sid in s.backend.sessions
    requires forall a | IsLevel(a) :: Holds(ses, a) == Holds(s.backend.sessions[sid], a)
    requires if ses.pc.Gone? then ses.held == {}
             else SessionOk(ses) && ses.heldTeam == s.backend.sessions[sid].heldTeam
    requires Idle(s.backend) || !s.backend.sessions[sid].pc.Receiving?
    ensures Inv(s.(backend := WithSession(s.backend, sid, ses)))
  {
    SessionMoves(s.backend, sid, ses);
    QuietStep(s, s.(backend := WithSession(s.backend, sid, ses)));
  }

  lemma MessageStep(s: State, step: Step)
    requires Inv(s) && step.Message?
    ensures Inv(Do(s, step))
  {
    var b := s.backend;
    if Idle(b) && step.sid in b.sessions {
      StartReleaseHolds(b.sessions[step.sid], false);
      MoveStep(s, step.sid, OnReceive(b.sessions[step.sid], step.action, step.phase, step.value, b.world.turn));
    }
  }

  lemma LookupStep(s: State, sid: nat)
    requires Inv(s)
    ensures Inv(Do(s, Lookup(sid)))
  {
    var b := s.backend;
    if sid in b.sessions && b.sessions[sid].pc.Looking? {
      StartReleaseHolds(b.sessions[sid], false);
      MoveStep(s, sid, OnLookup(b.sessions[sid], EmailFor(b.world.table, b.sessions[sid].pc.team)));
    }
  }

  lemma EndStep(s: State, step: Step)
    requires Inv(s) && (step.Disconnect? || step.ReleaseDone?)
    ensures Inv(Do(s, step))
  {
    var b := s.backend;
    if step.Disconnect? {
      if Idle(b) && step.sid in b.sessions {
        StartReleaseHolds(b.sessions[step.sid], true);
        MoveStep(s, step.sid, StartRelease(b.sessions[step.sid], true));
      }
    } else if step.sid in b.sessions && b.sessions[step.sid].pc.Releasing? &&
              b.sessions[step.sid].pc.todo == {} {
      MoveStep(s, step.sid, OnReleaseDone(b.sessions[step.sid]));
    }
  }

  /** Handing a command to the link leaves the flags in order if the sessions keep holding the other
      actions, and the command's own when it is a press. */
  lemma HandedFlags(s: State, t: State, cmd: Command, fate: Fate, auto: bool)
    requires FlagsOk(s) && t.dll == s.dll
    requires t.link == Transmit(s.link, cmd, fate) && t.stuck == StuckAfter(s, cmd, fate, auto)
    requires Ok(s.link, fate) || (auto && cmd.phase.Release?)
    requires forall a | IsLevel(a) && a != cmd.action && HeldBySomeone(s.backend, a) :: HeldBySomeone(t.backend, a)
    requires IsLevel(cmd.action) && cmd.phase.Press? ==> HeldBySomeone(t.backend, cmd.action)
    ensures FlagsOk(t)
  {
    forall a | IsLevel(a) ensures FlagOk(t, a) {
      assert FlagOk(s, a);
      FlagSend(s.dll.reg, s.link.queue, cmd, a);
    }
  }

  lemma SendStep(s: State, sid: nat, fate: Fate)
    requires Inv(s)
    ensures Inv(Do(s, Send(sid, fate)))
  {
    var b := s.backend;
    if sid in b.sessions && b.sessions[sid].pc.Sending? {
      if Ok(s.link, fate) {
        SentStep(s, sid, fate);
      } else {
        var ses := OnSend(b.sessions[sid], false);
        MoveStep(s, sid, ses);
        QuietStep(s.(backend := WithSession(b, sid, ses)), DoSend(s, sid, fate));
      }
    }
  }

  lemma SentStep(s: State, sid: nat, fate: Fate)
    requires Inv(s) && sid in s.backend.sessions && s.backend.sessions[sid].pc.Sending? && Ok(s.link, fate)
    ensures Inv(DoSend(s, sid, fate))
  {
    var b, ses, t := s.backend, s.backend.sessions[sid], DoSend(s, sid, fate);
    var cmd := Command(ses.pc.team, ses.pc.action, ses.pc.phase, ses.pc.value);
    SessionLogs(b, sid, OnSend(ses, true), t.backend.log[|b.log|]);
    if IsLevel(cmd.action) && cmd.phase.Press? {
      assert sid in t.backend.sessions && Holds(t.backend.sessions[sid], cmd.action);
    }
    HandedFlags(s, t, cmd, fate, false);
  }

  lemma ReleaseStep(s: State, sid: nat, action: ControlAction, fate: Fate)
    requires Inv(s)
    ensures Inv(Do(s, ReleaseOne(sid, action, fate)))
  {
    var b := s.backend;
    if sid in b.sessions && b.sessions[sid].pc.Releasing? && action in b.sessions[sid].pc.todo {
      var ses := b.sessions[sid];
      assert SessionOk(ses);
      assert Holds(ses, action);
      SessionLogs(b, sid, OnReleased(ses, action), Auto(sid, ses.heldTeam.value, action, Ok(s.link, fate)));
      HandedFlags(s, DoRelease(s, sid, action, fate), Command(ses.heldTeam.value, action, Release, 0), fate, true);
    }
  }

  lemma LoseStep(s: State, from: nat, upTo: nat)
    requires Inv(s) && Within(s.link.queue, from, upTo)
    ensures Inv(DoLose(s, from, upTo))
  {
    var q := s.link.queue;
    var x, y, z := q[..from], q[from..upTo], q[upTo..];
    assert q == x + y + z;
    SameSessions(s.backend, DoLose(s, from, upTo).backend);
    forall a | IsLevel(a) ensures FlagOk(DoLose(s, from, upTo), a) {
      assert FlagOk(s, a);
      FlagLose(s.dll.reg, x, y, z, a);
    }
  }

  lemma LinkStep(s: State, step: Step)
    requires Inv(s) && (step.LinkUp? || step.LinkDown? || step.Lose? || step.Deliver?)
    ensures Inv(Do(s, step))
  {
    var t := Do(s, step);
    SameSessions(s.backend, t.backend);
    if step.Lose? {
      if Within(s.link.queue, step.from, step.upTo) { LoseStep(s, step.from, step.upTo); }
    } else if step.Deliver? && s.link.queue != [] {
      forall a | IsLevel(a) ensures FlagOk(t, a) {
        assert FlagOk(s, a);
        FlagDeliver(s.dll.reg, s.link.queue, step.converted, a);
      }
    } else {
      QuietStep(s, t);
    }
  }

  lemma GameStep(s: State, step: Step)
    requires Inv(s) && (step.Frame? || step.Teardown?)
    ensures Inv(Do(s, step))
  {
    var t := Do(s, step);
    SameSessions(s.backend, t.backend);
    forall a | IsLevel(a) ensures FlagOk(t, a) {
      assert FlagOk(s, a);
    }
  }

  lemma StepKeepsInv(s: State, step: Step)
    requires Inv(s)
    ensures Inv(Do(s, step))
  {
    match step
    case Publish(_) => WorldStep(s, step);
    case SetTable(_) => WorldStep(s, step);
    case Connect(email) => ConnectStep(s, email);
    case Message(_, _, _, _) => MessageStep(s, step);
    case Lookup(sid) => LookupStep(s, sid);
    case Send(sid, fate) => SendStep(s, sid, fate);
    case ReleaseOne(sid, action, fate) => ReleaseStep(s, sid, action, fate);
    case ReleaseDone(_) => EndStep(s, step);
    case Disconnect(_) => EndStep(s, step);
    case LinkUp => LinkStep(s, step);
    case LinkDown => LinkStep(s, step);
    case Lose(_, _) => LinkStep(s, step);
    case Deliver(_) => LinkStep(s, step);
    case Frame(_) => GameStep(s, step);
    case Teardown => GameStep(s, step);
  }

  function RunFrom(s: State, steps: seq<Step>): State {
    if steps == [] then s else Do(RunFrom(s, steps[..|steps| - 1]), steps[|steps| - 1])
  }

  function Run(steps: seq<Step>): State { RunFrom(INIT, steps) }

  lemma {:induction false} RunInv(s: State, steps: seq<Step>)
    requires Inv(s)
    ensures Inv(RunFrom(s, steps))
  {
    if steps != [] {
      RunInv(s, steps[..|steps| - 1]);
      StepKeepsInv(RunFrom(s, steps[..|steps| - 1]), steps[|steps| - 1]);
    }
  }
}
