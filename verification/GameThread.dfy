/** The game thread over runs: the turn it tracks, and the input each frame requests from the edges
    the IPC thread applied. ControlHooks.dfy has the code that does this. */
module GameThread {
  import opened Wrappers
  import opened Protocol
  import opened ControlState

  // Task-message numbers of WA 3.8.1.
  const FRAME_FINISH: nat := 2
  const MOVE_LEFT: nat := 30
  const MOVE_RIGHT: nat := 31
  const MOVE_UP: nat := 32
  const MOVE_DOWN: nat := 33
  const JUMP: nat := 36
  const FIRE_WEAPON: nat := 38
  const RELEASE_WEAPON: nat := 39
  const SELECT_WEAPON: nat := 51
  const START_TURN: nat := 52
  const FINISH_TURN: nat := 55
  const TURN_STARTED: nat := 56
  const TURN_FINISHED: nat := 57

  predicate IsInput(mtype: nat) {
    || mtype == MOVE_LEFT || mtype == MOVE_RIGHT || mtype == MOVE_UP || mtype == MOVE_DOWN
    || mtype == JUMP || mtype == FIRE_WEAPON || mtype == RELEASE_WEAPON || mtype == SELECT_WEAPON
  }

  predicate IsStart(mtype: nat) { mtype == START_TURN || mtype == TURN_STARTED }

  predicate IsFinish(mtype: nat) { mtype == FINISH_TURN || mtype == TURN_FINISHED }

  /** A task message; `data` is the first 32-bit word of the payload, None for a null payload. */
  datatype Msg = Msg(mtype: nat, data: Option<int>)

  /** A call of sendInput (payload -1 means "the active team"), or of applyWeapon. */
  datatype Request = Send(mtype: nat, payload: int) | ChooseWeapon(id: int)

  /** What the game looks like to one frame: is a game loaded, is there a turn-game task, and would
      a weapon choice find a weapon table and a worm. */
  datatype Env = Env(loaded: bool, turnGame: bool, weaponReady: bool)

  // ---------------------------------------------------------------- one frame

  function When(b: bool, r: Request): seq<Request> { if b then [r] else [] }

  function WeaponRequests(id: int, env: Env): seq<Request> {
    [ChooseWeapon(id)] + When(1 <= id <= 70 && env.weaponReady, Send(SELECT_WEAPON, id))
  }

  function FireEdge(firing: bool, wasFiring: bool): seq<Request> {
    When(firing && !wasFiring, Send(FIRE_WEAPON, -1)) +
    When(!firing && wasFiring, Send(RELEASE_WEAPON, -1))
  }

  function OneShots(h: Held, env: Env): seq<Request> {
    When(h.jump, Send(JUMP, -1)) +
    if h.selectWeapon >= 0 then WeaponRequests(h.selectWeapon, env) else []
  }

  function Directions(h: Held): seq<Request> {
    When(h.moveLeft, Send(MOVE_LEFT, -1)) +
    When(h.moveRight, Send(MOVE_RIGHT, -1)) +
    When(h.aimUp, Send(MOVE_UP, -1)) +
    When(h.aimDown, Send(MOVE_DOWN, -1))
  }

  function FrameRequests(h: Held, wasFiring: bool, env: Env): seq<Request> {
    OneShots(h, env) + Directions(h) + FireEdge(h.firing, wasFiring)
  }

  function TurnAfter(team: int, m: Msg): int {
    if IsStart(m.mtype) then (if m.data.Some? then Wrap32(m.data.value) else team)
    else if IsFinish(m.mtype) then -1
    else team
  }

  /** The thread's state. `requests` are those of the current game, `frames` counts onFrame runs. */
  datatype Game = Game(turnTeam: int, wasFiring: bool, reg: Held, requests: seq<Request>, frames: nat)

  const START := Game(-1, false, CLEARED, [], 0)

  function Frame(g: Game, env: Env): Game {
    var g1 := g.(frames := g.frames + 1);
    if !env.loaded then g1
    else g1.(reg := Consumed(g.reg), wasFiring := g.reg.firing,
             requests := g.requests + FrameRequests(g.reg, g.wasFiring, env))
  }

  function OnMessage(g: Game, m: Msg, env: Env): Game {
    var g1 := g.(turnTeam := TurnAfter(g.turnTeam, m));
    if m.mtype == FRAME_FINISH then Frame(g1, env) else g1
  }

  function TornDown(g: Game): Game {
    g.(turnTeam := -1, reg := CLEARED, wasFiring := false, requests := [])
  }

  // ---------------------------------------------------------------- runs

  /** An interleaving of the IPC thread's edges with what happens on the game thread. */
  datatype Event =
    | Ipc(action: ControlAction, phase: ControlPhase, value: int)
    | Message(m: Msg, env: Env)
    | Teardown

  function Step(g: Game, e: Event): Game {
    match e
    case Ipc(action, phase, value) => g.(reg := Apply(g.reg, action, phase, value))
    case Message(m, env) => OnMessage(g, m, env)
    case Teardown => TornDown(g)
  }

  function Run(events: seq<Event>): Game {
    if events == [] then START else Step(Run(events[..|events| - 1]), events[|events| - 1])
  }

  predicate IsActiveFrame(e: Event) { e.Message? && e.m.mtype == 2 && e.env.loaded }

  // ---- turn tracking

  // The laws below give the game's message numbers as they are.

  predicate StartsTurn(e: Event) { e.Message? && (e.m.mtype == 52 || e.m.mtype == 56) && e.m.data.Some? }

  predicate EndsTurn(e: Event) { e.Teardown? || (e.Message? && (e.m.mtype == 55 || e.m.mtype == 57)) }

  /** Event `i` is the latest start with data, and no finish or teardown followed it. */
  predicate TurnFrom(events: seq<Event>, i: nat)
    requires i < |events|
  {
    StartsTurn(events[i]) &&
    forall j | i < j < |events| :: !StartsTurn(events[j]) && !EndsTurn(events[j])
  }

  lemma {:induction false} TurnTracking(events: seq<Event>)
    ensures forall i | 0 <= i < |events| :: TurnFrom(events, i) ==>
              Run(events).turnTeam == Wrap32(events[i].m.data.value)
    ensures (forall i | 0 <= i < |events| :: !TurnFrom(events, i)) ==> Run(events).turnTeam == -1
  {
    if events != [] {
      var before, last := events[..|events| - 1], events[|events| - 1];
      TurnTracking(before);
      if StartsTurn(last) {
        assert TurnFrom(events, |events| - 1);
      } else if !EndsTurn(last) {
        assert forall i | 0 <= i < |before| :: TurnFrom(before, i) <==> TurnFrom(events, i);
      }
    }
  }

  // ---- the frame's requests follow the edge history

  /** The register operation an event performs. */
  function OpsOf(e: Event): seq<Op> {
    if e.Ipc? then [Edge(e.action, e.phase, e.value)]
    else if e.Teardown? then [Clear]
    else if IsActiveFrame(e) then [Read]
    else []
  }

  function Ops(events: seq<Event>): seq<Op> {
    if events == [] then []
    else Ops(events[..|events| - 1]) + OpsOf(events[|events| - 1])
  }

  lemma RegisterStep(g: Game, e: Event)
    ensures Step(g, e).reg == if OpsOf(e) == [] then g.reg else Perform(g.reg, OpsOf(e)[0])
  {
  }

  lemma {:induction false} RegisterRuns(events: seq<Event>)
    ensures Run(events).reg == After(Ops(events))
  {
    if events != [] {
      var before, e := events[..|events| - 1], events[|events| - 1];
      RegisterRuns(before);
      RegisterStep(Run(before), e);
      AfterMore(Ops(before), OpsOf(e));
    }
  }

  /** What an active frame after `events` requests. */
  function NextFrame(events: seq<Event>, env: Env): seq<Request> {
    FrameRequests(Run(events).reg, Run(events).wasFiring, env)
  }

  predicate IsFire(r: Request) { r == Send(FIRE_WEAPON, -1) || r == Send(RELEASE_WEAPON, -1) }

  lemma DirectionsHave(h: Held, r: Request)
    ensures r in Directions(h) <==>
            || (r == Send(MOVE_LEFT, -1) && h.moveLeft) || (r == Send(MOVE_RIGHT, -1) && h.moveRight)
            || (r == Send(MOVE_UP, -1) && h.aimUp) || (r == Send(MOVE_DOWN, -1) && h.aimDown)
  {
    var a, b := When(h.moveLeft, Send(MOVE_LEFT, -1)), When(h.moveRight, Send(MOVE_RIGHT, -1));
    var c, d := When(h.aimUp, Send(MOVE_UP, -1)), When(h.aimDown, Send(MOVE_DOWN, -1));
    assert r in a + b + c + d <==> r in a || r in b || r in c || r in d;
  }

  lemma OneShotsHave(h: Held, env: Env, r: Request)
    ensures r in OneShots(h, env) <==>
            || (r == Send(JUMP, -1) && h.jump)
            || (h.selectWeapon >= 0 && r in WeaponRequests(h.selectWeapon, env))
  {
  }

  lemma InFrame(h: Held, was: bool, env: Env, r: Request)
    ensures r in FrameRequests(h, was, env) <==>
            r in OneShots(h, env) || r in Directions(h) || r in FireEdge(h.firing, was)
    ensures r in FireEdge(h.firing, was) ==> IsFire(r)
  {
    var a, b, c := OneShots(h, env), Directions(h), FireEdge(h.firing, was);
    assert r in a + b + c <==> r in a || r in b || r in c;
  }

  /** The requests a frame owes: jump (36), the weapon choice and its SelectWeapon (51), left, right,
      up and down (30 to 33), and FireWeapon (38) or ReleaseWeapon (39) on a change of the level. */
  predicate Due(h: Held, was: bool, env: Env, r: Request) {
    match r
    case ChooseWeapon(id) => id == h.selectWeapon >= 0
    case Send(mtype, payload) =>
      if mtype == 51 then payload == h.selectWeapon && 1 <= payload <= 70 && env.weaponReady
      else
        payload == -1 &&
        if mtype == 36 then h.jump
        else if mtype == 30 then h.moveLeft
        else if mtype == 31 then h.moveRight
        else if mtype == 32 then h.aimUp
        else if mtype == 33 then h.aimDown
        else if mtype == 38 then h.firing && !was
        else mtype == 39 && !h.firing && was
  }

  /** ... and their order. */
  function Rank(r: Request): nat {
    match r
    case ChooseWeapon(_) => 1
    case Send(mtype, _) =>
      if mtype == 36 then 0
      else if mtype == 51 then 2
      else if mtype == 30 then 3
      else if mtype == 31 then 4
      else if mtype == 32 then 5
      else if mtype == 33 then 6
      else 7
  }

  /** Strictly rising ranks between `lo` and `hi`. */
  predicate Ranked(s: seq<Request>, lo: nat, hi: nat) {
    && (forall i | 0 <= i < |s| :: lo <= Rank(s[i]) < hi)
    && (forall i, j | 0 <= i < j < |s| :: Rank(s[i]) < Rank(s[j]))
  }

  lemma RankedJoin(a: seq<Request>, b: seq<Request>, lo: nat, mid: nat, hi: nat)
    requires lo <= mid <= hi && Ranked(a, lo, mid) && Ranked(b, mid, hi)
    ensures Ranked(a + b, lo, hi)
  {
  }

  lemma RankedWhen(b: bool, r: Request)
    ensures Ranked(When(b, r), Rank(r), Rank(r) + 1)
  {
  }

  lemma RankedFour(a: seq<Request>, b: seq<Request>, c: seq<Request>, d: seq<Request>, lo: nat)
    requires Ranked(a, lo, lo + 1) && Ranked(b, lo + 1, lo + 2)
    requires Ranked(c, lo + 2, lo + 3) && Ranked(d, lo + 3, lo + 4)
    ensures Ranked(a + b + c + d, lo, lo + 4)
  {
    RankedJoin(a, b, lo, lo + 1, lo + 2);
    RankedJoin(a + b, c, lo, lo + 2, lo + 3);
    RankedJoin(a + b + c, d, lo, lo + 3, lo + 4);
  }

  lemma RankedDirections(h: Held)
    ensures Ranked(Directions(h), 3, 7)
  {
    RankedWhen(h.moveLeft, Send(MOVE_LEFT, -1));
    RankedWhen(h.moveRight, Send(MOVE_RIGHT, -1));
    RankedWhen(h.aimUp, Send(MOVE_UP, -1));
    RankedWhen(h.aimDown, Send(MOVE_DOWN, -1));
    RankedFour(When(h.moveLeft, Send(MOVE_LEFT, -1)), When(h.moveRight, Send(MOVE_RIGHT, -1)),
               When(h.aimUp, Send(MOVE_UP, -1)), When(h.aimDown, Send(MOVE_DOWN, -1)), 3);
  }

  lemma RankedOneShots(h: Held, env: Env)
    ensures Ranked(OneShots(h, env), 0, 3)
  {
    RankedWhen(h.jump, Send(JUMP, -1));
    RankedWeapon(h.selectWeapon, env);
    RankedJoin(When(h.jump, Send(JUMP, -1)),
               if h.selectWeapon >= 0 then WeaponRequests(h.selectWeapon, env) else [], 0, 1, 3);
  }

  lemma RankedWeapon(id: int, env: Env)
    ensures Ranked(WeaponRequests(id, env), 1, 3)
  {
  }

  lemma RankedFire(firing: bool, was: bool)
    ensures Ranked(FireEdge(firing, was), 7, 8)
  {
  }

  lemma RankedFrame(h: Held, was: bool, env: Env)
    ensures Ranked(FrameRequests(h, was, env), 0, 8)
  {
    RankedOneShots(h, env);
    RankedDirections(h);
    RankedFire(h.firing, was);
    RankedJoin(OneShots(h, env), Directions(h), 0, 3, 7);
    RankedJoin(OneShots(h, env) + Directions(h), FireEdge(h.firing, was), 0, 7, 8);
  }

  /** A frame's requests are exactly the due ones, each once, in order. */
  lemma FrameExactly(h: Held, was: bool, env: Env, r: Request)
    ensures multiset(FrameRequests(h, was, env))[r] == if Due(h, was, env, r) then 1 else 0
    ensures Ranked(FrameRequests(h, was, env), 0, 8)
  {
    RankedFrame(h, was, env);
    RankedOnce(FrameRequests(h, was, env), 0, 8, r);
    DueInFrame(h, was, env, r);
  }

  lemma OneShotsDue(h: Held, was: bool, env: Env, r: Request)
    ensures r in OneShots(h, env) <==> Rank(r) < 3 && Due(h, was, env, r)
  {
    OneShotsHave(h, env, r);
  }

  lemma DirectionsDue(h: Held, was: bool, env: Env, r: Request)
    ensures r in Directions(h) <==> 3 <= Rank(r) < 7 && Due(h, was, env, r)
  {
    DirectionsHave(h, r);
  }

  lemma FireDue(h: Held, was: bool, env: Env, r: Request)
    ensures r in FireEdge(h.firing, was) <==> Rank(r) == 7 && Due(h, was, env, r)
  {
  }

  lemma DueInFrame(h: Held, was: bool, env: Env, r: Request)
    ensures r in FrameRequests(h, was, env) <==> Due(h, was, env, r)
  {
    InFrame(h, was, env, r);
    OneShotsDue(h, was, env, r);
    DirectionsDue(h, was, env, r);
    FireDue(h, was, env, r);
  }

  lemma {:induction false} RankedOnce(s: seq<Request>, lo: nat, hi: nat, r: Request)
    requires Ranked(s, lo, hi)
    ensures multiset(s)[r] == if r in s then 1 else 0
  {
    if s != [] {
      var before, last := s[..|s| - 1], s[|s| - 1];
      RankedOnce(before, lo, hi, r);
      assert s == before + [last];
      assert last !in before;
    }
  }

  /** At every active frame a direction is requested if and only if its latest edge since the last clear
      is a press, a jump if and only if one is pending, and a weapon is chosen if and only if it is that
      of the last select press since the last read or clear; SelectWeapon goes with the choice when its
      id, table and worm allow. */
  lemma FrameFollowsHistory(events: seq<Event>, env: Env, id: int)
    ensures Send(30, -1) in NextFrame(events, env) <==> Pressed(Ops(events), MoveLeft)
    ensures Send(31, -1) in NextFrame(events, env) <==> Pressed(Ops(events), MoveRight)
    ensures Send(32, -1) in NextFrame(events, env) <==> Pressed(Ops(events), AimUp)
    ensures Send(33, -1) in NextFrame(events, env) <==> Pressed(Ops(events), AimDown)
    ensures Send(36, -1) in NextFrame(events, env) <==>
              exists i | 0 <= i < |Ops(events)| :: PendingAt(Ops(events), Jump, i)
    ensures ChooseWeapon(id) in NextFrame(events, env) <==>
              id >= 0 && exists i | 0 <= i < |Ops(events)| ::
                           LatestAt(Ops(events), SelectWeapon, i) && Ops(events)[i].value == id
    ensures Send(51, id) in NextFrame(events, env) <==>
              ChooseWeapon(id) in NextFrame(events, env) && 1 <= id <= 70 && env.weaponReady
  {
    var ops, h, was := Ops(events), Run(events).reg, Run(events).wasFiring;
    RegisterRuns(events);
    DirectionFollows(ops, h, was, env, MoveLeft, Send(30, -1));
    DirectionFollows(ops, h, was, env, MoveRight, Send(31, -1));
    DirectionFollows(ops, h, was, env, AimUp, Send(32, -1));
    DirectionFollows(ops, h, was, env, AimDown, Send(33, -1));
    JumpFollows(ops, h, was, env);
    WeaponFollows(ops, h, was, env, id);
  }

  lemma JumpFollows(ops: seq<Op>, h: Held, was: bool, env: Env)
    requires h == After(ops)
    ensures Send(36, -1) in FrameRequests(h, was, env) <==>
              exists i | 0 <= i < |ops| :: PendingAt(ops, Jump, i)
  {
    JumpIsHistory(ops);
    DueInFrame(h, was, env, Send(36, -1));
  }

  lemma WeaponFollows(ops: seq<Op>, h: Held, was: bool, env: Env, id: int)
    requires h == After(ops)
    ensures ChooseWeapon(id) in FrameRequests(h, was, env) <==>
              id >= 0 && exists i | 0 <= i < |ops| :: LatestAt(ops, SelectWeapon, i) && ops[i].value == id
    ensures Send(51, id) in FrameRequests(h, was, env) <==>
              ChooseWeapon(id) in FrameRequests(h, was, env) && 1 <= id <= 70 && env.weaponReady
  {
    DueInFrame(h, was, env, ChooseWeapon(id));
    DueInFrame(h, was, env, Send(51, id));
    WeaponIsHistory(ops);
    if i :| 0 <= i < |ops| && LatestAt(ops, SelectWeapon, i) {
      forall j | 0 <= j < |ops| && LatestAt(ops, SelectWeapon, j) ensures j == i {
        LatestUnique(ops, i, j);
      }
    }
  }

  lemma DirectionFollows(ops: seq<Op>, h: Held, was: bool, env: Env, a: ControlAction, r: Request)
    requires h == After(ops)
    requires r == match a
                  case MoveLeft => Send(30, -1)
                  case MoveRight => Send(31, -1)
                  case AimUp => Send(32, -1)
                  case _ => Send(33, -1)
    requires IsLevel(a) && !a.Fire?
    ensures r in FrameRequests(h, was, env) <==> Pressed(ops, a)
  {
    LevelIsHistory(ops, a);
    DueInFrame(h, was, env, r);
  }

  /** The requests an event adds. */
  function Added(g: Game, e: Event): seq<Request> {
    if |g.requests| <= |Step(g, e).requests| && !e.Teardown? then Step(g, e).requests[|g.requests|..] else []
  }

  /** All requests of a run, those of finished games included. */
  function Requested(events: seq<Event>): seq<Request> {
    if events == [] then []
    else
      var before := events[..|events| - 1];
      Requested(before) + Added(Run(before), events[|events| - 1])
  }

  lemma AddedByFrames(g: Game, e: Event)
    ensures Added(g, e) == if IsActiveFrame(e) then FrameRequests(g.reg, g.wasFiring, e.env) else []
  {
  }

  function JumpPresses(events: seq<Event>): nat {
    if events == [] then 0
    else
      var e := events[|events| - 1];
      JumpPresses(events[..|events| - 1]) + if e.Ipc? && e.action.Jump? && e.phase.Press? then 1 else 0
  }

  function One(b: bool): nat { if b then 1 else 0 }

  lemma JumpsAdded(g: Game, e: Event)
    ensures multiset(Added(g, e))[Send(36, -1)] == One(IsActiveFrame(e) && g.reg.jump)
  {
    AddedByFrames(g, e);
    if IsActiveFrame(e) { FrameExactly(g.reg, g.wasFiring, e.env, Send(36, -1)); }
  }

  lemma JumpPending(g: Game, e: Event)
    ensures Step(g, e).reg.jump ==> (g.reg.jump && !IsActiveFrame(e)) ||
                                    (e.Ipc? && e.action.Jump? && e.phase.Press?)
  {
  }

  lemma JumpStep(g: Game, e: Event)
    ensures multiset(Added(g, e))[Send(36, -1)] + One(Step(g, e).reg.jump) <=
            One(g.reg.jump) + One(e.Ipc? && e.action.Jump? && e.phase.Press?)
  {
    JumpsAdded(g, e);
    JumpPending(g, e);
  }

  /** Over a whole run Jump requests, with one for a pending jump, never outnumber jump presses. */
  lemma {:induction false} JumpsBounded(events: seq<Event>)
    ensures multiset(Requested(events))[Send(36, -1)] + One(Run(events).reg.jump) <=
            JumpPresses(events)
  {
    if events != [] {
      var before := events[..|events| - 1];
      JumpsBounded(before);
      JumpStep(Run(before), events[|events| - 1]);
    }
  }

  // ---- fire edges

  /** The fire requests among `requests`: true for FireWeapon, false for ReleaseWeapon. */
  function FireLog(requests: seq<Request>): seq<bool> {
    if requests == [] then []
    else
      var r := requests[|requests| - 1];
      FireLog(requests[..|requests| - 1]) +
      if r == Send(38, -1) then [true] else if r == Send(39, -1) then [false] else []
  }

  /** The changes of a level that starts low. */
  function EdgesOf(levels: seq<bool>): seq<bool> {
    if levels == [] then []
    else
      var n := |levels|;
      var previous := n > 1 && levels[n - 2];
      EdgesOf(levels[..n - 1]) + if levels[n - 1] != previous then [levels[n - 1]] else []
  }

  /** The levels sampled so far, after one more event when the level is `level`. */
  function Sampled(levels: seq<bool>, e: Event, level: bool): seq<bool> {
    if e.Teardown? then [] else if IsActiveFrame(e) then levels + [level] else levels
  }

  /** The firing level at each active frame of the current game. */
  function FiringLevels(events: seq<Event>): seq<bool> {
    if events == [] then []
    else
      var before := events[..|events| - 1];
      Sampled(FiringLevels(before), events[|events| - 1], Pressed(Ops(before), Fire))
  }

  predicate Alternating(log: seq<bool>) { forall i | 0 <= i < |log| :: log[i] == (i % 2 == 0) }

  function Count(log: seq<bool>, b: bool): nat {
    if log == [] then 0
    else Count(log[..|log| - 1], b) + if log[|log| - 1] == b then 1 else 0
  }

  lemma {:induction false} FireLogAppend(a: seq<Request>, b: seq<Request>)
    ensures FireLog(a + b) == FireLog(a) + FireLog(b)
  {
    if b == [] {
      assert a + b == a;
    } else {
      assert (a + b)[..|a + b| - 1] == a + b[..|b| - 1];
      FireLogAppend(a, b[..|b| - 1]);
    }
  }

  lemma FireLogOfFrame(h: Held, was: bool, env: Env)
    ensures FireLog(FrameRequests(h, was, env)) == if h.firing != was then [h.firing] else []
  {
    var a, b, c := OneShots(h, env), Directions(h), FireEdge(h.firing, was);
    QuietRequests(h, env);
    FireLogAppend(a, b);
    FireLogAppend(a + b, c);
    FireLogOfEdge(h.firing, was);
  }

  lemma FireLogOfEdge(firing: bool, was: bool)
    ensures FireLog(FireEdge(firing, was)) == if firing != was then [firing] else []
  {
    var log := FireEdge(firing, was);
    if log != [] { assert log[..0] == []; }
  }

  lemma {:induction false} NoFire(requests: seq<Request>)
    requires forall r | r in requests :: !IsFire(r)
    ensures FireLog(requests) == []
  {
    if requests != [] {
      assert requests[|requests| - 1] in requests;
      NoFire(requests[..|requests| - 1]);
    }
  }

  lemma QuietRequests(h: Held, env: Env)
    ensures FireLog(OneShots(h, env)) == [] && FireLog(Directions(h)) == []
  {
    forall r | r in OneShots(h, env) ensures !IsFire(r) { OneShotsHave(h, env, r); }
    NoFire(OneShots(h, env));
    forall r | r in Directions(h) ensures !IsFire(r) { DirectionsHave(h, r); }
    NoFire(Directions(h));
  }

  predicate LastLevel(levels: seq<bool>) { levels != [] && levels[|levels| - 1] }

  /** The fire requests are the level's edges: Fire, Release, Fire, ..., ending in an unanswered Fire
      exactly while `wasFiring`. */
  predicate FireConsistent(log: seq<bool>, levels: seq<bool>, wasFiring: bool) {
    && log == EdgesOf(levels)
    && Alternating(log)
    && wasFiring == LastLevel(levels)
    && wasFiring == (|log| % 2 == 1)
  }

  lemma FireConsistentStep(log: seq<bool>, levels: seq<bool>, was: bool, level: bool)
    requires FireConsistent(log, levels, was)
    ensures FireConsistent(log + if level != was then [level] else [], levels + [level], level)
  {
    assert (levels + [level])[..|levels|] == levels;
    assert log + [] == log;
  }

  lemma FireFrame(g: Game, e: Event)
    requires IsActiveFrame(e)
    ensures FireLog(Step(g, e).requests) ==
            FireLog(g.requests) + if g.reg.firing != g.wasFiring then [g.reg.firing] else []
    ensures Step(g, e).wasFiring == g.reg.firing
  {
    FireLogAppend(g.requests, FrameRequests(g.reg, g.wasFiring, e.env));
    FireLogOfFrame(g.reg, g.wasFiring, e.env);
  }

  lemma FireStep(g: Game, e: Event, levels: seq<bool>)
    requires FireConsistent(FireLog(g.requests), levels, g.wasFiring)
    ensures var g' := Step(g, e);
            FireConsistent(FireLog(g'.requests), Sampled(levels, e, g.reg.firing), g'.wasFiring)
  {
    if IsActiveFrame(e) {
      FireFrame(g, e);
      FireConsistentStep(FireLog(g.requests), levels, g.wasFiring, g.reg.firing);
    } else if !e.Teardown? {
      assert Step(g, e).requests == g.requests && Step(g, e).wasFiring == g.wasFiring;
    }
  }

  lemma FiringIsPressed(events: seq<Event>)
    ensures Run(events).reg.firing == Pressed(Ops(events), Fire)
  {
    RegisterRuns(events);
    LevelIsHistory(Ops(events), Fire);
  }

  /** Under any interleaving of edges, frames and teardowns, the fire requests of one game are the
      edges of the held fire level sampled at that game's active frames. */
  lemma {:induction false} FireEdges(events: seq<Event>)
    ensures FireConsistent(FireLog(Run(events).requests), FiringLevels(events), Run(events).wasFiring)
  {
    if events != [] {
      var before := events[..|events| - 1];
      FireEdges(before);
      FiringIsPressed(before);
      FireStep(Run(before), events[|events| - 1], FiringLevels(before));
    }
  }

  /** Counting an alternating log. */
  lemma {:induction false} AlternatingCounts(log: seq<bool>)
    requires Alternating(log)
    ensures Count(log, true) - Count(log, false) == |log| % 2
  {
    if log != [] { AlternatingCounts(log[..|log| - 1]); }
  }

  /** One FireWeapon more than ReleaseWeapon exactly while `wasFiring`, else as many of each. */
  lemma FireCounts(events: seq<Event>)
    ensures var log := FireLog(Run(events).requests);
            Count(log, true) - Count(log, false) == if Run(events).wasFiring then 1 else 0
  {
    FireEdges(events);
    AlternatingCounts(FireLog(Run(events).requests));
  }

  function FrameMessages(events: seq<Event>): nat {
    if events == [] then 0
    else
      var e := events[|events| - 1];
      FrameMessages(events[..|events| - 1]) +
      if e.Message? && e.m.mtype == 2 then 1 else 0
  }

  /** onFrame runs once for each FrameFinish the game sends: injected input starts none. */
  lemma {:induction false} FramesAreTheGames(events: seq<Event>)
    ensures Run(events).frames == FrameMessages(events)
  {
    if events != [] { FramesAreTheGames(events[..|events| - 1]); }
  }

  lemma {:induction false} RunAppend(a: seq<Event>, b: seq<Event>, a': seq<Event>)
    requires Run(a) == Run(a')
    ensures Run(a + b) == Run(a' + b)
  {
    if b == [] {
      assert a + b == a && a' + b == a';
    } else {
      var b' := b[..|b| - 1];
      RunAppend(a, b', a');
      assert (a + b)[..|a + b| - 1] == a + b' && (a' + b)[..|a' + b| - 1] == a' + b';
    }
  }

  /** Injected input messages, wherever they come in a run, leave no trace in it: not in the turn, the
      register, the requests or the number of frames. */
  lemma InputIsInert(a: seq<Event>, input: seq<Event>, b: seq<Event>)
    requires forall i | 0 <= i < |input| :: input[i].Message? && IsInput(input[i].m.mtype)
    ensures Run(a + input + b) == Run(a + b)
  {
    InputTail(a, input);
    RunAppend(a + input, b, a);
  }

  lemma {:induction false} InputTail(a: seq<Event>, input: seq<Event>)
    requires forall i | 0 <= i < |input| :: input[i].Message? && IsInput(input[i].m.mtype)
    ensures Run(a + input) == Run(a)
  {
    if input == [] {
      assert a + input == a;
    } else {
      assert (a + input)[..|a + input| - 1] == a + input[..|input| - 1];
      InputTail(a, input[..|input| - 1]);
    }
  }
}
