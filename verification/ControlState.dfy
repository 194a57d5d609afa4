/** The held-input register shared by the IPC thread (which applies edges) and the game thread
    (which reads once per frame). Every operation runs under the register's lock, so an interleaving
    of the two threads is a sequence of operations. */
module ControlState {
  import opened Protocol

  datatype Held = Held(moveLeft: bool, moveRight: bool, aimUp: bool, aimDown: bool, firing: bool,
                       selectWeapon: int, jump: bool)

  const CLEARED := Held(false, false, false, false, false, -1, false)

  /** Select-weapon and jump act once; the other five actions are levels. */
  predicate IsLevel(a: ControlAction) { !a.SelectWeapon? && !a.Jump? }

  function Level(h: Held, a: ControlAction): bool {
    match a
    case MoveLeft => h.moveLeft
    case MoveRight => h.moveRight
    case AimUp => h.aimUp
    case AimDown => h.aimDown
    case Fire => h.firing
    case _ => false
  }

  function Apply(h: Held, action: ControlAction, phase: ControlPhase, value: int): Held {
    var held := phase.Press?;
    match action
    case MoveLeft => h.(moveLeft := held)
    case MoveRight => h.(moveRight := held)
    case AimUp => h.(aimUp := held)
    case AimDown => h.(aimDown := held)
    case Fire => h.(firing := held)
    case SelectWeapon => if held then h.(selectWeapon := value) else h
    case Jump => if held then h.(jump := true) else h
  }

  /** What a read leaves behind: the levels, without the one-shots. */
  function Consumed(h: Held): Held { h.(selectWeapon := -1, jump := false) }

  class Register {
    var state: Held

    constructor ()
      ensures state == CLEARED
    {
      state := CLEARED;
    }

    method ApplyEdge(action: ControlAction, phase: ControlPhase, value: int)
      modifies this
      ensures state == Apply(old(state), action, phase, value)
    {
      var held := phase.Press?;
      match action {
        case MoveLeft => state := state.(moveLeft := held);
        case MoveRight => state := state.(moveRight := held);
        case AimUp => state := state.(aimUp := held);
        case AimDown => state := state.(aimDown := held);
        case Fire => state := state.(firing := held);
        case SelectWeapon => if held { state := state.(selectWeapon := value); }
        case Jump => if held { state := state.(jump := true); }
      }
    }

    method Read() returns (copy: Held)
      modifies this
      ensures copy == old(state) && state == Consumed(old(state))
    {
      copy := state;
      state := state.(selectWeapon := -1);
      state := state.(jump := false);
    }

    method Clear()
      modifies this
      ensures state == CLEARED
    {
      state := CLEARED;
    }
  }

  // ---------------------------------------------------------------- the register is its history

  datatype Op = Edge(action: ControlAction, phase: ControlPhase, value: int) | Read | Clear

  function Perform(h: Held, op: Op): Held {
    match op
    case Edge(action, phase, value) => Apply(h, action, phase, value)
    case Read => Consumed(h)
    case Clear => CLEARED
  }

  function After(ops: seq<Op>): Held {
    if ops == [] then CLEARED else Perform(After(ops[..|ops| - 1]), ops[|ops| - 1])
  }

  lemma AfterMore(ops: seq<Op>, more: seq<Op>)
    requires |more| <= 1
    ensures After(ops + more) == if more == [] then After(ops) else Perform(After(ops), more[0])
  {
    if more == [] {
      assert ops + more == ops;
    } else {
      assert (ops + more)[..|ops|] == ops;
    }
  }

  predicate IsPress(op: Op, a: ControlAction) { op.Edge? && op.action == a && op.phase.Press? }

  /** Operation `i` is a press of `a`, and no later one is an edge of `a` or a clear. */
  predicate PressedAt(ops: seq<Op>, a: ControlAction, i: nat)
    requires i < |ops|
  {
    IsPress(ops[i], a) &&
    forall j | i < j < |ops| :: !ops[j].Clear? && !(ops[j].Edge? && ops[j].action == a)
  }

  /** The latest edge of `a` since the last clear is a press. */
  predicate Pressed(ops: seq<Op>, a: ControlAction) {
    exists i | 0 <= i < |ops| :: PressedAt(ops, a, i)
  }

  /** Operation `i` is a press of the one-shot `a` and nothing since has consumed or dropped it. */
  predicate PendingAt(ops: seq<Op>, a: ControlAction, i: nat)
    requires i < |ops|
  {
    IsPress(ops[i], a) && forall j | i < j < |ops| :: ops[j].Edge?
  }

  /** ... and no later press of `a` replaced it. */
  predicate LatestAt(ops: seq<Op>, a: ControlAction, i: nat)
    requires i < |ops|
  {
    PendingAt(ops, a, i) && forall j | i < j < |ops| :: !IsPress(ops[j], a)
  }

  lemma ApplyLevel(h: Held, action: ControlAction, phase: ControlPhase, value: int, a: ControlAction)
    requires IsLevel(a)
    ensures Level(Apply(h, action, phase, value), a) == if action == a then phase.Press? else Level(h, a)
  {
  }

  lemma {:induction false} LevelIsHistory(ops: seq<Op>, a: ControlAction)
    requires IsLevel(a)
    ensures Level(After(ops), a) <==> Pressed(ops, a)
  {
    if ops != [] {
      var before, last := ops[..|ops| - 1], ops[|ops| - 1];
      LevelIsHistory(before, a);
      if last.Edge? { ApplyLevel(After(before), last.action, last.phase, last.value, a); }
      if last.Edge? && last.action == a {
        assert PressedAt(ops, a, |ops| - 1) <==> last.phase.Press?;
      } else if !last.Clear? {
        assert forall i | 0 <= i < |before| :: PressedAt(before, a, i) <==> PressedAt(ops, a, i);
      }
    }
  }

  lemma {:induction false} JumpIsHistory(ops: seq<Op>)
    ensures After(ops).jump <==> exists i | 0 <= i < |ops| :: PendingAt(ops, Jump, i)
  {
    if ops != [] {
      var before, last := ops[..|ops| - 1], ops[|ops| - 1];
      JumpIsHistory(before);
      if IsPress(last, Jump) {
        assert PendingAt(ops, Jump, |ops| - 1);
      } else if last.Edge? {
        assert forall i | 0 <= i < |before| :: PendingAt(before, Jump, i) <==> PendingAt(ops, Jump, i);
      }
    }
  }

  /** The pending weapon is that of the last select press since the last read or clear, or -1. */
  lemma {:induction false} WeaponIsHistory(ops: seq<Op>)
    ensures if exists i | 0 <= i < |ops| :: PendingAt(ops, SelectWeapon, i)
            then exists i | 0 <= i < |ops| ::
                   LatestAt(ops, SelectWeapon, i) && After(ops).selectWeapon == ops[i].value
            else After(ops).selectWeapon == -1
  {
    if ops != [] {
      var before, last := ops[..|ops| - 1], ops[|ops| - 1];
      WeaponIsHistory(before);
      if IsPress(last, SelectWeapon) {
        assert LatestAt(ops, SelectWeapon, |ops| - 1);
      } else if last.Edge? {
        assert forall i | 0 <= i < |before| ::
            PendingAt(before, SelectWeapon, i) <==> PendingAt(ops, SelectWeapon, i);
        if i :| 0 <= i < |before| && LatestAt(before, SelectWeapon, i) &&
                After(before).selectWeapon == before[i].value {
          assert LatestAt(ops, SelectWeapon, i);
        }
      }
    }
  }

  /** There is only one latest press. */
  lemma LatestUnique(ops: seq<Op>, i: nat, j: nat)
    requires i < |ops| && j < |ops| && LatestAt(ops, SelectWeapon, i) && LatestAt(ops, SelectWeapon, j)
    ensures i == j
  {
  }
}
