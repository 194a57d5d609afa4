/** The wire contract: action and phase names, command lines (backend to DLL) and snapshot lines
    (DLL to backend), each with its writer on one side and its reader on the other. */
module Protocol {
  import opened Wrappers
  import opened Json

  const LF: char := '\n'

  // ---------------------------------------------------------------- names

  datatype ControlAction = MoveLeft | MoveRight | AimUp | AimDown | SelectWeapon | Fire | Jump

  datatype ControlPhase = Press | Release

  function ActionName(a: ControlAction): string {
    match a
    case MoveLeft => "move_left"
    case MoveRight => "move_right"
    case AimUp => "aim_up"
    case AimDown => "aim_down"
    case SelectWeapon => "select_weapon"
    case Fire => "fire"
    case Jump => "jump"
  }

  function PhaseName(p: ControlPhase): string { if p.Press? then "press" else "release" }

  function ParseAction(s: string): Option<ControlAction> {
    if s == "move_left" then Some(MoveLeft)
    else if s == "move_right" then Some(MoveRight)
    else if s == "aim_up" then Some(AimUp)
    else if s == "aim_down" then Some(AimDown)
    else if s == "select_weapon" then Some(SelectWeapon)
    else if s == "fire" then Some(Fire)
    else if s == "jump" then Some(Jump)
    else None
  }

  /** The DLL's reading of a phase: anything but "release" is a press. */
  function ParsePhase(s: string): ControlPhase { if s == "release" then Release else Press }

  /** The backend's reading of a phase: an unknown name is refused. */
  function StrictPhase(s: string): Option<ControlPhase> {
    if s == "press" then Some(Press) else if s == "release" then Some(Release) else None
  }

  /** The names decode back on both sides, and no other action name is accepted. */
  lemma NamesDecode(a: ControlAction, p: ControlPhase, s: string)
    ensures ParseAction(ActionName(a)) == Some(a)
    ensures ParsePhase(PhaseName(p)) == p && StrictPhase(PhaseName(p)) == Some(p)
    ensures ParseAction(s) == Some(a) <==> s == ActionName(a)
    ensures StrictPhase(s) == Some(p) <==> s == PhaseName(p)
    ensures ParsePhase(s) == Release <==> s == PhaseName(Release)
  {
    match a
    case MoveLeft => case MoveRight => case AimUp => case AimDown =>
    case SelectWeapon => case Fire => case Jump =>
  }

  // ---------------------------------------------------------------- field access

  /** A repeated key keeps its last value, as in both programs' JSON libraries. */
  function Get(fields: seq<Field>, key: string): Option<Value> {
    if fields == [] then None
    else match Get(fields[1..], key)
         case Some(v) => Some(v)
         case None => if fields[0].key == key then Some(fields[0].val) else None
  }

  lemma {:induction false} GetAt(fields: seq<Field>, i: nat)
    requires i < |fields|
    requires forall j | i < j < |fields| :: fields[j].key != fields[i].key
    ensures Get(fields, fields[i].key) == Some(fields[i].val)
  {
    if i == 0 {
      GetMissing(fields[1..], fields[0].key);
    } else {
      GetAt(fields[1..], i - 1);
    }
  }

  lemma {:induction false} GetMissing(fields: seq<Field>, key: string)
    requires forall j | 0 <= j < |fields| :: fields[j].key != key
    ensures Get(fields, key) == None
  {
    if fields != [] { GetMissing(fields[1..], key); }
  }

  // ---------------------------------------------------------------- commands

  /** A command; its `team` is carried as decimal text. */
  datatype Command = Command(team: int, action: ControlAction, phase: ControlPhase, value: int)

  function CommandFields(c: Command): seq<Field> {
    [Field("type", Str("cmd")),
     Field("team", Str(PutInt(c.team, ""))),
     Field("action", Str(ActionName(c.action))),
     Field("phase", Str(PhaseName(c.phase))),
     Field("value", Num(c.value))]
  }

  function CommandText(c: Command): string { Text(Obj(CommandFields(c)), Spaced) }

  function ToWire(c: Command): string { CommandText(c) + [LF] }

  /** What one received line does. `Undefined` stands for the C++ reading an exception would leave
      (a value of the wrong JSON type) or an out-of-range conversion: no such line is ever sent. */
  datatype LineEffect =
    | Ignored
    | Applied(action: ControlAction, phase: ControlPhase, value: int)
    | Undefined

  /** Conversion of a 64-bit value to a 32-bit int. */
  function Wrap32(n: int): int {
    var m := n % 0x1_0000_0000;
    if m < 0x8000_0000 then m else m - 0x1_0000_0000
  }

  /** It keeps the number modulo 2^32 and gives a signed one. */
  lemma Wrap32Meaning(n: int)
    ensures -0x8000_0000 <= Wrap32(n) < 0x8000_0000 && (Wrap32(n) - n) % 0x1_0000_0000 == 0
    ensures -0x8000_0000 <= n < 0x8000_0000 ==> Wrap32(n) == n
  {
  }

  predicate Is64Bit(n: int) { -0x8000_0000_0000_0000 <= n < 0x1_0000_0000_0000_0000 }

  /** j.value(key, ""), or None where that throws. */
  function TextField(fields: seq<Field>, key: string): Option<string> {
    match Get(fields, key)
    case None => Some("")
    case Some(Str(s)) => Some(s)
    case _ => None
  }

  function HandleCommand(line: string): LineEffect {
    match ParseText(line)
    case None => Ignored
    case Some(Obj(fields)) =>
      (match TextField(fields, "type")
       case None => Undefined
       case Some(kind) =>
         if kind != "cmd" then Ignored
         else match TextField(fields, "action")
              case None => Undefined
              case Some(name) =>
                match ParseAction(name)
                case None => Ignored
                case Some(action) =>
                  match TextField(fields, "phase")
                  case None => Undefined
                  case Some(phase) => ApplyValue(action, ParsePhase(phase), Get(fields, "value")))
    case _ => Undefined
  }

  function ApplyValue(action: ControlAction, phase: ControlPhase, value: Option<Value>): LineEffect {
    match value
    case None => Applied(action, phase, 0)
    case Some(Num(n)) => if Is64Bit(n) then Applied(action, phase, Wrap32(n)) else Undefined
    case Some(Bool(b)) => Applied(action, phase, if b then 1 else 0)
    case _ => Undefined
  }

  lemma {:induction false} PutNatPlain(n: nat, rest: string)
    requires PlainText(rest)
    ensures PlainText(PutNat(n, rest))
    decreases n
  {
    if n >= 10 { PutNatPlain(n / 10, [Digit(n % 10)] + rest); }
  }

  lemma CommandPlain(c: Command)
    ensures Plain(Obj(CommandFields(c)))
  {
    PutNatPlain(if c.team < 0 then 0 - c.team else c.team, "");
    NamePlain(c.action, c.phase);
    var f := CommandFields(c);
    assert Plain(f[1].val) && Plain(f[2].val) && Plain(f[3].val);
  }

  lemma NamePlain(a: ControlAction, p: ControlPhase)
    ensures PlainText(ActionName(a)) && PlainText(PhaseName(p))
  {
    match a
    case MoveLeft => case MoveRight => case AimUp => case AimDown =>
    case SelectWeapon => case Fire => case Jump =>
  }

  /** A command line ends in its only line feed, and the DLL applies exactly the action, phase and
      (narrowed) value that were sent; the team is not looked at. */
  lemma CommandRoundTrip(c: Command)
    ensures Printable(CommandText(c)) && CommandText(c) != []
    ensures HandleCommand(CommandText(c)) ==
            if Is64Bit(c.value) then Applied(c.action, c.phase, Wrap32(c.value)) else Undefined
  {
    CommandPlain(c);
    TextPrintable(Obj(CommandFields(c)), Spaced);
    TextRoundTrip(Obj(CommandFields(c)), Spaced);
    CommandLookup(CommandFields(c), c);
    NamesDecode(c.action, c.phase, "");
  }

  /** What a lookup in the fields of a written command finds. */
  lemma CommandLookup(f: seq<Field>, c: Command)
    requires f == CommandFields(c)
    ensures TextField(f, "type") == Some("cmd")
    ensures TextField(f, "action") == Some(ActionName(c.action))
    ensures TextField(f, "phase") == Some(PhaseName(c.phase))
    ensures Get(f, "value") == Some(Num(c.value))
  {
    GetAt(f, 0);
    GetAt(f, 2);
    GetAt(f, 3);
    GetAt(f, 4);
  }

  /** The text of a command, character by character. */
  lemma CommandWire(c: Command)
    ensures CommandText(c) ==
            "{" + PutStr("type", ": " + PutStr("cmd", ", " +
                  PutStr("team", ": " + PutStr(PutInt(c.team, ""), ", " +
                  PutStr("action", ": " + PutStr(ActionName(c.action), ", " +
                  PutStr("phase", ": " + PutStr(PhaseName(c.phase), ", " +
                  PutStr("value", ": " + PutInt(c.value, "}"))))))))))
  {
    var f := CommandFields(c);
    assert "}" + "" == "}";
    FieldThen(f[3], [f[4]], Spaced, "}");
    FieldThen(f[2], [f[3], f[4]], Spaced, "}");
    FieldThen(f[1], [f[2], f[3], f[4]], Spaced, "}");
    FieldThen(f[0], [f[1], f[2], f[3], f[4]], Spaced, "}");
    assert [f[3]] + [f[4]] == [f[3], f[4]] && [f[2]] + [f[3], f[4]] == [f[2], f[3], f[4]];
    assert [f[1]] + [f[2], f[3], f[4]] == [f[1], f[2], f[3], f[4]];
    assert [f[0]] + [f[1], f[2], f[3], f[4]] == f;
  }

  /** So the game applies a command for any team: turns are gated in the backend only. */
  lemma TeamMakesNoDifference(c: Command, team: int)
    ensures HandleCommand(CommandText(c.(team := team))) == HandleCommand(CommandText(c))
  {
    CommandRoundTrip(c);
    CommandRoundTrip(c.(team := team));
  }

  // ---------------------------------------------------------------- snapshots

  datatype WormSnapshot = WormSnapshot(team: int, worm: int, active: bool, posX: int, posY: int,
                                       weapon: int, facing: int)

  datatype TeamSnapshot = TeamSnapshot(teamNumber: int, owner: int, currentWorm: int,
                                       isTurnHolder: bool, isLocal: bool, worms: seq<WormSnapshot>)

  datatype WeaponAmmo = WeaponAmmo(id: int, ammo: int, delay: int)

  datatype GameSnapshot = GameSnapshot(gameId: int, roundActive: bool, beforeRoundStart: bool,
                                       numTeams: int, round: int, currentMachine: int,
                                       turnTeam: Option<int>, turnTimeMs: Option<int>,
                                       teams: seq<TeamSnapshot>, weapons: seq<WeaponAmmo>)

  function OptNum(o: Option<int>): Value { if o.Some? then Num(o.value) else Null }

  // nlohmann writes an object's keys in alphabetical order.

  function WormJson(w: WormSnapshot): Value {
    Obj([Field("active", Bool(w.active)), Field("facing", Num(w.facing)),
         Field("pos_x", Num(w.posX)), Field("pos_y", Num(w.posY)), Field("team", Num(w.team)),
         Field("weapon", Num(w.weapon)), Field("worm", Num(w.worm))])
  }

  function WormItems(t: TeamSnapshot): seq<Value> {
    seq(|t.worms|, i requires 0 <= i < |t.worms| => WormJson(t.worms[i]))
  }

  function TeamJson(t: TeamSnapshot): Value {
    Obj([Field("current_worm", Num(t.currentWorm)), Field("is_local", Bool(t.isLocal)),
         Field("is_turn_holder", Bool(t.isTurnHolder)), Field("owner", Num(t.owner)),
         Field("team_number", Num(t.teamNumber)),
         Field("worms", Arr(WormItems(t)))])
  }

  function WeaponJson(w: WeaponAmmo): Value {
    Obj([Field("ammo", Num(w.ammo)), Field("delay", Num(w.delay)), Field("id", Num(w.id))])
  }

  function TeamItems(s: GameSnapshot): seq<Value> {
    seq(|s.teams|, i requires 0 <= i < |s.teams| => TeamJson(s.teams[i]))
  }

  function WeaponItems(s: GameSnapshot): seq<Value> {
    seq(|s.weapons|, i requires 0 <= i < |s.weapons| => WeaponJson(s.weapons[i]))
  }

  function SnapshotFieldList(s: GameSnapshot): seq<Field> {
    [Field("before_round_start", Bool(s.beforeRoundStart)),
     Field("current_machine", Num(s.currentMachine)),
     Field("game_id", Num(s.gameId)),
     Field("num_teams", Num(s.numTeams)),
     Field("round", Num(s.round)),
     Field("round_active", Bool(s.roundActive)),
     Field("teams", Arr(TeamItems(s))),
     Field("turn_team", OptNum(s.turnTeam)),
     Field("turn_time_ms", OptNum(s.turnTimeMs)),
     Field("weapons", Arr(WeaponItems(s)))]
  }

  function SnapshotText(s: GameSnapshot): string { Text(Obj(SnapshotFieldList(s)), Compact) }

  function StateLine(s: GameSnapshot): string { SnapshotText(s) + [LF] }

  // The backend's models: a missing field with a default takes it, a missing field without one or
  // a value of another kind fails validation.

  function IntOf(v: Option<Value>, default: Option<int>): Option<int> {
    match v
    case None => default
    case Some(Num(n)) => Some(n)
    case _ => None
  }

  function BoolOf(v: Option<Value>, default: bool): Option<bool> {
    match v
    case None => Some(default)
    case Some(Bool(b)) => Some(b)
    case _ => None
  }

  function OptIntOf(v: Option<Value>): Option<Option<int>> {
    match v
    case None => Some(None)
    case Some(Null) => Some(None)
    case Some(Num(n)) => Some(Some(n))
    case _ => None
  }

  function ItemsOf(v: Option<Value>): Option<seq<Value>> {
    match v
    case None => Some([])
    case Some(Arr(items)) => Some(items)
    case _ => None
  }

  /** Every element decoded, or None if one fails. */
  function All<T>(items: seq<Value>, decode: Value -> Option<T>): Option<seq<T>> {
    if items == [] then Some([])
    else match decode(items[0])
         case None => None
         case Some(x) =>
           match All(items[1..], decode)
           case None => None
           case Some(xs) => Some([x] + xs)
  }

  function WormOf(v: Value): Option<WormSnapshot> {
    if !v.Obj? then None
    else
      var team := IntOf(Get(v.fields, "team"), None);
      var worm := IntOf(Get(v.fields, "worm"), None);
      var active := BoolOf(Get(v.fields, "active"), false);
      var x := IntOf(Get(v.fields, "pos_x"), Some(0));
      var y := IntOf(Get(v.fields, "pos_y"), Some(0));
      var weapon := IntOf(Get(v.fields, "weapon"), Some(0));
      var facing := IntOf(Get(v.fields, "facing"), Some(0));
      if team.None? || worm.None? || active.None? || x.None? || y.None? || weapon.None? || facing.None?
      then None
      else Some(WormSnapshot(team.value, worm.value, active.value, x.value, y.value,
                             weapon.value, facing.value))
  }

  function TeamOf(v: Value): Option<TeamSnapshot> {
    if !v.Obj? then None
    else
      var number := IntOf(Get(v.fields, "team_number"), None);
      var owner := IntOf(Get(v.fields, "owner"), Some(0));
      var current := IntOf(Get(v.fields, "current_worm"), Some(0));
      var holder := BoolOf(Get(v.fields, "is_turn_holder"), false);
      var isLocal := BoolOf(Get(v.fields, "is_local"), false);
      var items := ItemsOf(Get(v.fields, "worms"));
      if number.None? || owner.None? || current.None? || holder.None? || isLocal.None? || items.None?
      then None
      else match All(items.value, WormOf)
           case None => None
           case Some(worms) => Some(TeamSnapshot(number.value, owner.value, current.value,
                                                 holder.value, isLocal.value, worms))
  }

  function WeaponOf(v: Value): Option<WeaponAmmo> {
    if !v.Obj? then None
    else
      var id := IntOf(Get(v.fields, "id"), None);
      var ammo := IntOf(Get(v.fields, "ammo"), Some(0));
      var delay := IntOf(Get(v.fields, "delay"), Some(0));
      if id.None? || ammo.None? || delay.None? then None
      else Some(WeaponAmmo(id.value, ammo.value, delay.value))
  }

  function SnapshotOf(v: Value): Option<GameSnapshot> {
    if !v.Obj? then None
    else
      var gameId := IntOf(Get(v.fields, "game_id"), Some(0));
      var active := BoolOf(Get(v.fields, "round_active"), false);
      var before := BoolOf(Get(v.fields, "before_round_start"), false);
      var numTeams := IntOf(Get(v.fields, "num_teams"), Some(0));
      var round := IntOf(Get(v.fields, "round"), Some(0));
      var machine := IntOf(Get(v.fields, "current_machine"), Some(-1));
      var turnTeam := OptIntOf(Get(v.fields, "turn_team"));
      var turnTime := OptIntOf(Get(v.fields, "turn_time_ms"));
      var teamItems := ItemsOf(Get(v.fields, "teams"));
      var weaponItems := ItemsOf(Get(v.fields, "weapons"));
      if gameId.None? || active.None? || before.None? || numTeams.None? || round.None? ||
         machine.None? || turnTeam.None? || turnTime.None? || teamItems.None? || weaponItems.None?
      then None
      else
        var teams := All(teamItems.value, TeamOf);
        var weapons := All(weaponItems.value, WeaponOf);
        if teams.None? || weapons.None? then None
        else Some(GameSnapshot(gameId.value, active.value, before.value, numTeams.value,
                               round.value, machine.value, turnTeam.value, turnTime.value,
                               teams.value, weapons.value))
  }

  /** GameSnapshot.from_wire on a line without its line feed. */
  function FromWire(line: string): Option<GameSnapshot> {
    match ParseText(line)
    case None => None
    case Some(v) => SnapshotOf(v)
  }

  // ---------------------------------------------------------------- snapshot round trip

  lemma {:induction false} AllDecodes<T>(items: seq<Value>, decode: Value -> Option<T>, xs: seq<T>)
    requires |items| == |xs|
    requires forall i | 0 <= i < |xs| :: decode(items[i]) == Some(xs[i])
    ensures All(items, decode) == Some(xs)
  {
    if items != [] {
      AllDecodes(items[1..], decode, xs[1..]);
      assert [xs[0]] + xs[1..] == xs;
    }
  }

  predicate DistinctKeys(fields: seq<Field>) {
    forall i, j | 0 <= i < j < |fields| :: fields[i].key != fields[j].key
  }

  /** What a lookup in the fields of a written worm finds. */
  predicate WormFields(f: seq<Field>, w: WormSnapshot) {
    && Get(f, "active") == Some(Bool(w.active))
    && Get(f, "facing") == Some(Num(w.facing))
    && Get(f, "pos_x") == Some(Num(w.posX))
    && Get(f, "pos_y") == Some(Num(w.posY))
    && Get(f, "team") == Some(Num(w.team))
    && Get(f, "weapon") == Some(Num(w.weapon))
    && Get(f, "worm") == Some(Num(w.worm))
  }

  lemma WormKeys(w: WormSnapshot)
    ensures DistinctKeys(WormJson(w).fields)
  {
  }

  lemma WormLookup(f: seq<Field>, w: WormSnapshot)
    requires f == WormJson(w).fields
    ensures WormFields(f, w)
  {
    WormKeys(w);
    GetAt(f, 0); GetAt(f, 1); GetAt(f, 2); GetAt(f, 3); GetAt(f, 4);
    GetAt(f, 5); GetAt(f, 6);
  }

  lemma WormDecodes(v: Value, w: WormSnapshot)
    requires v.Obj? && WormFields(v.fields, w)
    ensures WormOf(v) == Some(w)
  {
  }

  lemma WormRoundTrip(w: WormSnapshot)
    ensures WormOf(WormJson(w)) == Some(w) && Plain(WormJson(w))
  {
    WormLookup(WormJson(w).fields, w);
    WormDecodes(WormJson(w), w);
    WormPlain(w);
  }

  lemma WormPlain(w: WormSnapshot)
    ensures Plain(WormJson(w))
  {
  }

  lemma WeaponRoundTrip(w: WeaponAmmo)
    ensures WeaponOf(WeaponJson(w)) == Some(w) && Plain(WeaponJson(w))
  {
    var f := WeaponJson(w).fields;
    GetAt(f, 0); GetAt(f, 1); GetAt(f, 2);
  }

  /** What a lookup in the fields of a written team finds. */
  predicate TeamFields(f: seq<Field>, t: TeamSnapshot) {
    && Get(f, "current_worm") == Some(Num(t.currentWorm))
    && Get(f, "is_local") == Some(Bool(t.isLocal))
    && Get(f, "is_turn_holder") == Some(Bool(t.isTurnHolder))
    && Get(f, "owner") == Some(Num(t.owner))
    && Get(f, "team_number") == Some(Num(t.teamNumber))
    && Get(f, "worms") == Some(Arr(WormItems(t)))
  }

  lemma TeamKeys(t: TeamSnapshot)
    ensures DistinctKeys(TeamJson(t).fields)
  {
  }

  lemma TeamLookup(f: seq<Field>, t: TeamSnapshot)
    requires f == TeamJson(t).fields
    ensures TeamFields(f, t)
  {
    TeamKeys(t);
    GetAt(f, 0); GetAt(f, 1); GetAt(f, 2); GetAt(f, 3); GetAt(f, 4);
    GetAt(f, 5);
  }

  lemma WormItemsDecode(t: TeamSnapshot)
    ensures All(WormItems(t), WormOf) == Some(t.worms)
    ensures forall i | 0 <= i < |t.worms| :: Plain(WormItems(t)[i])
  {
    var items := WormItems(t);
    forall i | 0 <= i < |t.worms|
      ensures WormOf(items[i]) == Some(t.worms[i]) && Plain(items[i])
    {
      WormRoundTrip(t.worms[i]);
    }
    AllDecodes(items, WormOf, t.worms);
  }

  lemma TeamDecodes(v: Value, t: TeamSnapshot)
    requires v.Obj? && TeamFields(v.fields, t)
    ensures TeamOf(v) == Some(t)
  {
    WormItemsDecode(t);
  }

  lemma TeamPlain(t: TeamSnapshot)
    ensures Plain(TeamJson(t))
  {
    WormItemsDecode(t);
    TeamKeysPlain(t);
    assert Plain(Arr(WormItems(t)));
    var f := TeamJson(t).fields;
    assert forall i | 0 <= i < |f| && i != 5 :: !f[i].val.Arr? && !f[i].val.Obj? && !f[i].val.Str?;
  }

  lemma TeamKeysPlain(t: TeamSnapshot)
    ensures forall i | 0 <= i < |TeamJson(t).fields| :: PlainText(TeamJson(t).fields[i].key)
  {
  }

  lemma TeamRoundTrip(t: TeamSnapshot)
    ensures TeamOf(TeamJson(t)) == Some(t) && Plain(TeamJson(t))
  {
    TeamLookup(TeamJson(t).fields, t);
    TeamDecodes(TeamJson(t), t);
    TeamPlain(t);
  }

  /** What a lookup in the fields of a written snapshot finds. */
  predicate SnapshotFields(f: seq<Field>, s: GameSnapshot) {
    && Get(f, "before_round_start") == Some(Bool(s.beforeRoundStart))
    && Get(f, "current_machine") == Some(Num(s.currentMachine))
    && Get(f, "game_id") == Some(Num(s.gameId))
    && Get(f, "num_teams") == Some(Num(s.numTeams))
    && Get(f, "round") == Some(Num(s.round))
    && Get(f, "round_active") == Some(Bool(s.roundActive))
    && Get(f, "teams") == Some(Arr(TeamItems(s)))
    && Get(f, "turn_team") == Some(OptNum(s.turnTeam))
    && Get(f, "turn_time_ms") == Some(OptNum(s.turnTimeMs))
    && Get(f, "weapons") == Some(Arr(WeaponItems(s)))
  }

  lemma SnapshotKeys(s: GameSnapshot)
    ensures DistinctKeys(SnapshotFieldList(s))
  {
  }

  lemma SnapshotLookup(f: seq<Field>, s: GameSnapshot)
    requires f == SnapshotFieldList(s)
    ensures SnapshotFields(f, s)
  {
    SnapshotKeys(s);
    GetAt(f, 0); GetAt(f, 1); GetAt(f, 2); GetAt(f, 3); GetAt(f, 4);
    GetAt(f, 5); GetAt(f, 6); GetAt(f, 7); GetAt(f, 8); GetAt(f, 9);
  }

  lemma SnapshotItemsDecode(s: GameSnapshot)
    ensures All(TeamItems(s), TeamOf) == Some(s.teams)
    ensures All(WeaponItems(s), WeaponOf) == Some(s.weapons)
    ensures Plain(Arr(TeamItems(s))) && Plain(Arr(WeaponItems(s)))
  {
    var teams, weapons := TeamItems(s), WeaponItems(s);
    forall i | 0 <= i < |s.teams| ensures TeamOf(teams[i]) == Some(s.teams[i]) && Plain(teams[i]) {
      TeamRoundTrip(s.teams[i]);
    }
    AllDecodes(teams, TeamOf, s.teams);
    forall i | 0 <= i < |s.weapons|
      ensures WeaponOf(weapons[i]) == Some(s.weapons[i]) && Plain(weapons[i])
    {
      WeaponRoundTrip(s.weapons[i]);
    }
    AllDecodes(weapons, WeaponOf, s.weapons);
  }

  lemma SnapshotDecodes(v: Value, s: GameSnapshot)
    requires v.Obj? && SnapshotFields(v.fields, s)
    ensures SnapshotOf(v) == Some(s)
  {
    SnapshotItemsDecode(s);
  }

  lemma SnapshotPlain(s: GameSnapshot)
    ensures Plain(Obj(SnapshotFieldList(s)))
  {
    SnapshotKeysPlain(s);
    SnapshotItemsDecode(s);
    var f := SnapshotFieldList(s);
    assert forall i | 0 <= i < |f| && i != 6 && i != 9 :: !f[i].val.Arr? && !f[i].val.Obj? && !f[i].val.Str?;
  }

  lemma SnapshotKeysPlain(s: GameSnapshot)
    ensures forall i | 0 <= i < |SnapshotFieldList(s)| :: PlainText(SnapshotFieldList(s)[i].key)
  {
    SomeKeysPlain();
    OtherKeysPlain();
    var f := SnapshotFieldList(s);
    assert forall i | 0 <= i < 5 :: PlainText(f[i].key);
    assert forall i | 5 <= i < |f| :: PlainText(f[i].key);
  }

  lemma SomeKeysPlain()
    ensures PlainText("before_round_start") && PlainText("current_machine") && PlainText("game_id")
    ensures PlainText("num_teams") && PlainText("round")
  {
  }

  lemma OtherKeysPlain()
    ensures PlainText("round_active") && PlainText("teams") && PlainText("turn_team")
    ensures PlainText("turn_time_ms") && PlainText("weapons")
  {
  }

  /** Decoding an encoded snapshot returns the same snapshot, for any number of teams, worms and
      weapons and either state of the optional fields; its line's only line feed is its last byte. */
  lemma SnapshotRoundTrip(s: GameSnapshot)
    ensures FromWire(SnapshotText(s)) == Some(s)
    ensures Printable(SnapshotText(s)) && SnapshotText(s) != []
  {
    var v := Obj(SnapshotFieldList(s));
    SnapshotLookup(v.fields, s);
    SnapshotDecodes(v, s);
    SnapshotPlain(s);
    TextRoundTrip(v, Compact);
    TextPrintable(v, Compact);
  }

  // ---------------------------------------------------------------- defaults

  /** A command without phase and value is a press with value 0; one of another type, or with an
      unknown action, does nothing, nor does a line that is not JSON. */
  lemma CommandDefaults(a: ControlAction, text: string)
    requires PlainText(text)
    ensures ParseText(text).None? ==> HandleCommand(text) == Ignored
    ensures HandleCommand(Text(Obj([Field("type", Str("cmd")), Field("action", Str(ActionName(a)))]), Spaced))
            == Applied(a, Press, 0)
    ensures text != "cmd" ==> HandleCommand(Text(Obj([Field("type", Str(text))]), Spaced)) == Ignored
    ensures ParseAction(text).None? ==>
              HandleCommand(Text(Obj([Field("type", Str("cmd")), Field("action", Str(text))]), Spaced)) == Ignored
  {
    NamePlain(a, Press);
    NamesDecode(a, Press, "");
    TwoFields(ActionName(a));
    TwoFields(text);
    var one := [Field("type", Str(text))];
    TextRoundTrip(Obj(one), Spaced);
    GetAt(one, 0);
  }

  lemma TwoFields(text: string)
    requires PlainText(text)
    ensures var f := [Field("type", Str("cmd")), Field("action", Str(text))];
            && ParseText(Text(Obj(f), Spaced)) == Some(Obj(f))
            && TextField(f, "type") == Some("cmd") && TextField(f, "action") == Some(text)
            && TextField(f, "phase") == Some("") && Get(f, "value") == None
  {
    var f := [Field("type", Str("cmd")), Field("action", Str(text))];
    TextRoundTrip(Obj(f), Spaced);
    GetAt(f, 0);
    GetAt(f, 1);
    GetMissing(f, "phase");
    GetMissing(f, "value");
  }

  /** A line without a type, or without an action, does nothing. */
  lemma IncompleteCommands(a: ControlAction)
    ensures HandleCommand(Text(Obj([Field("action", Str(ActionName(a)))]), Spaced)) == Ignored
    ensures HandleCommand(Text(Obj([Field("type", Str("cmd"))]), Spaced)) == Ignored
    ensures HandleCommand("{}") == Ignored
  {
    Untyped(a);
    Idle();
    TextRoundTrip(Obj([]), Spaced);
    assert Text(Obj([]), Spaced) == "{}";
  }

  lemma Untyped(a: ControlAction)
    ensures HandleCommand(Text(Obj([Field("action", Str(ActionName(a)))]), Spaced)) == Ignored
  {
    NamePlain(a, Press);
    TextRoundTrip(Obj([Field("action", Str(ActionName(a)))]), Spaced);
    OneField("action", "type", Str(ActionName(a)));
  }

  lemma Idle()
    ensures HandleCommand(Text(Obj([Field("type", Str("cmd"))]), Spaced)) == Ignored
  {
    TextRoundTrip(Obj([Field("type", Str("cmd"))]), Spaced);
    OneField("type", "action", Str("cmd"));
  }

  lemma OneField(key: string, other: string, v: Value)
    ensures Get([Field(key, v)], key) == Some(v)
    ensures other != key ==> Get([Field(key, v)], other) == None
  {
    GetAt([Field(key, v)], 0);
    if other != key { GetMissing([Field(key, v)], other); }
  }

  /** A team needs its number, a weapon entry its id, a worm its team and number; the rest has defaults. */
  lemma PartDefaults(n: int, m: int)
    ensures TeamOf(Obj([Field("team_number", Num(n))])) == Some(TeamSnapshot(n, 0, 0, false, false, []))
    ensures WeaponOf(Obj([Field("id", Num(n))])) == Some(WeaponAmmo(n, 0, 0))
    ensures WormOf(Obj([Field("team", Num(n)), Field("worm", Num(m))])) ==
            Some(WormSnapshot(n, m, false, 0, 0, 0, 0))
    ensures TeamOf(Obj([])) == None && WeaponOf(Obj([])) == None && WormOf(Obj([])) == None
  {
    var none: seq<Value> := [];
    assert All(none, WormOf) == Some([]);
    OneField("team_number", "owner", Num(n));
    OneField("team_number", "current_worm", Num(n));
    OneField("team_number", "is_turn_holder", Num(n));
    OneField("team_number", "is_local", Num(n));
    OneField("team_number", "worms", Num(n));
    OneField("id", "ammo", Num(n));
    OneField("id", "delay", Num(n));
    var worm := [Field("team", Num(n)), Field("worm", Num(m))];
    GetAt(worm, 0);
    GetAt(worm, 1);
    GetMissing(worm, "active");
    GetMissing(worm, "pos_x");
    GetMissing(worm, "pos_y");
    GetMissing(worm, "weapon");
    GetMissing(worm, "facing");
  }

  /** An empty object is the snapshot of no game. */
  lemma SnapshotDefaults()
    ensures SnapshotOf(Obj([])) ==
            Some(GameSnapshot(0, false, false, 0, 0, -1, None, None, [], []))
  {
    var none: seq<Value> := [];
    assert All(none, TeamOf) == Some([]) && All(none, WeaponOf) == Some([]);
  }
}
