/** The game's task tree in memory: building the snapshot, finding the worm whose turn it is, and
    writing its selected weapon in place. */
module TaskTree {
  import opened Wrappers
  import opened Protocol

  const CLASS_TEAM: nat := 10

  /** The fields read or written of one task. A child of a team task is read as a worm whatever its
      class, so every task has both the team's and the worm's fields (their offsets differ). */
  datatype Task = Task(classType: nat, teamNumber: int, owner: int, currentWorm: int,
                       wormTeam: int, wormNumber: int, active: int, posX: int, posY: int,
                       weapon: int, facing: int, entryPtr: int)

  /** Memory by task address. */
  type Memory = map<nat, Task>

  /** The shape of the tree; a Null child is a null entry of the child array. */
  datatype Tree = Null | Node(addr: nat, children: seq<Tree>)

  // ---------------------------------------------------------------- shape

  function NonNull(cs: seq<Tree>): seq<Tree> {
    if cs == [] then []
    else
      var last := cs[|cs| - 1];
      NonNull(cs[..|cs| - 1]) + if last.Node? then [last] else []
  }

  function Kids(t: Tree): seq<Tree> { if t.Node? then NonNull(t.children) else [] }

  /** The order in which a traversal visits: a task, then its children's subtrees. */
  function Preorder(t: Tree): seq<Tree>
    decreases t, 0
  {
    if t.Null? then [] else [t] + PreorderAll(t.children)
  }

  function PreorderAll(cs: seq<Tree>): seq<Tree>
    decreases cs, 1
  {
    if cs == [] then []
    else PreorderAll(cs[..|cs| - 1]) + Preorder(cs[|cs| - 1])
  }

  predicate MappedKids(mem: Memory, kids: seq<Tree>) {
    forall i | 0 <= i < |kids| :: kids[i].Node? && kids[i].addr in mem
  }

  predicate MappedTask(mem: Memory, t: Tree) {
    t.Node? && t.addr in mem && MappedKids(mem, Kids(t))
  }

  predicate Mapped(mem: Memory, nodes: seq<Tree>) {
    forall i | 0 <= i < |nodes| :: MappedTask(mem, nodes[i])
  }

  predicate IsTeam(mem: Memory, t: Tree)
    requires t.Node? && t.addr in mem
  {
    mem[t.addr].classType == CLASS_TEAM
  }

  // ---------------------------------------------------------------- the snapshot

  function WormView(w: Task): WormSnapshot {
    WormSnapshot(w.wormTeam, w.wormNumber, w.active != 0, w.posX, w.posY, w.weapon, w.facing)
  }

  function WormViews(mem: Memory, kids: seq<Tree>): seq<WormSnapshot>
    requires MappedKids(mem, kids)
  {
    seq(|kids|, i requires 0 <= i < |kids| => WormView(mem[kids[i].addr]))
  }

  /** `machine` is the local machine id, None when it is not known (then every team is local). */
  function TeamView(mem: Memory, t: Tree, active: int, machine: Option<int>): TeamSnapshot
    requires MappedTask(mem, t)
  {
    var d := mem[t.addr];
    TeamSnapshot(d.teamNumber, d.owner, d.currentWorm, active >= 0 && d.teamNumber == active,
                 machine.None? || d.owner == machine.value, WormViews(mem, Kids(t)))
  }

  function TeamViews(mem: Memory, nodes: seq<Tree>, active: int, machine: Option<int>): seq<TeamSnapshot>
    requires Mapped(mem, nodes)
  {
    if nodes == [] then []
    else
      var last := nodes[|nodes| - 1];
      TeamViews(mem, nodes[..|nodes| - 1], active, machine) +
      if IsTeam(mem, last) then [TeamView(mem, last, active, machine)] else []
  }

  datatype Global = Global(currentMachine: int, round: int, weaponTable: nat)

  datatype TurnGame = TurnGame(numTeams: int, beforeRoundStart: bool, timer: int, root: Tree)

  /** `global` and `turnGame` are None while those objects do not exist, `active` is the tracked turn
      team (-1: none), `ammo` is what the ammo table holds for that team. */
  datatype World = World(gameId: int, global: Option<Global>, turnGame: Option<TurnGame>, active: int,
                         machine: Option<int>, ammo: seq<WeaponAmmo>)

  predicate Readable(mem: Memory, w: World) {
    w.turnGame.Some? ==> w.turnGame.value.root.Node? && Mapped(mem, Preorder(w.turnGame.value.root))
  }

  function Snapshot(mem: Memory, w: World): GameSnapshot
    requires Readable(mem, w)
  {
    if w.global.None? then GameSnapshot(w.gameId, false, false, 0, 0, -1, None, None, [], [])
    else
      var g := w.global.value;
      if w.turnGame.None?
      then GameSnapshot(w.gameId, true, false, 0, 0, g.currentMachine, None, None, [], [])
      else
        var tg := w.turnGame.value;
        GameSnapshot(w.gameId, true, tg.beforeRoundStart, tg.numTeams, g.round, g.currentMachine,
                     if w.active >= 0 then Some(w.active) else None, Some(tg.timer),
                     TeamViews(mem, Preorder(tg.root), w.active, w.machine),
                     if w.active >= 0 then w.ammo else [])
  }

  // ---------------------------------------------------------------- the turn's worm

  /** The team's current worm, else its first active one. */
  function Candidate(mem: Memory, current: int, kids: seq<Tree>): Option<nat>
    requires MappedKids(mem, kids)
  {
    if Exact(mem, current, kids).Some? then Exact(mem, current, kids) else FirstActive(mem, kids)
  }

  function Exact(mem: Memory, current: int, kids: seq<Tree>): Option<nat>
    requires MappedKids(mem, kids)
  {
    if kids == [] then None
    else
      var before := Exact(mem, current, kids[..|kids| - 1]);
      if before.Some? then before
      else if mem[kids[|kids| - 1].addr].wormNumber == current then Some(kids[|kids| - 1].addr)
      else None
  }

  function FirstActive(mem: Memory, kids: seq<Tree>): Option<nat>
    requires MappedKids(mem, kids)
  {
    if kids == [] then None
    else
      var before := FirstActive(mem, kids[..|kids| - 1]);
      if before.Some? then before
      else if mem[kids[|kids| - 1].addr].active != 0 then Some(kids[|kids| - 1].addr)
      else None
  }

  /** What the search callback leaves in its captured result after visiting `t`. */
  function Visited(mem: Memory, active: int, found: Option<nat>, t: Tree): Option<nat>
    requires MappedTask(mem, t)
  {
    if found.Some? || !IsTeam(mem, t) || mem[t.addr].teamNumber != active then found
    else Candidate(mem, mem[t.addr].currentWorm, Kids(t))
  }

  function VisitedAll(mem: Memory, active: int, found: Option<nat>, nodes: seq<Tree>): Option<nat>
    requires Mapped(mem, nodes)
  {
    if nodes == [] then found
    else Visited(mem, active, VisitedAll(mem, active, found, nodes[..|nodes| - 1]), nodes[|nodes| - 1])
  }

  lemma {:induction false} VisitedAppend(mem: Memory, active: int, found: Option<nat>, a: seq<Tree>, b: seq<Tree>)
    requires Mapped(mem, a) && Mapped(mem, b)
    ensures Mapped(mem, a + b)
    ensures VisitedAll(mem, active, found, a + b) ==
            VisitedAll(mem, active, VisitedAll(mem, active, found, a), b)
  {
    if b == [] {
      assert a + b == a;
    } else {
      assert (a + b)[..|a + b| - 1] == a + b[..|b| - 1];
      VisitedAppend(mem, active, found, a, b[..|b| - 1]);
    }
  }

  lemma {:induction false} ViewsAppend(mem: Memory, a: seq<Tree>, b: seq<Tree>, active: int, machine: Option<int>)
    requires Mapped(mem, a) && Mapped(mem, b)
    ensures Mapped(mem, a + b)
    ensures TeamViews(mem, a + b, active, machine) ==
            TeamViews(mem, a, active, machine) + TeamViews(mem, b, active, machine)
  {
    if b == [] {
      assert a + b == a;
    } else {
      assert (a + b)[..|a + b| - 1] == a + b[..|b| - 1];
      ViewsAppend(mem, a, b[..|b| - 1], active, machine);
    }
  }

  // ---------------------------------------------------------------- the code

  const WEAPON_ENTRY: nat := 464
  const WORD: nat := 0x1_0000_0000

  function EntryPtr(table: nat, id: int): int { Wrap32(table + WEAPON_ENTRY * id) }

  function Armed(t: Task, table: nat, id: int): Task {
    t.(weapon := id, entryPtr := EntryPtr(table, id))
  }

  /** Where a weapon choice writes: nowhere outside 1..70, without a weapon table, or when no worm is
      found. */
  function WeaponTarget(mem: Memory, w: World, id: int): Option<nat>
    requires Readable(mem, w)
  {
    if !(1 <= id <= 70) || w.global.None? || w.global.value.weaponTable == 0 then None
    else TurnWorm(mem, w)
  }

  function TurnWorm(mem: Memory, w: World): Option<nat>
    requires Readable(mem, w)
  {
    if w.active < 0 || w.turnGame.None? then None
    else VisitedAll(mem, w.active, None, Preorder(w.turnGame.value.root))
  }

  /** A weapon table and a worm to choose for. */
  predicate WeaponReady(mem: Memory, w: World)
    requires Readable(mem, w)
  {
    w.global.Some? && w.global.value.weaponTable != 0 && TurnWorm(mem, w).Some?
  }

  const NO_GAME := GameSnapshot(0, false, false, 0, 0, -1, None, None, [], [])

  class GameMemory {
    var tasks: Memory

    constructor (tasks: Memory)
      ensures this.tasks == tasks
    {
      this.tasks := tasks;
    }

    method CollectWorms(team: Tree) returns (worms: seq<WormSnapshot>)
      requires MappedTask(tasks, team)
      ensures worms == WormViews(tasks, Kids(team))
    {
      worms := [];
      for i := 0 to |team.children|
        invariant NonNull(team.children[..i]) <= Kids(team)
        invariant worms == WormViews(tasks, NonNull(team.children[..i]))
      {
        NonNullStep(team.children, i);
        var child := team.children[i];
        if child.Node? {
          LastKid(NonNull(team.children[..i + 1]), Kids(team));
          worms := worms + [WormView(tasks[child.addr])];
        }
      }
      assert team.children[..|team.children|] == team.children;
    }

    /** The snapshot's callback. */
    method CollectTeam(t: Tree, active: int, machine: Option<int>, acc: seq<TeamSnapshot>)
      returns (teams: seq<TeamSnapshot>)
      requires MappedTask(tasks, t)
      ensures teams == acc + TeamViews(tasks, [t], active, machine)
    {
      teams := acc;
      if IsTeam(tasks, t) {
        var worms := CollectWorms(t);
        var d := tasks[t.addr];
        teams := teams + [TeamSnapshot(d.teamNumber, d.owner, d.currentWorm,
                                       active >= 0 && d.teamNumber == active,
                                       machine.None? || d.owner == machine.value, worms)];
      }
      SingleTeam(tasks, t, active, machine);
    }

    /** The traversal with the snapshot's callback, whose captured list is `acc`. */
    method CollectTeams(t: Tree, active: int, machine: Option<int>, acc: seq<TeamSnapshot>)
      returns (teams: seq<TeamSnapshot>)
      requires t.Node? && Mapped(tasks, Preorder(t))
      ensures teams == acc + TeamViews(tasks, Preorder(t), active, machine)
      decreases t
    {
      assert Preorder(t)[0] == t;
      teams := CollectTeam(t, active, machine, acc);
      ghost var own := teams;
      for i := 0 to |t.children|
        invariant PreorderAll(t.children[..i]) <= PreorderAll(t.children)
        invariant Mapped(tasks, PreorderAll(t.children[..i]))
        invariant teams == own + TeamViews(tasks, PreorderAll(t.children[..i]), active, machine)
      {
        PreorderStep(t.children, i);
        ghost var sub := Preorder(t.children[i]);
        MappedPart(tasks, t, PreorderAll(t.children[..i]), sub);
        ViewsAppend(tasks, PreorderAll(t.children[..i]), sub, active, machine);
        Joined(own, TeamViews(tasks, PreorderAll(t.children[..i]), active, machine),
               TeamViews(tasks, sub, active, machine));
        if t.children[i].Node? {
          teams := CollectTeams(t.children[i], active, machine, teams);
        }
      }
      assert t.children[..|t.children|] == t.children;
      ViewsAppend(tasks, [t], PreorderAll(t.children), active, machine);
      Joined(acc, TeamViews(tasks, [t], active, machine),
             TeamViews(tasks, PreorderAll(t.children), active, machine));
    }

    method BuildSnapshot(w: World) returns (snap: GameSnapshot)
      requires Readable(tasks, w)
      ensures snap == Snapshot(tasks, w)
    {
      snap := GameSnapshot(w.gameId, false, false, 0, 0, -1, None, None, [], []);
      if w.global.None? { return; }
      snap := snap.(roundActive := true, currentMachine := w.global.value.currentMachine);
      if w.turnGame.None? { return; }
      var tg := w.turnGame.value;
      snap := snap.(numTeams := tg.numTeams, round := w.global.value.round,
                    beforeRoundStart := tg.beforeRoundStart, turnTimeMs := Some(tg.timer));
      if w.active >= 0 { snap := snap.(turnTeam := Some(w.active)); }
      var teams := CollectTeams(tg.root, w.active, w.machine, []);
      snap := snap.(teams := teams);
      if snap.turnTeam.Some? { snap := snap.(weapons := w.ammo); }
    }

    /** The search callback's loop over one matching team. */
    method SearchTeam(team: Tree) returns (found: Option<nat>)
      requires MappedTask(tasks, team)
      ensures found == Candidate(tasks, tasks[team.addr].currentWorm, Kids(team))
    {
      var current := tasks[team.addr].currentWorm;
      var firstActive: Option<nat> := None;
      for i := 0 to |team.children|
        invariant NonNull(team.children[..i]) <= Kids(team)
        invariant Exact(tasks, current, NonNull(team.children[..i])) == None
        invariant firstActive == FirstActive(tasks, NonNull(team.children[..i]))
      {
        NonNullStep(team.children, i);
        if team.children[i].Node? {
          var worm := team.children[i].addr;
          ghost var seen := NonNull(team.children[..i + 1]);
          LastKid(seen, Kids(team));
          assert seen[..|seen| - 1] == NonNull(team.children[..i]);
          if tasks[worm].wormNumber == current {
            ExactStays(tasks, current, seen, Kids(team));
            return Some(worm);
          }
          assert Exact(tasks, current, seen) == None;
          if firstActive.None? && tasks[worm].active != 0 { firstActive := Some(worm); }
        }
      }
      assert team.children[..|team.children|] == team.children;
      found := firstActive;
    }

    /** The traversal with the search callback, whose captured result is `found`. */
    method Search(t: Tree, active: int, found: Option<nat>) returns (r: Option<nat>)
      requires t.Node? && Mapped(tasks, Preorder(t))
      ensures r == VisitedAll(tasks, active, found, Preorder(t))
      decreases t
    {
      r := found;
      assert Preorder(t)[0] == t;
      if r.None? && IsTeam(tasks, t) && tasks[t.addr].teamNumber == active {
        r := SearchTeam(t);
      }
      ghost var own := r;
      SingleVisit(tasks, active, found, t);
      for i := 0 to |t.children|
        invariant PreorderAll(t.children[..i]) <= PreorderAll(t.children)
        invariant Mapped(tasks, PreorderAll(t.children[..i]))
        invariant r == VisitedAll(tasks, active, own, PreorderAll(t.children[..i]))
      {
        PreorderStep(t.children, i);
        ghost var sub := Preorder(t.children[i]);
        MappedPart(tasks, t, PreorderAll(t.children[..i]), sub);
        VisitedAppend(tasks, active, own, PreorderAll(t.children[..i]), sub);
        if t.children[i].Node? {
          r := Search(t.children[i], active, r);
        }
      }
      assert t.children[..|t.children|] == t.children;
      VisitedAppend(tasks, active, found, [t], PreorderAll(t.children));
    }

    method FindActiveTurnWorm(w: World) returns (worm: Option<nat>)
      requires Readable(tasks, w)
      ensures worm == TurnWorm(tasks, w)
    {
      if w.active < 0 { return None; }
      if w.turnGame.None? { return None; }
      worm := Search(w.turnGame.value.root, w.active, None);
    }

    /** Writes the weapon of the worm whose turn it is; `chosen` says whether a SelectWeapon input
        is then dispatched. */
    method ApplyWeapon(w: World, id: int) returns (chosen: bool)
      requires Readable(tasks, w)
      modifies this
      ensures chosen == WeaponTarget(old(tasks), w, id).Some?
      ensures chosen ==>
                var a := WeaponTarget(old(tasks), w, id).value;
                a in old(tasks) &&
                tasks == old(tasks)[a := Armed(old(tasks)[a], w.global.value.weaponTable, id)]
      ensures !chosen ==> tasks == old(tasks)
    {
      if id < 1 || id > 70 { return false; }
      if w.global.None? { return false; }
      var table := w.global.value.weaponTable;
      if table == 0 { return false; }
      var worm := FindActiveTurnWorm(w);
      if worm.None? { return false; }
      TurnWormMapped(tasks, w);
      var t := tasks[worm.value];
      tasks := tasks[worm.value := t.(weapon := id, entryPtr := Wrap32((table + 464 * id) % WORD))];
      assert Wrap32((table + 464 * id) % WORD) == EntryPtr(table, id);
      return true;
    }
  }

  // ---------------------------------------------------------------- loop steps

  lemma Joined<T>(s: seq<T>, a: seq<T>, b: seq<T>)
    ensures s + a + b == s + (a + b)
  {
  }

  lemma NonNullStep(cs: seq<Tree>, i: nat)
    requires i < |cs|
    ensures NonNull(cs[..i + 1]) ==
            if cs[i].Node? then NonNull(cs[..i]) + [cs[i]] else NonNull(cs[..i])
    ensures NonNull(cs[..i + 1]) <= NonNull(cs)
  {
    assert cs[..i + 1][..i] == cs[..i];
    NonNullPrefix(cs, i + 1);
  }

  lemma LastKid(some: seq<Tree>, kids: seq<Tree>)
    requires some <= kids && some != []
    ensures some[|some| - 1] in kids
  {
    assert some[|some| - 1] == kids[|some| - 1];
  }

  lemma {:induction false} NonNullPrefix(cs: seq<Tree>, i: nat)
    requires i <= |cs|
    ensures NonNull(cs[..i]) <= NonNull(cs)
    decreases |cs|
  {
    if i < |cs| {
      NonNullPrefix(cs[..|cs| - 1], i);
      assert cs[..|cs| - 1][..i] == cs[..i];
    } else {
      assert cs[..i] == cs;
    }
  }

  lemma PreorderStep(cs: seq<Tree>, i: nat)
    requires i < |cs|
    ensures PreorderAll(cs[..i + 1]) ==
            PreorderAll(cs[..i]) + Preorder(cs[i])
    ensures PreorderAll(cs[..i + 1]) <= PreorderAll(cs)
  {
    assert cs[..i + 1][..i] == cs[..i];
    PreorderPrefix(cs, i + 1);
  }

  lemma {:induction false} PreorderPrefix(cs: seq<Tree>, i: nat)
    requires i <= |cs|
    ensures PreorderAll(cs[..i]) <= PreorderAll(cs)
    decreases |cs|
  {
    if i < |cs| {
      PreorderPrefix(cs[..|cs| - 1], i);
      assert cs[..|cs| - 1][..i] == cs[..i];
    } else {
      assert cs[..i] == cs;
    }
  }

  lemma MappedPart(mem: Memory, t: Tree, a: seq<Tree>, sub: seq<Tree>)
    requires t.Node? && Mapped(mem, Preorder(t)) && a + sub <= PreorderAll(t.children)
    ensures Mapped(mem, a) && Mapped(mem, sub)
  {
    var all := Preorder(t);
    forall i | 0 <= i < |a| ensures MappedTask(mem, a[i]) {
      assert a[i] == (a + sub)[i] == all[i + 1];
    }
    forall i | 0 <= i < |sub| ensures MappedTask(mem, sub[i]) {
      assert sub[i] == (a + sub)[|a| + i] == all[|a| + i + 1];
    }
  }

  lemma SingleTeam(mem: Memory, t: Tree, active: int, machine: Option<int>)
    requires MappedTask(mem, t)
    ensures TeamViews(mem, [t], active, machine) ==
            if IsTeam(mem, t) then [TeamView(mem, t, active, machine)] else []
  {
    assert [t][..0] == [];
  }

  lemma SingleVisit(mem: Memory, active: int, found: Option<nat>, t: Tree)
    requires MappedTask(mem, t)
    ensures VisitedAll(mem, active, found, [t]) == Visited(mem, active, found, t)
  {
    assert [t][..0] == [];
  }

  lemma {:induction false} ExactStays(mem: Memory, current: int, some: seq<Tree>, all: seq<Tree>)
    requires MappedKids(mem, all)
    requires some <= all && Exact(mem, current, some).Some?
    ensures Exact(mem, current, all) == Exact(mem, current, some)
    decreases |all|
  {
    if |some| < |all| {
      ExactStays(mem, current, some, all[..|all| - 1]);
    } else {
      assert some == all;
    }
  }

  // ---------------------------------------------------------------- search and snapshot agree

  function Teams(mem: Memory, nodes: seq<Tree>): seq<Tree>
    requires Mapped(mem, nodes)
  {
    if nodes == [] then []
    else
      var last := nodes[|nodes| - 1];
      Teams(mem, nodes[..|nodes| - 1]) + if IsTeam(mem, last) then [last] else []
  }

  lemma {:induction false} ViewsOfTeams(mem: Memory, nodes: seq<Tree>, active: int, machine: Option<int>)
    requires Mapped(mem, nodes)
    ensures Mapped(mem, Teams(mem, nodes))
    ensures |TeamViews(mem, nodes, active, machine)| == |Teams(mem, nodes)|
    ensures forall i | 0 <= i < |Teams(mem, nodes)| ::
              TeamViews(mem, nodes, active, machine)[i] ==
              TeamView(mem, Teams(mem, nodes)[i], active, machine)
  {
    if nodes != [] { ViewsOfTeams(mem, nodes[..|nodes| - 1], active, machine); }
  }

  /** Worm `j` is the team's choice: the first numbered `current_worm`, or, when none is, the first
      active one. */
  predicate IsChoice(t: TeamSnapshot, j: nat) {
    && j < |t.worms|
    && if t.worms[j].worm == t.currentWorm
       then forall k | 0 <= k < j :: t.worms[k].worm != t.currentWorm
       else && (forall k | 0 <= k < |t.worms| :: t.worms[k].worm != t.currentWorm)
            && t.worms[j].active
            && (forall k | 0 <= k < j :: !t.worms[k].active)
  }

  /** Worm `j` of team `i` is the choice of the first turn-holder team that has one. */
  ghost predicate IsPick(teams: seq<TeamSnapshot>, i: nat, j: nat) {
    && i < |teams|
    && teams[i].isTurnHolder && IsChoice(teams[i], j)
    && forall k | 0 <= k < i :: !teams[k].isTurnHolder || !exists m: nat :: IsChoice(teams[k], m)
  }

  predicate ExactAt(mem: Memory, current: int, kids: seq<Tree>, j: nat)
    requires MappedKids(mem, kids)
  {
    && j < |kids| && mem[kids[j].addr].wormNumber == current
    && forall k | 0 <= k < j :: mem[kids[k].addr].wormNumber != current
  }

  predicate ActiveAt(mem: Memory, kids: seq<Tree>, j: nat)
    requires MappedKids(mem, kids)
  {
    && j < |kids| && mem[kids[j].addr].active != 0
    && forall k | 0 <= k < j :: mem[kids[k].addr].active == 0
  }

  lemma {:induction false} ExactMeaning(mem: Memory, current: int, kids: seq<Tree>)
    requires MappedKids(mem, kids)
    ensures Exact(mem, current, kids).None? ==>
              forall k | 0 <= k < |kids| :: mem[kids[k].addr].wormNumber != current
    ensures Exact(mem, current, kids).Some? ==>
              exists j: nat :: ExactAt(mem, current, kids, j) && Exact(mem, current, kids) == Some(kids[j].addr)
  {
    if kids != [] {
      var before := kids[..|kids| - 1];
      ExactMeaning(mem, current, before);
      if Exact(mem, current, before).Some? {
        var j: nat :| ExactAt(mem, current, before, j) && Exact(mem, current, before) == Some(before[j].addr);
        assert ExactAt(mem, current, kids, j);
      } else if Exact(mem, current, kids).Some? {
        assert ExactAt(mem, current, kids, |kids| - 1);
      }
    }
  }

  lemma {:induction false} ActiveMeaning(mem: Memory, kids: seq<Tree>)
    requires MappedKids(mem, kids)
    ensures FirstActive(mem, kids).None? ==>
              forall k | 0 <= k < |kids| :: mem[kids[k].addr].active == 0
    ensures FirstActive(mem, kids).Some? ==>
              exists j: nat :: ActiveAt(mem, kids, j) && FirstActive(mem, kids) == Some(kids[j].addr)
  {
    if kids != [] {
      var before := kids[..|kids| - 1];
      ActiveMeaning(mem, before);
      if FirstActive(mem, before).Some? {
        var j: nat :| ActiveAt(mem, before, j) && FirstActive(mem, before) == Some(before[j].addr);
        assert ActiveAt(mem, kids, j);
      } else if FirstActive(mem, kids).Some? {
        assert ActiveAt(mem, kids, |kids| - 1);
      }
    }
  }

  /** A team's candidate in memory is the choice in its view. */
  lemma CandidateIsChoice(mem: Memory, t: Tree, active: int, machine: Option<int>)
    requires MappedTask(mem, t)
    ensures var c, view := Candidate(mem, mem[t.addr].currentWorm, Kids(t)), TeamView(mem, t, active, machine);
            && (c.Some? ==> exists j: nat :: IsChoice(view, j) && c == Some(Kids(t)[j].addr))
            && (c.None? ==> !exists j: nat :: IsChoice(view, j))
  {
    var current, kids, view := mem[t.addr].currentWorm, Kids(t), TeamView(mem, t, active, machine);
    ExactMeaning(mem, current, kids);
    ActiveMeaning(mem, kids);
    assert forall k | 0 <= k < |kids| :: view.worms[k] == WormView(mem[kids[k].addr]);
    if Exact(mem, current, kids).Some? {
      var j: nat :| ExactAt(mem, current, kids, j) && Exact(mem, current, kids) == Some(kids[j].addr);
      assert IsChoice(view, j);
    } else if FirstActive(mem, kids).Some? {
      var j: nat :| ActiveAt(mem, kids, j) && FirstActive(mem, kids) == Some(kids[j].addr);
      assert IsChoice(view, j);
    }
  }

  /** Worm `j` of team `i` is the task at `a`. */
  predicate WormAt(teams: seq<Tree>, i: nat, j: nat, a: nat) {
    i < |teams| && j < |Kids(teams[i])| && Kids(teams[i])[j].Node? && Kids(teams[i])[j].addr == a
  }

  /** What was found is the worm that a search of the snapshot's list picks. */
  ghost predicate Agree(found: Option<nat>, views: seq<TeamSnapshot>, teams: seq<Tree>) {
    if found.None? then !exists i: nat, j: nat :: IsPick(views, i, j)
    else exists i: nat, j: nat :: IsPick(views, i, j) && WormAt(teams, i, j, found.value)
  }

  ghost predicate Agrees(mem: Memory, nodes: seq<Tree>, active: int, machine: Option<int>)
    requires Mapped(mem, nodes)
  {
    Agree(VisitedAll(mem, active, None, nodes), TeamViews(mem, nodes, active, machine), Teams(mem, nodes))
  }

  lemma AgreeLater(found: nat, views: seq<TeamSnapshot>, teams: seq<Tree>, views': seq<TeamSnapshot>,
                   teams': seq<Tree>)
    requires Agree(Some(found), views, teams) && views <= views' && teams <= teams'
    ensures Agree(Some(found), views', teams')
  {
    var i: nat, j: nat :| IsPick(views, i, j) && WormAt(teams, i, j, found);
    assert IsPick(views', i, j) && WormAt(teams', i, j, found);
  }

  lemma AgreeNow(views: seq<TeamSnapshot>, teams: seq<Tree>, view: TeamSnapshot, t: Tree, j: nat)
    requires Agree(None, views, teams) && |views| == |teams|
    requires view.isTurnHolder && IsChoice(view, j) && j < |Kids(t)| && Kids(t)[j].Node?
    ensures Agree(Some(Kids(t)[j].addr), views + [view], teams + [t])
  {
    NoPickBefore(views);
    assert IsPick(views + [view], |views|, j);
    assert WormAt(teams + [t], |views|, j, Kids(t)[j].addr);
  }

  /** Team `i` is a turn-holder with a choice, so the first such team has a pick. */
  lemma {:induction false} FirstChoice(teams: seq<TeamSnapshot>, i: nat)
    requires i < |teams| && teams[i].isTurnHolder && exists j: nat :: IsChoice(teams[i], j)
    ensures exists k: nat, m: nat :: IsPick(teams, k, m)
  {
    if k: nat :| k < i && teams[k].isTurnHolder && exists m: nat :: IsChoice(teams[k], m) {
      FirstChoice(teams, k);
    } else {
      var j: nat :| IsChoice(teams[i], j);
      assert IsPick(teams, i, j);
    }
  }

  /** What one more node adds to the teams, their views and the search. */
  lemma NodeAdds(mem: Memory, before: seq<Tree>, last: Tree, active: int, machine: Option<int>)
    requires Mapped(mem, before) && MappedTask(mem, last)
    ensures var nodes := before + [last];
            && Mapped(mem, nodes)
            && TeamViews(mem, nodes, active, machine) == TeamViews(mem, before, active, machine) +
               (if IsTeam(mem, last) then [TeamView(mem, last, active, machine)] else [])
            && Teams(mem, nodes) == Teams(mem, before) + (if IsTeam(mem, last) then [last] else [])
            && VisitedAll(mem, active, None, nodes) ==
               Visited(mem, active, VisitedAll(mem, active, None, before), last)
  {
    assert (before + [last])[..|before|] == before;
  }

  lemma FoundLast(mem: Memory, before: seq<Tree>, last: Tree, active: int, machine: Option<int>)
    requires Mapped(mem, before) && MappedTask(mem, last) && Agrees(mem, before, active, machine) && active >= 0
    requires VisitedAll(mem, active, None, before).None? && Visited(mem, active, None, last).Some?
    ensures Mapped(mem, before + [last]) && Agrees(mem, before + [last], active, machine)
  {
    NodeAdds(mem, before, last, active, machine);
    ViewsOfTeams(mem, before, active, machine);
    CandidateIsChoice(mem, last, active, machine);
    var views, view := TeamViews(mem, before, active, machine), TeamView(mem, last, active, machine);
    var j: nat :| IsChoice(view, j) && Visited(mem, active, None, last) == Some(Kids(last)[j].addr);
    AgreeNow(views, Teams(mem, before), view, last, j);
  }

  lemma FoundNowhere(mem: Memory, before: seq<Tree>, last: Tree, active: int, machine: Option<int>)
    requires Mapped(mem, before) && MappedTask(mem, last) && Agrees(mem, before, active, machine) && active >= 0
    requires VisitedAll(mem, active, None, before).None? && Visited(mem, active, None, last).None?
    ensures Mapped(mem, before + [last]) && Agrees(mem, before + [last], active, machine)
  {
    NodeAdds(mem, before, last, active, machine);
    NoPickBefore(TeamViews(mem, before, active, machine));
    CandidateIsChoice(mem, last, active, machine);
    NoPickAfter(TeamViews(mem, before, active, machine), TeamViews(mem, before + [last], active, machine));
  }

  lemma {:induction false} SearchAgrees(mem: Memory, nodes: seq<Tree>, active: int, machine: Option<int>)
    requires Mapped(mem, nodes) && active >= 0
    ensures Agrees(mem, nodes, active, machine)
  {
    if nodes != [] {
      var before, last := nodes[..|nodes| - 1], nodes[|nodes| - 1];
      SearchAgrees(mem, before, active, machine);
      assert before + [last] == nodes;
      if VisitedAll(mem, active, None, before).Some? {
        NodeAdds(mem, before, last, active, machine);
        AgreeLater(VisitedAll(mem, active, None, before).value,
                   TeamViews(mem, before, active, machine), Teams(mem, before),
                   TeamViews(mem, nodes, active, machine), Teams(mem, nodes));
      } else if Visited(mem, active, None, last).Some? {
        FoundLast(mem, before, last, active, machine);
      } else {
        FoundNowhere(mem, before, last, active, machine);
      }
    }
  }

  lemma NoPickBefore(teams: seq<TeamSnapshot>)
    requires !exists i: nat, j: nat :: IsPick(teams, i, j)
    ensures forall k | 0 <= k < |teams| :: !teams[k].isTurnHolder || !exists m: nat :: IsChoice(teams[k], m)
  {
    forall k | 0 <= k < |teams|
      ensures !teams[k].isTurnHolder || !exists m: nat :: IsChoice(teams[k], m)
    {
      if teams[k].isTurnHolder && exists m: nat :: IsChoice(teams[k], m) { FirstChoice(teams, k); }
    }
  }

  lemma NoPickAfter(teams: seq<TeamSnapshot>, more: seq<TeamSnapshot>)
    requires teams <= more <= teams + more[|teams|..] && |more| <= |teams| + 1
    requires forall k | 0 <= k < |more| :: !more[k].isTurnHolder || !exists m: nat :: IsChoice(more[k], m)
    ensures !exists i: nat, j: nat :: IsPick(more, i, j)
  {
  }

  /** Worm `j` of the snapshot's team `i` is the task at `a`. */
  predicate Locates(mem: Memory, w: World, i: nat, j: nat, a: nat)
    requires Readable(mem, w)
  {
    && w.turnGame.Some?
    && WormAt(Teams(mem, Preorder(w.turnGame.value.root)), i, j, a)
  }

  /** What was found is what a search of the snapshot's list picks. */
  ghost predicate IsSnapshotPick(mem: Memory, w: World, found: Option<nat>)
    requires Readable(mem, w)
  {
    var teams := Snapshot(mem, w).teams;
    if found.None? then !exists i: nat, j: nat :: IsPick(teams, i, j)
    else exists i: nat, j: nat :: IsPick(teams, i, j) && Locates(mem, w, i, j, found.value)
  }

  /** For every finite task tree and tracked team, the search returns the worm that a search of the
      rebuilt snapshot picks, and nothing exactly when that has none. The one exception: without the
      game's globals the snapshot is empty, and the search, which does not look at them, may find one. */
  lemma TurnWormIsPick(mem: Memory, w: World)
    requires Readable(mem, w)
    ensures IsSnapshotPick(mem, w, TurnWorm(mem, w)) <==> w.global.Some? || TurnWorm(mem, w).None?
  {
    if w.turnGame.Some? && w.global.Some? {
      var nodes := Preorder(w.turnGame.value.root);
      ViewsOfTeams(mem, nodes, w.active, w.machine);
      if w.active >= 0 {
        SearchAgrees(mem, nodes, w.active, w.machine);
        var found := VisitedAll(mem, w.active, None, nodes);
        var views, teams := TeamViews(mem, nodes, w.active, w.machine), Teams(mem, nodes);
        if found.Some? {
          var i: nat, j: nat :| IsPick(views, i, j) && WormAt(teams, i, j, found.value);
          assert Locates(mem, w, i, j, found.value);
        }
      }
    }
  }

  lemma TurnWormMapped(mem: Memory, w: World)
    requires Readable(mem, w)
    ensures TurnWorm(mem, w).Some? ==> TurnWorm(mem, w).value in mem
  {
    if TurnWorm(mem, w).Some? {
      var nodes := Preorder(w.turnGame.value.root);
      SearchAgrees(mem, nodes, w.active, w.machine);
      ViewsOfTeams(mem, nodes, w.active, w.machine);
    }
  }

  // ---------------------------------------------------------------- the weapon write's frame

  /** No task is a worm of two teams, or twice of one. */
  predicate OneParent(teams: seq<Tree>) {
    forall p, q, i, j | 0 <= p < |teams| && 0 <= q < |teams| &&
        0 <= i < |Kids(teams[p])| && 0 <= j < |Kids(teams[q])|
        && Kids(teams[p])[i].Node? && Kids(teams[q])[j].Node? ::
      Kids(teams[p])[i].addr == Kids(teams[q])[j].addr ==> p == q && i == j
  }

  function WithWeapon(teams: seq<TeamSnapshot>, i: nat, j: nat, id: int): seq<TeamSnapshot>
    requires i < |teams| && j < |teams[i].worms|
  {
    teams[i := teams[i].(worms := teams[i].worms[j := teams[i].worms[j].(weapon := id)])]
  }

  lemma {:induction false} TeamsUnchanged(mem: Memory, mem': Memory, nodes: seq<Tree>)
    requires Mapped(mem, nodes) && Mapped(mem', nodes)
    requires forall a | a in mem && a in mem' :: mem'[a].classType == mem[a].classType
    ensures Teams(mem', nodes) == Teams(mem, nodes)
  {
    if nodes != [] { TeamsUnchanged(mem, mem', nodes[..|nodes| - 1]); }
  }

  lemma ViewAfterWrite(mem: Memory, t: Tree, a: nat, table: nat, id: int, active: int, machine: Option<int>)
    requires MappedTask(mem, t) && a in mem
    ensures var mem' := mem[a := Armed(mem[a], table, id)];
            && MappedTask(mem', t)
            && TeamView(mem', t, active, machine).(worms := []) ==
               TeamView(mem, t, active, machine).(worms := [])
            && forall k | 0 <= k < |Kids(t)| ::
                 TeamView(mem', t, active, machine).worms[k] ==
                 var worm := TeamView(mem, t, active, machine).worms[k];
                 if Kids(t)[k].addr == a then worm.(weapon := id) else worm
  {
  }

  /** `after` is `before` with weapon `id` on the worms whose task is `a`, and nowhere else. */
  predicate WeaponShown(teams: seq<Tree>, before: seq<TeamSnapshot>, after: seq<TeamSnapshot>, a: nat, id: int) {
    && |teams| == |before| == |after|
    && forall k | 0 <= k < |teams| ::
         && after[k].(worms := []) == before[k].(worms := [])
         && |Kids(teams[k])| == |before[k].worms| == |after[k].worms|
         && forall m | 0 <= m < |Kids(teams[k])| ::
              var kid := Kids(teams[k])[m];
              after[k].worms[m] ==
              if kid.Node? && kid.addr == a then before[k].worms[m].(weapon := id) else before[k].worms[m]
  }

  /** The memory after a weapon choice that finds its target. */
  function ArmedAt(mem: Memory, w: World, id: int): Memory
    requires Readable(mem, w) && WeaponTarget(mem, w, id).Some?
  {
    TurnWormMapped(mem, w);
    var a := WeaponTarget(mem, w, id).value;
    mem[a := Armed(mem[a], w.global.value.weaponTable, id)]
  }

  /** Choosing a weapon changes the rebuilt snapshot only in the weapon field of the task whose turn
      it is, wherever that task is listed as a worm. */
  lemma WeaponWriteShows(mem: Memory, w: World, id: int)
    requires Readable(mem, w) && WeaponTarget(mem, w, id).Some?
    ensures Readable(ArmedAt(mem, w, id), w)
    ensures var before, after := Snapshot(mem, w), Snapshot(ArmedAt(mem, w, id), w);
            && after.(teams := []) == before.(teams := [])
            && WeaponShown(Teams(mem, Preorder(w.turnGame.value.root)), before.teams, after.teams,
                           WeaponTarget(mem, w, id).value, id)
  {
    TurnWormMapped(mem, w);
    ViewsAfterWrite(mem, Preorder(w.turnGame.value.root), WeaponTarget(mem, w, id).value,
                    w.global.value.weaponTable, id, w.active, w.machine);
  }

  lemma ViewsAfterWrite(mem: Memory, nodes: seq<Tree>, a: nat, table: nat, id: int, active: int,
                        machine: Option<int>)
    requires Mapped(mem, nodes) && a in mem
    ensures var mem' := mem[a := Armed(mem[a], table, id)];
            && Mapped(mem', nodes)
            && WeaponShown(Teams(mem, nodes), TeamViews(mem, nodes, active, machine),
                           TeamViews(mem', nodes, active, machine), a, id)
  {
    var mem' := mem[a := Armed(mem[a], table, id)];
    TeamsUnchanged(mem, mem', nodes);
    ViewsOfTeams(mem, nodes, active, machine);
    ViewsOfTeams(mem', nodes, active, machine);
    var teams := Teams(mem, nodes);
    forall k | 0 <= k < |teams| { ViewAfterWrite(mem, teams[k], a, table, id, active, machine); }
  }

  /** A tree lists each task once, so the change is the weapon field of the one worm a search of the
      snapshot picks. */
  lemma WeaponWriteFrame(mem: Memory, w: World, id: int)
    requires Readable(mem, w) && WeaponTarget(mem, w, id).Some?
    requires OneParent(Teams(mem, Preorder(w.turnGame.value.root)))
    ensures Readable(ArmedAt(mem, w, id), w)
    ensures var before := Snapshot(mem, w);
            exists i: nat, j: nat :: IsPick(before.teams, i, j) &&
              Snapshot(ArmedAt(mem, w, id), w) == before.(teams := WithWeapon(before.teams, i, j, id))
  {
    WeaponWriteShows(mem, w, id);
    TurnWormIsPick(mem, w);
    var a, teams := WeaponTarget(mem, w, id).value, Teams(mem, Preorder(w.turnGame.value.root));
    var before, after := Snapshot(mem, w).teams, Snapshot(ArmedAt(mem, w, id), w).teams;
    var i: nat, j: nat :| IsPick(before, i, j) && Locates(mem, w, i, j, a);
    ShownOnce(teams, before, after, a, id, i, j);
  }

  lemma ShownOnce(teams: seq<Tree>, before: seq<TeamSnapshot>, after: seq<TeamSnapshot>, a: nat, id: int,
                  i: nat, j: nat)
    requires WeaponShown(teams, before, after, a, id) && OneParent(teams) && WormAt(teams, i, j, a)
    ensures i < |before| && j < |before[i].worms| && after == WithWeapon(before, i, j, id)
  {
    forall k | 0 <= k < |teams| ensures after[k] == WithWeapon(before, i, j, id)[k] {
      assert after[k].worms == WithWeapon(before, i, j, id)[k].worms;
    }
  }

  /** What a weapon choice writes: the id into the worm's weapon field, and into its entry pointer the
      table's address plus 464 times the id, modulo 2^32 and read as signed; nothing else anywhere. */
  lemma WeaponWriteFields(mem: Memory, w: World, id: int)
    requires Readable(mem, w) && WeaponTarget(mem, w, id).Some?
    ensures var a, mem', table := WeaponTarget(mem, w, id).value, ArmedAt(mem, w, id), w.global.value.weaponTable;
            && a in mem && mem'.Keys == mem.Keys
            && mem'[a].weapon == id
            && (mem'[a].entryPtr - (table + 464 * id)) % 0x1_0000_0000 == 0
            && -0x8000_0000 <= mem'[a].entryPtr < 0x8000_0000
            && mem'[a].(weapon := mem[a].weapon, entryPtr := mem[a].entryPtr) == mem[a]
            && forall b | b in mem && b != a :: mem'[b] == mem[b]
  {
    TurnWormMapped(mem, w);
    EntryPtrMeaning(w.global.value.weaponTable, id);
  }

  /** It finds its target for an id from 1 to 70 when the game's globals, a weapon table and a worm
      whose turn it is are there, and then the target is that worm. */
  lemma WeaponTargetExactly(mem: Memory, w: World, id: int)
    requires Readable(mem, w)
    ensures var found := 1 <= id <= 70 && w.global.Some? && w.global.value.weaponTable != 0 &&
                         w.active >= 0 && w.turnGame.Some? && TurnWorm(mem, w).Some?;
            WeaponTarget(mem, w, id) == if found then TurnWorm(mem, w) else None
  {
  }

  /** The entry pointer is the table's entry for the weapon, modulo 2^32. */
  lemma EntryPtrMeaning(table: nat, id: int)
    ensures (EntryPtr(table, id) - (table + WEAPON_ENTRY * id)) % WORD == 0
    ensures -0x8000_0000 <= EntryPtr(table, id) < 0x8000_0000
  {
  }

  // ---------------------------------------------------------------- what is visited

  /** The subtree reached from `t` by child numbers. */
  function Reach(t: Tree, path: seq<nat>): Option<Tree>
    decreases |path|
  {
    if path == [] then Some(t)
    else if t.Node? && path[0] < |t.children| then Reach(t.children[path[0]], path[1..])
    else None
  }

  lemma {:induction false} PreorderAppend(a: seq<Tree>, b: seq<Tree>)
    ensures PreorderAll(a + b) == PreorderAll(a) + PreorderAll(b)
    decreases |b|
  {
    if b == [] {
      assert a + b == a;
    } else {
      assert (a + b)[..|a + b| - 1] == a + b[..|b| - 1];
      PreorderAppend(a, b[..|b| - 1]);
    }
  }

  lemma PreorderOne(t: Tree)
    ensures PreorderAll([t]) == Preorder(t)
  {
    assert [t][..0] == [];
  }

  /** The order of a visit: the task, the subtrees of its earlier children, child `i`'s, the later ones'. */
  lemma VisitOrder(t: Tree, i: nat)
    requires t.Node? && i < |t.children|
    ensures Preorder(t) == [t] + PreorderAll(t.children[..i]) + Preorder(t.children[i]) +
                           PreorderAll(t.children[i + 1..])
    ensures t.children == [] ==> Preorder(t) == [t]
  {
    var a, b, c := t.children[..i], [t.children[i]], t.children[i + 1..];
    assert t.children == a + b + c;
    PreorderAppend(a + b, c);
    PreorderAppend(a, b);
    PreorderOne(t.children[i]);
  }

  lemma {:induction false} ReachedIsVisited(t: Tree, path: seq<nat>)
    requires Reach(t, path).Some? && Reach(t, path).value.Node?
    ensures Reach(t, path).value in Preorder(t)
    decreases |path|
  {
    if path != [] {
      ReachedIsVisited(t.children[path[0]], path[1..]);
      VisitOrder(t, path[0]);
    }
  }

  lemma {:induction false} VisitedIsReached(t: Tree, n: Tree)
    requires n in Preorder(t)
    ensures n.Node? && exists path :: Reach(t, path) == Some(n)
    decreases t
  {
    if n == t {
      assert Reach(t, []) == Some(n);
    } else {
      var i := VisitedBelow(t.children, n);
      VisitedIsReached(t.children[i], n);
      var path :| Reach(t.children[i], path) == Some(n);
      assert ([i as nat] + path)[1..] == path;
      assert Reach(t, [i as nat] + path) == Some(n);
    }
  }

  lemma {:induction false} VisitedBelow(cs: seq<Tree>, n: Tree) returns (i: nat)
    requires n in PreorderAll(cs)
    ensures i < |cs| && n in Preorder(cs[i])
    decreases |cs|
  {
    i := |cs| - 1;
    if n !in Preorder(cs[i]) { i := VisitedBelow(cs[..i], n); }
  }

  /** A traversal visits exactly the tasks of the tree. */
  lemma VisitsExactly(t: Tree, n: Tree)
    ensures n in Preorder(t) <==> n.Node? && exists path :: Reach(t, path) == Some(n)
  {
    if n in Preorder(t) { VisitedIsReached(t, n); }
    if n.Node? && exists path :: Reach(t, path) == Some(n) {
      var path :| Reach(t, path) == Some(n);
      ReachedIsVisited(t, path);
    }
  }

  /** `kept` is what `all` has where `keep` holds: in the same order, each as often. */
  ghost predicate Keeps(kept: seq<Tree>, all: seq<Tree>, keep: Tree -> bool) {
    IsPartOf(kept, all) && forall t :: multiset(kept)[t] == if keep(t) then multiset(all)[t] else 0
  }

  lemma KeepsMore(kept: seq<Tree>, all: seq<Tree>, keep: Tree -> bool, last: Tree)
    requires Keeps(kept, all, keep)
    ensures Keeps(if keep(last) then kept + [last] else kept, all + [last], keep)
  {
    PartGrows(kept, all, last);
  }

  lemma {:induction false} NonNullKeeps(cs: seq<Tree>)
    ensures Keeps(NonNull(cs), cs, (t: Tree) => t.Node?)
  {
    if cs != [] {
      var before := cs[..|cs| - 1];
      NonNullKeeps(before);
      assert before + [cs[|cs| - 1]] == cs && NonNull(before) + [] == NonNull(before);
      KeepsMore(NonNull(before), before, (t: Tree) => t.Node?, cs[|cs| - 1]);
    }
  }

  /** A task's worms are its children, null ones left out. */
  lemma KidsExactly(t: Tree)
    requires t.Node?
    ensures Keeps(Kids(t), t.children, (c: Tree) => c.Node?)
  {
    NonNullKeeps(t.children);
  }

  function TeamTasks(mem: Memory): Tree -> bool {
    (t: Tree) => t.Node? && t.addr in mem && mem[t.addr].classType == 10
  }

  /** The snapshot's teams are the visited tasks of class Team (10). */
  lemma {:induction false} TeamsExactly(mem: Memory, nodes: seq<Tree>)
    requires Mapped(mem, nodes)
    ensures Keeps(Teams(mem, nodes), nodes, TeamTasks(mem))
  {
    if nodes != [] {
      var before, last := nodes[..|nodes| - 1], nodes[|nodes| - 1];
      TeamsExactly(mem, before);
      assert before + [last] == nodes && Teams(mem, before) + [] == Teams(mem, before);
      KeepsMore(Teams(mem, before), before, TeamTasks(mem), last);
    }
  }

  // ---------------------------------------------------------------- what the snapshot shows

  /** The team tasks a snapshot lists. */
  function ShownTeams(mem: Memory, w: World): seq<Tree>
    requires Readable(mem, w)
  {
    if w.global.Some? && w.turnGame.Some? then Teams(mem, Preorder(w.turnGame.value.root)) else []
  }

  /** Every field of a listed team is that of its task ... */
  lemma SnapshotShowsTeam(mem: Memory, w: World, i: nat)
    requires Readable(mem, w) && i < |ShownTeams(mem, w)|
    ensures |Snapshot(mem, w).teams| == |ShownTeams(mem, w)| && ShownTeams(mem, w)[i].Node?
    ensures ShownTeams(mem, w)[i].addr in mem
    ensures var team, task := Snapshot(mem, w).teams[i], mem[ShownTeams(mem, w)[i].addr];
            && team.teamNumber == task.teamNumber && team.owner == task.owner
            && team.currentWorm == task.currentWorm
            && (team.isTurnHolder <==> w.active >= 0 && task.teamNumber == w.active)
            && (team.isLocal <==> w.machine.None? || task.owner == w.machine.value)
            && |team.worms| == |Kids(ShownTeams(mem, w)[i])|
  {
    ViewsOfTeams(mem, Preorder(w.turnGame.value.root), w.active, w.machine);
    assert MappedTask(mem, ShownTeams(mem, w)[i]);
  }

  /** ... and every field of a listed worm that of the child's. */
  lemma SnapshotShowsWorm(mem: Memory, w: World, i: nat, j: nat)
    requires Readable(mem, w) && i < |ShownTeams(mem, w)| && j < |Kids(ShownTeams(mem, w)[i])|
    ensures var kid := Kids(ShownTeams(mem, w)[i])[j]; kid.Node? && kid.addr in mem
    ensures i < |Snapshot(mem, w).teams| && j < |Snapshot(mem, w).teams[i].worms|
    ensures var worm, task := Snapshot(mem, w).teams[i].worms[j], mem[Kids(ShownTeams(mem, w)[i])[j].addr];
            && worm.team == task.wormTeam && worm.worm == task.wormNumber
            && (worm.active <==> task.active != 0)
            && worm.posX == task.posX && worm.posY == task.posY
            && worm.weapon == task.weapon && worm.facing == task.facing
  {
    SnapshotShowsTeam(mem, w, i);
    ViewsOfTeams(mem, Preorder(w.turnGame.value.root), w.active, w.machine);
    assert MappedTask(mem, ShownTeams(mem, w)[i]);
  }

  /** The rest of the snapshot, field by field. */
  lemma SnapshotShowsGame(mem: Memory, w: World)
    requires Readable(mem, w)
    ensures var s, playing := Snapshot(mem, w), w.global.Some? && w.turnGame.Some?;
            && s.gameId == w.gameId && (s.roundActive <==> w.global.Some?)
            && s.currentMachine == (if w.global.Some? then w.global.value.currentMachine else -1)
            && s.round == (if playing then w.global.value.round else 0)
            && s.numTeams == (if playing then w.turnGame.value.numTeams else 0)
            && (s.beforeRoundStart <==> playing && w.turnGame.value.beforeRoundStart)
            && s.turnTimeMs == (if playing then Some(w.turnGame.value.timer) else None)
            && s.turnTeam == (if playing && w.active >= 0 then Some(w.active) else None)
            && s.weapons == (if s.turnTeam.Some? then w.ammo else [])
            && |s.teams| == |ShownTeams(mem, w)|
  {
    if w.global.Some? && w.turnGame.Some? {
      ViewsOfTeams(mem, Preorder(w.turnGame.value.root), w.active, w.machine);
    }
  }
}
