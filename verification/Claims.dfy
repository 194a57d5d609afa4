/** Concurrent claim requests, admin removals and new-game detection over one store. A claim request
    reads the snapshot, then looks its user up, then inserts; other steps may fall in between. */
module Claims {
  import opened Wrappers
  import opened Store
  import opened Broadcaster

  datatype Snap = Snap(gameId: int, turnTeam: Option<int>)

  datatype Response = Offline | AlreadyOwns(team: int) | NoTurn | TeamTaken(team: int) | Granted(team: int)

  /** POST /api/claim, run without interference. */
  method Claim(store: MappingStore, latest: Option<Snap>, email: string) returns (r: Response)
    requires TwoWayUnique(store.table)
    modifies store
    ensures TwoWayUnique(store.table)
    ensures r == ClaimResponse(old(store.table), latest, email)
    ensures store.table == if r.Granted? then old(store.table)[r.team := Lower(email)]
                           else old(store.table)
  {
    if latest.None? { return Offline; }
    var existing := store.TeamForEmail(email);
    if existing.Some? { return AlreadyOwns(existing.value); }
    if latest.value.turnTeam.None? { return NoTurn; }
    var team := latest.value.turnTeam.value;
    var ok := store.Claim(team, email);
    r := if ok then Granted(team) else TeamTaken(team);
  }

  ghost function ClaimResponse(t: Table, latest: Option<Snap>, email: string): Response {
    if latest.None? then Offline
    else if TeamFor(t, email).Some? then AlreadyOwns(TeamFor(t, email).value)
    else if latest.value.turnTeam.None? then NoTurn
    else if CanClaim(t, latest.value.turnTeam.value, email) then Granted(latest.value.turnTeam.value)
    else TeamTaken(latest.value.turnTeam.value)
  }

  /** Which answer each state gives, by what the store's lookups find, in the order they are made. */
  lemma ClaimAnswers(t: Table, latest: Option<Snap>, email: string, team: int)
    requires TwoWayUnique(t)
    ensures var r := ClaimResponse(t, latest, email);
            var free := forall other: int :: EmailFor(t, other) != Some(Lower(email));
            && (r == Offline <==> latest.None?)
            && (r == AlreadyOwns(team) <==> latest.Some? && EmailFor(t, team) == Some(Lower(email)))
            && (r == NoTurn <==> latest.Some? && free && latest.value.turnTeam.None?)
            && (r == TeamTaken(team) <==>
                  latest.Some? && free && latest.value.turnTeam == Some(team) && EmailFor(t, team).Some?)
            && (r == Granted(team) <==>
                  latest.Some? && free && latest.value.turnTeam == Some(team) && EmailFor(t, team).None?)
  {
    var found := TeamFor(t, email);
    if found.Some? { assert EmailFor(t, found.value) == Some(Lower(email)); }
    forall other: int | found.None? ensures EmailFor(t, other) != Some(Lower(email)) {}
  }

  // ---------------------------------------------------------------- interleaving

  /** A request under way, with the game whose snapshot it read. */
  datatype Request =
    | AtLookup(email: string, turn: Option<int>, game: int)
    | AtInsert(email: string, team: int, game: int)

  /** What happened to the table, in order. */
  datatype Entry =
    | Claimed(team: int, email: string, game: int)
    | Removed(team: int)
    | Cleared
    | NewGame(id: int)

  /** `sampled` is what the broadcaster's loop has read and not yet acted on. */
  datatype State = State(table: Table, latest: Option<Snap>, last: int, sampled: Option<Sample>,
                         requests: map<nat, Request>, log: seq<Entry>)

  datatype Step =
    | Publish(latest: Option<Snap>)         // the transport's snapshot changes
    | Begin(id: nat, email: string)         // a request reads the snapshot
    | Lookup(id: nat)                       // ... its user's team
    | Insert(id: nat)                       // ... and inserts
    | Delete(team: int)                     // admin: remove one mapping
    | ClearAll                              // admin: remove all
    | Sampled                               // the broadcaster's loop reads the snapshot
    | Detected                              // ... and clears the table if it shows a new game

  function Init(onDisk: Table): State { State(onDisk, None, 0, None, map[], []) }

  function SampleOf(s: State): Sample {
    if s.latest.None? then None else Some(s.latest.value.gameId)
  }

  function DoDetect(s: State, sample: Sample): State {
    var s1 := s.(sampled := None, last := if Counts(sample) then sample.value else s.last);
    if IsNewGame(s.last, sample) then s1.(table := map[], log := s.log + [NewGame(sample.value)]) else s1
  }

  ghost function Do(s: State, step: Step): State {
    match step
    case Publish(latest) => s.(latest := latest)
    case Begin(id, email) =>
      if id in s.requests || s.latest.None? then s
      else s.(requests := s.requests[id := AtLookup(email, s.latest.value.turnTeam, s.latest.value.gameId)])
    case Lookup(id) =>
      if id !in s.requests || !s.requests[id].AtLookup? then s
      else
        var r := s.requests[id];
        if TeamFor(s.table, r.email).Some? || r.turn.None? then s.(requests := s.requests - {id})
        else s.(requests := s.requests[id := AtInsert(r.email, r.turn.value, r.game)])
    case Insert(id) =>
      if id !in s.requests || !s.requests[id].AtInsert? then s
      else
        var r := s.requests[id];
        var s1 := s.(requests := s.requests - {id});
        if !CanClaim(s.table, r.team, r.email) then s1
        else s1.(table := s.table[r.team := Lower(r.email)],
                 log := s.log + [Claimed(r.team, Lower(r.email), r.game)])
    case Delete(team) => s.(table := s.table - {team}, log := s.log + [Removed(team)])
    case ClearAll => s.(table := map[], log := s.log + [Cleared])
    case Sampled => if s.sampled.Some? then s else s.(sampled := Some(SampleOf(s)))
    case Detected => if s.sampled.None? then s else DoDetect(s, s.sampled.value)
  }

  ghost function Run(onDisk: Table, steps: seq<Step>): State {
    if steps == [] then Init(onDisk)
    else Do(Run(onDisk, steps[..|steps| - 1]), steps[|steps| - 1])
  }

  /** The table the log describes. */
  function Replay(onDisk: Table, log: seq<Entry>): Table {
    if log == [] then onDisk
    else
      var t := Replay(onDisk, log[..|log| - 1]);
      match log[|log| - 1]
      case Claimed(team, email, _) => t[team := email]
      case Removed(team) => t - {team}
      case Cleared => map[]
      case NewGame(_) => map[]
  }

  /** A granted claim found neither its team nor its user mapped. */
  predicate GrantedFresh(onDisk: Table, log: seq<Entry>, k: nat)
    requires k < |log|
  {
    log[k].Claimed? ==>
      var t := Replay(onDisk, log[..k]);
      log[k].team !in t && forall a | a in t :: t[a] != log[k].email
  }

  ghost predicate Inv(onDisk: Table, s: State) {
    && TwoWayUnique(s.table)
    && s.table == Replay(onDisk, s.log)
    && forall k | 0 <= k < |s.log| :: GrantedFresh(onDisk, s.log, k)
  }

  lemma LogGrows(onDisk: Table, log: seq<Entry>, e: Entry)
    requires forall k | 0 <= k < |log| :: GrantedFresh(onDisk, log, k)
    requires GrantedFresh(onDisk, log + [e], |log|)
    ensures forall k | 0 <= k < |log| + 1 :: GrantedFresh(onDisk, log + [e], k)
  {
    forall k | 0 <= k < |log| ensures GrantedFresh(onDisk, log + [e], k) {
      assert (log + [e])[..k] == log[..k];
      assert GrantedFresh(onDisk, log, k);
    }
  }

  lemma ClaimLogged(onDisk: Table, log: seq<Entry>, team: int, email: string, game: int)
    requires forall k | 0 <= k < |log| :: GrantedFresh(onDisk, log, k)
    requires CanClaim(Replay(onDisk, log), team, email)
    ensures var log' := log + [Claimed(team, Lower(email), game)];
            && Replay(onDisk, log') == Inserted(Replay(onDisk, log), team, email)
            && forall k | 0 <= k < |log'| :: GrantedFresh(onDisk, log', k)
  {
    var e := Claimed(team, Lower(email), game);
    assert (log + [e])[..|log|] == log;
    LogGrows(onDisk, log, e);
  }

  lemma InsertStep(onDisk: Table, s: State, id: nat)
    requires Inv(onDisk, s) && id in s.requests && s.requests[id].AtInsert?
    ensures Inv(onDisk, Do(s, Insert(id)))
  {
    var r := s.requests[id];
    InsertKeepsUnique(s.table, r.team, r.email);
    if CanClaim(s.table, r.team, r.email) {
      ClaimLogged(onDisk, s.log, r.team, r.email, r.game);
      assert Do(s, Insert(id)).table == Inserted(s.table, r.team, r.email);
    }
  }

  /** A removal empties the table or takes one team out of it, and logs that. */
  lemma RemovalStep(onDisk: Table, s: State, t: State, e: Entry)
    requires Inv(onDisk, s) && t.log == s.log + [e] && !e.Claimed?
    requires t.table == if e.Removed? then s.table - {e.team} else map[]
    ensures Inv(onDisk, t)
  {
    assert t.log[..|s.log|] == s.log;
    LogGrows(onDisk, s.log, e);
  }

  lemma StepKeepsInv(onDisk: Table, s: State, step: Step)
    requires Inv(onDisk, s)
    ensures Inv(onDisk, Do(s, step))
  {
    match step
    case Insert(id) => if id in s.requests && s.requests[id].AtInsert? { InsertStep(onDisk, s, id); }
    case Delete(team) => RemovalStep(onDisk, s, Do(s, step), Removed(team));
    case ClearAll => RemovalStep(onDisk, s, Do(s, step), Cleared);
    case Detected =>
      if s.sampled.Some? && IsNewGame(s.last, s.sampled.value) {
        RemovalStep(onDisk, s, Do(s, step), NewGame(s.sampled.value.value));
      }
    case _ =>
  }

  /** For any interleaving, the mapping stays unique both ways, it is the one the log describes, and
      every success found neither key mapped at its insert. */
  lemma {:induction false} ClaimsUnderInterleaving(onDisk: Table, steps: seq<Step>)
    requires TwoWayUnique(onDisk)
    ensures Inv(onDisk, Run(onDisk, steps))
  {
    if steps != [] {
      ClaimsUnderInterleaving(onDisk, steps[..|steps| - 1]);
      StepKeepsInv(onDisk, Run(onDisk, steps[..|steps| - 1]), steps[|steps| - 1]);
    }
  }

  predicate Removes(e: Entry, team: int) {
    e.Cleared? || e.NewGame? || e == Removed(team)
  }

  lemma {:induction false} StaysMapped(onDisk: Table, log: seq<Entry>, i: nat, j: nat)
    requires i < j <= |log| && log[i].Claimed?
    requires forall k | 0 <= k < |log| :: GrantedFresh(onDisk, log, k)
    requires forall k | i < k < j :: !Removes(log[k], log[i].team)
    ensures var t := Replay(onDisk, log[..j]);
            log[i].team in t && t[log[i].team] == log[i].email
  {
    assert log[..j][..j - 1] == log[..j - 1];
    if i < j - 1 {
      StaysMapped(onDisk, log, i, j - 1);
      assert GrantedFresh(onDisk, log, j - 1);
    }
  }

  /** So between two successes for the same team, or for the same user, the first was removed. */
  lemma OneSuccessBetweenRemovals(onDisk: Table, steps: seq<Step>, i: nat, j: nat)
    requires TwoWayUnique(onDisk)
    requires var log := Run(onDisk, steps).log;
             i < j < |log| && log[i].Claimed? && log[j].Claimed? &&
             (log[i].team == log[j].team || log[i].email == log[j].email)
    ensures var log := Run(onDisk, steps).log;
            exists k | i < k < j :: Removes(log[k], log[i].team)
  {
    ClaimsUnderInterleaving(onDisk, steps);
    var log := Run(onDisk, steps).log;
    assert GrantedFresh(onDisk, log, j);
    if forall k | i < k < j :: !Removes(log[k], log[i].team) {
      StaysMapped(onDisk, log, i, j);
    }
  }

  /** The steps of one request, with nothing in between, do what the request does alone. */
  lemma StepsMatchClaim(s: State, id: nat, email: string)
    requires TwoWayUnique(s.table) && id !in s.requests
    ensures var t := Do(Do(Do(s, Begin(id, email)), Lookup(id)), Insert(id));
            var r := ClaimResponse(s.table, s.latest, email);
            && t.requests == s.requests
            && t.table == (if r.Granted? then s.table[r.team := Lower(email)] else s.table)
            && t.log == s.log + (if r.Granted? then [Claimed(r.team, Lower(email), s.latest.value.gameId)] else [])
  {
    var a := Do(s, Begin(id, email));
    var b := Do(a, Lookup(id));
    assert a.requests - {id} == s.requests;
    assert b.requests - {id} == s.requests;
  }

  /** Removals leave nothing behind in the lookups and touch nothing else. */
  lemma RemovalsRemove(s: State, team: int, other: int)
    ensures EmailFor(Do(s, Delete(team)).table, other) == if other == team then None else EmailFor(s.table, other)
    ensures EmailFor(Do(s, ClearAll).table, other) == None
    ensures EmailFor(Do(s, Detected).table, other) ==
            if s.sampled.Some? && IsNewGame(s.last, s.sampled.value) then None else EmailFor(s.table, other)
    ensures Do(s, Delete(team)).log == s.log + [Removed(team)] && Do(s, ClearAll).log == s.log + [Cleared]
  {
  }

  predicate Touches(e: Entry, team: int) { Removes(e, team) || (e.Claimed? && e.team == team) }

  /** Entry `k` claimed `team` for `email`, and nothing after it touched the team. */
  predicate LastPut(log: seq<Entry>, k: nat, team: int, email: string) {
    && k < |log| && log[k].Claimed? && log[k].team == team && log[k].email == email
    && forall j | k < j < |log| :: !Touches(log[j], team)
  }

  /** A mapping is in the table the log describes exactly when its claim is the last thing that happened
      to its team, or it was there at the start and nothing happened to it. */
  lemma {:induction false} TableIsLog(onDisk: Table, log: seq<Entry>, team: int, email: string)
    ensures EmailFor(Replay(onDisk, log), team) == Some(email) <==>
            || (exists k | 0 <= k < |log| :: LastPut(log, k, team, email))
            || (EmailFor(onDisk, team) == Some(email) && forall j | 0 <= j < |log| :: !Touches(log[j], team))
  {
    if log != [] {
      var before, last := log[..|log| - 1], log[|log| - 1];
      TableIsLog(onDisk, before, team, email);
      if Touches(last, team) {
        assert LastPut(log, |log| - 1, team, email) <==> last.Claimed? && last.email == email;
      } else {
        assert forall k | 0 <= k < |before| :: LastPut(before, k, team, email) <==> LastPut(log, k, team, email);
        assert (forall j | 0 <= j < |log| :: !Touches(log[j], team)) <==>
               (forall j | 0 <= j < |before| :: !Touches(before[j], team));
      }
    }
  }

  /** So over every run. */
  lemma TableIsHistory(onDisk: Table, steps: seq<Step>, team: int, email: string)
    requires TwoWayUnique(onDisk)
    ensures var s := Run(onDisk, steps);
            EmailFor(s.table, team) == Some(email) <==>
            || (exists k | 0 <= k < |s.log| :: LastPut(s.log, k, team, email))
            || (EmailFor(onDisk, team) == Some(email) && forall j | 0 <= j < |s.log| :: !Touches(s.log[j], team))
  {
    ClaimsUnderInterleaving(onDisk, steps);
    TableIsLog(onDisk, Run(onDisk, steps).log, team, email);
  }

  // ---------------------------------------------------------------- new games

  /** What the broadcaster's loop acted on. */
  ghost function Samples(onDisk: Table, steps: seq<Step>): seq<Sample> {
    if steps == [] then []
    else
      var before := steps[..|steps| - 1];
      Samples(onDisk, before) + ActedOn(Run(onDisk, before), steps[|steps| - 1])
  }

  function ActedOn(s: State, step: Step): seq<Sample> {
    if step.Detected? && s.sampled.Some? then [s.sampled.value] else []
  }

  function NewGames(log: seq<Entry>): nat {
    if log == [] then 0
    else NewGames(log[..|log| - 1]) + if log[|log| - 1].NewGame? then 1 else 0
  }

  lemma NewGamesMore(log: seq<Entry>, e: Entry)
    ensures NewGames(log + [e]) == NewGames(log) + if e.NewGame? then 1 else 0
  {
    assert (log + [e])[..|log|] == log;
  }

  /** A step that is not the detector's leaves its memory alone and logs no new game. */
  lemma OtherStep(s: State, step: Step)
    requires ActedOn(s, step) == []
    ensures var t := Do(s, step);
            t.last == s.last && (t.log == s.log || exists e :: t.log == s.log + [e] && !e.NewGame?)
  {
  }

  lemma DetectorStep(s: State, step: Step)
    ensures var d := Detector(s.last, NewGames(s.log));
            Detector(Do(s, step).last, NewGames(Do(s, step).log)) ==
            if ActedOn(s, step) == [] then d else Detect(d, ActedOn(s, step)[0])
  {
    if ActedOn(s, step) == [] {
      OtherStep(s, step);
      if e :| Do(s, step).log == s.log + [e] && !e.NewGame? { NewGamesMore(s.log, e); }
    } else if IsNewGame(s.last, s.sampled.value) {
      NewGamesMore(s.log, NewGame(s.sampled.value.value));
    }
  }

  lemma DetectMore(samples: seq<Sample>, more: seq<Sample>)
    requires |more| <= 1
    ensures DetectAll(samples + more) ==
            if more == [] then DetectAll(samples) else Detect(DetectAll(samples), more[0])
  {
    if more == [] {
      assert samples + more == samples;
    } else {
      assert (samples + more)[..|samples|] == samples;
    }
  }

  lemma {:induction false} DetectorRuns(onDisk: Table, steps: seq<Step>)
    ensures DetectAll(Samples(onDisk, steps)) ==
            Detector(Run(onDisk, steps).last, NewGames(Run(onDisk, steps).log))
  {
    if steps != [] {
      var before, step := steps[..|steps| - 1], steps[|steps| - 1];
      DetectorRuns(onDisk, before);
      DetectorStep(Run(onDisk, before), step);
      DetectMore(Samples(onDisk, before), ActedOn(Run(onDisk, before), step));
    }
  }

  /** Over any run the table is cleared for a new game exactly as often as adjacent ids differ among
      the samples, offline and zero ones dropped. */
  lemma NewGameClears(onDisk: Table, steps: seq<Step>)
    ensures NewGames(Run(onDisk, steps).log) == Changes(Ids(Samples(onDisk, steps)))
  {
    DetectorRuns(onDisk, steps);
    ClearsAreChanges(Samples(onDisk, steps));
  }

  /** Entry `k` is the claim that put `team`'s present mapping into the table. */
  predicate Puts(log: seq<Entry>, k: nat, team: int, email: string) {
    k < |log| && log[k].Claimed? && log[k].team == team && log[k].email == email
  }

  lemma {:induction false} MappedSince(onDisk: Table, log: seq<Entry>, g: nat, team: int)
    requires g < |log| && log[g].NewGame?
    requires team in Replay(onDisk, log)
    ensures exists k | g < k < |log| :: Puts(log, k, team, Replay(onDisk, log)[team])
  {
    var last, before := log[|log| - 1], log[..|log| - 1];
    if last.Claimed? && last.team == team {
      assert Puts(log, |log| - 1, team, Replay(onDisk, log)[team]);
    } else {
      assert g < |before|;
      MappedSince(onDisk, before, g, team);
      var k :| g < k < |before| && Puts(before, k, team, Replay(onDisk, before)[team]);
      assert Puts(log, k, team, Replay(onDisk, log)[team]);
    }
  }

  /** Every mapping present was inserted after the table was last cleared for a new game, if it was. */
  lemma MappingsSinceNewGame(onDisk: Table, steps: seq<Step>, g: nat, team: int)
    requires TwoWayUnique(onDisk)
    requires var s := Run(onDisk, steps); g < |s.log| && s.log[g].NewGame? && team in s.table
    ensures var s := Run(onDisk, steps); exists k | g < k < |s.log| :: Puts(s.log, k, team, s.table[team])
  {
    ClaimsUnderInterleaving(onDisk, steps);
    MappedSince(onDisk, Run(onDisk, steps).log, g, team);
  }

  // ---------------------------------------------------------------- which game a mapping is from

  ghost function At(onDisk: Table, steps: seq<Step>, n: nat): State
    requires n <= |steps|
  {
    Run(onDisk, steps[..n])
  }

  lemma AtNext(onDisk: Table, steps: seq<Step>, n: nat)
    requires n < |steps|
    ensures At(onDisk, steps, n + 1) == Do(At(onDisk, steps, n), steps[n])
  {
    assert steps[..n + 1][..n] == steps[..n];
  }

  /** Request `id`, begun by step `i` on a snapshot of `game` with this turn, is still under way. */
  ghost predicate Begun(onDisk: Table, steps: seq<Step>, n: nat, id: nat, email: string, turn: Option<int>,
                        game: int, i: nat)
    requires i < n <= |steps|
  {
    && steps[i] == Begin(id, email) && At(onDisk, steps, i).latest == Some(Snap(game, turn))
    && forall m | i < m <= n :: id in At(onDisk, steps, m).requests
  }

  function TurnOf(r: Request): Option<int> { if r.AtLookup? then r.turn else Some(r.team) }

  predicate SameRequest(r: Request, r': Request) {
    r'.email == r.email && TurnOf(r') == TurnOf(r) && r'.game == r.game
  }

  lemma RequestStep(s: State, step: Step, id: nat)
    requires id in Do(s, step).requests
    ensures var r := Do(s, step).requests[id];
            if id in s.requests then SameRequest(s.requests[id], r)
            else step == Begin(id, r.email) && s.latest == Some(Snap(r.game, TurnOf(r)))
  {
  }

  ghost predicate RequestBegun(onDisk: Table, steps: seq<Step>, n: nat, id: nat, r: Request)
    requires n <= |steps|
  {
    exists i | 0 <= i < n :: Begun(onDisk, steps, n, id, r.email, TurnOf(r), r.game, i)
  }

  lemma BegunLonger(onDisk: Table, steps: seq<Step>, n: nat, id: nat, r: Request)
    requires n < |steps| && RequestBegun(onDisk, steps, n, id, r) && id in At(onDisk, steps, n + 1).requests
    ensures RequestBegun(onDisk, steps, n + 1, id, r)
  {
    var i :| 0 <= i < n && Begun(onDisk, steps, n, id, r.email, TurnOf(r), r.game, i);
    assert Begun(onDisk, steps, n + 1, id, r.email, TurnOf(r), r.game, i);
  }

  lemma {:induction false} RequestsBegun(onDisk: Table, steps: seq<Step>, n: nat, id: nat)
    requires n <= |steps| && id in At(onDisk, steps, n).requests
    ensures RequestBegun(onDisk, steps, n, id, At(onDisk, steps, n).requests[id])
  {
    if n > 0 {
      AtNext(onDisk, steps, n - 1);
      var s, r := At(onDisk, steps, n - 1), At(onDisk, steps, n).requests[id];
      RequestStep(s, steps[n - 1], id);
      if id in s.requests {
        RequestsBegun(onDisk, steps, n - 1, id);
        BegunLonger(onDisk, steps, n - 1, id, r);
      } else {
        assert Begun(onDisk, steps, n, id, r.email, TurnOf(r), r.game, n - 1);
      }
    }
  }

  /** Entry `k` of the log was inserted by step `j` for a request that step `i` began, on a snapshot
      of the entry's game with the entry's team in turn. */
  ghost predicate ClaimedBy(onDisk: Table, steps: seq<Step>, log: seq<Entry>, k: nat, id: nat, i: nat, j: nat)
    requires i < j < |steps| && k < |log| && log[k].Claimed?
  {
    && steps[j] == Insert(id) && At(onDisk, steps, j).log == log[..k]
    && exists email :: Lower(email) == log[k].email &&
                       Begun(onDisk, steps, j, id, email, Some(log[k].team), log[k].game, i)
  }

  lemma LogStep(s: State, step: Step)
    ensures var log := Do(s, step).log;
            || log == s.log
            || (|log| == |s.log| + 1 && log[..|s.log|] == s.log &&
                (log[|s.log|].Claimed? ==>
                   && step.Insert? && step.id in s.requests && s.requests[step.id].AtInsert?
                   && var r := s.requests[step.id];
                      log[|s.log|] == Claimed(r.team, Lower(r.email), r.game)))
  {
  }

  lemma ClaimedLast(onDisk: Table, steps: seq<Step>, j: nat, log: seq<Entry>)
    requires j < |steps| && log == At(onDisk, steps, j + 1).log
    requires var k := |At(onDisk, steps, j).log|; |log| == k + 1 && log[k].Claimed?
    ensures var k := |At(onDisk, steps, j).log|;
            exists id, i | 0 <= i < j :: ClaimedBy(onDisk, steps, log, k, id, i, j)
  {
    AtNext(onDisk, steps, j);
    LogStep(At(onDisk, steps, j), steps[j]);
    var id, k := steps[j].id, |At(onDisk, steps, j).log|;
    var r := At(onDisk, steps, j).requests[id];
    RequestsBegun(onDisk, steps, j, id);
    var i :| 0 <= i < j && Begun(onDisk, steps, j, id, r.email, TurnOf(r), r.game, i);
    assert ClaimedBy(onDisk, steps, log, k, id, i, j);
  }

  lemma {:induction false} ClaimOrigin(onDisk: Table, steps: seq<Step>, n: nat, k: nat, log: seq<Entry>)
    requires n <= |steps| && log == At(onDisk, steps, n).log && k < |log| && log[k].Claimed?
    ensures exists id, i, j | 0 <= i < j < n :: ClaimedBy(onDisk, steps, log, k, id, i, j)
  {
    if n > 0 {
      AtNext(onDisk, steps, n - 1);
      LogStep(At(onDisk, steps, n - 1), steps[n - 1]);
      var before := At(onDisk, steps, n - 1).log;
      if k < |before| {
        assert before[k] == log[k] && before[..k] == log[..k];
        ClaimOrigin(onDisk, steps, n - 1, k, before);
        var id, i, j :| 0 <= i < j < n - 1 && ClaimedBy(onDisk, steps, before, k, id, i, j);
        assert ClaimedBy(onDisk, steps, log, k, id, i, j);
      } else {
        ClaimedLast(onDisk, steps, n - 1, log);
      }
    }
  }

  /** From step `p` on the transport shows no game but `game`. */
  ghost predicate OnlyGame(onDisk: Table, steps: seq<Step>, p: nat, game: int) {
    forall m | p <= m <= |steps| ::
      At(onDisk, steps, m).latest.Some? ==> At(onDisk, steps, m).latest.value.gameId == game
  }

  /** The mappings of another game than the one now shown are those of requests that began before it
      was. */
  lemma OtherGameBegan(onDisk: Table, steps: seq<Step>, p: nat, game: int, k: nat)
    requires OnlyGame(onDisk, steps, p, game)
    requires var log := Run(onDisk, steps).log; k < |log| && log[k].Claimed? && log[k].game != game
    ensures exists id, i, j | 0 <= i < j < |steps| && i < p ::
              ClaimedBy(onDisk, steps, Run(onDisk, steps).log, k, id, i, j)
  {
    assert steps[..|steps|] == steps;
    var log := Run(onDisk, steps).log;
    ClaimOrigin(onDisk, steps, |steps|, k, log);
    var id, i, j :| 0 <= i < j < |steps| && ClaimedBy(onDisk, steps, log, k, id, i, j);
    assert At(onDisk, steps, i).latest.value.gameId == log[k].game;
  }

  /** A request begun in game 1 and inserted after game 2 was detected. */
  function Overtaken(email: string): seq<Step> {
    [Publish(Some(Snap(1, Some(0)))), Sampled, Detected, Begin(0, email), Lookup(0),
     Publish(Some(Snap(2, Some(1)))), Sampled, Detected, Insert(0)]
  }

  lemma OvertakenBegins(email: string)
    ensures At(map[], Overtaken(email), 5) ==
            State(map[], Some(Snap(1, Some(0))), 1, None, map[0 := AtInsert(email, 0, 1)], [])
  {
    var steps, none := Overtaken(email), map[];
    assert steps[..0] == [];
    AtNext(none, steps, 0);
    AtNext(none, steps, 1);
    AtNext(none, steps, 2);
    AtNext(none, steps, 3);
    AtNext(none, steps, 4);
  }

  /** So a mapping present may be of the game before: detection comes first, the insert after. */
  lemma OvertakenClaim(email: string)
    ensures var s := Run(map[], Overtaken(email));
            && s.log == [NewGame(2), Claimed(0, Lower(email), 1)] && s.table == map[0 := Lower(email)]
            && s.latest == Some(Snap(2, Some(1)))
  {
    var steps, none := Overtaken(email), map[];
    OvertakenBegins(email);
    AtNext(none, steps, 5);
    AtNext(none, steps, 6);
    AtNext(none, steps, 7);
    assert At(none, steps, 8) ==
           State(map[], Some(Snap(2, Some(1))), 2, None, map[0 := AtInsert(email, 0, 1)], [NewGame(2)]);
    AtNext(none, steps, 8);
    assert steps[..9] == steps;
  }
}
