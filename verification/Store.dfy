/** The team-number to user-email mapping (SQLite table with a primary key and a unique column). */
module Store {
  import opened Wrappers

  type Table = map<int, string>

  function LowerChar(c: char): char { if 'A' <= c <= 'Z' then (c as int + 32) as char else c }

  function Lower(s: string): string {
    seq(|s|, i requires 0 <= i < |s| => LowerChar(s[i]))
  }

  /** A team has one email by being a key; here, an email has one team, and emails are lower case. */
  predicate TwoWayUnique(t: Table) {
    && (forall a, b | a in t && b in t && t[a] == t[b] :: a == b)
    && (forall a | a in t :: Lower(t[a]) == t[a])
  }

  function EmailFor(t: Table, team: int): Option<string> {
    if team in t then Some(t[team]) else None
  }

  ghost function TeamFor(t: Table, email: string): Option<int> {
    if a :| a in t && t[a] == Lower(email) then Some(a) else None
  }

  predicate CanClaim(t: Table, team: int, email: string) {
    team !in t && forall a | a in t :: t[a] != Lower(email)
  }

  function Inserted(t: Table, team: int, email: string): Table {
    if CanClaim(t, team, email) then t[team := Lower(email)] else t
  }

  class MappingStore {
    var table: Table

    constructor (onDisk: Table)
      ensures table == onDisk
    {
      table := onDisk;
    }

    /** INSERT: refused when either key is taken. */
    method Claim(team: int, email: string) returns (ok: bool)
      requires TwoWayUnique(table)
      modifies this
      ensures TwoWayUnique(table)
      ensures ok <==> CanClaim(old(table), team, email)
      ensures ok <==> team !in old(table) && forall a | a in old(table) :: old(table)[a] != Lower(email)
      ensures table == if ok then old(table)[team := Lower(email)] else old(table)
    {
      var lowered := Lower(email);
      if team in table { return false; }
      if a :| a in table && table[a] == lowered { return false; }
      LowerTwice(email);
      table := table[team := lowered];
      return true;
    }

    method DeleteMapping(team: int)
      modifies this
      ensures table == old(table) - {team}
      ensures TwoWayUnique(old(table)) ==> TwoWayUnique(table)
    {
      table := table - {team};
    }

    method ClearAll()
      modifies this
      ensures table == map[] && TwoWayUnique(table)
    {
      table := map[];
    }

    method EmailForTeam(team: int) returns (email: Option<string>)
      ensures email == EmailFor(table, team)
      ensures forall e :: email == Some(e) <==> team in table && table[team] == e
    {
      if team in table { email := Some(table[team]); } else { email := None; }
    }

    method TeamForEmail(email: string) returns (team: Option<int>)
      requires TwoWayUnique(table)
      ensures team == TeamFor(table, email)
      ensures forall a :: team == Some(a) <==> a in table && table[a] == Lower(email)
    {
      if a :| a in table && table[a] == Lower(email) {
        team := Some(a);
      } else {
        team := None;
      }
    }
  }

  /** Capital letters become small ones, and nothing else changes. */
  lemma LowerExactly(s: string, i: nat)
    requires i < |s|
    ensures |Lower(s)| == |s|
    ensures Lower(s)[i] == if 'A' <= s[i] <= 'Z' then s[i] + ('a' - 'A') else s[i]
  {
  }

  lemma LowerTwice(s: string)
    ensures Lower(Lower(s)) == Lower(s)
  {
  }

  /** The two lookups are inverse of each other, for any spelling of the email. */
  lemma LookupsInverse(t: Table, team: int, email: string)
    requires TwoWayUnique(t)
    ensures TeamFor(t, email) == Some(team) <==> EmailFor(t, team) == Some(Lower(email))
    ensures TeamFor(t, email) == TeamFor(t, Lower(email))
  {
    LowerTwice(email);
  }

  lemma InsertKeepsUnique(t: Table, team: int, email: string)
    requires TwoWayUnique(t)
    ensures TwoWayUnique(Inserted(t, team, email))
  {
    LowerTwice(email);
  }

  /** A claim is possible exactly when neither lookup finds anything. */
  lemma CanClaimExactly(t: Table, team: int, email: string)
    requires TwoWayUnique(t)
    ensures CanClaim(t, team, email) <==> EmailFor(t, team).None? && TeamFor(t, email).None?
  {
  }
}
