/** New-game detection over the sampled snapshots. */
module Broadcaster {
  import opened Wrappers
  import opened Store

  /** What one look at the transport sees: no snapshot, or a snapshot's game id (0: no game yet). */
  type Sample = Option<int>

  predicate Counts(s: Sample) { s.Some? && s.value != 0 }

  /** The detector's memory (0 before the first id) and how often it reported a new game. */
  datatype Detector = Detector(last: int, clears: nat)

  predicate IsNewGame(last: int, s: Sample) { Counts(s) && last != 0 && s.value != last }

  function Detect(d: Detector, s: Sample): Detector {
    Detector(if Counts(s) then s.value else d.last,
             d.clears + if IsNewGame(d.last, s) then 1 else 0)
  }

  function DetectAll(samples: seq<Sample>): Detector {
    if samples == [] then Detector(0, 0)
    else Detect(DetectAll(samples[..|samples| - 1]), samples[|samples| - 1])
  }

  class StateBroadcaster {
    var lastGameId: int
    ghost var clears: nat

    constructor ()
      ensures lastGameId == 0 && clears == 0
    {
      lastGameId, clears := 0, 0;
    }

    /** The on_new_game callback clears the store. */
    method DetectNewGame(snap: Sample, store: MappingStore)
      modifies this, store
      ensures Detector(lastGameId, clears) == Detect(Detector(old(lastGameId), old(clears)), snap)
      ensures store.table == if IsNewGame(old(lastGameId), snap) then map[] else old(store.table)
    {
      if snap.None? || snap.value == 0 { return; }
      if snap.value != lastGameId {
        if lastGameId != 0 {
          store.ClearAll();
          clears := clears + 1;
        }
        lastGameId := snap.value;
      }
    }
  }

  // ---------------------------------------------------------------- any sample sequence

  /** The ids left after dropping offline and zero samples. */
  function Ids(samples: seq<Sample>): seq<int> {
    if samples == [] then []
    else
      var s := samples[|samples| - 1];
      Ids(samples[..|samples| - 1]) + if Counts(s) then [s.value] else []
  }

  /** How many adjacent ids differ. */
  function Changes(ids: seq<int>): nat {
    if |ids| < 2 then 0
    else Changes(ids[..|ids| - 1]) + if ids[|ids| - 1] != ids[|ids| - 2] then 1 else 0
  }

  lemma {:induction false} ClearsAreChanges(samples: seq<Sample>)
    ensures DetectAll(samples).clears == Changes(Ids(samples))
    ensures DetectAll(samples).last ==
            if Ids(samples) == [] then 0 else Ids(samples)[|Ids(samples)| - 1]
    ensures forall i | 0 <= i < |Ids(samples)| :: Ids(samples)[i] != 0
  {
    if samples != [] {
      var before, s := samples[..|samples| - 1], samples[|samples| - 1];
      ClearsAreChanges(before);
      if Counts(s) {
        ChangesSnoc(Ids(before), s.value);
      } else {
        assert Ids(samples) == Ids(before);
      }
    }
  }

  lemma ChangesSnoc(ids: seq<int>, id: int)
    ensures Changes(ids + [id]) ==
            Changes(ids) + if ids != [] && id != ids[|ids| - 1] then 1 else 0
  {
    assert (ids + [id])[..|ids|] == ids;
  }

  lemma {:induction false} IdsAppend(a: seq<Sample>, b: seq<Sample>)
    ensures Ids(a + b) == Ids(a) + Ids(b)
  {
    if b == [] {
      assert a + b == a;
    } else {
      assert (a + b)[..|a + b| - 1] == a + b[..|b| - 1];
      IdsAppend(a, b[..|b| - 1]);
    }
  }

  /** Offline and zero samples inserted anywhere change nothing. */
  lemma GapsDoNotMatter(a: seq<Sample>, gap: seq<Sample>, b: seq<Sample>)
    requires forall i | 0 <= i < |gap| :: !Counts(gap[i])
    ensures DetectAll(a + gap + b) == DetectAll(a + b)
  {
    NoIds(gap);
    IdsAppend(a + gap, b);
    IdsAppend(a, gap);
    IdsAppend(a, b);
    assert Ids(a) + [] + Ids(b) == Ids(a) + Ids(b);
    ClearsAreChanges(a + gap + b);
    ClearsAreChanges(a + b);
  }

  lemma {:induction false} NoIds(gap: seq<Sample>)
    requires forall i | 0 <= i < |gap| :: !Counts(gap[i])
    ensures Ids(gap) == []
  {
    if gap != [] { NoIds(gap[..|gap| - 1]); }
  }
}
