/**
 * Durable snapshots of the folded state (hobo/log/snapshot.py) over an abstract directory: written to a
 * temporary name, synced, renamed, then the oldest pruned.  A rename and a removal are single steps.
 */
module Snapshots {
  import opened Wrappers
  import opened RiskModel
  import opened StateJson

  /** snapshot-N.json, and the same with .tmp appended. */
  datatype Name = Final(seqNo: nat) | Tmp(seqNo: nat)

  /** A file being written holds anything; a finished one holds the payload. */
  datatype Content = Partial | Whole(seqNo: nat, state: Json)

  type Dir = map<Name, Content>

  const DEFAULT_KEEP_LAST: nat := 3

  ghost predicate Ascending(l: seq<nat>) { forall i, j | 0 <= i < j < |l| :: l[i] < l[j] }

  /** The sorted sequence numbers of the finished snapshots. */
  ghost predicate IsListing(l: seq<nat>, dir: Dir) {
    && Ascending(l)
    && (forall i | 0 <= i < |l| :: Final(l[i]) in dir)
    && (forall n | Final(n) in dir :: n in l)
  }

  /** `[:-keep_last]`, or nothing when keep_last is not positive. */
  function Victims(listing: seq<nat>, keepLast: nat): seq<nat> {
    if keepLast == 0 || |listing| <= keepLast then [] else listing[..|listing| - keepLast]
  }

  /** The directory once the new snapshot has its final name. */
  function Renamed(dir: Dir, n: nat, state: Json): Dir {
    (dir - {Tmp(n)})[Final(n) := Whole(n, state)]
  }

  /** The directory without the listed victims. */
  function Kept(dir: Dir, listing: seq<nat>, keepLast: nat): Dir {
    dir - FinalNames(Victims(listing, keepLast))
  }

  function FinalNames(l: seq<nat>): set<Name> { set j | 0 <= j < |l| :: Final(l[j]) }

  lemma FinalNamesSnoc(l: seq<nat>, i: nat)
    requires i < |l|
    ensures FinalNames(l[..i + 1]) == FinalNames(l[..i]) + {Final(l[i])}
  {
    var a, b := l[..i], l[..i + 1];
    assert forall j | 0 <= j < i :: a[j] == b[j];
    assert b[i] == l[i];
    forall name | name in FinalNames(a) ensures name in FinalNames(b) {
      var j :| 0 <= j < |a| && Final(a[j]) == name;
      assert Final(b[j]) == name;
    }
    assert Final(b[i]) in FinalNames(b);
  }

  /** Pruning leaves exactly the `keepLast` newest of the finished snapshots (all, when it is zero). */
  lemma KeepsTheNewest(dir: Dir, listing: seq<nat>, keepLast: nat, i: nat)
    requires IsListing(listing, dir) && i < |listing|
    ensures Final(listing[i]) in Kept(dir, listing, keepLast) <==> keepLast == 0 || |listing| - i <= keepLast
  {
    var victims := Victims(listing, keepLast);
    if keepLast != 0 && |listing| - i > keepLast {
      assert victims[i] == listing[i];
    }
  }

  ghost predicate IsNewest(dir: Dir, n: nat) {
    Final(n) in dir && forall m: nat | Final(m) in dir :: m <= n
  }

  ghost predicate HasSnapshot(dir: Dir) { exists n: nat :: IsNewest(dir, n) }

  lemma NewestOfListing(listing: seq<nat>, dir: Dir)
    requires IsListing(listing, dir)
    ensures listing != [] ==> IsNewest(dir, listing[|listing| - 1])
    ensures listing == [] ==> !HasSnapshot(dir)
  {
  }

  lemma NewestUnique(dir: Dir, m: nat, n: nat)
    requires IsNewest(dir, m) && IsNewest(dir, n)
    ensures m == n
  {
  }

  /** The newest finished snapshot, or None; None inside is a payload the source fails to load. */
  ghost function LoadLatest(dir: Dir): Option<Option<State>> {
    if HasSnapshot(dir) then
      var n: nat :| IsNewest(dir, n);
      Some(if dir[Final(n)].Whole? then StateFromDict(dir[Final(n)].state) else None)
    else None
  }

  /**
   * What a crash while snapshot n of `state` is being written may leave: every finished snapshot is an old
   * one, as it was, or the new one, whole; and the newest is never lost, only superseded.
   */
  ghost predicate Survives(before: Dir, after: Dir, n: nat, state: State) {
    && (forall m | Final(m) in after ::
          (Final(m) in before && after[Final(m)] == before[Final(m)])
          || (m == n && after[Final(m)] == Whole(n, StateToDict(state))))
    && (forall m: nat | IsNewest(before, m) :: exists k: nat :: IsNewest(after, k) && k >= m)
  }

  lemma {:induction false} NewestExists(dir: Dir, names: set<Name>, n: nat) returns (m: nat)
    requires names <= dir.Keys && Final(n) in names
    ensures m >= n && Final(m) in names && forall k: nat | Final(k) in names :: k <= m
    decreases |names|
  {
    if k: nat :| Final(k) in names && k > n {
      m := NewestExists(dir, names - {Final(n)}, k);
    } else {
      m := n;
    }
  }

  /** Such a directory loads whatever the old one did, or the state just written. */
  lemma SurvivorLoads(before: Dir, after: Dir, n: nat, state: State)
    requires Survives(before, after, n, state)
    ensures LoadLatest(after) == LoadLatest(before) || LoadLatest(after) == Some(Some(state))
  {
    StateRoundTrip(state);
    hide StateFromDict, StateToDict;
    if k: nat :| IsNewest(after, k) {
      forall m: nat | IsNewest(after, m) ensures m == k { NewestUnique(after, m, k); }
      if after[Final(k)] != Whole(n, StateToDict(state)) {
        var m := NewestExists(before, before.Keys, k);
        assert IsNewest(before, m);
        forall m': nat | IsNewest(before, m') ensures m' == k {
          NewestUnique(before, m, m');
          var k': nat :| IsNewest(after, k') && k' >= m;
          NewestUnique(after, k, k');
        }
      }
    } else if m: nat :| IsNewest(before, m) {
      assert false;
    }
  }

  /** A crash leaving this directory costs nothing: it survives, and loads what the old one did or the new state. */
  ghost predicate CrashSafe(before: Dir, after: Dir, n: nat, state: State) {
    && Survives(before, after, n, state)
    && (LoadLatest(after) == LoadLatest(before) || LoadLatest(after) == Some(Some(state)))
  }

  function Insert(l: seq<nat>, n: nat): seq<nat> {
    if l == [] || n < l[0] then [n] + l else [l[0]] + Insert(l[1..], n)
  }

  lemma {:induction false} InsertSorted(l: seq<nat>, n: nat)
    requires Ascending(l) && n !in l
    ensures Ascending(Insert(l, n)) && (forall m :: m in Insert(l, n) <==> m == n || m in l)
  {
    if l == [] || n < l[0] {
      assert Insert(l, n) == [n] + l;
      assert forall j | 0 <= j < |l| :: n < l[j];
    } else {
      InsertSorted(l[1..], n);
      var rest := Insert(l[1..], n);
      forall j | 0 <= j < |rest| ensures l[0] < rest[j] {
        assert rest[j] in rest;
      }
      assert Insert(l, n) == [l[0]] + rest;
      assert l == [l[0]] + l[1..];
    }
  }

  class SnapshotDir {
    var files: Dir

    constructor ()
      ensures files == map[]
    {
      files := map[];
    }

    method ListSnapshots() returns (found: seq<nat>)
      ensures IsListing(found, files)
    {
      found := [];
      var todo := files.Keys;
      while todo != {}
        invariant todo <= files.Keys && Ascending(found)
        invariant forall n <- found :: Final(n) in files && Final(n) !in todo
        invariant forall n | Final(n) in files :: n in found || Final(n) in todo
        decreases |todo|
      {
        var name :| name in todo;
        todo := todo - {name};
        if name.Final? {
          InsertSorted(found, name.seqNo);
          found := Insert(found, name.seqNo);
        }
      }
    }

    /**
     * `trail` is every directory a crash inside the call could leave; each loads what was there before or
     * the new state, and a new state at least as far on is what is there to load at the end.
     */
    method WriteSnapshot(state: State, keepLast: nat) returns (ghost trail: seq<Dir>)
      requires state.lastSeq >= 0
      modifies this
      ensures var renamed := Renamed(old(files), state.lastSeq, StateToDict(state));
              exists listing :: IsListing(listing, renamed) && files == Kept(renamed, listing, keepLast)
      ensures forall d <- trail :: CrashSafe(old(files), d, state.lastSeq, state)
      ensures trail != [] && trail[|trail| - 1] == files
      ensures (forall m: nat | Final(m) in old(files) :: m <= state.lastSeq) ==> LoadLatest(files) == Some(Some(state))
    {
      hide CrashSafe, KeepsNewest, StateToDict, LoadLatest, Kept, IsListing;
      var n := state.lastSeq as nat;
      ghost var before := files;
      Stages(before, n, state);
      files := files[Tmp(n) := Partial];
      ghost var a := files;
      files := files[Tmp(n) := Whole(n, StateToDict(state))];
      ghost var b := files;
      files := (files - {Tmp(n)})[Final(n) := Whole(n, StateToDict(state))];
      ghost var start := files;
      assert start == Renamed(before, n, StateToDict(state));
      ghost var listing, tail := PruneOldSnapshots(keepLast);
      PrunedIsSafe(before, start, tail, n, state);
      trail := [a, b, start] + tail;
      if forall m: nat | Final(m) in before :: m <= n {
        LoadsNewest(start, files, n, state);
      }
    }

    /** Removes the oldest, one file at a time, leaving the `keepLast` newest. */
    method PruneOldSnapshots(keepLast: nat) returns (ghost listing: seq<nat>, ghost trail: seq<Dir>)
      modifies this
      ensures IsListing(listing, old(files))
      ensures files == Kept(old(files), listing, keepLast)
      ensures KeepsNewest(old(files), files)
      ensures forall d <- trail :: KeepsNewest(old(files), d)
      ensures trail == [] ==> files == old(files)
      ensures trail != [] ==> trail[|trail| - 1] == files
    {
      trail := [];
      var found := ListSnapshots();
      listing := found;
      ghost var start := files;
      if keepLast == 0 {
        return;
      }
      NewestOfListing(found, files);
      var victims := Victims(found, keepLast);
      for i := 0 to |victims|
        invariant files == start - FinalNames(victims[..i])
        invariant forall d <- trail :: KeepsNewest(start, d)
        invariant trail == [] ==> files == start
        invariant trail != [] ==> trail[|trail| - 1] == files
      {
        FinalNamesSnoc(victims, i);
        files := files - {Final(victims[i])};
        LastListedKept(start, files, found);
        trail := trail + [files];
      }
      assert victims[..|victims|] == victims;
    }

    method LoadLatestState() returns (state: Option<State>)
      requires forall name <- files :: name.Final? ==> files[name].Whole? && StateFromDict(files[name].state).Some?
      ensures LoadLatest(files) == (if state.Some? then Some(state) else None)
    {
      var found := ListSnapshots();
      NewestOfListing(found, files);
      if found == [] {
        return None;
      }
      var n := found[|found| - 1];
      forall m: nat | IsNewest(files, m) ensures m == n { NewestUnique(files, m, n); }
      state := StateFromDict(files[Final(n)].state);
    }
  }

  /** Nothing is added or changed, and the newest finished snapshot is kept. */
  ghost predicate KeepsNewest(start: Dir, after: Dir) {
    && (forall name <- after :: name in start && after[name] == start[name])
    && (forall n: nat | IsNewest(start, n) :: IsNewest(after, n))
  }

  /** Removing only listed snapshots that are not the last one keeps the newest. */
  lemma LastListedKept(start: Dir, after: Dir, listing: seq<nat>)
    requires IsListing(listing, start) && listing != []
    requires forall name <- after :: name in start && after[name] == start[name]
    requires Final(listing[|listing| - 1]) in after
    ensures KeepsNewest(start, after)
  {
    NewestOfListing(listing, start);
    forall n: nat | IsNewest(start, n) ensures IsNewest(after, n) {
      NewestUnique(start, n, listing[|listing| - 1]);
    }
  }

  /** The directories a snapshot write passes through up to its rename. */
  lemma Stages(before: Dir, n: nat, state: State)
    ensures var a, b := before[Tmp(n) := Partial], before[Tmp(n) := Partial][Tmp(n) := Whole(n, StateToDict(state))];
            CrashSafe(before, a, n, state) && CrashSafe(before, b, n, state)
    ensures CrashSafe(before, Renamed(before, n, StateToDict(state)), n, state)
  {
    hide Survives, IsNewest, StateToDict, LoadLatest;
    var a, b := before[Tmp(n) := Partial], before[Tmp(n) := Partial][Tmp(n) := Whole(n, StateToDict(state))];
    SurvivesSame(before, a, n, state);
    SurvivesSame(before, b, n, state);
    SurvivesReplace(before, n, state);
    SurvivorLoads(before, a, n, state);
    SurvivorLoads(before, b, n, state);
    SurvivorLoads(before, Renamed(before, n, StateToDict(state)), n, state);
  }

  lemma PrunedIsSafe(before: Dir, start: Dir, tail: seq<Dir>, n: nat, state: State)
    requires CrashSafe(before, start, n, state) && forall d <- tail :: KeepsNewest(start, d)
    ensures forall d <- tail :: CrashSafe(before, d, n, state)
  {
    hide Survives, KeepsNewest, LoadLatest;
    forall d | d in tail ensures CrashSafe(before, d, n, state) {
      SurvivesPrune(before, start, d, n, state);
      SurvivorLoads(before, d, n, state);
    }
  }

  lemma SurvivesSame(before: Dir, after: Dir, n: nat, state: State)
    requires forall m :: Final(m) in before <==> Final(m) in after
    requires forall m | Final(m) in before :: after[Final(m)] == before[Final(m)]
    ensures Survives(before, after, n, state)
  {
    hide StateToDict;
    forall m: nat | IsNewest(before, m) ensures exists k: nat :: IsNewest(after, k) && k >= m {
      assert IsNewest(after, m);
    }
  }

  lemma SurvivesReplace(before: Dir, n: nat, state: State)
    ensures Survives(before, Renamed(before, n, StateToDict(state)), n, state)
  {
    hide StateToDict;
    var after := Renamed(before, n, StateToDict(state));
    forall m: nat | IsNewest(before, m) ensures exists k: nat :: IsNewest(after, k) && k >= m {
      assert IsNewest(after, if m <= n then n else m);
    }
  }

  lemma SurvivesPrune(before: Dir, start: Dir, after: Dir, n: nat, state: State)
    requires Survives(before, start, n, state) && KeepsNewest(start, after)
    ensures Survives(before, after, n, state)
  {
    hide StateToDict;
    forall m: nat | IsNewest(before, m) ensures exists k: nat :: IsNewest(after, k) && k >= m {
      var k: nat :| IsNewest(start, k) && k >= m;
      assert IsNewest(after, k);
    }
  }

  /** The newest snapshot, kept by pruning, is what loads. */
  lemma LoadsNewest(start: Dir, after: Dir, n: nat, state: State)
    requires Final(n) in start && start[Final(n)] == Whole(n, StateToDict(state))
    requires (forall m: nat | Final(m) in start :: m <= n) && KeepsNewest(start, after)
    ensures LoadLatest(after) == Some(Some(state))
  {
    StateRoundTrip(state);
    hide StateFromDict, StateToDict;
    assert IsNewest(start, n);
    forall m: nat | IsNewest(after, m) ensures m == n { NewestUnique(after, m, n); }
  }
}
