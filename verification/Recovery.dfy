/**
 * Live state, snapshots and crash recovery together (hobo/core/state_store.py, hobo/log/recovery.py):
 * the engine process appends then folds, snapshots in small steps, may be killed between any two steps,
 * and comes back by reopening the log, loading the newest snapshot and replaying what lies past it.
 */
module Recovery {
  import opened Wrappers
  import opened RiskModel
  import opened Fold
  import opened Format
  import opened LogMachine
  import opened LogWriting
  import opened Replica
  import opened Snapshots
  import opened StateJson

  /** The replay loop: an envelope is folded only if it is newer than the state so far. */
  ghost function ReplayOnto(s: State, es: seq<Envelope>): (t: State)
    requires AllWellFormed(s, es)
    ensures SameRoster(s, t)
  {
    if es == [] then s else
      var t := ReplayOnto(s, es[..|es| - 1]);
      if es[|es| - 1].seqNo > t.lastSeq then ApplyEvent(t, es[|es| - 1]) else t
  }

  lemma {:induction false} FoldCountsSeq(init: State, es: seq<Envelope>)
    requires init.lastSeq == 0 && Numbered(es) && AllWellFormed(init, es)
    ensures FoldAll(init, es).lastSeq == |es|
  {
  }

  /** Events numbered on from a state are all replayed onto it. */
  lemma {:induction false} ReplayTakesNext(s: State, es: seq<Envelope>)
    requires AllWellFormed(s, es) && forall k | 0 <= k < |es| :: es[k].seqNo == s.lastSeq + 1 + k
    ensures ReplayOnto(s, es) == FoldAll(s, es)
    ensures FoldAll(s, es).lastSeq == s.lastSeq + |es|
  {
    if es != [] {
      hide Handle;
      ReplayTakesNext(s, es[..|es| - 1]);
    }
  }

  lemma PrefixWellFormed(s: State, t: State, es: seq<Envelope>, k: nat)
    requires SameRoster(s, t) && AllWellFormed(s, es) && k <= |es|
    ensures AllWellFormed(t, es[..k])
  {
  }

  lemma ReplayLast(s: State, es: seq<Envelope>, k: nat)
    requires 0 < k <= |es| && AllWellFormed(s, es)
    ensures AllWellFormed(s, es[..k - 1]) && AllWellFormed(s, es[..k])
    ensures var t, e := ReplayOnto(s, es[..k - 1]), es[k - 1];
            && WellFormed(t, e.event)
            && ReplayOnto(s, es[..k]) == if e.seqNo > t.lastSeq then ApplyEvent(t, e) else t
  {
    hide Handle;
    assert es[..k][..k - 1] == es[..k - 1];
  }

  /** Replaying a whole log onto the state after its first j events folds exactly the rest. */
  lemma {:induction false} ReplaySkipsFolded(init: State, es: seq<Envelope>, j: nat, k: nat)
    requires init.lastSeq == 0 && Numbered(es) && AllWellFormed(init, es) && j <= |es| && k <= |es|
    ensures AllWellFormed(init, es[..j]) && AllWellFormed(FoldAll(init, es[..j]), es[..k])
    ensures var n := if j <= k then k else j;
            && AllWellFormed(init, es[..n])
            && ReplayOnto(FoldAll(init, es[..j]), es[..k]) == FoldAll(init, es[..n])
    decreases k
  {
    hide Handle, WellFormed, AllWellFormed, ReplayOnto, FoldAll;
    PrefixWellFormed(init, init, es, j);
    var base := FoldAll(init, es[..j]);
    PrefixWellFormed(init, base, es, k);
    PrefixWellFormed(init, init, es, if j <= k then k else j);
    if k == 0 {
      assert es[..k] == [];
      ReplayNothing(base);
    } else {
      PrefixWellFormed(init, base, es, |es|);
      assert es[..|es|] == es;
      ReplaySkipsFolded(init, es, j, k - 1);
      ReplayLast(base, es, k);
      FoldCountsSeq(init, es[..if j <= k - 1 then k - 1 else j]);
      if j < k {
        WellFormedThere(init, es, k - 1);
      }
    }
  }

  lemma ReplayNothing(s: State)
    ensures ReplayOnto(s, []) == s
  {
  }

  /** What `recover_state` returns, with no seed, reference or market client given. */
  ghost function Recovered(c: Codec, init: State, dir: Dir, file: LogMachine.Image): State
    requires file.header.committed <= |file.data|
    requires LoadLatest(dir).Some? ==> LoadLatest(dir).value.Some?
    requires AllWellFormed(BaseState(init, dir), ReplayRange(c, file.data, 0, file.header.committed))
  {
    ReplayOnto(BaseState(init, dir), ReplayRange(c, file.data, 0, file.header.committed))
  }

  ghost function BaseState(init: State, dir: Dir): State
    requires LoadLatest(dir).Some? ==> LoadLatest(dir).value.Some?
  {
    match LoadLatest(dir)
    case None => init
    case Some(loaded) => loaded.value
  }

  lemma {:induction false} ReplaysNothingOld(s: State, es: seq<Envelope>)
    requires AllWellFormed(s, es) && forall k | 0 <= k < |es| :: es[k].seqNo <= s.lastSeq
    ensures ReplayOnto(s, es) == s
  {
    if es != [] {
      hide Handle;
      ReplaysNothingOld(s, es[..|es| - 1]);
    }
  }

  /** With nothing newer in the log, what is recovered is the snapshot that was loaded, whatever the log holds. */
  lemma RecoversSnapshot(c: Codec, init: State, dir: Dir, file: Image, snapshot: State)
    requires LoadLatest(dir) == Some(Some(snapshot)) && file.header.committed <= |file.data|
    requires var es := ReplayRange(c, file.data, 0, file.header.committed);
             AllWellFormed(snapshot, es) && forall k | 0 <= k < |es| :: es[k].seqNo <= snapshot.lastSeq
    ensures AllWellFormed(BaseState(init, dir), ReplayRange(c, file.data, 0, file.header.committed))
    ensures Recovered(c, init, dir, file) == snapshot
  {
    hide LoadLatest, AllWellFormed, ReplayOnto;
    ReplaysNothingOld(snapshot, ReplayRange(c, file.data, 0, file.header.committed));
  }

  // ---- the engine process over its log and snapshot directory ----

  datatype SnapPhase =
    | NoSnap
    | Writing(state: State)
    | Written(state: State)
    | Pruning(victims: seq<nat>, newest: nat)

  datatype Node = Node(
    log: System,
    live: Option<State>,
    count: nat,              // history: how many envelopes the live state has folded
    atKill: Option<State>,   // history: the live state when the process last died
    dir: Dir,
    snap: SnapPhase)

  datatype NodeStep =
    | LogStep(step: Step)
    | FoldAppended
    | SnapOpen
    | SnapFlush
    | SnapReplace(listing: seq<nat>, keepLast: nat)
    | PruneOne
    | SnapDone
    | Recover

  function FirstBoot(capacity: nat): Node {
    Node(Fresh(capacity), None, 0, None, map[], NoSnap)
  }

  ghost predicate NodeEnabled(c: Codec, init: State, n: Node, step: NodeStep) {
    match step
    case LogStep(s) =>
      && Enabled(c, n.log, s)
      && (s.BeginAppend? ==> n.live.Some? && n.count == |n.log.landed| && WellFormed(init, s.e.event))
    case FoldAppended =>
      && n.live.Some? && IsUp(n.log, Idle) && n.count < |n.log.landed|
      && WellFormed(n.live.value, n.log.landed[n.count].event)
    case SnapOpen => n.live.Some? && n.snap.NoSnap? && n.live.value.lastSeq >= 0
    case SnapFlush => n.snap.Writing? && n.snap.state.lastSeq >= 0
    case SnapReplace(listing, _) =>
      && n.snap.Written? && n.snap.state.lastSeq >= 0
      && listing != [] && IsListing(listing, Renamed(n.dir, n.snap.state.lastSeq, StateToDict(n.snap.state)))
    case PruneOne => n.snap.Pruning? && n.snap.victims != []
    case SnapDone => n.snap.Pruning? && n.snap.victims == []
    case Recover =>
      && n.live.None? && IsUp(n.log, Idle)
      && n.log.file.header.committed == n.log.writer.writeOffset <= |n.log.file.data|
      && (LoadLatest(n.dir).Some? ==> LoadLatest(n.dir).value.Some?)
      && AllWellFormed(BaseState(init, n.dir), ReplayRange(c, n.log.file.data, 0, n.log.file.header.committed))
  }

  ghost function NodeApply(c: Codec, init: State, n: Node, step: NodeStep): Node
    requires NodeEnabled(c, init, n, step)
  {
    match step
    case LogStep(s) =>
      var next := n.(log := Apply(c, n.log, s));
      if s.Kill? then next.(live := None, snap := NoSnap, atKill := if n.live.Some? then n.live else n.atKill)
      else next
    case FoldAppended =>
      n.(live := Some(ApplyEvent(n.live.value, n.log.landed[n.count])), count := n.count + 1)
    case SnapOpen => n.(dir := n.dir[Tmp(n.live.value.lastSeq) := Partial], snap := Writing(n.live.value))
    case SnapFlush =>
      var s := n.snap.state;
      n.(dir := n.dir[Tmp(s.lastSeq) := Whole(s.lastSeq, StateToDict(s))], snap := Written(s))
    case SnapReplace(listing, keepLast) =>
      n.(dir := Renamed(n.dir, n.snap.state.lastSeq, StateToDict(n.snap.state)),
         snap := Pruning(Victims(listing, keepLast), listing[|listing| - 1]))
    case PruneOne =>
      n.(dir := n.dir - {Final(n.snap.victims[0])}, snap := Pruning(n.snap.victims[1..], n.snap.newest))
    case SnapDone => n.(snap := NoSnap)
    case Recover =>
      n.(live := Some(Recovered(c, init, n.dir, n.log.file)), count := |n.log.landed|)
  }

  ghost predicate NodeRuns(c: Codec, init: State, n: Node, steps: seq<NodeStep>)
    decreases |steps|, 0
  {
    steps == [] || (NodeRuns(c, init, n, steps[..|steps| - 1])
                    && NodeEnabled(c, init, NodeExec(c, init, n, steps[..|steps| - 1]), steps[|steps| - 1]))
  }

  ghost function NodeExec(c: Codec, init: State, n: Node, steps: seq<NodeStep>): Node
    requires NodeRuns(c, init, n, steps)
    decreases |steps|, 1
  {
    if steps == [] then n
    else NodeApply(c, init, NodeExec(c, init, n, steps[..|steps| - 1]), steps[|steps| - 1])
  }

  // ---- invariant ----

  /** The state is the fold of the first `count` landed envelopes. */
  ghost predicate IsFoldOf(init: State, s: State, es: seq<Envelope>, count: nat) {
    && count <= |es| && AllWellFormed(init, es[..count]) && s == FoldAll(init, es[..count])
    && s.lastSeq == count
  }

  /** Every finished snapshot is the fold of the log up to its number. */
  ghost predicate DirInv(init: State, dir: Dir, es: seq<Envelope>) {
    forall n: nat | Final(n) in dir ::
      n <= |es| && AllWellFormed(init, es[..n]) && dir[Final(n)] == Whole(n, StateToDict(FoldAll(init, es[..n])))
  }

  ghost predicate SnapInv(init: State, snap: SnapPhase, dir: Dir, es: seq<Envelope>) {
    match snap
    case NoSnap => true
    case Writing(s) => 0 <= s.lastSeq <= |es| && IsFoldOf(init, s, es, s.lastSeq)
    case Written(s) => 0 <= s.lastSeq <= |es| && IsFoldOf(init, s, es, s.lastSeq)
    case Pruning(victims, newest) => IsNewest(dir, newest) && newest !in victims
  }

  /** An append is under way and its last byte is still to come. */
  predicate MidCopy(c: Codec, s: System) {
    s.writer.Up? && s.writer.phase.Copying? && s.writer.phase.k < |EncodeFrame(c, s.writer.phase.e)|
  }

  ghost predicate NodeInv(c: Codec, init: State, n: Node) {
    var es := n.log.landed;
    && Inv(c, n.log) && Wellformedness(init, n.log) && init.lastSeq == 0
    && n.count <= |es| <= n.count + 1
    && (MidCopy(c, n.log) ==> n.count == |es|)
    && (n.live.Some? ==> IsFoldOf(init, n.live.value, es, n.count))
    && (n.live.None? && n.atKill.Some? ==> IsFoldOf(init, n.atKill.value, es, n.count))
    && DirInv(init, n.dir, es) && SnapInv(init, n.snap, n.dir, es)
  }

  lemma PrefixFold(init: State, s: State, es: seq<Envelope>, fs: seq<Envelope>, count: nat)
    requires es <= fs && IsFoldOf(init, s, es, count)
    ensures IsFoldOf(init, s, fs, count)
  {
    assert es[..count] == fs[..count];
  }

  lemma DirGrows(init: State, dir: Dir, es: seq<Envelope>, fs: seq<Envelope>)
    requires es <= fs && DirInv(init, dir, es)
    ensures DirInv(init, dir, fs)
  {
    forall n: nat | Final(n) in dir
      ensures n <= |fs| && AllWellFormed(init, fs[..n]) && dir[Final(n)] == Whole(n, StateToDict(FoldAll(init, fs[..n])))
    {
      assert es[..n] == fs[..n];
    }
  }

  /** How a log step moves the envelope count: one more, when the last byte of a copy is put. */
  lemma LogStepLands(c: Codec, s: System, step: Step)
    requires Inv(c, s) && Enabled(c, s, step)
    ensures var t := Apply(c, s, step);
            && s.landed <= t.landed
            && (t.landed != s.landed ==> |t.landed| == |s.landed| + 1 && MidCopy(c, s))
            && (MidCopy(c, t) ==> t.landed == s.landed && (step.BeginAppend? || MidCopy(c, s)))
  {
    hide Inv, ScanAheadSpec, Resize, EncodeFrame;
  }

  lemma LogStepKeepsNode(c: Codec, init: State, n: Node, step: Step)
    requires NodeInv(c, init, n) && NodeEnabled(c, init, n, LogStep(step))
    ensures NodeInv(c, init, NodeApply(c, init, n, LogStep(step)))
  {
    hide Inv, Apply, Wellformedness, FoldAll, WellFormed, DirInv, IsFoldOf, EncodeFrame, IsNewest;
    assert step.Kill? || !step.Kill?;
    var t := Apply(c, n.log, step);
    StepKeepsInv(c, n.log, step);
    WriterKeepsWellformed(c, init, n.log, step);
    LogStepLands(c, n.log, step);
    DirGrows(init, n.dir, n.log.landed, t.landed);
    if n.live.Some? { PrefixFold(init, n.live.value, n.log.landed, t.landed, n.count); }
    if n.live.None? && n.atKill.Some? { PrefixFold(init, n.atKill.value, n.log.landed, t.landed, n.count); }
    if n.snap.Writing? || n.snap.Written? {
      PrefixFold(init, n.snap.state, n.log.landed, t.landed, n.snap.state.lastSeq);
    }
  }

  lemma FoldKeepsNode(c: Codec, init: State, n: Node)
    requires NodeInv(c, init, n) && NodeEnabled(c, init, n, FoldAppended)
    ensures NodeInv(c, init, NodeApply(c, init, n, FoldAppended))
  {
    hide Inv, DirInv, SnapInv, EncodeFrame, Handle, WellFormed;
    var es, k := n.log.landed, n.count;
    LandedNumbered(c, n.log);
    assert es[..k + 1][..k] == es[..k] && es[..k + 1] == es;
  }

  lemma LandedNumbered(c: Codec, s: System)
    requires Inv(c, s)
    ensures Numbered(s.landed)
  {
  }

  lemma SnapKeepsNode(c: Codec, init: State, n: Node, step: NodeStep)
    requires NodeInv(c, init, n) && NodeEnabled(c, init, n, step)
    requires step.SnapOpen? || step.SnapFlush? || step.SnapReplace? || step.PruneOne? || step.SnapDone?
    ensures NodeInv(c, init, NodeApply(c, init, n, step))
  {
    hide Inv, Wellformedness, FoldAll, AllWellFormed, EncodeFrame, StateToDict;
    var t := NodeApply(c, init, n, step);
    if step.SnapReplace? {
      NewestOfListing(step.listing, t.dir);
      LastIsNoVictim(step.listing, step.keepLast);
    }
  }

  lemma LastIsNoVictim(listing: seq<nat>, keepLast: nat)
    requires Ascending(listing) && listing != []
    ensures listing[|listing| - 1] !in Victims(listing, keepLast)
  {
  }

  /** Restart: newest snapshot, then everything in the log past it, is the fold of the whole log. */
  lemma {:induction false} RecoverIsFullReplay(c: Codec, init: State, n: Node)
    requires NodeInv(c, init, n) && IsUp(n.log, Idle)
    requires n.log.file.header.committed == n.log.writer.writeOffset
    ensures n.log.file.header.committed <= |n.log.file.data|
    ensures LoadLatest(n.dir).Some? ==> LoadLatest(n.dir).value.Some?
    ensures AllWellFormed(BaseState(init, n.dir), ReplayRange(c, n.log.file.data, 0, n.log.file.header.committed))
    ensures AllWellFormed(init, n.log.landed)
    ensures Recovered(c, init, n.dir, n.log.file) == FoldAll(init, n.log.landed)
  {
    var es := n.log.landed;
    RecoveredLog(c, n.log);
    assert es[..|es|] == es && es[..0] == [];
    if LoadLatest(n.dir).Some? {
      var j: nat :| IsNewest(n.dir, j) && LoadLatest(n.dir).value == StateFromDict(n.dir[Final(j)].state);
      StateRoundTrip(FoldAll(init, es[..j]));
      hide Inv, Handle, StateToDict, StateFromDict;
      ReplaySkipsFolded(init, es, j, |es|);
    } else {
      hide Inv, Handle;
      ReplaySkipsFolded(init, es, 0, |es|);
    }
  }

  /** After reopening has committed what it found, the committed region replays to everything that landed. */
  lemma RecoveredLog(c: Codec, s: System)
    requires Inv(c, s) && IsUp(s, Idle) && s.file.header.committed == s.writer.writeOffset
    ensures s.file.header.committed <= |s.file.data|
    ensures ReplayRange(c, s.file.data, 0, s.file.header.committed) == s.landed
    ensures Numbered(s.landed)
  {
    RecoveryExact(c, s);
  }

  lemma NodeStepKeepsInv(c: Codec, init: State, n: Node, step: NodeStep)
    requires NodeInv(c, init, n) && NodeEnabled(c, init, n, step)
    ensures NodeInv(c, init, NodeApply(c, init, n, step))
  {
    match step
    case LogStep(s) => LogStepKeepsNode(c, init, n, s);
    case FoldAppended => FoldKeepsNode(c, init, n);
    case Recover => RecoverKeepsNode(c, init, n);
    case _ => SnapKeepsNode(c, init, n, step);
    hide NodeInv, NodeEnabled, NodeApply;
  }

  lemma RecoverKeepsNode(c: Codec, init: State, n: Node)
    requires NodeInv(c, init, n) && NodeEnabled(c, init, n, Recover)
    ensures NodeInv(c, init, NodeApply(c, init, n, Recover))
  {
    hide Inv, DirInv, SnapInv, EncodeFrame, Handle, WellFormed, Recovered;
    RecoverIsFullReplay(c, init, n);
    RecoveredLog(c, n.log);
    FoldCountsSeq(init, n.log.landed);
    assert n.log.landed[..|n.log.landed|] == n.log.landed;
  }

  lemma {:induction false} NodeRunKeepsInv(c: Codec, init: State, capacity: nat, steps: seq<NodeStep>)
    requires capacity > 0 && init.lastSeq == 0 && NodeRuns(c, init, FirstBoot(capacity), steps)
    ensures NodeInv(c, init, NodeExec(c, init, FirstBoot(capacity), steps))
  {
    if steps == [] {
      FreshInv(c, capacity);
    } else {
      NodeRunKeepsInv(c, init, capacity, steps[..|steps| - 1]);
      NodeStepKeepsInv(c, init, NodeExec(c, init, FirstBoot(capacity), steps[..|steps| - 1]), steps[|steps| - 1]);
      hide NodeInv, NodeEnabled, NodeApply;
    }
  }

  /**
   * End to end, over every run of appends, folds, commits, snapshots, prunings, kills and reopenings: once
   * the reopened log is committed, recovery gives the fold of the whole log, which is the live state of
   * the killed process or exactly one appended-but-unfolded event ahead of it.
   */
  lemma {:induction false} SnapshotPlusTailIsFullReplay(c: Codec, init: State, capacity: nat, steps: seq<NodeStep>)
    requires capacity > 0 && init.lastSeq == 0 && NodeRuns(c, init, FirstBoot(capacity), steps)
    requires var n := NodeExec(c, init, FirstBoot(capacity), steps);
             n.live.None? && IsUp(n.log, Idle) && n.log.file.header.committed == n.log.writer.writeOffset
    ensures var n := NodeExec(c, init, FirstBoot(capacity), steps);
            && NodeEnabled(c, init, n, Recover)
            && AllWellFormed(init, n.log.landed)
            && Recovered(c, init, n.dir, n.log.file) == FoldAll(init, n.log.landed)
            && (n.atKill.Some? ==>
                  var was, now := n.atKill.value, FoldAll(init, n.log.landed);
                  || now == was
                  || (n.log.landed != []
                      && WellFormed(was, n.log.landed[|n.log.landed| - 1].event)
                      && now == ApplyEvent(was, n.log.landed[|n.log.landed| - 1])))
  {
    hide Inv, Handle, Recovered, NodeExec, NodeRuns, DirInv, SnapInv, EncodeFrame, FoldAll, WellFormed, AllWellFormed;
    var n := NodeExec(c, init, FirstBoot(capacity), steps);
    NodeRunKeepsInv(c, init, capacity, steps);
    RecoverIsFullReplay(c, init, n);
    AheadByOne(init, n.log.landed, n.count);
    var es := n.log.landed;
    assert es[..|es|] == es;
  }

  lemma AheadByOne(init: State, es: seq<Envelope>, k: nat)
    requires AllWellFormed(init, es) && k <= |es| <= k + 1
    ensures AllWellFormed(init, es[..k])
    ensures |es| == k + 1 ==> WellFormed(FoldAll(init, es[..k]), es[k].event)
                              && FoldAll(init, es) == ApplyEvent(FoldAll(init, es[..k]), es[k])
  {
    hide Handle;
  }

  /** What recovery needs of a directory: everything finished is whole, and there is something if there was. */
  ghost predicate KeepsSnapshots(init: State, es: seq<Envelope>, before: Dir, after: Dir) {
    && DirInv(init, after, es)
    && (forall m: nat | Final(m) in before && Final(m) in after :: after[Final(m)] == before[Final(m)])
    && (forall m: nat | IsNewest(before, m) :: exists k: nat :: IsNewest(after, k) && k >= m)
  }

  /** What loads is the fold of the log up to a snapshot numbered `least` or later. */
  ghost predicate LoadsAtLeast(init: State, es: seq<Envelope>, dir: Dir, least: nat) {
    exists k: nat | least <= k <= |es| ::
      IsNewest(dir, k) && AllWellFormed(init, es[..k]) && LoadLatest(dir) == Some(Some(FoldAll(init, es[..k])))
  }

  lemma NewestLoads(init: State, es: seq<Envelope>, dir: Dir, k: nat)
    requires DirInv(init, dir, es) && IsNewest(dir, k)
    ensures LoadsAtLeast(init, es, dir, k)
  {
    StateRoundTrip(FoldAll(init, es[..k]));
    hide StateToDict, StateFromDict, FoldAll, AllWellFormed;
    forall m: nat | IsNewest(dir, m) ensures m == k { NewestUnique(dir, m, k); }
    assert LoadLatest(dir) == Some(Some(FoldAll(init, es[..k])));
  }

  lemma LoadsLater(init: State, es: seq<Envelope>, dir: Dir, k: nat, m: nat)
    requires LoadsAtLeast(init, es, dir, k) && m <= k
    ensures LoadsAtLeast(init, es, dir, m)
  {
    hide LoadLatest, FoldAll, AllWellFormed, IsNewest;
  }

  /**
   * No step, and so no crash between steps, tears or changes a finished snapshot, or loses the newest: it
   * or a newer one is there, whole, and loads as the fold of the log up to its number.
   */
  lemma NewestSnapshotSurvives(c: Codec, init: State, n: Node, step: NodeStep)
    requires NodeInv(c, init, n) && NodeEnabled(c, init, n, step)
    ensures var t := NodeApply(c, init, n, step);
            && KeepsSnapshots(init, t.log.landed, n.dir, t.dir)
            && forall m: nat | IsNewest(n.dir, m) :: LoadsAtLeast(init, t.log.landed, t.dir, m)
  {
    hide NodeInv, NodeEnabled, NodeApply, DirInv, IsNewest, LoadsAtLeast;
    var t := NodeApply(c, init, n, step);
    NodeStepKeepsInv(c, init, n, step);
    StepKeepsContents(c, init, n, step);
    StepKeepsNewest(c, init, n, step);
    NodeHasDir(c, init, t);
    forall m: nat | IsNewest(n.dir, m) ensures LoadsAtLeast(init, t.log.landed, t.dir, m) {
      var k: nat :| IsNewest(t.dir, k) && k >= m;
      NewestLoads(init, t.log.landed, t.dir, k);
      LoadsLater(init, t.log.landed, t.dir, k, m);
    }
  }

  lemma NodeHasDir(c: Codec, init: State, n: Node)
    requires NodeInv(c, init, n)
    ensures DirInv(init, n.dir, n.log.landed)
  {
  }

  lemma StepKeepsContents(c: Codec, init: State, n: Node, step: NodeStep)
    requires NodeInv(c, init, n) && NodeEnabled(c, init, n, step)
    ensures var t := NodeApply(c, init, n, step);
            forall m: nat | Final(m) in n.dir && Final(m) in t.dir :: t.dir[Final(m)] == n.dir[Final(m)]
  {
    hide Inv, Wellformedness, FoldAll, AllWellFormed, EncodeFrame, StateToDict, Apply, Enabled, Recovered, IsNewest;
  }

  lemma StepKeepsNewest(c: Codec, init: State, n: Node, step: NodeStep)
    requires NodeInv(c, init, n) && NodeEnabled(c, init, n, step)
    ensures forall m: nat | IsNewest(n.dir, m) :: exists k: nat :: IsNewest(NodeApply(c, init, n, step).dir, k) && k >= m
  {
    hide Inv, Wellformedness, FoldAll, AllWellFormed, EncodeFrame, StateToDict, Apply, Enabled, Recovered;
    var t := NodeApply(c, init, n, step);
    match step
    case SnapReplace(_, _) => SurvivesReplace(n.dir, n.snap.state.lastSeq, n.snap.state);
    case PruneOne =>
      forall m: nat | IsNewest(n.dir, m) ensures exists k: nat :: IsNewest(t.dir, k) && k >= m {
        assert IsNewest(t.dir, n.snap.newest);
      }
    case SnapOpen => SurvivesSame(n.dir, t.dir, 0, n.live.value);
    case SnapFlush => SurvivesSame(n.dir, t.dir, 0, n.snap.state);
    case _ => assert t.dir == n.dir;
  }
}
