/**
 * The shadow replica (hobo/replica/tail.py): a second process that maps the same file, reads only up to
 * the committed offset and folds what is new.  Its poll is split into header read, remap and fold, and
 * interleaved at will with the writer's byte-sized steps.
 */
module Replica {
  import opened RiskModel
  import opened Fold
  import opened Format
  import opened LogMachine
  import opened LogWriting

  datatype TailPhase =
    | Waiting
    | HeaderRead(committed: nat, upto: nat)   // `upto` is history: which envelope that offset ends
    | Mapped(committed: nat, upto: nat)

  datatype Tail = Tail(
    mapped: nat,          // length of the mapping
    foldedOffset: nat,
    state: State,
    count: nat,           // history: how many envelopes are folded
    phase: TailPhase)

  datatype Pair = Pair(log: System, tail: Tail)

  datatype PairStep =
    | WriterStep(step: Step)
    | ReadHeader
    | Remap
    | FoldNew

  /** The bytes a mapping of that length shows. */
  function View(data: seq<Byte>, mapped: nat): seq<Byte> {
    if mapped <= |data| then data[..mapped] else data
  }

  ghost function NewEvents(c: Codec, p: Pair): seq<Envelope>
    requires p.tail.phase.Mapped? && p.tail.phase.committed <= |View(p.log.file.data, p.tail.mapped)|
  {
    ReplayRange(c, View(p.log.file.data, p.tail.mapped), p.tail.foldedOffset, p.tail.phase.committed)
  }

  ghost predicate PairEnabled(c: Codec, init: State, p: Pair, step: PairStep) {
    match step
    case WriterStep(s) => Enabled(c, p.log, s) && (s.BeginAppend? ==> WellFormed(init, s.e.event))
    case ReadHeader => p.tail.phase.Waiting?
    case Remap => p.tail.phase.HeaderRead?
    case FoldNew =>
      && p.tail.phase.Mapped? && p.tail.phase.committed <= |View(p.log.file.data, p.tail.mapped)|
      && AllWellFormed(p.tail.state, NewEvents(c, p))
  }

  ghost function PairApply(c: Codec, init: State, p: Pair, step: PairStep): Pair
    requires PairEnabled(c, init, p, step)
  {
    var h, t := p.log.file.header, p.tail;
    match step
    case WriterStep(s) => p.(log := Apply(c, p.log, s))
    case ReadHeader =>
      if h.committed <= t.foldedOffset then p
      else p.(tail := t.(phase := HeaderRead(h.committed, h.lastSeq)))
    case Remap =>
      p.(tail := t.(mapped := if t.phase.committed > t.mapped then |p.log.file.data| else t.mapped,
                    phase := Mapped(t.phase.committed, t.phase.upto)))
    case FoldNew =>
      p.(tail := t.(state := FoldAll(t.state, NewEvents(c, p)), foldedOffset := t.phase.committed,
                    count := t.phase.upto, phase := Waiting))
  }

  ghost predicate PairRuns(c: Codec, init: State, p: Pair, steps: seq<PairStep>)
    decreases |steps|, 0
  {
    steps == [] || (PairRuns(c, init, p, steps[..|steps| - 1])
                    && PairEnabled(c, init, PairExec(c, init, p, steps[..|steps| - 1]), steps[|steps| - 1]))
  }

  ghost function PairExec(c: Codec, init: State, p: Pair, steps: seq<PairStep>): Pair
    requires PairRuns(c, init, p, steps)
    decreases |steps|, 1
  {
    if steps == [] then p
    else PairApply(c, init, PairExec(c, init, p, steps[..|steps| - 1]), steps[|steps| - 1])
  }

  /** A replica attached with a fresh state to an existing file. */
  function Attach(init: State, log: System): Tail { Tail(|log.file.data|, 0, init, 0, Waiting) }

  // ---- invariant ----

  /** Only well-formed payloads are in the log, or about to be. */
  ghost predicate Wellformedness(init: State, log: System) {
    && AllWellFormed(init, log.landed)
    && (log.writer.Up? && log.writer.phase.Copying? ==> WellFormed(init, log.writer.phase.e.event))
  }

  /** The replica's state is the fold of the first `count` envelopes, whose frames end at its offset. */
  ghost predicate TailInv(c: Codec, init: State, log: System, t: Tail) {
    && t.count <= log.file.header.lastSeq <= |log.landed|
    && t.foldedOffset == End(c, log.landed, t.count)
    && AllWellFormed(init, log.landed[..t.count])
    && t.state == FoldAll(init, log.landed[..t.count])
    && (!t.phase.Waiting? ==>
          && t.count <= t.phase.upto <= log.file.header.lastSeq
          && t.phase.committed == End(c, log.landed, t.phase.upto))
    && (t.phase.Mapped? ==> t.phase.committed <= t.mapped)
  }

  ghost predicate PairInv(c: Codec, init: State, p: Pair) {
    Inv(c, p.log) && Wellformedness(init, p.log) && TailInv(c, init, p.log, p.tail)
  }

  lemma AttachInv(c: Codec, init: State, log: System)
    requires Inv(c, log) && Wellformedness(init, log)
    ensures PairInv(c, init, Pair(log, Attach(init, log)))
  {
    assert log.landed[..0] == [];
  }

  /** The writer only ever appends to what landed and only moves its pointer forward. */
  lemma WriterMovesForward(c: Codec, s: System, step: Step)
    requires Inv(c, s) && Enabled(c, s, step)
    ensures var t := Apply(c, s, step);
            s.landed <= t.landed && s.file.header.lastSeq <= t.file.header.lastSeq
  {
    hide EncodeFrame, EncodeAll, NoNewlineFrom, ScanAheadSpec, Resize;
  }

  lemma WriterKeepsWellformed(c: Codec, init: State, s: System, step: Step)
    requires Enabled(c, s, step) && Wellformedness(init, s)
    requires step.BeginAppend? ==> WellFormed(init, step.e.event)
    ensures Wellformedness(init, Apply(c, s, step))
  {
    hide EncodeFrame, WellFormed, ScanAheadSpec, Resize;
  }

  lemma WriterKeepsTail(c: Codec, init: State, p: Pair, step: Step)
    requires PairInv(c, init, p) && PairEnabled(c, init, p, WriterStep(step))
    ensures PairInv(c, init, p.(log := Apply(c, p.log, step)))
  {
    hide Inv, Apply, Enabled, Wellformedness, FoldAll, WellFormed;
    var t := Apply(c, p.log, step);
    StepKeepsInv(c, p.log, step);
    InvBoundsPointer(c, t);
    WriterMovesForward(c, p.log, step);
    WriterKeepsWellformed(c, init, p.log, step);
    assert t.landed[..p.tail.count] == p.log.landed[..p.tail.count];
    if !p.tail.phase.Waiting? {
      assert t.landed[..p.tail.phase.upto] == p.log.landed[..p.tail.phase.upto];
    }
  }

  lemma InvBoundsPointer(c: Codec, s: System)
    requires Inv(c, s)
    ensures s.file.header.lastSeq <= |s.landed| && s.file.header.committed == End(c, s.landed, s.file.header.lastSeq)
    ensures |EncodeAll(c, s.landed)| <= s.file.header.capacity <= |s.file.data|
  {
  }

  /** A poll past its remap always finds the bytes it needs mapped, and they are the envelopes not yet folded. */
  lemma NewEventsAre(c: Codec, init: State, p: Pair)
    requires PairInv(c, init, p) && p.tail.phase.Mapped?
    ensures p.tail.phase.committed <= |View(p.log.file.data, p.tail.mapped)|
    ensures NewEvents(c, p) == p.log.landed[p.tail.count..p.tail.phase.upto]
  {
    var data, view := p.log.file.data, View(p.log.file.data, p.tail.mapped);
    var j, k := p.tail.count, p.tail.phase.upto;
    var part := p.log.landed[..k];
    EncodeAllPrefix(c, p.log.landed, k);
    assert EncodeAll(c, part) == data[..p.tail.phase.committed] == view[..p.tail.phase.committed];
    assert part[..j] == p.log.landed[..j] && part[..k] == part;
    ReplayBetween(c, view, part, j, k);
    assert part[j..k] == p.log.landed[j..k];
  }

  lemma FoldNewKeepsInv(c: Codec, init: State, p: Pair)
    requires PairInv(c, init, p) && p.tail.phase.Mapped?
    ensures PairEnabled(c, init, p, FoldNew)
    ensures PairInv(c, init, PairApply(c, init, p, FoldNew))
  {
    hide Inv, WellFormed;
    var j, k, es := p.tail.count, p.tail.phase.upto, p.log.landed;
    NewEventsAre(c, init, p);
    hide View, NewEvents;
    assert es[..k] == es[..j] + es[j..k];
    FoldConcat(init, es[..j], es[j..k]);
  }

  lemma PairStepKeepsInv(c: Codec, init: State, p: Pair, step: PairStep)
    requires PairInv(c, init, p) && PairEnabled(c, init, p, step)
    ensures PairInv(c, init, PairApply(c, init, p, step))
  {
    hide Inv, Wellformedness, FoldAll, AllWellFormed;
    match step
    case WriterStep(s) => WriterKeepsTail(c, init, p, s);
    case ReadHeader =>
      InvBoundsPointer(c, p.log);
    case Remap =>
      InvBoundsPointer(c, p.log);
      EncodeAllPrefix(c, p.log.landed, p.tail.phase.upto);
    case FoldNew => FoldNewKeepsInv(c, init, p);
  }

  /**
   * Replica convergence: started fresh, and however its polls interleave with the writer, the replica's
   * state is the fold of exactly the first `count` envelopes, which end at its offset and are committed.
   */
  lemma {:induction false} ReplicaConverges(c: Codec, init: State, log: System, steps: seq<PairStep>)
    requires Inv(c, log) && Wellformedness(init, log)
    requires PairRuns(c, init, Pair(log, Attach(init, log)), steps)
    ensures var p := PairExec(c, init, Pair(log, Attach(init, log)), steps);
            && PairInv(c, init, p)
            && p.tail.count <= p.log.file.header.lastSeq <= |p.log.landed|
            && p.tail.foldedOffset == End(c, p.log.landed, p.tail.count) <= p.log.file.header.committed
            && AllWellFormed(init, p.log.landed[..p.tail.count])
            && p.tail.state == FoldAll(init, p.log.landed[..p.tail.count])
  {
    hide Inv, Wellformedness, FoldAll, AllWellFormed, PairExec, PairRuns;
    PairRunKeepsInv(c, init, log, steps);
    var p := PairExec(c, init, Pair(log, Attach(init, log)), steps);
    InvBoundsPointer(c, p.log);
    if p.tail.count < p.log.file.header.lastSeq {
      EndStrict(c, p.log.landed, p.tail.count, p.log.file.header.lastSeq);
    }
  }

  lemma {:induction false} PairRunKeepsInv(c: Codec, init: State, log: System, steps: seq<PairStep>)
    requires Inv(c, log) && Wellformedness(init, log)
    requires PairRuns(c, init, Pair(log, Attach(init, log)), steps)
    ensures PairInv(c, init, PairExec(c, init, Pair(log, Attach(init, log)), steps))
  {
    hide PairInv, PairEnabled, PairApply;
    if steps == [] {
      AttachInv(c, init, log);
    } else {
      var prior := steps[..|steps| - 1];
      PairRunKeepsInv(c, init, log, prior);
      PairStepKeepsInv(c, init, PairExec(c, init, Pair(log, Attach(init, log)), prior), steps[|steps| - 1]);
    }
  }

  /** The replica is never ahead of what a restart of the primary would find, after a process crash or power loss. */
  lemma {:induction false} ReplicaNeverAheadOfRestart(c: Codec, init: State, p: Pair)
    requires PairInv(c, init, p)
    ensures p.log.disk.header.committed <= |p.log.disk.data| && p.log.disk.header.capacity <= |p.log.disk.data|
    ensures p.tail.count <= |p.log.landed|
    ensures p.log.landed[..p.tail.count] <= ReopenedFrom(c, p.log.disk)
  {
    hide Inv, FoldAll, AllWellFormed, ReopenedFrom;
    RestartFindsPointer(c, p.log);
    assert p.log.landed[..p.tail.count] <= p.log.landed[..p.log.file.header.lastSeq];
  }

  /** One poll with no writer step in between. */
  ghost function Poll(c: Codec, init: State, p: Pair): Pair
    requires PairInv(c, init, p) && p.tail.phase.Waiting?
  {
    var read := PairApply(c, init, p, ReadHeader);
    if read.tail.phase.Waiting? then read
    else
      PairStepKeepsInv(c, init, p, ReadHeader);
      PairStepKeepsInv(c, init, read, Remap);
      FoldNewKeepsInv(c, init, PairApply(c, init, read, Remap));
      PairApply(c, init, PairApply(c, init, read, Remap), FoldNew)
  }

  /** A quiet poll brings the replica to the primary's committed state. */
  lemma {:induction false} PollReachesCommitted(c: Codec, init: State, p: Pair)
    requires PairInv(c, init, p) && p.tail.phase.Waiting?
    ensures var q, h := Poll(c, init, p), p.log.file.header;
            && q.log == p.log && q.tail.phase.Waiting? && PairInv(c, init, q)
            && q.tail.foldedOffset == h.committed && q.tail.count == h.lastSeq
            && AllWellFormed(init, p.log.landed[..h.lastSeq])
            && q.tail.state == FoldAll(init, p.log.landed[..h.lastSeq])
  {
    hide Inv, FoldAll, AllWellFormed;
    var h, read := p.log.file.header, PairApply(c, init, p, ReadHeader);
    InvBoundsPointer(c, p.log);
    if read.tail.phase.Waiting? {
      if p.tail.count < h.lastSeq {
        EndStrict(c, p.log.landed, p.tail.count, h.lastSeq);
      }
    } else {
      PairStepKeepsInv(c, init, p, ReadHeader);
      PairStepKeepsInv(c, init, read, Remap);
      FoldNewKeepsInv(c, init, PairApply(c, init, read, Remap));
    }
  }

  /**
   * The pointer a replica trusts is visible before it is on disk: after a quiet poll the replica is ahead of
   * the pointer power loss would leave exactly when that pointer has not been written back.
   */
  lemma AheadOfDiskIff(c: Codec, init: State, p: Pair)
    requires PairInv(c, init, p) && p.tail.phase.Waiting?
    ensures var q := Poll(c, init, p);
            && q.log == p.log
            && (q.tail.count > q.log.disk.header.lastSeq
                <==> p.log.file.header.lastSeq > p.log.disk.header.lastSeq)
            && (q.tail.foldedOffset > q.log.disk.header.committed
                <==> p.log.file.header.lastSeq > p.log.disk.header.lastSeq)
  {
    hide Inv, Poll, FoldAll, AllWellFormed, Wellformedness;
    PollReachesCommitted(c, init, p);
    InvBoundsPointer(c, p.log);
    InvBoundsDisk(c, p.log);
    if p.log.file.header.lastSeq > p.log.disk.header.lastSeq {
      EndStrict(c, p.log.landed, p.log.disk.header.lastSeq, p.log.file.header.lastSeq);
    }
    hide End;
  }

  lemma InvBoundsDisk(c: Codec, s: System)
    requires Inv(c, s)
    ensures s.disk.header.lastSeq <= s.file.header.lastSeq <= |s.landed|
    ensures s.disk.header.committed == End(c, s.landed, s.disk.header.lastSeq)
  {
  }

  const STORED_NOT_SYNCED := [WriterStep(SyncData), WriterStep(StorePointer)]

  /** And a run gets there: a poll between the writer's pointer store and its sync, whenever there is something to commit. */
  lemma PollBetweenStoreAndSync(c: Codec, init: State, p: Pair)
    requires PairInv(c, init, p) && p.tail.phase.Waiting?
    requires IsUp(p.log, Idle) && p.log.file.header.lastSeq < |p.log.landed|
    ensures PairRuns(c, init, p, STORED_NOT_SYNCED)
    ensures var q := PairExec(c, init, p, STORED_NOT_SYNCED);
            && PairInv(c, init, q) && q.tail == p.tail
            && Poll(c, init, q).tail.count > q.log.disk.header.lastSeq
            && Poll(c, init, q).tail.foldedOffset > q.log.disk.header.committed
  {
    hide Inv, Poll, FoldAll, AllWellFormed, Wellformedness, TailInv, Runs, Exec;
    var a := StoreEnabled(c, p.log);
    PairStepKeepsInv(c, init, p, WriterStep(SyncData));
    var m := PairApply(c, init, p, WriterStep(SyncData));
    PairStepKeepsInv(c, init, m, WriterStep(StorePointer));
    assert STORED_NOT_SYNCED[..1] == [WriterStep(SyncData)] && STORED_NOT_SYNCED[..1][..0] == [];
    assert PairExec(c, init, p, STORED_NOT_SYNCED[..1]) == m;
    var q := PairApply(c, init, m, WriterStep(StorePointer));
    assert PairExec(c, init, p, STORED_NOT_SYNCED) == q && q.log == a;
    AheadOfDiskIff(c, init, q);
  }

  lemma StoreEnabled(c: Codec, s: System) returns (t: System)
    requires Inv(c, s) && IsUp(s, Idle) && s.file.header.lastSeq < |s.landed|
    ensures Enabled(c, s, SyncData) && Enabled(c, Apply(c, s, SyncData), StorePointer)
    ensures t == Apply(c, Apply(c, s, SyncData), StorePointer)
    ensures t.file.header.lastSeq > t.disk.header.lastSeq
  {
    t := Apply(c, Apply(c, s, SyncData), StorePointer);
    hide EncodeFrame, EncodeAll, NoNewlineFrom, Holds;
  }

  /** The replica process: its own mapping of the shared file, and the state it keeps warm. */
  class ReplicaTail {
    const codec: Codec
    const file: LogFile
    const state: LiveState
    var mapped: nat
    var foldedOffset: nat
    ghost const init: State
    ghost var count: nat

    ghost function Value(): Tail
      reads this, state
    {
      Tail(mapped, foldedOffset, state.Value(), count, Waiting)
    }

    constructor (codec: Codec, file: LogFile, state: LiveState, ghost log: System)
      requires Inv(codec, log) && Wellformedness(state.Value(), log) && log.file == file.Image()
      ensures this.codec == codec && this.file == file && this.state == state && init == state.Value()
      ensures PairInv(codec, init, Pair(log, Value()))
    {
      this.codec, this.file, this.state := codec, file, state;
      init := state.Value();
      mapped, foldedOffset, count := file.data.Length, 0, 0;
      new;
      AttachInv(codec, init, log);
    }

    /** Folds any newly committed events and returns how many there were. */
    method PollOnce(ghost log: System) returns (folded: nat)
      requires log.file == file.Image() && PairInv(codec, init, Pair(log, Value()))
      modifies this, state
      ensures Pair(log, Value()) == old(Poll(codec, init, Pair(log, Value())))
      ensures PairInv(codec, init, Pair(log, Value()))
      ensures folded == count - old(count)
      ensures foldedOffset == file.header.committed
    {
      hide Inv, FoldAll, AllWellFormed, Holds;
      ghost var p := Pair(log, Value());
      PollReachesCommitted(codec, init, p);
      var committed := file.header.committed;
      if committed <= foldedOffset {
        return 0;
      }
      if committed > mapped {
        mapped := file.data.Length;
      }
      ghost var read := PairApply(codec, init, p, ReadHeader);
      PairStepKeepsInv(codec, init, p, ReadHeader);
      PairStepKeepsInv(codec, init, read, Remap);
      ghost var ready := PairApply(codec, init, read, Remap);
      NewEventsAre(codec, init, ready);
      FoldNewKeepsInv(codec, init, ready);
      var view := if mapped <= file.data.Length then file.data[..mapped] else file.data[..];
      var events := ReplayRange(codec, view, foldedOffset, committed);
      assert events == NewEvents(codec, ready);
      FoldEvents(events);
      foldedOffset := committed;
      count := file.header.lastSeq;
      return |events|;
    }

    method FoldEvents(events: seq<Envelope>)
      requires AllWellFormed(state.Value(), events)
      modifies state
      ensures state.Value() == FoldAll(old(state.Value()), events)
    {
      for i := 0 to |events|
        invariant AllWellFormed(old(state.Value()), events[..i])
        invariant state.Value() == FoldAll(old(state.Value()), events[..i])
      {
        assert events[..i + 1][..i] == events[..i];
        WellFormedThere(old(state.Value()), events, i);
        state.Apply(events[i]);
      }
      assert events[..|events|] == events;
    }
  }

  /** An event the starting state can handle is one every later state can handle. */
  lemma WellFormedThere(s: State, es: seq<Envelope>, i: nat)
    requires AllWellFormed(s, es) && i < |es|
    ensures AllWellFormed(s, es[..i]) && AllWellFormed(s, es[..i + 1])
    ensures WellFormed(FoldAll(s, es[..i]), es[i].event)
    ensures FoldAll(s, es[..i + 1]) == ApplyEvent(FoldAll(s, es[..i]), es[i])
  {
    assert es[..i + 1][..i] == es[..i];
  }
}
