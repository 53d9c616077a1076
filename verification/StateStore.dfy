/**
 * The imperative ends of recovery: the single path that appends then folds (hobo/core/state_store.py)
 * and the start-up routine that rebuilds the state (hobo/log/recovery.py).
 */
module StateStoring {
  import opened Wrappers
  import opened RiskModel
  import opened Fold
  import opened Format
  import opened LogMachine
  import opened LogWriting
  import opened Replica
  import opened Snapshots
  import opened Recovery
  import StateJson

  /** Owns the live state and the log together; outside `Record` the state is the fold of the log. */
  class StateStore {
    const state: LiveState
    const writer: LogWriter
    ghost const init: State

    ghost predicate Valid()
      reads state, writer, writer.file, writer.file.data
    {
      && writer.Valid()
      && AllWellFormed(init, writer.sys.landed)
      && state.Value() == FoldAll(init, writer.sys.landed)
    }

    constructor (state: LiveState, writer: LogWriter, ghost init: State)
      requires writer.Valid() && AllWellFormed(init, writer.sys.landed)
      requires state.Value() == FoldAll(init, writer.sys.landed)
      ensures Valid() && this.state == state && this.writer == writer && this.init == init
    {
      this.state, this.writer, this.init := state, writer, init;
    }

    method Record(event: LogEvent, tsNs: int) returns (envelope: Envelope)
      requires Valid() && WellFormed(state.Value(), event)
      requires writer.codec.Encodes(Envelope(writer.lastSeq + 1, tsNs, event))
      modifies state, writer, writer.file, writer.file.data
      ensures Valid()
      ensures envelope == Envelope(old(writer.lastSeq) + 1, tsNs, event)
      ensures writer.lastSeq == old(writer.lastSeq) + 1
      ensures writer.sys.landed == old(writer.sys.landed) + [envelope]
      ensures state.Value() == old(ApplyEvent(state.Value(), Envelope(writer.lastSeq + 1, tsNs, event)))
      ensures writer.file.data == old(writer.file.data) || fresh(writer.file.data)
    {
      hide Inv, Handle, FoldAll, WellFormed, Enabled, Apply, Exec, Runs;
      envelope := writer.Append(event, tsNs);
      state.Apply(envelope);
      FoldOneMore(init, old(writer.sys.landed), envelope);
    }
  }

  lemma FoldOneMore(s: State, es: seq<Envelope>, e: Envelope)
    requires AllWellFormed(s, es) && WellFormed(FoldAll(s, es), e.event)
    ensures AllWellFormed(s, es + [e])
    ensures FoldAll(s, es + [e]) == ApplyEvent(FoldAll(s, es), e)
  {
    hide Handle;
    assert (es + [e])[..|es|] == es;
  }

  /** Newest snapshot or fresh state, then the committed events past it. */
  method RecoverState(c: Codec, file: LogFile, snapshots: SnapshotDir, freshState: State)
    returns (state: LiveState, recoveredFromSnapshot: bool, replayed: nat)
    requires file.header.committed <= file.data.Length
    requires forall name <- snapshots.files ::
      name.Final? ==> snapshots.files[name].Whole? && StateJson.StateFromDict(snapshots.files[name].state).Some?
    requires LoadLatest(snapshots.files).Some? ==> LoadLatest(snapshots.files).value.Some?
    requires AllWellFormed(BaseState(freshState, snapshots.files),
                           ReplayRange(c, file.data[..], 0, file.header.committed))
    ensures fresh(state)
    ensures state.Value() == Recovered(c, freshState, snapshots.files, file.Image())
    ensures recoveredFromSnapshot == LoadLatest(snapshots.files).Some?
    ensures var es, last := ReplayRange(c, file.data[..], 0, file.header.committed),
                            BaseState(freshState, snapshots.files).lastSeq;
            Numbered(es) && 0 <= last <= |es| ==> replayed == |es| - last
  {
    hide Handle, WellFormed, LoadLatest;
    var loaded := snapshots.LoadLatestState();
    recoveredFromSnapshot := loaded.Some?;
    ghost var base := BaseState(freshState, snapshots.files);
    state := new LiveState(if loaded.Some? then loaded.value else freshState);
    assert state.Value() == base;
    var es := ReplayRange(c, file.data[..], 0, file.header.committed);
    replayed := 0;
    for i := 0 to |es|
      invariant fresh(state)
      invariant Numbered(es) && 0 <= base.lastSeq ==>
        if i <= base.lastSeq then replayed == 0 && state.lastSeq == base.lastSeq
        else replayed == i - base.lastSeq && state.lastSeq == i
      invariant AllWellFormed(base, es[..i]) && state.Value() == ReplayOnto(base, es[..i])
    {
      ReplayLast(base, es, i + 1);
      if es[i].seqNo > state.lastSeq {
        state.Apply(es[i]);
        replayed := replayed + 1;
      }
    }
    assert es[..|es|] == es;
  }
}
