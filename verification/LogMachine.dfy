/**
 * The single-writer log as a machine of small steps (hobo/log/writer.py): one byte copied at a time,
 * growth in two steps, commit in three, a kill between any two.  `file` is what the page cache holds
 * and a process crash leaves; `disk` is what power loss leaves, to which the system may write back any
 * byte at any moment and which an fsync makes equal to `file`.
 */
module LogMachine {
  import opened RiskModel
  import opened Format

  datatype Image = Image(header: Header, data: seq<Byte>)

  datatype Phase =
    | Idle
    | Copying(e: Envelope, k: nat)    // append: k bytes of e's frame have been stored
    | Truncated(capacity: nat)        // grow: the file has its new length, the header its old capacity
    | Synced                          // commit: data is on disk, the pointer not yet moved
    | Pointed                         // commit: the pointer is moved, not yet on disk

  datatype Writer =
    | Down
    | Up(writeOffset: nat, committed: nat, lastSeq: int, capacity: nat, phase: Phase)

  datatype System = System(
    file: Image,
    disk: Image,
    writer: Writer,
    landed: seq<Envelope>,   // envelopes all of whose bytes were stored, in order
    promised: nat)           // how many of them the last commit that returned covers

  datatype Step =
    | Open
    | BeginAppend(e: Envelope)
    | PutByte
    | EndAppend
    | Truncate(factor: nat)
    | StoreCapacity
    | SyncData
    | StorePointer
    | SyncPointer
    | Kill
    | WriteBackData(i: nat)
    | WriteBackCapacity
    | WriteBackPointer

  function Zeros(n: nat): seq<Byte> { seq(n, _ => 0) }

  /** ftruncate: cut off, or extend with zeros. */
  function Resize(data: seq<Byte>, n: nat): seq<Byte> {
    if n <= |data| then data[..n] else data + Zeros(n - |data|)
  }

  /** A newly created log: header written and synced, nothing appended, no process attached. */
  function Fresh(capacity: nat): System {
    var image := Image(Header(capacity, 0, 0), Zeros(capacity));
    System(image, image, Down, [], 0)
  }

  predicate IsUp(s: System, phase: Phase) { s.writer.Up? && s.writer.phase == phase }

  ghost predicate Enabled(c: Codec, s: System, step: Step) {
    match step
    case Open => s.writer.Down? && s.file.header.capacity <= |s.file.data|
    case BeginAppend(e) =>
      && IsUp(s, Idle) && c.Encodes(e) && e.seqNo == s.writer.lastSeq + 1
      && s.writer.writeOffset + |EncodeFrame(c, e)| <= s.writer.capacity
    case PutByte =>
      && s.writer.Up? && s.writer.phase.Copying? && s.writer.phase.k < |EncodeFrame(c, s.writer.phase.e)|
      && s.writer.writeOffset + s.writer.phase.k < |s.file.data|
    case EndAppend =>
      s.writer.Up? && s.writer.phase.Copying? && s.writer.phase.k == |EncodeFrame(c, s.writer.phase.e)|
    case Truncate(factor) => IsUp(s, Idle) && factor >= 2
    case StoreCapacity => s.writer.Up? && s.writer.phase.Truncated?
    case SyncData => IsUp(s, Idle)
    case StorePointer => IsUp(s, Synced) && s.writer.lastSeq >= 0
    case SyncPointer => IsUp(s, Pointed)
    case Kill => s.writer.Up?
    case WriteBackData(i) => i < |s.file.data| && i < |s.disk.data|
    case WriteBackCapacity => true
    case WriteBackPointer => true
  }

  ghost function Apply(c: Codec, s: System, step: Step): System
    requires Enabled(c, s, step)
  {
    var w, h := s.writer, s.file.header;
    match step
    case Open =>
      var scan := ScanAheadSpec(c, s.file.data, h.committed, h.capacity, h.lastSeq);
      s.(writer := Up(scan.offset, h.committed, scan.lastSeq, h.capacity, Idle))
    case BeginAppend(e) => s.(writer := w.(phase := Copying(e, 0)))
    case PutByte =>
      var e, k := w.phase.e, w.phase.k;
      var frame := EncodeFrame(c, e);
      s.(file := s.file.(data := s.file.data[w.writeOffset + k := frame[k]]),
         writer := w.(phase := Copying(e, k + 1)),
         landed := if k + 1 == |frame| then s.landed + [e] else s.landed)
    case EndAppend =>
      s.(writer := w.(writeOffset := w.writeOffset + w.phase.k, lastSeq := w.phase.e.seqNo, phase := Idle))
    case Truncate(factor) =>
      var capacity := w.capacity * factor;
      s.(file := s.file.(data := Resize(s.file.data, capacity)),
         disk := s.disk.(data := Resize(s.disk.data, capacity)),
         writer := w.(phase := Truncated(capacity)))
    case StoreCapacity =>
      s.(file := s.file.(header := h.(capacity := w.phase.capacity)),
         writer := w.(capacity := w.phase.capacity, phase := Idle))
    case SyncData => s.(disk := s.file, writer := w.(phase := Synced))
    case StorePointer =>
      s.(file := s.file.(header := h.(committed := w.writeOffset, lastSeq := w.lastSeq)),
         writer := w.(phase := Pointed))
    case SyncPointer =>
      s.(disk := s.file, writer := w.(committed := w.writeOffset, phase := Idle), promised := |s.landed|)
    case Kill => s.(writer := Down)
    case WriteBackData(i) => s.(disk := s.disk.(data := s.disk.data[i := s.file.data[i]]))
    case WriteBackCapacity => s.(disk := s.disk.(header := s.disk.header.(capacity := h.capacity)))
    case WriteBackPointer =>
      s.(disk := s.disk.(header := s.disk.header.(committed := h.committed, lastSeq := h.lastSeq)))
  }

  /** Every step of the list is possible where it is taken. */
  ghost predicate Runs(c: Codec, s: System, steps: seq<Step>)
    decreases |steps|, 0
  {
    steps == [] || (Runs(c, s, steps[..|steps| - 1])
                    && Enabled(c, Exec(c, s, steps[..|steps| - 1]), steps[|steps| - 1]))
  }

  ghost function Exec(c: Codec, s: System, steps: seq<Step>): System
    requires Runs(c, s, steps)
    decreases |steps|, 1
  {
    if steps == [] then s
    else Apply(c, Exec(c, s, steps[..|steps| - 1]), steps[|steps| - 1])
  }

  // ---- the invariant ----

  ghost predicate Numbered(es: seq<Envelope>) { forall i | 0 <= i < |es| :: es[i].seqNo == i + 1 }

  /**
   * The file holds the landed frames, then leftovers without a newline past the next length prefix;
   * its header points at the end of one of those frames.
   */
  ghost predicate FileInv(c: Codec, file: Image, landed: seq<Envelope>) {
    && Holds(c, file.data, landed) && Numbered(landed)
    && NoNewlineFrom(file.data, |EncodeAll(c, landed)| + FRAME_LEN_SIZE)
    && 0 < file.header.capacity <= |file.data|
    && |EncodeAll(c, landed)| <= file.header.capacity
    && file.header.lastSeq <= |landed|
    && file.header.committed == End(c, landed, file.header.lastSeq)
  }

  /** Everything below the file's pointer is on disk, and the disk's pointer is an earlier boundary. */
  ghost predicate DiskInv(c: Codec, s: System) {
    var fh, dh := s.file.header, s.disk.header;
    && |s.disk.data| == |s.file.data|
    && fh.committed <= |s.file.data|
    && s.disk.data[..fh.committed] == s.file.data[..fh.committed]
    && s.promised <= dh.lastSeq <= fh.lastSeq <= |s.landed|
    && dh.committed == End(c, s.landed, dh.lastSeq)
    && fh.committed <= dh.capacity <= fh.capacity
  }

  ghost predicate CopyInv(c: Codec, s: System)
    requires s.writer.Up? && s.writer.phase.Copying?
  {
    var w, e, k := s.writer, s.writer.phase.e, s.writer.phase.k;
    var frame := EncodeFrame(c, e);
    && c.Encodes(e) && k <= |frame| && w.writeOffset + |frame| <= w.capacity <= |s.file.data|
    && if k < |frame| then
         && w.writeOffset == |EncodeAll(c, s.landed)| && w.lastSeq == |s.landed| && e.seqNo == |s.landed| + 1
         && s.file.data[w.writeOffset..w.writeOffset + k] == frame[..k]
       else
         && w.writeOffset + k == |EncodeAll(c, s.landed)| && e.seqNo == |s.landed|
  }

  ghost predicate WriterInv(c: Codec, s: System) {
    s.writer.Up? ==>
      var w, h := s.writer, s.file.header;
      && w.capacity == h.capacity
      && (w.phase.Copying? ==> CopyInv(c, s))
      && (!w.phase.Copying? ==> w.writeOffset == |EncodeAll(c, s.landed)| && w.lastSeq == |s.landed|)
      && (w.phase.Truncated? ==> w.phase.capacity >= w.capacity && |s.file.data| == w.phase.capacity)
      && (w.phase.Synced? ==> w.writeOffset <= s.disk.header.capacity
                              && w.writeOffset <= |s.disk.data| == |s.file.data|
                              && s.disk.data[..w.writeOffset] == s.file.data[..w.writeOffset])
      && (w.phase.Pointed? ==> h.committed == w.writeOffset && h.lastSeq == w.lastSeq)
      && (!w.phase.Pointed? ==> w.committed == h.committed)
  }

  ghost predicate Inv(c: Codec, s: System) {
    FileInv(c, s.file, s.landed) && DiskInv(c, s) && WriterInv(c, s)
  }

  lemma FreshInv(c: Codec, capacity: nat)
    requires capacity > 0
    ensures Inv(c, Fresh(capacity))
  {
    assert Fresh(capacity).landed[..0] == [];
  }

  lemma EndAfterSnoc(c: Codec, es: seq<Envelope>, e: Envelope)
    ensures EncodeAll(c, es + [e]) == EncodeAll(c, es) + EncodeFrame(c, e)
    ensures forall k | 0 <= k <= |es| :: End(c, es + [e], k) == End(c, es, k)
  {
    assert (es + [e])[..|es|] == es;
    forall k | 0 <= k <= |es| ensures End(c, es + [e], k) == End(c, es, k) {
      assert (es + [e])[..k] == es[..k];
    }
  }

  lemma OpenKeepsInv(c: Codec, s: System)
    requires Inv(c, s) && Enabled(c, s, Open)
    ensures Inv(c, Apply(c, s, Open))
  {
    RecoveryExact(c, s);
  }

  lemma BeginAppendKeepsInv(c: Codec, s: System, e: Envelope)
    requires Inv(c, s) && Enabled(c, s, BeginAppend(e))
    ensures Inv(c, Apply(c, s, BeginAppend(e)))
  {
  }

  /** Storing a byte at or past n leaves the first n alone. */
  lemma StoreKeepsPrefix(data: seq<Byte>, i: nat, b: Byte, n: nat)
    requires n <= i < |data|
    ensures data[i := b][..n] == data[..n]
  {
  }

  lemma PutByteKeepsDisk(c: Codec, s: System)
    requires Inv(c, s) && Enabled(c, s, PutByte)
    ensures DiskInv(c, Apply(c, s, PutByte))
  {
    var w, h := s.writer, s.file.header;
    var frame := EncodeFrame(c, w.phase.e);
    EncodeAllPrefix(c, s.landed, h.lastSeq);
    EndAfterSnoc(c, s.landed, w.phase.e);
    StoreKeepsPrefix(s.file.data, w.writeOffset + w.phase.k, frame[w.phase.k], h.committed);
    hide EncodeFrame, End, Holds, NoNewlineFrom;
  }

  /** The bytes put so far, one longer. */
  lemma PutByteExtendsCopy(c: Codec, s: System)
    requires Inv(c, s) && Enabled(c, s, PutByte)
    ensures var t, n, k := Apply(c, s, PutByte), s.writer.writeOffset, s.writer.phase.k;
            && t.file.data[n..n + k + 1] == EncodeFrame(c, s.writer.phase.e)[..k + 1]
            && t.file.data[..n] == s.file.data[..n] == EncodeAll(c, s.landed)
            && |t.file.data| == |s.file.data| && t.file.header == s.file.header
            && c.Encodes(s.writer.phase.e) && s.writer.phase.e.seqNo == |s.landed| + 1
            && n + |EncodeFrame(c, s.writer.phase.e)| <= s.file.header.capacity
            && t.landed == if k + 1 == |EncodeFrame(c, s.writer.phase.e)|
                           then s.landed + [s.writer.phase.e] else s.landed
  {
    var t, n, k := Apply(c, s, PutByte), s.writer.writeOffset, s.writer.phase.k;
    var frame := EncodeFrame(c, s.writer.phase.e);
    assert t.file.data[n..n + k + 1] == s.file.data[n..n + k] + [frame[k]];
    StoreKeepsPrefix(s.file.data, n + k, frame[k], n);
    hide EncodeFrame, EncodeAll;
  }

  lemma PutByteKeepsNoNewline(c: Codec, s: System)
    requires Inv(c, s) && Enabled(c, s, PutByte)
    ensures var t := Apply(c, s, PutByte);
            NoNewlineFrom(t.file.data, |EncodeAll(c, t.landed)| + FRAME_LEN_SIZE)
  {
    var w, e := s.writer, s.writer.phase.e;
    EndAfterSnoc(c, s.landed, e);
    if FRAME_LEN_SIZE <= w.phase.k < |EncodeFrame(c, e)| - 1 {
      assert EncodeFrame(c, e)[w.phase.k] == c.enc(e)[w.phase.k - FRAME_LEN_SIZE];
    }
    hide EncodeAll, PutLE;
  }

  /** A byte short of the last leaves the landed frames; the last one adds its frame to them. */
  lemma PutByteKeepsFile(c: Codec, s: System)
    requires Inv(c, s) && Enabled(c, s, PutByte) && s.writer.Up? && s.writer.phase.Copying?
    ensures var t := Apply(c, s, PutByte); FileInv(c, t.file, t.landed)
  {
    hide DiskInv, NoNewlineFrom, EncodeFrame, EncodeAll, Holds, WriterInv, Apply, Enabled;
    var t, n, k := Apply(c, s, PutByte), s.writer.writeOffset, s.writer.phase.k;
    PutByteKeepsNoNewline(c, s);
    PutByteExtendsCopy(c, s);
    EndAfterSnoc(c, s.landed, s.writer.phase.e);
    if t.landed == s.landed {
      HoldsAgain(c, s.file.data, t.file.data, s.landed);
    } else {
      assert t.file.data[..n + k + 1] == t.file.data[..n] + t.file.data[n..n + k + 1];
      HoldsOneMore(c, s.file.data, t.file.data, s.landed, s.writer.phase.e);
    }
  }

  lemma HoldsAgain(c: Codec, data: seq<Byte>, next: seq<Byte>, es: seq<Envelope>)
    requires Holds(c, data, es) && |EncodeAll(c, es)| <= |next| && next[..|EncodeAll(c, es)|] == EncodeAll(c, es)
    ensures Holds(c, next, es)
  {
  }

  lemma HoldsOneMore(c: Codec, data: seq<Byte>, next: seq<Byte>, es: seq<Envelope>, e: Envelope)
    requires Holds(c, data, es) && c.Encodes(e)
    requires var frames := EncodeAll(c, es) + EncodeFrame(c, e); |frames| <= |next| && next[..|frames|] == frames
    ensures Holds(c, next, es + [e])
  {
    EndAfterSnoc(c, es, e);
  }

  lemma PutByteKeepsWriter(c: Codec, s: System)
    requires Inv(c, s) && Enabled(c, s, PutByte)
    ensures WriterInv(c, Apply(c, s, PutByte))
  {
    hide DiskInv, NoNewlineFrom, Holds, EncodeFrame, EncodeAll;
    PutByteExtendsCopy(c, s);
    EndAfterSnoc(c, s.landed, s.writer.phase.e);
  }

  lemma PutByteKeepsInv(c: Codec, s: System)
    requires Inv(c, s) && Enabled(c, s, PutByte)
    ensures Inv(c, Apply(c, s, PutByte))
  {
    hide FileInv, DiskInv, WriterInv, Apply;
    PutByteKeepsFile(c, s);
    PutByteKeepsDisk(c, s);
    PutByteKeepsWriter(c, s);
  }

  lemma EndAppendKeepsInv(c: Codec, s: System)
    requires Inv(c, s) && Enabled(c, s, EndAppend)
    ensures Inv(c, Apply(c, s, EndAppend))
  {
  }

  lemma ResizeKeepsPrefix(data: seq<Byte>, size: nat, n: nat)
    requires n <= |data| && n <= size
    ensures Resize(data, size)[..n] == data[..n]
  {
  }

  lemma GrowsCapacity(capacity: nat, factor: nat)
    requires factor >= 2
    ensures capacity * factor >= 2 * capacity
  {
  }

  lemma TruncateKeepsInv(c: Codec, s: System, factor: nat)
    requires Inv(c, s) && Enabled(c, s, Truncate(factor))
    ensures Inv(c, Apply(c, s, Truncate(factor)))
  {
    var size, n, p := s.writer.capacity * factor, |EncodeAll(c, s.landed)|, s.file.header.committed;
    GrowsCapacity(s.writer.capacity, factor);
    EncodeAllPrefix(c, s.landed, s.file.header.lastSeq);
    ResizeKeepsPrefix(s.file.data, size, n);
    ResizeKeepsPrefix(s.file.data, size, p);
    ResizeKeepsPrefix(s.disk.data, size, p);
    assert NoNewlineFrom(Resize(s.file.data, size), n + FRAME_LEN_SIZE);
    assert |Resize(s.file.data, size)| == size == |Resize(s.disk.data, size)|;
    assert Apply(c, s, Truncate(factor)).file.data == Resize(s.file.data, size);
    hide EncodeAll, Resize, NoNewlineFrom;
  }

  lemma StoreCapacityKeepsInv(c: Codec, s: System)
    requires Inv(c, s) && Enabled(c, s, StoreCapacity)
    ensures Inv(c, Apply(c, s, StoreCapacity))
  {
    hide EncodeAll, NoNewlineFrom;
  }

  lemma CommitKeepsInv(c: Codec, s: System, step: Step)
    requires Inv(c, s) && Enabled(c, s, step) && (step.SyncData? || step.StorePointer? || step.SyncPointer?)
    ensures Inv(c, Apply(c, s, step))
  {
    assert s.landed[..|s.landed|] == s.landed;
    EncodeAllPrefix(c, s.landed, s.file.header.lastSeq);
  }

  lemma EnvironmentKeepsInv(c: Codec, s: System, step: Step)
    requires Inv(c, s) && Enabled(c, s, step)
    requires step.Kill? || step.WriteBackCapacity? || step.WriteBackPointer?
    ensures Inv(c, Apply(c, s, step))
  {
    hide EncodeAll, NoNewlineFrom;
  }

  lemma WriteBackAgrees(disk: seq<Byte>, file: seq<Byte>, i: nat, n: nat)
    requires |disk| == |file| && i < |file| && n <= |file| && disk[..n] == file[..n]
    ensures disk[i := file[i]][..n] == file[..n]
  {
    assert forall j | 0 <= j < n :: disk[..n][j] == file[..n][j];
  }

  lemma WriteBackKeepsInv(c: Codec, s: System, i: nat)
    requires Inv(c, s) && Enabled(c, s, WriteBackData(i))
    ensures Inv(c, Apply(c, s, WriteBackData(i)))
  {
    hide EncodeAll, NoNewlineFrom;
    WriteBackAgrees(s.disk.data, s.file.data, i, s.file.header.committed);
    if IsUp(s, Synced) {
      WriteBackAgrees(s.disk.data, s.file.data, i, s.writer.writeOffset);
    }
  }

  lemma StepKeepsInv(c: Codec, s: System, step: Step)
    requires Inv(c, s) && Enabled(c, s, step)
    ensures Inv(c, Apply(c, s, step))
  {
    hide Inv, Enabled, Apply;
    match step
    case Open => OpenKeepsInv(c, s);
    case BeginAppend(e) => BeginAppendKeepsInv(c, s, e);
    case PutByte => PutByteKeepsInv(c, s);
    case EndAppend => EndAppendKeepsInv(c, s);
    case Truncate(factor) => TruncateKeepsInv(c, s, factor);
    case StoreCapacity => StoreCapacityKeepsInv(c, s);
    case SyncData => CommitKeepsInv(c, s, step);
    case StorePointer => CommitKeepsInv(c, s, step);
    case SyncPointer => CommitKeepsInv(c, s, step);
    case Kill => EnvironmentKeepsInv(c, s, step);
    case WriteBackData(i) => WriteBackKeepsInv(c, s, i);
    case WriteBackCapacity => EnvironmentKeepsInv(c, s, step);
    case WriteBackPointer => EnvironmentKeepsInv(c, s, step);
  }

  lemma {:induction false} RunKeepsInv(c: Codec, s: System, steps: seq<Step>)
    requires Inv(c, s) && Runs(c, s, steps)
    ensures Inv(c, Exec(c, s, steps))
  {
    if steps != [] {
      RunKeepsInv(c, s, steps[..|steps| - 1]);
      StepKeepsInv(c, Exec(c, s, steps[..|steps| - 1]), steps[|steps| - 1]);
      hide Inv, Enabled, Apply;
    }
  }

  // ---- process crash ----

  /** Wherever the process died, scanning the file finds exactly the landed frames. */
  lemma {:induction false} RecoveryExact(c: Codec, s: System)
    requires FileInv(c, s.file, s.landed)
    ensures var h, n := s.file.header, |EncodeAll(c, s.landed)|;
            && ScanAheadSpec(c, s.file.data, h.committed, h.capacity, h.lastSeq)
               == Scan(n, |s.landed|, |s.landed| - h.lastSeq)
            && ReplayRange(c, s.file.data, 0, n) == s.landed
  {
    assert s.landed[..|s.landed|] == s.landed && s.landed[..0] == [];
    ScanFindsAll(c, s.file.data, s.landed, s.file.header.lastSeq, s.file.header.capacity);
    ReplayBetween(c, s.file.data, s.landed, 0, |s.landed|);
  }

  /** What the steps alone say was appended: envelopes whose every byte was put before a kill. */
  datatype Record = Record(done: seq<Envelope>, current: seq<Envelope>, bytes: nat)

  function Note(c: Codec, r: Record, step: Step): Record {
    match step
    case BeginAppend(e) => r.(current := [e], bytes := 0)
    case PutByte =>
      if r.current != [] && r.bytes + 1 == |EncodeFrame(c, r.current[0])|
      then Record(r.done + r.current, [], 0)
      else r.(bytes := r.bytes + 1)
    case Kill => r.(current := [], bytes := 0)
    case _ => r
  }

  function Recorded(c: Codec, steps: seq<Step>): Record {
    if steps == [] then Record([], [], 0) else Note(c, Recorded(c, steps[..|steps| - 1]), steps[|steps| - 1])
  }

  ghost predicate Agrees(c: Codec, s: System, r: Record) {
    && s.landed == r.done
    && (s.writer.Up? && s.writer.phase.Copying? && s.writer.phase.k < |EncodeFrame(c, s.writer.phase.e)|
        ==> r.current == [s.writer.phase.e] && r.bytes == s.writer.phase.k)
  }

  lemma AgreesStep(c: Codec, s: System, r: Record, step: Step)
    requires Enabled(c, s, step) && Agrees(c, s, r)
    ensures Agrees(c, Apply(c, s, step), Note(c, r, step))
  {
    hide EncodeFrame, ScanAheadSpec, Resize;
  }

  lemma {:induction false} LandedIsRecorded(c: Codec, capacity: nat, steps: seq<Step>)
    requires Runs(c, Fresh(capacity), steps)
    ensures Agrees(c, Exec(c, Fresh(capacity), steps), Recorded(c, steps))
  {
    if steps != [] {
      hide Enabled, Apply, Note;
      var prior := steps[..|steps| - 1];
      LandedIsRecorded(c, capacity, prior);
      AgreesStep(c, Exec(c, Fresh(capacity), prior), Recorded(c, prior), steps[|steps| - 1]);
    }
  }

  /**
   * Over any run of appends, growths, commits, write-backs, kills and reopenings from a new log:
   * reopening recovers exactly the envelopes all of whose bytes were put, in order, numbered 1..n.
   */
  lemma {:induction false} ProcessCrashRecovery(c: Codec, capacity: nat, steps: seq<Step>)
    requires capacity > 0 && Runs(c, Fresh(capacity), steps)
    ensures var s, done := Exec(c, Fresh(capacity), steps), Recorded(c, steps).done;
            var h := s.file.header;
            && h.capacity <= |s.file.data| && |EncodeAll(c, done)| <= |s.file.data| && h.lastSeq <= |done|
            && ScanAheadSpec(c, s.file.data, h.committed, h.capacity, h.lastSeq)
               == Scan(|EncodeAll(c, done)|, |done|, |done| - h.lastSeq)
            && ReplayRange(c, s.file.data, 0, |EncodeAll(c, done)|) == done
            && Numbered(done)
  {
    FreshInv(c, capacity);
    RunKeepsInv(c, Fresh(capacity), steps);
    LandedIsRecorded(c, capacity, steps);
    hide Exec, Runs, Recorded;
    RecoveryExact(c, Exec(c, Fresh(capacity), steps));
  }

  // ---- power loss ----

  /** What survives power loss replays to a prefix, at a frame boundary, with everything ever promised. */
  lemma {:induction false} DiskReplaysPrefix(c: Codec, s: System)
    requires Inv(c, s)
    ensures var dh := s.disk.header;
            && s.promised <= dh.lastSeq <= |s.landed|
            && dh.committed == End(c, s.landed, dh.lastSeq) <= |s.disk.data|
            && ReplayRange(c, s.disk.data, 0, dh.committed) == s.landed[..dh.lastSeq]
  {
    var fh, dh := s.file.header, s.disk.header;
    var kept := s.landed[..fh.lastSeq];
    EncodeAllPrefix(c, s.landed, fh.lastSeq);
    assert EncodeAll(c, kept) == s.file.data[..fh.committed];
    assert EncodeAll(c, kept) == s.disk.data[..fh.committed];
    assert kept[..dh.lastSeq] == s.landed[..dh.lastSeq] && kept[..0] == [];
    ReplayBetween(c, s.disk.data, kept, 0, dh.lastSeq);
  }

  /**
   * Power loss at any moment of any run: replaying the surviving image up to its committed offset gives
   * a prefix of what was appended, and that prefix includes all that a returned commit covered.
   */
  lemma {:induction false} PowerLossSafety(c: Codec, capacity: nat, steps: seq<Step>)
    requires capacity > 0 && Runs(c, Fresh(capacity), steps)
    ensures var s, done := Exec(c, Fresh(capacity), steps), Recorded(c, steps).done;
            var dh := s.disk.header;
            && s.promised <= dh.lastSeq <= |done|
            && dh.committed == End(c, done, dh.lastSeq) <= |s.disk.data|
            && ReplayRange(c, s.disk.data, 0, dh.committed) == done[..dh.lastSeq]
  {
    FreshInv(c, capacity);
    RunKeepsInv(c, Fresh(capacity), steps);
    LandedIsRecorded(c, capacity, steps);
    hide Exec, Runs, Recorded;
    DiskReplaysPrefix(c, Exec(c, Fresh(capacity), steps));
  }

  /** What a restart finds in an image: the committed region, then the frames past it. */
  function ReopenedFrom(c: Codec, image: Image): seq<Envelope>
    requires image.header.committed <= |image.data| && image.header.capacity <= |image.data|
  {
    FramesAreFrames(c, image.data, image.header.committed, image.header.capacity);
    ReplayRange(c, image.data, 0, image.header.committed)
    + Envelopes(Frames(c, image.data, image.header.committed, image.header.capacity))
  }

  /**
   * Data reaches the disk before the pointer that claims it: a restart on what survived power loss finds at
   * least every envelope below the pointer readers could see, even if that pointer itself was lost.
   */
  lemma RestartFindsPointer(c: Codec, s: System)
    requires Inv(c, s)
    ensures s.disk.header.committed <= |s.disk.data| && s.disk.header.capacity <= |s.disk.data|
    ensures s.landed[..s.file.header.lastSeq] <= ReopenedFrom(c, s.disk)
  {
    hide DecodeFrameAt, Frames, Envelopes, NoNewlineFrom, WriterInv, ReplayRange;
    var fh, dh := s.file.header, s.disk.header;
    var kept := s.landed[..fh.lastSeq];
    DiskReplaysPrefix(c, s);
    DiskHoldsPointed(c, s);
    FindsRemaining(c, s.disk.data, kept, dh.lastSeq, dh.capacity);
    assert kept[..dh.lastSeq] == s.landed[..dh.lastSeq];
    assert kept == kept[..dh.lastSeq] + kept[dh.lastSeq..];
  }

  /** The disk holds every frame below the file's pointer. */
  lemma DiskHoldsPointed(c: Codec, s: System)
    requires Inv(c, s)
    ensures var kept, dh := s.landed[..s.file.header.lastSeq], s.disk.header;
            && Holds(c, s.disk.data, kept) && End(c, kept, |kept|) <= dh.capacity <= |s.disk.data|
            && End(c, kept, dh.lastSeq) == dh.committed
  {
    hide DecodeFrameAt, EncodeFrame, NoNewlineFrom, WriterInv;
    var fh, dh := s.file.header, s.disk.header;
    var kept := s.landed[..fh.lastSeq];
    EncodeAllPrefix(c, s.landed, fh.lastSeq);
    assert EncodeAll(c, kept) == s.disk.data[..fh.committed];
    assert kept[..dh.lastSeq] == s.landed[..dh.lastSeq] && kept[..|kept|] == kept;
  }

  // ---- what a commit that finds nothing to do has promised ----

  /** At rest with the write offset at the committed offset, the pointer covers all that landed. */
  lemma QuietPointer(c: Codec, s: System)
    requires Inv(c, s) && IsUp(s, Idle) && s.writer.writeOffset == s.writer.committed
    ensures s.file.header.lastSeq == |s.landed| && s.file.header.committed == s.writer.committed
  {
    hide EncodeFrame, NoNewlineFrom, EncodeAll, Holds;
    assert s.landed[..|s.landed|] == s.landed;
    if s.file.header.lastSeq < |s.landed| {
      EndStrict(c, s.landed, s.file.header.lastSeq, |s.landed|);
    }
  }

  /** Whether or not this commit had anything to do, a restart after power loss finds everything landed. */
  lemma QuietIsFound(c: Codec, s: System)
    requires Inv(c, s) && IsUp(s, Idle) && s.writer.writeOffset == s.writer.committed
    ensures s.disk.header.committed <= |s.disk.data| && s.disk.header.capacity <= |s.disk.data|
    ensures s.landed <= ReopenedFrom(c, s.disk)
  {
    hide Inv, ReopenedFrom;
    QuietPointer(c, s);
    RestartFindsPointer(c, s);
    assert s.landed[..|s.landed|] == s.landed;
  }

  lemma RunsSnoc(c: Codec, s: System, steps: seq<Step>, step: Step)
    requires Runs(c, s, steps) && Enabled(c, Exec(c, s, steps), step)
    ensures Runs(c, s, steps + [step]) && Exec(c, s, steps + [step]) == Apply(c, Exec(c, s, steps), step)
  {
    hide Enabled, Apply;
    assert (steps + [step])[..|steps|] == steps;
  }

  const KILL_BEFORE_SYNC := [SyncData, StorePointer, Kill, Open]

  /**
   * A kill between moving the pointer and syncing it: the next process finds nothing left to commit, so its
   * commit does nothing, while the pointer on disk still misses envelopes and no commit has promised them.
   */
  lemma KilledBeforePointerSync(c: Codec, s: System)
    requires Inv(c, s) && IsUp(s, Idle) && s.file.header.lastSeq < |s.landed|
    ensures Runs(c, s, KILL_BEFORE_SYNC)
    ensures var t := Exec(c, s, KILL_BEFORE_SYNC);
            && Inv(c, t) && IsUp(t, Idle) && t.landed == s.landed
            && t.writer.writeOffset == t.writer.committed
            && t.promised < |t.landed| && t.disk.header.lastSeq < |t.landed|
  {
    hide Inv, Enabled, Apply, Runs, Exec;
    var a := PointerStored(c, s);
    CrashReopens(c, a);
    RunsSnoc(c, s, [SyncData, StorePointer], Kill);
    assert [SyncData, StorePointer] + [Kill] == [SyncData, StorePointer, Kill];
    RunsSnoc(c, s, [SyncData, StorePointer, Kill], Open);
    assert [SyncData, StorePointer, Kill] + [Open] == KILL_BEFORE_SYNC;
  }

  /** The first two steps of a commit. */
  lemma PointerStored(c: Codec, s: System) returns (t: System)
    requires Inv(c, s) && IsUp(s, Idle) && s.file.header.lastSeq < |s.landed|
    ensures Runs(c, s, [SyncData, StorePointer]) && t == Exec(c, s, [SyncData, StorePointer])
    ensures Inv(c, t) && IsUp(t, Pointed) && t.landed == s.landed
    ensures t.file.header.lastSeq == |t.landed| > t.disk.header.lastSeq && t.promised == s.promised < |t.landed|
  {
    hide EncodeFrame, EncodeAll, NoNewlineFrom, Holds;
    StepKeepsInv(c, s, SyncData);
    var a := Apply(c, s, SyncData);
    StepKeepsInv(c, a, StorePointer);
    t := Apply(c, a, StorePointer);
    assert Exec(c, s, []) == s && Runs(c, s, []);
    RunsSnoc(c, s, [], SyncData);
    assert [] + [SyncData] == [SyncData];
    RunsSnoc(c, s, [SyncData], StorePointer);
    assert [SyncData] + [StorePointer] == [SyncData, StorePointer];
    hide Inv, Runs, Exec;
  }

  lemma CrashReopens(c: Codec, s: System)
    requires Inv(c, s) && IsUp(s, Pointed) && s.file.header.lastSeq == |s.landed|
    ensures Enabled(c, s, Kill) && Enabled(c, Apply(c, s, Kill), Open)
    ensures var t := Apply(c, Apply(c, s, Kill), Open);
            && Inv(c, t) && IsUp(t, Idle) && t.landed == s.landed && t.disk == s.disk && t.promised == s.promised
            && t.writer.writeOffset == t.writer.committed
  {
    StepKeepsInv(c, s, Kill);
    var b := Apply(c, s, Kill);
    StepKeepsInv(c, b, Open);
    RecoveryExact(c, b);
    assert s.landed[..|s.landed|] == s.landed;
    hide ScanAheadSpec, EncodeAll, EncodeFrame, NoNewlineFrom, Holds;
  }

  ghost predicate OneProcess(steps: seq<Step>) { forall i | 0 <= i < |steps| :: !steps[i].Kill? }

  /** What has been promised since `start`, by whether a commit of this process has completed. */
  ghost predicate PromisedSince(start: System, s: System, committed: bool) {
    && |start.landed| <= |s.landed|
    && if committed then IsUp(s, Pointed) || s.promised == s.file.header.lastSeq
       else s.promised == start.promised && (IsUp(s, Pointed) || s.file.header.lastSeq == start.file.header.lastSeq)
  }

  lemma PromisedStep(c: Codec, start: System, s: System, step: Step, committed: bool)
    requires Inv(c, s) && Enabled(c, s, step) && !step.Kill? && PromisedSince(start, s, committed)
    ensures PromisedSince(start, Apply(c, s, step), committed || step.SyncPointer?)
  {
    hide EncodeFrame, EncodeAll, NoNewlineFrom, Holds, ScanAheadSpec, Resize, DiskInv;
  }

  lemma {:induction false} PromisedAlong(c: Codec, start: System, steps: seq<Step>)
    requires Inv(c, start) && start.writer.Down? && Runs(c, start, steps) && OneProcess(steps)
    ensures PromisedSince(start, Exec(c, start, steps), SyncPointer in steps)
  {
    hide Inv, Enabled, Apply, PromisedSince;
    if steps == [] {
      NothingPromisedYet(start);
    } else {
      var prior := steps[..|steps| - 1];
      PromisedAlong(c, start, prior);
      RunKeepsInv(c, start, prior);
      PromisedStep(c, start, Exec(c, start, prior), steps[|steps| - 1], SyncPointer in prior);
      assert steps == prior + [steps[|steps| - 1]];
    }
  }

  lemma NothingPromisedYet(start: System)
    requires start.writer.Down?
    ensures PromisedSince(start, start, false)
  {
  }

  /**
   * Exactly when a commit that finds nothing to do means that all is promised: this process has completed a
   * commit since it opened the file, or what it opened had been promised already.
   */
  lemma QuietPromiseIff(c: Codec, start: System, steps: seq<Step>)
    requires Inv(c, start) && start.writer.Down? && Runs(c, start, steps) && OneProcess(steps)
    requires var s := Exec(c, start, steps); IsUp(s, Idle) && s.writer.writeOffset == s.writer.committed
    ensures var s := Exec(c, start, steps);
            s.promised == |s.landed| <==> SyncPointer in steps || start.promised == |start.landed|
  {
    hide Inv, Runs, Exec;
    PromisedAlong(c, start, steps);
    RunKeepsInv(c, start, steps);
    QuietPointer(c, Exec(c, start, steps));
    StartBounds(c, start);
  }

  lemma StartBounds(c: Codec, s: System)
    requires Inv(c, s)
    ensures s.promised <= s.file.header.lastSeq <= |s.landed|
  {
  }
}
