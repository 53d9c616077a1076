/**
 * The append-only writer (hobo/log/writer.py) as a class over a mapped buffer.  Every store is also a
 * step of LogMachine, kept in the ghost field `steps`; so each point of each method at which the process
 * could be killed is a state of a run of that machine, and its theorems hold there.
 */
module LogWriting {
  import opened RiskModel
  import opened Format
  import opened LogMachine

  /** The log file as mapped: the decoded header page and the data region. */
  class LogFile {
    var header: Header
    var data: array<Byte>

    ghost function Image(): Image
      reads this, data
    {
      LogMachine.Image(header, data[..])
    }

    /** A new file: zero-filled data region, header naming its capacity. */
    constructor Create(capacity: nat)
      ensures Image() == Fresh(capacity).file
      ensures fresh(data)
    {
      header := Header(capacity, 0, 0);
      data := new Byte[capacity](_ => 0);
      new;
      assert data[..] == Zeros(capacity);
    }
  }

  class LogWriter {
    const codec: Codec
    const growthFactor: nat
    const file: LogFile
    var capacity: nat
    var committedOffset: nat
    var writeOffset: nat
    var lastSeq: int
    var recoveredUncommittedCount: nat

    ghost const start: System
    ghost var steps: seq<Step>
    ghost var sys: System

    /** The ghost history is a run of the machine that ends in `sys`. */
    ghost predicate OnRun()
      reads this
    {
      && growthFactor >= 2
      && Inv(codec, start) && start.writer.Down? && OneProcess(steps)
      && Inv(codec, sys) && Runs(codec, start, steps) && sys == Exec(codec, start, steps)
    }

    /** Between calls: fields and mapped bytes are what the machine says. */
    ghost predicate Valid()
      reads this, file, file.data
    {
      && OnRun()
      && sys.writer == Up(writeOffset, committedOffset, lastSeq, capacity, Idle)
      && sys.file == file.Image()
    }

    ghost method Tick(step: Step)
      requires OnRun() && Enabled(codec, sys, step) && !step.Kill?
      modifies this`steps, this`sys
      ensures OnRun()
      ensures sys == Apply(codec, old(sys), step) && steps == old(steps) + [step]
    {
      hide Inv, Apply, Enabled;
      StepKeepsInv(codec, sys, step);
      sys := Apply(codec, sys, step);
      steps := steps + [step];
      assert steps[..|steps| - 1] == old(steps);
    }

    /** Opens an existing file: recovers whole frames past the last commit and commits them. */
    constructor (file: LogFile, codec: Codec, growthFactor: nat, ghost found: System)
      requires growthFactor >= 2
      requires Inv(codec, found) && found.writer.Down? && found.file == file.Image()
      modifies file
      ensures Valid() && this.file == file && this.codec == codec && start == found
      ensures sys.landed == found.landed
      ensures file.data == old(file.data) && file.header.committed == committedOffset == writeOffset
      ensures lastSeq == |found.landed|
      ensures recoveredUncommittedCount == |found.landed| - found.file.header.lastSeq
    {
      hide EncodeFrame, NoNewlineFrom, DiskInv;
      this.file := file;
      this.codec := codec;
      this.growthFactor := growthFactor;
      capacity := file.header.capacity;
      committedOffset := file.header.committed;
      start, steps, sys := found, [], found;
      lastSeq := file.header.lastSeq;
      writeOffset := file.header.committed;
      recoveredUncommittedCount := 0;
      new;
      Tick(Open);
      RecoveryExact(codec, found);
      var offset, seqNo, count := ScanAhead(codec, file.data[..], committedOffset, capacity, lastSeq);
      writeOffset := offset;
      lastSeq := seqNo;
      recoveredUncommittedCount := count;
      if offset != committedOffset {
        DoCommit();
      }
    }

    /** Appends one event; nothing is synced.  Stores happen only past the data already there. */
    method Append(event: LogEvent, tsNs: int) returns (envelope: Envelope)
      requires Valid() && codec.Encodes(Envelope(lastSeq + 1, tsNs, event))
      modifies this, file, file.data
      ensures Valid() && old(steps) <= steps
      ensures envelope == Envelope(old(lastSeq) + 1, tsNs, event)
      ensures sys.landed == old(sys.landed) + [envelope] && sys.promised == old(sys.promised)
      ensures lastSeq == old(lastSeq) + 1
      ensures writeOffset == old(writeOffset) + |EncodeFrame(codec, envelope)|
      ensures file.header.committed == old(file.header.committed)
      ensures file.data == old(file.data) || fresh(file.data)
    {
      hide Inv, EncodeFrame, ScanAheadSpec, Resize, Exec, Runs;
      var seqNo := lastSeq + 1;
      envelope := Envelope(seqNo, tsNs, event);
      var frame := EncodeFrame(codec, envelope);
      EnsureCapacity(|frame|);
      Tick(BeginAppend(envelope));
      CopyFrame(envelope, frame);
      writeOffset := writeOffset + |frame|;
      lastSeq := seqNo;
      Tick(EndAppend);
    }

    /** The slice assignment into the map, one byte at a time. */
    method CopyFrame(e: Envelope, frame: seq<Byte>)
      requires OnRun() && sys.file == file.Image() && frame == EncodeFrame(codec, e)
      requires sys.writer == Up(writeOffset, committedOffset, lastSeq, capacity, Copying(e, 0))
      modifies file.data, this`steps, this`sys
      ensures OnRun() && sys.file == file.Image() && old(steps) <= steps
      ensures sys.writer == Up(writeOffset, committedOffset, lastSeq, capacity, Copying(e, |frame|))
      ensures sys.landed == old(sys.landed) + [e] && sys.promised == old(sys.promised)
    {
      hide Inv, EncodeFrame, ScanAheadSpec, Resize, Exec, Runs;
      for i := 0 to |frame|
        invariant OnRun() && sys.file == file.Image() && old(steps) <= steps
        invariant sys.writer == Up(writeOffset, committedOffset, lastSeq, capacity, Copying(e, i))
        invariant sys.landed == (if i == |frame| then old(sys.landed) + [e] else old(sys.landed))
        invariant sys.promised == old(sys.promised)
      {
        CopyStays(codec, sys);
        ghost var before := file.data[..];
        file.data[writeOffset + i] := frame[i];
        assert file.data[..] == before[writeOffset + i := frame[i]];
        Tick(PutByte);
      }
    }

    /** Doubles (or more) until the frame fits; terminates because capacity is positive. */
    method EnsureCapacity(needed: nat)
      requires Valid()
      modifies this, file
      ensures Valid() && old(steps) <= steps
      ensures writeOffset + needed <= capacity
      ensures writeOffset == old(writeOffset) && lastSeq == old(lastSeq) && committedOffset == old(committedOffset)
      ensures sys.landed == old(sys.landed) && sys.promised == old(sys.promised)
      ensures file.header.committed == old(file.header.committed)
      ensures file.data == old(file.data) || fresh(file.data)
    {
      while writeOffset + needed > capacity
        invariant Valid() && old(steps) <= steps
        invariant writeOffset == old(writeOffset) && lastSeq == old(lastSeq) && committedOffset == old(committedOffset)
        invariant sys.landed == old(sys.landed) && sys.promised == old(sys.promised)
        invariant file.header.committed == old(file.header.committed)
        invariant file.data == old(file.data) || fresh(file.data)
        decreases writeOffset + needed - capacity
      {
        Grow();
      }
    }

    /** Resizes the file and maps it again, then stores the new capacity: every byte written stays. */
    method Grow()
      requires Valid()
      modifies this, file
      ensures Valid() && old(steps) <= steps
      ensures capacity == old(capacity) * growthFactor > old(capacity)
      ensures writeOffset == old(writeOffset) && lastSeq == old(lastSeq) && committedOffset == old(committedOffset)
      ensures sys.landed == old(sys.landed) && sys.promised == old(sys.promised)
      ensures file.header.committed == old(file.header.committed)
      ensures fresh(file.data)
    {
      hide Inv, ScanAheadSpec, Exec, Runs;
      var newCapacity := capacity * growthFactor;
      CapacityPositive(codec, sys);
      GrowsCapacity(capacity, growthFactor);
      var was := file.data;
      file.data := new Byte[newCapacity](i reads was => if 0 <= i < was.Length then was[i] else 0);
      assert file.data[..] == Resize(was[..], newCapacity);
      Tick(Truncate(growthFactor));
      capacity := newCapacity;
      file.header := file.header.(capacity := newCapacity);
      Tick(StoreCapacity);
    }

    /**
     * True if there was anything new to commit, and then all that landed is promised.  If there was not, all
     * is promised exactly when this writer has completed a commit since it opened the file, or all it found
     * had been promised; either way a restart after power loss finds everything landed.
     */
    method Commit() returns (any: bool)
      requires Valid()
      modifies this, file
      ensures Valid() && old(steps) <= steps
      ensures any == (old(writeOffset) != old(committedOffset))
      ensures committedOffset == file.header.committed == writeOffset == old(writeOffset)
      ensures lastSeq == old(lastSeq) && file.data == old(file.data)
      ensures sys.landed == old(sys.landed)
      ensures any ==> sys.promised == |sys.landed|
      ensures !any ==> steps == old(steps)
      ensures !any ==> (sys.promised == |sys.landed| <==> SyncPointer in steps || start.promised == |start.landed|)
      ensures sys.disk.header.committed <= |sys.disk.data| && sys.disk.header.capacity <= |sys.disk.data|
      ensures sys.landed <= ReopenedFrom(codec, sys.disk)
    {
      hide Inv, ReopenedFrom, Exec, Runs;
      if writeOffset == committedOffset {
        QuietPointer(codec, sys);
        QuietPromiseIff(codec, start, steps);
        QuietIsFound(codec, sys);
        return false;
      }
      DoCommit();
      QuietIsFound(codec, sys);
      return true;
    }

    /** Data to disk first, then the pointer, then the pointer to disk. */
    method DoCommit()
      requires Valid()
      modifies this`committedOffset, this`steps, this`sys, file`header
      ensures Valid() && old(steps) <= steps
      ensures committedOffset == file.header.committed == writeOffset
      ensures sys.landed == old(sys.landed) && sys.promised == |sys.landed|
    {
      hide Inv, ScanAheadSpec, Resize, Exec, Runs;
      WriterCountsLanded(codec, sys);
      Tick(SyncData);
      file.header := file.header.(committed := writeOffset, lastSeq := lastSeq);
      Tick(StorePointer);
      Tick(SyncPointer);
      committedOffset := writeOffset;
    }
  }

  lemma WriterCountsLanded(c: Codec, s: System)
    requires Inv(c, s) && IsUp(s, Idle)
    ensures s.writer.lastSeq == |s.landed|
  {
  }

  lemma CapacityPositive(c: Codec, s: System)
    requires Inv(c, s) && s.writer.Up?
    ensures s.writer.capacity > 0
  {
  }

  /** In the middle of a copy the next byte still falls inside the mapped region. */
  lemma CopyStays(c: Codec, s: System)
    requires Inv(c, s) && s.writer.Up? && s.writer.phase.Copying?
    ensures var w := s.writer; w.writeOffset + |EncodeFrame(c, w.phase.e)| <= |s.file.data|
  {
  }
}
