/**
 * The on-disk format of the event log (hobo/log/format.py): a header page, then length-prefixed
 * frames.  JSON text is abstract: a codec is any pair of functions, and what the proofs need of it
 * is asked envelope by envelope (`Encodes`).  Frame offsets count from the start of the data region.
 */
module Format {
  import opened Wrappers
  import opened RiskModel
  import opened Division

  type Byte = b: int | 0 <= b < 256

  const LF: Byte := 10
  const FRAME_LEN_SIZE: nat := 4
  const U32_LIMIT: nat := 0x1_0000_0000

  // ---- little-endian integers ----

  function Pow256(k: nat): nat { if k == 0 then 1 else 256 * Pow256(k - 1) }

  /** The k low bytes of n, least significant first. */
  function PutLE(n: nat, k: nat): (bytes: seq<Byte>)
    ensures |bytes| == k
  {
    if k == 0 then [] else [n % 256] + PutLE(n / 256, k - 1)
  }

  function GetLE(bytes: seq<Byte>): nat {
    if bytes == [] then 0 else bytes[0] + 256 * GetLE(bytes[1..])
  }

  lemma {:induction false} GetPutLE(n: nat, k: nat)
    requires n < Pow256(k)
    ensures GetLE(PutLE(n, k)) == n
  {
    if k > 0 {
      GetPutLE(n / 256, k - 1);
      assert PutLE(n, k)[1..] == PutLE(n / 256, k - 1);
    }
  }

  lemma FourBytes()
    ensures Pow256(4) == U32_LIMIT
    ensures Pow256(8) == 0x1_0000_0000_0000_0000
  {
    assert Pow256(2) == 256 * Pow256(1) == 0x1_0000;
    assert Pow256(4) == 256 * Pow256(3) == 0x1_0000_0000;
    assert Pow256(6) == 256 * Pow256(5) == 0x1_0000_0000_0000;
    assert Pow256(8) == 256 * Pow256(7);
  }

  /** Byte i holds what n has of the i-th power of 256: least significant first. */
  lemma {:induction false} LittleEndian(n: nat, k: nat, i: nat)
    requires i < k
    ensures Pow256(i) > 0 && PutLE(n, k)[i] == n / Pow256(i) % 256
  {
    if i > 0 {
      LittleEndian(n / 256, k - 1, i - 1);
      DivideTwice(n, 256, Pow256(i - 1));
    }
  }

  // ---- header page ----

  const MAGIC: seq<Byte> := [82, 73, 83, 75, 76, 79, 71, 49]  // "RISKLOG1"
  const VERSION: nat := 1
  const HEADER_SIZE: nat := 4096
  const CAPACITY_OFF: nat := 12
  const COMMITTED_OFFSET_OFF: nat := 20
  const LAST_SEQ_OFF: nat := 28
  const Q_LIMIT: nat := 0x8000_0000_0000_0000

  datatype Header = Header(capacity: nat, committed: nat, lastSeq: nat)

  /** The struct fields fit their signed 64-bit slots. */
  predicate Fits(h: Header) { h.capacity < Q_LIMIT && h.committed < Q_LIMIT && h.lastSeq < Q_LIMIT }

  function Splice(buf: seq<Byte>, off: nat, bytes: seq<Byte>): (r: seq<Byte>)
    requires off + |bytes| <= |buf|
    ensures |r| == |buf|
  {
    buf[..off] + bytes + buf[off + |bytes|..]
  }

  function PackHeader(h: Header): seq<Byte> {
    MAGIC + PutLE(VERSION, 4) + PutLE(h.capacity, 8) + PutLE(h.committed, 8) + PutLE(h.lastSeq, 8)
    + seq(HEADER_SIZE - 36, _ => 0)
  }

  /** None is the source's CorruptLogError: a file too short for a header, or one with another magic. */
  function UnpackHeader(buf: seq<Byte>): Option<Header> {
    if |buf| < HEADER_SIZE then None
    else if buf[..8] != MAGIC then None
    else Some(Header(GetLE(buf[CAPACITY_OFF..COMMITTED_OFFSET_OFF]),
                     GetLE(buf[COMMITTED_OFFSET_OFF..LAST_SEQ_OFF]),
                     GetLE(buf[LAST_SEQ_OFF..LAST_SEQ_OFF + 8])))
  }

  function WriteCapacity(buf: seq<Byte>, capacity: nat): seq<Byte>
    requires |buf| >= HEADER_SIZE
  {
    Splice(buf, CAPACITY_OFF, PutLE(capacity, 8))
  }

  function WriteCommitted(buf: seq<Byte>, committed: nat, lastSeq: nat): seq<Byte>
    requires |buf| >= HEADER_SIZE
  {
    Splice(buf, COMMITTED_OFFSET_OFF, PutLE(committed, 8) + PutLE(lastSeq, 8))
  }

  lemma EightBytes(n: nat)
    requires n < Q_LIMIT
    ensures GetLE(PutLE(n, 8)) == n
  {
    FourBytes();
    GetPutLE(n, 8);
  }

  lemma HeaderRoundTrip(h: Header, data: seq<Byte>)
    requires Fits(h)
    ensures UnpackHeader(PackHeader(h) + data) == Some(h)
  {
    var buf := PackHeader(h) + data;
    assert buf[..8] == MAGIC;
    assert buf[12..20] == PutLE(h.capacity, 8);
    assert buf[20..28] == PutLE(h.committed, 8);
    assert buf[28..36] == PutLE(h.lastSeq, 8);
    EightBytes(h.capacity);
    EightBytes(h.committed);
    EightBytes(h.lastSeq);
  }

  /**
   * The header page, byte by byte: "RISKLOG1", version 1 in four bytes, then capacity, committed offset and
   * sequence number in eight each, least significant first; zeros to the end of the page.
   */
  lemma HeaderLayout(h: Header)
    ensures var page := PackHeader(h);
            && |page| == 4096 && page[..8] == [82, 73, 83, 75, 76, 79, 71, 49] && page[8..12] == [1, 0, 0, 0]
            && (forall i | 0 <= i < 8 :: Pow256(i) > 0
                  && page[12 + i] == h.capacity / Pow256(i) % 256
                  && page[20 + i] == h.committed / Pow256(i) % 256
                  && page[28 + i] == h.lastSeq / Pow256(i) % 256)
            && forall i | 36 <= i < 4096 :: page[i] == 0
  {
    var page := PackHeader(h);
    assert PutLE(1, 4) == [1, 0, 0, 0] by {
      assert PutLE(0, 3) == [0, 0, 0] by { assert PutLE(0, 2) == [0, 0]; }
    }
    forall i | 0 <= i < 8
      ensures Pow256(i) > 0
              && page[12 + i] == h.capacity / Pow256(i) % 256
              && page[20 + i] == h.committed / Pow256(i) % 256
              && page[28 + i] == h.lastSeq / Pow256(i) % 256
    {
      LittleEndian(h.capacity, 8, i);
      LittleEndian(h.committed, 8, i);
      LittleEndian(h.lastSeq, 8, i);
      assert page[12 + i] == PutLE(h.capacity, 8)[i] && page[20 + i] == PutLE(h.committed, 8)[i];
      assert page[28 + i] == PutLE(h.lastSeq, 8)[i];
    }
  }

  /** A header store changes its own fields and leaves the others, and no byte outside its slots moves. */
  lemma HeaderStores(buf: seq<Byte>, h: Header, capacity: nat, committed: nat, lastSeq: nat)
    requires UnpackHeader(buf) == Some(h) && Fits(Header(capacity, committed, lastSeq))
    ensures UnpackHeader(WriteCapacity(buf, capacity)) == Some(h.(capacity := capacity))
    ensures UnpackHeader(WriteCommitted(buf, committed, lastSeq))
            == Some(h.(committed := committed, lastSeq := lastSeq))
    ensures var b := WriteCapacity(buf, capacity);
            |b| == |buf| && forall i | 0 <= i < |buf| && !(CAPACITY_OFF <= i < CAPACITY_OFF + 8) :: b[i] == buf[i]
    ensures var b := WriteCommitted(buf, committed, lastSeq);
            |b| == |buf| && forall i | 0 <= i < |buf| && !(COMMITTED_OFFSET_OFF <= i < LAST_SEQ_OFF + 8) :: b[i] == buf[i]
  {
    CapacityStore(buf, h, capacity);
    CommittedStore(buf, h, committed, lastSeq);
    hide UnpackHeader, PutLE;
  }

  lemma CapacityStore(buf: seq<Byte>, h: Header, capacity: nat)
    requires UnpackHeader(buf) == Some(h) && capacity < Q_LIMIT
    ensures UnpackHeader(WriteCapacity(buf, capacity)) == Some(h.(capacity := capacity))
  {
    hide PutLE, GetLE;
    EightBytes(capacity);
    var a := WriteCapacity(buf, capacity);
    assert a[..8] == buf[..8];
    assert a[12..20] == PutLE(capacity, 8) && a[20..28] == buf[20..28] && a[28..36] == buf[28..36];
  }

  lemma CommittedStore(buf: seq<Byte>, h: Header, committed: nat, lastSeq: nat)
    requires UnpackHeader(buf) == Some(h) && committed < Q_LIMIT && lastSeq < Q_LIMIT
    ensures UnpackHeader(WriteCommitted(buf, committed, lastSeq)) == Some(h.(committed := committed, lastSeq := lastSeq))
  {
    hide PutLE, GetLE;
    EightBytes(committed);
    EightBytes(lastSeq);
    var b := WriteCommitted(buf, committed, lastSeq);
    assert b[..8] == buf[..8];
    assert b[12..20] == buf[12..20] && b[20..28] == PutLE(committed, 8) && b[28..36] == PutLE(lastSeq, 8);
  }

  /**
   * A process killed between creating a file's space and writing its header leaves only zeros, which no
   * later open accepts: what the log promises across crashes starts once the header is there.
   */
  lemma HalfCreatedFileIsCorrupt(size: nat)
    ensures UnpackHeader(seq(size, _ => 0)) == None
  {
    if size >= HEADER_SIZE {
      var zeros: seq<Byte> := seq(size, _ => 0);
      assert zeros[..8][0] != MAGIC[0];
    }
  }

  // ---- frames ----

  datatype Codec = Codec(enc: Envelope -> seq<Byte>, dec: seq<Byte> -> Option<Envelope>) {
    /**
     * The envelope survives JSON: its text decodes back, is not empty, fits the length prefix and
     * holds no raw newline (RFC 8259, section 7, requires control characters to be escaped).
     */
    ghost predicate Encodes(e: Envelope) {
      0 < |enc(e)| < U32_LIMIT && LF !in enc(e) && dec(enc(e)) == Some(e)
    }
  }

  function EncodeFrame(c: Codec, e: Envelope): (frame: seq<Byte>)
    ensures |frame| == FRAME_LEN_SIZE + |c.enc(e)| + 1
  {
    PutLE(|c.enc(e)|, FRAME_LEN_SIZE) + c.enc(e) + [LF]
  }

  /** A frame, byte by byte: the text's length in four bytes, least significant first, the text, a newline. */
  lemma FrameLayout(c: Codec, e: Envelope)
    ensures var frame, n := EncodeFrame(c, e), |c.enc(e)|;
            && |frame| == n + 5 && frame[n + 4] == 10 && frame[4..n + 4] == c.enc(e)
            && frame[0] == n % 256 && frame[1] == n / 256 % 256
            && frame[2] == n / 0x1_0000 % 256 && frame[3] == n / 0x100_0000 % 256
  {
    var n := |c.enc(e)|;
    PowersOf256();
    LittleEndian(n, 4, 0);
    LittleEndian(n, 4, 1);
    LittleEndian(n, 4, 2);
    LittleEndian(n, 4, 3);
    assert forall i | 0 <= i < 4 :: EncodeFrame(c, e)[i] == PutLE(n, 4)[i];
    hide PutLE;
  }

  lemma PowersOf256()
    ensures Pow256(0) == 1 && Pow256(1) == 256 && Pow256(2) == 0x1_0000 && Pow256(3) == 0x100_0000
  {
    assert Pow256(1) == 256;
    assert Pow256(2) == 0x1_0000;
  }

  datatype Decoded = NoFrame | Frame(envelope: Envelope, next: nat)

  /** One frame at `offset`, reading no byte at or past `limit`; NoFrame for zero fill or a torn write. */
  function DecodeFrameAt(c: Codec, buf: seq<Byte>, offset: nat, limit: nat): (r: Decoded)
    requires limit <= |buf|
    ensures r.Frame? ==> offset < r.next <= limit
  {
    if offset + FRAME_LEN_SIZE > limit then NoFrame else
      var length := GetLE(buf[offset..offset + FRAME_LEN_SIZE]);
      if length <= 0 then NoFrame else
        var frameEnd := offset + FRAME_LEN_SIZE + length + 1;
        if frameEnd > limit then NoFrame
        else if buf[frameEnd - 1] != LF then NoFrame
        else match c.dec(buf[offset + FRAME_LEN_SIZE..frameEnd - 1])
             case None => NoFrame
             case Some(e) => Frame(e, frameEnd)
  }

  /** Exactly what is taken for a frame: a whole one below the limit, not empty, ended by a newline, whose text decodes. */
  lemma DecodesExactly(c: Codec, buf: seq<Byte>, offset: nat, limit: nat, e: Envelope, next: nat)
    requires limit <= |buf|
    ensures DecodeFrameAt(c, buf, offset, limit) == Frame(e, next)
            <==> && offset + 4 <= limit
                 && var n := buf[offset] as int + 256 * (buf[offset + 1] as int) + 0x1_0000 * (buf[offset + 2] as int)
                          + 0x100_0000 * (buf[offset + 3] as int);
                 && n > 0 && next == offset + 4 + n + 1 && next <= limit
                 && buf[next - 1] == 10 && c.dec(buf[offset + 4..next - 1]) == Some(e)
  {
    if offset + 4 <= limit {
      FromFourBytes(buf[offset..offset + 4]);
    }
  }

  lemma FromFourBytes(p: seq<Byte>)
    requires |p| == 4
    ensures GetLE(p) == p[0] as int + 256 * (p[1] as int) + 0x1_0000 * (p[2] as int) + 0x100_0000 * (p[3] as int)
  {
    assert p[1..][1..] == p[2..] && p[2..][1..] == p[3..] && p[3..][1..] == [];
    assert GetLE(p[3..]) == p[3];
    assert GetLE(p[2..]) == p[2] as int + 256 * (p[3] as int);
    assert GetLE(p[1..]) == p[1] as int + 256 * GetLE(p[2..]);
  }

  /** All frames from `offset` on, up to the first that fails to decode. */
  function Frames(c: Codec, buf: seq<Byte>, offset: nat, limit: nat): seq<Decoded>
    requires limit <= |buf|
    decreases limit - offset
  {
    match DecodeFrameAt(c, buf, offset, limit)
    case NoFrame => []
    case Frame(e, next) => [Frame(e, next)] + Frames(c, buf, next, limit)
  }

  function Envelopes(frames: seq<Decoded>): seq<Envelope>
    requires forall f <- frames :: f.Frame?
  {
    seq(|frames|, i requires 0 <= i < |frames| => frames[i].envelope)
  }

  lemma FramesAreFrames(c: Codec, buf: seq<Byte>, offset: nat, limit: nat)
    requires limit <= |buf|
    ensures forall f <- Frames(c, buf, offset, limit) :: f.Frame?
    decreases limit - offset
  {
  }

  /** Replay of a byte range: the envelopes of its frames (hobo/log/reader.py). */
  function ReplayRange(c: Codec, data: seq<Byte>, start: nat, end: nat): seq<Envelope>
    requires end <= |data|
  {
    FramesAreFrames(c, data, start, end);
    Envelopes(Frames(c, data, start, end))
  }

  datatype Scan = Scan(offset: nat, lastSeq: int, count: nat)

  /** Frames found past the committed offset, as reopening recovers them. */
  function ScanAheadSpec(c: Codec, data: seq<Byte>, committed: nat, capacity: nat, lastSeq: int): Scan
    requires capacity <= |data|
  {
    FramesAreFrames(c, data, committed, capacity);
    var frames := Frames(c, data, committed, capacity);
    if frames == [] then Scan(committed, lastSeq, 0)
    else Scan(frames[|frames| - 1].next, frames[|frames| - 1].envelope.seqNo, |frames|)
  }

  /** The generator's loop, collecting what it yields. */
  method IterFramesWithOffsets(c: Codec, buf: seq<Byte>, start: nat, limit: nat) returns (frames: seq<Decoded>)
    requires limit <= |buf|
    ensures frames == Frames(c, buf, start, limit)
  {
    frames := [];
    var offset := start;
    while true
      invariant frames + Frames(c, buf, offset, limit) == Frames(c, buf, start, limit)
      decreases limit - offset
    {
      var decoded := DecodeFrameAt(c, buf, offset, limit);
      if decoded.NoFrame? {
        return;
      }
      frames := frames + [decoded];
      offset := decoded.next;
    }
  }

  method ScanAhead(c: Codec, data: seq<Byte>, committed: nat, capacity: nat, lastSeq: int)
    returns (offset: nat, seqNo: int, count: nat)
    requires capacity <= |data|
    ensures Scan(offset, seqNo, count) == ScanAheadSpec(c, data, committed, capacity, lastSeq)
  {
    offset, seqNo, count := committed, lastSeq, 0;
    var frames := IterFramesWithOffsets(c, data, committed, capacity);
    FramesAreFrames(c, data, committed, capacity);
    for i := 0 to |frames|
      invariant count == i
      invariant i == 0 ==> offset == committed && seqNo == lastSeq
      invariant i > 0 ==> offset == frames[i - 1].next && seqNo == frames[i - 1].envelope.seqNo
    {
      offset := frames[i].next;
      seqNo := frames[i].envelope.seqNo;
      count := count + 1;
    }
  }

  // ---- round trip ----

  function EncodeAll(c: Codec, es: seq<Envelope>): seq<Byte> {
    if es == [] then [] else EncodeAll(c, es[..|es| - 1]) + EncodeFrame(c, es[|es| - 1])
  }

  /** Where the first k frames end. */
  function End(c: Codec, es: seq<Envelope>, k: nat): nat
    requires k <= |es|
  {
    |EncodeAll(c, es[..k])|
  }

  /** The data region starts with exactly these envelopes' frames. */
  ghost predicate Holds(c: Codec, data: seq<Byte>, es: seq<Envelope>) {
    && (forall i | 0 <= i < |es| :: c.Encodes(es[i]))
    && EncodeAll(c, es) <= data
  }

  lemma EndStep(c: Codec, es: seq<Envelope>, k: nat)
    requires k < |es|
    ensures EncodeAll(c, es[..k + 1]) == EncodeAll(c, es[..k]) + EncodeFrame(c, es[k])
    ensures End(c, es, k + 1) == End(c, es, k) + |EncodeFrame(c, es[k])|
  {
    assert es[..k + 1][..k] == es[..k];
  }

  lemma {:induction false} EndStrict(c: Codec, es: seq<Envelope>, a: nat, b: nat)
    requires a < b <= |es|
    ensures End(c, es, a) < End(c, es, b)
  {
    EndStep(c, es, b - 1);
    if a < b - 1 {
      EndStrict(c, es, a, b - 1);
    }
  }

  lemma {:induction false} EncodeAllPrefix(c: Codec, es: seq<Envelope>, k: nat)
    requires k <= |es|
    ensures EncodeAll(c, es[..k]) <= EncodeAll(c, es)
    ensures End(c, es, k) <= End(c, es, |es|) == |EncodeAll(c, es)|
    decreases |es| - k
  {
    assert es[..|es|] == es;
    if k < |es| {
      EndStep(c, es, k);
      EncodeAllPrefix(c, es, k + 1);
    }
  }

  lemma SliceOfSlice(buf: seq<Byte>, offset: nat, n: nat, i: nat, j: nat)
    requires i <= j <= n && offset + n <= |buf|
    ensures buf[offset..offset + n][i..j] == buf[offset + i..offset + j]
  {
    var a, b := buf[offset..offset + n][i..j], buf[offset + i..offset + j];
    assert forall m | 0 <= m < |a| :: a[m] == b[m];
    assert a == b;
  }

  lemma DecodeEncoded(c: Codec, e: Envelope, buf: seq<Byte>, offset: nat, limit: nat)
    requires c.Encodes(e) && offset + |EncodeFrame(c, e)| <= limit <= |buf|
    requires buf[offset..offset + |EncodeFrame(c, e)|] == EncodeFrame(c, e)
    ensures DecodeFrameAt(c, buf, offset, limit) == Frame(e, offset + |EncodeFrame(c, e)|)
  {
    var frame, payload := EncodeFrame(c, e), c.enc(e);
    FourBytes();
    GetPutLE(|payload|, 4);
    assert frame[..4] == PutLE(|payload|, 4) && frame[4..4 + |payload|] == payload && frame[4 + |payload|] == LF;
    SliceOfSlice(buf, offset, |frame|, 0, 4);
    SliceOfSlice(buf, offset, |frame|, 4, 4 + |payload|);
    SliceOfSlice(buf, offset, |frame|, 4 + |payload|, |frame|);
    assert buf[offset + 4 + |payload|] == buf[offset..offset + |frame|][4 + |payload|];
  }

  lemma DecodeAtBoundary(c: Codec, data: seq<Byte>, es: seq<Envelope>, k: nat, limit: nat)
    requires Holds(c, data, es) && k < |es| && End(c, es, k + 1) <= limit <= |data|
    ensures DecodeFrameAt(c, data, End(c, es, k), limit) == Frame(es[k], End(c, es, k + 1))
  {
    EndStep(c, es, k);
    EncodeAllPrefix(c, es, k + 1);
    var from, to := End(c, es, k), End(c, es, k + 1);
    assert data[..to] == EncodeAll(c, es[..k + 1]);
    SliceOfSlice(data, 0, to, from, to);
    assert data[0..to] == data[..to];
    assert EncodeAll(c, es[..k + 1])[from..to] == EncodeFrame(c, es[k]);
    DecodeEncoded(c, es[k], data, from, limit);
  }

  /** What parsing from boundary k must give: the remaining envelopes with the offsets after them. */
  function Suffix(c: Codec, es: seq<Envelope>, k: nat): seq<Decoded>
    requires k <= |es|
    decreases |es| - k
  {
    if k == |es| then [] else [Frame(es[k], End(c, es, k + 1))] + Suffix(c, es, k + 1)
  }

  /** From any frame boundary, parsing returns the matching suffix and stops at the end of the frames. */
  lemma {:induction false} ParseSuffix(c: Codec, data: seq<Byte>, es: seq<Envelope>, k: nat, limit: nat)
    requires Holds(c, data, es) && k <= |es| && End(c, es, |es|) <= limit <= |data|
    requires DecodeFrameAt(c, data, End(c, es, |es|), limit).NoFrame?
    ensures Frames(c, data, End(c, es, k), limit) == Suffix(c, es, k)
    decreases |es| - k
  {
    if k < |es| {
      EncodeAllPrefix(c, es, k + 1);
      DecodeAtBoundary(c, data, es, k, limit);
      ParseSuffix(c, data, es, k + 1, limit);
    }
  }

  /** Whatever follows the frames, parsing from a boundary starts with the rest of them. */
  lemma {:induction false} ParseStartsWithSuffix(c: Codec, data: seq<Byte>, es: seq<Envelope>, k: nat, limit: nat)
    requires Holds(c, data, es) && k <= |es| && End(c, es, |es|) <= limit <= |data|
    ensures Suffix(c, es, k) <= Frames(c, data, End(c, es, k), limit)
    decreases |es| - k
  {
    if k < |es| {
      EncodeAllPrefix(c, es, k + 1);
      DecodeAtBoundary(c, data, es, k, limit);
      ParseStartsWithSuffix(c, data, es, k + 1, limit);
    }
  }

  /** Whatever follows the held frames, the envelopes found from a boundary on begin with the remaining ones. */
  lemma {:induction false} FindsRemaining(c: Codec, data: seq<Byte>, es: seq<Envelope>, k: nat, limit: nat)
    requires Holds(c, data, es) && k <= |es| && End(c, es, |es|) <= limit <= |data|
    ensures forall f <- Frames(c, data, End(c, es, k), limit) :: f.Frame?
    ensures es[k..] <= Envelopes(Frames(c, data, End(c, es, k), limit))
  {
    hide Holds, Frames, Suffix;
    FramesAreFrames(c, data, End(c, es, k), limit);
    ParseStartsWithSuffix(c, data, es, k, limit);
    SuffixShape(c, es, k);
    var found := Frames(c, data, End(c, es, k), limit);
    forall i | 0 <= i < |es| - k ensures found[i].envelope == es[k + i] {
      assert Suffix(c, es, k)[i] == found[i];
    }
  }

  lemma {:induction false} SuffixShape(c: Codec, es: seq<Envelope>, k: nat)
    requires k <= |es|
    ensures |Suffix(c, es, k)| == |es| - k
    ensures forall i | 0 <= i < |es| - k :: Suffix(c, es, k)[i] == Frame(es[k + i], End(c, es, k + i + 1))
    decreases |es| - k
  {
    if k < |es| {
      SuffixShape(c, es, k + 1);
    }
  }

  /** Replaying the bytes between two frame boundaries gives exactly the envelopes between them. */
  lemma {:induction false} ReplayBetween(c: Codec, data: seq<Byte>, es: seq<Envelope>, j: nat, k: nat)
    requires Holds(c, data, es) && j <= k <= |es|
    ensures End(c, es, k) <= |data|
    ensures ReplayRange(c, data, End(c, es, j), End(c, es, k)) == es[j..k]
  {
    EncodeAllPrefix(c, es, k);
    var part := es[..k];
    assert EncodeAll(c, part) <= data;
    assert part[..k] == part && part[..j] == es[..j];
    ParseSuffix(c, data, part, j, End(c, es, k));
    SuffixShape(c, part, j);
    FramesAreFrames(c, data, End(c, es, j), End(c, es, k));
  }

  /** Encoding a list of envelopes and parsing the bytes gives the list back. */
  lemma {:induction false} StreamRoundTrip(c: Codec, es: seq<Envelope>)
    requires forall i | 0 <= i < |es| :: c.Encodes(es[i])
    ensures ReplayRange(c, EncodeAll(c, es), 0, |EncodeAll(c, es)|) == es
  {
    assert es[..|es|] == es && es[..0] == [];
    ReplayBetween(c, EncodeAll(c, es), es, 0, |es|);
  }

  /** Past the length prefix no newline is left: whatever the other bytes are, no frame is found. */
  ghost predicate NoNewlineFrom(data: seq<Byte>, from: nat) {
    forall i | from <= i < |data| :: data[i] != LF
  }

  lemma LeftoversAreNoFrame(c: Codec, data: seq<Byte>, offset: nat, limit: nat)
    requires limit <= |data| && NoNewlineFrom(data, offset + FRAME_LEN_SIZE)
    ensures DecodeFrameAt(c, data, offset, limit).NoFrame?
  {
  }

  /** Scanning from any boundary over frames followed by leftovers finds exactly the remaining frames. */
  lemma ScanFindsAll(c: Codec, data: seq<Byte>, es: seq<Envelope>, k: nat, capacity: nat)
    requires Holds(c, data, es) && k <= |es| && End(c, es, |es|) <= capacity <= |data|
    requires NoNewlineFrom(data, End(c, es, |es|) + FRAME_LEN_SIZE)
    requires forall i | 0 <= i < |es| :: es[i].seqNo == i + 1
    ensures ScanAheadSpec(c, data, End(c, es, k), capacity, k) == Scan(End(c, es, |es|), |es|, |es| - k)
  {
    LeftoversAreNoFrame(c, data, End(c, es, |es|), capacity);
    ParseSuffix(c, data, es, k, capacity);
    SuffixShape(c, es, k);
  }
}
