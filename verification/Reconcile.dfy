/**
 * The admin net-patch (scripts/reconcile.py): compares what the engine's books hold together with the
 * exchange's positions and, when applied, appends a fill per gap that adopts the exchange's number.
 */
module Reconciling {
  import opened Wrappers
  import opened RiskModel
  import opened RiskMath
  import opened RiskState
  import opened MapSums
  import opened Fold
  import opened FoldRuns

  const TOLERANCE := 0.000001

  function Get(m: map<string, real>, iid: string): real { if iid in m then m[iid] else 0.0 }

  /** A book's quantities added onto a running total by instrument. */
  function Plus(engine: map<string, real>, ps: Positions): map<string, real> {
    map iid | iid in engine.Keys + ps.Keys :: Get(engine, iid) + if iid in ps then ps[iid].qty else 0.0
  }

  method AddBook(engine: map<string, real>, book: Book) returns (sum: map<string, real>)
    ensures sum == Plus(engine, book.positions)
  {
    hide Plus, Get;
    var ps := book.positions;
    sum := engine;
    var todo := ps.Keys;
    PlusNothing(engine, ps);
    while todo != {}
      invariant todo <= ps.Keys && sum == Plus(engine, ps - todo)
      decreases |todo|
    {
      var iid :| iid in todo;
      PlusOne(engine, ps - todo, iid, ps[iid]);
      Restore(ps, todo, iid);
      sum := sum[iid := Get(sum, iid) + ps[iid].qty];
      todo := todo - {iid};
    }
    assert ps - todo == ps;
  }

  lemma PlusNothing(engine: map<string, real>, ps: Positions)
    ensures Plus(engine, ps - ps.Keys) == engine
  {
  }

  /** One key fewer taken away is that entry put back. */
  lemma Restore<V>(m: map<string, V>, todo: set<string>, k: string)
    requires todo <= m.Keys && k in todo
    ensures m - (todo - {k}) == (m - todo)[k := m[k]]
    ensures k !in m - todo
  {
  }

  lemma PlusOne(engine: map<string, real>, done: Positions, iid: string, p: Position)
    requires iid !in done
    ensures Plus(engine, done[iid := p]) == Plus(engine, done)[iid := Get(Plus(engine, done), iid) + p.qty]
  {
  }

  /** Every book's quantity in every instrument it holds, added up by instrument. */
  method EnginePositions(s: State) returns (engine: map<string, real>)
    ensures forall iid :: Get(engine, iid) == NetQty(s, iid)
  {
    hide Plus, Quantities, Get;
    var books := s.desk.books;
    engine := map[];
    var todo := books.Keys;
    NothingHeld();
    assert books - todo == map[];
    while todo != {}
      invariant todo <= books.Keys
      invariant forall iid :: Get(engine, iid) == Sum(Quantities(books - todo, iid))
      decreases |todo|
    {
      var b :| b in todo;
      OneMoreBook(engine, books - todo, b, books[b]);
      Restore(books, todo, b);
      engine := AddBook(engine, books[b]);
      todo := todo - {b};
    }
    assert books - todo == books;
  }

  lemma NothingHeld()
    ensures forall iid :: Get(map[], iid) == Sum(Quantities(map[], iid))
  {
    forall iid ensures Sum(Quantities(map[], iid)) == 0.0 { SumZero(Quantities(map[], iid)); }
  }

  lemma OneMoreBook(engine: map<string, real>, done: map<string, Book>, b: string, book: Book)
    requires b !in done && forall iid :: Get(engine, iid) == Sum(Quantities(done, iid))
    ensures forall iid :: Get(Plus(engine, book.positions), iid) == Sum(Quantities(done[b := book], iid))
  {
    forall iid ensures Get(Plus(engine, book.positions), iid) == Sum(Quantities(done[b := book], iid)) {
      var qty := book.PositionIn(iid).qty;
      assert Quantities(done[b := book], iid) == Quantities(done, iid)[b := qty];
      SumUpdate(Quantities(done, iid), b, qty);
    }
  }

  function Diff(engine: map<string, real>, exchange: map<string, real>, iid: string): real {
    Get(exchange, iid) - Get(engine, iid)
  }

  /** Exchange less engine, for the instruments of `ids` that differ by more than the tolerance. */
  function GapsIn(ids: set<string>, engine: map<string, real>, exchange: map<string, real>): map<string, real> {
    map iid | iid in ids && Abs(Diff(engine, exchange, iid)) > TOLERANCE :: Diff(engine, exchange, iid)
  }

  method Gaps(engine: map<string, real>, exchange: map<string, real>) returns (gaps: map<string, real>)
    ensures gaps == GapsIn(engine.Keys + exchange.Keys, engine, exchange)
    ensures forall iid ::
      var d := (if iid in exchange then exchange[iid] else 0.0) - if iid in engine then engine[iid] else 0.0;
      && (iid in gaps <==> (iid in engine || iid in exchange) && (d > 0.000001 || d < -0.000001))
      && (iid in gaps ==> gaps[iid] == d)
  {
    hide Get, Abs, Diff, GapsIn;
    gaps := map[];
    var all := engine.Keys + exchange.Keys;
    var todo := all;
    NoGaps(engine, exchange);
    assert all - todo == {};
    while todo != {}
      invariant todo <= all
      invariant gaps == GapsIn(all - todo, engine, exchange)
      decreases |todo|
    {
      var iid :| iid in todo;
      assert all - (todo - {iid}) == (all - todo) + {iid};
      OneMoreGap(all - todo, iid, engine, exchange);
      var diff := Diff(engine, exchange, iid);
      if Abs(diff) > TOLERANCE {
        gaps := gaps[iid := diff];
      }
      todo := todo - {iid};
    }
    assert all - todo == all;
    GapsAre(engine, exchange);
  }

  lemma GapsAre(engine: map<string, real>, exchange: map<string, real>)
    ensures var gaps := GapsIn(engine.Keys + exchange.Keys, engine, exchange);
            forall iid ::
              var d := (if iid in exchange then exchange[iid] else 0.0) - if iid in engine then engine[iid] else 0.0;
              && (iid in gaps <==> (iid in engine || iid in exchange) && (d > 0.000001 || d < -0.000001))
              && (iid in gaps ==> gaps[iid] == d)
  {
  }

  lemma NoGaps(engine: map<string, real>, exchange: map<string, real>)
    ensures GapsIn({}, engine, exchange) == map[]
  {
  }

  lemma OneMoreGap(ids: set<string>, iid: string, engine: map<string, real>, exchange: map<string, real>)
    requires iid !in ids
    ensures GapsIn(ids + {iid}, engine, exchange)
            == if Abs(Diff(engine, exchange, iid)) > TOLERANCE
               then GapsIn(ids, engine, exchange)[iid := Diff(engine, exchange, iid)]
               else GapsIn(ids, engine, exchange)
  {
    hide Get, Abs, Diff;
  }

  /** The position-adopting fill: at the current mark, without a fee or a trade id. */
  function PatchFill(s: State, book: string, iid: string, diff: real, orderId: string): LogEvent {
    LogEvent.Fill(orderId, book, iid, if diff > 0.0 then BUY else SELL, Abs(diff), MarketOf(s).Mark(iid), 0.0, "")
  }

  /** Nothing any book holds changes in value: a fill at the mark costs what it is worth. */
  lemma PatchKeepsPnl(s: State, book: string, iid: string, diff: real, orderId: string, b: string)
    requires book in s.desk.books && iid in s.instruments && b in s.desk.books
    ensures var t := Handle(s, PatchFill(s, book, iid, diff, orderId));
            && b in t.desk.books && MarketOf(t) == MarketOf(s)
            && BookTotalPnl(t, t.desk.books[b]) == BookTotalPnl(s, s.desk.books[b])
  {
    hide TotalPnlOf, FillPosition, PositionPnl, RaiseHighWaterMarks;
    var e := PatchFill(s, book, iid, diff, orderId);
    var m, p := MarketOf(s), s.desk.books[book].PositionIn(iid);
    var q := FillPosition(p, SignedDelta(e.side, e.qty), m.Mark(iid), 0.0, m.Multiplier(iid));
    RaisedPositions(Trade(s, e), b);
    RaisedMarket(Trade(s, e));
    if b == book {
      SamePnl(m, iid, p, SignedDelta(e.side, e.qty));
      FlatIsWorthless(m, iid);
      ReplacePnl(m, s.desk.books[b].positions, iid, q);
    }
  }

  lemma RaisedMarket(s: State)
    ensures MarketOf(RaiseHighWaterMarks(s)) == MarketOf(s)
  {
  }

  lemma SamePnl(m: Market, iid: string, p: Position, delta: real)
    ensures PositionPnl(m, iid, FillPosition(p, delta, m.Mark(iid), 0.0, m.Multiplier(iid))) == PositionPnl(m, iid, p)
  {
    hide SimulateFill, UnrealizedPnl;
    FillCashFlow(p.qty, p.avgEntryPrice, delta, m.Mark(iid), m.Mark(iid), m.Multiplier(iid));
    assert m.Multiplier(iid) * (delta * (m.Mark(iid) - m.Mark(iid))) == 0.0;
  }

  /** What a patch has done so far: net quantities moved for the instruments handled, PnL for none. */
  ghost predicate Patched(s: State, t: State, gaps: map<string, real>, handled: set<string>) {
    && SameRoster(s, t) && MarketOf(t) == MarketOf(s)
    && (forall iid <- s.instruments ::
          NetQty(t, iid) == NetQty(s, iid) + if iid in handled && iid in gaps then gaps[iid] else 0.0)
    && (forall b <- s.desk.books :: b in t.desk.books &&
          BookTotalPnl(t, t.desk.books[b]) == BookTotalPnl(s, s.desk.books[b]))
  }

  lemma PatchOne(s: State, t: State, gaps: map<string, real>, handled: set<string>, book: string, iid: string, orderId: string)
    requires Patched(s, t, gaps, handled) && book in s.desk.books && iid in s.instruments
    requires iid in gaps && iid !in handled
    ensures WellFormed(t, PatchFill(t, book, iid, gaps[iid], orderId))
    ensures Patched(s, Handle(t, PatchFill(t, book, iid, gaps[iid], orderId)), gaps, handled + {iid})
  {
    hide NetQty, TotalPnlOf, Handle;
    var e := PatchFill(t, book, iid, gaps[iid], orderId);
    var u := Handle(t, e);
    HandleKeepsRoster(t, e);
    PatchKeepsPnl(t, book, iid, gaps[iid], orderId, book);
    forall j | j in s.instruments
      ensures NetQty(u, j) == NetQty(s, j) + if j in handled + {iid} && j in gaps then gaps[j] else 0.0
    {
      OneEventNet(t, e, j);
    }
    forall b | b in s.desk.books
      ensures b in u.desk.books && BookTotalPnl(u, u.desk.books[b]) == BookTotalPnl(s, s.desk.books[b])
    {
      PatchKeepsPnl(t, book, iid, gaps[iid], orderId, b);
    }
  }

  lemma QuietEnvelope(s: State, t: State, gaps: map<string, real>, handled: set<string>, n: int)
    requires Patched(s, t, gaps, handled)
    ensures Patched(s, t.(lastSeq := n), gaps, handled)
  {
    hide TotalPnlOf, NetQty;
    forall iid { NetIgnoresSeq(t, n, iid); }
  }

  datatype Outcome = InSync | Mismatch | BadBook | Done

  ghost predicate IsGap(s: State, exchange: map<string, real>, iid: string) {
    Abs(Get(exchange, iid) - NetQty(s, iid)) > TOLERANCE
  }

  /**
   * With `apply`, returns the envelopes appended.  They can be replayed exactly when every gapped
   * instrument is known; then the replayed net equals the exchange for every gap, stays as it was (within
   * tolerance) for the others, and no book's PnL at the marks moves.
   */
  method Reconcile(s: State, exchange: map<string, real>, apply: bool, book: Option<string>, tsNs: int)
    returns (outcome: Outcome, patch: seq<Envelope>)
    ensures !outcome.Done? ==> patch == []
    ensures outcome.InSync? <==> forall iid :: !IsGap(s, exchange, iid)
    ensures outcome.Mismatch? ==> !apply
    ensures outcome.BadBook? ==> apply && (book.None? || book.value !in s.desk.books)
    ensures outcome.Done? ==> apply && book.Some? && book.value in s.desk.books
    ensures outcome.Done? ==>
      (AllWellFormed(s, patch) <==> forall iid | IsGap(s, exchange, iid) :: iid in s.instruments)
    ensures outcome.Done? ==> exists gaps: map<string, real> ::
      && IsPatch(s, gaps, book.value, tsNs, patch, |gaps|)
      && forall iid :: (iid in gaps <==> IsGap(s, exchange, iid))
                       && (iid in gaps ==> gaps[iid] == Get(exchange, iid) - NetQty(s, iid))
    ensures outcome.Done? && AllWellFormed(s, patch) ==> var t := FoldAll(s, patch);
      && (forall iid <- s.instruments ::
            NetQty(t, iid) == if IsGap(s, exchange, iid) then Get(exchange, iid) else NetQty(s, iid))
      && (forall b <- s.desk.books :: b in t.desk.books && MarketOf(t) == MarketOf(s)
            && BookTotalPnl(t, t.desk.books[b]) == BookTotalPnl(s, s.desk.books[b]))
  {
    hide NetQty, TotalPnlOf, Handle, FoldAll, WellFormed, AllWellFormed, Abs, Get;
    var engine := EnginePositions(s);
    var gaps := Gaps(engine, exchange);
    GapsCover(s, engine, exchange, gaps);
    if gaps == map[] {
      return InSync, [];
    }
    ghost var some :| some in gaps;
    assert IsGap(s, exchange, some);
    if !apply {
      return Mismatch, [];
    }
    if book.None? || book.value !in s.desk.books {
      return BadBook, [];
    }
    patch := Patch(s, gaps, book.value, tsNs);
    outcome := Done;
  }

  lemma EmptyFold(s: State)
    ensures AllWellFormed(s, []) && FoldAll(s, []) == s
  {
  }

  lemma GapsCover(s: State, engine: map<string, real>, exchange: map<string, real>, gaps: map<string, real>)
    requires forall iid :: Get(engine, iid) == NetQty(s, iid)
    requires gaps == GapsIn(engine.Keys + exchange.Keys, engine, exchange)
    ensures forall iid :: iid in gaps <==> IsGap(s, exchange, iid)
    ensures forall iid <- gaps :: gaps[iid] == Get(exchange, iid) - NetQty(s, iid)
  {
    hide NetQty;
    forall iid ensures iid in gaps <==> IsGap(s, exchange, iid) {
      assert Get(engine, iid) == NetQty(s, iid);
    }
  }

  /** One gap's two envelopes: the audited intent, then a fill of the gap at the mark, free of fee and trade id. */
  ghost predicate Adopts(s: State, gaps: map<string, real>, book: string, note: LogEvent, fill: LogEvent) {
    && note.ReconciliationWarning? && note.kind == "POSITION_PATCH" && note.note in gaps
    && var iid := note.note;
    && fill.Fill? && fill.bookId == book && fill.instrumentId == iid && fill.fee == 0.0 && fill.tradeId == ""
    && fill.fillPrice == (if iid in s.marks then s.marks[iid] else 0.0)
    && if gaps[iid] > 0.0 then fill.side.BUY? && fill.qty == gaps[iid] else fill.side.SELL? && fill.qty == -gaps[iid]
  }

  /** Numbered on from the state, in pairs that each adopt a gap. */
  ghost predicate IsPatch(s: State, gaps: map<string, real>, book: string, tsNs: int, patch: seq<Envelope>, pairs: nat) {
    && |patch| == 2 * pairs
    && (forall k | 0 <= k < |patch| :: patch[k].seqNo == s.lastSeq + 1 + k && patch[k].tsNs == tsNs)
    && (forall k | 0 <= k < |patch| && k % 2 == 0 :: Adopts(s, gaps, book, patch[k].event, patch[k + 1].event))
  }

  lemma OneMorePair(s: State, gaps: map<string, real>, book: string, tsNs: int, patch: seq<Envelope>, pairs: nat,
                    note: Envelope, fill: Envelope)
    requires IsPatch(s, gaps, book, tsNs, patch, pairs) && Adopts(s, gaps, book, note.event, fill.event)
    requires note.seqNo == s.lastSeq + |patch| + 1 && fill.seqNo == note.seqNo + 1 && note.tsNs == fill.tsNs == tsNs
    ensures IsPatch(s, gaps, book, tsNs, patch + [note] + [fill], pairs + 1)
  {
    hide Adopts;
    var more := patch + [note] + [fill];
    forall k | 0 <= k < |more| && k % 2 == 0 ensures Adopts(s, gaps, book, more[k].event, more[k + 1].event) {
      if k < |patch| { assert more[k] == patch[k] && more[k + 1] == patch[k + 1]; }
    }
  }

  lemma AdoptsGap(s: State, gaps: map<string, real>, book: string, iid: string, orderId: string)
    requires iid in gaps
    ensures Adopts(s, gaps, book, ReconciliationWarning("POSITION_PATCH", iid), PatchFill(s, book, iid, gaps[iid], orderId))
  {
  }

  /** What holds of the envelopes appended once these gaps have been handled. */
  ghost predicate PatchedSoFar(s: State, gaps: map<string, real>, book: string, tsNs: int, patch: seq<Envelope>, handled: set<string>) {
    && handled <= gaps.Keys
    && IsPatch(s, gaps, book, tsNs, patch, |handled|)
    && (AllWellFormed(s, patch) <==> handled <= s.instruments.Keys)
    && (AllWellFormed(s, patch) ==> Patched(s, FoldAll(s, patch), gaps, handled))
  }

  lemma NoPatchYet(s: State, gaps: map<string, real>, book: string, tsNs: int)
    ensures PatchedSoFar(s, gaps, book, tsNs, [], {})
  {
    hide NetQty, TotalPnlOf, Patched, FoldAll;
    EmptyFold(s);
    NothingPatched(s, gaps);
  }

  lemma OneMorePatched(s: State, gaps: map<string, real>, book: string, tsNs: int, patch: seq<Envelope>, handled: set<string>,
                       iid: string, note: Envelope, fill: Envelope)
    requires PatchedSoFar(s, gaps, book, tsNs, patch, handled) && book in s.desk.books && iid in gaps && iid !in handled
    requires note == Envelope(s.lastSeq + |patch| + 1, tsNs, ReconciliationWarning("POSITION_PATCH", iid))
    requires fill == Envelope(s.lastSeq + |patch| + 2, tsNs, PatchFill(s, book, iid, gaps[iid], "RECON-" + iid))
    ensures PatchedSoFar(s, gaps, book, tsNs, patch + [note] + [fill], handled + {iid})
  {
    hide NetQty, TotalPnlOf, Handle, FoldAll, WellFormed, AllWellFormed, Patched, IsPatch, Adopts;
    AdoptsGap(s, gaps, book, iid, "RECON-" + iid);
    OneMorePair(s, gaps, book, tsNs, patch, |handled|, note, fill);
    if AllWellFormed(s, patch) && iid in s.instruments {
      PatchTwo(s, patch, gaps, handled, book, iid, "RECON-" + iid, note, fill);
    } else {
      BrokenStaysBroken(s, patch, note, fill, iid);
    }
  }

  /** The audited intent, then the adopting fill, for each gap. */
  method Patch(s: State, gaps: map<string, real>, book: string, tsNs: int) returns (patch: seq<Envelope>)
    requires book in s.desk.books
    ensures IsPatch(s, gaps, book, tsNs, patch, |gaps|)
    ensures AllWellFormed(s, patch) <==> gaps.Keys <= s.instruments.Keys
    ensures AllWellFormed(s, patch) ==> Patched(s, FoldAll(s, patch), gaps, gaps.Keys)
  {
    hide FoldAll, AllWellFormed, Patched, IsPatch, PatchFill;
    patch := [];
    NoPatchYet(s, gaps, book, tsNs);
    var todo := gaps.Keys;
    assert gaps.Keys - todo == {};
    while todo != {}
      invariant todo <= gaps.Keys
      invariant PatchedSoFar(s, gaps, book, tsNs, patch, gaps.Keys - todo)
      decreases |todo|
    {
      var iid :| iid in todo;
      var n := s.lastSeq + |patch|;
      var note := Envelope(n + 1, tsNs, ReconciliationWarning("POSITION_PATCH", iid));
      var fill := Envelope(n + 2, tsNs, PatchFill(s, book, iid, gaps[iid], "RECON-" + iid));
      OneMorePatched(s, gaps, book, tsNs, patch, gaps.Keys - todo, iid, note, fill);
      assert gaps.Keys - (todo - {iid}) == gaps.Keys - todo + {iid};
      patch := patch + [note] + [fill];
      todo := todo - {iid};
    }
    assert gaps.Keys - todo == gaps.Keys;
  }

  /** One event the fold cannot look up makes the whole list unreplayable. */
  lemma BrokenStaysBroken(s: State, es: seq<Envelope>, note: Envelope, fill: Envelope, iid: string)
    requires !AllWellFormed(s, es) || iid !in s.instruments
    requires fill.event.Fill? && fill.event.instrumentId == iid
    ensures !AllWellFormed(s, es + [note] + [fill])
  {
    var more := es + [note] + [fill];
    if AllWellFormed(s, es) {
      assert more[|more| - 1] == fill;
    } else {
      var i :| 0 <= i < |es| && !WellFormed(s, es[i].event);
      assert more[i] == es[i];
    }
  }

  lemma NothingPatched(s: State, gaps: map<string, real>)
    ensures Patched(s, s, gaps, {})
  {
  }

  lemma PatchTwo(s: State, es: seq<Envelope>, gaps: map<string, real>, handled: set<string>, book: string, iid: string,
                 orderId: string, note: Envelope, fill: Envelope)
    requires AllWellFormed(s, es) && Patched(s, FoldAll(s, es), gaps, handled)
    requires book in s.desk.books && iid in s.instruments && iid in gaps && iid !in handled
    requires note.event.ReconciliationWarning?
    requires fill.event == PatchFill(s, book, iid, gaps[iid], orderId)
    ensures AllWellFormed(s, es + [note] + [fill])
    ensures Patched(s, FoldAll(s, es + [note] + [fill]), gaps, handled + {iid})
  {
    hide NetQty, TotalPnlOf, FoldAll, AllWellFormed, RaiseHighWaterMarks;
    var t := FoldAll(s, es);
    OneMore(s, es, note);
    var u := FoldAll(s, es + [note]);
    QuietEnvelope(s, t, gaps, handled, note.seqNo);
    PatchOne(s, u, gaps, handled, book, iid, orderId);
    OneMore(s, es + [note], fill);
    QuietEnvelope(s, Handle(u, fill.event), gaps, handled + {iid}, fill.seqNo);
  }

  lemma OneMore(s: State, es: seq<Envelope>, e: Envelope)
    requires AllWellFormed(s, es) && WellFormed(FoldAll(s, es), e.event)
    ensures AllWellFormed(s, es + [e])
    ensures FoldAll(s, es + [e]) == Handle(FoldAll(s, es), e.event).(lastSeq := e.seqNo)
  {
    hide Handle;
    assert (es + [e])[..|es|] == es;
  }
}
