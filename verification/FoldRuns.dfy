/**
 * What the fold guarantees over whole logs: each position is the run of its own fills, quantities
 * are conserved, and the high-water marks are running maxima.
 */
module FoldRuns {
  import opened RiskModel
  import opened RiskMath
  import opened RiskState
  import opened MapSums
  import opened Fold
  import P = PositionRuns

  // ---- positions are runs of their fills ----

  lemma FoldNothing(s: State)
    ensures FoldAll(s, []) == s
  {
  }

  function HoldingOf(s: State, b: string, iid: string): P.Holding
    requires b in s.desk.books
  {
    var p := s.desk.books[b].PositionIn(iid);
    P.Holding(p.qty, p.avgEntryPrice, p.realizedPnl)
  }

  predicate IsFillOf(e: LogEvent, b: string, iid: string) {
    e.Fill? && e.bookId == b && e.instrumentId == iid
  }

  function TradeOf(e: LogEvent): P.Trade
    requires e.Fill?
  {
    P.Trade(SignedDelta(e.side, e.qty), e.fillPrice)
  }

  /** The fills of one book in one instrument, in log order. */
  function TradesOf(es: seq<Envelope>, b: string, iid: string): seq<P.Trade> {
    if es == [] then [] else
      var prior, e := TradesOf(es[..|es| - 1], b, iid), es[|es| - 1].event;
      if IsFillOf(e, b, iid) then prior + [TradeOf(e)] else prior
  }

  /** Marking up books moves no position. */
  lemma RaisedPositions(s: State, b: string)
    requires b in s.desk.books
    ensures b in RaiseHighWaterMarks(s).desk.books
    ensures RaiseHighWaterMarks(s).desk.books[b].positions == s.desk.books[b].positions
  {
    hide TotalPnlOf, DeskTotalPnl;
  }

  /** What one event does to the positions of one book. */
  lemma OneEventPositions(s: State, e: LogEvent, b: string)
    requires WellFormed(s, e) && b in s.desk.books
    ensures b in Handle(s, e).desk.books
    ensures Handle(s, e).desk.books[b].positions
            == if e.Fill? then Trade(s, e).desk.books[b].positions
               else if e.FundingUpdate? then Funded(s, e.instrumentId, e.fundingRate).desk.books[b].positions
               else s.desk.books[b].positions
  {
    hide FillPosition, RaiseHighWaterMarks, PayFunding;
    if e.MarkUpdate? {
      RaisedPositions(s.(marks := s.marks[e.instrumentId := e.markPrice],
                         markTsNs := s.markTsNs[e.instrumentId := e.tsExchNs]), b);
    } else if e.Fill? {
      RaisedPositions(Trade(s, e), b);
    } else if e.FundingUpdate? {
      RaisedPositions(Funded(s, e.instrumentId, e.fundingRate), b);
    } else {
      QuietEvent(s, e, b);
      hide Handle;
    }
  }

  /** Limit, kill-switch and audit events move no position and no high-water mark. */
  lemma QuietEvent(s: State, e: LogEvent, b: string)
    requires WellFormed(s, e) && b in s.desk.books && !MovesPnl(e)
    ensures b in Handle(s, e).desk.books
    ensures Handle(s, e).desk.books[b].positions == s.desk.books[b].positions
    ensures Handle(s, e).desk.books[b].highWaterMark == s.desk.books[b].highWaterMark
  {
    hide Trade, Funded, RaiseHighWaterMarks, ChangeLimit, SetSwitch;
    if e.LimitChange? {
      LimitChangeIsQuiet(s, e, b);
      assert Handle(s, e) == ChangeLimit(s, e);
    } else if e.KillSwitch? {
      SwitchIsQuiet(s, e, b);
      assert Handle(s, e) == SetSwitch(s, e);
    } else {
      assert Handle(s, e) == s;
    }
    hide Handle;
  }

  lemma LimitChangeIsQuiet(s: State, e: LogEvent, b: string)
    requires e.LimitChange? && WellFormed(s, e) && b in s.desk.books
    ensures b in ChangeLimit(s, e).desk.books
    ensures ChangeLimit(s, e).desk.books[b].positions == s.desk.books[b].positions
    ensures ChangeLimit(s, e).desk.books[b].highWaterMark == s.desk.books[b].highWaterMark
  {
    if e.scope.BOOK? {
      var changed := s.desk.books[e.bookId].(limits := s.desk.books[e.bookId].limits[e.field := e.new_]);
      assert ChangeLimit(s, e).desk.books == s.desk.books[e.bookId := changed];
      hide ChangeLimit;
    }
  }

  lemma SwitchIsQuiet(s: State, e: LogEvent, b: string)
    requires e.KillSwitch? && WellFormed(s, e) && b in s.desk.books
    ensures b in SetSwitch(s, e).desk.books
    ensures SetSwitch(s, e).desk.books[b].positions == s.desk.books[b].positions
    ensures SetSwitch(s, e).desk.books[b].highWaterMark == s.desk.books[b].highWaterMark
  {
    if e.scope.BOOK? {
      assert SetSwitch(s, e).desk.books == s.desk.books[e.id := s.desk.books[e.id].(killSwitch := e.enabled)];
      hide SetSwitch;
    }
  }

  /** Only its own fills touch a position's quantity, entry price and realized PnL. */
  lemma OneEventHolding(s: State, e: LogEvent, b: string, iid: string)
    requires WellFormed(s, e) && b in s.desk.books && iid in s.instruments
    ensures b in Handle(s, e).desk.books
    ensures HoldingOf(Handle(s, e), b, iid)
            == if IsFillOf(e, b, iid)
               then P.Step(HoldingOf(s, b, iid), TradeOf(e), s.instruments[iid].Multiplier())
               else HoldingOf(s, b, iid)
  {
    hide Handle, SimulateFill, FundingPayment;
    OneEventPositions(s, e, b);
  }

  /** Each position of a folded state is the run of exactly its own fills. */
  lemma {:induction false} PositionIsRunOfItsFills(s: State, es: seq<Envelope>, b: string, iid: string)
    requires AllWellFormed(s, es) && b in s.desk.books && iid in s.instruments
    ensures HoldingOf(FoldAll(s, es), b, iid)
            == P.Run(HoldingOf(s, b, iid), TradesOf(es, b, iid), s.instruments[iid].Multiplier())
  {
    if es == [] {
      FoldNothing(s);
    } else {
      hide Handle, P.Step, FoldAll, AllWellFormed, WellFormed;
      var prior, e := es[..|es| - 1], es[|es| - 1].event;
      FoldLast(s, es);
      PositionIsRunOfItsFills(s, prior, b, iid);
      OneEventHolding(FoldAll(s, prior), e, b, iid);
      if IsFillOf(e, b, iid) {
        assert TradesOf(es, b, iid)[..|TradesOf(es, b, iid)| - 1] == TradesOf(prior, b, iid);
      }
    }
  }

  /** Logs holding the same fills in any order, backfills included, agree on quantity and on PnL at every mark. */
  lemma {:induction false} BackfillOrderIrrelevant(s: State, es: seq<Envelope>, fs: seq<Envelope>, b: string, iid: string, mark: real)
    requires AllWellFormed(s, es) && AllWellFormed(s, fs) && b in s.desk.books && iid in s.instruments
    requires multiset(TradesOf(es, b, iid)) == multiset(TradesOf(fs, b, iid))
    ensures var multiplier := s.instruments[iid].Multiplier();
            var h, k := HoldingOf(FoldAll(s, es), b, iid), HoldingOf(FoldAll(s, fs), b, iid);
            h.qty == k.qty && P.Worth(h, mark, multiplier) == P.Worth(k, mark, multiplier)
  {
    hide HoldingOf, FoldAll, P.Worth, P.Run;
    PositionIsRunOfItsFills(s, es, b, iid);
    PositionIsRunOfItsFills(s, fs, b, iid);
    P.FillOrderIrrelevant(HoldingOf(s, b, iid), TradesOf(es, b, iid), TradesOf(fs, b, iid), mark,
                          s.instruments[iid].Multiplier());
  }

  // ---- fees and funding ----

  /** The fees of one book's fills in one instrument. */
  function FeesOf(es: seq<Envelope>, b: string, iid: string): real {
    if es == [] then 0.0 else
      var prior, e := FeesOf(es[..|es| - 1], b, iid), es[|es| - 1].event;
      if e.Fill? && e.bookId == b && e.instrumentId == iid then prior + e.fee else prior
  }

  /** Funding on a position: for each update of its instrument, what longs pay and shorts receive at that moment. */
  ghost function FundingOf(s: State, es: seq<Envelope>, b: string, iid: string): real
    requires AllWellFormed(s, es) && b in s.desk.books
  {
    if es == [] then 0.0 else
      var prior, e := FundingOf(s, es[..|es| - 1], b, iid), es[|es| - 1].event;
      var t := FoldAll(s, es[..|es| - 1]);
      if e.FundingUpdate? && e.instrumentId == iid then prior + FundingDue(t, b, iid, e.fundingRate) else prior
  }

  /** Minus quantity, times contract value, times multiplier, times mark, times rate. */
  function FundingDue(t: State, b: string, iid: string, rate: real): real
    requires b in t.desk.books
  {
    if iid !in t.instruments then 0.0
    else -(t.desk.books[b].PositionIn(iid).qty * (t.instruments[iid].ctVal * t.instruments[iid].ctMult)
           * (if iid in t.marks then t.marks[iid] else 0.0) * rate)
  }

  lemma FundingPaymentIs(q: real, k: real, x: real, rate: real)
    ensures FundingPayment(q, k, x, rate) == -(q * k * x * rate)
    ensures q == 0.0 ==> q * k * x * rate == 0.0
  {
    var v := q * k * x;
    assert -q * k == -(q * k);
    assert -(q * k) * x == -v;
    assert -v * rate == -(v * rate);
  }

  /** What one event writes in one position, account by account: quantity, fees and funding. */
  lemma OneEventLedger(s: State, e: LogEvent, b: string, iid: string)
    requires WellFormed(s, e) && b in s.desk.books && iid in s.instruments
    ensures b in Handle(s, e).desk.books
    ensures var p, q := s.desk.books[b].PositionIn(iid), Handle(s, e).desk.books[b].PositionIn(iid);
            var own := e.Fill? && e.bookId == b && e.instrumentId == iid;
            && q.qty == (if !own then p.qty else if e.side.BUY? then p.qty + e.qty else p.qty - e.qty)
            && q.feesPaid == (if own then p.feesPaid + e.fee else p.feesPaid)
            && q.fundingPnl == (if e.FundingUpdate? && e.instrumentId == iid
                                then p.fundingPnl + FundingDue(s, b, iid, e.fundingRate) else p.fundingPnl)
  {
    hide Handle, SimulateFill, FundingPayment;
    OneEventPositions(s, e, b);
    if e.Fill? {
      FilledQuantity(s.desk.books[e.bookId].PositionIn(e.instrumentId), SignedDelta(e.side, e.qty), e.fillPrice,
                     s.instruments[e.instrumentId].Multiplier());
    }
    if e.FundingUpdate? {
      FundedPosition(s, e.instrumentId, e.fundingRate, b, iid);
      hide Funded, FundingDue;
    }
  }

  lemma FundedPosition(s: State, at: string, rate: real, b: string, iid: string)
    requires b in s.desk.books && at in s.instruments
    ensures b in Funded(s, at, rate).desk.books
    ensures var p, q := s.desk.books[b].PositionIn(iid), Funded(s, at, rate).desk.books[b].PositionIn(iid);
            q == if at == iid then p.(fundingPnl := p.fundingPnl + FundingDue(s, b, iid, rate)) else p
  {
    hide FundingPayment, FundingDue, PayFunding;
    var m := MarketOf(s);
    PaidPosition(s.desk.books[b], at, m.Multiplier(at), m.Mark(at), rate, iid);
    if at == iid { DueIs(s, b, iid, rate); }
  }

  lemma PaidPosition(book: Book, at: string, k: real, x: real, rate: real, iid: string)
    ensures var p, q := book.PositionIn(iid), PayFunding(book, at, k, x, rate).PositionIn(iid);
            q == if at == iid then p.(fundingPnl := p.fundingPnl - p.qty * k * x * rate) else p
  {
    hide FundingPayment;
    FundingPaymentIs(book.PositionIn(at).qty, k, x, rate);
  }

  lemma DueIs(s: State, b: string, iid: string, rate: real)
    requires b in s.desk.books && iid in s.instruments
    ensures var q, m := s.desk.books[b].PositionIn(iid).qty, MarketOf(s);
            FundingDue(s, b, iid, rate) == -(q * m.Multiplier(iid) * m.Mark(iid) * rate)
  {
  }

  lemma FilledQuantity(p: Position, delta: real, price: real, multiplier: real)
    ensures SimulateFill(p.qty, p.avgEntryPrice, delta, price, multiplier).qty == p.qty + delta
  {
  }

  /**
   * Over any log, a position's paid fees are its start plus the fees of exactly its own book's fills in its
   * instrument, and its funding is its start plus, at every funding update of its instrument, what was due.
   */
  lemma {:induction false} LedgerOverLogs(s: State, es: seq<Envelope>, b: string, iid: string)
    requires AllWellFormed(s, es) && b in s.desk.books && iid in s.instruments
    ensures var p, q := s.desk.books[b].PositionIn(iid), FoldAll(s, es).desk.books[b].PositionIn(iid);
            q.feesPaid == p.feesPaid + FeesOf(es, b, iid) && q.fundingPnl == p.fundingPnl + FundingOf(s, es, b, iid)
  {
    if es == [] {
      FoldNothing(s);
    } else {
      hide Handle, FoldAll, AllWellFormed, WellFormed, FundingDue;
      FoldLast(s, es);
      LedgerOverLogs(s, es[..|es| - 1], b, iid);
      OneEventLedger(FoldAll(s, es[..|es| - 1]), es[|es| - 1].event, b, iid);
    }
  }

  // ---- net quantities ----

  function Quantities(books: map<string, Book>, iid: string): map<string, real> {
    map b | b in books :: books[b].PositionIn(iid).qty
  }

  /** What all books together hold of an instrument. */
  ghost function NetQty(s: State, iid: string): real { Sum(Quantities(s.desk.books, iid)) }

  function SignedFill(e: LogEvent, iid: string): real {
    if e.Fill? && e.instrumentId == iid then SignedDelta(e.side, e.qty) else 0.0
  }

  function SignedFills(es: seq<Envelope>, iid: string): real {
    if es == [] then 0.0 else SignedFills(es[..|es| - 1], iid) + SignedFill(es[|es| - 1].event, iid)
  }

  lemma OneEventNet(s: State, e: LogEvent, iid: string)
    requires WellFormed(s, e) && iid in s.instruments
    ensures NetQty(Handle(s, e), iid) == NetQty(s, iid) + SignedFill(e, iid)
  {
    hide NetQty, Handle;
    var t := Handle(s, e);
    forall b | b in s.desk.books
      ensures b in t.desk.books
      ensures t.desk.books[b].PositionIn(iid).qty
              == s.desk.books[b].PositionIn(iid).qty + if IsFillOf(e, b, iid) then SignedFill(e, iid) else 0.0
    {
      OneEventHolding(s, e, b, iid);
      OneEventPositions(s, e, b);
      hide FillPosition, Trade, Funded;
    }
    HandleKeepsRoster(s, e);
    NetFromQuantities(s, t, e, iid);
  }

  lemma HandleKeepsRoster(s: State, e: LogEvent)
    requires WellFormed(s, e)
    ensures SameRoster(s, Handle(s, e))
  {
    assert SameRoster(s, ApplyEvent(s, Envelope(0, 0, e)));
  }

  lemma NetFromQuantities(s: State, t: State, e: LogEvent, iid: string)
    requires WellFormed(s, e) && SameRoster(s, t)
    requires forall b <- s.desk.books ::
      t.desk.books[b].PositionIn(iid).qty
      == s.desk.books[b].PositionIn(iid).qty + if IsFillOf(e, b, iid) then SignedFill(e, iid) else 0.0
    ensures NetQty(t, iid) == NetQty(s, iid) + SignedFill(e, iid)
  {
    var before, after := Quantities(s.desk.books, iid), Quantities(t.desk.books, iid);
    if e.Fill? && e.instrumentId == iid {
      assert after == before[e.bookId := before[e.bookId] + SignedFill(e, iid)];
      SumUpdate(before, e.bookId, before[e.bookId] + SignedFill(e, iid));
    } else {
      assert after == before;
    }
  }

  /** Per instrument, the books together hold exactly the signed quantities filled in the log. */
  lemma {:induction false} NetQuantityConserved(s: State, es: seq<Envelope>, iid: string)
    requires AllWellFormed(s, es) && iid in s.instruments
    ensures NetQty(FoldAll(s, es), iid) == NetQty(s, iid) + SignedFills(es, iid)
  {
    if es == [] {
      FoldNothing(s);
    } else {
      hide Handle, SignedFill, NetQty, FoldAll, AllWellFormed, WellFormed;
      var prior := es[..|es| - 1];
      FoldLast(s, es);
      NetQuantityConserved(s, prior, iid);
      OneEventNet(FoldAll(s, prior), es[|es| - 1].event, iid);
      NetIgnoresSeq(Handle(FoldAll(s, prior), es[|es| - 1].event), es[|es| - 1].seqNo, iid);
    }
  }

  lemma NetIgnoresSeq(s: State, n: int, iid: string)
    ensures NetQty(s.(lastSeq := n), iid) == NetQty(s, iid)
  {
  }

  // ---- high-water marks ----

  /** The book's total PnL after each event. */
  ghost function BookTotalsAlong(s: State, es: seq<Envelope>, b: string): seq<real>
    requires AllWellFormed(s, es) && b in s.desk.books
  {
    if es == [] then [] else
      var t := FoldAll(s, es);
      BookTotalsAlong(s, es[..|es| - 1], b) + [BookTotalPnl(t, t.desk.books[b])]
  }

  ghost function DeskTotalsAlong(s: State, es: seq<Envelope>): seq<real>
    requires AllWellFormed(s, es)
  {
    if es == [] then [] else DeskTotalsAlong(s, es[..|es| - 1]) + [DeskTotalPnl(FoldAll(s, es))]
  }

  /** Which events are marks, fills or fundings. */
  function Moving(es: seq<Envelope>): seq<bool> {
    if es == [] then [] else Moving(es[..|es| - 1]) + [MovesPnl(es[|es| - 1].event)]
  }

  /** `peak` is the largest of `base` and the totals after the events that count. */
  ghost predicate IsRunningMax(peak: real, base: real, totals: seq<real>, counts: seq<bool>)
    requires |totals| == |counts|
  {
    && peak >= base
    && (forall n | 0 <= n < |totals| && counts[n] :: peak >= totals[n])
    && (peak == base || exists n :: 0 <= n < |totals| && counts[n] && peak == totals[n])
  }

  lemma RunningMaxStep(peak: real, base: real, totals: seq<real>, counts: seq<bool>, total: real, count: bool)
    requires |totals| == |counts| && IsRunningMax(peak, base, totals, counts)
    ensures IsRunningMax(if count then Max(peak, total) else peak, base, totals + [total], counts + [count])
  {
    var next := if count then Max(peak, total) else peak;
    if next != base {
      var k := |totals|;
      if next == peak {
        var n :| 0 <= n < k && counts[n] && peak == totals[n];
        assert (totals + [total])[n] == next && (counts + [count])[n];
      } else {
        assert (totals + [total])[k] == next && (counts + [count])[k];
      }
    }
  }

  /** One event either leaves the marks alone or raises them to the totals it leaves behind. */
  lemma OneEventMarks(s: State, e: LogEvent)
    requires WellFormed(s, e)
    ensures var t := Handle(s, e);
            && SameRoster(s, t)
            && t.desk.highWaterMark
               == (if MovesPnl(e) then Max(s.desk.highWaterMark, DeskTotalPnl(t)) else s.desk.highWaterMark)
            && forall b <- s.desk.books ::
                 t.desk.books[b].highWaterMark
                 == if MovesPnl(e) then Max(s.desk.books[b].highWaterMark, BookTotalPnl(t, t.desk.books[b]))
                    else s.desk.books[b].highWaterMark
  {
    hide Trade, Funded, RaiseHighWaterMarks, BookTotalPnl, DeskTotalPnl;
    HandleKeepsRoster(s, e);
    if !MovesPnl(e) {
      forall b | b in s.desk.books
        ensures Handle(s, e).desk.books[b].highWaterMark == s.desk.books[b].highWaterMark
      {
        QuietEvent(s, e, b);
      }
      QuietDesk(s, e);
      hide Handle;
    } else {
      ghost var moved :=
        match e
        case MarkUpdate(iid, price, ts) => s.(marks := s.marks[iid := price], markTsNs := s.markTsNs[iid := ts])
        case Fill(_, _, _, _, _, _, _, _) => Trade(s, e)
        case FundingUpdate(iid, rate, _) => Funded(s, iid, rate);
      assert Handle(s, e) == RaiseHighWaterMarks(moved);
      RaisedMarks(moved);
      assert moved.desk.highWaterMark == s.desk.highWaterMark
        && forall b <- s.desk.books :: b in moved.desk.books
             && moved.desk.books[b].highWaterMark == s.desk.books[b].highWaterMark by {
        MovingKeepsMarks(s, e);
      }
      hide Handle;
    }
  }

  lemma QuietDesk(s: State, e: LogEvent)
    requires WellFormed(s, e) && !MovesPnl(e)
    ensures Handle(s, e).desk.highWaterMark == s.desk.highWaterMark
  {
    hide Trade, Funded, RaiseHighWaterMarks;
    if e.LimitChange? {
      assert Handle(s, e) == ChangeLimit(s, e);
    } else if e.KillSwitch? {
      assert Handle(s, e) == SetSwitch(s, e);
    } else {
      assert Handle(s, e) == s;
    }
    hide Handle;
  }

  lemma MovingKeepsMarks(s: State, e: LogEvent)
    requires WellFormed(s, e)
    ensures e.Fill? ==> Trade(s, e).desk.highWaterMark == s.desk.highWaterMark
    ensures e.FundingUpdate? ==> Funded(s, e.instrumentId, e.fundingRate).desk.highWaterMark == s.desk.highWaterMark
    ensures forall b <- s.desk.books ::
      && (e.Fill? ==> b in Trade(s, e).desk.books
                      && Trade(s, e).desk.books[b].highWaterMark == s.desk.books[b].highWaterMark)
      && (e.FundingUpdate? ==>
            var t := Funded(s, e.instrumentId, e.fundingRate);
            b in t.desk.books && t.desk.books[b].highWaterMark == s.desk.books[b].highWaterMark)
  {
    hide FillPosition, FundingPayment;
  }

  lemma RaisedMarks(s: State)
    ensures var t := RaiseHighWaterMarks(s);
            && t.desk.highWaterMark == Max(s.desk.highWaterMark, DeskTotalPnl(t))
            && forall b <- s.desk.books ::
                 t.desk.books[b].highWaterMark == Max(s.desk.books[b].highWaterMark, BookTotalPnl(t, t.desk.books[b]))
  {
    hide TotalPnlOf;
    RaisingKeepsTotals(MarketOf(s), s.desk.books);
  }

  /** A book's mark is the running maximum of where it started and its PnL after each PnL-moving event. */
  lemma {:induction false} BookMarkIsRunningMax(s: State, es: seq<Envelope>, b: string)
    requires AllWellFormed(s, es) && b in s.desk.books
    ensures |BookTotalsAlong(s, es, b)| == |Moving(es)| == |es|
    ensures IsRunningMax(FoldAll(s, es).desk.books[b].highWaterMark, s.desk.books[b].highWaterMark,
                         BookTotalsAlong(s, es, b), Moving(es))
  {
    if es != [] {
      hide Handle, TotalPnlOf, IsRunningMax, FoldAll, AllWellFormed, WellFormed;
      var prior, e := es[..|es| - 1], es[|es| - 1].event;
      FoldLast(s, es);
      var t := Handle(FoldAll(s, prior), e);
      BookMarkIsRunningMax(s, prior, b);
      OneEventMarks(FoldAll(s, prior), e);
      RunningMaxStep(FoldAll(s, prior).desk.books[b].highWaterMark, s.desk.books[b].highWaterMark,
                     BookTotalsAlong(s, prior, b), Moving(prior), BookTotalPnl(t, t.desk.books[b]), MovesPnl(e));
    } else {
      FoldNothing(s);
    }
  }

  /** The desk's mark is the running maximum of where it started and desk PnL after each PnL-moving event. */
  lemma {:induction false} DeskMarkIsRunningMax(s: State, es: seq<Envelope>)
    requires AllWellFormed(s, es)
    ensures |DeskTotalsAlong(s, es)| == |Moving(es)| == |es|
    ensures IsRunningMax(FoldAll(s, es).desk.highWaterMark, s.desk.highWaterMark, DeskTotalsAlong(s, es), Moving(es))
  {
    if es != [] {
      hide Handle, TotalPnlOf, IsRunningMax, FoldAll, AllWellFormed, WellFormed;
      var prior, e := es[..|es| - 1], es[|es| - 1].event;
      FoldLast(s, es);
      var t := Handle(FoldAll(s, prior), e);
      DeskMarkIsRunningMax(s, prior);
      OneEventMarks(FoldAll(s, prior), e);
      RunningMaxStep(FoldAll(s, prior).desk.highWaterMark, s.desk.highWaterMark,
                     DeskTotalsAlong(s, prior), Moving(prior), DeskTotalPnl(t), MovesPnl(e));
    }
  }

  function BookMarks(books: map<string, Book>): map<string, real> { map b | b in books :: books[b].highWaterMark }

  ghost function BookDrawdowns(s: State): map<string, real> {
    map b | b in s.desk.books :: BookDrawdown(s, s.desk.books[b])
  }

  /** The desk's peak never exceeds the sum of the books' peaks. */
  ghost predicate DeskMarkBounded(s: State) { s.desk.highWaterMark <= Sum(BookMarks(s.desk.books)) }

  lemma OneEventBounded(s: State, e: LogEvent)
    requires WellFormed(s, e) && DeskMarkBounded(s)
    ensures DeskMarkBounded(Handle(s, e))
  {
    hide Handle, TotalPnlOf;
    var t := Handle(s, e);
    OneEventMarks(s, e);
    SumMonotone(BookMarks(s.desk.books), BookMarks(t.desk.books));
    if MovesPnl(e) {
      SumMonotone(BookTotals(MarketOf(t), t.desk.books), BookMarks(t.desk.books));
    }
  }

  lemma DrawdownBounded(s: State)
    requires DeskMarkBounded(s)
    ensures DeskDrawdown(s) <= Sum(BookDrawdowns(s))
  {
    hide TotalPnlOf;
    var marks, totals, draws := BookMarks(s.desk.books), BookTotals(MarketOf(s), s.desk.books), BookDrawdowns(s);
    var zero := map b | b in s.desk.books :: 0.0;
    SumZero(zero);
    SumMonotone(zero, draws);
    var gap := map b | b in s.desk.books :: marks[b] - totals[b];
    SumAdd(gap, totals, marks);
    SumMonotone(gap, draws);
  }

  /** In every state folded from an initial one, desk drawdown is at most the sum of book drawdowns. */
  lemma {:induction false} DeskDrawdownWithinBooks(s: State, es: seq<Envelope>)
    requires IsInitial(s) && AllWellFormed(s, es)
    ensures DeskMarkBounded(FoldAll(s, es))
    ensures DeskDrawdown(FoldAll(s, es)) <= Sum(BookDrawdowns(FoldAll(s, es)))
  {
    if es == [] {
      SumZero(BookMarks(s.desk.books));
    } else {
      hide Handle, FoldAll, AllWellFormed, WellFormed;
      var prior, last := es[..|es| - 1], es[|es| - 1];
      FoldLast(s, es);
      DeskDrawdownWithinBooks(s, prior);
      OneEventBounded(FoldAll(s, prior), last.event);
    }
    DrawdownBounded(FoldAll(s, es));
  }
}
