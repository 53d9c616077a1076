/**
 * Where a book's PnL comes from.  Each event changes a book's total by an amount that can be read off the
 * event and the positions before it, so over any log the total is the sum of those amounts; and limits,
 * switches and marks always show the last value written.
 */
module PnlAttribution {
  import opened RiskModel
  import opened RiskMath
  import opened RiskState
  import opened MapSums
  import opened Fold
  import opened FoldRuns
  import P = PositionRuns

  function Product(a: real, b: real, c: real): real { a * b * c }

  /** A held quantity gains with the mark. */
  function MarkGain(q: real, multiplier: real, before: real, after: real): real {
    Product(q, multiplier, after - before)
  }

  /** A fill gains what the traded quantity is worth over its price, less the fee. */
  function FillGain(delta: real, multiplier: real, mark: real, price: real, fee: real): real {
    Product(multiplier, delta, mark - price) - fee
  }

  /** What one event adds to a book's total PnL, read off the state before it. */
  function Gain(s: State, e: LogEvent, b: string): real
    requires b in s.desk.books
  {
    var m := MarketOf(s);
    match e
    case MarkUpdate(iid, price, _) =>
      MarkGain(s.desk.books[b].PositionIn(iid).qty, m.Multiplier(iid), m.Mark(iid), price)
    case FundingUpdate(iid, rate, _) =>
      -Product(Product(s.desk.books[b].PositionIn(iid).qty, m.Multiplier(iid), m.Mark(iid)), rate, 1.0)
    case Fill(_, owner, iid, side, qty, price, fee, _) =>
      if owner == b then FillGain(SignedDelta(side, qty), m.Multiplier(iid), m.Mark(iid), price, fee) else 0.0
    case _ => 0.0
  }

  lemma MarkMoves(m: Market, ps: Positions, iid: string, price: real)
    ensures TotalPnlOf(m.(marks := m.marks[iid := price]), ps)
            == TotalPnlOf(m, ps)
               + MarkGain(if iid in ps then ps[iid].qty else 0.0, m.Multiplier(iid), m.Mark(iid), price)
  {
    hide TotalPnlOf, PositionPnl;
    var n := m.(marks := m.marks[iid := price]);
    TotalIsSumOfPositions(m, ps);
    TotalIsSumOfPositions(n, ps);
    forall j | j in ps && j != iid ensures PositionPnl(n, j, ps[j]) == PositionPnl(m, j, ps[j]) {
      SamePricePnl(m, n, j, ps[j]);
    }
    if iid in ps {
      MarkMovesPosition(m, n, iid, ps[iid], price);
      assert Pnls(n, ps) == Pnls(m, ps)[iid := PositionPnl(n, iid, ps[iid])];
      SumUpdate(Pnls(m, ps), iid, PositionPnl(n, iid, ps[iid]));
    } else {
      assert Pnls(n, ps) == Pnls(m, ps);
    }
  }

  lemma SamePricePnl(m: Market, n: Market, iid: string, p: Position)
    requires m.Mark(iid) == n.Mark(iid) && m.instruments == n.instruments
    ensures PositionPnl(m, iid, p) == PositionPnl(n, iid, p)
  {
  }

  lemma MarkMovesPosition(m: Market, n: Market, iid: string, p: Position, price: real)
    requires n == m.(marks := m.marks[iid := price])
    ensures PositionPnl(n, iid, p)
            == PositionPnl(m, iid, p) + MarkGain(p.qty, m.Multiplier(iid), m.Mark(iid), price)
  {
    var k, x := p.qty * m.Multiplier(iid), m.Mark(iid);
    assert k * (price - p.avgEntryPrice) == k * (x - p.avgEntryPrice) + k * (price - x);
  }

  lemma FillMoves(m: Market, ps: Positions, iid: string, delta: real, price: real, fee: real)
    ensures var p := if iid in ps then ps[iid] else FlatPosition(iid);
            TotalPnlOf(m, ps[iid := FillPosition(p, delta, price, fee, m.Multiplier(iid))])
            == TotalPnlOf(m, ps) + FillGain(delta, m.Multiplier(iid), m.Mark(iid), price, fee)
  {
    hide TotalPnlOf, PositionPnl, FillPosition;
    var p := if iid in ps then ps[iid] else FlatPosition(iid);
    FillMovesPosition(m, iid, p, delta, price, fee);
    FlatIsWorthless(m, iid);
    ReplacePnl(m, ps, iid, FillPosition(p, delta, price, fee, m.Multiplier(iid)));
  }

  lemma FillMovesPosition(m: Market, iid: string, p: Position, delta: real, price: real, fee: real)
    ensures PositionPnl(m, iid, FillPosition(p, delta, price, fee, m.Multiplier(iid)))
            == PositionPnl(m, iid, p) + FillGain(delta, m.Multiplier(iid), m.Mark(iid), price, fee)
  {
    hide SimulateFill, UnrealizedPnl;
    FillCashFlow(p.qty, p.avgEntryPrice, delta, price, m.Mark(iid), m.Multiplier(iid));
  }

  /** A funding payment moves a book's value by the payment, whatever market it is valued in. */
  lemma FundingMoves(n: Market, book: Book, iid: string, multiplier: real, mark: real, rate: real)
    ensures TotalPnlOf(n, PayFunding(book, iid, multiplier, mark, rate).positions)
            == TotalPnlOf(n, book.positions)
               - Product(Product(book.PositionIn(iid).qty, multiplier, mark), rate, 1.0)
  {
    hide TotalPnlOf;
    if iid in book.positions && book.positions[iid].qty != 0.0 {
      var p := book.positions[iid];
      var q := p.(fundingPnl := p.fundingPnl + FundingPayment(p.qty, multiplier, mark, rate));
      FundingMovesPosition(n, iid, p, multiplier, mark, rate);
      hide PositionPnl, FundingPayment;
      ReplacePnl(n, book.positions, iid, q);
    }
  }

  lemma FundingMovesPosition(n: Market, iid: string, p: Position, multiplier: real, mark: real, rate: real)
    ensures var q := p.(fundingPnl := p.fundingPnl + FundingPayment(p.qty, multiplier, mark, rate));
            PositionPnl(n, iid, q) == PositionPnl(n, iid, p) - Product(Product(p.qty, multiplier, mark), rate, 1.0)
  {
    hide UnrealizedPnl;
    var x := p.qty * multiplier * mark;
    assert -p.qty * multiplier * mark == -x;
    assert -x * rate == -(x * rate * 1.0);
  }

  lemma MarketAfter(s: State, e: LogEvent)
    requires WellFormed(s, e)
    ensures MarketOf(Handle(s, e))
            == if e.MarkUpdate? then MarketOf(s).(marks := s.marks[e.instrumentId := e.markPrice]) else MarketOf(s)
  {
    hide FillPosition, TotalPnlOf, RiskState.DeskTotalPnl, RaiseBookMarks;
    if e.LimitChange? {
      assert Handle(s, e) == ChangeLimit(s, e);
    } else if e.KillSwitch? {
      assert Handle(s, e) == SetSwitch(s, e);
    }
  }

  lemma OneEventGain(s: State, e: LogEvent, b: string)
    requires WellFormed(s, e) && b in s.desk.books
    ensures b in Handle(s, e).desk.books
    ensures BookTotalPnl(Handle(s, e), Handle(s, e).desk.books[b])
            == BookTotalPnl(s, s.desk.books[b]) + Gain(s, e, b)
  {
    hide Handle, TotalPnlOf, FillPosition, PayFunding, Product, MarkGain, FillGain;
    var m, book := MarketOf(s), s.desk.books[b];
    OneEventPositions(s, e, b);
    MarketAfter(s, e);
    if e.MarkUpdate? {
      MarkMoves(m, book.positions, e.instrumentId, e.markPrice);
    } else if e.Fill? && e.bookId == b {
      FillMoves(m, book.positions, e.instrumentId, SignedDelta(e.side, e.qty), e.fillPrice, e.fee);
    } else if e.FundingUpdate? {
      FundingMoves(m, book, e.instrumentId, m.Multiplier(e.instrumentId), m.Mark(e.instrumentId), e.fundingRate);
    }
  }

  ghost function Gains(s: State, es: seq<Envelope>, b: string): real
    requires AllWellFormed(s, es) && b in s.desk.books
  {
    if es == [] then 0.0
    else Gains(s, es[..|es| - 1], b) + Gain(FoldAll(s, es[..|es| - 1]), es[|es| - 1].event, b)
  }

  /**
   * Over any log, a book's PnL is what its positions gained on mark moves and its fills gained over their
   * prices, less fees, less funding paid on its long and received on its short quantities.
   */
  lemma {:induction false} PnlIsSumOfGains(s: State, es: seq<Envelope>, b: string)
    requires AllWellFormed(s, es) && b in s.desk.books
    ensures BookTotalPnl(FoldAll(s, es), FoldAll(s, es).desk.books[b])
            == BookTotalPnl(s, s.desk.books[b]) + Gains(s, es, b)
  {
    if es == [] {
      FoldNothing(s);
    } else {
      hide Handle, TotalPnlOf, Gain, FoldAll, AllWellFormed, WellFormed;
      var prior := es[..|es| - 1];
      FoldLast(s, es);
      PnlIsSumOfGains(s, prior, b);
      OneEventGain(FoldAll(s, prior), es[|es| - 1].event, b);
    }
  }

  // ---- fills in another order ----

  datatype BookFill = BookFill(instrumentId: string, delta: real, price: real, fee: real)

  /** A book's fills, fees included, in log order. */
  function FillsOf(es: seq<Envelope>, b: string): seq<BookFill> {
    if es == [] then [] else
      var prior, e := FillsOf(es[..|es| - 1], b), es[|es| - 1].event;
      if e.Fill? && e.bookId == b
      then prior + [BookFill(e.instrumentId, SignedDelta(e.side, e.qty), e.fillPrice, e.fee)] else prior
  }

  /** What a fill has gained by the time its instrument is marked as in m. */
  function WorthAt(m: Market): BookFill -> real {
    (f: BookFill) => FillGain(f.delta, m.Multiplier(f.instrumentId), m.Mark(f.instrumentId), f.price, f.fee)
  }

  /** Funding a book received, each payment on the quantity it held at that moment. */
  ghost function FundingAlong(s: State, es: seq<Envelope>, b: string): real
    requires AllWellFormed(s, es) && b in s.desk.books
  {
    if es == [] then 0.0
    else
      var prior, e := es[..|es| - 1], es[|es| - 1].event;
      FundingAlong(s, prior, b) + if e.FundingUpdate? then Gain(FoldAll(s, prior), e, b) else 0.0
  }

  /** What one event does to a book's value in any market with the same specs. */
  lemma OneEventValued(s: State, e: LogEvent, b: string, m: Market)
    requires WellFormed(s, e) && b in s.desk.books && m.instruments == s.instruments
    ensures b in Handle(s, e).desk.books
    ensures TotalPnlOf(m, Handle(s, e).desk.books[b].positions)
            == TotalPnlOf(m, s.desk.books[b].positions)
               + (if e.Fill? && e.bookId == b
                  then WorthAt(m)(BookFill(e.instrumentId, SignedDelta(e.side, e.qty), e.fillPrice, e.fee)) else 0.0)
               + if e.FundingUpdate? then Gain(s, e, b) else 0.0
  {
    hide Handle, TotalPnlOf, FillPosition, PayFunding, Product, FillGain;
    var book := s.desk.books[b];
    OneEventPositions(s, e, b);
    if e.Fill? && e.bookId == b {
      FillMoves(m, book.positions, e.instrumentId, SignedDelta(e.side, e.qty), e.fillPrice, e.fee);
    } else if e.FundingUpdate? {
      FundingMoves(m, book, e.instrumentId, MarketOf(s).Multiplier(e.instrumentId), MarketOf(s).Mark(e.instrumentId),
                   e.fundingRate);
    }
  }

  /** After any log, a book is worth what it started with, plus each fill's worth by now, plus its funding. */
  lemma {:induction false} ValuedAt(s: State, es: seq<Envelope>, b: string, m: Market)
    requires AllWellFormed(s, es) && b in s.desk.books && m.instruments == s.instruments
    ensures TotalPnlOf(m, FoldAll(s, es).desk.books[b].positions)
            == TotalPnlOf(m, s.desk.books[b].positions)
               + P.Total(FillsOf(es, b), WorthAt(m)) + FundingAlong(s, es, b)
  {
    if es == [] {
      FoldNothing(s);
    } else {
      hide Handle, TotalPnlOf, WorthAt, Gain, FoldAll, AllWellFormed, WellFormed;
      var prior, e := es[..|es| - 1], es[|es| - 1].event;
      FoldLast(s, es);
      ValuedAt(s, prior, b, m);
      OneEventValued(FoldAll(s, prior), e, b, m);
      if e.Fill? && e.bookId == b {
        var fills := FillsOf(es, b);
        assert fills[..|fills| - 1] == FillsOf(prior, b);
      }
    }
  }

  /**
   * Logs with the same fills and fees in any order, and the same marks at the end, give a book totals that
   * differ by exactly the difference in the funding it received, so they agree if and only if that does.
   */
  lemma BackfilledTotals(s: State, es: seq<Envelope>, fs: seq<Envelope>, b: string)
    requires AllWellFormed(s, es) && AllWellFormed(s, fs) && b in s.desk.books
    requires multiset(FillsOf(es, b)) == multiset(FillsOf(fs, b))
    requires FoldAll(s, es).marks == FoldAll(s, fs).marks
    ensures var t, u := FoldAll(s, es), FoldAll(s, fs);
            && BookTotalPnl(t, t.desk.books[b]) - BookTotalPnl(u, u.desk.books[b])
               == FundingAlong(s, es, b) - FundingAlong(s, fs, b)
            && (BookTotalPnl(t, t.desk.books[b]) == BookTotalPnl(u, u.desk.books[b])
                <==> FundingAlong(s, es, b) == FundingAlong(s, fs, b))
  {
    hide FoldAll, AllWellFormed, TotalPnlOf, WorthAt, FundingAlong, FillsOf, P.Total;
    var m := MarketOf(FoldAll(s, es));
    ValuedAt(s, es, b, m);
    ValuedAt(s, fs, b, m);
    P.TotalIgnoresOrder(FillsOf(es, b), FillsOf(fs, b), WorthAt(m));
  }

  /** A fill that comes in after a funding update instead of before it changes the total by the funding on it. */
  lemma LateFillMissesFunding(s: State, fill: Envelope, funding: Envelope)
    requires fill.event.Fill? && funding.event.FundingUpdate? && WellFormed(s, fill.event)
    requires funding.event.instrumentId == fill.event.instrumentId
    ensures AllWellFormed(s, [fill, funding]) && AllWellFormed(s, [funding, fill])
    ensures var e, iid, m := fill.event, fill.event.instrumentId, MarketOf(s);
            var t, u := FoldAll(s, [fill, funding]), FoldAll(s, [funding, fill]);
            BookTotalPnl(t, t.desk.books[e.bookId])
            == BookTotalPnl(u, u.desk.books[e.bookId])
               - Product(Product(SignedDelta(e.side, e.qty), m.Multiplier(iid), m.Mark(iid)), funding.event.fundingRate, 1.0)
  {
    hide Handle, FoldAll, TotalPnlOf, Product, FillGain, WellFormed, AllWellFormed;
    var e, g, b, m := fill.event, funding.event, fill.event.bookId, MarketOf(s);
    FundingNeedsInstrument(s, e, g);
    var _ := TwoEvents(s, fill, funding, b);
    var _ := TwoEvents(s, funding, fill, b);
    OneEventHolding(s, e, b, e.instrumentId);
    MarketAfter(s, e);
    MarketAfter(s, g);
    FilledQty(s, e);
    ProductAdds(s.desk.books[b].PositionIn(e.instrumentId).qty, SignedDelta(e.side, e.qty), m.Multiplier(e.instrumentId),
                m.Mark(e.instrumentId), g.fundingRate);
  }

  lemma FundingNeedsInstrument(s: State, e: LogEvent, g: LogEvent)
    requires e.Fill? && WellFormed(s, e) && g.FundingUpdate? && g.instrumentId == e.instrumentId
    ensures WellFormed(s, g) && e.bookId in s.desk.books && e.instrumentId in s.instruments
  {
  }

  lemma FilledQty(s: State, e: LogEvent)
    requires e.Fill? && WellFormed(s, e) && e.bookId in s.desk.books
    ensures e.bookId in Handle(s, e).desk.books
    ensures Handle(s, e).desk.books[e.bookId].PositionIn(e.instrumentId).qty
            == s.desk.books[e.bookId].PositionIn(e.instrumentId).qty + SignedDelta(e.side, e.qty)
  {
    hide Handle, FundingPayment;
    OneEventPositions(s, e, e.bookId);
  }

  lemma ProductAdds(q: real, d: real, multiplier: real, mark: real, rate: real)
    ensures Product(Product(q + d, multiplier, mark), rate, 1.0)
            == Product(Product(q, multiplier, mark), rate, 1.0) + Product(Product(d, multiplier, mark), rate, 1.0)
  {
    var k := multiplier * mark;
    assert (q + d) * multiplier * mark == (q + d) * k && q * multiplier * mark == q * k && d * multiplier * mark == d * k;
  }

  lemma TwoEvents(s: State, x: Envelope, y: Envelope, b: string) returns (t: State)
    requires b in s.desk.books && WellFormed(s, x.event) && WellFormed(s, y.event)
    ensures AllWellFormed(s, [x, y]) && t == FoldAll(s, [x, y]) && b in t.desk.books && b in Handle(s, x.event).desk.books
    ensures BookTotalPnl(t, t.desk.books[b])
            == BookTotalPnl(s, s.desk.books[b]) + Gain(s, x.event, b) + Gain(Handle(s, x.event), y.event, b)
  {
    hide Handle, TotalPnlOf, Gain, FoldAll, WellFormed;
    var es := [x, y];
    assert es[..1] == [x] && [x][..0] == [];
    FoldNothing(s);
    FoldLast(s, [x]);
    StillWellFormed(s, x, y.event);
    FoldLast(s, es);
    t := FoldAll(s, es);
    OneEventGain(s, x.event, b);
    OneEventGain(FoldAll(s, [x]), y.event, b);
    GainIgnoresSeq(Handle(s, x.event), x.seqNo, y.event, b);
  }

  lemma GainIgnoresSeq(s: State, n: int, e: LogEvent, b: string)
    requires b in s.desk.books
    ensures Gain(s.(lastSeq := n), e, b) == Gain(s, e, b)
  {
  }

  lemma StillWellFormed(s: State, x: Envelope, e: LogEvent)
    requires AllWellFormed(s, [x]) && WellFormed(s, e)
    ensures WellFormed(FoldAll(s, [x]), e)
  {
    hide Handle;
  }

  // ---- last write wins ----

  predicate WritesBookLimit(e: LogEvent, b: string, field: Limit) {
    e.LimitChange? && e.scope.BOOK? && e.bookId == b && e.field == field
  }

  /** What the events say a control is now, from what it was. */
  function LastBookLimit(es: seq<Envelope>, b: string, field: Limit, was: seq<real>): seq<real> {
    if es == [] then was
    else if WritesBookLimit(es[|es| - 1].event, b, field) then [es[|es| - 1].event.new_]
    else LastBookLimit(es[..|es| - 1], b, field, was)
  }

  function LastBookSwitch(es: seq<Envelope>, b: string, was: bool): bool {
    if es == [] then was else
      var e := es[|es| - 1].event;
      if e.KillSwitch? && e.scope.BOOK? && e.id == b then e.enabled else LastBookSwitch(es[..|es| - 1], b, was)
  }

  function LastDeskSwitch(es: seq<Envelope>, was: bool): bool {
    if es == [] then was else
      var e := es[|es| - 1].event;
      if e.KillSwitch? && e.scope.DESK? then e.enabled else LastDeskSwitch(es[..|es| - 1], was)
  }

  function LastMark(es: seq<Envelope>, iid: string, was: real): real {
    if es == [] then was else
      var e := es[|es| - 1].event;
      if e.MarkUpdate? && e.instrumentId == iid then e.markPrice else LastMark(es[..|es| - 1], iid, was)
  }

  function BookLimit(s: State, b: string, field: Limit): seq<real>
    requires b in s.desk.books
  {
    if field in s.desk.books[b].limits then [s.desk.books[b].limits[field]] else []
  }

  lemma OneEventControls(s: State, e: LogEvent, b: string, field: Limit)
    requires WellFormed(s, e) && b in s.desk.books
    ensures var t := Handle(s, e);
            && b in t.desk.books
            && BookLimit(t, b, field) == (if WritesBookLimit(e, b, field) then [e.new_] else BookLimit(s, b, field))
            && t.desk.books[b].killSwitch
               == (if e.KillSwitch? && e.scope.BOOK? && e.id == b then e.enabled else s.desk.books[b].killSwitch)
            && t.desk.killSwitch == (if e.KillSwitch? && e.scope.DESK? then e.enabled else s.desk.killSwitch)
  {
    hide FillPosition, FundingPayment, TotalPnlOf, RiskState.DeskTotalPnl;
    if e.LimitChange? {
      LimitControls(s, e, b);
      assert Handle(s, e) == ChangeLimit(s, e);
      hide ChangeLimit;
    } else if e.KillSwitch? {
      SwitchControls(s, e, b);
      assert Handle(s, e) == SetSwitch(s, e);
      hide SetSwitch;
    } else {
      MovingControls(s, e, b);
      hide Handle;
    }
  }

  lemma LimitControls(s: State, e: LogEvent, b: string)
    requires e.LimitChange? && WellFormed(s, e) && b in s.desk.books
    ensures var t := ChangeLimit(s, e);
            && b in t.desk.books && t.desk.killSwitch == s.desk.killSwitch
            && t.desk.books[b].killSwitch == s.desk.books[b].killSwitch
            && t.desk.books[b].limits
               == if e.scope.BOOK? && e.bookId == b then s.desk.books[b].limits[e.field := e.new_]
                  else s.desk.books[b].limits
  {
    if e.scope.BOOK? {
      var book := s.desk.books[e.bookId];
      assert ChangeLimit(s, e).desk.books
          == s.desk.books[e.bookId := book.(limits := book.limits[e.field := e.new_])];
    }
  }

  lemma SwitchControls(s: State, e: LogEvent, b: string)
    requires e.KillSwitch? && WellFormed(s, e) && b in s.desk.books
    ensures var t := SetSwitch(s, e);
            && b in t.desk.books && t.desk.books[b].limits == s.desk.books[b].limits
            && t.desk.books[b].killSwitch
               == (if e.scope.BOOK? && e.id == b then e.enabled else s.desk.books[b].killSwitch)
            && t.desk.killSwitch == (if e.scope.DESK? then e.enabled else s.desk.killSwitch)
  {
    if e.scope.BOOK? {
      assert SetSwitch(s, e).desk.books == s.desk.books[e.id := s.desk.books[e.id].(killSwitch := e.enabled)];
    }
  }

  lemma MovingControls(s: State, e: LogEvent, b: string)
    requires WellFormed(s, e) && b in s.desk.books && !e.LimitChange? && !e.KillSwitch?
    ensures SameControls(s, Handle(s, e), b)
  {
    hide Trade, Funded, RaiseHighWaterMarks;
    if e.MarkUpdate? {
      RaisedKeepsControls(s.(marks := s.marks[e.instrumentId := e.markPrice],
                             markTsNs := s.markTsNs[e.instrumentId := e.tsExchNs]), b);
    } else if e.Fill? {
      TradeKeepsControls(s, e, b);
      RaisedKeepsControls(Trade(s, e), b);
    } else if e.FundingUpdate? {
      FundedKeepsControls(s, e.instrumentId, e.fundingRate, b);
      RaisedKeepsControls(Funded(s, e.instrumentId, e.fundingRate), b);
    }
  }

  ghost predicate SameControls(s: State, t: State, b: string)
    requires b in s.desk.books
  {
    && b in t.desk.books && t.desk.killSwitch == s.desk.killSwitch
    && t.desk.books[b].limits == s.desk.books[b].limits
    && t.desk.books[b].killSwitch == s.desk.books[b].killSwitch
  }

  lemma RaisedKeepsControls(s: State, b: string)
    requires b in s.desk.books
    ensures SameControls(s, RaiseHighWaterMarks(s), b)
  {
    hide TotalPnlOf, RiskState.DeskTotalPnl;
  }

  lemma TradeKeepsControls(s: State, e: LogEvent, b: string)
    requires e.Fill? && WellFormed(s, e) && b in s.desk.books
    ensures SameControls(s, Trade(s, e), b)
  {
    hide FillPosition;
  }

  lemma FundedKeepsControls(s: State, iid: string, rate: real, b: string)
    requires b in s.desk.books
    ensures SameControls(s, Funded(s, iid, rate), b)
  {
    hide FundingPayment;
  }

  /** After any log, limits, both kinds of switch and marks are the last values the log wrote to them. */
  lemma {:induction false} LastWriteWins(s: State, es: seq<Envelope>, b: string, field: Limit, iid: string)
    requires AllWellFormed(s, es) && b in s.desk.books
    ensures var t := FoldAll(s, es);
            && BookLimit(t, b, field) == LastBookLimit(es, b, field, BookLimit(s, b, field))
            && t.desk.books[b].killSwitch == LastBookSwitch(es, b, s.desk.books[b].killSwitch)
            && t.desk.killSwitch == LastDeskSwitch(es, s.desk.killSwitch)
            && MarketOf(t).Mark(iid) == LastMark(es, iid, MarketOf(s).Mark(iid))
  {
    if es == [] {
      FoldNothing(s);
    } else {
      hide Handle, FoldAll, AllWellFormed, WellFormed;
      var prior, e := es[..|es| - 1], es[|es| - 1].event;
      FoldLast(s, es);
      LastWriteWins(s, prior, b, field, iid);
      OneEventControls(FoldAll(s, prior), e, b, field);
      MarketAfter(FoldAll(s, prior), e);
    }
  }

  lemma OneEventDesk(s: State, e: LogEvent)
    requires WellFormed(s, e)
    ensures var d := Handle(s, e).desk;
            && d.limits == (if e.LimitChange? && e.scope.DESK? then s.desk.limits[e.field := e.new_] else s.desk.limits)
            && d.killSwitchReason == (if e.KillSwitch? && e.scope.DESK? then e.reason else s.desk.killSwitchReason)
  {
    hide FillPosition, FundingPayment, TotalPnlOf, RiskState.DeskTotalPnl;
    if e.LimitChange? {
      assert Handle(s, e) == ChangeLimit(s, e);
    } else if e.KillSwitch? {
      assert Handle(s, e) == SetSwitch(s, e);
    }
  }

  function LastDeskLimit(es: seq<Envelope>, field: Limit, was: map<Limit, real>): seq<real> {
    if es == [] then (if field in was then [was[field]] else []) else
      var e := es[|es| - 1].event;
      if e.LimitChange? && e.scope.DESK? && e.field == field then [e.new_]
      else LastDeskLimit(es[..|es| - 1], field, was)
  }

  function LastDeskReason(es: seq<Envelope>, was: string): string {
    if es == [] then was else
      var e := es[|es| - 1].event;
      if e.KillSwitch? && e.scope.DESK? then e.reason else LastDeskReason(es[..|es| - 1], was)
  }

  /** The same of the desk's limits and of the reason its switch was last set with. */
  lemma {:induction false} LastDeskWriteWins(s: State, es: seq<Envelope>, field: Limit)
    requires AllWellFormed(s, es)
    ensures var d := FoldAll(s, es).desk;
            && (if field in d.limits then [d.limits[field]] else []) == LastDeskLimit(es, field, s.desk.limits)
            && d.killSwitchReason == LastDeskReason(es, s.desk.killSwitchReason)
  {
    if es == [] {
      FoldNothing(s);
    } else {
      hide Handle, FoldAll, AllWellFormed, WellFormed;
      FoldLast(s, es);
      LastDeskWriteWins(s, es[..|es| - 1], field);
      OneEventDesk(FoldAll(s, es[..|es| - 1]), es[|es| - 1].event);
    }
  }

  function LastRate(es: seq<Envelope>, iid: string, was: map<string, real>): seq<real> {
    if es == [] then (if iid in was then [was[iid]] else []) else
      var e := es[|es| - 1].event;
      if e.FundingUpdate? && e.instrumentId == iid then [e.fundingRate] else LastRate(es[..|es| - 1], iid, was)
  }

  function LastMarkTime(es: seq<Envelope>, iid: string, was: map<string, int>): seq<int> {
    if es == [] then (if iid in was then [was[iid]] else []) else
      var e := es[|es| - 1].event;
      if e.MarkUpdate? && e.instrumentId == iid then [e.tsExchNs] else LastMarkTime(es[..|es| - 1], iid, was)
  }

  lemma OneEventFeeds(s: State, e: LogEvent)
    requires WellFormed(s, e)
    ensures Handle(s, e).fundingRates
            == if e.FundingUpdate? then s.fundingRates[e.instrumentId := e.fundingRate] else s.fundingRates
    ensures Handle(s, e).markTsNs
            == if e.MarkUpdate? then s.markTsNs[e.instrumentId := e.tsExchNs] else s.markTsNs
  {
    hide FillPosition, TotalPnlOf, RiskState.DeskTotalPnl, RaiseBookMarks, PayFunding;
    if e.LimitChange? {
      assert Handle(s, e) == ChangeLimit(s, e);
    } else if e.KillSwitch? {
      assert Handle(s, e) == SetSwitch(s, e);
    }
  }

  /** The stored funding rate and mark time of an instrument are those of its last update. */
  lemma {:induction false} FeedsAreLatest(s: State, es: seq<Envelope>, iid: string)
    requires AllWellFormed(s, es)
    ensures var t := FoldAll(s, es);
            && (if iid in t.fundingRates then [t.fundingRates[iid]] else []) == LastRate(es, iid, s.fundingRates)
            && (if iid in t.markTsNs then [t.markTsNs[iid]] else []) == LastMarkTime(es, iid, s.markTsNs)
  {
    if es == [] {
      FoldNothing(s);
    } else {
      hide Handle, FoldAll, AllWellFormed, WellFormed;
      FoldLast(s, es);
      FeedsAreLatest(s, es[..|es| - 1], iid);
      OneEventFeeds(FoldAll(s, es[..|es| - 1]), es[|es| - 1].event);
    }
  }
}
