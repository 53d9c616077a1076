/** Read-only aggregates over the materialized state (hobo/risk/state.py). */
module RiskState {
  import opened RiskModel
  import opened RiskMath
  import opened MapSums

  /** What valuing a position needs: the marks and the contract specs. */
  datatype Market = Market(marks: map<string, real>, instruments: map<string, Instrument>) {
    /** 0.0 for an instrument that has not ticked yet. */
    function Mark(instrumentId: string): real {
      if instrumentId in marks then marks[instrumentId] else 0.0
    }

    /** Positions exist only for known instruments; the default is never used for them. */
    function Multiplier(instrumentId: string): real {
      if instrumentId in instruments then instruments[instrumentId].Multiplier() else 0.0
    }
  }

  function MarketOf(s: State): Market { Market(s.marks, s.instruments) }

  type Positions = map<string, Position>

  function PositionUnrealized(m: Market, iid: string, p: Position): real {
    UnrealizedPnl(p.qty, p.avgEntryPrice, m.Mark(iid), m.Multiplier(iid))
  }

  function PositionNotional(m: Market, iid: string, p: Position): real {
    Notional(p.qty, m.Mark(iid), m.Multiplier(iid))
  }

  /** Everything one position contributes to its book's total PnL. */
  function PositionPnl(m: Market, iid: string, p: Position): real {
    p.realizedPnl + p.fundingPnl - p.feesPaid + PositionUnrealized(m, iid, p)
  }

  function Realized(ps: Positions): map<string, real> { map iid | iid in ps :: ps[iid].realizedPnl }
  function Funding(ps: Positions): map<string, real> { map iid | iid in ps :: ps[iid].fundingPnl }
  function Fees(ps: Positions): map<string, real> { map iid | iid in ps :: ps[iid].feesPaid }
  function Unrealized(m: Market, ps: Positions): map<string, real> {
    map iid | iid in ps :: PositionUnrealized(m, iid, ps[iid])
  }
  function Notionals(m: Market, ps: Positions): map<string, real> {
    map iid | iid in ps :: PositionNotional(m, iid, ps[iid])
  }
  function Pnls(m: Market, ps: Positions): map<string, real> {
    map iid | iid in ps :: PositionPnl(m, iid, ps[iid])
  }

  ghost function NotionalOf(m: Market, ps: Positions): real { Sum(Notionals(m, ps)) }

  ghost function TotalPnlOf(m: Market, ps: Positions): real {
    Sum(Realized(ps)) + Sum(Funding(ps)) - Sum(Fees(ps)) + Sum(Unrealized(m, ps))
  }

  ghost function BookNotional(s: State, book: Book): real { NotionalOf(MarketOf(s), book.positions) }
  ghost function BookTotalPnl(s: State, book: Book): real { TotalPnlOf(MarketOf(s), book.positions) }
  ghost function BookDrawdown(s: State, book: Book): real { Max(0.0, book.highWaterMark - BookTotalPnl(s, book)) }

  ghost function BookTotals(m: Market, books: map<string, Book>): map<string, real> {
    map b | b in books :: TotalPnlOf(m, books[b].positions)
  }
  ghost function BookNotionals(m: Market, books: map<string, Book>): map<string, real> {
    map b | b in books :: NotionalOf(m, books[b].positions)
  }

  ghost function DeskTotalPnl(s: State): real { Sum(BookTotals(MarketOf(s), s.desk.books)) }
  ghost function DeskGrossNotional(s: State): real { Sum(BookNotionals(MarketOf(s), s.desk.books)) }
  ghost function DeskDrawdown(s: State): real { Max(0.0, s.desk.highWaterMark - DeskTotalPnl(s)) }

  /** The four per-kind sums of a book add up to the sum of what each position contributes. */
  lemma TotalIsSumOfPositions(m: Market, ps: Positions)
    ensures TotalPnlOf(m, ps) == Sum(Pnls(m, ps))
  {
    var rf := map iid | iid in ps :: ps[iid].realizedPnl + ps[iid].fundingPnl;
    var net := map iid | iid in ps :: ps[iid].realizedPnl + ps[iid].fundingPnl - ps[iid].feesPaid;
    SumAdd(Realized(ps), Funding(ps), rf);
    SumAdd(net, Fees(ps), rf);
    SumAdd(net, Unrealized(m, ps), Pnls(m, ps));
  }

  lemma FlatIsWorthless(m: Market, iid: string)
    ensures PositionNotional(m, iid, FlatPosition(iid)) == 0.0 == PositionPnl(m, iid, FlatPosition(iid))
  {
  }

  lemma ReplaceNotional(m: Market, ps: Positions, iid: string, p: Position)
    ensures NotionalOf(m, ps[iid := p])
            == NotionalOf(m, ps) - (if iid in ps then PositionNotional(m, iid, ps[iid]) else 0.0)
               + PositionNotional(m, iid, p)
  {
    var value := PositionNotional(m, iid, p);
    assert Notionals(m, ps[iid := p]) == Notionals(m, ps)[iid := value];
    SumUpdate(Notionals(m, ps), iid, value);
  }

  lemma ReplacePnl(m: Market, ps: Positions, iid: string, p: Position)
    ensures TotalPnlOf(m, ps[iid := p])
            == TotalPnlOf(m, ps) - (if iid in ps then PositionPnl(m, iid, ps[iid]) else 0.0)
               + PositionPnl(m, iid, p)
  {
    var value := PositionPnl(m, iid, p);
    assert Pnls(m, ps[iid := p]) == Pnls(m, ps)[iid := value];
    SumUpdate(Pnls(m, ps), iid, value);
    TotalIsSumOfPositions(m, ps);
    TotalIsSumOfPositions(m, ps[iid := p]);
  }

  /** Replacing one book shifts the desk's totals by exactly that book's change. */
  lemma ReplaceBook(m: Market, books: map<string, Book>, b: string, book: Book)
    requires b in books
    ensures Sum(BookTotals(m, books[b := book]))
            == Sum(BookTotals(m, books)) - TotalPnlOf(m, books[b].positions) + TotalPnlOf(m, book.positions)
    ensures Sum(BookNotionals(m, books[b := book]))
            == Sum(BookNotionals(m, books)) - NotionalOf(m, books[b].positions) + NotionalOf(m, book.positions)
  {
    assert BookTotals(m, books[b := book]) == BookTotals(m, books)[b := TotalPnlOf(m, book.positions)];
    assert BookNotionals(m, books[b := book]) == BookNotionals(m, books)[b := NotionalOf(m, book.positions)];
    SumUpdate(BookTotals(m, books), b, TotalPnlOf(m, book.positions));
    SumUpdate(BookNotionals(m, books), b, NotionalOf(m, book.positions));
  }

  // ---- the aggregates in the instruments' own terms ----

  /** What a quantity is worth at the mark, negative when short: contract value times multiplier, in full. */
  function SignedValue(s: State, iid: string, qty: real): real
    requires iid in s.instruments
  {
    qty * (s.instruments[iid].ctVal * s.instruments[iid].ctMult) * (if iid in s.marks then s.marks[iid] else 0.0)
  }

  /** Every position is in a known instrument, and no price or contract size is negative. */
  ghost predicate Priced(s: State) {
    && (forall iid <- s.marks :: s.marks[iid] >= 0.0)
    && (forall iid <- s.instruments :: s.instruments[iid].ctVal * s.instruments[iid].ctMult >= 0.0)
    && (forall b <- s.desk.books :: s.desk.books[b].positions.Keys <= s.instruments.Keys)
  }

  lemma OneNotional(s: State, iid: string, p: Position)
    requires Priced(s) && iid in s.instruments
    ensures var v := SignedValue(s, iid, p.qty);
            PositionNotional(MarketOf(s), iid, p) == (if v >= 0.0 then v else -v) >= 0.0
  {
    var k, x := s.instruments[iid].ctVal * s.instruments[iid].ctMult, if iid in s.marks then s.marks[iid] else 0.0;
    Magnitude(p.qty, k, x);
  }

  lemma Magnitude(q: real, k: real, x: real)
    requires k >= 0.0 && x >= 0.0
    ensures var v := q * k * x;
            (if q < 0.0 then -q else q) * k * x == (if v >= 0.0 then v else -v) >= 0.0
  {
    assert k * x >= 0.0;
    assert q * k * x == q * (k * x) && (-q) * k * x == -(q * (k * x));
    if q >= 0.0 { assert q * (k * x) >= 0.0; } else { assert (-q) * (k * x) >= 0.0; }
  }

  /** A book's notional adds up the sizes of its positions' values: shorts count in full, and cancel nothing. */
  lemma NotionalIsGross(s: State, b: string)
    requires Priced(s) && b in s.desk.books
    ensures var ps := s.desk.books[b].positions;
            BookNotional(s, s.desk.books[b])
            == Sum(map iid | iid in ps :: var v := SignedValue(s, iid, ps[iid].qty); if v >= 0.0 then v else -v) >= 0.0
  {
    hide PositionNotional, SignedValue;
    var ps, m := s.desk.books[b].positions, MarketOf(s);
    var sizes := map iid | iid in ps :: var v := SignedValue(s, iid, ps[iid].qty); if v >= 0.0 then v else -v;
    forall iid | iid in ps ensures PositionNotional(m, iid, ps[iid]) == sizes[iid] >= 0.0 {
      OneNotional(s, iid, ps[iid]);
    }
    assert Notionals(m, ps) == sizes;
    var zero := map iid | iid in ps :: 0.0;
    SumZero(zero);
    SumMonotone(zero, sizes);
  }

  /** The desk's gross notional adds up the books', so it is at least any one of them. */
  lemma DeskNotionalIsGross(s: State, b: string)
    requires Priced(s) && b in s.desk.books
    ensures DeskGrossNotional(s) == Sum(map c | c in s.desk.books :: BookNotional(s, s.desk.books[c]))
    ensures DeskGrossNotional(s) >= BookNotional(s, s.desk.books[b])
  {
    hide NotionalOf;
    var all := BookNotionals(MarketOf(s), s.desk.books);
    assert all == map c | c in s.desk.books :: BookNotional(s, s.desk.books[c]);
    forall c | c in s.desk.books ensures all[c] >= 0.0 { NotionalIsGross(s, c); }
    var zero := map c | c in s.desk.books && c != b :: 0.0;
    SumRemove(all, b);
    SumZero(zero);
    SumMonotone(zero, all - {b});
  }

  /** What a position is worth to its book: realized, plus funding, less fees, plus quantity on the mark's distance from entry. */
  function PositionWorth(s: State, iid: string, p: Position): real
    requires iid in s.instruments
  {
    p.realizedPnl + p.fundingPnl - p.feesPaid
    + p.qty * (s.instruments[iid].ctVal * s.instruments[iid].ctMult)
      * ((if iid in s.marks then s.marks[iid] else 0.0) - p.avgEntryPrice)
  }

  /** A book's total PnL adds these up over its positions, and the desk's adds up its books'. */
  lemma TotalSpelledOut(s: State, b: string)
    requires b in s.desk.books && s.desk.books[b].positions.Keys <= s.instruments.Keys
    ensures var ps := s.desk.books[b].positions;
            BookTotalPnl(s, s.desk.books[b]) == Sum(map iid | iid in ps :: PositionWorth(s, iid, ps[iid]))
    ensures DeskTotalPnl(s) == Sum(map c | c in s.desk.books :: BookTotalPnl(s, s.desk.books[c]))
  {
    hide TotalPnlOf, PositionPnl, PositionWorth;
    var ps, m := s.desk.books[b].positions, MarketOf(s);
    TotalIsSumOfPositions(m, ps);
    forall iid | iid in ps ensures PositionPnl(m, iid, ps[iid]) == PositionWorth(s, iid, ps[iid]) {
      OnePnl(s, iid, ps[iid]);
    }
    assert Pnls(m, ps) == map iid | iid in ps :: PositionWorth(s, iid, ps[iid]);
    assert BookTotals(m, s.desk.books) == map c | c in s.desk.books :: BookTotalPnl(s, s.desk.books[c]);
  }

  lemma OnePnl(s: State, iid: string, p: Position)
    requires iid in s.instruments
    ensures PositionPnl(MarketOf(s), iid, p) == PositionWorth(s, iid, p)
  {
  }
}
