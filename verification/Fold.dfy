/**
 * The event fold (hobo/risk/fold.py).  `ApplyEvent` says what one event does to the state as a
 * value; class `LiveState` does it in place, handler by handler, and is proved to agree.
 */
module Fold {
  import opened RiskModel
  import opened RiskMath
  import opened RiskState
  import opened MapSums

  /** Payloads the handlers can look up; any other payload raises in the source. */
  predicate WellFormed(s: State, e: LogEvent) {
    match e
    case Fill(_, b, iid, _, _, _, _, _) => b in s.desk.books && iid in s.instruments
    case FundingUpdate(iid, _, _) => iid in s.instruments
    case LimitChange(scope, _, _, _, b) => scope.BOOK? ==> b in s.desk.books
    case KillSwitch(scope, id, _, _) => scope.BOOK? ==> id in s.desk.books
    case _ => true
  }

  ghost predicate AllWellFormed(s: State, es: seq<Envelope>) {
    forall i | 0 <= i < |es| :: WellFormed(s, es[i].event)
  }

  /** Events never add or remove instruments or books. */
  ghost predicate SameRoster(s: State, t: State) {
    s.instruments == t.instruments && s.desk.books.Keys == t.desk.books.Keys
  }

  /** The events after whose handlers the high-water marks are brought up to date. */
  predicate MovesPnl(e: LogEvent) { e.MarkUpdate? || e.FundingUpdate? || e.Fill? }

  ghost function RaiseBookMark(m: Market, book: Book): Book {
    var total := TotalPnlOf(m, book.positions);
    if total > book.highWaterMark then book.(highWaterMark := total) else book
  }

  ghost function RaiseHighWaterMarks(s: State): State {
    var total := DeskTotalPnl(s);
    s.(desk := s.desk.(
      books := RaiseBookMarks(MarketOf(s), s.desk.books),
      highWaterMark := if total > s.desk.highWaterMark then total else s.desk.highWaterMark))
  }

  function SignedDelta(side: Side, qty: real): real { if side.BUY? then qty else -qty }

  function FillPosition(p: Position, delta: real, price: real, fee: real, multiplier: real): Position {
    var r := SimulateFill(p.qty, p.avgEntryPrice, delta, price, multiplier);
    p.(qty := r.qty, avgEntryPrice := r.entryPrice,
       realizedPnl := p.realizedPnl + r.realizedDelta, feesPaid := p.feesPaid + fee)
  }

  function SetPosition(s: State, b: string, iid: string, p: Position): State
    requires b in s.desk.books
  {
    var book := s.desk.books[b];
    s.(desk := s.desk.(books := s.desk.books[b := book.(positions := book.positions[iid := p])]))
  }

  /** The position change of a fill, before the high-water marks react to it. */
  function Trade(s: State, e: LogEvent): State
    requires e.Fill? && WellFormed(s, e)
  {
    var p := s.desk.books[e.bookId].PositionIn(e.instrumentId);
    SetPosition(s, e.bookId, e.instrumentId,
      FillPosition(p, SignedDelta(e.side, e.qty), e.fillPrice, e.fee, s.instruments[e.instrumentId].Multiplier()))
  }

  /** Longs pay shorts when the rate is positive. */
  function FundingPayment(qty: real, multiplier: real, mark: real, rate: real): real {
    -qty * multiplier * mark * rate
  }

  /** Flat or absent positions are skipped. */
  function PayFunding(book: Book, iid: string, multiplier: real, mark: real, rate: real): Book {
    if iid in book.positions && book.positions[iid].qty != 0.0 then
      var p := book.positions[iid];
      book.(positions := book.positions[iid := p.(fundingPnl := p.fundingPnl + FundingPayment(p.qty, multiplier, mark, rate))])
    else book
  }

  function Funded(s: State, iid: string, rate: real): State {
    var m := MarketOf(s);
    var books := map b | b in s.desk.books ::
      PayFunding(s.desk.books[b], iid, m.Multiplier(iid), m.Mark(iid), rate);
    s.(fundingRates := s.fundingRates[iid := rate], desk := s.desk.(books := books))
  }

  function ChangeLimit(s: State, e: LogEvent): State
    requires e.LimitChange? && WellFormed(s, e)
  {
    if e.scope.BOOK? then
      var book := s.desk.books[e.bookId];
      s.(desk := s.desk.(books := s.desk.books[e.bookId := book.(limits := book.limits[e.field := e.new_])]))
    else s.(desk := s.desk.(limits := s.desk.limits[e.field := e.new_]))
  }

  function SetSwitch(s: State, e: LogEvent): State
    requires e.KillSwitch? && WellFormed(s, e)
  {
    if e.scope.BOOK? then
      s.(desk := s.desk.(books := s.desk.books[e.id := s.desk.books[e.id].(killSwitch := e.enabled)]))
    else s.(desk := s.desk.(killSwitch := e.enabled, killSwitchReason := e.reason))
  }

  ghost function Handle(s: State, e: LogEvent): State
    requires WellFormed(s, e)
  {
    match e
    case MarkUpdate(iid, price, ts) =>
      RaiseHighWaterMarks(s.(marks := s.marks[iid := price], markTsNs := s.markTsNs[iid := ts]))
    case Fill(_, _, _, _, _, _, _, _) => RaiseHighWaterMarks(Trade(s, e))
    case FundingUpdate(iid, rate, _) =>
      RaiseHighWaterMarks(Funded(s, iid, rate))
    case LimitChange(_, _, _, _, _) => ChangeLimit(s, e)
    case KillSwitch(_, _, _, _) => SetSwitch(s, e)
    case _ => s
  }

  ghost function ApplyEvent(s: State, e: Envelope): (t: State)
    requires WellFormed(s, e.event)
    ensures SameRoster(s, t)
  {
    Handle(s, e.event).(lastSeq := e.seqNo)
  }

  /** The state a list of events builds: the one function live, recovered and replica state must equal. */
  ghost function FoldAll(s: State, es: seq<Envelope>): (t: State)
    requires AllWellFormed(s, es)
    ensures SameRoster(s, t)
  {
    if es == [] then s
    else ApplyEvent(FoldAll(s, es[..|es| - 1]), es[|es| - 1])
  }

  /** The last event folds onto the state of the ones before it. */
  lemma FoldLast(s: State, es: seq<Envelope>)
    requires AllWellFormed(s, es) && es != []
    ensures var prior, e := es[..|es| - 1], es[|es| - 1];
            && AllWellFormed(s, prior) && SameRoster(s, FoldAll(s, prior))
            && WellFormed(FoldAll(s, prior), e.event)
            && FoldAll(s, es) == Handle(FoldAll(s, prior), e.event).(lastSeq := e.seqNo)
  {
    hide Handle;
  }

  lemma WellFormedParts(s: State, a: seq<Envelope>, b: seq<Envelope>)
    requires AllWellFormed(s, a + b)
    ensures AllWellFormed(s, a) && AllWellFormed(s, b)
  {
    forall i | 0 <= i < |a| ensures WellFormed(s, a[i].event) { assert (a + b)[i] == a[i]; }
    forall i | 0 <= i < |b| ensures WellFormed(s, b[i].event) { assert (a + b)[|a| + i] == b[i]; }
  }

  /** Folding in two sittings is folding once. */
  lemma {:induction false} FoldConcat(s: State, a: seq<Envelope>, b: seq<Envelope>)
    requires AllWellFormed(s, a + b)
    ensures AllWellFormed(s, a) && AllWellFormed(FoldAll(s, a), b)
    ensures FoldAll(s, a + b) == FoldAll(FoldAll(s, a), b)
    decreases |b|
  {
    WellFormedParts(s, a, b);
    if b == [] {
      assert a + b == a;
    } else {
      var n := |b| - 1;
      assert (a + b)[..|a + b| - 1] == a + b[..n];
      FoldConcat(s, a, b[..n]);
    }
  }

  lemma TotalsWithout(m: Market, books: map<string, Book>, b: string)
    requires b in books
    ensures Sum(BookTotals(m, books)) == TotalPnlOf(m, books[b].positions) + Sum(BookTotals(m, books - {b}))
  {
    SumRemove(BookTotals(m, books), b);
    assert BookTotals(m, books - {b}) == BookTotals(m, books) - {b};
  }

  ghost function RaiseBookMarks(m: Market, books: map<string, Book>): map<string, Book> {
    map b | b in books :: RaiseBookMark(m, books[b])
  }

  /** Raising marks moves no position, so every total stays what it was. */
  lemma RaisingKeepsTotals(m: Market, books: map<string, Book>)
    ensures BookTotals(m, RaiseBookMarks(m, books)) == BookTotals(m, books)
  {
  }

  /** The state as the engine holds it: fields, the desk's among them, that the handlers assign. */
  class LiveState {
    var instruments: map<string, Instrument>
    var books: map<string, Book>
    var deskId: string
    var deskLimits: map<Limit, real>
    var deskHighWaterMark: real
    var killSwitch: bool
    var killSwitchReason: string
    var marks: map<string, real>
    var markTsNs: map<string, int>
    var fundingRates: map<string, real>
    var lastSeq: int
    var feedStale: bool

    function Value(): State
      reads this
    {
      State(instruments, Desk(deskId, deskLimits, books, deskHighWaterMark, killSwitch, killSwitchReason),
            marks, markTsNs, fundingRates, lastSeq, feedStale)
    }

    constructor (s: State)
      ensures Value() == s
    {
      instruments, books, marks := s.instruments, s.desk.books, s.marks;
      deskId, deskLimits, deskHighWaterMark := s.desk.deskId, s.desk.limits, s.desk.highWaterMark;
      killSwitch, killSwitchReason := s.desk.killSwitch, s.desk.killSwitchReason;
      markTsNs, fundingRates := s.markTsNs, s.fundingRates;
      lastSeq, feedStale := s.lastSeq, s.feedStale;
    }

    function View(): Market
      reads this
    {
      Market(marks, instruments)
    }

    method BookTotalPnl(book: Book) returns (total: real)
      ensures total == TotalPnlOf(View(), book.positions)
    {
      var realized := SumValues(Realized(book.positions));
      var funding := SumValues(Funding(book.positions));
      var fees := SumValues(Fees(book.positions));
      var unrealized := SumValues(Unrealized(View(), book.positions));
      total := realized + funding - fees + unrealized;
    }

    method DeskTotalPnl() returns (total: real)
      ensures total == Sum(BookTotals(View(), books))
    {
      total := 0.0;
      var rest := books;
      while rest != map[]
        invariant total + Sum(BookTotals(View(), rest)) == Sum(BookTotals(View(), books))
        decreases |rest|
      {
        var b :| b in rest;
        var t := BookTotalPnl(rest[b]);
        TotalsWithout(View(), rest, b);
        total := total + t;
        rest := rest - {b};
      }
    }

    method RaisedTo(book: Book) returns (raised: Book)
      ensures raised == RaiseBookMark(View(), book)
    {
      raised := book;
      var total := BookTotalPnl(book);
      if total > raised.highWaterMark {
        raised := raised.(highWaterMark := total);
      }
    }

    /** Raises each book's mark in turn. */
    method UpdateBookMarks()
      modifies this`books
      ensures books == RaiseBookMarks(View(), old(books))
    {
      ghost var was, market := books, View();
      var todo := books.Keys;
      while todo != {}
        invariant todo <= was.Keys == books.Keys
        invariant forall b <- was :: books[b] == if b in todo then was[b] else RaiseBookMark(market, was[b])
        decreases |todo|
      {
        var b :| b in todo;
        var book := RaisedTo(books[b]);
        books := books[b := book];
        todo := todo - {b};
      }
    }

    /** The books' marks first, then the desk's. */
    method UpdateHighWaterMarks()
      modifies this`books, this`deskHighWaterMark
      ensures Value() == RaiseHighWaterMarks(old(Value()))
    {
      UpdateBookMarks();
      RaisingKeepsTotals(View(), old(books));
      var total := DeskTotalPnl();
      if total > deskHighWaterMark {
        deskHighWaterMark := total;
      }
    }

    method ApplyMark(iid: string, price: real, ts: int)
      modifies this
      ensures Value() == Handle(old(Value()), MarkUpdate(iid, price, ts))
    {
      marks := marks[iid := price];
      markTsNs := markTsNs[iid := ts];
      UpdateHighWaterMarks();
    }

    /** Looks the position up, storing a flat one first if the book holds none. */
    method GetOrCreate(b: string, iid: string) returns (p: Position)
      requires b in books
      modifies this`books
      ensures p == old(books[b]).PositionIn(iid)
      ensures books == old(books)[b := old(books[b]).(positions := old(books[b]).positions[iid := p])]
    {
      var book := books[b];
      if iid in book.positions {
        p := book.positions[iid];
        assert book.positions[iid := p] == book.positions;
        assert books[b := book] == books;
      } else {
        p := FlatPosition(iid);
        books := books[b := book.(positions := book.positions[iid := p])];
      }
    }

    method TradePosition(p: Position, delta: real, price: real, fee: real, multiplier: real) returns (q: Position)
      ensures q == FillPosition(p, delta, price, fee, multiplier)
    {
      var r := SimulateFill(p.qty, p.avgEntryPrice, delta, price, multiplier);
      q := p.(qty := r.qty, avgEntryPrice := r.entryPrice);
      q := q.(realizedPnl := q.realizedPnl + r.realizedDelta);
      q := q.(feesPaid := q.feesPaid + fee);
    }

    method SetPositionIn(b: string, iid: string, p: Position)
      requires b in books
      modifies this`books
      ensures books == old(books)[b := old(books[b]).(positions := old(books[b]).positions[iid := p])]
    {
      books := books[b := books[b].(positions := books[b].positions[iid := p])];
    }

    method TradeInPlace(e: LogEvent)
      requires e.Fill? && WellFormed(Value(), e)
      modifies this`books
      ensures Value() == Trade(old(Value()), e)
    {
      var p := GetOrCreate(e.bookId, e.instrumentId);
      var delta := if e.side.BUY? then e.qty else -e.qty;
      var q := TradePosition(p, delta, e.fillPrice, e.fee, instruments[e.instrumentId].Multiplier());
      SetPositionIn(e.bookId, e.instrumentId, q);
      ghost var was := old(books)[e.bookId].positions;
      assert was[e.instrumentId := p][e.instrumentId := q] == was[e.instrumentId := q];
    }

    method ApplyFill(e: LogEvent)
      requires e.Fill? && WellFormed(Value(), e)
      modifies this
      ensures Value() == Handle(old(Value()), e)
    {
      TradeInPlace(e);
      UpdateHighWaterMarks();
    }

    method ApplyFunding(e: LogEvent)
      requires e.FundingUpdate? && WellFormed(Value(), e)
      modifies this
      ensures Value() == Handle(old(Value()), e)
    {
      fundingRates := fundingRates[e.instrumentId := e.fundingRate];
      PayFundingToBooks(e.instrumentId, View().Mark(e.instrumentId), e.fundingRate);
      UpdateHighWaterMarks();
    }

    method PayFundingToBooks(iid: string, mark: real, rate: real)
      requires iid in instruments
      modifies this`books
      ensures books == map b | b in old(books) :: PayFunding(old(books)[b], iid, View().Multiplier(iid), mark, rate)
    {
      var multiplier := instruments[iid].Multiplier();
      ghost var was := books;
      var todo := books.Keys;
      while todo != {}
        invariant todo <= was.Keys == books.Keys
        invariant forall b <- was ::
          books[b] == if b in todo then was[b] else PayFunding(was[b], iid, multiplier, mark, rate)
        decreases |todo|
      {
        var b :| b in todo;
        var book := books[b];
        if iid in book.positions && book.positions[iid].qty != 0.0 {
          var p := book.positions[iid];
          p := p.(fundingPnl := p.fundingPnl + FundingPayment(p.qty, multiplier, mark, rate));
          books := books[b := book.(positions := book.positions[iid := p])];
        }
        todo := todo - {b};
      }
    }

    method ApplyLimitChange(e: LogEvent)
      requires e.LimitChange? && WellFormed(Value(), e)
      modifies this`books, this`deskLimits
      ensures Value() == Handle(old(Value()), e)
    {
      if e.scope.BOOK? {
        var book := books[e.bookId];
        books := books[e.bookId := book.(limits := book.limits[e.field := e.new_])];
      } else {
        deskLimits := deskLimits[e.field := e.new_];
      }
    }

    method ApplyKillSwitch(e: LogEvent)
      requires e.KillSwitch? && WellFormed(Value(), e)
      modifies this`books, this`killSwitch, this`killSwitchReason
      ensures Value() == Handle(old(Value()), e)
    {
      if e.scope.BOOK? {
        books := books[e.id := books[e.id].(killSwitch := e.enabled)];
      } else {
        killSwitch := e.enabled;
        killSwitchReason := e.reason;
      }
    }

    /** Dispatches on the event type, then records the sequence number. */
    method Apply(envelope: Envelope)
      requires WellFormed(Value(), envelope.event)
      modifies this
      ensures Value() == ApplyEvent(old(Value()), envelope)
    {
      match envelope.event {
        case MarkUpdate(iid, price, ts) => ApplyMark(iid, price, ts);
        case Fill(_, _, _, _, _, _, _, _) => ApplyFill(envelope.event);
        case FundingUpdate(_, _, _) => ApplyFunding(envelope.event);
        case LimitChange(_, _, _, _, _) => ApplyLimitChange(envelope.event);
        case KillSwitch(_, _, _, _) => ApplyKillSwitch(envelope.event);
        case _ =>
      }
      lastSeq := envelope.seqNo;
    }
  }
}
