/**
 * The risk domain model (hobo/risk/model) and the log's event schema
 * (hobo/log/events.py).  Amounts, prices and quantities are exact reals.
 */
module RiskModel {
  datatype Side = BUY | SELL {
    function Sign(): real { if this == BUY then 1.0 else -1.0 }
  }

  datatype Limit = NOTIONAL | DRAWDOWN | POSITION

  datatype RejectReason =
    | NO_REJECT
    | KILL_SWITCH
    | FAT_FINGER
    | BOOK_POSITION_LIMIT
    | BOOK_NOTIONAL_LIMIT
    | BOOK_DRAWDOWN_LIMIT
    | DESK_GROSS_NOTIONAL_LIMIT
    | DESK_DRAWDOWN_LIMIT

  datatype Instrument = Instrument(
    instrumentId: string,
    ctVal: real,
    ctValCcy: string,
    ctMult: real,
    tickSz: real,
    lotSz: real,
    minSz: real,
    maxLeverage: real,
    settleCcy: string,
    maintenanceMarginRate: real,
    contractType: string)
  {
    function Multiplier(): real { ctVal * ctMult }
  }

  datatype Position = Position(
    instrumentId: string,
    qty: real,
    avgEntryPrice: real,
    realizedPnl: real,
    fundingPnl: real,
    feesPaid: real)

  /** A freshly constructed position: everything but the id is zero. */
  function FlatPosition(instrumentId: string): Position {
    Position(instrumentId, 0.0, 0.0, 0.0, 0.0, 0.0)
  }

  datatype Book = Book(
    bookId: string,
    limits: map<Limit, real>,
    positions: map<string, Position>,
    highWaterMark: real,
    killSwitch: bool)
  {
    /** Read-only lookup: the held position, or a flat one that is not stored. */
    function PositionIn(instrumentId: string): Position {
      if instrumentId in positions then positions[instrumentId] else FlatPosition(instrumentId)
    }
  }

  datatype Desk = Desk(
    deskId: string,
    limits: map<Limit, real>,
    books: map<string, Book>,
    highWaterMark: real,
    killSwitch: bool,
    killSwitchReason: string)

  datatype State = State(
    instruments: map<string, Instrument>,
    desk: Desk,
    marks: map<string, real>,
    markTsNs: map<string, int>,
    fundingRates: map<string, real>,
    lastSeq: int,
    feedStale: bool)

  /** The state the engine starts from: the seeded roster, no positions, no marks. */
  predicate IsInitial(s: State) {
    && s.marks == map[] && s.markTsNs == map[] && s.fundingRates == map[]
    && s.lastSeq == 0 && !s.feedStale
    && s.desk.highWaterMark == 0.0 && !s.desk.killSwitch && s.desk.killSwitchReason == ""
    && forall b <- s.desk.books ::
         var book := s.desk.books[b];
         book.positions == map[] && book.highWaterMark == 0.0 && !book.killSwitch
  }

  datatype Order = Order(
    orderId: string,
    bookId: string,
    instrumentId: string,
    side: Side,
    qty: real,
    tsNs: int,
    orderType: string)
  {
    function SignedQty(): real { side.Sign() * qty }
  }

  datatype Scope = BOOK | DESK

  /** What a rejected check reports beside its reason. */
  datatype Detail =
    | NoDetail
    | ScopeDetail(scope: Scope, why: string)
    | LimitDetail(value: real, limit: real)

  datatype GateDecision = GateDecision(orderId: string, approved: bool, reason: RejectReason, detail: Detail)

  datatype LogEvent =
    | MarkUpdate(instrumentId: string, markPrice: real, tsExchNs: int)
    | FundingUpdate(instrumentId: string, fundingRate: real, fundingTimeNs: int)
    | Fill(orderId: string, bookId: string, instrumentId: string, side: Side, qty: real,
           fillPrice: real, fee: real, tradeId: string)
    | LimitChange(scope: Scope, field: Limit, old_: real, new_: real, bookId: string)
    | KillSwitch(scope: Scope, id: string, enabled: bool, reason: string)
    | OrderRequest(orderId: string, bookId: string, instrumentId: string, side: Side, qty: real, orderType: string)
    | GateDecisionLog(orderId: string, bookId: string, approved: bool, why: RejectReason, detail: Detail)
    | ReconciliationWarning(kind: string, note: string)

  datatype Envelope = Envelope(seqNo: int, tsNs: int, event: LogEvent)
}
