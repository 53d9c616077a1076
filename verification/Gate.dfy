/**
 * The pre-trade gate (hobo/risk/gate): the incremental preview of an order, the seven limit checks
 * and the engine that runs them.  The preview is proved equal to what folding the fill would give,
 * and the verdict is restated as a condition on that post-fill state.
 */
module Gate {
  import opened RiskModel
  import opened RiskMath
  import opened RiskState
  import opened MapSums
  import opened Fold

  datatype OrderContext = OrderContext(
    order: Order,
    mark: real,
    newQty: real,
    newBookNotional: real,
    hypotheticalBookPnl: real,
    newDeskGrossNotional: real,
    hypotheticalDeskPnl: real)

  predicate Known(s: State, order: Order) {
    order.bookId in s.desk.books && order.instrumentId in s.instruments
  }

  /** Swaps one position's old contribution for its new one in the book, then the book's in the desk. */
  ghost function BuildOrderContext(s: State, order: Order): OrderContext
    requires Known(s, order)
  {
    var book := s.desk.books[order.bookId];
    var m := MarketOf(s);
    var mark, multiplier := m.Mark(order.instrumentId), s.instruments[order.instrumentId].Multiplier();
    var pos := book.PositionIn(order.instrumentId);
    var r := SimulateFill(pos.qty, pos.avgEntryPrice, order.SignedQty(), mark, multiplier);
    var feesAndFunding := pos.fundingPnl - pos.feesPaid;
    var oldPnl := pos.realizedPnl + feesAndFunding + UnrealizedPnl(pos.qty, pos.avgEntryPrice, mark, multiplier);
    var newPnl := pos.realizedPnl + r.realizedDelta + feesAndFunding
                  + UnrealizedPnl(r.qty, r.entryPrice, mark, multiplier);
    var newBookNotional :=
      BookNotional(s, book) - Notional(pos.qty, mark, multiplier) + Notional(r.qty, mark, multiplier);
    var bookPnl := BookTotalPnl(s, book) - oldPnl + newPnl;
    OrderContext(order, mark, r.qty, newBookNotional, bookPnl,
                 DeskGrossNotional(s) - BookNotional(s, book) + newBookNotional,
                 DeskTotalPnl(s) - BookTotalPnl(s, book) + bookPnl)
  }

  datatype Rule =
    | KillSwitchCheck
    | FatFingerCheck(maxOrderSize: real)
    | BookPositionCheck
    | BookNotionalCheck
    | BookDrawdownCheck
    | DeskGrossNotionalCheck
    | DeskDrawdownCheck

  datatype CheckResult = Passed | Rejected(reason: RejectReason, detail: Detail)

  /** Every limit a check looks up is configured. */
  predicate LimitsSet(s: State, b: string) {
    && b in s.desk.books
    && {Limit.POSITION, Limit.NOTIONAL, Limit.DRAWDOWN} <= s.desk.books[b].limits.Keys
    && {Limit.NOTIONAL, Limit.DRAWDOWN} <= s.desk.limits.Keys
  }

  function Cap(value: real, limit: real, reason: RejectReason): CheckResult {
    if value > limit then Rejected(reason, LimitDetail(value, limit)) else Passed
  }

  function Evaluate(rule: Rule, s: State, ctx: OrderContext): CheckResult
    requires LimitsSet(s, ctx.order.bookId)
  {
    var desk, book := s.desk, s.desk.books[ctx.order.bookId];
    match rule
    case KillSwitchCheck =>
      if desk.killSwitch then Rejected(RejectReason.KILL_SWITCH, ScopeDetail(Scope.DESK, desk.killSwitchReason))
      else if book.killSwitch then Rejected(RejectReason.KILL_SWITCH, ScopeDetail(Scope.BOOK, ""))
      else Passed
    case FatFingerCheck(maxOrderSize) => Cap(ctx.order.qty, maxOrderSize, FAT_FINGER)
    case BookPositionCheck =>
      if Abs(ctx.newQty) > book.limits[Limit.POSITION]
      then Rejected(BOOK_POSITION_LIMIT, LimitDetail(ctx.newQty, book.limits[Limit.POSITION])) else Passed
    case BookNotionalCheck => Cap(ctx.newBookNotional, book.limits[Limit.NOTIONAL], BOOK_NOTIONAL_LIMIT)
    case BookDrawdownCheck =>
      Cap(Max(0.0, book.highWaterMark - ctx.hypotheticalBookPnl), book.limits[Limit.DRAWDOWN], BOOK_DRAWDOWN_LIMIT)
    case DeskGrossNotionalCheck =>
      Cap(ctx.newDeskGrossNotional, desk.limits[Limit.NOTIONAL], DESK_GROSS_NOTIONAL_LIMIT)
    case DeskDrawdownCheck =>
      Cap(Max(0.0, desk.highWaterMark - ctx.hypotheticalDeskPnl), desk.limits[Limit.DRAWDOWN], DESK_DRAWDOWN_LIMIT)
  }

  const DEFAULT_MAX_ORDER_SIZE := 1000.0

  function DefaultChecks(maxOrderSize: real): seq<Rule> {
    [KillSwitchCheck, FatFingerCheck(maxOrderSize), BookPositionCheck, BookNotionalCheck,
     BookDrawdownCheck, DeskGrossNotionalCheck, DeskDrawdownCheck]
  }

  /** Runs the rules in order and stops at the first that rejects. */
  function FirstResult(rules: seq<Rule>, s: State, ctx: OrderContext): CheckResult
    requires LimitsSet(s, ctx.order.bookId)
  {
    if rules == [] then Passed else
      var result := Evaluate(rules[0], s, ctx);
      if result.Rejected? then result else FirstResult(rules[1..], s, ctx)
  }

  ghost function Check(rules: seq<Rule>, s: State, order: Order): GateDecision
    requires Known(s, order) && LimitsSet(s, order.bookId)
  {
    match FirstResult(rules, s, BuildOrderContext(s, order))
    case Passed => GateDecision(order.orderId, true, NO_REJECT, NoDetail)
    case Rejected(reason, detail) => GateDecision(order.orderId, false, reason, detail)
  }

  /** The state the order leads to if it fills whole, at the mark, without a fee. */
  function FillAtMark(s: State, order: Order): LogEvent {
    LogEvent.Fill(order.orderId, order.bookId, order.instrumentId, order.side, order.qty,
                  MarketOf(s).Mark(order.instrumentId), 0.0, "")
  }

  ghost function AfterFill(s: State, order: Order): State
    requires Known(s, order)
  {
    Handle(s, FillAtMark(s, order))
  }

  /** Raising high-water marks leaves every from-scratch aggregate as it was. */
  lemma RaisingKeepsAggregates(s: State)
    ensures var t := RaiseHighWaterMarks(s);
            && DeskTotalPnl(t) == DeskTotalPnl(s) && DeskGrossNotional(t) == DeskGrossNotional(s)
            && MarketOf(t) == MarketOf(s)
            && forall b <- s.desk.books :: t.desk.books[b].positions == s.desk.books[b].positions
  {
    hide TotalPnlOf, NotionalOf;
    var m, books := MarketOf(s), s.desk.books;
    assert BookTotals(m, RaiseBookMarks(m, books)) == BookTotals(m, books);
    assert BookNotionals(m, RaiseBookMarks(m, books)) == BookNotionals(m, books);
  }

  /** The five previewed numbers, recomputed from scratch in a state. */
  ghost predicate Shows(t: State, ctx: OrderContext)
    requires ctx.order.bookId in t.desk.books
  {
    var book := t.desk.books[ctx.order.bookId];
    && book.PositionIn(ctx.order.instrumentId).qty == ctx.newQty
    && BookNotional(t, book) == ctx.newBookNotional
    && BookTotalPnl(t, book) == ctx.hypotheticalBookPnl
    && DeskGrossNotional(t) == ctx.newDeskGrossNotional
    && DeskTotalPnl(t) == ctx.hypotheticalDeskPnl
  }

  function Traded(s: State, order: Order): State
    requires Known(s, order)
  {
    Trade(s, FillAtMark(s, order))
  }

  lemma AfterFillRaisesTraded(s: State, order: Order)
    requires Known(s, order)
    ensures AfterFill(s, order) == RaiseHighWaterMarks(Traded(s, order))
  {
  }

  /** A fill replaces one position of one book; marks, specs and everything else stay. */
  lemma TradedState(s: State, order: Order)
    requires Known(s, order)
    ensures var t, b, iid := Traded(s, order), order.bookId, order.instrumentId;
            && MarketOf(t) == MarketOf(s)
            && b in t.desk.books && iid in t.desk.books[b].positions
            && t.desk.books == s.desk.books[b := t.desk.books[b]]
            && t.desk.books[b].positions == s.desk.books[b].positions[iid := t.desk.books[b].positions[iid]]
            && t.desk.highWaterMark == s.desk.highWaterMark
            && t.desk.books[b].highWaterMark == s.desk.books[b].highWaterMark
  {
    hide FillPosition;
  }

  /** The incremental preview is exactly what the state after folding the fill shows. */
  lemma PreviewRefinesFold(s: State, order: Order)
    requires Known(s, order)
    ensures Shows(AfterFill(s, order), BuildOrderContext(s, order))
  {
    hide BuildOrderContext, Traded, AfterFill, TotalPnlOf, NotionalOf, DeskTotalPnl, DeskGrossNotional;
    TradedShowsPreview(s, order);
    PreviewIsPosition(s, order);
    RaisingKeepsAggregates(Traded(s, order));
    AfterFillRaisesTraded(s, order);
    TradedState(s, order);
  }

  lemma TradedShowsPreview(s: State, order: Order)
    requires Known(s, order)
    ensures order.bookId in Traded(s, order).desk.books
    ensures Shows(Traded(s, order), BuildOrderContext(s, order))
  {
    hide PositionNotional, PositionPnl, TotalPnlOf, NotionalOf, BuildOrderContext, Traded, BookTotals, BookNotionals;
    var b, iid, m := order.bookId, order.instrumentId, MarketOf(s);
    var book, t := s.desk.books[b], Traded(s, order);
    TradedState(s, order);
    PreviewIsPosition(s, order);
    FlatIsWorthless(m, iid);
    var p := t.desk.books[b].positions[iid];
    ReplaceNotional(m, book.positions, iid, p);
    ReplacePnl(m, book.positions, iid, p);
    ReplaceBook(m, s.desk.books, b, t.desk.books[b]);
  }

  /** The preview's terms for the traded position are that position's contributions before and after. */
  lemma PreviewIsPosition(s: State, order: Order)
    requires Known(s, order)
    ensures var ctx, b, iid, m := BuildOrderContext(s, order), order.bookId, order.instrumentId, MarketOf(s);
            var book := s.desk.books[b];
            var before, after := book.PositionIn(iid), Traded(s, order).desk.books[b].positions[iid];
            && ctx.order == order
            && ctx.newQty == after.qty
            && ctx.newBookNotional
               == BookNotional(s, book) - PositionNotional(m, iid, before) + PositionNotional(m, iid, after)
            && ctx.hypotheticalBookPnl
               == BookTotalPnl(s, book) - PositionPnl(m, iid, before) + PositionPnl(m, iid, after)
            && ctx.newDeskGrossNotional == DeskGrossNotional(s) - BookNotional(s, book) + ctx.newBookNotional
            && ctx.hypotheticalDeskPnl == DeskTotalPnl(s) - BookTotalPnl(s, book) + ctx.hypotheticalBookPnl
  {
    assert order.SignedQty() == SignedDelta(order.side, order.qty);
    hide SimulateFill, Notional, UnrealizedPnl, TotalPnlOf, NotionalOf;
  }

  /** The first limit the post-fill state breaks, in the engine's order, or none. */
  ghost function FirstViolation(s: State, order: Order, maxOrderSize: real): RejectReason
    requires Known(s, order) && LimitsSet(s, order.bookId)
  {
    var t := AfterFill(s, order);
    var book := t.desk.books[order.bookId];
    var limits, deskLimits := s.desk.books[order.bookId].limits, s.desk.limits;
    if s.desk.killSwitch || s.desk.books[order.bookId].killSwitch then RejectReason.KILL_SWITCH
    else if order.qty > maxOrderSize then FAT_FINGER
    else if Abs(book.PositionIn(order.instrumentId).qty) > limits[Limit.POSITION] then BOOK_POSITION_LIMIT
    else if BookNotional(t, book) > limits[Limit.NOTIONAL] then BOOK_NOTIONAL_LIMIT
    else if BookDrawdown(t, book) > limits[Limit.DRAWDOWN] then BOOK_DRAWDOWN_LIMIT
    else if DeskGrossNotional(t) > deskLimits[Limit.NOTIONAL] then DESK_GROSS_NOTIONAL_LIMIT
    else if DeskDrawdown(t) > deskLimits[Limit.DRAWDOWN] then DESK_DRAWDOWN_LIMIT
    else NO_REJECT
  }

  /** Drawdown previewed against the old mark is drawdown after the fold has raised the mark. */
  lemma PreviewDrawdowns(s: State, order: Order)
    requires Known(s, order)
    ensures var ctx, t := BuildOrderContext(s, order), AfterFill(s, order);
            && BookDrawdown(t, t.desk.books[order.bookId])
               == Max(0.0, s.desk.books[order.bookId].highWaterMark - ctx.hypotheticalBookPnl)
            && DeskDrawdown(t) == Max(0.0, s.desk.highWaterMark - ctx.hypotheticalDeskPnl)
  {
    hide BuildOrderContext, AfterFill, Traded, TotalPnlOf, NotionalOf, DeskGrossNotional, BookTotals;
    PreviewRefinesFold(s, order);
    PreviewIsPosition(s, order);
    RaisingKeepsAggregates(Traded(s, order));
    AfterFillRaisesTraded(s, order);
    TradedState(s, order);
  }

  /**
   * The verdict, from the post-fill state alone: an order is approved exactly when both kill switches are
   * off, it is within the size cap and the state after its fill is within every limit; otherwise the
   * decision names the first limit broken.  Either way it names
   * this order, and carries what that check reports.
   */
  lemma VerdictIsPostFillVerdict(s: State, order: Order, maxOrderSize: real)
    requires Known(s, order) && LimitsSet(s, order.bookId)
    ensures var d := Check(DefaultChecks(maxOrderSize), s, order);
            && d.orderId == order.orderId
            && d.detail == (match FirstResult(DefaultChecks(maxOrderSize), s, BuildOrderContext(s, order))
                            case Passed => NoDetail
                            case Rejected(_, detail) => detail)
            && d.reason == FirstViolation(s, order, maxOrderSize)
            && (d.approved <==> FirstViolation(s, order, maxOrderSize) == NO_REJECT)
  {
    hide BuildOrderContext, AfterFill, BookDrawdown, BookNotional, DeskGrossNotional, DeskDrawdown,
         FirstResult, DefaultChecks, BookTotalPnl, DeskTotalPnl;
    PreviewRefinesFold(s, order);
    PreviewIsPosition(s, order);
    PreviewDrawdowns(s, order);
    SevenInOrder(s, BuildOrderContext(s, order), maxOrderSize);
  }

  /** The engine's walk over its rule list, written out: the first limit broken, with what it was and what is allowed. */
  lemma SevenInOrder(s: State, ctx: OrderContext, maxOrderSize: real)
    requires LimitsSet(s, ctx.order.bookId)
    ensures var desk, book := s.desk, s.desk.books[ctx.order.bookId];
            var bookDrawdown := Max(0.0, book.highWaterMark - ctx.hypotheticalBookPnl);
            var deskDrawdown := Max(0.0, desk.highWaterMark - ctx.hypotheticalDeskPnl);
            FirstResult(DefaultChecks(maxOrderSize), s, ctx)
            == if desk.killSwitch then Rejected(RejectReason.KILL_SWITCH, ScopeDetail(Scope.DESK, desk.killSwitchReason))
               else if book.killSwitch then Rejected(RejectReason.KILL_SWITCH, ScopeDetail(Scope.BOOK, ""))
               else if ctx.order.qty > maxOrderSize then Rejected(FAT_FINGER, LimitDetail(ctx.order.qty, maxOrderSize))
               else if Abs(ctx.newQty) > book.limits[Limit.POSITION]
                 then Rejected(BOOK_POSITION_LIMIT, LimitDetail(ctx.newQty, book.limits[Limit.POSITION]))
               else if ctx.newBookNotional > book.limits[Limit.NOTIONAL]
                 then Rejected(BOOK_NOTIONAL_LIMIT, LimitDetail(ctx.newBookNotional, book.limits[Limit.NOTIONAL]))
               else if bookDrawdown > book.limits[Limit.DRAWDOWN]
                 then Rejected(BOOK_DRAWDOWN_LIMIT, LimitDetail(bookDrawdown, book.limits[Limit.DRAWDOWN]))
               else if ctx.newDeskGrossNotional > desk.limits[Limit.NOTIONAL]
                 then Rejected(DESK_GROSS_NOTIONAL_LIMIT, LimitDetail(ctx.newDeskGrossNotional, desk.limits[Limit.NOTIONAL]))
               else if deskDrawdown > desk.limits[Limit.DRAWDOWN]
                 then Rejected(DESK_DRAWDOWN_LIMIT, LimitDetail(deskDrawdown, desk.limits[Limit.DRAWDOWN]))
               else Passed
  {
    var rules := DefaultChecks(maxOrderSize);
    assert rules[1..][1..] == rules[2..] && rules[2..][1..] == rules[3..] && rules[3..][1..] == rules[4..];
    assert rules[4..][1..] == rules[5..] && rules[5..][1..] == rules[6..] && rules[6..][1..] == [];
    assert FirstResult(rules[6..], s, ctx) == Evaluate(DeskDrawdownCheck, s, ctx);
    assert FirstResult(rules[4..], s, ctx)
        == if Evaluate(rules[4], s, ctx).Rejected? then Evaluate(rules[4], s, ctx)
           else FirstResult(rules[5..], s, ctx);
    assert FirstResult(rules[2..], s, ctx)
        == if Evaluate(rules[2], s, ctx).Rejected? then Evaluate(rules[2], s, ctx)
           else FirstResult(rules[3..], s, ctx);
  }

  /** A book that holds nothing; its positions, if any, are flat. */
  ghost predicate IsFlat(s: State, b: string)
    requires b in s.desk.books
  {
    forall iid <- s.desk.books[b].positions :: s.desk.books[b].positions[iid].qty == 0.0
  }

  lemma FlatBookNotional(s: State, b: string)
    requires b in s.desk.books && IsFlat(s, b)
    ensures BookNotional(s, s.desk.books[b]) == 0.0
  {
    SumZero(Notionals(MarketOf(s), s.desk.books[b].positions));
  }

  /** From flat, an order's previewed notional is its own size in money, whichever way it trades. */
  lemma FlatPreview(s: State, order: Order)
    requires Known(s, order) && Priced(s) && IsFlat(s, order.bookId) && order.qty > 0.0
    ensures var size := order.qty * (s.instruments[order.instrumentId].ctVal * s.instruments[order.instrumentId].ctMult)
                        * (if order.instrumentId in s.marks then s.marks[order.instrumentId] else 0.0);
            var ctx := BuildOrderContext(s, order);
            ctx.newBookNotional == size && ctx.newDeskGrossNotional >= size
  {
    hide BuildOrderContext, BookNotional, PositionNotional, BookTotalPnl, DeskTotalPnl, DeskGrossNotional, Traded;
    var b, iid := order.bookId, order.instrumentId;
    var before := s.desk.books[b].PositionIn(iid);
    TradedState(s, order);
    PreviewedFromFlat(s, order);
    var after := Traded(s, order).desk.books[b].positions[iid];
    PreviewIsPosition(s, order);
    FlatBookNotional(s, b);
    FlatPositionNotional(s, iid, before);
    DeskNotionalIsGross(s, b);
    OneNotional(s, iid, after);
    hide SignedValue, Priced;
    SizeOf(s, iid, order.qty, after.qty);
  }

  lemma PreviewedFromFlat(s: State, order: Order)
    requires Known(s, order) && IsFlat(s, order.bookId)
    ensures order.bookId in Traded(s, order).desk.books
    ensures order.instrumentId in Traded(s, order).desk.books[order.bookId].positions
    ensures Traded(s, order).desk.books[order.bookId].positions[order.instrumentId].qty
            == if order.side.BUY? then order.qty else -order.qty
  {
  }

  lemma FlatPositionNotional(s: State, iid: string, p: Position)
    requires p.qty == 0.0
    ensures PositionNotional(MarketOf(s), iid, p) == 0.0
  {
  }

  lemma SizeOf(s: State, iid: string, qty: real, traded: real)
    requires iid in s.instruments && Priced(s) && qty > 0.0 && (traded == qty || traded == -qty)
    ensures var v := SignedValue(s, iid, traded);
            (if v >= 0.0 then v else -v)
            == qty * (s.instruments[iid].ctVal * s.instruments[iid].ctMult) * (if iid in s.marks then s.marks[iid] else 0.0)
  {
    var k, x := s.instruments[iid].ctVal * s.instruments[iid].ctMult, if iid in s.marks then s.marks[iid] else 0.0;
    Magnitude(traded, k, x);
  }

  /**
   * What approval means in money: a flat book's order, bought or sold, is approved only if quantity times
   * contract value times multiplier times mark is within the book's notional limit and the desk's.
   */
  lemma ApprovedSizeWithinLimits(s: State, order: Order, maxOrderSize: real)
    requires Known(s, order) && LimitsSet(s, order.bookId) && Priced(s) && IsFlat(s, order.bookId) && order.qty > 0.0
    requires Check(DefaultChecks(maxOrderSize), s, order).approved
    ensures order.qty * (s.instruments[order.instrumentId].ctVal * s.instruments[order.instrumentId].ctMult)
            * (if order.instrumentId in s.marks then s.marks[order.instrumentId] else 0.0)
            <= s.desk.books[order.bookId].limits[Limit.NOTIONAL]
    ensures order.qty * (s.instruments[order.instrumentId].ctVal * s.instruments[order.instrumentId].ctMult)
            * (if order.instrumentId in s.marks then s.marks[order.instrumentId] else 0.0)
            <= s.desk.limits[Limit.NOTIONAL]
  {
    hide BuildOrderContext, FirstResult, DefaultChecks, Priced, IsFlat;
    FlatPreview(s, order);
    ContextOrder(s, order);
    SevenInOrder(s, BuildOrderContext(s, order), maxOrderSize);
  }

  lemma ContextOrder(s: State, order: Order)
    requires Known(s, order)
    ensures BuildOrderContext(s, order).order == order
    ensures BuildOrderContext(s, order).mark
            == if order.instrumentId in s.marks then s.marks[order.instrumentId] else 0.0
  {
  }

  /** And whatever the book holds: an approved order leaves gross notional, shorts in full, within both limits. */
  lemma ApprovedGrossWithinLimits(s: State, order: Order, maxOrderSize: real)
    requires Known(s, order) && LimitsSet(s, order.bookId) && Priced(AfterFill(s, order))
    requires Check(DefaultChecks(maxOrderSize), s, order).approved
    ensures var t := AfterFill(s, order);
            var ps := t.desk.books[order.bookId].positions;
            Sum(map iid | iid in ps :: var v := SignedValue(t, iid, ps[iid].qty); if v >= 0.0 then v else -v)
            <= s.desk.books[order.bookId].limits[Limit.NOTIONAL]
    ensures var t := AfterFill(s, order);
            Sum(map b | b in t.desk.books :: BookNotional(t, t.desk.books[b])) <= s.desk.limits[Limit.NOTIONAL]
  {
    hide BuildOrderContext, AfterFill, FirstResult, DefaultChecks, BookNotional, DeskGrossNotional, DeskDrawdown,
         BookDrawdown, SignedValue, Priced;
    VerdictIsPostFillVerdict(s, order, maxOrderSize);
    KeepsBook(s, order);
    NotionalIsGross(AfterFill(s, order), order.bookId);
    DeskNotionalIsGross(AfterFill(s, order), order.bookId);
  }

  lemma KeepsBook(s: State, order: Order)
    requires Known(s, order)
    ensures order.bookId in AfterFill(s, order).desk.books
  {
    AfterFillRaisesTraded(s, order);
    TradedState(s, order);
  }
}
