/**
 * The order path inside one process on the paper backend: bus event, recorder, strategies, gate, instant
 * fill back onto the bus (hobo/core/bus.py, recorder.py, strategy_runner.py, gateway.py,
 * hobo/execution/paper.py), taken apart so that the bus may drain between any two of them.
 */
module Pipeline {
  import opened RiskModel
  import opened RiskMath
  import opened RiskState
  import opened Fold
  import opened FoldRuns
  import opened PnlAttribution
  import opened Gate
  import opened MapSums
  import B = Bus
  import FillIngestion

  datatype Stage =
    | AtRest
    | Recording(event: B.Event)   // taken off the queue, not yet folded
    | Reacting(event: B.Event)    // folded; strategies are looking at it

  datatype Pipe = Pipe(state: State, queue: seq<B.Event>, stage: Stage, bound: nat)

  datatype PipeStep =
    | Market(event: B.Event)
    | Take
    | Record
    | Place(order: Order)        // a strategy's order, from inside the drain
    | Finish
    | PlaceByHand(order: Order)  // the dashboard's, from outside it
    | Switch(record: LogEvent)
    | ChangeLimits(record: LogEvent)

  /** The recorder's map from runtime events to log payloads. */
  function PayloadOf(e: B.Event): LogEvent
    requires !e.OrderUpdateEvent?
  {
    match e
    case MarkEvent(iid, price, ts) => MarkUpdate(iid, price, ts)
    case FundingEvent(iid, rate, time, _) => FundingUpdate(iid, rate, time)
    case FillEvent(o, b, iid, side, qty, price, fee, id) => LogEvent.Fill(o, b, iid, side, qty, price, fee, id)
  }

  /** What the paper client emits for an approved order: all of it, at the mark. */
  function PaperFill(order: Order, mark: real): B.Event {
    B.FillEvent(order.orderId, order.bookId, order.instrumentId, order.side, order.qty, mark, 0.0, "")
  }

  /** What is logged is what arrived, field by field. */
  lemma RecordedAsArrived(e: B.Event)
    requires !e.OrderUpdateEvent?
    ensures var p := PayloadOf(e);
            && (e.MarkEvent? ==> p.MarkUpdate? && p.instrumentId == e.instrumentId && p.markPrice == e.markPrice
                                 && p.tsExchNs == e.tsNs)
            && (e.FundingEvent? ==> p.FundingUpdate? && p.instrumentId == e.instrumentId
                                    && p.fundingRate == e.fundingRate && p.fundingTimeNs == e.fundingTimeNs)
            && (e.FillEvent? ==> p.Fill? && p.orderId == e.orderId && p.bookId == e.bookId
                                 && p.instrumentId == e.instrumentId && p.side == e.side && p.qty == e.qty
                                 && p.fillPrice == e.fillPrice && p.fee == e.fee && p.tradeId == e.tradeId)
  {
  }

  /** So a restart knows exactly the exchange fills recorded: recording one adds its id to those it will see. */
  lemma RestartSeesRecorded(es: seq<Envelope>, n: int, tsNs: int, e: B.Event)
    requires !e.OrderUpdateEvent?
    ensures FillIngestion.LoggedIds(es + [Envelope(n, tsNs, PayloadOf(e))])
            == FillIngestion.LoggedIds(es) + if e.FillEvent? && e.tradeId != "" then {e.tradeId} else {}
  {
    var more := es + [Envelope(n, tsNs, PayloadOf(e))];
    FillIngestion.IdsStep(more, |es|);
    assert more[..|es|] == es && more[..|es| + 1] == more;
    hide FillIngestion.LoggedIds;
  }

  /** The fill that reaches the log is the one the gate previewed, so its fold is the previewed state. */
  lemma PaperFillIsPreviewedFill(s: State, order: Order)
    requires Known(s, order)
    ensures var fill := PayloadOf(PaperFill(order, MarketOf(s).Mark(order.instrumentId)));
            WellFormed(s, fill) && Shows(Handle(s, fill), BuildOrderContext(s, order))
    ensures var e := PaperFill(order, MarketOf(s).Mark(order.instrumentId));
            && e.orderId == order.orderId && e.bookId == order.bookId && e.instrumentId == order.instrumentId
            && e.side == order.side && e.qty == order.qty
            && e.fillPrice == (if order.instrumentId in s.marks then s.marks[order.instrumentId] else 0.0)
            && e.fee == 0.0 && e.tradeId == ""
  {
    hide BuildOrderContext, Shows;
    PreviewRefinesFold(s, order);
  }

  ghost function Approves(s: State, order: Order): bool
    requires Known(s, order) && LimitsSet(s, order.bookId)
  {
    Check(DefaultChecks(DEFAULT_MAX_ORDER_SIZE), s, order).approved
  }

  /** The bus's publish from inside a drain: dropped at the bound. */
  function Enqueued(p: Pipe, e: B.Event): Pipe {
    if |p.queue| < p.bound then p.(queue := p.queue + [e]) else p
  }

  /** The gateway: request and decision are audit events, an approved order fills at once onto the bus. */
  ghost function Placed(p: Pipe, order: Order): Pipe
    requires Known(p.state, order) && LimitsSet(p.state, order.bookId)
  {
    if Approves(p.state, order) then Enqueued(p, PaperFill(order, MarketOf(p.state).Mark(order.instrumentId))) else p
  }

  /** No limit a change touches goes down. */
  ghost predicate NotLowered(s: State, e: LogEvent) {
    && e.LimitChange? && WellFormed(s, e)
    && (e.scope.BOOK? && e.field in s.desk.books[e.bookId].limits ==> e.new_ >= s.desk.books[e.bookId].limits[e.field])
  }

  ghost predicate PipeEnabled(p: Pipe, step: PipeStep) {
    match step
    case Market(e) => p.stage.AtRest? && p.queue == [] && IsMarket(e) && WellFormed(p.state, PayloadOf(e))
    case Take => p.stage.AtRest? && p.queue != []
    case Record => p.stage.Recording? && !p.stage.event.OrderUpdateEvent? && WellFormed(p.state, PayloadOf(p.stage.event))
    case Place(order) =>
      && p.stage.Reacting? && !B.BelongsToOtherBook(p.stage.event, order.bookId)
      && Known(p.state, order) && LimitsSet(p.state, order.bookId)
    case Finish => p.stage.Reacting?
    case PlaceByHand(order) =>
      p.stage.AtRest? && p.queue == [] && Known(p.state, order) && LimitsSet(p.state, order.bookId)
    case Switch(e) => e.KillSwitch? && WellFormed(p.state, e)
    case ChangeLimits(e) => NotLowered(p.state, e)
  }

  ghost function PipeApply(p: Pipe, step: PipeStep): Pipe
    requires PipeEnabled(p, step)
  {
    match step
    case Market(e) => Enqueued(p, e)
    case Take => p.(stage := Recording(p.queue[0]), queue := p.queue[1..])
    case Record => p.(state := Handle(p.state, PayloadOf(p.stage.event)), stage := Reacting(p.stage.event))
    case Place(order) => Placed(p, order)
    case Finish => p.(stage := AtRest)
    case PlaceByHand(order) => Placed(p, order)
    case Switch(e) => p.(state := Handle(p.state, e))
    case ChangeLimits(e) => p.(state := Handle(p.state, e))
  }

  predicate IsMarket(e: B.Event) { e.MarkEvent? || e.FundingEvent? }

  /** Events published and not yet folded, oldest first. */
  function Pending(p: Pipe): seq<B.Event> { (if p.stage.Recording? then [p.stage.event] else []) + p.queue }

  ghost predicate PipePath(ps: seq<Pipe>, steps: seq<PipeStep>) {
    && |ps| == |steps| + 1
    && forall i | 0 <= i < |steps| :: PipeEnabled(ps[i], steps[i]) && ps[i + 1] == PipeApply(ps[i], steps[i])
  }

  ghost predicate PipeRun(ps: seq<Pipe>, steps: seq<PipeStep>) {
    PipePath(ps, steps) && ps[0].queue == [] && ps[0].stage.AtRest?
  }

  predicate PlacesOrder(step: PipeStep) { step.Place? || step.PlaceByHand? }

  predicate IsFor(e: B.Event, b: string, iid: string) { e.FillEvent? && e.bookId == b && e.instrumentId == iid }

  /** No fill for the order's book and instrument is waiting to be folded. */
  ghost predicate Fresh(p: Pipe, order: Order) {
    forall e <- Pending(p) :: !IsFor(e, order.bookId, order.instrumentId)
  }

  // ---- the cap ----

  ghost predicate BookWithinCap(s: State, b: string, iid: string)
    requires b in s.desk.books
  {
    Limit.POSITION in s.desk.books[b].limits
    && Abs(s.desk.books[b].PositionIn(iid).qty) <= s.desk.books[b].limits[Limit.POSITION]
  }

  /** Every book holds at most its position limit of every instrument. */
  ghost predicate WithinCaps(s: State) {
    forall b, iid | b in s.desk.books :: BookWithinCap(s, b, iid)
  }

  /** A fill that will leave its book within its limit when it is folded. */
  ghost predicate Fits(s: State, e: B.Event) {
    && e.FillEvent? && e.bookId in s.desk.books && Limit.POSITION in s.desk.books[e.bookId].limits
    && Abs(s.desk.books[e.bookId].PositionIn(e.instrumentId).qty + SignedDelta(e.side, e.qty))
       <= s.desk.books[e.bookId].limits[Limit.POSITION]
  }

  ghost predicate PendingFits(s: State, es: seq<B.Event>) {
    && (forall k | 0 <= k < |es| :: IsMarket(es[k]) || Fits(s, es[k]))
    && (forall j, k | 0 <= j < k < |es| && es[j].FillEvent? :: !IsFor(es[k], es[j].bookId, es[j].instrumentId))
  }

  /** Caps hold, and each waiting fill, alone for its book and instrument, will leave them holding. */
  ghost predicate PipeInv(p: Pipe) { WithinCaps(p.state) && PendingFits(p.state, Pending(p)) }

  /** Quantities move by fills, limits by limit changes, and by nothing else. */
  lemma WhatMoves(s: State, e: LogEvent, b: string, iid: string)
    requires WellFormed(s, e) && b in s.desk.books
    ensures b in Handle(s, e).desk.books
    ensures Handle(s, e).desk.books[b].PositionIn(iid).qty
            == s.desk.books[b].PositionIn(iid).qty
               + if IsFillOf(e, b, iid) then SignedDelta(e.side, e.qty) else 0.0
    ensures BookLimit(Handle(s, e), b, Limit.POSITION)
            == if WritesBookLimit(e, b, Limit.POSITION) then [e.new_] else BookLimit(s, b, Limit.POSITION)
  {
    hide Handle, FundingPayment;
    OneEventPositions(s, e, b);
    OneEventControls(s, e, b, Limit.POSITION);
  }

  /** An event that is no fill keeps the caps, and keeps a waiting fill fitting. */
  lemma NonFillKeepsCaps(s: State, e: LogEvent)
    requires WellFormed(s, e) && WithinCaps(s) && !e.Fill? && (e.LimitChange? ==> NotLowered(s, e))
    ensures WithinCaps(Handle(s, e))
    ensures forall f | Fits(s, f) :: Fits(Handle(s, e), f)
  {
    hide Handle;
    var t := Handle(s, e);
    HandleKeepsRoster(s, e);
    forall b, iid | b in s.desk.books
      ensures t.desk.books[b].PositionIn(iid).qty == s.desk.books[b].PositionIn(iid).qty
      ensures BookWithinCap(t, b, iid)
      ensures Limit.POSITION in s.desk.books[b].limits
              && t.desk.books[b].limits[Limit.POSITION] >= s.desk.books[b].limits[Limit.POSITION]
    {
      assert BookWithinCap(s, b, iid);
      WhatMoves(s, e, b, iid);
    }
    forall f | Fits(s, f) ensures Fits(t, f) {
      assert BookWithinCap(t, f.bookId, f.instrumentId);
    }
  }

  lemma FittingFillKeepsCaps(s: State, f: B.Event)
    requires WithinCaps(s) && Fits(s, f) && WellFormed(s, PayloadOf(f))
    ensures WithinCaps(Handle(s, PayloadOf(f)))
    ensures forall g | Fits(s, g) && !IsFor(g, f.bookId, f.instrumentId) :: Fits(Handle(s, PayloadOf(f)), g)
  {
    hide Handle;
    var t := Handle(s, PayloadOf(f));
    HandleKeepsRoster(s, PayloadOf(f));
    forall b, iid | b in s.desk.books ensures BookWithinCap(t, b, iid) {
      assert BookWithinCap(s, b, iid);
      WhatMoves(s, PayloadOf(f), b, iid);
    }
    forall g | Fits(s, g) && !IsFor(g, f.bookId, f.instrumentId) ensures Fits(t, g) {
      WhatMoves(s, PayloadOf(f), g.bookId, g.instrumentId);
      assert BookWithinCap(t, g.bookId, g.instrumentId);
    }
  }

  /** Approval means the post-fill position is within the book's limit. */
  lemma ApprovedFits(s: State, order: Order, mark: real)
    requires Known(s, order) && LimitsSet(s, order.bookId) && Approves(s, order)
    ensures Fits(s, PaperFill(order, mark))
  {
    SevenInOrder(s, BuildOrderContext(s, order), DEFAULT_MAX_ORDER_SIZE);
    PreviewedQty(s, order);
    hide BuildOrderContext, FirstResult, DefaultChecks;
  }

  lemma PreviewedQty(s: State, order: Order)
    requires Known(s, order)
    ensures BuildOrderContext(s, order).order == order
    ensures BuildOrderContext(s, order).newQty
            == s.desk.books[order.bookId].PositionIn(order.instrumentId).qty + SignedDelta(order.side, order.qty)
  {
  }

  lemma FitsIsFill(s: State, e: B.Event)
    requires Fits(s, e)
    ensures e.FillEvent?
  {
  }

  lemma PlacedKeepsInv(p: Pipe, order: Order)
    requires PipeInv(p) && Known(p.state, order) && LimitsSet(p.state, order.bookId) && Fresh(p, order)
    ensures PipeInv(Placed(p, order))
  {
    hide WithinCaps, Fits, Approves;
    if Approves(p.state, order) && |p.queue| < p.bound {
      var fill := PaperFill(order, MarketOf(p.state).Mark(order.instrumentId));
      ApprovedFits(p.state, order, MarketOf(p.state).Mark(order.instrumentId));
      var es := Pending(p);
      assert Pending(Placed(p, order)) == es + [fill];
      forall k | 0 <= k < |es| ensures !IsFor(es[k], order.bookId, order.instrumentId) { assert es[k] in es; }
    }
  }

  lemma RecordKeepsInv(p: Pipe)
    requires PipeInv(p) && PipeEnabled(p, Record)
    ensures PipeInv(PipeApply(p, Record))
  {
    hide Handle, WithinCaps, Fits, WellFormed;
    var e, es := p.stage.event, Pending(p);
    assert es[0] == e && es[1..] == p.queue == Pending(PipeApply(p, Record));
    assert forall k | 0 <= k < |p.queue| :: es[k + 1] == p.queue[k];
    if IsMarket(e) {
      NonFillKeepsCaps(p.state, PayloadOf(e));
    } else {
      FitsIsFill(p.state, e);
      FittingFillKeepsCaps(p.state, e);
    }
  }

  lemma PipeStepKeepsInv(p: Pipe, step: PipeStep)
    requires PipeInv(p) && PipeEnabled(p, step)
    requires PlacesOrder(step) ==> Fresh(p, step.order)
    ensures PipeInv(PipeApply(p, step))
  {
    hide Handle, WithinCaps, Fits, Placed, WellFormed, NotLowered;
    match step
    case Record => RecordKeepsInv(p);
    case Place(order) => PlacedKeepsInv(p, order);
    case PlaceByHand(order) => PlacedKeepsInv(p, order);
    case Switch(e) => NonFillKeepsCaps(p.state, e);
    case ChangeLimits(e) => RaisedLimitsKeepCaps(p.state, e);
    case Take => assert Pending(PipeApply(p, Take)) == Pending(p);
    case Market(e) => assert Pending(p) == [];
    case Finish =>
  }

  lemma RaisedLimitsKeepCaps(s: State, e: LogEvent)
    requires WithinCaps(s) && NotLowered(s, e)
    ensures WellFormed(s, e) && WithinCaps(Handle(s, e))
    ensures forall f | Fits(s, f) :: Fits(Handle(s, e), f)
  {
    hide Handle, WithinCaps, Fits;
    NonFillKeepsCaps(s, e);
  }

  /**
   * Paper-run cap: in every run in which no order is placed while a fill for the same book and instrument
   * waits to be folded, and limits are never lowered, every book is within its position limit on every
   * instrument at every point, however many strategies order on one event.
   */
  lemma {:induction false} PositionCapHolds(ps: seq<Pipe>, steps: seq<PipeStep>, i: nat)
    requires PipeRun(ps, steps) && WithinCaps(ps[0].state) && i <= |steps|
    requires forall k | 0 <= k < |steps| && PlacesOrder(steps[k]) :: Fresh(ps[k], steps[k].order)
    ensures PipeInv(ps[i]) && WithinCaps(ps[i].state)
  {
    if i > 0 {
      PositionCapHolds(ps, steps, i - 1);
      PipeStepKeepsInv(ps[i - 1], steps[i - 1]);
    }
    hide PipeApply, WithinCaps, Fits, Fresh;
  }

  // ---- one order per event ----

  predicate OneOrderPerEvent(steps: seq<PipeStep>) {
    forall i, j | 0 <= i < j < |steps| && steps[i].Place? && steps[j].Place? ::
      exists k :: i < k < j && steps[k].Record?
  }

  predicate PlacedSinceRecord(steps: seq<PipeStep>) {
    steps != [] && (steps[|steps| - 1].Place?
                    || (!steps[|steps| - 1].Record? && PlacedSinceRecord(steps[..|steps| - 1])))
  }

  lemma {:induction false} LastPlace(steps: seq<PipeStep>) returns (i: nat)
    requires PlacedSinceRecord(steps)
    ensures i < |steps| && steps[i].Place? && forall k | i < k < |steps| :: !steps[k].Record?
  {
    i := |steps| - 1;
    if !steps[i].Place? {
      i := LastPlace(steps[..|steps| - 1]);
    }
  }

  /** How much can be waiting when each event leads to at most one order. */
  ghost predicate Sparse(p: Pipe, placed: bool) {
    match p.stage
    case AtRest => |p.queue| <= 1
    case Recording(_) => p.queue == []
    case Reacting(_) => |p.queue| <= if placed then 1 else 0
  }

  lemma SparseStep(p: Pipe, step: PipeStep, placed: bool)
    requires PipeEnabled(p, step) && Sparse(p, placed) && !(step.Place? && placed)
    ensures Sparse(PipeApply(p, step), step.Place? || (!step.Record? && placed))
  {
    hide Handle, Approves, WellFormed, NotLowered, LimitsSet;
  }

  lemma {:induction false} StaysSparse(ps: seq<Pipe>, steps: seq<PipeStep>, i: nat)
    requires PipeRun(ps, steps) && OneOrderPerEvent(steps) && i <= |steps|
    ensures Sparse(ps[i], PlacedSinceRecord(steps[..i]))
    ensures i < |steps| && steps[i].Place? ==> !PlacedSinceRecord(steps[..i])
  {
    hide PipeApply, PipeEnabled;
    if i < |steps| && steps[i].Place? && PlacedSinceRecord(steps[..i]) {
      var k := LastPlace(steps[..i]);
      assert steps[k].Place?;
    }
    if i > 0 {
      StaysSparse(ps, steps, i - 1);
      assert steps[..i][..i - 1] == steps[..i - 1];
      SparseStep(ps[i - 1], steps[i - 1], PlacedSinceRecord(steps[..i - 1]));
    }
  }

  /** With at most one order per bus event nothing at all is waiting when the gate is asked, so the cap holds. */
  lemma OneOrderPerEventIsFresh(ps: seq<Pipe>, steps: seq<PipeStep>, i: nat)
    requires PipeRun(ps, steps) && OneOrderPerEvent(steps) && i < |steps| && PlacesOrder(steps[i])
    ensures Pending(ps[i]) == [] && Fresh(ps[i], steps[i].order)
  {
    hide Handle, Approves, WellFormed, NotLowered;
    StaysSparse(ps, steps, i);
  }

  // ---- orders that share a book and an instrument ----

  function PendingQty(es: seq<B.Event>, b: string, iid: string): real {
    if es == [] then 0.0
    else PendingQty(es[..|es| - 1], b, iid)
         + if IsFor(es[|es| - 1], b, iid) then SignedDelta(es[|es| - 1].side, es[|es| - 1].qty) else 0.0
  }

  /** Where the pair's quantity is once all that waits is folded. */
  ghost function Projected(p: Pipe, b: string, iid: string): real
    requires b in p.state.desk.books
  {
    p.state.desk.books[b].PositionIn(iid).qty + PendingQty(Pending(p), b, iid)
  }

  lemma {:induction false} PendingFirst(es: seq<B.Event>, b: string, iid: string)
    requires es != []
    ensures PendingQty(es, b, iid)
            == (if IsFor(es[0], b, iid) then SignedDelta(es[0].side, es[0].qty) else 0.0) + PendingQty(es[1..], b, iid)
  {
    if |es| > 1 {
      var front := es[..|es| - 1];
      PendingFirst(front, b, iid);
      assert front[1..] == es[1..][..|es| - 2];
    }
  }

  lemma PendingSnoc(es: seq<B.Event>, e: B.Event, b: string, iid: string)
    ensures PendingQty(es + [e], b, iid)
            == PendingQty(es, b, iid) + if IsFor(e, b, iid) then SignedDelta(e.side, e.qty) else 0.0
  {
    assert (es + [e])[..|es|] == es;
  }

  lemma {:induction false} NothingPending(es: seq<B.Event>, b: string, iid: string)
    requires forall e <- es :: !IsFor(e, b, iid)
    ensures PendingQty(es, b, iid) == 0.0
  {
    if es != [] {
      NothingPending(es[..|es| - 1], b, iid);
    }
  }

  /** Everything waiting can be recorded. */
  ghost predicate Recordable(p: Pipe) {
    forall e <- Pending(p) :: !e.OrderUpdateEvent? && WellFormed(p.state, PayloadOf(e))
  }

  lemma RecordableStep(p: Pipe, step: PipeStep)
    requires Recordable(p) && PipeEnabled(p, step)
    ensures Recordable(PipeApply(p, step))
  {
    hide Handle, SameRoster, Approves, LimitsSet;
    var t := PipeApply(p, step);
    match step
    case Record => RestRecordable(p);
    case Take => assert Pending(t) == Pending(p);
    case Finish => assert Pending(t) == Pending(p);
    case Market(e) => assert Pending(p) == [];
    case Place(order) => PlacedRecordable(p, order);
    case PlaceByHand(order) => PlacedRecordable(p, order);
    case Switch(e) => QuietRecordable(p, e);
    case ChangeLimits(e) => QuietRecordable(p, e);
  }

  lemma PlacedRecordable(p: Pipe, order: Order)
    requires Recordable(p) && Known(p.state, order) && LimitsSet(p.state, order.bookId)
    ensures Recordable(Placed(p, order))
  {
    hide Approves, LimitsSet;
    var fill := PaperFill(order, MarketOf(p.state).Mark(order.instrumentId));
    assert Pending(Enqueued(p, fill)) == if |p.queue| < p.bound then Pending(p) + [fill] else Pending(p);
  }

  lemma QuietRecordable(p: Pipe, e: LogEvent)
    requires Recordable(p) && WellFormed(p.state, e)
    ensures Recordable(p.(state := Handle(p.state, e)))
  {
    hide Handle, SameRoster, WellFormed;
    var s, t := p.state, p.(state := Handle(p.state, e));
    HandleKeepsRoster(s, e);
    assert Pending(t) == Pending(p);
    forall f | f in Pending(p) ensures !f.OrderUpdateEvent? && WellFormed(t.state, PayloadOf(f)) {
      StaysWellFormed(s, t.state, PayloadOf(f));
    }
  }

  /** In every run all that waits can be recorded, so what is proved of draining holds at every point. */
  lemma {:induction false} RunIsRecordable(ps: seq<Pipe>, steps: seq<PipeStep>, i: nat)
    requires PipeRun(ps, steps) && i <= |steps|
    ensures Recordable(ps[i])
  {
    hide PipeApply, PipeEnabled, Recordable;
    if i > 0 {
      RunIsRecordable(ps, steps, i - 1);
      RecordableStep(ps[i - 1], steps[i - 1]);
    } else {
      StartsRecordable(ps[0]);
    }
  }

  lemma StartsRecordable(p: Pipe)
    requires p.queue == [] && p.stage.AtRest?
    ensures Recordable(p)
  {
  }

  predicate Drains(step: PipeStep) { step.Take? || step.Record? || step.Finish? }

  /** Draining folds what waits: the projection, the pair's limit and the roster stay what they are. */
  lemma DrainStep(p: Pipe, step: PipeStep, b: string, iid: string)
    requires Recordable(p) && PipeEnabled(p, step) && Drains(step) && b in p.state.desk.books
    ensures var t := PipeApply(p, step);
            && Recordable(t) && b in t.state.desk.books && t.bound == p.bound
            && Projected(t, b, iid) == Projected(p, b, iid)
            && BookLimit(t.state, b, Limit.POSITION) == BookLimit(p.state, b, Limit.POSITION)
  {
    hide Handle, Fits, WithinCaps;
    var t := PipeApply(p, step);
    if step.Record? {
      RecordStep(p, b, iid);
    } else {
      assert Pending(t) == Pending(p);
    }
  }

  lemma RecordStep(p: Pipe, b: string, iid: string)
    requires Recordable(p) && PipeEnabled(p, Record) && b in p.state.desk.books
    ensures var t := PipeApply(p, Record);
            && Recordable(t) && b in t.state.desk.books
            && Projected(t, b, iid) == Projected(p, b, iid)
            && BookLimit(t.state, b, Limit.POSITION) == BookLimit(p.state, b, Limit.POSITION)
  {
    hide Handle, BookLimit, PendingQty, WellFormed, Recordable;
    var e, es := p.stage.event, Pending(p);
    assert es[0] == e && es[1..] == p.queue == Pending(PipeApply(p, Record));
    PendingFirst(es, b, iid);
    WhatMoves(p.state, PayloadOf(e), b, iid);
    assert IsFillOf(PayloadOf(e), b, iid) == IsFor(e, b, iid);
    RestRecordable(p);
  }

  lemma RestRecordable(p: Pipe)
    requires Recordable(p) && PipeEnabled(p, Record)
    ensures Recordable(PipeApply(p, Record))
  {
    hide Handle, SameRoster;
    var e, s := p.stage.event, p.state;
    HandleKeepsRoster(s, PayloadOf(e));
    forall f | f in p.queue
      ensures !f.OrderUpdateEvent? && WellFormed(Handle(s, PayloadOf(e)), PayloadOf(f))
    {
      assert f in Pending(p);
      StaysWellFormed(s, Handle(s, PayloadOf(e)), PayloadOf(f));
    }
  }

  lemma StaysWellFormed(s: State, t: State, e: LogEvent)
    requires SameRoster(s, t) && WellFormed(s, e)
    ensures WellFormed(t, e)
  {
  }

  function DrainLength(p: Pipe): nat {
    3 * |p.queue| + match p.stage case AtRest => 0 case Recording(_) => 2 case Reacting(_) => 1
  }

  function NextDrain(p: Pipe): PipeStep
    requires !(p.stage.AtRest? && p.queue == [])
  {
    match p.stage case AtRest => Take case Recording(_) => Record case Reacting(_) => Finish
  }

  /** The drain itself, with nothing placed on the way, is a path of the machine that ends at rest. */
  lemma {:induction false} DrainToRest(p: Pipe, b: string, iid: string) returns (ps: seq<Pipe>, steps: seq<PipeStep>)
    requires Recordable(p) && b in p.state.desk.books
    ensures PipePath(ps, steps) && ps[0] == p && forall k | 0 <= k < |steps| :: Drains(steps[k])
    ensures var q := ps[|steps|];
            && q.stage.AtRest? && q.queue == [] && b in q.state.desk.books
            && q.state.desk.books[b].PositionIn(iid).qty == Projected(p, b, iid)
            && BookLimit(q.state, b, Limit.POSITION) == BookLimit(p.state, b, Limit.POSITION)
    decreases DrainLength(p)
  {
    hide PipeApply, BookLimit, Handle;
    if p.stage.AtRest? && p.queue == [] {
      ps, steps := [p], [];
    } else {
      var step := NextDrain(p);
      NextDrainEnabled(p);
      DrainStep(p, step, b, iid);
      var rest, more := DrainToRest(PipeApply(p, step), b, iid);
      ps, steps := [p] + rest, [step] + more;
      PathCons(p, step, rest, more);
    }
  }

  lemma NextDrainEnabled(p: Pipe)
    requires Recordable(p) && !(p.stage.AtRest? && p.queue == [])
    ensures PipeEnabled(p, NextDrain(p)) && Drains(NextDrain(p))
    ensures DrainLength(PipeApply(p, NextDrain(p))) < DrainLength(p)
  {
    hide Handle, WellFormed;
    if p.stage.Recording? { assert Pending(p)[0] == p.stage.event; }
  }

  lemma PathCons(p: Pipe, step: PipeStep, ps: seq<Pipe>, steps: seq<PipeStep>)
    requires PipeEnabled(p, step) && PipePath(ps, steps) && ps[0] == PipeApply(p, step)
    ensures PipePath([p] + ps, [step] + steps)
  {
    hide PipeEnabled, PipeApply;
    var qs, more := [p] + ps, [step] + steps;
    forall i | 0 <= i < |more| ensures PipeEnabled(qs[i], more[i]) && qs[i + 1] == PipeApply(qs[i], more[i]) {
      if i > 0 { assert qs[i] == ps[i - 1] && more[i] == steps[i - 1] && qs[i + 1] == ps[i]; }
    }
  }

  /**
   * The exact condition.  The gate passes an order when what is folded plus the order is within the limit;
   * once the bus has drained the cap holds if and only if what is folded, all that waited and the order
   * are, so it holds for every order whose pair has nothing waiting.
   */
  lemma CapAfterDrainIff(p: Pipe, o: Order) returns (ps: seq<Pipe>, steps: seq<PipeStep>)
    requires Recordable(p) && |p.queue| < p.bound && PipeEnabled(p, Place(o)) && Approves(p.state, o)
    ensures PipePath(ps, steps) && ps[0] == p
    ensures steps != [] && steps[0] == Place(o) && forall k | 0 < k < |steps| :: Drains(steps[k])
    ensures var b, iid, q := o.bookId, o.instrumentId, ps[|steps|];
            var limit := p.state.desk.books[b].limits[Limit.POSITION];
            && q.stage.AtRest? && q.queue == [] && b in q.state.desk.books
            && q.state.desk.books[b].PositionIn(iid).qty == Projected(p, b, iid) + SignedDelta(o.side, o.qty)
            && BookLimit(q.state, b, Limit.POSITION) == [limit]
            && (BookWithinCap(q.state, b, iid) <==> Abs(Projected(p, b, iid) + SignedDelta(o.side, o.qty)) <= limit)
            && Abs(p.state.desk.books[b].PositionIn(iid).qty + SignedDelta(o.side, o.qty)) <= limit
            && (Fresh(p, o) ==> BookWithinCap(q.state, b, iid))
  {
    hide Handle, Approves, WellFormed;
    var b, iid, t := o.bookId, o.instrumentId, Placed(p, o);
    OrderWaits(p, o);
    ApprovedFits(p.state, o, MarketOf(p.state).Mark(iid));
    if Fresh(p, o) { NothingPending(Pending(p), b, iid); }
    hide Pending, PendingQty, Fresh;
    var rest, more := DrainToRest(t, b, iid);
    ps, steps := [p] + rest, [Place(o)] + more;
    PathCons(p, Place(o), rest, more);
    hide PipePath, PipeEnabled;
  }

  /** The fill of an approved order waits at the end of the queue. */
  lemma OrderWaits(p: Pipe, o: Order)
    requires Recordable(p) && |p.queue| < p.bound && Known(p.state, o) && LimitsSet(p.state, o.bookId) && Approves(p.state, o)
    ensures var t := Placed(p, o);
            && Recordable(t) && t.state == p.state && t.stage == p.stage && t.bound == p.bound && |t.queue| == |p.queue| + 1
            && Projected(t, o.bookId, o.instrumentId)
               == Projected(p, o.bookId, o.instrumentId) + SignedDelta(o.side, o.qty)
  {
    hide Approves, PendingQty, LimitsSet;
    var fill := PaperFill(o, MarketOf(p.state).Mark(o.instrumentId));
    assert Pending(Placed(p, o)) == Pending(p) + [fill];
    PendingSnoc(Pending(p), fill, o.bookId, o.instrumentId);
  }

  /**
   * Two orders for one book and instrument on one event, each approved by the gate: once the bus has
   * drained the cap holds if and only if both together are within the limit.
   */
  lemma TwoInFlight(p: Pipe, a: Order, o: Order) returns (ps: seq<Pipe>, steps: seq<PipeStep>)
    requires Recordable(p) && |p.queue| + 1 < p.bound && Fresh(p, a)
    requires PipeEnabled(p, Place(a)) && Approves(p.state, a) && PipeEnabled(p, Place(o)) && Approves(p.state, o)
    requires a.bookId == o.bookId && a.instrumentId == o.instrumentId
    ensures PipePath(ps, steps) && ps[0] == p
    ensures |steps| >= 2 && steps[0] == Place(a) && steps[1] == Place(o) && forall k | 1 < k < |steps| :: Drains(steps[k])
    ensures var b, iid, q := o.bookId, o.instrumentId, ps[|steps|];
            && q.stage.AtRest? && q.queue == [] && b in q.state.desk.books
            && BookLimit(q.state, b, Limit.POSITION) == BookLimit(p.state, b, Limit.POSITION)
            && (BookWithinCap(q.state, b, iid)
                <==> Abs(p.state.desk.books[b].PositionIn(iid).qty
                         + SignedDelta(a.side, a.qty) + SignedDelta(o.side, o.qty))
                     <= p.state.desk.books[b].limits[Limit.POSITION])
  {
    hide Handle, Approves, WellFormed;
    OrderWaits(p, a);
    NothingPending(Pending(p), a.bookId, a.instrumentId);
    hide Pending, PendingQty, Fresh;
    var t := Placed(p, a);
    var rest, more := CapAfterDrainIff(t, o);
    ps, steps := [p] + rest, [Place(a)] + more;
    PathCons(p, Place(a), rest, more);
    hide PipePath, PipeEnabled;
  }

  // ---- a run that breaks the cap ----

  /** As an engine starts: nothing held, nothing ticked, nobody halted, limits not negative. */
  ghost predicate JustStarted(s: State) {
    && IsInitial(s)
    && (forall l <- s.desk.limits :: s.desk.limits[l] >= 0.0)
    && (forall b <- s.desk.books :: LimitsSet(s, b)
          && forall l <- s.desk.books[b].limits :: s.desk.books[b].limits[l] >= 0.0)
  }

  /** Nothing has been traded and nothing has ticked; funding rates may be known. */
  predicate Untouched(s: State) { IsInitial(s.(fundingRates := map[])) }

  lemma NothingHeld(s: State, b: string)
    requires Untouched(s) && b in s.desk.books
    ensures BookNotional(s, s.desk.books[b]) == 0.0 == BookTotalPnl(s, s.desk.books[b])
    ensures DeskTotalPnl(s) == 0.0 == DeskGrossNotional(s)
  {
    var m := MarketOf(s);
    forall c | c in s.desk.books ensures NotionalOf(m, s.desk.books[c].positions) == 0.0 == TotalPnlOf(m, s.desk.books[c].positions) {
      EmptyPositions(m);
    }
    hide NotionalOf, TotalPnlOf;
    SumZero(BookTotals(m, s.desk.books));
    SumZero(BookNotionals(m, s.desk.books));
  }

  lemma EmptyPositions(m: Market)
    ensures NotionalOf(m, map[]) == 0.0 == TotalPnlOf(m, map[])
  {
    SumZero(Realized(map[]));
    SumZero(Funding(map[]));
    SumZero(Fees(map[]));
    SumZero(Unrealized(m, map[]));
    SumZero(Notionals(m, map[]));
  }

  lemma FirstPreview(s: State, o: Order)
    requires Untouched(s) && Known(s, o)
    ensures BuildOrderContext(s, o) == OrderContext(o, 0.0, o.SignedQty(), 0.0, 0.0, 0.0, 0.0)
  {
    hide BookNotional, BookTotalPnl, DeskTotalPnl, DeskGrossNotional;
    NothingHeld(s, o.bookId);
    FillAtZero(o.SignedQty(), s.instruments[o.instrumentId].Multiplier());
  }

  lemma FillAtZero(delta: real, multiplier: real)
    ensures var r := SimulateFill(0.0, 0.0, delta, 0.0, multiplier);
            && r.qty == delta && r.realizedDelta == 0.0
            && UnrealizedPnl(r.qty, r.entryPrice, 0.0, multiplier) == 0.0
            && UnrealizedPnl(0.0, 0.0, 0.0, multiplier) == 0.0
            && Notional(r.qty, 0.0, multiplier) == 0.0 == Notional(0.0, 0.0, multiplier)
  {
    FillCashFlow(0.0, 0.0, delta, 0.0, 0.0, multiplier);
  }

  /** A funding rate moves nothing while nothing is held. */
  lemma FundingBeforeTrading(s: State, iid: string)
    requires Untouched(s) && iid in s.instruments && s.desk.books != map[]
    ensures var t := Handle(s, FundingUpdate(iid, 0.0, 0));
            && t == s.(fundingRates := s.fundingRates[iid := 0.0]) && Untouched(t)
  {
    var t := Funded(s, iid, 0.0);
    assert t.desk.books == s.desk.books;
    var b :| b in s.desk.books;
    NothingHeld(t, b);
    forall c | c in t.desk.books ensures RaiseBookMark(MarketOf(t), t.desk.books[c]) == t.desk.books[c] {
      NothingHeld(t, c);
    }
    hide TotalPnlOf, NotionalOf, DeskTotalPnl;
    assert RaiseBookMarks(MarketOf(t), t.desk.books) == t.desk.books;
  }

  lemma FirstOrderApproved(s: State, o: Order)
    requires Untouched(s) && Known(s, o) && LimitsSet(s, o.bookId) && 0.0 < o.qty <= DEFAULT_MAX_ORDER_SIZE
    requires forall l <- s.desk.limits :: s.desk.limits[l] >= 0.0
    requires forall l <- s.desk.books[o.bookId].limits :: s.desk.books[o.bookId].limits[l] >= 0.0
    requires o.qty <= s.desk.books[o.bookId].limits[Limit.POSITION]
    ensures Approves(s, o)
  {
    hide BuildOrderContext, FirstResult, DefaultChecks;
    FirstPreview(s, o);
    SevenInOrder(s, BuildOrderContext(s, o), DEFAULT_MAX_ORDER_SIZE);
  }

  /**
   * Without that condition the cap fails, on a run from the very start: an order of more than half the
   * limit, placed twice on one event, is approved both times, and the drain leaves the book past its limit.
   */
  lemma TwoOrdersPerEventBreakTheCap(s: State, o: Order, bound: nat) returns (ps: seq<Pipe>, steps: seq<PipeStep>)
    requires JustStarted(s) && Known(s, o) && 0.0 < o.qty <= DEFAULT_MAX_ORDER_SIZE && bound >= 2
    requires o.qty <= s.desk.books[o.bookId].limits[Limit.POSITION] < 2.0 * o.qty
    ensures PipeRun(ps, steps) && ps[0] == Pipe(s, [], AtRest, bound) && WithinCaps(s)
    ensures |steps| >= 5 && steps[0].Market? && steps[3] == steps[4] == Place(o)
    ensures forall k | 0 < k < |steps| && k != 3 && k != 4 :: Drains(steps[k])
    ensures var q := ps[|steps|];
            q.stage.AtRest? && q.queue == [] && o.bookId in q.state.desk.books
            && BookLimit(q.state, o.bookId, Limit.POSITION) == BookLimit(s, o.bookId, Limit.POSITION)
            && !BookWithinCap(q.state, o.bookId, o.instrumentId)
  {
    hide Handle, Approves;
    var e := B.FundingEvent(o.instrumentId, 0.0, 0, 0);
    FundingBeforeTrading(s, o.instrumentId);
    var t := Handle(s, PayloadOf(e));
    FirstOrderApproved(t, o);
    var p0 := Pipe(s, [], AtRest, bound);
    var p1, p2 := p0.(queue := [e]), p0.(stage := Recording(e));
    var p3 := p0.(state := t, stage := Reacting(e));
    HeldCaps(s);
    assert Pending(p3) == [];
    var rest, more := TwoInFlight(p3, o, o);
    hide Approves, LimitsSet;
    PathCons(p2, Record, rest, more);
    PathCons(p1, Take, [p2] + rest, [Record] + more);
    PathCons(p0, PipeStep.Market(e), [p1] + ([p2] + rest), [Take] + ([Record] + more));
    ps, steps := [p0] + ([p1] + ([p2] + rest)), [PipeStep.Market(e)] + ([Take] + ([Record] + more));
    hide PipePath, PipeEnabled, PipeApply;
  }

  lemma HeldCaps(s: State)
    requires JustStarted(s)
    ensures WithinCaps(s)
  {
    forall b, iid | b in s.desk.books ensures BookWithinCap(s, b, iid) {
      assert LimitsSet(s, b);
    }
  }
}
