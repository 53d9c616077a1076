/**
 * The order path as objects: the risk engine over the live state (hobo/risk/gate/engine.py), the gateway
 * that logs, checks, logs and submits (hobo/core/gateway.py), and the strategy runner that routes events
 * and intents (hobo/core/strategy_runner.py).
 */
module Gateway {
  import opened Wrappers
  import opened RiskModel
  import opened RiskMath
  import opened RiskState
  import opened MapSums
  import opened Fold
  import opened Gate
  import opened LogWriting
  import opened StateStoring
  import Decimal
  import B = Bus

  method BookNotionalOf(state: LiveState, book: Book) returns (total: real)
    ensures total == NotionalOf(state.View(), book.positions)
  {
    total := SumValues(Notionals(state.View(), book.positions));
  }

  method DeskGrossNotionalOf(state: LiveState) returns (total: real)
    ensures total == DeskGrossNotional(state.Value())
  {
    hide NotionalOf;
    total := 0.0;
    var rest := state.books;
    ghost var m := state.View();
    while rest != map[]
      invariant total + Sum(BookNotionals(m, rest)) == Sum(BookNotionals(m, state.books))
      decreases |rest|
    {
      var b :| b in rest;
      var t := BookNotionalOf(state, rest[b]);
      NotionalsWithout(m, rest, b);
      total := total + t;
      rest := rest - {b};
    }
  }

  lemma NotionalsWithout(m: Market, books: map<string, Book>, b: string)
    requires b in books
    ensures Sum(BookNotionals(m, books)) == NotionalOf(m, books[b].positions) + Sum(BookNotionals(m, books - {b}))
  {
    hide NotionalOf;
    SumRemove(BookNotionals(m, books), b);
    assert BookNotionals(m, books - {b}) == BookNotionals(m, books) - {b};
  }

  /** The preview, computed from the live state without touching it. */
  method BuildContext(state: LiveState, order: Order) returns (ctx: OrderContext)
    requires Known(state.Value(), order)
    ensures ctx == BuildOrderContext(state.Value(), order)
  {
    hide SimulateFill, Notional, UnrealizedPnl, NotionalOf, TotalPnlOf;
    var book := state.books[order.bookId];
    var mark, multiplier := state.View().Mark(order.instrumentId), state.instruments[order.instrumentId].Multiplier();
    var pos := book.PositionIn(order.instrumentId);
    var r := SimulateFill(pos.qty, pos.avgEntryPrice, order.SignedQty(), mark, multiplier);
    var feesAndFunding := pos.fundingPnl - pos.feesPaid;
    var oldPnl := pos.realizedPnl + feesAndFunding + UnrealizedPnl(pos.qty, pos.avgEntryPrice, mark, multiplier);
    var newPnl := pos.realizedPnl + r.realizedDelta + feesAndFunding
                  + UnrealizedPnl(r.qty, r.entryPrice, mark, multiplier);
    var bookNotional := BookNotionalOf(state, book);
    var bookPnl := state.BookTotalPnl(book);
    var deskGross := DeskGrossNotionalOf(state);
    var deskPnl := state.DeskTotalPnl();
    var newBookNotional := bookNotional - Notional(pos.qty, mark, multiplier) + Notional(r.qty, mark, multiplier);
    var hypotheticalBookPnl := bookPnl - oldPnl + newPnl;
    ctx := OrderContext(order, mark, r.qty, newBookNotional, hypotheticalBookPnl,
                        deskGross - bookNotional + newBookNotional, deskPnl - bookPnl + hypotheticalBookPnl);
  }

  class RiskEngine {
    const checks: seq<Rule>

    constructor (checks: seq<Rule>)
      ensures this.checks == checks
    {
      this.checks := checks;
    }

    /** Runs the rules in order; the first reject decides. */
    method Check(state: LiveState, order: Order) returns (d: GateDecision)
      requires Known(state.Value(), order) && LimitsSet(state.Value(), order.bookId)
      ensures d == Gate.Check(checks, state.Value(), order)
    {
      hide BuildOrderContext, Evaluate;
      var ctx := BuildContext(state, order);
      ContextIsForOrder(state.Value(), order);
      for i := 0 to |checks|
        invariant FirstResult(checks[i..], state.Value(), ctx) == FirstResult(checks, state.Value(), ctx)
      {
        assert checks[i..][1..] == checks[i + 1..];
        var result := Evaluate(checks[i], state.Value(), ctx);
        if result.Rejected? {
          return GateDecision(order.orderId, false, result.reason, result.detail);
        }
      }
      return GateDecision(order.orderId, true, NO_REJECT, NoDetail);
    }
  }

  lemma ContextIsForOrder(s: State, order: Order)
    requires Known(s, order)
    ensures BuildOrderContext(s, order).order == order
  {
  }

  function OrderIdOf(bookId: string, n: nat): string { bookId + "-" + Decimal.Text(n) }

  /** Order ids of one process never repeat: the number after the last dash is the order's own, the rest the book. */
  lemma OrderIdsDiffer(a: string, m: nat, b: string, n: nat)
    requires a + "-" + Decimal.Text(m) == b + "-" + Decimal.Text(n)
    ensures a == b && m == n
  {
    var x, y := Decimal.Text(m), Decimal.Text(n);
    DashLater(a, x, b, y);
    DashLater(b, y, a, x);
    assert forall i | 0 <= i < |x| :: Decimal.IsDigit(x[i]);
    assert forall i | 0 <= i < |y| :: Decimal.IsDigit(y[i]);
    var id := a + "-" + x;
    assert id[|a| + 1..] == x && id[..|a|] == a && (b + "-" + y)[|b| + 1..] == y && (b + "-" + y)[..|b|] == b;
    Decimal.TextDetermines(m, n);
  }

  lemma DashLater(a: string, x: string, b: string, y: string)
    requires a + "-" + x == b + "-" + y
    ensures |x| < |y| ==> '-' in y
  {
    if |x| < |y| {
      assert (b + "-" + y)[|a|] == (a + "-" + x)[|a|] == '-';
      assert y[|a| - |b| - 1] == '-';
    }
  }

  function BuildOrder(bookId: string, n: nat, iid: string, side: Side, qty: real, tsNs: int, orderType: string): Order {
    Order(OrderIdOf(bookId, n), bookId, iid, side, qty, tsNs, orderType)
  }

  function RequestOf(o: Order): LogEvent {
    OrderRequest(o.orderId, o.bookId, o.instrumentId, o.side, o.qty, o.orderType)
  }

  function DecisionOf(o: Order, d: GateDecision): LogEvent {
    GateDecisionLog(o.orderId, o.bookId, d.approved, d.reason, d.detail)
  }

  /** The audit record of an order does not change what the gate sees. */
  lemma CheckIgnoresAudit(rules: seq<Rule>, s: State, order: Order, n: int)
    requires Known(s, order) && LimitsSet(s, order.bookId)
    ensures Gate.Check(rules, s.(lastSeq := n), order) == Gate.Check(rules, s, order)
  {
    hide FirstResult, SimulateFill;
    assert BuildOrderContext(s.(lastSeq := n), order) == BuildOrderContext(s, order);
    FirstResultIgnoresSeq(rules, s, BuildOrderContext(s, order), n);
  }

  lemma {:induction false} FirstResultIgnoresSeq(rules: seq<Rule>, s: State, ctx: OrderContext, n: int)
    requires LimitsSet(s, ctx.order.bookId)
    ensures FirstResult(rules, s.(lastSeq := n), ctx) == FirstResult(rules, s, ctx)
    decreases |rules|
  {
    if rules != [] {
      FirstResultIgnoresSeq(rules[1..], s, ctx, n);
    }
  }

  class OrderGateway {
    const store: StateStore
    const risk: RiskEngine
    var orderSeq: nat

    constructor (store: StateStore, risk: RiskEngine)
      ensures this.store == store && this.risk == risk && orderSeq == 0
    {
      this.store, this.risk, orderSeq := store, risk, 0;
    }

    /**
     * Logs the caller's request, asks the gate, logs its decision, and submits the same order at the mark
     * exactly when approved.  The id is the book's id, a dash and the decimal text of the order's number.
     * The verdict is the one the state before the call deserves, and the risk state itself does not move.
     */
    method Place(bookId: string, iid: string, side: Side, qty: real, orderType: string, tsNs: int)
      returns (d: GateDecision, submitted: Option<(Order, real)>)
      requires store.Valid()
      requires bookId in store.state.books && iid in store.state.instruments && LimitsSet(store.state.Value(), bookId)
      requires var id := bookId + "-" + Decimal.Text(orderSeq + 1);
               var d := Gate.Check(risk.checks, store.state.Value(), Order(id, bookId, iid, side, qty, tsNs, orderType));
               && store.writer.codec.Encodes(
                    Envelope(store.writer.lastSeq + 1, tsNs, OrderRequest(id, bookId, iid, side, qty, orderType)))
               && store.writer.codec.Encodes(
                    Envelope(store.writer.lastSeq + 2, tsNs, GateDecisionLog(id, bookId, d.approved, d.reason, d.detail)))
      modifies this, store.state, store.writer, store.writer.file, store.writer.file.data
      ensures store.Valid() && orderSeq == old(orderSeq) + 1
      ensures d.orderId == bookId + "-" + Decimal.Text(orderSeq)
      ensures d == old(Gate.Check(risk.checks, store.state.Value(),
                Order(bookId + "-" + Decimal.Text(orderSeq + 1), bookId, iid, side, qty, tsNs, orderType)))
      ensures store.writer.sys.landed == old(store.writer.sys.landed)
                + [Envelope(old(store.writer.lastSeq) + 1, tsNs,
                            OrderRequest(d.orderId, bookId, iid, side, qty, orderType))]
                + [Envelope(old(store.writer.lastSeq) + 2, tsNs,
                            GateDecisionLog(d.orderId, bookId, d.approved, d.reason, d.detail))]
      ensures store.state.Value() == old(store.state.Value()).(lastSeq := old(store.writer.lastSeq) + 2)
      ensures d.approved ==>
        submitted == Some((Order(d.orderId, bookId, iid, side, qty, tsNs, orderType),
                           if iid in store.state.marks then store.state.marks[iid] else 0.0))
      ensures !d.approved ==> submitted == None
    {
      hide LogWriter.Valid, FoldAll, Gate.Check, RaiseHighWaterMarks, Trade, Funded, ChangeLimit, SetSwitch, Decimal.Text;
      ghost var before := store.state.Value();
      orderSeq := orderSeq + 1;
      var order := BuildOrder(bookId, orderSeq, iid, side, qty, tsNs, orderType);
      ghost var n := store.writer.lastSeq;
      var first := store.Record(RequestOf(order), tsNs);
      CheckIgnoresAudit(risk.checks, before, order, n + 1);
      DecidesOn(risk.checks, before, order);
      d := risk.Check(store.state, order);
      var second := store.Record(DecisionOf(order, d), tsNs);
      submitted := if d.approved then Some((order, store.state.View().Mark(iid))) else None;
    }
  }

  lemma DecidesOn(rules: seq<Rule>, s: State, order: Order)
    requires Known(s, order) && LimitsSet(s, order.bookId)
    ensures Gate.Check(rules, s, order).orderId == order.orderId
  {
    hide FirstResult, SimulateFill;
  }

  // ---- the strategy runner ----

  datatype Action =
    | PlaceOrder(instrumentId: string, side: Side, qty: real, orderType: string)
    | CancelOrder(orderId: string)

  /** A gateway call the runner makes. */
  datatype Intent =
    | Placing(bookId: string, instrumentId: string, side: Side, qty: real, orderType: string)
    | Cancelling(orderId: string)

  function IntentOf(bookId: string, a: Action): Intent {
    match a
    case PlaceOrder(iid, side, qty, t) => Placing(bookId, iid, side, qty, t)
    case CancelOrder(id) => Cancelling(id)
  }

  function IntentsOf(bookId: string, actions: seq<Action>): seq<Intent> {
    seq(|actions|, i requires 0 <= i < |actions| => IntentOf(bookId, actions[i]))
  }

  /** A strategy decides from the event and the state it is shown. */
  type Strategy = (B.Event, State) -> seq<Action>

  function Placings(intents: seq<Intent>): nat {
    if intents == [] then 0 else Placings(intents[..|intents| - 1]) + if intents[|intents| - 1].Placing? then 1 else 0
  }

  /** The live state once these gateway calls are made: each order leaves two audit records, nothing else. */
  function Audited(s: State, intents: seq<Intent>): State { s.(lastSeq := s.lastSeq + 2 * Placings(intents)) }

  /** Strategies in order, each shown the state the earlier ones' orders leave, books the event is none of skipped. */
  function Intents(e: B.Event, strategies: seq<(string, Strategy)>, s: State): seq<Intent> {
    if strategies == [] then [] else
      var prior, (bookId, strategy) := Intents(e, strategies[..|strategies| - 1], s), strategies[|strategies| - 1];
      if B.BelongsToOtherBook(e, bookId) then prior
      else prior + IntentsOf(bookId, strategy(e, Audited(s, prior)))
  }

  lemma PlacingsConcat(a: seq<Intent>, i: Intent)
    ensures Placings(a + [i]) == Placings(a) + if i.Placing? then 1 else 0
  {
    assert (a + [i])[..|a|] == a;
  }

  /** One strategy's actions in order; every order moves the log on by two. */
  method Act(bookId: string, actions: seq<Action>, prior: seq<Intent>, s: State, at: int)
    returns (intents: seq<Intent>, seqNo: int)
    requires at == Audited(s, prior).lastSeq
    ensures intents == prior + IntentsOf(bookId, actions) && seqNo == Audited(s, intents).lastSeq
  {
    hide Placings;
    intents, seqNo := prior, at;
    for j := 0 to |actions|
      invariant intents == prior + IntentsOf(bookId, actions[..j]) && seqNo == Audited(s, intents).lastSeq
    {
      var intent := IntentOf(bookId, actions[j]);
      assert IntentsOf(bookId, actions[..j + 1]) == IntentsOf(bookId, actions[..j]) + [intent];
      PlacingsConcat(intents, intent);
      intents := intents + [intent];
      seqNo := if intent.Placing? then seqNo + 2 else seqNo;
    }
    assert actions[..|actions|] == actions;
  }

  /** The runner's loops; the state it shows moves on as orders are placed. */
  method HandleEvent(e: B.Event, strategies: seq<(string, Strategy)>, s: State) returns (intents: seq<Intent>)
    ensures intents == Intents(e, strategies, s)
  {
    hide IntentsOf;
    intents := [];
    var seqNo := s.lastSeq;
    for i := 0 to |strategies|
      invariant intents == Intents(e, strategies[..i], s) && seqNo == Audited(s, intents).lastSeq
    {
      assert strategies[..i + 1][..i] == strategies[..i];
      var (bookId, strategy) := strategies[i];
      if !B.BelongsToOtherBook(e, bookId) {
        assert s.(lastSeq := seqNo) == Audited(s, intents);
        intents, seqNo := Act(bookId, strategy(e, s.(lastSeq := seqNo)), intents, s, seqNo);
      }
    }
    assert strategies[..|strategies|] == strategies;
  }

  /** The gateway call an action asks for, the strategy's own book attached. */
  predicate Carries(intent: Intent, bookId: string, a: Action) {
    match a
    case PlaceOrder(iid, side, qty, orderType) =>
      intent.Placing? && intent.bookId == bookId && intent.instrumentId == iid
      && intent.side == side && intent.qty == qty && intent.orderType == orderType
    case CancelOrder(id) => intent.Cancelling? && intent.orderId == id
  }

  lemma ActionsCarried(bookId: string, actions: seq<Action>)
    ensures |IntentsOf(bookId, actions)| == |actions|
    ensures forall j | 0 <= j < |actions| :: Carries(IntentsOf(bookId, actions)[j], bookId, actions[j])
  {
  }

  /** Call by call: strategy k adds its actions in order, each as it asked; one whose book the event is not for adds none. */
  lemma CallsAsAsked(e: B.Event, strategies: seq<(string, Strategy)>, s: State, k: nat)
    requires k < |strategies|
    ensures var before, after := Intents(e, strategies[..k], s), Intents(e, strategies[..k + 1], s);
            var (bookId, strategy) := strategies[k];
            var actions := strategy(e, s.(lastSeq := s.lastSeq + 2 * Placings(before)));
            if (e.FillEvent? || e.OrderUpdateEvent?) && e.bookId != bookId then after == before
            else
              && |after| == |before| + |actions| && after[..|before|] == before
              && forall j | 0 <= j < |actions| :: Carries(after[|before| + j], bookId, actions[j])
  {
    hide Placings, Carries, IntentsOf;
    assert strategies[..k + 1][..k] == strategies[..k];
    var before := Intents(e, strategies[..k], s);
    var (bookId, strategy) := strategies[k];
    ActionsCarried(bookId, strategy(e, Audited(s, before)));
  }

  /** A book's own fills and order updates never reach another book's strategy. */
  lemma {:induction false} NoCrossTalk(e: B.Event, strategies: seq<(string, Strategy)>, s: State)
    requires e.FillEvent? || e.OrderUpdateEvent?
    ensures forall i | 0 <= i < |Intents(e, strategies, s)| ::
      Intents(e, strategies, s)[i].Placing? ==> Intents(e, strategies, s)[i].bookId == e.bookId
  {
    if strategies != [] {
      NoCrossTalk(e, strategies[..|strategies| - 1], s);
    }
  }

  function Independent(e: B.Event, strategies: seq<(string, Strategy)>, s: State): seq<Intent> {
    if strategies == [] then [] else
      var prior, (bookId, strategy) := Independent(e, strategies[..|strategies| - 1], s), strategies[|strategies| - 1];
      if B.BelongsToOtherBook(e, bookId) then prior else prior + IntentsOf(bookId, strategy(e, s))
  }

  /**
   * No strategy sees what the others have just ordered: as long as none reads the sequence number, all answer
   * as if each had been asked alone on the state the event left.
   */
  lemma {:induction false} NoneSeesOrdersInFlight(e: B.Event, strategies: seq<(string, Strategy)>, s: State)
    requires forall i, n | 0 <= i < |strategies| :: strategies[i].1(e, s.(lastSeq := n)) == strategies[i].1(e, s)
    ensures Intents(e, strategies, s) == Independent(e, strategies, s)
  {
    if strategies != [] {
      var front, last := strategies[..|strategies| - 1], strategies[|strategies| - 1];
      assert forall i | 0 <= i < |front| :: front[i] == strategies[i];
      NoneSeesOrdersInFlight(e, front, s);
      assert last.1(e, Audited(s, Intents(e, front, s))) == last.1(e, s);
    }
  }
}
