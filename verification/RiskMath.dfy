/** PnL arithmetic for a linear perpetual (hobo/risk/math.py), over exact reals. */
module RiskMath {
  import opened RiskModel

  function Abs(x: real): real { if x < 0.0 then -x else x }
  function Min(x: real, y: real): real { if x <= y then x else y }
  function Max(x: real, y: real): real { if x >= y then x else y }

  function Notional(qty: real, mark: real, multiplier: real): real {
    Abs(qty) * multiplier * mark
  }

  function UnrealizedPnl(qty: real, entryPrice: real, mark: real, multiplier: real): real {
    qty * multiplier * (mark - entryPrice)
  }

  datatype FillResult = FillResult(qty: real, entryPrice: real, realizedDelta: real)

  /** The fill simulation shared by the fold, which applies it, and the gate, which previews it. */
  function SimulateFill(qtyBefore: real, entryBefore: real, delta: real, fillPrice: real, multiplier: real): FillResult {
    var sameDirection := qtyBefore == 0.0 || (qtyBefore > 0.0) == (delta > 0.0);
    var newQty := qtyBefore + delta;
    if sameDirection then
      var newEntry :=
        if newQty != 0.0
        then (Abs(qtyBefore) * entryBefore + Abs(delta) * fillPrice) / Abs(newQty)
        else entryBefore;
      FillResult(newQty, newEntry, 0.0)
    else
      var closedAmount := Min(Abs(delta), Abs(qtyBefore));
      var closedSigned := (if qtyBefore > 0.0 then 1.0 else -1.0) * closedAmount;
      var realizedDelta := UnrealizedPnl(closedSigned, entryBefore, fillPrice, multiplier);
      var newEntry :=
        if Abs(delta) > Abs(qtyBefore) then fillPrice
        else if newQty == 0.0 then 0.0
        else entryBefore;
      FillResult(newQty, newEntry, realizedDelta)
  }

  /**
   * One fill never creates or destroys value: realized plus unrealized PnL moves by exactly the
   * cash flow of the traded quantity against the mark, in all of add, reduce, close and flip.
   */
  lemma FillCashFlow(qty: real, entry: real, delta: real, price: real, mark: real, multiplier: real)
    ensures var r := SimulateFill(qty, entry, delta, price, multiplier);
            && r.qty == qty + delta
            && r.realizedDelta + UnrealizedPnl(r.qty, r.entryPrice, mark, multiplier)
               == UnrealizedPnl(qty, entry, mark, multiplier) + multiplier * (delta * (mark - price))
  {
    var r := SimulateFill(qty, entry, delta, price, multiplier);
    EntryBalance(qty, entry, delta, price, multiplier);
    ScaleOut(multiplier, r.qty, mark, r.entryPrice);
    ScaleOut(multiplier, qty, mark, entry);
  }

  /** Cost basis: what the entry prices carry, plus what was realized, accounts for the traded value. */
  lemma EntryBalance(qty: real, entry: real, delta: real, price: real, multiplier: real)
    ensures var r := SimulateFill(qty, entry, delta, price, multiplier);
            r.realizedDelta == multiplier * (r.qty * r.entryPrice - qty * entry - delta * price)
  {
    var r := SimulateFill(qty, entry, delta, price, multiplier);
    if qty == 0.0 || (qty > 0.0) == (delta > 0.0) {
      if r.qty != 0.0 {
        var cost := Abs(qty) * entry + Abs(delta) * price;
        assert cost / Abs(r.qty) * Abs(r.qty) == cost;
        assert r.entryPrice * Abs(r.qty) == cost;
        assert r.qty * r.entryPrice == qty * entry + delta * price;
      }
    } else {
      var closed := (if qty > 0.0 then 1.0 else -1.0) * Min(Abs(delta), Abs(qty));
      ScaleOut(multiplier, closed, price, entry);
      if Abs(delta) > Abs(qty) {
        assert closed == qty;
        assert r.qty * r.entryPrice == qty * price + delta * price;
      } else {
        assert closed == -delta;
        if r.qty == 0.0 { assert delta == -qty; }
        assert r.qty * r.entryPrice == qty * entry + delta * entry;
      }
    }
  }

  lemma ScaleOut(multiplier: real, qty: real, high: real, low: real)
    ensures qty * multiplier * (high - low) == multiplier * (qty * high - qty * low)
  {
    assert qty * multiplier == multiplier * qty;
    assert multiplier * qty * (high - low) == multiplier * (qty * (high - low));
    assert qty * (high - low) == qty * high - qty * low;
  }
}
