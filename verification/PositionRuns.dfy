/**
 * What runs of fills do to one position: conservation of value, independence of fill order,
 * composition of partial fills, and where the entry price lies.
 */
module PositionRuns {
  import opened RiskModel
  import opened RiskMath

  /** The part of a position that fills determine. */
  datatype Holding = Holding(qty: real, entry: real, realized: real)
  datatype Trade = Trade(delta: real, price: real)

  const FLAT := Holding(0.0, 0.0, 0.0)

  function Step(h: Holding, t: Trade, multiplier: real): Holding {
    var r := SimulateFill(h.qty, h.entry, t.delta, t.price, multiplier);
    Holding(r.qty, r.entryPrice, h.realized + r.realizedDelta)
  }

  function Run(h: Holding, ts: seq<Trade>, multiplier: real): Holding {
    if ts == [] then h else Step(Run(h, ts[..|ts| - 1], multiplier), ts[|ts| - 1], multiplier)
  }

  /** Realized plus unrealized PnL at a mark. */
  function Worth(h: Holding, mark: real, multiplier: real): real {
    h.realized + UnrealizedPnl(h.qty, h.entry, mark, multiplier)
  }

  function Total<T>(ts: seq<T>, f: T -> real): real {
    if ts == [] then 0.0 else Total(ts[..|ts| - 1], f) + f(ts[|ts| - 1])
  }

  function Delta(t: Trade): real { t.delta }

  /** What was paid for the traded quantity, negative when it was received. */
  function Cost(t: Trade): real { t.delta * t.price }

  function MulBy(k: real, x: real): real { k * x }

  /** Value at the mark of what was traded, net of its cost. */
  function Gain(ts: seq<Trade>, mark: real): real { MulBy(mark, Total(ts, Delta)) - Total(ts, Cost) }

  lemma Distribute(k: real, x: real, y: real)
    ensures MulBy(k, x) + MulBy(k, y) == MulBy(k, x + y)
  {
  }

  lemma StepWorth(h: Holding, t: Trade, mark: real, multiplier: real)
    ensures Step(h, t, multiplier).qty == h.qty + Delta(t)
    ensures Worth(Step(h, t, multiplier), mark, multiplier)
            == Worth(h, mark, multiplier) + MulBy(multiplier, MulBy(mark, Delta(t)) - Cost(t))
  {
    FillCashFlow(h.qty, h.entry, t.delta, t.price, mark, multiplier);
    hide SimulateFill, UnrealizedPnl;
    assert t.delta * (mark - t.price) == mark * t.delta - t.delta * t.price;
  }

  /**
   * Over any run of fills the quantity is the sum of the signed fills, and PnL at any mark moves by
   * the value of that quantity at the mark less its cost, whatever was added, reduced, closed or flipped.
   */
  lemma {:induction false} CashFlowIdentity(h: Holding, ts: seq<Trade>, mark: real, multiplier: real)
    ensures Run(h, ts, multiplier).qty == h.qty + Total(ts, Delta)
    ensures Worth(Run(h, ts, multiplier), mark, multiplier)
            == Worth(h, mark, multiplier) + MulBy(multiplier, Gain(ts, mark))
  {
    if ts != [] {
      hide Step, Worth, MulBy, Cost;
      var prior, t := ts[..|ts| - 1], ts[|ts| - 1];
      CashFlowIdentity(h, prior, mark, multiplier);
      StepWorth(Run(h, prior, multiplier), t, mark, multiplier);
      Distribute(mark, Total(prior, Delta), Delta(t));
      Distribute(multiplier, Gain(prior, mark), MulBy(mark, Delta(t)) - Cost(t));
    }
  }

  /** From flat: total PnL is the multiplier times (quantity at the mark less what it cost). */
  lemma {:induction false} CashFlowFromFlat(ts: seq<Trade>, mark: real, multiplier: real)
    ensures var h := Run(FLAT, ts, multiplier);
            Worth(h, mark, multiplier) == MulBy(multiplier, MulBy(mark, h.qty) - Total(ts, Cost))
  {
    CashFlowIdentity(FLAT, ts, mark, multiplier);
    assert Worth(FLAT, mark, multiplier) == 0.0;
    hide Worth, MulBy, Run;
  }

  lemma {:induction false} TakeOut<T>(ts: seq<T>, i: nat, f: T -> real)
    requires i < |ts|
    ensures Total(ts, f) == Total(ts[..i] + ts[i + 1..], f) + f(ts[i])
  {
    var n := |ts| - 1;
    var rest := ts[..i] + ts[i + 1..];
    if i == n {
      assert rest == ts[..n];
    } else {
      TakeOut(ts[..n], i, f);
      assert rest[..n - 1] == ts[..n][..i] + ts[..n][i + 1..];
    }
  }

  lemma SameWithout<T>(prior: seq<T>, us: seq<T>, i: nat)
    requires i < |us| && multiset(prior + [us[i]]) == multiset(us)
    ensures multiset(prior) == multiset(us[..i] + us[i + 1..])
  {
    assert us == us[..i] + [us[i]] + us[i + 1..];
    assert multiset(prior) == multiset(us) - multiset{us[i]};
  }

  lemma {:induction false} TotalIgnoresOrder<T>(ts: seq<T>, us: seq<T>, f: T -> real)
    requires multiset(ts) == multiset(us)
    ensures Total(ts, f) == Total(us, f)
    decreases |ts|
  {
    if ts == [] {
      assert |multiset(us)| == |us|;
    } else {
      var prior, t := ts[..|ts| - 1], ts[|ts| - 1];
      assert ts == prior + [t];
      assert t in multiset(us);
      var i :| 0 <= i < |us| && us[i] == t;
      TakeOut(us, i, f);
      SameWithout(prior, us, i);
      TotalIgnoresOrder(prior, us[..i] + us[i + 1..], f);
    }
  }

  /** The same fills in any order end at the same quantity and the same PnL at every mark. */
  lemma {:induction false} FillOrderIrrelevant(h: Holding, ts: seq<Trade>, us: seq<Trade>, mark: real, multiplier: real)
    requires multiset(ts) == multiset(us)
    ensures Run(h, ts, multiplier).qty == Run(h, us, multiplier).qty
    ensures Worth(Run(h, ts, multiplier), mark, multiplier) == Worth(Run(h, us, multiplier), mark, multiplier)
  {
    hide Run, Worth, MulBy;
    TotalIgnoresOrder(ts, us, Delta);
    TotalIgnoresOrder(ts, us, Cost);
    CashFlowIdentity(h, ts, mark, multiplier);
    CashFlowIdentity(h, us, mark, multiplier);
  }

  // ---- partial fills ----

  predicate SameSign(x: real, y: real) { (x > 0.0 && y > 0.0) || (x < 0.0 && y < 0.0) }

  /** Filling in two parts at one price is filling at once, even when a part closes or flips the position. */
  lemma PartialFillsCompose(h: Holding, d1: real, d2: real, price: real, multiplier: real)
    requires SameSign(d1, d2)
    ensures Step(Step(h, Trade(d1, price), multiplier), Trade(d2, price), multiplier)
            == Step(h, Trade(d1 + d2, price), multiplier)
  {
    SplitEntry(h, d1, d2, price, multiplier);
    SplitRealized(h, d1, d2, price, multiplier);
  }

  /** At the trade price itself a fill changes no PnL, so the parts and the whole agree on it. */
  lemma SplitRealized(h: Holding, d1: real, d2: real, price: real, multiplier: real)
    requires SameSign(d1, d2)
    ensures var last := Step(Step(h, Trade(d1, price), multiplier), Trade(d2, price), multiplier);
            var whole := Step(h, Trade(d1 + d2, price), multiplier);
            last.qty == whole.qty && last.realized == whole.realized
  {
    var mid := Step(h, Trade(d1, price), multiplier);
    var last, whole := Step(mid, Trade(d2, price), multiplier), Step(h, Trade(d1 + d2, price), multiplier);
    SplitEntry(h, d1, d2, price, multiplier);
    StepAtPrice(h, d1, price, multiplier);
    StepAtPrice(mid, d2, price, multiplier);
    StepAtPrice(h, d1 + d2, price, multiplier);
    hide Step;
    assert last.qty == whole.qty && last.entry == whole.entry;
  }

  lemma StepAtPrice(h: Holding, d: real, price: real, multiplier: real)
    ensures Step(h, Trade(d, price), multiplier).qty == h.qty + d
    ensures Worth(Step(h, Trade(d, price), multiplier), price, multiplier) == Worth(h, price, multiplier)
  {
    StepWorth(h, Trade(d, price), price, multiplier);
  }

  lemma SplitEntry(h: Holding, d1: real, d2: real, price: real, multiplier: real)
    requires SameSign(d1, d2)
    ensures var mid := Step(h, Trade(d1, price), multiplier);
            Step(mid, Trade(d2, price), multiplier).entry == Step(h, Trade(d1 + d2, price), multiplier).entry
  {
    var mid := Step(h, Trade(d1, price), multiplier);
    if h.qty == 0.0 || SameSign(h.qty, d1) {
      AddingTwice(h, d1, d2, price, multiplier);
    } else {
      ReducingEntry(h, d1, price, multiplier);
      ReducingEntry(h, d1 + d2, price, multiplier);
      if Abs(d1) < Abs(h.qty) {
        ReducingEntry(mid, d2, price, multiplier);
      } else {
        ReopenedAt(mid, d2, price, multiplier);
      }
      hide Step;
    }
  }

  lemma AddingTwice(h: Holding, d1: real, d2: real, price: real, multiplier: real)
    requires SameSign(d1, d2) && (h.qty == 0.0 || SameSign(h.qty, d1))
    ensures Step(Step(h, Trade(d1, price), multiplier), Trade(d2, price), multiplier).entry
            == Step(h, Trade(d1 + d2, price), multiplier).entry
  {
    var mid := Step(h, Trade(d1, price), multiplier);
    AddingEntry(h, d1, price, multiplier);
    AddingEntry(mid, d2, price, multiplier);
    AddingEntry(h, d1 + d2, price, multiplier);
    Combine(Abs(d1), Abs(d2), price);
    hide Step, MulBy;
  }

  /** Trading against a position keeps its entry, clears it at flat, or restarts it at the trade price. */
  lemma ReducingEntry(h: Holding, d: real, price: real, multiplier: real)
    requires SameSign(h.qty, -d)
    ensures var next := Step(h, Trade(d, price), multiplier);
            && next.qty == h.qty + d
            && next.entry == if Abs(d) > Abs(h.qty) then price else if next.qty == 0.0 then 0.0 else h.entry
  {
    hide UnrealizedPnl;
  }

  /** Adding to a position averages the entry by size. */
  lemma AddingEntry(h: Holding, d: real, price: real, multiplier: real)
    requires d != 0.0 && (h.qty == 0.0 || SameSign(h.qty, d))
    ensures var next := Step(h, Trade(d, price), multiplier);
            && next.qty == h.qty + d && Abs(next.qty) == Abs(h.qty) + Abs(d)
            && SameSign(next.qty, d)
            && next.entry == (MulBy(Abs(h.qty), h.entry) + MulBy(Abs(d), price)) / Abs(next.qty)
            && MulBy(Abs(next.qty), next.entry) == MulBy(Abs(h.qty), h.entry) + MulBy(Abs(d), price)
  {
    var cost, size := Abs(h.qty) * h.entry + Abs(d) * price, Abs(h.qty) + Abs(d);
    assert Abs(h.qty + d) == size;
    assert size * (cost / size) == cost;
  }

  /** From flat, or from a position opened at the same price, further fills at that price keep it. */
  lemma ReopenedAt(mid: Holding, d: real, price: real, multiplier: real)
    requires d != 0.0
    requires mid.qty == 0.0 || (mid.entry == price && SameSign(mid.qty, d))
    ensures Step(mid, Trade(d, price), multiplier).entry == price
  {
    var size := Abs(mid.qty) + Abs(d);
    AddingEntry(mid, d, price, multiplier);
    hide Step;
    Combine(Abs(mid.qty), Abs(d), price);
    assert MulBy(Abs(mid.qty), mid.entry) == MulBy(Abs(mid.qty), price);
    Cancel(size, price);
  }

  // ---- entry price ----

  /** Prices of the fills that built the position now open: those since it last opened or flipped. */
  function BuiltAt(ts: seq<Trade>): seq<real> {
    if ts == [] then [] else
      var t, q := ts[|ts| - 1], Total(ts[..|ts| - 1], Delta);
      var prior := BuiltAt(ts[..|ts| - 1]);
      if t.delta == 0.0 then prior
      else if q + t.delta == 0.0 then []
      else if q == 0.0 then [t.price]
      else if (q > 0.0) == (t.delta > 0.0) then prior + [t.price]
      else if Abs(t.delta) > Abs(q) then [t.price]
      else prior
  }

  /** What one fill does to the entry price, by kind of fill. */
  lemma EntryAfter(h: Holding, t: Trade, lo: real, hi: real, multiplier: real)
    requires h.qty == 0.0 ==> h.entry == 0.0
    ensures var next := Step(h, t, multiplier);
            && next.qty == h.qty + t.delta
            && (next.qty == 0.0 ==> next.entry == 0.0)
            && (t.delta == 0.0 ==> next.entry == h.entry)
            && (h.qty == 0.0 && t.delta != 0.0 ==> next.entry == t.price)
            && (SameSign(h.qty, t.delta) && lo <= h.entry <= hi && lo <= t.price <= hi ==> lo <= next.entry <= hi)
            && (SameSign(h.qty, -t.delta) && Abs(t.delta) > Abs(h.qty) ==> next.entry == t.price)
            && (SameSign(h.qty, -t.delta) && Abs(t.delta) < Abs(h.qty) ==> next.entry == h.entry)
  {
    if t.delta == 0.0 {
      NothingTraded(h, t.price, multiplier);
      hide Step;
    } else if h.qty == 0.0 || SameSign(h.qty, t.delta) {
      AddingEntry(h, t.delta, t.price, multiplier);
      if h.qty == 0.0 {
        ReopenedAt(h, t.delta, t.price, multiplier);
      }
      hide Step;
      if lo <= h.entry <= hi && lo <= t.price <= hi {
        AverageBetween(Abs(h.qty), h.entry, Abs(t.delta), t.price, lo, hi);
      }
    } else {
      ReducingEntry(h, t.delta, t.price, multiplier);
      hide Step;
    }
  }

  lemma NothingTraded(h: Holding, price: real, multiplier: real)
    ensures var next := Step(h, Trade(0.0, price), multiplier);
            next.qty == h.qty && next.entry == h.entry
  {
    if h.qty != 0.0 { Cancel(Abs(h.qty), h.entry); }
  }

  lemma Cancel(size: real, price: real)
    requires size != 0.0
    ensures MulBy(size, price) / size == price
  {
  }

  lemma AverageBetween(a: real, x: real, b: real, y: real, lo: real, hi: real)
    requires a >= 0.0 && b >= 0.0 && a + b > 0.0 && lo <= x <= hi && lo <= y <= hi
    ensures lo <= (MulBy(a, x) + MulBy(b, y)) / (a + b) <= hi
  {
    Scale(a, lo, x);
    Scale(a, x, hi);
    Scale(b, lo, y);
    Scale(b, y, hi);
    hide MulBy;
    Combine(a, b, lo);
    Combine(a, b, hi);
    DivideBound(MulBy(a, x) + MulBy(b, y), a + b, lo, hi);
  }

  lemma Scale(k: real, x: real, y: real)
    requires k >= 0.0 && x <= y
    ensures MulBy(k, x) <= MulBy(k, y)
  {
    assert k * (y - x) >= 0.0;
  }

  lemma Combine(a: real, b: real, x: real)
    ensures MulBy(a + b, x) == MulBy(a, x) + MulBy(b, x)
  {
  }

  lemma DivideBound(cost: real, size: real, lo: real, hi: real)
    requires size > 0.0 && MulBy(size, lo) <= cost <= MulBy(size, hi)
    ensures lo <= cost / size <= hi
  {
    var mean := cost / size;
    assert size * mean == cost;
    assert size * (mean - lo) >= 0.0 && size * (hi - mean) >= 0.0;
  }

  lemma {:induction false} FlatHasNoEntry(ts: seq<Trade>, multiplier: real)
    ensures var h := Run(FLAT, ts, multiplier);
            && h.qty == Total(ts, Delta)
            && (h.qty == 0.0 ==> h.entry == 0.0 && BuiltAt(ts) == [])
            && (h.qty != 0.0 ==> BuiltAt(ts) != [])
  {
    if ts != [] {
      var prior, t := ts[..|ts| - 1], ts[|ts| - 1];
      FlatHasNoEntry(prior, multiplier);
      EntryAfter(Run(FLAT, prior, multiplier), t, 0.0, 0.0, multiplier);
      hide Step;
    }
  }

  /** A flat position has entry price zero; an open one lies between the prices that built it. */
  lemma {:induction false} EntryWithinBuildingPrices(ts: seq<Trade>, lo: real, hi: real, multiplier: real)
    requires forall i | 0 <= i < |BuiltAt(ts)| :: lo <= BuiltAt(ts)[i] <= hi
    ensures var h := Run(FLAT, ts, multiplier);
            if h.qty == 0.0 then h.entry == 0.0 && BuiltAt(ts) == []
            else BuiltAt(ts) != [] && lo <= h.entry <= hi
  {
    FlatHasNoEntry(ts, multiplier);
    if ts != [] && Run(FLAT, ts, multiplier).qty != 0.0 {
      var prior, t := ts[..|ts| - 1], ts[|ts| - 1];
      var h := Run(FLAT, prior, multiplier);
      FlatHasNoEntry(prior, multiplier);
      EntryAfter(h, t, lo, hi, multiplier);
      hide Step, Run;
      if h.qty == 0.0 || (SameSign(h.qty, -t.delta) && Abs(t.delta) > Abs(h.qty)) {
        assert BuiltAt(ts)[0] == t.price;
      } else {
        if SameSign(h.qty, t.delta) {
          assert BuiltAt(ts)[|BuiltAt(prior)|] == t.price;
        }
        assert BuiltAt(prior) <= BuiltAt(ts);
        EntryWithinBuildingPrices(prior, lo, hi, multiplier);
      }
    }
  }
}
