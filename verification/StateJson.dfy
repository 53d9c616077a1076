/**
 * The snapshot encoding of the risk state: nested dictionaries (`to_dict`/`from_dict` in hobo/risk/state.py
 * and hobo/risk/model/portfolio.py).  None is where the source raises on a missing key or a bad value.
 */
module StateJson {
  import opened Wrappers
  import opened RiskModel

  datatype Json =
    | JNum(num: real)
    | JInt(n: int)
    | JStr(str: string)
    | JBool(flag: bool)
    | JObj(fields: map<string, Json>)

  function Num(j: Json, key: string): Option<real> {
    if j.JObj? && key in j.fields && j.fields[key].JNum? then Some(j.fields[key].num) else None
  }
  function Int(j: Json, key: string): Option<int> {
    if j.JObj? && key in j.fields && j.fields[key].JInt? then Some(j.fields[key].n) else None
  }
  function Str(j: Json, key: string): Option<string> {
    if j.JObj? && key in j.fields && j.fields[key].JStr? then Some(j.fields[key].str) else None
  }
  function Bool(j: Json, key: string): Option<bool> {
    if j.JObj? && key in j.fields && j.fields[key].JBool? then Some(j.fields[key].flag) else None
  }
  function Sub(j: Json, key: string): Json {
    if j.JObj? && key in j.fields then j.fields[key] else JBool(false)
  }

  /** A dictionary comprehension over a dictionary, and the one that reads it back. */
  function ToObj<V>(m: map<string, V>, f: V -> Json): Json { JObj(map k | k in m :: f(m[k])) }

  function FromObj<V>(j: Json, g: Json -> Option<V>): Option<map<string, V>> {
    if j.JObj? && (forall k <- j.fields :: g(j.fields[k]).Some?)
    then Some(map k | k in j.fields :: g(j.fields[k]).value)
    else None
  }

  lemma ObjRoundTrip<V(!new)>(m: map<string, V>, f: V -> Json, g: Json -> Option<V>)
    requires forall v :: g(f(v)) == Some(v)
    ensures FromObj(ToObj(m, f), g) == Some(m)
  {
    var j := ToObj(m, f);
    assert forall k <- m :: g(j.fields[k]) == Some(m[k]);
    assert (map k | k in j.fields :: g(j.fields[k]).value) == m;
  }

  // ---- leaves ----

  function NumToJson(x: real): Json { JNum(x) }
  function NumFromJson(j: Json): Option<real> { if j.JNum? then Some(j.num) else None }
  function IntToJson(x: int): Json { JInt(x) }
  function IntFromJson(j: Json): Option<int> { if j.JInt? then Some(j.n) else None }

  function LimitName(l: Limit): string {
    match l case NOTIONAL => "NOTIONAL" case DRAWDOWN => "DRAWDOWN" case POSITION => "POSITION"
  }

  function LimitNamed(name: string): Option<Limit> {
    if name == "NOTIONAL" then Some(Limit.NOTIONAL)
    else if name == "DRAWDOWN" then Some(Limit.DRAWDOWN)
    else if name == "POSITION" then Some(Limit.POSITION)
    else None
  }

  const ALL_LIMITS := {Limit.NOTIONAL, Limit.DRAWDOWN, Limit.POSITION}

  lemma LimitNames(l: Limit)
    ensures LimitNamed(LimitName(l)) == Some(l) && l in ALL_LIMITS
  {
    if l.DRAWDOWN? { assert "DRAWDOWN"[0] != "NOTIONAL"[0]; }
    if l.POSITION? { assert "POSITION"[0] != "NOTIONAL"[0] && "POSITION"[0] != "DRAWDOWN"[0]; }
  }

  /** Keyed by the limits' names. */
  function LimitsToDict(limits: map<Limit, real>): Json {
    var names := set l | l in limits :: LimitName(l);
    JObj(map name | name in names && LimitNamed(name).Some? && LimitNamed(name).value in limits
           :: JNum(limits[LimitNamed(name).value]))
  }

  function LimitsFromDict(j: Json): Option<map<Limit, real>> {
    if j.JObj? && (forall name <- j.fields :: LimitNamed(name).Some? && j.fields[name].JNum?)
    then Some(map l | l in ALL_LIMITS && LimitName(l) in j.fields && j.fields[LimitName(l)].JNum?
                :: j.fields[LimitName(l)].num)
    else None
  }

  lemma LimitsRoundTrip(limits: map<Limit, real>)
    ensures LimitsFromDict(LimitsToDict(limits)) == Some(limits)
  {
    forall l: Limit ensures LimitNamed(LimitName(l)) == Some(l) && l in ALL_LIMITS { LimitNames(l); }
    hide LimitName, LimitNamed, ALL_LIMITS;
    var j := LimitsToDict(limits);
    assert forall l <- limits :: LimitName(l) in j.fields && j.fields[LimitName(l)] == JNum(limits[l]);
    assert LimitsFromDict(j).value == limits;
  }

  // ---- position, book, desk ----

  function PositionToDict(p: Position): Json {
    JObj(map["instrument_id" := JStr(p.instrumentId), "qty" := JNum(p.qty),
             "avg_entry_price" := JNum(p.avgEntryPrice), "realized_pnl" := JNum(p.realizedPnl),
             "funding_pnl" := JNum(p.fundingPnl), "fees_paid" := JNum(p.feesPaid)])
  }

  function PositionFromDict(j: Json): Option<Position> {
    match (Str(j, "instrument_id"), Num(j, "qty"), Num(j, "avg_entry_price"),
           Num(j, "realized_pnl"), Num(j, "funding_pnl"), Num(j, "fees_paid"))
    case (Some(id), Some(q), Some(e), Some(r), Some(f), Some(x)) => Some(Position(id, q, e, r, f, x))
    case _ => None
  }

  function BookToDict(b: Book): Json {
    JObj(map["book_id" := JStr(b.bookId), "limits" := LimitsToDict(b.limits),
             "positions" := ToObj(b.positions, PositionToDict),
             "high_water_mark_usdt" := JNum(b.highWaterMark), "kill_switch" := JBool(b.killSwitch)])
  }

  function BookFromDict(j: Json): Option<Book> {
    match (Str(j, "book_id"), LimitsFromDict(Sub(j, "limits")), FromObj(Sub(j, "positions"), PositionFromDict),
           Num(j, "high_water_mark_usdt"), Bool(j, "kill_switch"))
    case (Some(id), Some(l), Some(ps), Some(h), Some(k)) => Some(Book(id, l, ps, h, k))
    case _ => None
  }

  lemma BookRoundTrip(b: Book)
    ensures BookFromDict(BookToDict(b)) == Some(b)
  {
    hide LimitsToDict, LimitsFromDict, FromObj, ToObj;
    LimitsRoundTrip(b.limits);
    PositionsRoundTrip();
    ObjRoundTrip(b.positions, PositionToDict, PositionFromDict);
  }

  lemma PositionsRoundTrip()
    ensures forall p :: PositionFromDict(PositionToDict(p)) == Some(p)
  {
  }

  function DeskToDict(d: Desk): Json {
    JObj(map["desk_id" := JStr(d.deskId), "limits" := LimitsToDict(d.limits),
             "books" := ToObj(d.books, BookToDict), "high_water_mark_usdt" := JNum(d.highWaterMark),
             "kill_switch" := JBool(d.killSwitch), "kill_switch_reason" := JStr(d.killSwitchReason)])
  }

  function DeskFromDict(j: Json): Option<Desk> {
    match (Str(j, "desk_id"), LimitsFromDict(Sub(j, "limits")), FromObj(Sub(j, "books"), BookFromDict),
           Num(j, "high_water_mark_usdt"), Bool(j, "kill_switch"), Str(j, "kill_switch_reason"))
    case (Some(id), Some(l), Some(bs), Some(h), Some(k), Some(r)) => Some(Desk(id, l, bs, h, k, r))
    case _ => None
  }

  lemma DeskRoundTrip(d: Desk)
    ensures DeskFromDict(DeskToDict(d)) == Some(d)
  {
    hide LimitsToDict, LimitsFromDict, FromObj, ToObj, BookToDict, BookFromDict;
    LimitsRoundTrip(d.limits);
    forall b { BookRoundTrip(b); }
    ObjRoundTrip(d.books, BookToDict, BookFromDict);
  }

  // ---- instrument and state ----

  function InstrumentToDict(i: Instrument): Json {
    JObj(map["instrument_id" := JStr(i.instrumentId), "ct_val" := JNum(i.ctVal), "ct_val_ccy" := JStr(i.ctValCcy),
             "ct_mult" := JNum(i.ctMult), "tick_sz" := JNum(i.tickSz), "lot_sz" := JNum(i.lotSz),
             "min_sz" := JNum(i.minSz), "max_leverage" := JNum(i.maxLeverage), "settle_ccy" := JStr(i.settleCcy),
             "maintenance_margin_rate" := JNum(i.maintenanceMarginRate), "contract_type" := JStr(i.contractType)])
  }

  function InstrumentFromDict(j: Json): Option<Instrument> {
    var texts := (Str(j, "instrument_id"), Str(j, "ct_val_ccy"), Str(j, "settle_ccy"), Str(j, "contract_type"));
    var sizes := (Num(j, "ct_val"), Num(j, "ct_mult"), Num(j, "tick_sz"), Num(j, "lot_sz"),
                  Num(j, "min_sz"), Num(j, "max_leverage"), Num(j, "maintenance_margin_rate"));
    match (texts, sizes)
    case ((Some(id), Some(ccy), Some(settle), Some(kind)),
          (Some(v), Some(m), Some(t), Some(l), Some(s), Some(x), Some(r))) =>
      Some(Instrument(id, v, ccy, m, t, l, s, x, settle, r, kind))
    case _ => None
  }

  lemma InstrumentRoundTrip(i: Instrument)
    ensures InstrumentFromDict(InstrumentToDict(i)) == Some(i)
  {
  }

  lemma InstrumentsRoundTrip()
    ensures forall i :: InstrumentFromDict(InstrumentToDict(i)) == Some(i)
  {
    hide InstrumentFromDict, InstrumentToDict;
    forall i { InstrumentRoundTrip(i); }
  }

  function StateToDict(s: State): Json {
    JObj(map["instruments" := ToObj(s.instruments, InstrumentToDict), "desk" := DeskToDict(s.desk),
             "marks" := ToObj(s.marks, NumToJson), "mark_ts_ns" := ToObj(s.markTsNs, IntToJson),
             "funding_rates" := ToObj(s.fundingRates, NumToJson),
             "last_seq" := JInt(s.lastSeq), "feed_stale" := JBool(s.feedStale)])
  }

  /** Snapshots written before timestamps were kept have no `mark_ts_ns`: it reads as empty. */
  function MarkTimes(j: Json): Option<map<string, int>> {
    if j.JObj? && "mark_ts_ns" !in j.fields then Some(map[]) else FromObj(Sub(j, "mark_ts_ns"), IntFromJson)
  }

  function StateFromDict(j: Json): Option<State> {
    match (FromObj(Sub(j, "instruments"), InstrumentFromDict), DeskFromDict(Sub(j, "desk")),
           FromObj(Sub(j, "marks"), NumFromJson), MarkTimes(j),
           FromObj(Sub(j, "funding_rates"), NumFromJson), Int(j, "last_seq"), Bool(j, "feed_stale"))
    case (Some(specs), Some(d), Some(m), Some(t), Some(f), Some(n), Some(stale)) => Some(State(specs, d, m, t, f, n, stale))
    case _ => None
  }

  /** Writing a state to dictionaries and reading it back gives the same state. */
  lemma StateRoundTrip(s: State)
    ensures StateFromDict(StateToDict(s)) == Some(s)
  {
    hide FromObj, ToObj, DeskToDict, DeskFromDict, InstrumentToDict, InstrumentFromDict;
    DeskRoundTrip(s.desk);
    InstrumentsRoundTrip();
    ObjRoundTrip(s.instruments, InstrumentToDict, InstrumentFromDict);
    ObjRoundTrip(s.marks, NumToJson, NumFromJson);
    ObjRoundTrip(s.markTsNs, IntToJson, IntFromJson);
    ObjRoundTrip(s.fundingRates, NumToJson, NumFromJson);
  }

  // ---- the keys a snapshot uses, and what each holds ----

  lemma StateKeys(s: State)
    ensures var j := StateToDict(s);
            && j.JObj? && Int(j, "last_seq") == Some(s.lastSeq) && Bool(j, "feed_stale") == Some(s.feedStale)
            && FromObj(Sub(j, "marks"), NumFromJson) == Some(s.marks)
            && FromObj(Sub(j, "mark_ts_ns"), IntFromJson) == Some(s.markTsNs)
            && FromObj(Sub(j, "funding_rates"), NumFromJson) == Some(s.fundingRates)
            && DeskFromDict(Sub(j, "desk")) == Some(s.desk)
  {
    hide FromObj, ToObj, DeskToDict, DeskFromDict, InstrumentToDict;
    DeskRoundTrip(s.desk);
    ObjRoundTrip(s.marks, NumToJson, NumFromJson);
    ObjRoundTrip(s.markTsNs, IntToJson, IntFromJson);
    ObjRoundTrip(s.fundingRates, NumToJson, NumFromJson);
  }

  lemma DeskKeys(d: Desk)
    ensures var j := DeskToDict(d);
            && Str(j, "desk_id") == Some(d.deskId) && LimitsFromDict(Sub(j, "limits")) == Some(d.limits)
            && FromObj(Sub(j, "books"), BookFromDict) == Some(d.books)
            && Num(j, "high_water_mark_usdt") == Some(d.highWaterMark)
            && Bool(j, "kill_switch") == Some(d.killSwitch) && Str(j, "kill_switch_reason") == Some(d.killSwitchReason)
  {
    hide FromObj, ToObj, LimitsToDict, LimitsFromDict, BookToDict, BookFromDict;
    LimitsRoundTrip(d.limits);
    forall b { BookRoundTrip(b); }
    ObjRoundTrip(d.books, BookToDict, BookFromDict);
  }

  lemma BookKeys(b: Book)
    ensures var j := BookToDict(b);
            && Str(j, "book_id") == Some(b.bookId) && LimitsFromDict(Sub(j, "limits")) == Some(b.limits)
            && FromObj(Sub(j, "positions"), PositionFromDict) == Some(b.positions)
            && Num(j, "high_water_mark_usdt") == Some(b.highWaterMark) && Bool(j, "kill_switch") == Some(b.killSwitch)
  {
    hide FromObj, ToObj, LimitsToDict, LimitsFromDict;
    LimitsRoundTrip(b.limits);
    PositionsRoundTrip();
    ObjRoundTrip(b.positions, PositionToDict, PositionFromDict);
  }

  lemma PositionKeys(p: Position)
    ensures var j := PositionToDict(p);
            && Str(j, "instrument_id") == Some(p.instrumentId) && Num(j, "qty") == Some(p.qty)
            && Num(j, "avg_entry_price") == Some(p.avgEntryPrice) && Num(j, "realized_pnl") == Some(p.realizedPnl)
            && Num(j, "funding_pnl") == Some(p.fundingPnl) && Num(j, "fees_paid") == Some(p.feesPaid)
  {
  }

  lemma LimitKeys(limits: map<Limit, real>)
    ensures var j := LimitsToDict(limits);
            && j.JObj? && j.fields.Keys <= {"NOTIONAL", "DRAWDOWN", "POSITION"}
            && Num(j, "NOTIONAL") == (if Limit.NOTIONAL in limits then Some(limits[Limit.NOTIONAL]) else None)
            && Num(j, "DRAWDOWN") == (if Limit.DRAWDOWN in limits then Some(limits[Limit.DRAWDOWN]) else None)
            && Num(j, "POSITION") == (if Limit.POSITION in limits then Some(limits[Limit.POSITION]) else None)
  {
    LimitNames(Limit.NOTIONAL);
    LimitNames(Limit.DRAWDOWN);
    LimitNames(Limit.POSITION);
    assert LimitName(Limit.NOTIONAL) == "NOTIONAL" && LimitName(Limit.DRAWDOWN) == "DRAWDOWN"
        && LimitName(Limit.POSITION) == "POSITION";
    hide LimitNamed;
  }
}
