/**
 * The one door every fill passes through (hobo/core/fill_ingestor.py), and the guarantees it gives over
 * WebSocket fills, REST polls against stale copies, a bounded bus and restarts: at most once, and for
 * exchange fills never dropped.
 */
module FillIngestion {
  import opened RiskModel
  import B = Bus

  type FillEvent = e: B.Event | e.FillEvent? witness B.FillEvent("", "", "", BUY, 0.0, 0.0, 0.0, "")

  /** trade ids of exchange fills in the log; synthetic fills have none. */
  function LoggedIds(es: seq<Envelope>): set<string> {
    set i | 0 <= i < |es| && es[i].event.Fill? && es[i].event.tradeId != "" :: es[i].event.tradeId
  }

  /** Record time of the newest exchange fill, 0 if there is none. */
  function LastFillNs(es: seq<Envelope>): int {
    if es == [] then 0 else
      var prior, e := LastFillNs(es[..|es| - 1]), es[|es| - 1];
      if e.event.Fill? && e.event.tradeId != "" && e.tsNs > prior then e.tsNs else prior
  }

  /** It is the newest exchange fill's time: none is later, and unless it is zero one has it. */
  lemma {:induction false} LastFillIsNewest(es: seq<Envelope>)
    ensures forall i | 0 <= i < |es| && es[i].event.Fill? && es[i].event.tradeId != "" :: es[i].tsNs <= LastFillNs(es)
    ensures LastFillNs(es) == 0
            || exists i :: 0 <= i < |es| && es[i].event.Fill? && es[i].event.tradeId != "" && es[i].tsNs == LastFillNs(es)
  {
    if es != [] {
      var prior := es[..|es| - 1];
      LastFillIsNewest(prior);
      if LastFillNs(es) != LastFillNs(prior) {
        assert es[|es| - 1].tsNs == LastFillNs(es);
      } else if LastFillNs(es) != 0 {
        var i :| 0 <= i < |prior| && prior[i].event.Fill? && prior[i].event.tradeId != "" && prior[i].tsNs == LastFillNs(prior);
        assert es[i] == prior[i];
      }
    }
  }

  predicate Admits(seen: set<string>, f: FillEvent) { f.tradeId == "" || f.tradeId !in seen }

  class FillIngestor {
    const bus: B.EventBus
    var seen: set<string>
    var lastFillNs: int
    ghost var published: seq<FillEvent>   // history: what has been handed to the bus

    constructor (bus: B.EventBus)
      ensures this.bus == bus && seen == {} && lastFillNs == 0 && published == []
    {
      this.bus, seen, lastFillNs, published := bus, {}, 0, [];
    }

    method SeedFromLog(es: seq<Envelope>)
      requires seen == {} && lastFillNs == 0
      modifies this`seen, this`lastFillNs
      ensures seen == LoggedIds(es) && lastFillNs == LastFillNs(es)
      ensures forall id :: id in seen <==>
        id != "" && exists i :: 0 <= i < |es| && es[i].event.Fill? && es[i].event.tradeId == id
    {
      for i := 0 to |es|
        invariant seen == LoggedIds(es[..i]) && lastFillNs == LastFillNs(es[..i])
      {
        assert es[..i + 1][..i] == es[..i];
        IdsStep(es, i);
        var e := es[i].event;
        if e.Fill? && e.tradeId != "" {
          seen := seen + {e.tradeId};
          lastFillNs := if es[i].tsNs > lastFillNs then es[i].tsNs else lastFillNs;
        }
      }
      assert es[..|es|] == es;
    }

    method SeenCopy() returns (ids: set<string>)
      ensures ids == seen
    {
      ids := seen;
    }

    /**
     * False if the fill was already admitted; fills without a trade id always pass.  An admitted fill is
     * dropped only from inside a drain whose queue is at its bound; from outside it is delivered.
     */
    method Submit(fill: FillEvent) returns (admitted: bool)
      requires bus.Valid()
      modifies this`seen, this`published, bus
      ensures bus.Valid() && bus.handlers == old(bus.handlers) && bus.draining == old(bus.draining)
      ensures admitted <==> fill.tradeId == "" || fill.tradeId !in old(seen)
      ensures published == if admitted then old(published) + [fill] else old(published)
      ensures seen == if fill.tradeId == "" then old(seen) else old(seen) + {fill.tradeId}
      ensures !admitted ==> bus.admitted == old(bus.admitted)
      ensures admitted && bus.draining ==>
        bus.admitted == old(bus.admitted) + if old(|bus.queue|) < bus.maxQueueSize then [fill] else []
      ensures admitted && !bus.draining && bus.maxQueueSize > 0 ==>
        old(bus.admitted) + [fill] <= bus.admitted && bus.taken == bus.admitted
      ensures old(bus.admitted) <= bus.admitted
    {
      if fill.tradeId != "" && fill.tradeId in seen {
        assert old(seen) + {fill.tradeId} == old(seen);
        return false;
      }
      if fill.tradeId != "" {
        seen := seen + {fill.tradeId};
      }
      published := published + [fill];
      bus.Publish(fill);
      return true;
    }
  }

  lemma IdsStep(es: seq<Envelope>, i: nat)
    requires i < |es|
    ensures LoggedIds(es[..i + 1])
            == LoggedIds(es[..i]) + if es[i].event.Fill? && es[i].event.tradeId != "" then {es[i].event.tradeId} else {}
  {
    var a, b := es[..i], es[..i + 1];
    assert forall j | 0 <= j < i :: a[j] == b[j];
    forall id | id in LoggedIds(b)
      ensures id in LoggedIds(a) || (es[i].event.Fill? && es[i].event.tradeId == id)
    {
      var j :| 0 <= j < |b| && b[j].event.Fill? && b[j].event.tradeId != "" && b[j].event.tradeId == id;
      if j < i { assert a[j].event.tradeId == id; }
    }
    forall id | id in LoggedIds(a) ensures id in LoggedIds(b) {
      var j :| 0 <= j < |a| && a[j].event.Fill? && a[j].event.tradeId != "" && a[j].event.tradeId == id;
      assert b[j].event.tradeId == id;
    }
    if es[i].event.Fill? && es[i].event.tradeId != "" { assert b[i].event.tradeId in LoggedIds(b); }
  }

  // ---- whole runs ----

  datatype Intake = Intake(
    log: seq<FillEvent>,        // FILLs in the log, each folded when it was appended
    queue: seq<B.Event>,        // on the bus, fills and others
    draining: bool,
    seen: set<string>,
    staleSeen: set<string>,     // the copy the REST poll in flight works against
    fetched: seq<FillEvent>,    // what that poll brought back, not yet submitted
    admitted: seq<FillEvent>,   // history: fills that passed the gate
    dropped: seq<FillEvent>,    // history: those the bus had no room for
    lost: seq<FillEvent>)       // history: those queued when the process died

  /**
   * WebSocket callbacks and the reconciler run on the event loop, between drains; the paper client answers
   * an order at once, so inside the drain the order came from, but its fills carry no trade id.
   */
  datatype IntakeStep =
    | WsFill(f: FillEvent)
    | PaperFill(f: FillEvent)
    | Other(e: B.Event)
    | PollStart
    | PollDone(fs: seq<FillEvent>)
    | RestSubmit
    | Deliver
    | EndDrain
    | Restart

  function Ids(fs: seq<FillEvent>): set<string> { set i | 0 <= i < |fs| && fs[i].tradeId != "" :: fs[i].tradeId }

  function Fills(es: seq<B.Event>): seq<FillEvent> {
    if es == [] then []
    else Fills(es[..|es| - 1]) + if es[|es| - 1].FillEvent? then [es[|es| - 1]] else []
  }

  const START := Intake([], [], false, {}, {}, [], [], [], [])

  /** The bus's publish: refused at the bound, else queued, and a drain is under way. */
  function Published(bound: nat, s: Intake, e: B.Event): Intake {
    if |s.queue| >= bound then if e.FillEvent? then s.(dropped := s.dropped + [e]) else s
    else s.(queue := s.queue + [e], draining := true)
  }

  function SubmitTo(bound: nat, s: Intake, f: FillEvent): Intake {
    if !Admits(s.seen, f) then s
    else Published(bound, s.(seen := if f.tradeId == "" then s.seen else s.seen + {f.tradeId},
                             admitted := s.admitted + [f]), f)
  }

  predicate CanStep(s: Intake, step: IntakeStep) {
    match step
    case WsFill(_) => !s.draining
    case PaperFill(f) => f.tradeId == ""
    case Other(e) => !e.FillEvent?
    case PollStart => !s.draining
    case PollDone(fs) => forall f <- fs :: f.tradeId != "" && f.tradeId !in s.staleSeen
    case RestSubmit => !s.draining && s.fetched != []
    case Deliver => s.draining && s.queue != []
    case EndDrain => s.draining && s.queue == []
    case Restart => true
  }

  function Next(bound: nat, s: Intake, step: IntakeStep): Intake
    requires CanStep(s, step)
  {
    match step
    case WsFill(f) => SubmitTo(bound, s, f)
    case PaperFill(f) => SubmitTo(bound, s, f)
    case Other(e) => Published(bound, s, e)
    case PollStart => s.(staleSeen := s.seen, fetched := [])
    case PollDone(fs) => s.(fetched := fs)
    case RestSubmit => SubmitTo(bound, s, s.fetched[0]).(fetched := s.fetched[1..])
    case Deliver =>
      var e := s.queue[0];
      s.(log := if e.FillEvent? then s.log + [e] else s.log, queue := s.queue[1..])
    case EndDrain => s.(draining := false)
    case Restart =>
      s.(queue := [], draining := false, fetched := [], seen := Ids(s.log), staleSeen := {},
         lost := s.lost + Fills(s.queue))
  }

  ghost predicate IsRun(bound: nat, states: seq<Intake>, steps: seq<IntakeStep>) {
    && |states| == |steps| + 1
    && states[0] == START
    && forall i | 0 <= i < |steps| :: CanStep(states[i], steps[i]) && states[i + 1] == Next(bound, states[i], steps[i])
  }

  ghost predicate NoRepeats(fs: seq<FillEvent>) {
    forall i, j | 0 <= i < j < |fs| && fs[i].tradeId != "" :: fs[i].tradeId != fs[j].tradeId
  }

  ghost predicate Once(fs: seq<FillEvent>, seen: set<string>) { NoRepeats(fs) && Ids(fs) <= seen }

  /** Logged and queued ids are disjoint and repeat nothing, and both lie inside the seen set. */
  ghost predicate IntakeInv(s: Intake) {
    && Once(s.log + Fills(s.queue), s.seen)
    && multiset(s.admitted) == multiset(s.log + Fills(s.queue)) + multiset(s.dropped) + multiset(s.lost)
    && (!s.draining ==> s.queue == [])
  }

  lemma FillsSnoc(es: seq<B.Event>, e: B.Event)
    ensures Fills(es + [e]) == if e.FillEvent? then Fills(es) + [e] else Fills(es)
  {
    assert (es + [e])[..|es|] == es;
  }

  lemma {:induction false} FillsFirst(es: seq<B.Event>)
    requires es != []
    ensures Fills(es) == (if es[0].FillEvent? then [es[0]] else []) + Fills(es[1..])
  {
    if |es| > 1 {
      var front := es[..|es| - 1];
      FillsFirst(front);
      assert front[1..] == es[1..][..|es| - 2];
    }
  }

  lemma SubmitKeepsInv(bound: nat, s: Intake, f: FillEvent)
    requires IntakeInv(s)
    ensures IntakeInv(SubmitTo(bound, s, f))
  {
    hide Once, Fills;
    if Admits(s.seen, f) {
      FillsSnoc(s.queue, f);
      OnceSnoc(s.log + Fills(s.queue), f, s.seen);
      assert s.log + (Fills(s.queue) + [f]) == (s.log + Fills(s.queue)) + [f];
    }
  }

  lemma OnceSnoc(fs: seq<FillEvent>, f: FillEvent, seen: set<string>)
    requires Once(fs, seen) && Admits(seen, f)
    ensures var more := if f.tradeId == "" then seen else seen + {f.tradeId};
            Once(fs, more) && Once(fs + [f], more)
  {
    IdsSnoc(fs, f);
    hide Ids, NoRepeats;
  }

  lemma IdsSnoc(fs: seq<FillEvent>, f: FillEvent)
    ensures Ids(fs + [f]) == Ids(fs) + if f.tradeId != "" then {f.tradeId} else {}
    ensures NoRepeats(fs) && (f.tradeId == "" || f.tradeId !in Ids(fs)) ==> NoRepeats(fs + [f])
  {
    var gs := fs + [f];
    assert forall i | 0 <= i < |fs| :: gs[i] == fs[i];
    assert gs[|fs|] == f;
    forall id | id in Ids(fs) ensures id in Ids(gs) {
      var i :| 0 <= i < |fs| && fs[i].tradeId != "" && fs[i].tradeId == id;
      assert gs[i].tradeId == id;
    }
    if f.tradeId != "" { assert gs[|fs|].tradeId in Ids(gs); }
    if NoRepeats(fs) && (f.tradeId == "" || f.tradeId !in Ids(fs)) {
      forall i, j | 0 <= i < j < |gs| && gs[i].tradeId != "" ensures gs[i].tradeId != gs[j].tradeId {
        if j == |fs| { assert fs[i].tradeId in Ids(fs); }
      }
    }
  }

  lemma DeliverKeepsInv(bound: nat, s: Intake)
    requires IntakeInv(s) && CanStep(s, Deliver)
    ensures IntakeInv(Next(bound, s, Deliver))
  {
    hide Once, Fills;
    FillsFirst(s.queue);
    var t := Next(bound, s, Deliver);
    assert t.log + Fills(t.queue) == s.log + Fills(s.queue);
  }

  lemma RestartKeepsInv(bound: nat, s: Intake)
    requires IntakeInv(s)
    ensures IntakeInv(Next(bound, s, Restart))
  {
    var t := Next(bound, s, Restart);
    assert t.log + Fills(t.queue) == s.log;
    assert forall i | 0 <= i < |s.log| :: (s.log + Fills(s.queue))[i] == s.log[i];
  }

  lemma OtherKeepsInv(bound: nat, s: Intake, e: B.Event)
    requires IntakeInv(s) && !e.FillEvent?
    ensures IntakeInv(Published(bound, s, e))
  {
    hide Once;
    FillsSnoc(s.queue, e);
    hide Fills;
  }

  lemma NextKeepsInv(bound: nat, s: Intake, step: IntakeStep)
    requires IntakeInv(s) && CanStep(s, step)
    ensures IntakeInv(Next(bound, s, step))
  {
    match step
    case WsFill(f) => SubmitKeepsInv(bound, s, f);
    case PaperFill(f) => SubmitKeepsInv(bound, s, f);
    case RestSubmit => SubmitKeepsInv(bound, s, s.fetched[0]);
    case Other(e) => OtherKeepsInv(bound, s, e);
    case Deliver => DeliverKeepsInv(bound, s);
    case Restart => RestartKeepsInv(bound, s);
    case _ =>
    hide Once, SubmitTo;
  }

  /**
   * At most once: over any interleaving of sources, deliveries and restarts no two logged FILLs share a
   * trade id, and each admitted fill is logged (and so folded) exactly once, or still queued, or was
   * dropped by a full bus or lost with the queue of a dead process.
   */
  lemma {:induction false} AtMostOnce(bound: nat, states: seq<Intake>, steps: seq<IntakeStep>)
    requires IsRun(bound, states, steps)
    ensures IntakeInv(states[|steps|])
    ensures NoRepeats(states[|steps|].log)
    decreases |steps|
  {
    var n := |steps|;
    if n > 0 {
      AtMostOnce(bound, states[..n], steps[..n - 1]);
      NextKeepsInv(bound, states[n - 1], steps[n - 1]);
    }
    var s := states[n];
    assert forall i | 0 <= i < |s.log| :: (s.log + Fills(s.queue))[i] == s.log[i];
  }

  // ---- what a full bus drops ----

  ghost predicate DropsExchangeFill(s: Intake) { exists f :: f in s.dropped && f.tradeId != "" }

  /** A step drops a fill exactly when the paper client answers inside a drain whose queue is at its bound. */
  lemma DropsOnlyInsideFullDrain(bound: nat, s: Intake, step: IntakeStep)
    requires bound > 0 && IntakeInv(s) && CanStep(s, step)
    ensures Next(bound, s, step).dropped != s.dropped <==> step.PaperFill? && s.draining && |s.queue| >= bound
  {
    if step.PaperFill? {
      assert |s.dropped + [step.f]| > |s.dropped|;
    }
  }

  /**
   * With any room on the bus no exchange fill is ever dropped: each one admitted is logged once, or queued
   * in a drain still running, or was in the queue when the process died.
   */
  lemma {:induction false} ExchangeFillsNeverDropped(bound: nat, states: seq<Intake>, steps: seq<IntakeStep>)
    requires IsRun(bound, states, steps) && bound > 0
    ensures var s := states[|steps|];
            && !DropsExchangeFill(s)
            && (!s.draining ==> s.queue == [])
            && forall f: FillEvent | f.tradeId != "" ::
                 multiset(s.admitted)[f] == multiset(s.log)[f] + multiset(Fills(s.queue))[f] + multiset(s.lost)[f]
    decreases |steps|
  {
    hide Once;
    AtMostOnce(bound, states, steps);
    NeverDropped(bound, states, steps);
    var s := states[|steps|];
    forall f: FillEvent | f.tradeId != "" ensures multiset(s.dropped)[f] == 0 {
      assert f !in s.dropped;
    }
  }

  lemma {:induction false} NeverDropped(bound: nat, states: seq<Intake>, steps: seq<IntakeStep>)
    requires IsRun(bound, states, steps) && bound > 0
    ensures !DropsExchangeFill(states[|steps|])
    decreases |steps|
  {
    var n := |steps|;
    if n > 0 {
      var s := states[n - 1];
      AtMostOnce(bound, states[..n], steps[..n - 1]);
      NeverDropped(bound, states[..n], steps[..n - 1]);
      DropsOnlyInsideFullDrain(bound, s, steps[n - 1]);
      hide IntakeInv;
    }
  }

  /** Exactly a bus with no room at all can drop an exchange fill. */
  lemma DropsExchangeFillsIffNoRoom(bound: nat)
    ensures (exists states, steps :: IsRun(bound, states, steps) && DropsExchangeFill(states[|steps|])) <==> bound == 0
  {
    if bound == 0 {
      var states, steps := DroppedThenRefused(B.FillEvent("", "", "", BUY, 1.0, 1.0, 0.0, "t"));
    } else {
      forall states, steps | IsRun(bound, states, steps) ensures !DropsExchangeFill(states[|steps|]) {
        NeverDropped(bound, states, steps);
      }
    }
  }

  /** On such a bus a WebSocket fill is dropped, and the REST poll that brings it again is refused. */
  lemma DroppedThenRefused(f: FillEvent) returns (states: seq<Intake>, steps: seq<IntakeStep>)
    requires f.tradeId != ""
    ensures IsRun(0, states, steps) && |steps| == 4 && steps[3].RestSubmit? && states[3].fetched == [f]
    ensures f in states[4].dropped && states[4].log == [] && states[4].admitted == [f]
    ensures DropsExchangeFill(states[|steps|])
  {
    var a := Next(0, START, PollStart);
    var b := Next(0, a, WsFill(f));
    var c := Next(0, b, PollDone([f]));
    var d := Next(0, c, RestSubmit);
    states, steps := [START, a, b, c, d], [PollStart, WsFill(f), PollDone([f]), RestSubmit];
    assert d.dropped == [f];
    assert f in d.dropped && f.tradeId != "";
  }

  /** A seen id is refused from every source until the next restart. */
  lemma {:induction false} RefusedUntilRestart(bound: nat, states: seq<Intake>, steps: seq<IntakeStep>, i: nat, j: nat, f: FillEvent)
    requires IsRun(bound, states, steps) && i <= j <= |steps|
    requires !Admits(states[i].seen, f) && forall k | i <= k < j :: !steps[k].Restart?
    ensures !Admits(states[j].seen, f)
    decreases j - i
  {
    if i < j {
      RefusedUntilRestart(bound, states, steps, i, j - 1, f);
    }
  }

  /** A restart readmits exactly the exchange fills the log does not hold, so none admitted before stays out. */
  lemma RestartReadmits(bound: nat, s: Intake, f: FillEvent)
    requires IntakeInv(s) && f.tradeId != ""
    ensures Admits(Next(bound, s, Restart).seen, f) <==> f.tradeId !in Ids(s.log)
    ensures f in Fills(s.queue) ==> Admits(Next(bound, s, Restart).seen, f)
  {
    if f in Fills(s.queue) {
      var all, n := s.log + Fills(s.queue), |s.log|;
      var i :| 0 <= i < |Fills(s.queue)| && Fills(s.queue)[i] == f;
      assert all[n + i] == f;
      forall k | 0 <= k < n ensures s.log[k].tradeId != f.tradeId || s.log[k].tradeId == "" {
        assert all[k] == s.log[k];
      }
    }
  }
}
