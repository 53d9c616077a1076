/**
 * Feed health (hobo/core/health.py, hobo/risk/staleness.py): a watchdog on market-data silence tied to the
 * desk kill switch, failing closed across restarts.
 */
module Health {
  import opened Wrappers
  import opened RiskModel
  import opened Fold
  import opened Gate
  import opened LogWriting
  import opened StateStoring
  import RiskState

  const FEED_STALE_REASON := "feed stale"

  // ---- the watchdog ----

  datatype Watch = Watch(lastSeen: Option<real>, stale: bool)

  function Ticked(now: real): Watch { Watch(Some(now), false) }

  predicate Trips(w: Watch, threshold: real, now: real) {
    w.lastSeen.Some? && !w.stale && now - w.lastSeen.value >= threshold
  }

  function Checked(w: Watch, threshold: real, now: real): Watch {
    if Trips(w, threshold, now) then w.(stale := true) else w
  }

  class StalenessWatchdog {
    const threshold: real
    var lastSeen: Option<real>
    var stale: bool

    function Value(): Watch
      reads this
    {
      Watch(lastSeen, stale)
    }

    constructor (threshold: real)
      ensures this.threshold == threshold && Value() == Watch(None, false)
    {
      this.threshold := threshold;
      lastSeen, stale := None, false;
    }

    /** True if the message ended a stale spell. */
    method RecordMessage(now: real) returns (cleared: bool)
      modifies this
      ensures cleared == old(stale) && Value() == Ticked(now)
      ensures lastSeen == Some(now) && !stale
    {
      lastSeen := Some(now);
      cleared := stale;
      stale := false;
    }

    /** True if this call found the feed gone stale; a watchdog that never saw a tick never trips. */
    method Check(now: real) returns (tripped: bool)
      modifies this
      ensures tripped <==> old(lastSeen).Some? && !old(stale) && now - old(lastSeen).value >= threshold
      ensures lastSeen == old(lastSeen) && (stale <==> old(stale) || tripped)
      ensures tripped == Trips(old(Value()), threshold, now) && Value() == Checked(old(Value()), threshold, now)
    {
      if lastSeen.None? || stale {
        return false;
      }
      var age := now - lastSeen.value;
      if age >= threshold {
        stale := true;
        return true;
      }
      return false;
    }
  }

  // ---- the monitor ----

  function Toggle(deskId: string, enabled: bool): LogEvent {
    KillSwitch(Scope.DESK, deskId, enabled, if enabled then FEED_STALE_REASON else "")
  }

  /** The watchdog a starting process has: fresh, but stale if the recovered desk was halted for staleness. */
  function Seeded(s: State): Watch {
    Watch(None, s.desk.killSwitch && s.desk.killSwitchReason == FEED_STALE_REASON)
  }

  ghost predicate InStep(w: Watch, s: State) {
    w.stale == s.desk.killSwitch && (s.desk.killSwitch ==> s.desk.killSwitchReason == FEED_STALE_REASON)
  }

  class FeedHealthMonitor {
    const store: StateStore
    const watchdog: StalenessWatchdog
    const deskId: string

    constructor (store: StateStore, watchdog: StalenessWatchdog, deskId: string)
      requires watchdog.Value() == Watch(None, false)
      modifies watchdog
      ensures this.store == store && this.watchdog == watchdog && this.deskId == deskId
      ensures watchdog.Value() == Seeded(store.state.Value())
      ensures watchdog.stale <==> store.state.killSwitch && store.state.killSwitchReason == "feed stale"
    {
      this.store, this.watchdog, this.deskId := store, watchdog, deskId;
      new;
      if store.state.killSwitch && store.state.killSwitchReason == FEED_STALE_REASON {
        watchdog.stale := true;
      }
    }

    /** A tick: clears the switch if the feed had been stale, and otherwise records nothing. */
    method OnMessage(now: real, tsNs: int)
      requires store.Valid() && InStep(watchdog.Value(), store.state.Value())
      requires store.writer.codec.Encodes(Envelope(store.writer.lastSeq + 1, tsNs, Toggle(deskId, false)))
      modifies watchdog, store.state, store.writer, store.writer.file, store.writer.file.data
      ensures store.Valid() && InStep(watchdog.Value(), store.state.Value())
      ensures watchdog.Value() == Ticked(now) && !store.state.killSwitch
      ensures !old(watchdog.stale) ==>
        store.state.Value() == old(store.state.Value()) && store.writer.sys.landed == old(store.writer.sys.landed)
      ensures old(watchdog.stale) ==>
        store.writer.sys.landed
        == old(store.writer.sys.landed)
           + [Envelope(old(store.writer.lastSeq) + 1, tsNs, KillSwitch(Scope.DESK, deskId, false, ""))]
    {
      hide LogWriter.Valid, FoldAll;
      var cleared := watchdog.RecordMessage(now);
      if cleared {
        var _ := store.Record(Toggle(deskId, false), tsNs);
      }
    }

    /** The periodic check: halts the desk the moment the feed is found stale. */
    method Check(now: real, tsNs: int)
      requires store.Valid() && InStep(watchdog.Value(), store.state.Value())
      requires store.writer.codec.Encodes(Envelope(store.writer.lastSeq + 1, tsNs, Toggle(deskId, true)))
      modifies watchdog, store.state, store.writer, store.writer.file, store.writer.file.data
      ensures store.Valid() && InStep(watchdog.Value(), store.state.Value())
      ensures watchdog.Value() == Checked(old(watchdog.Value()), watchdog.threshold, now)
      ensures var trips := old(watchdog.lastSeen).Some? && !old(watchdog.stale)
                           && now - old(watchdog.lastSeen).value >= watchdog.threshold;
              if trips then
                store.state.killSwitch && store.state.killSwitchReason == "feed stale"
                && store.writer.sys.landed == old(store.writer.sys.landed)
                     + [Envelope(old(store.writer.lastSeq) + 1, tsNs, KillSwitch(Scope.DESK, deskId, true, "feed stale"))]
              else store.state.Value() == old(store.state.Value())
                   && store.writer.sys.landed == old(store.writer.sys.landed)
    {
      hide LogWriter.Valid, FoldAll;
      var tripped := watchdog.Check(now);
      if tripped {
        var _ := store.Record(Toggle(deskId, true), tsNs);
      }
    }
  }

  // ---- whole runs ----

  datatype Feed = Feed(watch: Watch, state: State)

  /** How far a step got when the process died: not into a toggle, or into one whose event did or did not land. */
  datatype Interrupted = Nowhere | InTick(landed: bool) | InCheck(now: real, landed: bool)

  datatype FeedStep =
    | Tick(now: real)
    | CheckNow(now: real)
    | Other(e: LogEvent)           // anything else the engine records
    | Restart(at: Interrupted)

  predicate IsDeskSwitch(e: LogEvent) { e.KillSwitch? && e.scope.DESK? }

  ghost predicate CanFeed(f: Feed, step: FeedStep) {
    step.Other? ==> !IsDeskSwitch(step.e) && WellFormed(f.state, step.e)
  }

  ghost function Recorded(f: Feed, deskId: string, enabled: bool): State { Handle(f.state, Toggle(deskId, enabled)) }

  /** What the log recovers to when a step died there. */
  ghost function AfterCrash(f: Feed, deskId: string, threshold: real, at: Interrupted): State {
    match at
    case Nowhere => f.state
    case InTick(landed) => if f.watch.stale && landed then Recorded(f, deskId, false) else f.state
    case InCheck(now, landed) =>
      if Trips(f.watch, threshold, now) && landed then Recorded(f, deskId, true) else f.state
  }

  ghost function FeedNext(f: Feed, deskId: string, threshold: real, step: FeedStep): Feed
    requires CanFeed(f, step)
  {
    match step
    case Tick(now) => Feed(Ticked(now), if f.watch.stale then Recorded(f, deskId, false) else f.state)
    case CheckNow(now) =>
      Feed(Checked(f.watch, threshold, now), if Trips(f.watch, threshold, now) then Recorded(f, deskId, true) else f.state)
    case Other(e) => f.(state := Handle(f.state, e))
    case Restart(at) => var s := AfterCrash(f, deskId, threshold, at); Feed(Seeded(s), s)
  }

  ghost predicate FeedRun(fs: seq<Feed>, steps: seq<FeedStep>, deskId: string, threshold: real) {
    && |fs| == |steps| + 1
    && (fs[0].state.desk.killSwitch ==> fs[0].state.desk.killSwitchReason == FEED_STALE_REASON)
    && fs[0].watch == Seeded(fs[0].state)
    && forall i | 0 <= i < |steps| :: CanFeed(fs[i], steps[i]) && fs[i + 1] == FeedNext(fs[i], deskId, threshold, steps[i])
  }

  /** Only desk switches move the desk's switch. */
  lemma OthersKeepDesk(s: State, e: LogEvent)
    requires WellFormed(s, e) && !IsDeskSwitch(e)
    ensures Handle(s, e).desk.killSwitch == s.desk.killSwitch
    ensures Handle(s, e).desk.killSwitchReason == s.desk.killSwitchReason
  {
    hide FillPosition, RiskState.TotalPnlOf;
    if e.LimitChange? {
      assert Handle(s, e) == ChangeLimit(s, e);
    } else if e.KillSwitch? {
      assert Handle(s, e) == SetSwitch(s, e);
    }
  }

  lemma FeedStepInStep(f: Feed, deskId: string, threshold: real, step: FeedStep)
    requires InStep(f.watch, f.state) && CanFeed(f, step)
    ensures var g := FeedNext(f, deskId, threshold, step); InStep(g.watch, g.state)
    ensures f.watch.stale && !step.Tick? && !(step.Restart? && step.at.InTick?) ==>
      FeedNext(f, deskId, threshold, step).watch.stale
  {
    if step.Other? {
      hide Handle, WellFormed;
      OthersKeepDesk(f.state, step.e);
    } else {
      ToggleSets(f.state, deskId, true);
      ToggleSets(f.state, deskId, false);
      hide Handle;
    }
  }

  lemma ToggleSets(s: State, deskId: string, enabled: bool)
    ensures Handle(s, Toggle(deskId, enabled)).desk.killSwitch == enabled
    ensures Handle(s, Toggle(deskId, enabled)).desk.killSwitchReason == if enabled then FEED_STALE_REASON else ""
  {
    assert Handle(s, Toggle(deskId, enabled)) == SetSwitch(s, Toggle(deskId, enabled));
  }

  /** After every completed step, restarts included, the watchdog and the desk's switch agree. */
  lemma {:induction false} StaleMatchesSwitch(fs: seq<Feed>, steps: seq<FeedStep>, deskId: string, threshold: real, i: nat)
    requires FeedRun(fs, steps, deskId, threshold) && i <= |steps|
    ensures InStep(fs[i].watch, fs[i].state)
  {
    if i > 0 {
      hide FeedNext, CanFeed, InStep;
      StaleMatchesSwitch(fs, steps, deskId, threshold, i - 1);
      FeedStepInStep(fs[i - 1], deskId, threshold, steps[i - 1]);
    }
  }

  lemma HaltedRejects(s: State, order: Order, maxOrderSize: real)
    requires s.desk.killSwitch && Known(s, order) && LimitsSet(s, order.bookId)
    ensures Gate.Check(DefaultChecks(maxOrderSize), s, order).reason == RejectReason.KILL_SWITCH
    ensures !Gate.Check(DefaultChecks(maxOrderSize), s, order).approved
  {
    hide BuildOrderContext;
    assert DefaultChecks(maxOrderSize)[0] == KillSwitchCheck;
  }

  /** Fails closed: from the tripping check to the next tick every order is rejected, across restarts too. */
  lemma {:induction false} HaltedUntilTick(fs: seq<Feed>, steps: seq<FeedStep>, deskId: string, threshold: real,
                                           i: nat, j: nat, order: Order, maxOrderSize: real)
    requires FeedRun(fs, steps, deskId, threshold) && i <= j <= |steps|
    requires fs[i].watch.stale
    requires forall k | i <= k < j :: !steps[k].Tick? && !(steps[k].Restart? && steps[k].at.InTick?)
    requires Known(fs[j].state, order) && LimitsSet(fs[j].state, order.bookId)
    ensures fs[j].watch.stale
    ensures Gate.Check(DefaultChecks(maxOrderSize), fs[j].state, order).reason == RejectReason.KILL_SWITCH
  {
    hide FeedNext, CanFeed, Gate.Check, Known, LimitsSet;
    StaleStays(fs, steps, deskId, threshold, i, j);
    StaleMatchesSwitch(fs, steps, deskId, threshold, j);
    HaltedRejects(fs[j].state, order, maxOrderSize);
  }

  /** And it starts: a check that finds a fresh feed silent for the threshold leaves it stale, from any such point. */
  lemma SilenceHalts(fs: seq<Feed>, steps: seq<FeedStep>, deskId: string, threshold: real, i: nat, now: real)
    requires FeedRun(fs, steps, deskId, threshold) && i < |steps| && steps[i] == CheckNow(now)
    requires fs[i].watch.lastSeen.Some? && now - fs[i].watch.lastSeen.value >= threshold
    ensures fs[i + 1].watch.stale && fs[i + 1].state.desk.killSwitch
    ensures fs[i + 1].state.desk.killSwitchReason == "feed stale"
  {
    hide Recorded;
    StaleMatchesSwitch(fs, steps, deskId, threshold, i + 1);
    assert fs[i + 1] == FeedNext(fs[i], deskId, threshold, steps[i]);
  }

  lemma {:induction false} StaleStays(fs: seq<Feed>, steps: seq<FeedStep>, deskId: string, threshold: real, i: nat, j: nat)
    requires FeedRun(fs, steps, deskId, threshold) && i <= j <= |steps| && fs[i].watch.stale
    requires forall k | i <= k < j :: !steps[k].Tick? && !(steps[k].Restart? && steps[k].at.InTick?)
    ensures fs[j].watch.stale
    decreases j - i
  {
    if i < j {
      hide FeedNext, CanFeed, InStep;
      StaleMatchesSwitch(fs, steps, deskId, threshold, i);
      FeedStepInStep(fs[i], deskId, threshold, steps[i]);
      StaleStays(fs, steps, deskId, threshold, i + 1, j);
    }
  }
}
