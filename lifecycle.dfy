/**
 * The sign engine of SignIndicator as a pure state machine. A Store holds what
 * the indicator and its chart keep between events: the registry of drawn signs
 * (keyed by a name derived from the bar's open time), the confirmed open times
 * used for navigation, the first-time alert latch, the one-shot init flag,
 * the visibility of the alert overlay and the sounds requested so far.
 * The class in module Indicator performs these transitions in place.
 */
module Lifecycle {
  import opened Wrappers
  import opened Series
  import Alerts

  /** The chart icon types a sign may be drawn with. */
  datatype IconType = Circle | Square | Diamond | Star | UpArrow | DownArrow | UpTriangle | DownTriangle

  /** A sign's chart object name; the text form of the open time is abstracted to the time itself. */
  datatype Name = SignAt(openTime: int)

  /** A drawn sign: its icon, the time it is placed at and its vertical position. */
  datatype Sign = Sign(icon: IconType, time: int, y: real)

  /** The settable properties the engine reads. */
  datatype Config = Config(buyIcon: IconType, sellIcon: IconType, drawMargin: real,
                           whenAlert: Alerts.WhenAlert, soundFile: string)

  datatype Store = Store(signs: map<Name, Sign>, signTimes: seq<int>, firstTime: bool,
                         isInit: bool, alertVisible: bool, sounds: seq<string>)

  /** The state right after construction: nothing drawn, nothing confirmed, no alert shown. */
  const Initial: Store := Store(map[], [], false, false, false, [])

  /** The judge function, asked afresh on every event. */
  type Judge = int -> Option<TradeType>

  function GetName(bars: seq<Bar>, index: int): Name
    requires 0 <= index < |bars|
  {
    SignAt(bars[index].openTime)
  }

  function IconFor(cfg: Config, kind: TradeType): IconType {
    if kind == Buy then cfg.buyIcon else cfg.sellIcon
  }

  /** Show the alert overlay and request the sound when a file is set. */
  function Alert(st: Store, cfg: Config): Store {
    st.(alertVisible := true,
        sounds := if cfg.soundFile != "" then st.sounds + [cfg.soundFile] else st.sounds)
  }

  /**
   * Draw (or redraw) the sign of bar `index` at the last bar's close; on the open
   * bar, alert as the draw policy says and latch the first-time flag.
   */
  function Draw(st: Store, cfg: Config, bars: seq<Bar>, index: int, kind: TradeType): Store
    requires 0 <= index < |bars|
  {
    var sign := Sign(IconFor(cfg, kind), bars[index].openTime, bars[|bars| - 1].close);
    var drawn := st.(signs := st.signs[GetName(bars, index) := sign]);
    if index == |bars| - 1 && Alerts.AlertsOnDraw(cfg.whenAlert, st.firstTime)
    then Alert(drawn, cfg).(firstTime := true)
    else drawn
  }

  /** The confirmed vertical position: the Buy icon is compared before the Sell icon. */
  function FixedY(cfg: Config, bar: Bar, s: Sign): real {
    if s.icon == cfg.buyIcon then bar.low - cfg.drawMargin
    else if s.icon == cfg.sellIcon then bar.high + cfg.drawMargin
    else s.y
  }

  /**
   * Confirm the sign of bar `index` if one is drawn: record its open time, move it
   * below the low or above the high, alert on the Update bit. Always clears the latch.
   */
  function Fix(st: Store, cfg: Config, bars: seq<Bar>, index: int): Store
    requires 0 <= index < |bars|
  {
    var name := GetName(bars, index);
    if name in st.signs then
      var s := st.signs[name];
      var moved := st.(signTimes := st.signTimes + [bars[index].openTime],
                       signs := st.signs[name := s.(y := FixedY(cfg, bars[index], s))]);
      (if Alerts.AlertsOnFix(cfg.whenAlert) then Alert(moved, cfg) else moved).(firstTime := false)
    else
      st.(firstTime := false)
  }

  /** Remove the sign of bar `index` and hide the alert overlay. */
  function Remove(st: Store, bars: seq<Bar>, index: int): Store
    requires 0 <= index < |bars|
  {
    st.(signs := st.signs - {GetName(bars, index)}, alertVisible := false)
  }

  /** A key press hides the alert overlay. */
  function KeyDown(st: Store): Store {
    st.(alertVisible := false)
  }

  /** One backfill step: a signal on bar i is drawn and immediately confirmed. */
  function BackfillStep(st: Store, cfg: Config, bars: seq<Bar>, judge: Judge, i: int): Store
    requires 0 <= i < |bars|
  {
    match judge(i)
    case None => st
    case Some(kind) => Fix(Draw(st, cfg, bars, i, kind), cfg, bars, i)
  }

  /** The state after backfill steps on bars 0 .. k-1, in increasing order. */
  function Backfill(st: Store, cfg: Config, bars: seq<Bar>, judge: Judge, k: nat): Store
    requires k <= |bars|
  {
    if k == 0 then st
    else BackfillStep(Backfill(st, cfg, bars, judge, k - 1), cfg, bars, judge, k - 1)
  }

  /**
   * One tick on a series whose last bar is open. The first tick backfills every
   * closed bar (and fails when there is no judge function); every successful tick
   * then asks the judge about the open bar and redraws its sign on a signal.
   * Without a judge the sign of the open bar is removed instead.
   * None stands for the InvalidOperationException.
   */
  function Tick(st: Store, cfg: Config, hasJudge: bool, bars: seq<Bar>, judge: Judge): Option<Store>
    requires |bars| >= 1
  {
    if !st.isInit && !hasJudge then None
    else
      var ready := if st.isInit then st else Backfill(st, cfg, bars, judge, |bars| - 1).(isInit := true);
      var index := |bars| - 1;
      if hasJudge then
        Some(match judge(index)
             case None => ready
             case Some(kind) => Draw(ready, cfg, bars, index, kind))
      else
        Some(Remove(ready, bars, index))
  }

  /** A new bar opened: the bar that just closed (Count-2) is confirmed. */
  function BarOpened(st: Store, cfg: Config, bars: seq<Bar>): Store
    requires |bars| >= 2
  {
    Fix(st, cfg, bars, |bars| - 2)
  }

  // ---------------------------------------------------------------------------
  // Reference definitions for the backfill lemmas

  /** The open times of the bars among 0 .. k-1 the judge signals on, in bar order. */
  function SignalTimes(bars: seq<Bar>, judge: Judge, k: nat): seq<int>
    requires k <= |bars|
  {
    if k == 0 then []
    else SignalTimes(bars, judge, k - 1) + (if judge(k - 1).Some? then [bars[k - 1].openTime] else [])
  }

  /** The names of the bars among 0 .. k-1 the judge signals on. */
  function SignalNames(bars: seq<Bar>, judge: Judge, k: nat): set<Name>
    requires k <= |bars|
  {
    if k == 0 then {}
    else SignalNames(bars, judge, k - 1) + (if judge(k - 1).Some? then {GetName(bars, k - 1)} else {})
  }

  /** n requests of the same sound file. */
  function Repeat(file: string, n: nat): seq<string> {
    if n == 0 then [] else Repeat(file, n - 1) + [file]
  }

  /** Where a sign of the given kind rests once confirmed (the Buy icon is compared first). */
  function ConfirmedY(cfg: Config, bar: Bar, kind: TradeType): real {
    if kind == Buy || cfg.sellIcon == cfg.buyIcon then bar.low - cfg.drawMargin
    else bar.high + cfg.drawMargin
  }

  // ---------------------------------------------------------------------------
  // Names

  /** Over strictly increasing open times, bars and names correspond one to one. */
  lemma GetNameInjective(bars: seq<Bar>, i: int, j: int)
    requires StrictlyIncreasing(OpenTimes(bars))
    requires 0 <= i < |bars| && 0 <= j < |bars|
    ensures GetName(bars, i) == GetName(bars, j) <==> i == j
  {
  }

  // ---------------------------------------------------------------------------
  // Alerts

  /** An alert always shows the overlay and requests the sound exactly when one is set. */
  lemma AlertEffect(st: Store, cfg: Config)
    ensures Alert(st, cfg).alertVisible
    ensures Alert(st, cfg).sounds == if cfg.soundFile != "" then st.sounds + [cfg.soundFile] else st.sounds
    ensures Alert(st, cfg).signs == st.signs && Alert(st, cfg).signTimes == st.signTimes
  {
  }

  /** KeyDown and Remove hide the overlay. */
  lemma OverlayCleared(st: Store, bars: seq<Bar>, index: int)
    requires 0 <= index < |bars|
    ensures !KeyDown(st).alertVisible && !Remove(st, bars, index).alertVisible
    ensures GetName(bars, index) !in Remove(st, bars, index).signs
  {
  }

  /**
   * A draw alerts only on the open bar and only as the draw policy says; it sets
   * the latch exactly when it alerts. Draws on closed bars never alert.
   */
  lemma DrawAlertPolicy(st: Store, cfg: Config, bars: seq<Bar>, index: int, kind: TradeType)
    requires 0 <= index < |bars|
    ensures var alerts := index == |bars| - 1 && Alerts.AlertsOnDraw(cfg.whenAlert, st.firstTime);
            var r := Draw(st, cfg, bars, index, kind);
            && (r.alertVisible <==> st.alertVisible || alerts)
            && (r.firstTime <==> st.firstTime || alerts)
            && r.sounds == (if alerts && cfg.soundFile != "" then st.sounds + [cfg.soundFile] else st.sounds)
  {
  }

  /** Under policy FirstTime a second draw on the same open bar stays silent until a confirmation. */
  lemma FirstTimeAlertsOnce(st: Store, cfg: Config, bars: seq<Bar>, k1: TradeType, k2: TradeType)
    requires |bars| >= 1 && cfg.whenAlert == Alerts.FirstTime
    ensures var r1 := Draw(st, cfg, bars, |bars| - 1, k1);
            var r2 := Draw(r1, cfg, bars, |bars| - 1, k2);
            r2.sounds == r1.sounds && r2.alertVisible == r1.alertVisible
  {
  }

  /** Under policy EveryTime every draw on the open bar alerts, whatever the latch says. */
  lemma EveryTimeAlertsEachDraw(st: Store, cfg: Config, bars: seq<Bar>, kind: TradeType)
    requires |bars| >= 1 && cfg.whenAlert == Alerts.EveryTime && cfg.soundFile != ""
    ensures Draw(st, cfg, bars, |bars| - 1, kind).sounds == st.sounds + [cfg.soundFile]
  {
  }

  /** Under policy None no draw and no confirmation ever shows the overlay or plays a sound. */
  lemma NoneNeverAlerts(st: Store, cfg: Config, bars: seq<Bar>, index: int, kind: TradeType)
    requires 0 <= index < |bars| && cfg.whenAlert == Alerts.None
    ensures Draw(st, cfg, bars, index, kind).alertVisible == st.alertVisible
    ensures Draw(st, cfg, bars, index, kind).sounds == st.sounds
    ensures Fix(st, cfg, bars, index).alertVisible == st.alertVisible
    ensures Fix(st, cfg, bars, index).sounds == st.sounds
  {
  }

  // ---------------------------------------------------------------------------
  // Confirmation

  /**
   * A confirmation that finds the sign appends exactly the bar's open time, moves
   * the sign per its icon, alerts iff the Update bit is set and clears the latch.
   */
  lemma FixFound(st: Store, cfg: Config, bars: seq<Bar>, index: int)
    requires 0 <= index < |bars| && GetName(bars, index) in st.signs
    ensures var r := Fix(st, cfg, bars, index);
            var name := GetName(bars, index);
            var s := st.signs[name];
            && r.signTimes == st.signTimes + [bars[index].openTime]
            && r.signs == st.signs[name := s.(y := FixedY(cfg, bars[index], s))]
            && (r.alertVisible <==> st.alertVisible || Alerts.AlertsOnFix(cfg.whenAlert))
            && r.sounds == (if Alerts.AlertsOnFix(cfg.whenAlert) && cfg.soundFile != ""
                            then st.sounds + [cfg.soundFile] else st.sounds)
            && !r.firstTime
  {
  }

  /** A confirmation that finds no sign changes nothing but the latch. */
  lemma FixMissing(st: Store, cfg: Config, bars: seq<Bar>, index: int)
    requires 0 <= index < |bars| && GetName(bars, index) !in st.signs
    ensures Fix(st, cfg, bars, index) == st.(firstTime := false)
  {
  }

  /** There is no duplicate guard: confirming the same bar twice records its time twice. */
  lemma FixTwiceDuplicates(st: Store, cfg: Config, bars: seq<Bar>, index: int)
    requires 0 <= index < |bars| && GetName(bars, index) in st.signs
    ensures Fix(Fix(st, cfg, bars, index), cfg, bars, index).signTimes
              == st.signTimes + [bars[index].openTime, bars[index].openTime]
  {
  }

  /**
   * Confirming a bar later than every recorded time keeps the recorded times strictly
   * increasing, and they are then bounded by that bar's open time.
   */
  lemma FixPreservesOrder(st: Store, cfg: Config, bars: seq<Bar>, index: int)
    requires 0 <= index < |bars|
    requires StrictlyIncreasing(st.signTimes)
    requires forall j :: 0 <= j < |st.signTimes| ==> st.signTimes[j] < bars[index].openTime
    ensures var r := Fix(st, cfg, bars, index).signTimes;
            StrictlyIncreasing(r) && forall j :: 0 <= j < |r| ==> r[j] <= bars[index].openTime
  {
  }

  /** Drawing a sign and then confirming it appends that bar's time: confirmation finds the draw. */
  lemma DrawThenFix(st: Store, cfg: Config, bars: seq<Bar>, index: int, kind: TradeType)
    requires 0 <= index < |bars|
    ensures var r := Fix(Draw(st, cfg, bars, index, kind), cfg, bars, index);
            && r.signTimes == st.signTimes + [bars[index].openTime]
            && r.signs == st.signs[GetName(bars, index) :=
                 Sign(IconFor(cfg, kind), bars[index].openTime, ConfirmedY(cfg, bars[index], kind))]
            && GetName(bars, index) in r.signs
            && r.signs[GetName(bars, index)]
                 == Sign(IconFor(cfg, kind), bars[index].openTime, ConfirmedY(cfg, bars[index], kind))
            && !r.firstTime
  {
    var name := GetName(bars, index);
    var drawn := Draw(st, cfg, bars, index, kind);
    var s := Sign(IconFor(cfg, kind), bars[index].openTime, bars[|bars| - 1].close);
    assert drawn.signs == st.signs[name := s];
    assert FixedY(cfg, bars[index], s) == ConfirmedY(cfg, bars[index], kind);
  }

  // ---------------------------------------------------------------------------
  // Backfill

  /** One backfill step records the bar's open time exactly when the judge signals on it. */
  lemma BackfillStepTimes(prev: Store, cfg: Config, bars: seq<Bar>, judge: Judge, i: int)
    requires 0 <= i < |bars|
    ensures BackfillStep(prev, cfg, bars, judge, i).signTimes
              == prev.signTimes + (if judge(i).Some? then [bars[i].openTime] else [])
  {
    match judge(i)
    case None =>
    case Some(kind) => DrawThenFix(prev, cfg, bars, i, kind);
  }

  /** Backfill confirms exactly the signalled bars among 0 .. k-1, in bar order. */
  lemma {:induction false} BackfillTimes(st: Store, cfg: Config, bars: seq<Bar>, judge: Judge, k: nat)
    requires k <= |bars|
    ensures Backfill(st, cfg, bars, judge, k).signTimes == st.signTimes + SignalTimes(bars, judge, k)
  {
    if k > 0 {
      BackfillTimes(st, cfg, bars, judge, k - 1);
      var prev := Backfill(st, cfg, bars, judge, k - 1);
      BackfillStepTimes(prev, cfg, bars, judge, k - 1);
      var step := if judge(k - 1).Some? then [bars[k - 1].openTime] else [];
      assert st.signTimes + (SignalTimes(bars, judge, k - 1) + step)
          == (st.signTimes + SignalTimes(bars, judge, k - 1)) + step;
    }
  }

  /** Backfill over bars 0 .. k-1 depends on the judge's answers for those bars only. */
  lemma {:induction false} BackfillReadsOnlyItsBars(st: Store, cfg: Config, bars: seq<Bar>, j1: Judge, j2: Judge, k: nat)
    requires k <= |bars|
    requires forall i :: 0 <= i < k ==> j1(i) == j2(i)
    ensures Backfill(st, cfg, bars, j1, k) == Backfill(st, cfg, bars, j2, k)
  {
    if k > 0 {
      BackfillReadsOnlyItsBars(st, cfg, bars, j1, j2, k - 1);
    }
  }

  /**
   * Backfill over closed bars never alerts on a draw: it shows the overlay exactly
   * when it was shown or a signal was confirmed under the Update bit, it requests
   * one sound per confirmed bar under the Update bit (when a file is set) and none
   * otherwise, and it leaves the latch cleared once any bar was confirmed.
   */
  lemma {:induction false} BackfillAlerts(st: Store, cfg: Config, bars: seq<Bar>, judge: Judge, k: nat)
    requires k < |bars|
    ensures var r := Backfill(st, cfg, bars, judge, k);
            var signalled := SignalTimes(bars, judge, k) != [];
            && (r.alertVisible <==> st.alertVisible || (signalled && Alerts.AlertsOnFix(cfg.whenAlert)))
            && r.sounds == st.sounds + (if Alerts.AlertsOnFix(cfg.whenAlert) && cfg.soundFile != ""
                                        then Repeat(cfg.soundFile, |SignalTimes(bars, judge, k)|) else [])
            && r.firstTime == (if signalled then false else st.firstTime)
  {
    BackfillOverlay(st, cfg, bars, judge, k);
    BackfillSounds(st, cfg, bars, judge, k);
  }

  /** The overlay and the latch after backfill over closed bars. */
  lemma {:induction false} BackfillOverlay(st: Store, cfg: Config, bars: seq<Bar>, judge: Judge, k: nat)
    requires k < |bars|
    ensures var r := Backfill(st, cfg, bars, judge, k);
            var signalled := SignalTimes(bars, judge, k) != [];
            && (r.alertVisible <==> st.alertVisible || (signalled && Alerts.AlertsOnFix(cfg.whenAlert)))
            && r.firstTime == (if signalled then false else st.firstTime)
  {
    if k > 0 {
      BackfillOverlay(st, cfg, bars, judge, k - 1);
    }
  }

  /** The sound requests after backfill over closed bars: one per confirmed bar under the Update bit. */
  lemma {:induction false} BackfillSounds(st: Store, cfg: Config, bars: seq<Bar>, judge: Judge, k: nat)
    requires k < |bars|
    ensures Backfill(st, cfg, bars, judge, k).sounds
              == st.sounds + (if Alerts.AlertsOnFix(cfg.whenAlert) && cfg.soundFile != ""
                              then Repeat(cfg.soundFile, |SignalTimes(bars, judge, k)|) else [])
  {
    if k > 0 {
      BackfillSounds(st, cfg, bars, judge, k - 1);
    }
  }

  /** One backfill step updates the registry at most at the bar's own name. */
  lemma BackfillStepSigns(prev: Store, cfg: Config, bars: seq<Bar>, judge: Judge, i: int)
    requires 0 <= i < |bars|
    ensures BackfillStep(prev, cfg, bars, judge, i).signs
              == match judge(i)
                 case None => prev.signs
                 case Some(kind) =>
                   prev.signs[GetName(bars, i) := Sign(IconFor(cfg, kind), bars[i].openTime, ConfirmedY(cfg, bars[i], kind))]
  {
    match judge(i)
    case None =>
    case Some(kind) => DrawThenFix(prev, cfg, bars, i, kind);
  }

  /**
   * Over strictly increasing open times, every signalled bar among 0 .. k-1 ends
   * with a confirmed sign of its kind at its confirmed position.
   */
  lemma {:induction false} BackfillSigns(st: Store, cfg: Config, bars: seq<Bar>, judge: Judge, k: nat)
    requires k <= |bars|
    requires StrictlyIncreasing(OpenTimes(bars))
    ensures var r := Backfill(st, cfg, bars, judge, k);
            forall i :: 0 <= i < k && judge(i).Some? ==>
              && GetName(bars, i) in r.signs
              && r.signs[GetName(bars, i)]
                   == Sign(IconFor(cfg, judge(i).value), bars[i].openTime, ConfirmedY(cfg, bars[i], judge(i).value))
  {
    if k > 0 {
      BackfillSigns(st, cfg, bars, judge, k - 1);
      var prev := Backfill(st, cfg, bars, judge, k - 1);
      BackfillStepSigns(prev, cfg, bars, judge, k - 1);
      match judge(k - 1)
      case None =>
      case Some(kind) =>
        var r := Backfill(st, cfg, bars, judge, k);
        forall i | 0 <= i < k - 1 && judge(i).Some?
          ensures GetName(bars, i) in r.signs
          ensures r.signs[GetName(bars, i)] == prev.signs[GetName(bars, i)]
        {
          GetNameInjective(bars, i, k - 1);
        }
    }
  }

  /** A name is a signal name exactly when it names some signalled bar among 0 .. k-1. */
  lemma {:induction false} SignalNamesAre(bars: seq<Bar>, judge: Judge, k: nat, n: Name)
    requires k <= |bars|
    ensures n in SignalNames(bars, judge, k) <==> exists i :: 0 <= i < k && judge(i).Some? && n == GetName(bars, i)
  {
    if k > 0 {
      SignalNamesAre(bars, judge, k - 1, n);
    }
  }

  /**
   * Backfill touches the registry only at the names of the signalled bars among
   * 0 .. k-1: bars without a signal gain no sign, and every other entry (the open
   * bar's sign among them) is left as it was.
   */
  lemma {:induction false} BackfillSignsFrame(st: Store, cfg: Config, bars: seq<Bar>, judge: Judge, k: nat)
    requires k <= |bars|
    ensures var r := Backfill(st, cfg, bars, judge, k);
            && r.signs.Keys == st.signs.Keys + SignalNames(bars, judge, k)
            && forall n :: n in st.signs && n !in SignalNames(bars, judge, k) ==> r.signs[n] == st.signs[n]
  {
    if k > 0 {
      BackfillSignsFrame(st, cfg, bars, judge, k - 1);
      var prev := Backfill(st, cfg, bars, judge, k - 1);
      var r := Backfill(st, cfg, bars, judge, k);
      match judge(k - 1)
      case None =>
      case Some(kind) =>
        var name := GetName(bars, k - 1);
        var drawn := Draw(prev, cfg, bars, k - 1, kind);
        assert drawn.signs == prev.signs[name := drawn.signs[name]];
        assert r.signs == drawn.signs[name := r.signs[name]];
    }
  }

  /**
   * Over strictly increasing open times, backfill keeps the confirmed times strictly
   * increasing when they all precede the first bar, and bounds them by bar k's open time.
   */
  lemma {:induction false} BackfillOrdered(st: Store, cfg: Config, bars: seq<Bar>, judge: Judge, k: nat)
    requires k < |bars|
    requires StrictlyIncreasing(OpenTimes(bars))
    requires StrictlyIncreasing(st.signTimes)
    requires forall j :: 0 <= j < |st.signTimes| ==> st.signTimes[j] < bars[0].openTime
    ensures var r := Backfill(st, cfg, bars, judge, k).signTimes;
            StrictlyIncreasing(r) && forall j :: 0 <= j < |r| ==> r[j] < bars[k].openTime
  {
    var ts := OpenTimes(bars);
    if k > 0 {
      BackfillOrdered(st, cfg, bars, judge, k - 1);
      var prev := Backfill(st, cfg, bars, judge, k - 1);
      assert ts[k - 1] < ts[k];
      match judge(k - 1)
      case None =>
      case Some(kind) =>
        var drawn := Draw(prev, cfg, bars, k - 1, kind);
        FixPreservesOrder(drawn, cfg, bars, k - 1);
    }
  }

  // ---------------------------------------------------------------------------
  // Ticks

  /** The first tick fails without a judge function and leaves nothing changed. */
  lemma TickWithoutJudgeThrows(st: Store, cfg: Config, bars: seq<Bar>, judge: Judge)
    requires |bars| >= 1 && !st.isInit
    ensures Tick(st, cfg, false, bars, judge) == None
  {
  }

  /**
   * The first successful tick backfills the closed bars 0 .. Count-2 (never the open
   * bar) exactly once, and raises the init flag so that no later tick backfills again.
   */
  lemma FirstTickBackfills(st: Store, cfg: Config, bars: seq<Bar>, judge: Judge)
    requires |bars| >= 1 && !st.isInit
    ensures var r := Tick(st, cfg, true, bars, judge);
            && r.Some? && r.value.isInit
            && r.value.signTimes == st.signTimes + SignalTimes(bars, judge, |bars| - 1)
  {
    BackfillTimes(st, cfg, bars, judge, |bars| - 1);
    var ready := Backfill(st, cfg, bars, judge, |bars| - 1).(isInit := true);
    match judge(|bars| - 1)
    case None =>
    case Some(kind) =>
      assert Draw(ready, cfg, bars, |bars| - 1, kind).signTimes == ready.signTimes;
  }

  /**
   * Under policy Update with a sound file set (the constructor's defaults), the first
   * tick requests exactly one sound per signalled closed bar: the draw on the open
   * bar does not alert.
   */
  lemma FirstTickSounds(st: Store, cfg: Config, bars: seq<Bar>, judge: Judge)
    requires |bars| >= 1 && !st.isInit
    requires cfg.whenAlert == Alerts.Update && cfg.soundFile != ""
    ensures Tick(st, cfg, true, bars, judge).value.sounds
              == st.sounds + Repeat(cfg.soundFile, |SignalTimes(bars, judge, |bars| - 1)|)
  {
    BackfillAlerts(st, cfg, bars, judge, |bars| - 1);
    var ready := Backfill(st, cfg, bars, judge, |bars| - 1).(isInit := true);
    match judge(|bars| - 1)
    case None =>
    case Some(kind) =>
      assert Draw(ready, cfg, bars, |bars| - 1, kind).sounds == ready.sounds;
  }

  /**
   * The first successful tick is the backfill of the closed bars followed by the tick
   * of an initialised store: what is proved about later ticks on the open bar holds
   * for the first tick's open-bar draw too.
   */
  lemma FirstTickIsBackfillThenTick(st: Store, cfg: Config, bars: seq<Bar>, judge: Judge)
    requires |bars| >= 1 && !st.isInit
    ensures Tick(st, cfg, true, bars, judge)
              == Tick(Backfill(st, cfg, bars, judge, |bars| - 1).(isInit := true), cfg, true, bars, judge)
  {
  }

  /** Once initialised, a tick never confirms anything and never backfills. */
  lemma LaterTickNeverConfirms(st: Store, cfg: Config, hasJudge: bool, bars: seq<Bar>, judge: Judge)
    requires |bars| >= 1 && st.isInit
    ensures var r := Tick(st, cfg, hasJudge, bars, judge);
            r.Some? && r.value.signTimes == st.signTimes && r.value.isInit
  {
  }

  /**
   * On an initialised store a tick asks the judge about the open bar only: a signal
   * (re)draws that bar's sign at the last close, replacing an earlier one; no signal
   * leaves the registry, the overlay and the latch untouched. A signal's tick is the
   * open-bar draw, so DrawAlertPolicy gives its overlay, latch and sounds.
   */
  lemma ProvisionalTick(st: Store, cfg: Config, bars: seq<Bar>, judge: Judge)
    requires |bars| >= 1 && st.isInit
    ensures var r := Tick(st, cfg, true, bars, judge).value;
            var index := |bars| - 1;
            match judge(index)
            case None => r == st
            case Some(kind) =>
              && r == Draw(st, cfg, bars, index, kind)
              && r.signs == st.signs[GetName(bars, index) := Sign(IconFor(cfg, kind), bars[index].openTime, bars[index].close)]
              && r.signTimes == st.signTimes
  {
  }

  /**
   * The remove branch is dead: from any store where an initialised engine has a judge
   * (the initial store included), every successful tick had a judge and keeps that so.
   */
  lemma RemoveBranchUnreachable(st: Store, cfg: Config, hasJudge: bool, bars: seq<Bar>, judge: Judge)
    requires |bars| >= 1 && (st.isInit ==> hasJudge)
    ensures var r := Tick(st, cfg, hasJudge, bars, judge);
            r.Some? <==> hasJudge
    ensures var r := Tick(st, cfg, hasJudge, bars, judge);
            r.Some? ==> r.value.isInit && r.value.signTimes == Backfill(st, cfg, bars, judge, if st.isInit then 0 else |bars| - 1).signTimes
  {
  }

  /**
   * Ticks Buy, None, Sell, None on one open bar: the None answers do not remove the
   * sign, so the Sell sign drawn third is what remains, and nothing is confirmed.
   */
  lemma TickVolatility(st: Store, cfg: Config, bars: seq<Bar>)
    requires |bars| >= 1 && st.isInit
    ensures var buy: Judge := _ => Some(Buy);
            var sell: Judge := _ => Some(Sell);
            var none: Judge := _ => None;
            var r1 := Tick(st, cfg, true, bars, buy).value;
            var r2 := Tick(r1, cfg, true, bars, none).value;
            var r3 := Tick(r2, cfg, true, bars, sell).value;
            var r4 := Tick(r3, cfg, true, bars, none).value;
            var index := |bars| - 1;
            && r2.signs == r1.signs
            && r4.signs == st.signs[GetName(bars, index) := Sign(cfg.sellIcon, bars[index].openTime, bars[index].close)]
            && r4.signTimes == st.signTimes
  {
  }

  /**
   * A bar opening confirms the bar that just closed, and only that one: over strictly
   * increasing confirmed times that precede it, the times stay strictly increasing.
   */
  lemma BarOpenedKeepsOrder(st: Store, cfg: Config, bars: seq<Bar>)
    requires |bars| >= 2
    requires StrictlyIncreasing(st.signTimes)
    requires forall j :: 0 <= j < |st.signTimes| ==> st.signTimes[j] < bars[|bars| - 2].openTime
    ensures var r := BarOpened(st, cfg, bars).signTimes;
            && StrictlyIncreasing(r)
            && (r == st.signTimes || r == st.signTimes + [bars[|bars| - 2].openTime])
  {
    FixPreservesOrder(st, cfg, bars, |bars| - 2);
  }

  // ---------------------------------------------------------------------------
  // The ordering invariant over a run of events

  /**
   * What holds between events on a series with strictly increasing open times: the
   * confirmed times are strictly increasing, are open times of bars of the series
   * and all precede the open bar, and before the first tick nothing is drawn or
   * confirmed.
   */
  predicate RunInvariant(st: Store, bars: seq<Bar>) {
    && |bars| >= 1
    && StrictlyIncreasing(OpenTimes(bars))
    && StrictlyIncreasing(st.signTimes)
    && (forall j :: 0 <= j < |st.signTimes| ==> st.signTimes[j] < bars[|bars| - 1].openTime)
    && (forall j :: 0 <= j < |st.signTimes| ==> st.signTimes[j] in OpenTimes(bars))
    && (!st.isInit ==> st.signTimes == [] && st.signs == map[])
  }

  lemma InitialRunInvariant(bars: seq<Bar>)
    requires |bars| >= 1 && StrictlyIncreasing(OpenTimes(bars))
    ensures RunInvariant(Initial, bars)
  {
  }

  /** Every successful tick keeps the invariant. */
  lemma TickKeepsRunInvariant(st: Store, cfg: Config, hasJudge: bool, bars: seq<Bar>, judge: Judge)
    requires RunInvariant(st, bars)
    ensures var r := Tick(st, cfg, hasJudge, bars, judge);
            r.Some? ==> RunInvariant(r.value, bars)
  {
    var index := |bars| - 1;
    if !st.isInit && hasJudge {
      BackfillOrdered(st, cfg, bars, judge, index);
      BackfillTimes(st, cfg, bars, judge, index);
      SignalTimesAreOpenTimes(bars, judge, index);
      var ready := Backfill(st, cfg, bars, judge, index).(isInit := true);
      assert RunInvariant(ready, bars);
      match judge(index)
      case None =>
      case Some(kind) =>
        assert Draw(ready, cfg, bars, index, kind).signTimes == ready.signTimes;
    }
  }

  /**
   * A new bar with a later open time appears and the bar before it is confirmed:
   * the invariant carries over to the longer series.
   */
  lemma BarOpenedKeepsRunInvariant(st: Store, cfg: Config, bars: seq<Bar>, bar: Bar)
    requires RunInvariant(st, bars)
    requires bars[|bars| - 1].openTime < bar.openTime
    ensures RunInvariant(BarOpened(st, cfg, bars + [bar]), bars + [bar])
  {
    var longer := bars + [bar];
    var index := |bars| - 1;
    var r := BarOpened(st, cfg, longer);
    assert StrictlyIncreasing(OpenTimes(longer)) by {
      assert OpenTimes(longer) == OpenTimes(bars) + [bar.openTime];
    }
    FixPreservesOrder(st, cfg, longer, index);
    if GetName(longer, index) in st.signs {
      FixFound(st, cfg, longer, index);
      assert r.signTimes == st.signTimes + [longer[index].openTime] && r.isInit;
    } else {
      FixMissing(st, cfg, longer, index);
      assert r.signTimes == st.signTimes && r.signs == st.signs && r.isInit == st.isInit;
    }
    forall j | 0 <= j < |r.signTimes| ensures r.signTimes[j] in OpenTimes(longer) {
      if j < |st.signTimes| {
        var i :| 0 <= i < |bars| && OpenTimes(bars)[i] == st.signTimes[j];
        assert OpenTimes(longer)[i] == r.signTimes[j];
      } else {
        assert OpenTimes(longer)[index] == r.signTimes[j];
      }
    }
    forall j | 0 <= j < |r.signTimes| ensures r.signTimes[j] < longer[|longer| - 1].openTime {
    }
  }

  /** The host updating the open bar's prices (not its open time) keeps the invariant. */
  lemma OpenBarUpdateKeepsRunInvariant(st: Store, bars: seq<Bar>, bar: Bar)
    requires RunInvariant(st, bars)
    requires bar.openTime == bars[|bars| - 1].openTime
    ensures RunInvariant(st, bars[..|bars| - 1] + [bar])
  {
    assert OpenTimes(bars[..|bars| - 1] + [bar]) == OpenTimes(bars);
  }

  /** Every time signalled in bars 0 .. k-1 is an open time of the series. */
  lemma {:induction false} SignalTimesAreOpenTimes(bars: seq<Bar>, judge: Judge, k: nat)
    requires k <= |bars|
    ensures forall j :: 0 <= j < |SignalTimes(bars, judge, k)| ==> SignalTimes(bars, judge, k)[j] in OpenTimes(bars)
  {
    if k > 0 {
      SignalTimesAreOpenTimes(bars, judge, k - 1);
      assert OpenTimes(bars)[k - 1] == bars[k - 1].openTime;
    }
  }

  /**
   * Between events the confirmed times meet what the prev/next buttons need: they
   * are open times of bars of the series, and strictly increasing.
   */
  lemma RunInvariantSuitsNavigation(st: Store, bars: seq<Bar>)
    requires RunInvariant(st, bars)
    ensures forall t :: t in st.signTimes ==> t in OpenTimes(bars)
    ensures StrictlyIncreasing(st.signTimes)
  {
  }

  // ---------------------------------------------------------------------------
  // Scenario

  /** A judge that signals on bar m only. */
  lemma {:induction false} SingleSignalTimes(bars: seq<Bar>, judge: Judge, m: int, k: nat)
    requires k <= |bars|
    requires forall i :: 0 <= i < |bars| ==> (judge(i).Some? <==> i == m)
    ensures SignalTimes(bars, judge, k) == if 0 <= m < k then [bars[m].openTime] else []
  {
    if k > 0 {
      SingleSignalTimes(bars, judge, m, k - 1);
    }
  }

  /** The names a judge that signals on bar m only gives rise to. */
  lemma {:induction false} SingleSignalNames(bars: seq<Bar>, judge: Judge, m: int, k: nat)
    requires k <= |bars|
    requires forall i :: 0 <= i < |bars| ==> (judge(i).Some? <==> i == m)
    ensures SignalNames(bars, judge, k) == if 0 <= m < k then {GetName(bars, m)} else {}
  {
    if k > 0 {
      SingleSignalNames(bars, judge, m, k - 1);
    }
  }

  /**
   * A series whose judge signals Sell on one closed bar m only: the first tick leaves
   * exactly that bar's time confirmed, with its sign above the bar's high, and that
   * sign is the only one in the registry.
   */
  lemma SingleSellScenario(cfg: Config, bars: seq<Bar>, m: nat)
    requires m < |bars| - 1
    requires StrictlyIncreasing(OpenTimes(bars))
    requires cfg.sellIcon != cfg.buyIcon
    ensures var judge: Judge := i => if i == m then Some(Sell) else None;
            var r := Tick(Initial, cfg, true, bars, judge).value;
            && r.signTimes == [bars[m].openTime]
            && GetName(bars, m) in r.signs
            && r.signs[GetName(bars, m)] == Sign(cfg.sellIcon, bars[m].openTime, bars[m].high + cfg.drawMargin)
            && r.signs.Keys == {GetName(bars, m)}
  {
    var judge: Judge := i => if i == m then Some(Sell) else None;
    var k := |bars| - 1;
    var b := Backfill(Initial, cfg, bars, judge, k);
    BackfillTimes(Initial, cfg, bars, judge, k);
    SingleSignalTimes(bars, judge, m, k);
    assert b.signTimes == [bars[m].openTime];
    BackfillSigns(Initial, cfg, bars, judge, k);
    assert judge(m) == Some(Sell);
    assert b.signs[GetName(bars, m)] == Sign(cfg.sellIcon, bars[m].openTime, bars[m].high + cfg.drawMargin);
    BackfillSignsFrame(Initial, cfg, bars, judge, k);
    SingleSignalNames(bars, judge, m, k);
    assert b.signs.Keys == {GetName(bars, m)};
    assert judge(k) == None;
    assert Tick(Initial, cfg, true, bars, judge) == Some(b.(isInit := true));
  }
}
