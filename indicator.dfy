/**
 * SignIndicator: the object that owns the sign engine's state and updates it in
 * place as the host calls its event handlers (tick, bar opened, key down) one at
 * a time. Each method is proved against the corresponding transition of the
 * pure Lifecycle model, whose properties are proved there.
 */
module Indicator {
  import opened Wrappers
  import opened Series
  import Alerts
  import SoundFiles
  import Lifecycle

  class SignIndicator {
    // Settable properties
    var buyIcon: Lifecycle.IconType
    var sellIcon: Lifecycle.IconType
    var drawMargin: real
    var jumpMargin: int
    var whenAlert: Alerts.WhenAlert
    var soundFile: string

    /** Whether the indicator was given a judge function (it is never replaced). */
    const hasJudge: bool

    // State, including the chart's registry of sign objects and the alert overlay
    var signs: map<Lifecycle.Name, Lifecycle.Sign>
    var signTimes: seq<int>
    var firstTime: bool
    var isInit: bool
    var alertVisible: bool
    /** The sound files whose playback was requested, oldest first. */
    var sounds: seq<string>

    /** Once constructed the sound file is never empty, so every alert requests a sound. */
    ghost predicate Valid()
      reads this
    {
      soundFile != ""
    }

    function Config(): Lifecycle.Config
      reads this
    {
      Lifecycle.Config(buyIcon, sellIcon, drawMargin, whenAlert, soundFile)
    }

    function Model(): Lifecycle.Store
      reads this
    {
      Lifecycle.Store(signs, signTimes, firstTime, isInit, alertVisible, sounds)
    }

    /** `defaultMargin` stands for the host's visible price range over 20. */
    constructor (hasJudge: bool, defaultMargin: real)
      ensures Valid()
      ensures Model() == Lifecycle.Initial && this.hasJudge == hasJudge
      ensures Config() == Lifecycle.Config(Lifecycle.UpArrow, Lifecycle.DownArrow, defaultMargin,
                                           Alerts.Update, SoundFiles.MediaDir + ".wav")
      ensures jumpMargin == 1
    {
      this.hasJudge := hasJudge;
      signTimes := [];
      firstTime := false;
      isInit := false;
      buyIcon := Lifecycle.UpArrow;
      sellIcon := Lifecycle.DownArrow;
      drawMargin := defaultMargin;
      jumpMargin := 1;
      soundFile := "";
      whenAlert := Alerts.Update;
      signs := map[];
      alertVisible := false;
      sounds := [];
      new;
      SetSoundFile("");
    }

    /** The SoundFile setter, step by step as the property does it. */
    method SetSoundFile(value: string)
      modifies this
      ensures soundFile == SoundFiles.SoundFileAfter(old(soundFile), value)
      ensures old(Valid()) ==> Valid()
      ensures Model() == old(Model())
      ensures buyIcon == old(buyIcon) && sellIcon == old(sellIcon) && drawMargin == old(drawMargin)
      ensures whenAlert == old(whenAlert) && jumpMargin == old(jumpMargin)
    {
      if value == "" {
        soundFile := "";
      }
      if '\\' !in value {
        soundFile := SoundFiles.MediaDir + value;
      }
      if '.' !in value {
        soundFile := soundFile + ".wav";
      }
    }

    method Alert()
      requires Valid()
      modifies this
      ensures Valid()
      ensures Model() == Lifecycle.Alert(old(Model()), old(Config()))
      ensures Config() == old(Config()) && jumpMargin == old(jumpMargin)
    {
      alertVisible := true;
      if soundFile != "" {
        sounds := sounds + [soundFile];
      }
    }

    method DrawSign(bars: seq<Bar>, index: int, tradeType: TradeType)
      requires 0 <= index < |bars|
      requires Valid()
      modifies this
      ensures Valid()
      ensures Model() == Lifecycle.Draw(old(Model()), old(Config()), bars, index, tradeType)
      ensures Config() == old(Config()) && jumpMargin == old(jumpMargin)
    {
      var iconType := if tradeType == Buy then buyIcon else sellIcon;
      var time := bars[index].openTime;
      var price := bars[|bars| - 1].close;
      signs := signs[Lifecycle.SignAt(time) := Lifecycle.Sign(iconType, time, price)];
      if index == |bars| - 1 {
        if (Alerts.HasFlag(whenAlert, Alerts.FirstTime) && !firstTime) || whenAlert == Alerts.EveryTime {
          Alert();
          firstTime := true;
        }
      }
    }

    method FixSign(bars: seq<Bar>, index: int)
      requires 0 <= index < |bars|
      requires Valid()
      modifies this
      ensures Valid()
      ensures Model() == Lifecycle.Fix(old(Model()), old(Config()), bars, index)
      ensures Config() == old(Config()) && jumpMargin == old(jumpMargin)
    {
      var name := Lifecycle.GetName(bars, index);
      if name in signs {
        var sign := signs[name];
        var time := bars[index].openTime;
        signTimes := signTimes + [time];
        var upper := bars[index].high + drawMargin;
        var lower := bars[index].low - drawMargin;
        if sign.icon == buyIcon {
          signs := signs[name := sign.(y := lower)];
        } else if sign.icon == sellIcon {
          signs := signs[name := sign.(y := upper)];
        }
        if Alerts.HasFlag(whenAlert, Alerts.Update) {
          Alert();
        }
      }
      firstTime := false;
    }

    method RemoveSign(bars: seq<Bar>, index: int)
      requires 0 <= index < |bars|
      requires Valid()
      modifies this
      ensures Valid()
      ensures Model() == Lifecycle.Remove(old(Model()), bars, index)
      ensures Config() == old(Config()) && jumpMargin == old(jumpMargin)
    {
      var name := Lifecycle.GetName(bars, index);
      signs := signs - {name};
      alertVisible := false;
    }

    /**
     * The tick handler. Returns false where the source throws InvalidOperationException
     * (first tick without a judge function); the state is then unchanged.
     */
    method OnTick(bars: seq<Bar>, judge: Lifecycle.Judge) returns (ok: bool)
      requires |bars| >= 1
      requires Valid()
      modifies this
      ensures Valid()
      ensures ok == Lifecycle.Tick(old(Model()), old(Config()), hasJudge, bars, judge).Some?
      ensures ok ==> Model() == Lifecycle.Tick(old(Model()), old(Config()), hasJudge, bars, judge).value
      ensures !ok ==> Model() == old(Model())
      ensures Config() == old(Config()) && jumpMargin == old(jumpMargin)
    {
      if !isInit {
        if !hasJudge {
          return false;
        }
        for i := 0 to |bars| - 1
          invariant Config() == old(Config()) && jumpMargin == old(jumpMargin)
          invariant Model() == Lifecycle.Backfill(old(Model()), old(Config()), bars, judge, i)
        {
          var res := judge(i);
          if res.Some? {
            DrawSign(bars, i, res.value);
            FixSign(bars, i);
          }
        }
        isInit := true;
      }
      var index := |bars| - 1;
      if hasJudge {
        var res := judge(index);
        if res.Some? {
          DrawSign(bars, index, res.value);
        }
      } else {
        RemoveSign(bars, index);
      }
      return true;
    }

    /** The bar-opened handler: confirm the bar that just closed. */
    method OnBarOpened(bars: seq<Bar>)
      requires |bars| >= 2
      requires Valid()
      modifies this
      ensures Valid()
      ensures Model() == Lifecycle.BarOpened(old(Model()), old(Config()), bars)
      ensures Config() == old(Config()) && jumpMargin == old(jumpMargin)
    {
      FixSign(bars, |bars| - 2);
    }

    /** The key-down handler: hide the alert overlay. */
    method OnKeyDown()
      requires Valid()
      modifies this
      ensures Valid()
      ensures Model() == Lifecycle.KeyDown(old(Model()))
      ensures Config() == old(Config()) && jumpMargin == old(jumpMargin)
    {
      alertVisible := false;
    }
  }

  /** With a valid indicator every alert requests playback of its sound file. */
  lemma ValidAlertAlwaysSounds(ind: SignIndicator)
    requires ind.Valid()
    ensures Lifecycle.Alert(ind.Model(), ind.Config()).sounds == ind.sounds + [ind.soundFile]
  {
  }

  /**
   * A client run: construct the indicator with a judge that signals Sell on bar m
   * only, let the first tick arrive, and read back the confirmed times and the sign.
   */
  method SingleSellRun(bars: seq<Bar>, m: nat, margin: real) returns (times: seq<int>, sign: Lifecycle.Sign)
    requires m < |bars| - 1
    requires StrictlyIncreasing(OpenTimes(bars))
    ensures times == [bars[m].openTime]
    ensures sign == Lifecycle.Sign(Lifecycle.DownArrow, bars[m].openTime, bars[m].high + margin)
  {
    var ind := new SignIndicator(true, margin);
    var judge: Lifecycle.Judge := i => if i == m then Some(Sell) else None;
    Lifecycle.SingleSellScenario(ind.Config(), bars, m);
    var ok := ind.OnTick(bars, judge);
    times := ind.signTimes;
    sign := ind.signs[Lifecycle.GetName(bars, m)];
  }
}
