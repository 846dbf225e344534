# Sign indicator engine

A model of the sign engine of the cTrader indicator SignToolsTemplete: the
`SignIndicator` class that draws buy/sell signs on a price chart, asks a judge
function about every bar, confirms the sign of a bar when the bar closes,
raises alerts (an overlay and a sound) as the `WhenAlert` policy says, and lets
the user jump between confirmed signs with four buttons. The example judge
`BuyOrSell` (a moving-average crossover) is modelled too.

Modules:

- `Series`: bars (open time, high, low, close), `TradeType`, ordering predicates.
- `Alerts`: the `WhenAlert` flag enumeration with `HasFlag` on its bit values,
  and the two alert decisions (on a draw, on a confirmation).
- `SoundFiles`: the `SoundFile` property setter as a case table.
- `Lifecycle`: the engine as a pure state machine. A `Store` is the registry of
  drawn signs (keyed by a name derived from the bar's open time), the confirmed
  open times, the first-time latch, the init flag, the overlay's visibility and
  the sounds requested. `Draw`, `Fix`, `Remove`, `Alert`, `Backfill`, `Tick`
  and `BarOpened` are the transitions; the lemmas state what they guarantee.
- `Indicator`: the class `SignIndicator` with those fields, whose methods update
  them in place and are each proved to perform the matching `Lifecycle`
  transition. The host's events become method calls: `OnTick`, `OnBarOpened`,
  `OnKeyDown`. The bar series and the judge function are parameters of each call;
  the judge is asked afresh each time, so its answer for the open bar may change
  from tick to tick. Whether a judge function was given at all is the constant
  `hasJudge`.
- `Navigation`: `List<T>.BinarySearch` as .NET runs it, the prev/next button
  handlers built on its result, the oldest/newest buttons and the scroll clamp.
- `Signal`: `BuyOrSell` over given average series.

Where the code behaves otherwise than one might expect, the model follows the code:

- A tick whose judge answer is "no signal" leaves an earlier provisional sign of
  the open bar in place (and it is confirmed when the bar closes). `_RemoveSign`
  is reached only when there is no judge function, and then the first tick has
  already thrown; `Lifecycle.RemoveBranchUnreachable` proves that branch dead.
- `_FixSign` has no duplicate guard: confirming a bar twice records its time twice.
- Setting `SoundFile` to `""` stores `C:\Windows\Media\.wav`, not the empty string.
  The constructor does exactly that, so the stored file is never empty and every
  alert requests a sound.
- The prev/next handlers do not check bounds; a click with no sign on that side
  throws `ArgumentOutOfRangeException`, modelled as the outcome `OutOfRange`.
- A draw places the sign at the LAST bar's close, also for the closed bars drawn
  during backfill; confirmation then moves it. The Buy icon is compared before the
  Sell icon, so when both icons are the same a confirmed Sell sign sits below the low.

## Model

| member | source | states |
|---|---|---|
| Alerts.HasFlag | SignToolsTemplete/SignToolsTemplete.cs:215 | defines the [Flags] bit test on the enum values of :86; FirstTimeFlag and UpdateFlag state it |
| Alerts.AlertsOnDraw | SignToolsTemplete/SignToolsTemplete.cs:286 | defines the draw alert condition; DrawPolicy states it value by value |
| Alerts.AlertsOnFix | SignToolsTemplete/SignToolsTemplete.cs:215 | defines the confirmation alert condition; FixPolicy states it value by value |
| Alerts.FirstTimeFlag | SignToolsTemplete/SignToolsTemplete.cs:86 | the FirstTime bit is set exactly in FirstTime and FirstAndUpdate (not in EveryTime) |
| Alerts.UpdateFlag | SignToolsTemplete/SignToolsTemplete.cs:86 | the Update bit is set exactly in Update and FirstAndUpdate (not in EveryTime) |
| Alerts.DrawPolicy | SignToolsTemplete/SignToolsTemplete.cs:286 | a draw on the open bar alerts iff (FirstTime or FirstAndUpdate, and not yet alerted) or EveryTime |
| Alerts.FixPolicy | SignToolsTemplete/SignToolsTemplete.cs:215 | a confirmation alerts iff the policy is Update or FirstAndUpdate |
| Alerts.NoneAndEveryTime | SignToolsTemplete/SignToolsTemplete.cs:86 | None alerts on nothing; EveryTime alerts on every draw and never on a confirmation |
| SoundFiles.SoundFileAfter | SignToolsTemplete/SignToolsTemplete.cs:97-107 | defines the file stored by the setter as the case table of its three tests; specified by the four lemmas below and proved equal to the setter by SetSoundFile |
| SoundFiles.EmptyValueNamesWav | SignToolsTemplete/SignToolsTemplete.cs:97-107 | setting "" stores C:\Windows\Media\.wav |
| SoundFiles.SoundFileEmptyIff | SignToolsTemplete/SignToolsTemplete.cs:97-107 | the stored file is empty iff it was empty and the value has both a backslash and a dot |
| SoundFiles.BareNameResolved | SignToolsTemplete/SignToolsTemplete.cs:100-102 | a value without a backslash is stored behind the media directory prefix |
| SoundFiles.PathWithoutDotExtendsPrevious | SignToolsTemplete/SignToolsTemplete.cs:100-105 | a value with a backslash and no dot appends .wav to the previous file |
| Indicator.SignIndicator.constructor | SignToolsTemplete/SignToolsTemplete.cs:129-143 | nothing drawn or confirmed, flags cleared, default icons, margin, jump margin 1, policy Update, sound file from setting "" |
| Indicator.SignIndicator.SetSoundFile | SignToolsTemplete/SignToolsTemplete.cs:97-107 | the three sequential tests leave the file SoundFileAfter(old file, value); keeps the stored file non-empty |
| Indicator.SignIndicator.Alert | SignToolsTemplete/SignToolsTemplete.cs:315-320 | shows the overlay; requests a sound iff the file is non-empty |
| Indicator.SignIndicator.DrawSign | SignToolsTemplete/SignToolsTemplete.cs:277-291 | performs Lifecycle.Draw: the sign under the bar's name at the last close; alerts only on the open bar |
| Indicator.SignIndicator.FixSign | SignToolsTemplete/SignToolsTemplete.cs:198-220 | performs Lifecycle.Fix: appends the time, moves the sign, alerts on Update, clears the latch |
| Indicator.SignIndicator.RemoveSign | SignToolsTemplete/SignToolsTemplete.cs:300-304 | performs Lifecycle.Remove: the sign is gone and the overlay hidden |
| Indicator.SignIndicator.OnTick | SignToolsTemplete/SignToolsTemplete.cs:168-194 | fails (state unchanged) on a first tick without judge; otherwise performs Lifecycle.Tick, its loop keeping the backfill prefix as invariant |
| Indicator.SignIndicator.OnBarOpened | SignToolsTemplete/SignToolsTemplete.cs:162 | confirms the bar at Count-2 |
| Indicator.SignIndicator.OnKeyDown | SignToolsTemplete/SignToolsTemplete.cs:154 | hides the overlay and changes nothing else |
| Indicator.ValidAlertAlwaysSounds | SignToolsTemplete/SignToolsTemplete.cs:317-319 | with the file never empty, every alert requests playback of it |
| Indicator.SingleSellRun | SignToolsTemplete/SignToolsTemplete.cs:170-182 | a client run: a judge signalling Sell on one closed bar yields exactly that time confirmed, sign above its high |
| Lifecycle.GetName | SignToolsTemplete/SignToolsTemplete.cs:308-311 | defines the sign name of a bar from its open time; GetNameInjective states it |
| Lifecycle.IconFor | SignToolsTemplete/SignToolsTemplete.cs:278 | defines the icon chosen for a trade type; DrawThenFix and BackfillSigns state the sign it gives |
| Lifecycle.Alert | SignToolsTemplete/SignToolsTemplete.cs:315-320 | defines the alert transition; AlertEffect states it |
| Lifecycle.Draw | SignToolsTemplete/SignToolsTemplete.cs:277-296 | defines the draw transition; DrawAlertPolicy, FirstTimeAlertsOnce, EveryTimeAlertsEachDraw and NoneNeverAlerts state it |
| Lifecycle.Fix | SignToolsTemplete/SignToolsTemplete.cs:198-220 | defines the confirmation transition; FixFound, FixMissing, FixTwiceDuplicates, FixPreservesOrder and DrawThenFix state it |
| Lifecycle.FixedY | SignToolsTemplete/SignToolsTemplete.cs:206-214 | defines the confirmed position with the Buy icon compared first; FixFound and DrawThenFix state it through ConfirmedY |
| Lifecycle.Remove | SignToolsTemplete/SignToolsTemplete.cs:300-304 | defines the removal transition; OverlayCleared states it |
| Lifecycle.KeyDown | SignToolsTemplete/SignToolsTemplete.cs:154 | defines the key-down transition; OverlayCleared states it |
| Lifecycle.Backfill | SignToolsTemplete/SignToolsTemplete.cs:173-180 | defines the first tick's loop over the closed bars; BackfillTimes, BackfillAlerts, BackfillSigns, BackfillSignsFrame and BackfillOrdered state it |
| Lifecycle.BackfillStep | SignToolsTemplete/SignToolsTemplete.cs:175-179 | defines one pass of the backfill loop, draw then confirm on a signal; the Backfill lemmas state it |
| Lifecycle.Tick | SignToolsTemplete/SignToolsTemplete.cs:168-194 | defines the tick handler, None for the thrown exception; the Tick lemmas below state it |
| Lifecycle.BarOpened | SignToolsTemplete/SignToolsTemplete.cs:162 | defines the bar-opened handler as the confirmation of bar Count-2; BarOpenedKeepsOrder and BarOpenedKeepsRunInvariant state it |
| Lifecycle.GetNameInjective | SignToolsTemplete/SignToolsTemplete.cs:308-311 | over strictly increasing open times names and bars correspond one to one |
| Lifecycle.AlertEffect | SignToolsTemplete/SignToolsTemplete.cs:315-320 | an alert shows the overlay, requests the sound iff one is set, touches no sign |
| Lifecycle.OverlayCleared | SignToolsTemplete/SignToolsTemplete.cs:300-304 | key down and removal hide the overlay; removal deletes the bar's sign |
| Lifecycle.DrawAlertPolicy | SignToolsTemplete/SignToolsTemplete.cs:284-290 | a draw alerts iff on the open bar and the draw policy holds; the latch is set iff it alerts (or was set) |
| Lifecycle.FirstTimeAlertsOnce | SignToolsTemplete/SignToolsTemplete.cs:286-288 | under FirstTime a second draw on the open bar before a confirmation is silent |
| Lifecycle.EveryTimeAlertsEachDraw | SignToolsTemplete/SignToolsTemplete.cs:286 | under EveryTime every draw on the open bar requests a sound |
| Lifecycle.NoneNeverAlerts | SignToolsTemplete/SignToolsTemplete.cs:86 | under None neither draws nor confirmations alert |
| Lifecycle.FixFound | SignToolsTemplete/SignToolsTemplete.cs:199-218 | a found sign: exactly its bar's open time appended, Y moved per icon, the overlay shown and one sound requested (when a file is set) iff the Update bit is set, latch cleared |
| Lifecycle.FixMissing | SignToolsTemplete/SignToolsTemplete.cs:199-219 | no sign: only the latch changes |
| Lifecycle.FixTwiceDuplicates | SignToolsTemplete/SignToolsTemplete.cs:202-203 | confirming a bar twice records its time twice |
| Lifecycle.FixPreservesOrder | SignToolsTemplete/SignToolsTemplete.cs:202-203 | confirming a later bar keeps the confirmed times strictly increasing |
| Lifecycle.DrawThenFix | SignToolsTemplete/SignToolsTemplete.cs:176-179 | a drawn sign confirmed at once: time appended, the registry changed only at that bar's name, sign at Low-margin (Buy) or High+margin (Sell, distinct icons) |
| Lifecycle.BackfillTimes | SignToolsTemplete/SignToolsTemplete.cs:174-180 | backfill confirms exactly the signalled bars 0..k-1, in increasing order |
| Lifecycle.BackfillReadsOnlyItsBars | SignToolsTemplete/SignToolsTemplete.cs:174-175 | backfill over bars 0..k-1 depends on the judge's answers for those bars only |
| Lifecycle.BackfillAlerts | SignToolsTemplete/SignToolsTemplete.cs:174-180 | backfill never alerts on a draw: under the Update bit it requests one sound per confirmed bar (when a file is set) and shows the overlay if any bar signals; otherwise no sound and the overlay unchanged; latch cleared once any bar signals |
| Lifecycle.BackfillSigns | SignToolsTemplete/SignToolsTemplete.cs:174-180 | every signalled closed bar ends with its confirmed sign of its kind |
| Lifecycle.SignalNamesAre | SignToolsTemplete/SignToolsTemplete.cs:174-180 | a name is among SignalNames exactly when it names a bar among 0..k-1 the judge signals on |
| Lifecycle.BackfillSignsFrame | SignToolsTemplete/SignToolsTemplete.cs:174-180 | backfill adds signs exactly at SignalNames, the names of the signalled closed bars; every other entry, the open bar's among them, is left as it was |
| Lifecycle.BackfillOrdered | SignToolsTemplete/SignToolsTemplete.cs:174-180 | backfill keeps the confirmed times strictly increasing and below the next bar |
| Lifecycle.TickWithoutJudgeThrows | SignToolsTemplete/SignToolsTemplete.cs:170-173 | the first tick without a judge function throws |
| Lifecycle.FirstTickBackfills | SignToolsTemplete/SignToolsTemplete.cs:170-182 | the first tick backfills bars 0..Count-2 once and raises the init flag |
| Lifecycle.FirstTickSounds | SignToolsTemplete/SignToolsTemplete.cs:174-179 | with policy Update and a sound file set (the defaults of :141-142), the first tick requests exactly one sound per signalled closed bar |
| Lifecycle.FirstTickIsBackfillThenTick | SignToolsTemplete/SignToolsTemplete.cs:168-194 | the first successful tick is the backfill followed by the tick of an initialised store, so ProvisionalTick and DrawAlertPolicy describe its open-bar draw |
| Lifecycle.LaterTickNeverConfirms | SignToolsTemplete/SignToolsTemplete.cs:170-193 | after init a tick neither backfills nor confirms |
| Lifecycle.ProvisionalTick | SignToolsTemplete/SignToolsTemplete.cs:185-193 | a tick asks about the open bar only: a signal gives exactly the open-bar draw, its sign replaced at the close; no signal changes nothing |
| Lifecycle.RemoveBranchUnreachable | SignToolsTemplete/SignToolsTemplete.cs:186-193 | from reachable stores a tick succeeds iff there is a judge, so the remove branch is never taken |
| Lifecycle.TickVolatility | SignToolsTemplete/SignToolsTemplete.cs:185-193 | ticks Buy, None, Sell, None leave the Sell sign and confirm nothing |
| Lifecycle.BarOpenedKeepsOrder | SignToolsTemplete/SignToolsTemplete.cs:162 | a bar opening confirms at most the closed bar's time, keeping the order |
| Lifecycle.InitialRunInvariant | SignToolsTemplete/SignToolsTemplete.cs:123-125 | the run invariant (times strictly increasing, open times of the series, before the open bar) holds after construction |
| Lifecycle.TickKeepsRunInvariant | SignToolsTemplete/SignToolsTemplete.cs:168-194 | every successful tick keeps the run invariant |
| Lifecycle.BarOpenedKeepsRunInvariant | SignToolsTemplete/SignToolsTemplete.cs:162 | a new later bar plus the confirmation of Count-2 keeps the run invariant |
| Lifecycle.OpenBarUpdateKeepsRunInvariant | SignToolsTemplete/SignToolsTemplete.cs:281 | price updates of the open bar keep the run invariant |
| Lifecycle.SignalTimesAreOpenTimes | SignToolsTemplete/SignToolsTemplete.cs:202-203 | every time backfill records is an open time of the series |
| Lifecycle.RunInvariantSuitsNavigation | SignToolsTemplete/SignToolsTemplete.cs:240-253 | between events the confirmed times meet what the prev/next buttons need: open times of the series, strictly increasing |
| Lifecycle.SingleSellScenario | SignToolsTemplete/SignToolsTemplete.cs:170-193 | a judge signalling Sell on one closed bar only confirms exactly that bar, sign above its high, and that sign is the only one in the registry |
| Navigation.Complement | SignToolsTemplete/SignToolsTemplete.cs:243 | defines the C# complement ~x as -x-1; BinarySearch and PrevPosIsGreatestBelow state results through it |
| Navigation.PrevPos | SignToolsTemplete/SignToolsTemplete.cs:242-244 | defines the prev button's position from the search result; PrevPosIsGreatestBelow states it |
| Navigation.NextPos | SignToolsTemplete/SignToolsTemplete.cs:249-252 | defines the next button's position from the search result; NextPosIsLeastAbove states it |
| Navigation.ScrollStart | SignToolsTemplete/SignToolsTemplete.cs:263-266 | defines the clamped scroll start; ScrollStartClamps states it |
| Navigation.ScrollX | SignToolsTemplete/SignToolsTemplete.cs:263-267 | defines the position handed to ScrollXTo, the clamped start plus JumpMargin; OldestScroll and NewestScroll state it |
| Navigation.ScrollToTime | SignToolsTemplete/SignToolsTemplete.cs:260-262 | defines the scroll to a sign's time through the time-to-index lookup; PrevClick and NextClick state where a click scrolls through it |
| Navigation.BinarySearch | SignToolsTemplete/SignToolsTemplete.cs:242 | the .NET bisection: a hit holds t; on a sorted list, a hit or the complement of the insertion point |
| Navigation.PrevPosIsGreatestBelow | SignToolsTemplete/SignToolsTemplete.cs:243-244 | the prev position holds the greatest confirmed time below t; it is -1 iff there is none |
| Navigation.NextPosIsLeastAbove | SignToolsTemplete/SignToolsTemplete.cs:250-252 | the next position holds the least confirmed time above t; it is the length iff there is none |
| Navigation.PrevClick | SignToolsTemplete/SignToolsTemplete.cs:240-245 | the prev button scrolls to the latest sign before bar LastVisibleBarIndex-JumpMargin, or throws when there is none |
| Navigation.NextClick | SignToolsTemplete/SignToolsTemplete.cs:247-253 | the next button scrolls to the earliest sign after bar LastVisibleBarIndex-JumpMargin+1, or throws when there is none |
| Navigation.IndexOfTime | SignToolsTemplete/SignToolsTemplete.cs:261 | the time-to-index lookup finds the first bar with that open time |
| Navigation.ScrollStartClamps | SignToolsTemplete/SignToolsTemplete.cs:264-266 | the scroll start is the bar index nearest to index-MaxVisibleBars when Count >= 1, and -1 on an empty series |
| Navigation.OldestClick | SignToolsTemplete/SignToolsTemplete.cs:254 | defines the oldest button's scroll; OldestScroll states it |
| Navigation.NewestClick | SignToolsTemplete/SignToolsTemplete.cs:255 | defines the newest button's scroll; NewestScroll states it |
| Navigation.OldestScroll | SignToolsTemplete/SignToolsTemplete.cs:254 | the oldest button scrolls to JumpMargin |
| Navigation.NewestScroll | SignToolsTemplete/SignToolsTemplete.cs:255 | the newest button scrolls to the last bar (at most 20 visible bars) or Count+20-MaxVisibleBars |
| Signal.BuyOrSell | SignToolsTemplete/SignToolsTemplete.cs:66-77 | Sell iff long crosses strictly above short, Buy iff it crosses strictly below, nothing before bar 1 |
| Signal.SwapAveragesSwapsSignal | SignToolsTemplete/SignToolsTemplete.cs:70-73 | swapping the two averages swaps Buy and Sell |
| Signal.TouchingGivesNoSignal | SignToolsTemplete/SignToolsTemplete.cs:70-76 | averages that touch at bar i or i-1 give no signal |
| Signal.SignalIsLocal | SignToolsTemplete/SignToolsTemplete.cs:69-73 | the signal at bar i depends on bars i-1 and i only |

## Left out

- The cTrader host API and event wiring (the `Indicator` base class, the Tick, BarOpened and KeyDown subscriptions): the handlers are methods called one at a time.
- The moving averages and `Calculate`: `BuyOrSell` takes the two average series as given; NaN values of the averages are not modelled.
- Drawing: the rectangle, button panel, colours (`BuyColor`, `SellColor`, `AlertColor`), `showButton`. Only a few icon types are named.
- The date text in sign names (`ToString("G")`, SignToolsTemplete/SignToolsTemplete.cs:310): the model names a sign by its bar's open time and so assumes distinct names for distinct bars. In the source the text drops fractions of a second and follows the culture, so two bars opening within the same second share one name and a draw on one replaces the other's sign.
- Sound playback: a playback request is recorded in `sounds`. The visual-backtesting helper icon is left out.
- The vertical range reset after a scroll (LINQ maximum/minimum over doubles) and the default `DrawMargin` taken from the chart: the margin is a constructor parameter.
- Prices are reals, not doubles, and open times are integers, not `DateTime` values.
- `GetIndexByTime` is modelled only for times that are open times of bars in the series.
- An out-of-range bar index for the reference open time of a prev/next click is modelled as `OutOfRange`; the host's own behaviour there is not modelled.
- The host raises Tick only on a non-empty series and BarOpened only once a second bar exists: `Tick` and `OnTick` require at least one bar, `BarOpened` and `OnBarOpened` at least two. On a one-bar series the source's BarOpened handler would call `_FixSign(-1)` and throw on the bar lookup; that path is not modelled.
- `WhenAlert` values other than the five named constants, and a null `SoundFile` value, are not modelled.
- Navigation.PrevClick: "latest sign before the bar" is stated only for strictly increasing confirmed times; with duplicated times the contract states only that the target is one of the confirmed times and where the click scrolls.
- Navigation.NextClick: "earliest sign after the bar" is stated only for strictly increasing confirmed times, as for PrevClick.
- Concurrency: there is none; the host delivers events one after another.
