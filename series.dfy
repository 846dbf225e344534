/**
 * The host's bar series as the indicator sees it: every bar has an open time,
 * a high, a low and a close. Open times are abstract integers (ticks of a clock);
 * prices are reals (the host uses doubles, see README).
 */
module Series {
  /** The signal direction returned by a judge function (cTrader's TradeType). */
  datatype TradeType = Buy | Sell

  datatype Bar = Bar(openTime: int, high: real, low: real, close: real)

  predicate StrictlyIncreasing(s: seq<int>) {
    forall i, j :: 0 <= i < j < |s| ==> s[i] < s[j]
  }

  predicate Sorted(s: seq<int>) {
    forall i, j :: 0 <= i < j < |s| ==> s[i] <= s[j]
  }

  /** The open times of a series, in bar order. */
  function OpenTimes(bars: seq<Bar>): (ts: seq<int>)
    ensures |ts| == |bars|
    ensures forall i :: 0 <= i < |bars| ==> ts[i] == bars[i].openTime
  {
    seq(|bars|, i requires 0 <= i < |bars| => bars[i].openTime)
  }
}
