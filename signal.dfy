/**
 * The example judge function BuyOrSell: a moving-average crossover over the long
 * and short average series (the averages themselves are inputs here).
 */
module Signal {
  import opened Wrappers
  import opened Series

  /** Series a crosses strictly above series b at bar i. */
  predicate CrossesAbove(a: seq<real>, b: seq<real>, i: int)
    requires |a| == |b| && i < |a|
  {
    1 <= i && a[i - 1] < b[i - 1] && a[i] > b[i]
  }

  /**
   * No signal before bar 1; the long average crossing above the short one is a Sell,
   * crossing below it a Buy; anything else (touching included) is no signal.
   */
  function BuyOrSell(longMa: seq<real>, shortMa: seq<real>, index: int): (r: Option<TradeType>)
    requires |longMa| == |shortMa| && index < |longMa|
    ensures r == Some(Sell) <==> CrossesAbove(longMa, shortMa, index)
    ensures r == Some(Buy) <==> CrossesAbove(shortMa, longMa, index)
    ensures index < 1 ==> r == None
  {
    if index < 1 then None
    else if longMa[index - 1] < shortMa[index - 1] && longMa[index] > shortMa[index] then Some(Sell)
    else if longMa[index - 1] > shortMa[index - 1] && longMa[index] < shortMa[index] then Some(Buy)
    else None
  }

  function Opposite(t: TradeType): TradeType {
    if t == Buy then Sell else Buy
  }

  /** Swapping the two averages swaps Buy and Sell. */
  lemma SwapAveragesSwapsSignal(longMa: seq<real>, shortMa: seq<real>, index: int)
    requires |longMa| == |shortMa| && index < |longMa|
    ensures BuyOrSell(shortMa, longMa, index) ==
              match BuyOrSell(longMa, shortMa, index)
              case None => None
              case Some(t) => Some(Opposite(t))
  {
  }

  /** Averages that touch at bar i, or at bar i-1, give no signal at i. */
  lemma TouchingGivesNoSignal(longMa: seq<real>, shortMa: seq<real>, index: int)
    requires |longMa| == |shortMa| && 1 <= index < |longMa|
    requires longMa[index] == shortMa[index] || longMa[index - 1] == shortMa[index - 1]
    ensures BuyOrSell(longMa, shortMa, index) == None
  {
  }

  /** Over averages equal at bars i-1 and i, the signal at i is the same: it depends only on those two bars. */
  lemma SignalIsLocal(l1: seq<real>, s1: seq<real>, l2: seq<real>, s2: seq<real>, index: int)
    requires |l1| == |s1| && index < |l1| && |l2| == |s2| && index < |l2|
    requires 1 <= index
    requires l1[index - 1] == l2[index - 1] && l1[index] == l2[index]
    requires s1[index - 1] == s2[index - 1] && s1[index] == s2[index]
    ensures BuyOrSell(l1, s1, index) == BuyOrSell(l2, s2, index)
  {
  }
}
