/**
 * Navigation over the confirmed sign times: List<T>.BinarySearch, the prev/next
 * button handlers built on its result, and the right-edge scroll clamp.
 */
module Navigation {
  import opened Series

  /** C#'s bitwise complement ~x on a signed integer. */
  function Complement(x: int): int {
    -x - 1
  }

  /**
   * The outcome of a binary search for t: a position holding t, or the complement
   * of the insertion point p (everything before p is below t, everything from p on above).
   */
  predicate IsSearchResult(list: seq<int>, t: int, r: int) {
    if r >= 0 then r < |list| && list[r] == t
    else
      var p := Complement(r);
      p <= |list|
      && (forall j :: 0 <= j < p ==> list[j] < t)
      && (forall j :: p <= j < |list| ==> list[j] > t)
  }

  /**
   * List<T>.BinarySearch as .NET runs it (lo/hi bisection, ~lo on a miss). On a
   * sorted list its result is a search result; on any list a non-negative result holds t.
   */
  method BinarySearch(list: seq<int>, t: int) returns (r: int)
    ensures r >= 0 ==> r < |list| && list[r] == t
    ensures r < 0 ==> Complement(r) <= |list|
    ensures Sorted(list) ==> IsSearchResult(list, t, r)
  {
    var lo, hi := 0, |list| - 1;
    while lo <= hi
      invariant 0 <= lo <= hi + 1 <= |list|
      invariant Sorted(list) ==> forall j :: 0 <= j < lo ==> list[j] < t
      invariant Sorted(list) ==> forall j :: hi < j < |list| ==> list[j] > t
    {
      var mid := lo + (hi - lo) / 2;
      if list[mid] == t {
        return mid;
      } else if list[mid] < t {
        lo := mid + 1;
      } else {
        hi := mid - 1;
      }
    }
    return Complement(lo);
  }

  /** The prev handler's list position: the insertion point (or the hit) minus one. */
  function PrevPos(r: int): int {
    (if r < 0 then Complement(r) else r) - 1
  }

  /** The next handler's list position: the insertion point, or one past the hit. */
  function NextPos(r: int): int {
    if r < 0 then Complement(r) else r + 1
  }

  /** x is the greatest element of s strictly below t. */
  predicate GreatestBelow(s: seq<int>, t: int, x: int) {
    x in s && x < t && forall y :: y in s && y < t ==> y <= x
  }

  /** x is the least element of s strictly above t. */
  predicate LeastAbove(s: seq<int>, t: int, x: int) {
    x in s && x > t && forall y :: y in s && y > t ==> x <= y
  }

  /**
   * Over strictly increasing times the prev position holds the greatest time below t,
   * and it is -1 exactly when no time is below t.
   */
  lemma PrevPosIsGreatestBelow(list: seq<int>, t: int, r: int)
    requires StrictlyIncreasing(list) && IsSearchResult(list, t, r)
    ensures -1 <= PrevPos(r) < |list|
    ensures PrevPos(r) >= 0 ==> GreatestBelow(list, t, list[PrevPos(r)])
    ensures PrevPos(r) == -1 <==> forall y :: y in list ==> y >= t
  {

  }

  /**
   * Over strictly increasing times the next position holds the least time above t,
   * and it equals the list length exactly when no time is above t.
   */
  lemma NextPosIsLeastAbove(list: seq<int>, t: int, r: int)
    requires StrictlyIncreasing(list) && IsSearchResult(list, t, r)
    ensures 0 <= NextPos(r) <= |list|
    ensures NextPos(r) < |list| ==> LeastAbove(list, t, list[NextPos(r)])
    ensures NextPos(r) == |list| <==> forall y :: y in list ==> y <= t
  {

  }

  // ---------------------------------------------------------------------------
  // Scrolling

  /**
   * _ScrollTo(int): shift the right-edge index left by the visible bar count, clamp
   * it to at least 0 and then to at most Count-1 (in that order).
   */
  function ScrollStart(index: int, maxVisible: int, count: int): int {
    var shifted := index - maxVisible;
    var low := if shifted < 0 then 0 else shifted;
    if low >= count then count - 1 else low
  }

  /** The position handed to ScrollXTo. */
  function ScrollX(index: int, maxVisible: int, count: int, jumpMargin: int): int {
    ScrollStart(index, maxVisible, count) + jumpMargin
  }

  /** The distance between two bar indices. */
  function Distance(a: int, b: int): nat {
    if a < b then b - a else a - b
  }

  /** r is a bar index of a series of `count` bars, none of which is nearer to `target`. */
  predicate NearestIndex(r: int, target: int, count: int) {
    0 <= r < count && forall j :: 0 <= j < count ==> Distance(r, target) <= Distance(j, target)
  }

  /**
   * On a non-empty series the start lies in [0, Count-1], and it is the bar index
   * nearest to the shifted index; on an empty series the clamps leave -1.
   */
  lemma ScrollStartClamps(index: int, maxVisible: int, count: int)
    ensures count >= 1 ==> NearestIndex(ScrollStart(index, maxVisible, count), index - maxVisible, count)
    ensures 0 <= index - maxVisible < count ==> ScrollStart(index, maxVisible, count) == index - maxVisible
    ensures count <= 0 ==> ScrollStart(index, maxVisible, count) == count - 1
  {

  }

  // ---------------------------------------------------------------------------
  // Buttons

  /** The host's time-to-index lookup, for a time that is some bar's open time. */
  function IndexOfTime(openTimes: seq<int>, t: int): (i: int)
    requires t in openTimes
    ensures 0 <= i < |openTimes| && openTimes[i] == t
    ensures forall j :: 0 <= j < i ==> openTimes[j] != t
  {
    if openTimes[0] == t then 0 else 1 + IndexOfTime(openTimes[1..], t)
  }

  /** A click either throws ArgumentOutOfRangeException or scrolls to a sign. */
  datatype Click = OutOfRange | ScrolledTo(target: int, x: int)

  /** The scroll a click on a sign at time `target` asks for (_ScrollTo(DateTime)). */
  function ScrollToTime(openTimes: seq<int>, target: int, maxVisible: int, jumpMargin: int): int
    requires target in openTimes
  {
    ScrollX(IndexOfTime(openTimes, target), maxVisible, |openTimes|, jumpMargin)
  }

  /**
   * The prev button: look up the open time of bar LastVisibleBarIndex - JumpMargin,
   * search it among the confirmed times and jump to the position before it.
   * Over strictly increasing confirmed times this is the latest sign strictly
   * before that bar, and the click fails exactly when there is none (or no such bar).
   */
  method PrevClick(signTimes: seq<int>, openTimes: seq<int>, lastVisible: int, jumpMargin: int, maxVisible: int)
    returns (c: Click)
    requires forall t :: t in signTimes ==> t in openTimes
    ensures c.ScrolledTo? ==> 0 <= lastVisible - jumpMargin < |openTimes| && c.target in signTimes
    ensures c.ScrolledTo? ==> c.x == ScrollToTime(openTimes, c.target, maxVisible, jumpMargin)
    ensures StrictlyIncreasing(signTimes) && 0 <= lastVisible - jumpMargin < |openTimes| ==>
              var leftTime := openTimes[lastVisible - jumpMargin];
              && (c.ScrolledTo? ==> GreatestBelow(signTimes, leftTime, c.target))
              && (c.OutOfRange? <==> forall y :: y in signTimes ==> y >= leftTime)
    ensures !(0 <= lastVisible - jumpMargin < |openTimes|) ==> c.OutOfRange?
  {
    var refIndex := lastVisible - jumpMargin;
    if !(0 <= refIndex < |openTimes|) {
      return OutOfRange;
    }
    var leftTime := openTimes[refIndex];
    var found := BinarySearch(signTimes, leftTime);
    var jumpPos := found;
    if jumpPos < 0 {
      jumpPos := Complement(jumpPos);
    }
    if !(0 <= jumpPos - 1 < |signTimes|) {
      c := OutOfRange;
    } else {
      var target := signTimes[jumpPos - 1];
      c := ScrolledTo(target, ScrollToTime(openTimes, target, maxVisible, jumpMargin));
    }
    if StrictlyIncreasing(signTimes) {
      PrevPosIsGreatestBelow(signTimes, leftTime, found);
    }
  }

  /**
   * The next button: look up the open time of bar LastVisibleBarIndex - JumpMargin + 1,
   * search it among the confirmed times and jump to the insertion point, or one past
   * a hit. Over strictly increasing confirmed times this is the earliest sign strictly
   * after that bar, and the click fails exactly when there is none (or no such bar).
   */
  method NextClick(signTimes: seq<int>, openTimes: seq<int>, lastVisible: int, jumpMargin: int, maxVisible: int)
    returns (c: Click)
    requires forall t :: t in signTimes ==> t in openTimes
    ensures c.ScrolledTo? ==> 0 <= lastVisible - jumpMargin + 1 < |openTimes| && c.target in signTimes
    ensures c.ScrolledTo? ==> c.x == ScrollToTime(openTimes, c.target, maxVisible, jumpMargin)
    ensures StrictlyIncreasing(signTimes) && 0 <= lastVisible - jumpMargin + 1 < |openTimes| ==>
              var leftTime := openTimes[lastVisible - jumpMargin + 1];
              && (c.ScrolledTo? ==> LeastAbove(signTimes, leftTime, c.target))
              && (c.OutOfRange? <==> forall y :: y in signTimes ==> y <= leftTime)
    ensures !(0 <= lastVisible - jumpMargin + 1 < |openTimes|) ==> c.OutOfRange?
  {
    var refIndex := lastVisible - jumpMargin + 1;
    if !(0 <= refIndex < |openTimes|) {
      return OutOfRange;
    }
    var leftTime := openTimes[refIndex];
    var found := BinarySearch(signTimes, leftTime);
    var jumpPos := found;
    if jumpPos < 0 {
      jumpPos := Complement(jumpPos);
    } else {
      jumpPos := jumpPos + 1;
    }
    if !(0 <= jumpPos < |signTimes|) {
      c := OutOfRange;
    } else {
      var target := signTimes[jumpPos];
      c := ScrolledTo(target, ScrollToTime(openTimes, target, maxVisible, jumpMargin));
    }
    if StrictlyIncreasing(signTimes) {
      NextPosIsLeastAbove(signTimes, leftTime, found);
    }
  }

  /** The oldest button: _ScrollTo(0). */
  function OldestClick(count: int, maxVisible: int, jumpMargin: int): int {
    ScrollX(0, maxVisible, count, jumpMargin)
  }

  /** The newest button: _ScrollTo(Count + 20). */
  function NewestClick(count: int, maxVisible: int, jumpMargin: int): int {
    ScrollX(count + 20, maxVisible, count, jumpMargin)
  }

  /** The oldest button scrolls to start 0 whenever at least one bar is visible. */
  lemma OldestScroll(count: int, maxVisible: int, jumpMargin: int)
    requires count >= 1 && maxVisible >= 0
    ensures OldestClick(count, maxVisible, jumpMargin) == jumpMargin
  {
  }

  /**
   * The newest button asks for index Count+20: with at most 20 visible bars that
   * clamps to the last bar, otherwise the start is Count+20-MaxVisibleBars (or 0).
   */
  lemma NewestScroll(count: int, maxVisible: int, jumpMargin: int)
    requires count >= 1
    ensures maxVisible <= 20 ==> NewestClick(count, maxVisible, jumpMargin) == count - 1 + jumpMargin
    ensures maxVisible > 20 ==>
              NewestClick(count, maxVisible, jumpMargin)
                == (if count + 20 - maxVisible < 0 then 0 else count + 20 - maxVisible) + jumpMargin
  {
  }
}
