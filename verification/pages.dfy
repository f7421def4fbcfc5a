/** The window of page keys a week view is seeded with. A key is the day
    number a page is anchored at; pages are `numberOfDays` days apart. */
module PageWindow {
  import opened Arith

  /** Number of pages buffered on each side of the selected page. */
  const PageOffset: int := 2

  /** Number of keys in a freshly seeded window. */
  const WindowSize: int := 2 * PageOffset + 1

  /** +1 when later pages lie to the right, -1 when the most recent page
      comes first. */
  function DaySignToTheFuture(prependMostRecent: bool): (sign: int)
    ensures sign == 1 || sign == -1
    ensures sign < 0 <==> prependMostRecent
  {
    if prependMostRecent then -1 else 1
  }

  /** Difference between consecutive keys of a window. */
  function KeyStep(numberOfDays: int, prependMostRecent: bool): int {
    numberOfDays * DaySignToTheFuture(prependMostRecent)
  }

  /** `s` is an arithmetic progression with difference `step`. */
  predicate IsProgression(s: seq<int>, step: int) {
    forall i :: 0 <= i < |s| ==> s[i] == s[0] + i * step
  }

  /** Any two keys of a progression differ by a multiple of the step. */
  lemma ProgressionDiff(s: seq<int>, step: int, i: int, j: int)
    requires IsProgression(s, step)
    requires 0 <= i < |s| && 0 <= j < |s|
    ensures s[j] == s[i] + (j - i) * step
  {
    assert (j - i) * step == j * step - i * step;
  }

  /** With a non-zero step no key occurs twice. */
  lemma ProgressionDistinct(s: seq<int>, step: int)
    requires IsProgression(s, step) && step != 0
    ensures forall i, j :: 0 <= i < j < |s| ==> s[i] != s[j]
  {
    forall i, j | 0 <= i < j < |s|
      ensures s[i] != s[j]
    {
      ProgressionDiff(s, step, i, j);
      MulNonZero(j - i, step);
    }
  }

  /** Keys for offsets `lo..hi` around `moment`, in ascending order of
      offset; mirrors the seeding loop. */
  function PagesFrom(moment: int, numberOfDays: int, lo: int, hi: int): (r: seq<int>)
    requires lo <= hi + 1
    ensures |r| == hi - lo + 1
    ensures forall k :: 0 <= k < |r| ==> r[k] == moment + numberOfDays * (lo + k)
    decreases hi - lo
  {
    if lo > hi then []
    else
      var rest := PagesFrom(moment, numberOfDays, lo + 1, hi);
      [moment + numberOfDays * lo] + rest
  }

  /** `s` read back to front. */
  function Reverse(s: seq<int>): (r: seq<int>)
    ensures |r| == |s|
    ensures forall i :: 0 <= i < |s| ==> r[i] == s[|s| - 1 - i]
  {
    if |s| == 0 then [] else [s[|s| - 1]] + Reverse(s[..|s| - 1])
  }

  lemma {:induction false} ReverseReverse(s: seq<int>)
    ensures Reverse(Reverse(s)) == s
  {
    var r := Reverse(Reverse(s));
    assert forall i :: 0 <= i < |s| ==> r[i] == s[i];
  }

  /** The initial window: `WindowSize` keys centred on `moment`, ascending,
      or descending when the most recent page comes first. */
  function CalculatePagesDates(moment: int, numberOfDays: int, prependMostRecent: bool): (keys: seq<int>)
    ensures |keys| == WindowSize
    ensures keys[PageOffset] == moment
    ensures IsProgression(keys, KeyStep(numberOfDays, prependMostRecent))
  {
    var ascending := PagesFrom(moment, numberOfDays, -PageOffset, PageOffset);
    var keys := if prependMostRecent then Reverse(ascending) else ascending;
    assert forall i :: 0 <= i < |keys| ==>
      keys[i] == keys[0] + i * KeyStep(numberOfDays, prependMostRecent);
    keys
  }

  /** Seeding with the most recent page first is the ascending window read
      back to front, and reading it back again restores the ascending one. */
  lemma SeedReversal(moment: int, numberOfDays: int)
    ensures CalculatePagesDates(moment, numberOfDays, true)
         == Reverse(CalculatePagesDates(moment, numberOfDays, false))
    ensures Reverse(CalculatePagesDates(moment, numberOfDays, true))
         == CalculatePagesDates(moment, numberOfDays, false)
  {
    ReverseReverse(CalculatePagesDates(moment, numberOfDays, false));
  }

  /** A descending window is the ascending window of the negated page length:
      both directions enumerate the same keys, one toward the past. */
  lemma SeedDescendingIsNegatedStep(moment: int, numberOfDays: int)
    ensures CalculatePagesDates(moment, numberOfDays, true)
         == CalculatePagesDates(moment, -numberOfDays, false)
  {
    var a := CalculatePagesDates(moment, numberOfDays, true);
    var b := CalculatePagesDates(moment, -numberOfDays, false);
    forall i | 0 <= i < WindowSize
      ensures a[i] == b[i]
    {
      ProgressionDiff(a, KeyStep(numberOfDays, true), PageOffset, i);
      ProgressionDiff(b, KeyStep(-numberOfDays, false), PageOffset, i);
    }
  }
}
