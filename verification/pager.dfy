/** The infinite horizontal pager of the week view: the window of page keys,
    the index of the visible page and the anchor moment, advanced once per
    reported end of scroll. */
module Pager {
  import opened PageWindow

  /** A user callback invocation, carrying the new anchor day. */
  datatype Swipe = SwipePrev(moment: int) | SwipeNext(moment: int)

  /** The configuration the pager reads from the component's properties. */
  datatype Config = Config(numberOfDays: int, prependMostRecent: bool)

  /** Pager state. `jumps` records every silent jump of the rendered list to
      an index; `swipes` records every swipe callback, oldest first. */
  datatype Pager = Pager(
    keys: seq<int>,
    currentPageIndex: int,
    currentMoment: int,
    jumps: seq<int>,
    swipes: seq<Swipe>)

  function Step(cfg: Config): int {
    KeyStep(cfg.numberOfDays, cfg.prependMostRecent)
  }

  /** The invariant the pager keeps, for a positive page length: at least
      the seeded window, keys an arithmetic progression, the visible index
      in range, and the visible key equal to the anchor moment. */
  predicate Valid(cfg: Config, p: Pager) {
    && cfg.numberOfDays > 0
    && |p.keys| >= WindowSize
    && IsProgression(p.keys, Step(cfg))
    && 0 <= p.currentPageIndex < |p.keys|
    && p.keys[p.currentPageIndex] == p.currentMoment
  }

  /** The pager as constructed around the selected date. */
  function Init(cfg: Config, selectedDate: int): (p: Pager)
    requires cfg.numberOfDays > 0
    ensures Valid(cfg, p)
    ensures p.currentPageIndex == PageOffset && p.currentMoment == selectedDate
    ensures p.jumps == [] && p.swipes == []
  {
    Pager(CalculatePagesDates(selectedDate, cfg.numberOfDays, cfg.prependMostRecent),
          PageOffset, selectedDate, [], [])
  }

  /** The end of a scroll that came to rest on page `newPage`. A move of
      zero pages changes nothing; otherwise the anchor moves by the pages
      travelled, the window grows by one key at the front (with a silent
      jump compensating the index) or at the back when the new page is at
      the corresponding edge, and one swipe callback is recorded. */
  function ScrollEnded(cfg: Config, p: Pager, newPage: int): (q: Pager)
    requires |p.keys| > 0
    ensures |p.keys| <= |q.keys| <= |p.keys| + 1
    ensures q.keys == p.keys || q.keys == [q.keys[0]] + p.keys
         || q.keys == p.keys + [q.keys[|q.keys| - 1]]
    ensures q.jumps == p.jumps || q.jumps == p.jumps + [q.currentPageIndex]
    ensures newPage == p.currentPageIndex ==> q.swipes == p.swipes
    ensures newPage != p.currentPageIndex ==> |q.swipes| == |p.swipes| + 1
    ensures q.swipes[..|p.swipes|] == p.swipes
  {
    var movedPages := newPage - p.currentPageIndex;
    if movedPages == 0 then
      p.(currentPageIndex := newPage)
    else
      var sign := DaySignToTheFuture(cfg.prependMostRecent);
      var newMoment := p.currentMoment + movedPages * cfg.numberOfDays * sign;
      var swipe := if movedPages < 0 then SwipePrev(newMoment) else SwipeNext(newMoment);
      if movedPages < 0 && newPage < PageOffset then
        var first := p.keys[0] + cfg.numberOfDays * -sign;
        var index := newPage + 1;
        Pager([first] + p.keys, index, newMoment, p.jumps + [index], p.swipes + [swipe])
      else if movedPages > 0 && newPage > |p.keys| - PageOffset then
        var latest := p.keys[|p.keys| - 1] + cfg.numberOfDays * sign;
        Pager(p.keys + [latest], newPage, newMoment, p.jumps, p.swipes + [swipe])
      else
        Pager(p.keys, newPage, newMoment, p.jumps, p.swipes + [swipe])
  }

  /** A scroll that ends on the page it started from is a no-op. */
  lemma NoMoveIsNoOp(cfg: Config, p: Pager)
    requires |p.keys| > 0
    ensures ScrollEnded(cfg, p, p.currentPageIndex) == p
  {
  }

  /** The window grows at the front exactly when the scroll went backward
      and ended within `PageOffset` pages of the front; the index is then
      bumped past the new key, a jump to it is requested, and the page the
      user sees keeps its key. */
  lemma BackwardGrowth(cfg: Config, p: Pager, newPage: int)
    requires Valid(cfg, p) && 0 <= newPage < |p.keys|
    ensures var q := ScrollEnded(cfg, p, newPage);
      (|q.keys| == |p.keys| + 1 && q.keys[1..] == p.keys)
        <==> (newPage < p.currentPageIndex && newPage < PageOffset)
    ensures var q := ScrollEnded(cfg, p, newPage);
      newPage < p.currentPageIndex && newPage < PageOffset ==>
        && q.currentPageIndex == newPage + 1
        && q.keys[q.currentPageIndex] == p.keys[newPage]
        && q.keys[0] == p.keys[0] - Step(cfg)
        && q.jumps == p.jumps + [newPage + 1]
  {
    var q := ScrollEnded(cfg, p, newPage);
    ProgressionDiff(p.keys, Step(cfg), 0, 1);
    if newPage > p.currentPageIndex && newPage > |p.keys| - PageOffset {
      assert q.keys[1..][0] != p.keys[0];
    }
  }

  /** The window grows at the back exactly when the scroll went forward and
      ended past `|keys| - PageOffset`, that is on the last page; in every
      other case the index becomes `newPage` and no jump is requested. */
  lemma ForwardGrowth(cfg: Config, p: Pager, newPage: int)
    requires Valid(cfg, p) && 0 <= newPage < |p.keys|
    ensures var q := ScrollEnded(cfg, p, newPage);
      (|q.keys| == |p.keys| + 1 && q.keys[..|p.keys|] == p.keys)
        <==> (newPage > p.currentPageIndex && newPage > |p.keys| - PageOffset)
    ensures var q := ScrollEnded(cfg, p, newPage);
      newPage > p.currentPageIndex && newPage > |p.keys| - PageOffset ==>
        q.keys[|p.keys|] == p.keys[|p.keys| - 1] + Step(cfg)
    ensures var q := ScrollEnded(cfg, p, newPage);
      !(newPage < p.currentPageIndex && newPage < PageOffset) ==>
        q.currentPageIndex == newPage && q.jumps == p.jumps
  {
    var q := ScrollEnded(cfg, p, newPage);
    if newPage < p.currentPageIndex && newPage < PageOffset {
      assert q.keys[0] == p.keys[0] - Step(cfg);
      ProgressionDiff(p.keys, Step(cfg), 0, 1);
      assert q.keys[..|p.keys|][1] != p.keys[1];
    }
  }

  /** On a real move the anchor advances by the pages travelled times the
      page length, toward the future or the past, and exactly one callback
      fires with the new anchor: the previous-page one iff the move was
      backward, the next-page one iff it was forward. */
  lemma MomentAndSwipe(cfg: Config, p: Pager, newPage: int)
    requires |p.keys| > 0 && newPage != p.currentPageIndex
    ensures var q := ScrollEnded(cfg, p, newPage);
      var movedPages := newPage - p.currentPageIndex;
      && q.currentMoment == p.currentMoment + movedPages * Step(cfg)
      && q.swipes == p.swipes + [if movedPages < 0 then SwipePrev(q.currentMoment)
                                 else SwipeNext(q.currentMoment)]
      && (q.swipes[|p.swipes|].SwipePrev? <==> movedPages < 0)
      && (q.swipes[|p.swipes|].SwipeNext? <==> movedPages > 0)
  {
    var movedPages := newPage - p.currentPageIndex;
    var sign := DaySignToTheFuture(cfg.prependMostRecent);
    assert movedPages * cfg.numberOfDays * sign == movedPages * (cfg.numberOfDays * sign);
  }

  /** The key of the page the scroll came to rest on stays the visible key,
      whether or not the window grew. */
  lemma VisiblePagePreserved(cfg: Config, p: Pager, newPage: int)
    requires Valid(cfg, p) && 0 <= newPage < |p.keys|
    ensures var q := ScrollEnded(cfg, p, newPage);
      0 <= q.currentPageIndex < |q.keys| && q.keys[q.currentPageIndex] == p.keys[newPage]
  {
  }

  /** Every scroll end that lands on a page of the window keeps the pager
      invariant; in particular keys stay an arithmetic progression with the
      configured step and the anchor stays the visible key. */
  lemma ScrollEndedKeepsValid(cfg: Config, p: Pager, newPage: int)
    requires Valid(cfg, p) && 0 <= newPage < |p.keys|
    ensures Valid(cfg, ScrollEnded(cfg, p, newPage))
  {
    var q := ScrollEnded(cfg, p, newPage);
    var step := Step(cfg);
    if newPage != p.currentPageIndex {
      VisiblePagePreserved(cfg, p, newPage);
      MomentAndSwipe(cfg, p, newPage);
      ProgressionDiff(p.keys, step, p.currentPageIndex, newPage);
      if |q.keys| == |p.keys| + 1 && q.keys[1..] == p.keys {
        forall i | 0 <= i < |q.keys|
          ensures q.keys[i] == q.keys[0] + i * step
        {
          if i > 0 {
            assert q.keys[i] == p.keys[i - 1];
            assert (i - 1) * step == i * step - step;
          }
        }
      } else if |q.keys| == |p.keys| + 1 {
        assert q.keys[..|p.keys|] == p.keys;
        ProgressionDiff(p.keys, step, 0, |p.keys| - 1);
        assert (|p.keys| - 1) * step + step == |p.keys| * step;
      }
    }
  }

  /** The keys of a valid pager are pairwise distinct. */
  lemma KeysDistinct(cfg: Config, p: Pager)
    requires Valid(cfg, p)
    ensures forall i, j :: 0 <= i < j < |p.keys| ==> p.keys[i] != p.keys[j]
  {
    ProgressionDistinct(p.keys, Step(cfg));
  }

  /** The pager after a sequence of scroll ends, in order. */
  function Run(cfg: Config, p: Pager, pages: seq<int>): (q: Pager)
    requires |p.keys| > 0
    ensures |p.keys| <= |q.keys| <= |p.keys| + |pages|
    decreases |pages|
  {
    if |pages| == 0 then p
    else Run(cfg, ScrollEnded(cfg, p, pages[0]), pages[1..])
  }

  /** Every scroll end of `pages` lands on a page of the window at the time
      it is reported. */
  predicate LandsInWindow(cfg: Config, p: Pager, pages: seq<int>)
    requires |p.keys| > 0
    decreases |pages|
  {
    |pages| == 0 ||
    (0 <= pages[0] < |p.keys| && LandsInWindow(cfg, ScrollEnded(cfg, p, pages[0]), pages[1..]))
  }

  /** `big` holds `small` as a contiguous run starting at index `k`. */
  predicate EmbedsAt(big: seq<int>, small: seq<int>, k: int) {
    0 <= k <= |big| - |small| && big[k..k + |small|] == small
  }

  /** A scroll end keeps the old window as a contiguous run of the new one,
      shifted by the one key it may have prepended. */
  lemma ScrollEndedEmbeds(cfg: Config, p: Pager, newPage: int) returns (k: int)
    requires |p.keys| > 0
    ensures EmbedsAt(ScrollEnded(cfg, p, newPage).keys, p.keys, k)
  {
    var q := ScrollEnded(cfg, p, newPage);
    if q.keys[..|p.keys|] == p.keys {
      k := 0;
    } else {
      k := 1;
    }
  }

  lemma EmbedsTrans(a: seq<int>, b: seq<int>, c: seq<int>, i: int, j: int)
    requires EmbedsAt(a, b, i) && EmbedsAt(b, c, j)
    ensures EmbedsAt(a, c, i + j)
  {
    forall t | 0 <= t < |c|
      ensures a[i + j..i + j + |c|][t] == c[t]
    {
      assert a[i..i + |b|][j + t] == b[j + t];
      assert b[j..j + |c|][t] == c[t];
    }
  }

  /** Over any sequence of scroll ends from the constructed pager the
      window never shrinks, grows by at most one key per scroll end, keeps
      the old keys as one contiguous run, never holds a key twice, and the
      visible index stays in range. */
  lemma {:induction false} RunKeepsValid(cfg: Config, p: Pager, pages: seq<int>)
    requires Valid(cfg, p) && LandsInWindow(cfg, p, pages)
    ensures Valid(cfg, Run(cfg, p, pages))
    ensures exists k :: EmbedsAt(Run(cfg, p, pages).keys, p.keys, k)
    ensures forall i, j :: 0 <= i < j < |Run(cfg, p, pages).keys| ==>
      Run(cfg, p, pages).keys[i] != Run(cfg, p, pages).keys[j]
    decreases |pages|
  {
    if |pages| > 0 {
      var p1 := ScrollEnded(cfg, p, pages[0]);
      ScrollEndedKeepsValid(cfg, p, pages[0]);
      RunKeepsValid(cfg, p1, pages[1..]);
      var q := Run(cfg, p1, pages[1..]);
      var k2 :| EmbedsAt(q.keys, p1.keys, k2);
      var k1 := ScrollEndedEmbeds(cfg, p, pages[0]);
      EmbedsTrans(q.keys, p1.keys, p.keys, k2, k1);
    } else {
      assert EmbedsAt(p.keys, p.keys, 0);
    }
    KeysDistinct(cfg, Run(cfg, p, pages));
  }
}
