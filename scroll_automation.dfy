/**
 * The scroll utilities of content-scripts/utils/scroll-automation.js:
 * the counter loop of autoScroll (and of autoScrollPage, which repeats it over
 * the window instead of a container), and the search for the dialog's
 * scrollable container. What the browser shows after each scroll is an
 * observation supplied by the caller.
 */
module ScrollAutomation {
  import opened Wrappers

  /** Scrolls in a row that load nothing new, away from the bottom, after which the loop gives up. */
  const MAX_STALE_RETRIES: nat := 10
  /** Within this many pixels of the bottom the list counts as being at the bottom. */
  const BOTTOM_THRESHOLD_PX: int := 80
  /** Bottom hits in a row that end the loop. */
  const MAX_BOTTOM_HITS: nat := 3
  /** A scroll that moved fewer pixels than this did not move. */
  const MIN_MOVE: int := 2
  /** How much taller than its box a container's content must be to count as scrollable. */
  const MIN_EXTRA_HEIGHT: int := 50

  function Abs(x: int): nat {
    if x < 0 then -x else x
  }

  // ---------------------------------------------------------------------------
  // autoScroll / autoScrollPage
  // ---------------------------------------------------------------------------

  /**
   * What one pass of the loop observes: whether shouldCancel() answered true
   * at its head, the scroll position read before the 400 px step and after
   * the wait, the item count after the wait, and the scrolled element's
   * scrollHeight and clientHeight (for autoScrollPage: the document's
   * scrollHeight and the window's innerHeight).
   */
  datatype Tick = Tick(
    cancelled: bool,
    scrollTopBefore: int,
    scrollTopAfter: int,
    itemCount: int,
    scrollHeight: int,
    clientHeight: int)

  /** The loop's three counters: staleCount, consecutiveBottomHits and previousCount. */
  datatype Counters = Counters(staleCount: nat, bottomHits: nat, previousCount: int)

  /** The counters before the first pass, given getItemCount()'s first answer. */
  function Initial(itemCount: int): Counters {
    Counters(0, 0, itemCount)
  }

  /** Within BOTTOM_THRESHOLD_PX of the bottom, or a scroll that did not move. */
  predicate AtBottom(t: Tick) {
    || t.scrollHeight - t.scrollTopAfter - t.clientHeight <= BOTTOM_THRESHOLD_PX
    || Abs(t.scrollTopAfter - t.scrollTopBefore) < MIN_MOVE
  }

  /**
   * The counters after one pass. A new item count resets both counters;
   * otherwise exactly one of them goes up by one, so their sum measures the
   * passes since items last arrived.
   */
  function Step(c: Counters, t: Tick): (r: Counters)
    ensures r.previousCount == t.itemCount
    ensures t.itemCount != c.previousCount ==> r.staleCount == 0 && r.bottomHits == 0
    ensures t.itemCount == c.previousCount ==>
      r.staleCount + r.bottomHits == c.staleCount + c.bottomHits + 1
      && r.staleCount >= c.staleCount && r.bottomHits >= c.bottomHits
  {
    if t.itemCount != c.previousCount then Counters(0, 0, t.itemCount)
    else if AtBottom(t) then c.(bottomHits := c.bottomHits + 1)
    else c.(staleCount := c.staleCount + 1)
  }

  /** The counters after the first `n` passes. */
  function CountersAfter(c: Counters, ticks: seq<Tick>, n: nat): Counters
    requires n <= |ticks|
  {
    if n == 0 then c else Step(CountersAfter(c, ticks, n - 1), ticks[n - 1])
  }

  /** The loop is over: ten stale scrolls or three bottom hits. */
  predicate Settled(c: Counters) {
    c.staleCount >= MAX_STALE_RETRIES || c.bottomHits >= MAX_BOTTOM_HITS
  }

  /** Each of the first `n` passes began with no cancel and unsettled counters. */
  predicate Unhindered(c: Counters, ticks: seq<Tick>, n: nat)
    requires n <= |ticks|
  {
    n == 0 || (Unhindered(c, ticks, n - 1) && !ticks[n - 1].cancelled && !Settled(CountersAfter(c, ticks, n - 1)))
  }

  /** Any pass `k` among the first `n` began with no cancel and unsettled counters. */
  lemma {:induction false} UnhinderedAt(c: Counters, ticks: seq<Tick>, n: nat, k: nat)
    requires n <= |ticks| && Unhindered(c, ticks, n) && k < n
    ensures !ticks[k].cancelled && !Settled(CountersAfter(c, ticks, k))
  {
    if k < n - 1 {
      UnhinderedAt(c, ticks, n - 1, k);
    }
  }

  /** While the item count stays put, every pass adds exactly one to stale scrolls plus bottom hits. */
  lemma {:induction false} StaleProgress(c: Counters, ticks: seq<Tick>, n: nat)
    requires n <= |ticks|
    requires forall k :: 0 <= k < n ==> ticks[k].itemCount == c.previousCount
    ensures CountersAfter(c, ticks, n).previousCount == c.previousCount
    ensures CountersAfter(c, ticks, n).staleCount + CountersAfter(c, ticks, n).bottomHits
            == c.staleCount + c.bottomHits + n
  {
    if n > 0 {
      StaleProgress(c, ticks, n - 1);
    }
  }

  /**
   * Once new items stop arriving, the counters settle within
   * MAX_STALE_RETRIES + MAX_BOTTOM_HITS - 1 passes, whatever the positions read.
   */
  lemma SettlesAfterStall(ticks: seq<Tick>, itemCount: int)
    requires |ticks| >= MAX_STALE_RETRIES + MAX_BOTTOM_HITS - 1
    requires forall k :: 0 <= k < |ticks| ==> ticks[k].itemCount == itemCount
    ensures Settled(CountersAfter(Initial(itemCount), ticks, MAX_STALE_RETRIES + MAX_BOTTOM_HITS - 1))
  {
    StaleProgress(Initial(itemCount), ticks, MAX_STALE_RETRIES + MAX_BOTTOM_HITS - 1);
  }

  /** A run of passes with no new items and unsettled counters is at most MAX_STALE_RETRIES + MAX_BOTTOM_HITS - 1 long. */
  lemma StallBound(initialCount: int, ticks: seq<Tick>, passes: nat)
    requires passes <= |ticks|
    requires forall k :: 0 <= k < |ticks| ==> ticks[k].itemCount == initialCount
    requires Unhindered(Initial(initialCount), ticks, passes)
    ensures passes <= MAX_STALE_RETRIES + MAX_BOTTOM_HITS - 1
  {
    var n := MAX_STALE_RETRIES + MAX_BOTTOM_HITS - 1;
    if passes > n {
      UnhinderedAt(Initial(initialCount), ticks, passes, n);
      SettlesAfterStall(ticks, initialCount);
    }
  }

  /**
   * The counter updates of one pass of the autoScroll loop, after the scroll:
   * a new item count resets them, otherwise a bottom hit or a stale scroll
   * is counted.
   */
  method ScrollPass(staleCount: nat, bottomHits: nat, previousCount: int, t: Tick)
    returns (stale: nat, hits: nat, count: int)
    ensures Counters(stale, hits, count) == Step(Counters(staleCount, bottomHits, previousCount), t)
  {
    stale, hits, count := staleCount, bottomHits, previousCount;
    if t.itemCount != previousCount {
      return 0, 0, t.itemCount;
    }
    var distanceFromBottom := t.scrollHeight - t.scrollTopAfter - t.clientHeight;
    var didntMove := Abs(t.scrollTopAfter - t.scrollTopBefore) < MIN_MOVE;
    if distanceFromBottom <= BOTTOM_THRESHOLD_PX || didntMove {
      hits := hits + 1;
    } else {
      stale := stale + 1;
    }
  }

  /**
   * autoScroll(container, { getItemCount, shouldCancel }), with getItemCount()
   * first answering `initialCount`; returns how many scrolls were made.
   */
  method AutoScroll(initialCount: int, ticks: seq<Tick>) returns (passes: nat)
    ensures passes <= |ticks|
    ensures CountersAfter(Initial(initialCount), ticks, passes).staleCount <= MAX_STALE_RETRIES
    ensures CountersAfter(Initial(initialCount), ticks, passes).bottomHits <= MAX_BOTTOM_HITS
    // Every pass made was started with no cancel and unsettled counters.
    ensures Unhindered(Initial(initialCount), ticks, passes)
    // It stops only for a cancel or settled counters (or when the observations run out).
    ensures passes < |ticks| ==>
              ticks[passes].cancelled || Settled(CountersAfter(Initial(initialCount), ticks, passes))
    // With no new items at all, it gives up within MAX_STALE_RETRIES + MAX_BOTTOM_HITS - 1 scrolls.
    ensures (forall k :: 0 <= k < |ticks| ==> ticks[k].itemCount == initialCount) ==>
              passes <= MAX_STALE_RETRIES + MAX_BOTTOM_HITS - 1
  {
    var staleCount: nat := 0;
    var previousCount := initialCount;
    var consecutiveBottomHits: nat := 0;
    passes := 0;
    while staleCount < MAX_STALE_RETRIES && passes < |ticks|
      invariant passes <= |ticks|
      invariant Counters(staleCount, consecutiveBottomHits, previousCount)
                == CountersAfter(Initial(initialCount), ticks, passes)
      invariant staleCount <= MAX_STALE_RETRIES && consecutiveBottomHits < MAX_BOTTOM_HITS
      invariant Unhindered(Initial(initialCount), ticks, passes)
      decreases |ticks| - passes
    {
      var t := ticks[passes];
      if t.cancelled {
        break;
      }
      // container.scrollTop += 400; onScroll; the random delay.
      assert !Settled(Counters(staleCount, consecutiveBottomHits, previousCount));
      staleCount, consecutiveBottomHits, previousCount := ScrollPass(staleCount, consecutiveBottomHits, previousCount, t);
      passes := passes + 1;
      ghost var after := Counters(staleCount, consecutiveBottomHits, previousCount);
      assert after == CountersAfter(Initial(initialCount), ticks, passes);
      if consecutiveBottomHits >= MAX_BOTTOM_HITS {
        assert Settled(after);
        break;
      }
    }
    ghost var last := Counters(staleCount, consecutiveBottomHits, previousCount);
    assert last == CountersAfter(Initial(initialCount), ticks, passes);
    assert passes < |ticks| ==> ticks[passes].cancelled || Settled(last);
    if forall k :: 0 <= k < |ticks| ==> ticks[k].itemCount == initialCount {
      StallBound(initialCount, ticks, passes);
    }
  }

  // ---------------------------------------------------------------------------
  // findScrollContainer / waitForScrollContainer
  // ---------------------------------------------------------------------------

  /** A div of the dialog: its computed overflowY and its heights. */
  datatype Div = Div(overflowY: string, scrollHeight: int, clientHeight: int)

  /** The document as findScrollContainer sees it: the divs of `div[role="dialog"]`, if there is one. */
  datatype Dom = Dom(dialog: Option<seq<Div>>)

  /** overflowY auto or scroll, with more than MIN_EXTRA_HEIGHT pixels of hidden content. */
  predicate Scrollable(d: Div) {
    (d.overflowY == "auto" || d.overflowY == "scroll") && d.scrollHeight > d.clientHeight + MIN_EXTRA_HEIGHT
  }

  /** Div `i` of the dialog is the one findScrollContainer returns: scrollable, and no earlier div is. */
  predicate IsContainer(dom: Dom, i: nat) {
    && dom.dialog.Some?
    && i < |dom.dialog.value|
    && Scrollable(dom.dialog.value[i])
    && forall j :: 0 <= j < i ==> !Scrollable(dom.dialog.value[j])
  }

  /** findScrollContainer finds nothing: no dialog, or no scrollable div in it. */
  predicate NoContainer(dom: Dom) {
    dom.dialog.None? || forall j :: 0 <= j < |dom.dialog.value| ==> !Scrollable(dom.dialog.value[j])
  }

  /** findScrollContainer(): the position, among the dialog's divs, of the container. */
  method FindScrollContainer(dom: Dom) returns (r: Option<nat>)
    ensures r.Some? <==> !NoContainer(dom)
    ensures r.Some? ==> IsContainer(dom, r.value)
  {
    if dom.dialog.None? {
      return None;
    }
    var candidates := dom.dialog.value;
    for i := 0 to |candidates|
      invariant forall j :: 0 <= j < i ==> !Scrollable(candidates[j])
    {
      var div := candidates[i];
      var isScrollable := div.overflowY == "auto" || div.overflowY == "scroll";
      var hasContent := div.scrollHeight > div.clientHeight + MIN_EXTRA_HEIGHT;
      if isScrollable && hasContent {
        return Some(i);
      }
    }
    return None;
  }

  /**
   * waitForScrollContainer(maxAttempts): look up to `maxAttempts` times,
   * attempt `i` seeing `dom(i)`; returns the number of lookups made and the
   * container the last one found, if any.
   */
  method WaitForScrollContainer(maxAttempts: int, dom: nat -> Dom) returns (attempts: nat, r: Option<nat>)
    ensures attempts <= (if maxAttempts < 0 then 0 else maxAttempts)
    ensures forall i :: 0 <= i < attempts - 1 ==> NoContainer(dom(i))
    ensures r.Some? ==> attempts > 0 && IsContainer(dom(attempts - 1), r.value)
    ensures r.None? ==> attempts == (if maxAttempts < 0 then 0 else maxAttempts)
                        && forall i :: 0 <= i < attempts ==> NoContainer(dom(i))
  {
    attempts := 0;
    while attempts < maxAttempts
      invariant attempts <= (if maxAttempts < 0 then 0 else maxAttempts)
      invariant forall i :: 0 <= i < attempts ==> NoContainer(dom(i))
      decreases maxAttempts - attempts
    {
      var container := FindScrollContainer(dom(attempts));
      attempts := attempts + 1;
      if container.Some? {
        return attempts, container;
      }
      // sleep(600)
    }
    return attempts, None;
  }
}
