/**
 * The schedule of copyRect_impl: a rectangle is copied one strip at a time,
 * each strip read whole into a local buffer and then written.  Narrow
 * rectangles (w < h) are streamed as w columns of height h, the others as
 * h rows of width w, and the strips are visited from the far end when the
 * source lies before the destination on the streamed axis, so that no strip
 * is read after an earlier strip has overwritten it.
 */
module CopyRect {
  import opened BusTrace

  /** The rectangle is streamed column by column. */
  predicate ByColumns(w: int, h: int)
  {
    w < h
  }

  /** Number of strips: columns or rows. */
  function StripCount(w: int, h: int): int
  {
    if ByColumns(w, h) then w else h
  }

  /** Strips are visited from the last to the first. */
  predicate Descending(w: int, h: int, dstX: int, dstY: int, srcX: int, srcY: int)
  {
    if ByColumns(w, h) then srcX < dstX else srcY < dstY
  }

  /** Offset of the strip copied at step `k` of `n`: `pos` starts at n - 1 and steps by -1, or at 0 and steps by 1. */
  function StripAt(n: int, desc: bool, k: int): int
  {
    if desc then n - 1 - k else k
  }

  /** The steps visit every strip exactly once. */
  lemma StripOrderPermutation(n: nat, desc: bool)
    ensures forall k :: 0 <= k < n ==> 0 <= StripAt(n, desc, k) < n
    ensures forall k :: 0 <= k < n ==> StripAt(n, desc, StripAt(n, desc, k)) == k
  {
  }

  /**
   * Strips move along one axis from offset `src` to offset `dst`: with the
   * order copyRect_impl chooses, no step reads the strip an earlier step
   * wrote, so every strip is read before it is overwritten.
   */
  lemma NoStripReadAfterWritten(n: nat, src: int, dst: int, k1: int, k2: int)
    requires 0 <= k1 < k2 < n
    ensures src + StripAt(n, src < dst, k2) != dst + StripAt(n, src < dst, k1)
  {
  }

  /** The three calls of step `pos`: readRect_impl, setWindow_impl, writePixelsDMA_impl. */
  function StripEvents(dstX: int, dstY: int, w: int, h: int, srcX: int, srcY: int, pos: int): seq<Event>
  {
    if ByColumns(w, h) then
      [ReadRect(srcX + pos, srcY, 1, h), SetWindow(dstX + pos, dstY, dstX + pos, dstY + h - 1), WritePixels(0, h)]
    else
      [ReadRect(srcX, srcY + pos, w, 1), SetWindow(dstX, dstY + pos, dstX + w - 1, dstY + pos), WritePixels(0, w)]
  }

  /** The first `k` steps. */
  function StepsEvents(dstX: int, dstY: int, w: int, h: int, srcX: int, srcY: int, k: nat): seq<Event>
  {
    if k == 0 then []
    else
      var n := StripCount(w, h);
      var desc := Descending(w, h, dstX, dstY, srcX, srcY);
      StepsEvents(dstX, dstY, w, h, srcX, srcY, k - 1)
      + StripEvents(dstX, dstY, w, h, srcX, srcY, StripAt(n, desc, k - 1))
  }

  /** What copyRect_impl issues: every strip in order, then one waitDMA_impl. */
  function CopyRectEvents(dstX: int, dstY: int, w: int, h: int, srcX: int, srcY: int): seq<Event>
    requires w >= 1 && h >= 1
  {
    StepsEvents(dstX, dstY, w, h, srcX, srcY, StripCount(w, h)) + [WaitDma]
  }

  /** Every step issues three calls and none of them waits for the DMA. */
  lemma {:induction false} StepsEventsNoWait(dstX: int, dstY: int, w: int, h: int, srcX: int, srcY: int, k: nat)
    ensures var ev := StepsEvents(dstX, dstY, w, h, srcX, srcY, k);
            |ev| == 3 * k && forall m :: 0 <= m < |ev| ==> !ev[m].WaitDma?
    decreases k
  {
    if k > 0 {
      StepsEventsNoWait(dstX, dstY, w, h, srcX, srcY, k - 1);
    }
  }

  lemma SliceOfConcat(a: seq<Event>, b: seq<Event>, i: nat, j: nat)
    requires i <= j <= |a|
    ensures (a + b)[i..j] == a[i..j]
  {
  }

  /** Step m of the schedule sits at events 3m, 3m + 1, 3m + 2 and handles strip StripAt(n, desc, m). */
  lemma {:induction false} StepsEventsAt(dstX: int, dstY: int, w: int, h: int, srcX: int, srcY: int, k: nat, m: nat)
    requires m < k
    ensures var ev := StepsEvents(dstX, dstY, w, h, srcX, srcY, k);
            var pos := StripAt(StripCount(w, h), Descending(w, h, dstX, dstY, srcX, srcY), m);
            3 * m + 3 <= |ev| && ev[3 * m .. 3 * m + 3] == StripEvents(dstX, dstY, w, h, srcX, srcY, pos)
    decreases k
  {
    var n := StripCount(w, h);
    var desc := Descending(w, h, dstX, dstY, srcX, srcY);
    var ev := StepsEvents(dstX, dstY, w, h, srcX, srcY, k);
    var prev := StepsEvents(dstX, dstY, w, h, srcX, srcY, k - 1);
    var last := StripEvents(dstX, dstY, w, h, srcX, srcY, StripAt(n, desc, k - 1));
    assert ev == prev + last;
    assert |prev| == 3 * (k - 1) by {
      StepsEventsNoWait(dstX, dstY, w, h, srcX, srcY, k - 1);
    }
    if m < k - 1 {
      StepsEventsAt(dstX, dstY, w, h, srcX, srcY, k - 1, m);
      SliceOfConcat(prev, last, 3 * m, 3 * m + 3);
    } else {
      assert ev[3 * m .. 3 * m + 3] == last;
    }
  }

  /**
   * A copy streams exactly one strip per column (w < h) or per row, each as
   * read, window, write, and ends with a single wait for the DMA.
   */
  lemma CopyRectEventsShape(dstX: int, dstY: int, w: int, h: int, srcX: int, srcY: int)
    requires w >= 1 && h >= 1
    ensures var ev := CopyRectEvents(dstX, dstY, w, h, srcX, srcY);
            && |ev| == 3 * StripCount(w, h) + 1
            && ev[|ev| - 1] == WaitDma
            && forall m :: 0 <= m < |ev| - 1 ==> !ev[m].WaitDma?
  {
    var k := StripCount(w, h);
    StepsEventsNoWait(dstX, dstY, w, h, srcX, srcY, k);
    var ev := CopyRectEvents(dstX, dstY, w, h, srcX, srcY);
    var steps := StepsEvents(dstX, dstY, w, h, srcX, srcY, k);
    assert forall m :: 0 <= m < |ev| - 1 ==> ev[m] == steps[m];
  }

  //-------------------------------------------------------------------------
  // The cells a copy moves

  /** Cell (a, b) lies in the w-by-h rectangle whose top-left cell is (x, y). */
  predicate InRect(a: int, b: int, x: int, y: int, w: int, h: int)
  {
    x <= a < x + w && y <= b < y + h
  }

  /** The strip of the destination rectangle that holds cell (a, b): its column or its row. */
  function StripOf(w: int, h: int, dstX: int, dstY: int, a: int, b: int): int
  {
    if ByColumns(w, h) then a - dstX else b - dstY
  }

  /** Strip `pos` is one of those the first `k` of `n` steps copied. */
  predicate StripDone(n: int, desc: bool, k: int, pos: int)
  {
    if desc then n - k <= pos < n else 0 <= pos < k
  }

  /** One more step adds exactly the strip it copies. */
  lemma StripDoneStep(n: int, desc: bool, k: int, pos: int)
    requires 0 <= k < n
    ensures StripDone(n, desc, k + 1, pos) <==> StripDone(n, desc, k, pos) || pos == StripAt(n, desc, k)
  {
  }

  /** After all `n` steps every strip has been copied. */
  lemma StripDoneAll(n: int, desc: bool, pos: int)
    ensures StripDone(n, desc, n, pos) <==> 0 <= pos < n
  {
  }

  /**
   * The source of the strip copied at step k is not a destination strip an
   * earlier step wrote: src + pos is the source strip's offset, which as an
   * offset into the destination is src - dst + pos.
   */
  lemma SourceStripPending(n: int, k: int, src: int, dst: int)
    requires 0 <= k < n
    ensures !StripDone(n, src < dst, k, src - dst + StripAt(n, src < dst, k))
  {
  }
}
