/**
 * The row scan of pushImageARGB_impl: how one row of ARGB8888 pixels is cut
 * into runs that are drawn, runs whose background is read back from the
 * panel first (so the blend has something to mix with), and transparent
 * pixels that are skipped.
 *
 * Only the alpha channel steers the scan, so a row is its sequence of alpha
 * bytes.  The scan produces the plan of the row: a sequence of RowOps, in
 * the order the device issues them.
 */
module ArgbScan {
  import opened BusTrace

  datatype RowOp =
    | Read(start: int, count: int)  // read_rect of `count` pixels at `start` into the DMA buffer
    | Span(lo: int, hi: int)        // fp_copy, setWindow and writePixelsDMA of pixels [lo, hi)

  /** The pending run [d, e) is drawn when it is not empty. */
  function Flush(d: int, e: int): seq<RowOp>
  {
    if d < e then [Span(d, e)] else []
  }

  /** First index at or after `i` whose alpha is not 255, or |A|. */
  function SkipOpaque(A: seq<uint8>, i: nat): (k: nat)
    requires i <= |A|
    ensures i <= k <= |A|
    ensures forall p :: i <= p < k ==> A[p] == 255
    ensures k < |A| ==> A[k] != 255
    decreases |A| - i
  {
    if i == |A| || A[i] != 255 then i else SkipOpaque(A, i + 1)
  }

  /** First index at or after `j` that ends a run of partially transparent pixels, or |A|. */
  function RunEnd(A: seq<uint8>, j: nat): (e: nat)
    requires j <= |A|
    ensures j <= e <= |A|
    ensures forall p :: j <= p < e ==> 0 < A[p] < 255
    ensures e < |A| ==> A[e] == 0 || A[e] == 255
    decreases |A| - j
  {
    if j == |A| || A[j] == 0 || A[j] == 255 then j else RunEnd(A, j + 1)
  }

  /** What one pass of the scan loop issues, and where the loop goes on. */
  datatype Step =
    | Done(ops: seq<RowOp>)                  // the loop has left the row
    | Next(ops: seq<RowOp>, xs: nat, d: nat) // the loop goes on with xstart = xs, drawed_x = d

  /**
   * One pass of the scan loop from `xstart` = xs, `drawed_x` = d, including
   * the final flush when the pass ends the row.
   */
  function ScanStep(A: seq<uint8>, xs: nat, d: nat): (s: Step)
    requires d <= xs < |A|
    ensures s.Next? ==> xs < s.xs < |A| && d <= s.d <= s.xs
  {
    if A[xs] == 0 then
      if xs + 1 == |A| then Done(Flush(d, xs)) else Next(Flush(d, xs), xs + 1, xs + 1)
    else
      var k := SkipOpaque(A, xs);
      if k == |A| then Done(Flush(d, |A|))
      else
        var j := RunEnd(A, k + 1);
        if j + 1 >= |A| then Done([Read(k, j - k + 1)] + Flush(d, |A|))
        else Next([Read(k, j - k + 1)], j + 1, d)
  }

  /**
   * The rest of the row from the top of the scan loop: `xs` is `xstart`,
   * `d` is `drawed_x`, the first pixel not yet drawn.
   */
  function Scan(A: seq<uint8>, xs: nat, d: nat): seq<RowOp>
    requires d <= xs < |A|
    decreases |A| - xs
  {
    match ScanStep(A, xs, d)
    case Done(ops) => ops
    case Next(ops, xs', d') => ops + Scan(A, xs', d')
  }

  /** The plan of a row of |A| >= 1 pixels. */
  function RowPlan(A: seq<uint8>): seq<RowOp>
    requires |A| >= 1
  {
    Scan(A, 0, 0)
  }

  /** Pixel `p` is drawn by a span of `ops`. */
  predicate Covered(ops: seq<RowOp>, p: int)
  {
    exists i :: 0 <= i < |ops| && ops[i].Span? && ops[i].lo <= p < ops[i].hi
  }

  /** Pixel `p` has been read back by an operation of `ops` before position `i`. */
  predicate ReadBefore(ops: seq<RowOp>, i: int, p: int)
  {
    exists m :: 0 <= m < i && m < |ops| && ops[m].Read? && ops[m].start <= p < ops[m].start + ops[m].count
  }

  /**
   * Spans are non-empty, lie in [lo0, w), and each ends before the next
   * one starts; reads start at or after `rs` and stay inside w + 1 pixels.
   */
  predicate WellFormed(ops: seq<RowOp>, lo0: int, rs: int, w: int)
  {
    && (forall i :: 0 <= i < |ops| && ops[i].Span? ==> lo0 <= ops[i].lo < ops[i].hi <= w)
    && (forall i, i' :: 0 <= i < i' < |ops| && ops[i].Span? && ops[i'].Span? ==> ops[i].hi < ops[i'].lo)
    && (forall i :: 0 <= i < |ops| && ops[i].Read? ==>
          rs <= ops[i].start && 2 <= ops[i].count && ops[i].start + ops[i].count <= w + 1)
  }

  lemma WellFormedConcat(a: seq<RowOp>, b: seq<RowOp>, lo0: int, rs0: int, w: int, lo1: int, rs1: int)
    requires WellFormed(a, lo0, rs0, w) && WellFormed(b, lo1, rs1, w) && lo0 <= lo1 && rs0 <= rs1
    requires forall i :: 0 <= i < |a| && a[i].Span? ==> a[i].hi < lo1
    ensures WellFormed(a + b, lo0, rs0, w)
  {
    var ab := a + b;
    forall i, i' | 0 <= i < i' < |ab| && ab[i].Span? && ab[i'].Span?
      ensures ab[i].hi < ab[i'].lo
    {
      if i' >= |a| && i < |a| {
        assert ab[i'] == b[i' - |a|];
      }
    }
  }

  /** One pass issues well formed operations; spans it issues end before the pending run. */
  lemma StepWellFormed(A: seq<uint8>, xs: nat, d: nat)
    requires d <= xs < |A|
    ensures var s := ScanStep(A, xs, d);
            && WellFormed(s.ops, d, xs, |A|)
            && (s.Next? ==> forall i :: 0 <= i < |s.ops| && s.ops[i].Span? ==> s.ops[i].hi < s.d)
  {
  }

  /** Scan produces a well formed plan whose spans start at or after `d`. */
  lemma {:induction false} ScanWellFormed(A: seq<uint8>, xs: nat, d: nat)
    requires d <= xs < |A|
    ensures WellFormed(Scan(A, xs, d), d, xs, |A|)
    decreases |A| - xs
  {
    var s := ScanStep(A, xs, d);
    StepWellFormed(A, xs, d);
    if s.Next? {
      ScanWellFormed(A, s.xs, s.d);
      WellFormedConcat(s.ops, Scan(A, s.xs, s.d), d, xs, |A|, s.d, s.xs);
    }
  }

  lemma CoveredConcat(a: seq<RowOp>, b: seq<RowOp>, p: int)
    requires Covered(a, p) || Covered(b, p)
    ensures Covered(a + b, p)
  {
    if Covered(a, p) {
      var i :| 0 <= i < |a| && a[i].Span? && a[i].lo <= p < a[i].hi;
      assert (a + b)[i] == a[i];
    } else {
      var i :| 0 <= i < |b| && b[i].Span? && b[i].lo <= p < b[i].hi;
      assert (a + b)[|a| + i] == b[i];
    }
  }

  /**
   * One pass draws a pixel that is behind the scan or not transparent, or
   * leaves it to the rest of the scan in the same situation.
   */
  lemma StepCovers(A: seq<uint8>, xs: nat, d: nat, p: int)
    requires d <= xs < |A|
    requires d <= p < |A| && (p < xs || A[p] != 0)
    ensures var s := ScanStep(A, xs, d);
            || Covered(s.ops, p)
            || (s.Next? && s.d <= p && (p < s.xs || A[p] != 0))
  {
    var s := ScanStep(A, xs, d);
    if A[xs] == 0 {
      if p < xs {
        assert s.ops[0] == Span(d, xs);
      }
    } else if SkipOpaque(A, xs) == |A| {
      assert s.ops[0] == Span(d, |A|);
    } else if s.Done? {
      assert s.ops[1] == Span(d, |A|);
    }
  }

  /**
   * Every pixel from `d` on that is already behind the scan, or that is not
   * fully transparent, is drawn.
   */
  lemma {:induction false} ScanCovers(A: seq<uint8>, xs: nat, d: nat, p: int)
    requires d <= xs < |A|
    requires d <= p < |A| && (p < xs || A[p] != 0)
    ensures Covered(Scan(A, xs, d), p)
    decreases |A| - xs
  {
    var s := ScanStep(A, xs, d);
    StepCovers(A, xs, d, p);
    if s.Next? {
      if !Covered(s.ops, p) {
        ScanCovers(A, s.xs, s.d, p);
      }
      CoveredConcat(s.ops, Scan(A, s.xs, s.d), p);
    }
  }

  /** Every non-opaque pixel of the pending run [d, xs) has been read back by `pre`. */
  predicate PendingRead(pre: seq<RowOp>, A: seq<uint8>, d: nat, xs: nat)
    requires xs <= |A|
  {
    forall p :: d <= p < xs && A[p] != 255 ==> ReadBefore(pre, |pre|, p)
  }

  /** Every non-opaque pixel drawn by a span of `ops` at or after `from` was read back before it. */
  predicate BlendSafe(ops: seq<RowOp>, from: int, A: seq<uint8>)
  {
    forall i, p :: 0 <= from <= i < |ops| && ops[i].Span? && ops[i].lo <= p < ops[i].hi && 0 <= p < |A| && A[p] != 255
                   ==> ReadBefore(ops, i, p)
  }

  lemma ReadBeforeExtend(ops: seq<RowOp>, more: seq<RowOp>, i: int, j: int, p: int)
    requires ReadBefore(ops, i, p) && i <= j
    ensures ReadBefore(ops + more, j, p)
  {
    var m :| 0 <= m < i && m < |ops| && ops[m].Read? && ops[m].start <= p < ops[m].start + ops[m].count;
    assert (ops + more)[m] == ops[m];
  }

  /** One pass keeps the pending run read back and draws only what has been read back. */
  lemma StepReadsBeforeBlend(A: seq<uint8>, xs: nat, d: nat, pre: seq<RowOp>)
    requires d <= xs < |A|
    requires PendingRead(pre, A, d, xs)
    ensures var s := ScanStep(A, xs, d);
            && BlendSafe(pre + s.ops, |pre|, A)
            && (s.Next? ==> PendingRead(pre + s.ops, A, s.d, s.xs))
  {
    var s := ScanStep(A, xs, d);
    var ops := pre + s.ops;
    forall i, p | |pre| <= i < |ops| && ops[i].Span? && ops[i].lo <= p < ops[i].hi && 0 <= p < |A| && A[p] != 255
      ensures ReadBefore(ops, i, p)
    {
      if p < xs {
        ReadBeforeExtend(pre, s.ops, |pre|, i, p);
      } else {
        var k := SkipOpaque(A, xs);
        assert A[xs] != 0 && k < |A| && k <= p;
        assert ops[|pre|] == Read(k, RunEnd(A, k + 1) - k + 1);
      }
    }
    if s.Next? && A[xs] != 0 {
      var k := SkipOpaque(A, xs);
      forall p | s.d <= p < s.xs && A[p] != 255
        ensures ReadBefore(ops, |ops|, p)
      {
        if p < xs {
          ReadBeforeExtend(pre, s.ops, |pre|, |ops|, p);
        } else {
          assert k <= p;
          assert ops[|pre|] == Read(k, RunEnd(A, k + 1) - k + 1);
        }
      }
    }
  }

  lemma BlendSafeConcat(pre: seq<RowOp>, a: seq<RowOp>, b: seq<RowOp>, A: seq<uint8>)
    requires BlendSafe(pre + a, |pre|, A) && BlendSafe(pre + a + b, |pre + a|, A)
    ensures BlendSafe(pre + a + b, |pre|, A)
  {
    var ops := pre + a + b;
    forall i, p | |pre| <= i < |ops| && ops[i].Span? && ops[i].lo <= p < ops[i].hi && 0 <= p < |A| && A[p] != 255
      ensures ReadBefore(ops, i, p)
    {
      if i < |pre + a| {
        assert ops[i] == (pre + a)[i];
        ReadBeforeExtend(pre + a, b, i, i, p);
      }
    }
  }

  /**
   * Blending reads first: with every pending pixel in [d, xs) either opaque
   * or already read back by `pre`, every pixel the rest of the scan draws is
   * opaque or has been read back by an earlier operation.
   */
  lemma {:induction false} ScanReadsBeforeBlend(A: seq<uint8>, xs: nat, d: nat, pre: seq<RowOp>)
    requires d <= xs < |A|
    requires PendingRead(pre, A, d, xs)
    ensures BlendSafe(pre + Scan(A, xs, d), |pre|, A)
    decreases |A| - xs
  {
    var s := ScanStep(A, xs, d);
    StepReadsBeforeBlend(A, xs, d, pre);
    if s.Next? {
      var rest := Scan(A, s.xs, s.d);
      ScanReadsBeforeBlend(A, s.xs, s.d, pre + s.ops);
      BlendSafeConcat(pre, s.ops, rest, A);
      assert pre + s.ops + rest == pre + Scan(A, xs, d);
    }
  }

  /**
   * The plan of a row: spans drawn left to right without overlap, reads that
   * fit the DMA buffer of w + 1 pixels, every pixel that is not fully
   * transparent drawn, and every drawn pixel that is not fully opaque read
   * back from the panel before the span that draws it.
   */
  lemma RowPlanCorrect(A: seq<uint8>)
    requires |A| >= 1
    ensures WellFormed(RowPlan(A), 0, 0, |A|)
    ensures forall p :: 0 <= p < |A| && A[p] != 0 ==> Covered(RowPlan(A), p)
    ensures BlendSafe(RowPlan(A), 0, A)
  {
    ScanWellFormed(A, 0, 0);
    forall p | 0 <= p < |A| && A[p] != 0
      ensures Covered(RowPlan(A), p)
    {
      ScanCovers(A, 0, 0, p);
    }
    ScanReadsBeforeBlend(A, 0, 0, []);
    assert [] + Scan(A, 0, 0) == RowPlan(A);
  }

  /** A fully transparent row draws and reads nothing. */
  lemma {:induction false} TransparentRowEmpty(A: seq<uint8>, xs: nat)
    requires xs < |A|
    requires forall p :: 0 <= p < |A| ==> A[p] == 0
    ensures Scan(A, xs, xs) == []
    decreases |A| - xs
  {
    if xs + 1 < |A| {
      TransparentRowEmpty(A, xs + 1);
    }
  }

  /** A fully opaque row is one span over the whole row, without read-back. */
  lemma OpaqueRowOneSpan(A: seq<uint8>)
    requires |A| >= 1
    requires forall p :: 0 <= p < |A| ==> A[p] == 255
    ensures RowPlan(A) == [Span(0, |A|)]
  {
    assert SkipOpaque(A, 0) == |A|;
  }

  /**
   * One pass of the do-while loop of pushImageARGB_impl, from `xstart` = xs
   * and `drawed_x` = d: the operations it issues, the new `xstart` and
   * `drawed_x`, and whether the loop is left.
   */
  method ScanPass(A: seq<uint8>, xs: nat, d: nat) returns (ops: seq<RowOp>, xstart: nat, drawed: nat, done: bool)
    requires d <= xs < |A|
    ensures done ==> xstart == |A| && drawed <= xstart && ScanStep(A, xs, d) == Done(ops + Flush(drawed, xstart))
    ensures !done ==> ScanStep(A, xs, d) == Next(ops, xstart, drawed)
  {
    var w := |A|;
    xstart, drawed := xs, d;
    ops := [];
    if A[xstart] == 0 {
      if drawed < xstart {
        ops := [Span(drawed, xstart)];
      }
      drawed := xstart + 1;
    } else {
      xstart := SkipOpaqueLoop(A, xstart);
      if xstart == w {
        return ops, xstart, drawed, true;
      }
      var j := RunEndLoop(A, xstart + 1);
      ops := [Read(xstart, j - xstart + 1)];
      xstart := j;
      if xstart == w {
        return ops, xstart, drawed, true;
      }
    }
    xstart := xstart + 1;
    done := xstart == w;
  }

  /** The loop that skips the fully opaque pixels from `i` on. */
  method SkipOpaqueLoop(A: seq<uint8>, i: nat) returns (k: nat)
    requires i <= |A|
    ensures k == SkipOpaque(A, i)
  {
    k := i;
    while k < |A| && A[k] == 255
      invariant i <= k <= |A|
      invariant SkipOpaque(A, k) == SkipOpaque(A, i)
      decreases |A| - k
    {
      k := k + 1;
    }
  }

  /** The scan for the end of a run of partially transparent pixels. */
  method RunEndLoop(A: seq<uint8>, i: nat) returns (j: nat)
    requires i <= |A|
    ensures j == RunEnd(A, i)
  {
    j := i;
    while j != |A| && A[j] != 0 && A[j] != 255
      invariant i <= j <= |A|
      invariant RunEnd(A, j) == RunEnd(A, i)
      decreases |A| - j
    {
      j := j + 1;
    }
  }

  /**
   * The inner loop of pushImageARGB_impl for one row, as written: it issues
   * the row's operations in the order of RowPlan.
   */
  method ScanRow(A: seq<uint8>) returns (ops: seq<RowOp>)
    requires |A| >= 1
    ensures ops == RowPlan(A)
  {
    var xstart: nat, drawed: nat := 0, 0;
    ops := [];
    while true
      invariant drawed <= xstart < |A|
      invariant ops + Scan(A, xstart, drawed) == RowPlan(A)
      decreases |A| - xstart
    {
      var passOps, x', d', done := ScanPass(A, xstart, drawed);
      assert Scan(A, xstart, drawed) == ScanStep(A, xstart, drawed).ops
             + (if done then [] else Scan(A, x', d'));
      if done {
        assert ops + (passOps + Flush(d', x')) == (ops + passOps) + Flush(d', x');
        ops, xstart, drawed := ops + passOps, x', d';
        break;
      }
      assert ops + (passOps + Scan(A, x', d')) == (ops + passOps) + Scan(A, x', d');
      ops, xstart, drawed := ops + passOps, x', d';
    }
    if drawed < xstart {
      ops := ops + [Span(drawed, xstart)];
    }
  }

  //-------------------------------------------------------------------------
  // The calls a row and an image make

  /**
   * The calls one operation makes for the row drawn at screen line `y` from
   * source line `srcY`.  A span sets `src_x` to its first pixel, converts
   * pixels [lo, hi) into the DMA buffer, sets the window from x + lo to
   * x + hi on that line (one column more than it writes) and sends hi - lo
   * pixels from offset lo; a read fetches `count` pixels of line `y` into
   * the buffer at offset `start`.
   */
  function OpEvents(op: RowOp, x: int, y: int, srcY: int): seq<Event>
  {
    match op
    case Read(start, count) => [ReadRect(x + start, y, count, 1)]
    case Span(lo, hi) => [FpCopy(lo, hi, lo, srcY), SetWindow(x + lo, y, x + hi, y), WritePixels(lo, hi - lo)]
  }

  function OpsEvents(ops: seq<RowOp>, x: int, y: int, srcY: int): seq<Event>
  {
    if ops == [] then []
    else OpsEvents(ops[..|ops| - 1], x, y, srcY) + OpEvents(ops[|ops| - 1], x, y, srcY)
  }

  /** One row: a DMA buffer of w + 1 pixels of `bytes` bytes, then the plan's calls. */
  function RowEvents(A: seq<uint8>, x: int, y: int, srcY: int, bytes: nat): seq<Event>
    requires |A| >= 1
  {
    [GetDmaBuffer((|A| + 1) * bytes)] + OpsEvents(RowPlan(A), x, y, srcY)
  }

  /**
   * The first `rows` rows of the image: row r is drawn at line y + r from
   * source line srcY + r, with the same alpha row A each time.
   */
  function ImageEvents(A: seq<uint8>, x: int, y: int, srcY: int, bytes: nat, rows: nat): seq<Event>
    requires |A| >= 1
  {
    if rows == 0 then []
    else ImageEvents(A, x, y, srcY, bytes, rows - 1) + RowEvents(A, x, y + rows - 1, srcY + rows - 1, bytes)
  }

  /** One more row appends that row's calls, at line y + rows from source line srcY + rows. */
  lemma ImageEventsStep(A: seq<uint8>, x: int, y: int, srcY: int, bytes: nat, rows: nat)
    requires |A| >= 1
    ensures ImageEvents(A, x, y, srcY, bytes, rows + 1)
            == ImageEvents(A, x, y, srcY, bytes, rows) + RowEvents(A, x, y + rows, srcY + rows, bytes)
  {
  }

  /** `src_x` after a row: the first pixel of its last span, if it has one. */
  function LastSpanLo(ops: seq<RowOp>): Option<int>
  {
    if ops == [] then None
    else if ops[|ops| - 1].Span? then Some(ops[|ops| - 1].lo)
    else LastSpanLo(ops[..|ops| - 1])
  }

  /** Every pixel the image writes is written by a span: each write covers exactly its span. */
  lemma {:induction false} OpsEventsWrites(ops: seq<RowOp>, x: int, y: int, srcY: int, m: nat)
    requires m < |OpsEvents(ops, x, y, srcY)|
    ensures var ev := OpsEvents(ops, x, y, srcY);
            ev[m].WritePixels? ==> exists i :: 0 <= i < |ops| && ops[i] == Span(ev[m].offset, ev[m].offset + ev[m].count)
    decreases |ops|
  {
    var ev := OpsEvents(ops, x, y, srcY);
    var init := ops[..|ops| - 1];
    var pre := OpsEvents(init, x, y, srcY);
    if m < |pre| {
      if ev[m].WritePixels? {
        assert ev[m] == pre[m];
        OpsEventsWrites(init, x, y, srcY, m);
        var i :| 0 <= i < |init| && init[i] == Span(ev[m].offset, ev[m].offset + ev[m].count);
        assert ops[i] == init[i];
      }
    } else if ev[m].WritePixels? {
      assert ev[m] == OpEvents(ops[|ops| - 1], x, y, srcY)[m - |pre|];
      assert ops[|ops| - 1] == Span(ev[m].offset, ev[m].offset + ev[m].count);
    }
  }
}
