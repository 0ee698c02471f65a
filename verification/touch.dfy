/**
 * The integer parts of LGFX_Device's touch pipeline: the rotation remap of
 * convertRawXY, the corner layout shared by calibrate_touch,
 * set_touch_calibrate and postSetTouch, and the jitter-rejecting sampling of
 * calibrate_touch over a finite sequence of controller readings.
 */
module Touch {
  import opened BusTrace

  // ---------------------------------------------------------------------
  // Rotation remap (convertRawXY after the affine step)
  // ---------------------------------------------------------------------

  /** `r & 1`: the axes are exchanged. */
  predicate SwapsAxes(r: nat)
  {
    r % 2 == 1
  }

  /** `r & 2`: x is mirrored. */
  predicate MirrorsX(r: nat)
  {
    (r / 2) % 2 == 1
  }

  /** `(0 == ((r + 1) & 2)) != (0 == (r & 4))`: y is mirrored. */
  predicate MirrorsY(r: nat)
  {
    ((r + 1) / 2 % 2 == 0) != (r / 4 % 2 == 0)
  }

  /**
   * The remap of convertRawXY: (tx, ty) are the integers the affine step
   * produced, `rotation` is the panel's rotation, `width` and `height` the
   * device's.
   */
  function Remap(rotation: uint8, width: int, height: int, tx: int, ty: int): (int, int)
  {
    var r := rotation % 8;
    var (sx, sy) := if SwapsAxes(r) then (ty, tx) else (tx, ty);
    (if MirrorsX(r) then (width - 1) - sx else sx,
     if MirrorsY(r) then (height - 1) - sy else sy)
  }

  /** The mirror rules written out for the eight rotations. */
  lemma MirrorTable(r: nat)
    requires r < 8
    ensures SwapsAxes(r) <==> r in {1, 3, 5, 7}
    ensures MirrorsX(r) <==> r in {2, 3, 6, 7}
    ensures MirrorsY(r) <==> r in {1, 2, 4, 7}
  {
  }

  /** Undo a remap: unmirror, then exchange the axes back. */
  function Unmap(rotation: uint8, width: int, height: int, x: int, y: int): (int, int)
  {
    var r := rotation % 8;
    var sx := if MirrorsX(r) then (width - 1) - x else x;
    var sy := if MirrorsY(r) then (height - 1) - y else y;
    if SwapsAxes(r) then (sy, sx) else (sx, sy)
  }

  /**
   * The remap is a bijection: Unmap undoes it and it undoes Unmap, so no
   * two touch points land on the same screen point.
   */
  lemma RemapBijective(rotation: uint8, width: int, height: int, tx: int, ty: int)
    ensures var (x, y) := Remap(rotation, width, height, tx, ty);
            Unmap(rotation, width, height, x, y) == (tx, ty)
    ensures var (ux, uy) := Unmap(rotation, width, height, tx, ty);
            Remap(rotation, width, height, ux, uy) == (tx, ty)
  {
  }

  /**
   * A point inside the panel's raw frame (width by height, or height by
   * width when the axes are exchanged) is mapped inside the screen.
   */
  lemma RemapInBounds(rotation: uint8, width: int, height: int, tx: int, ty: int)
    requires SwapsAxes(rotation % 8) ==> 0 <= tx < height && 0 <= ty < width
    requires !SwapsAxes(rotation % 8) ==> 0 <= tx < width && 0 <= ty < height
    ensures var (x, y) := Remap(rotation, width, height, tx, ty);
            0 <= x < width && 0 <= y < height
  {
  }

  // ---------------------------------------------------------------------
  // Corner layout
  // ---------------------------------------------------------------------

  /**
   * Corner `i` of a w-by-h screen in the order calibrate_touch visits them
   * and set_touch_calibrate fits them: x from bit 1 of i, y from bit 0.
   */
  function Corner(i: nat, w: int, h: int): (c: (int, int))
    requires i < 4
    ensures i == 0 ==> c == (0, 0)
    ensures i == 1 ==> c == (0, h - 1)
    ensures i == 2 ==> c == (w - 1, 0)
    ensures i == 3 ==> c == (w - 1, h - 1)
  {
    ((w - 1) * ((i / 2) % 2), (h - 1) * (i % 2))
  }

  /** The targets of set_touch_calibrate: corners of the screen as the current rotation sees it. */
  function CalibrationTargets(rotation: uint8, width: int, height: int): (t: seq<(int, int)>)
    ensures |t| == 4
  {
    var odd := rotation % 2 == 1;
    var w := if odd then height else width;
    var h := if odd then width else height;
    [Corner(0, w, h), Corner(1, w, h), Corner(2, w, h), Corner(3, w, h)]
  }

  /** The eight calibration values postSetTouch derives from the controller's raw range. */
  function PostSetTouchParameters(xMin: uint16, xMax: uint16, yMin: uint16, yMax: uint16): seq<uint16>
  {
    [xMin, yMin, xMin, yMax, xMax, yMin, xMax, yMax]
  }

  /**
   * postSetTouch lists the raw corners in the order of the screen corners:
   * raw pair i is the raw minimum or maximum exactly where corner i of the
   * screen is at the low or high end, on each axis.
   */
  lemma PostSetTouchMatchesCorners(xMin: uint16, xMax: uint16, yMin: uint16, yMax: uint16, i: nat, w: int, h: int)
    requires i < 4 && w > 1 && h > 1
    ensures var p := PostSetTouchParameters(xMin, xMax, yMin, yMax);
            var (cx, cy) := Corner(i, w, h);
            && |p| == 8
            && p[2 * i] == (if cx == 0 then xMin else xMax)
            && p[2 * i + 1] == (if cy == 0 then yMin else yMax)
  {
  }

  // ---------------------------------------------------------------------
  // Calibration sampling
  // ---------------------------------------------------------------------

  /** One answer of getTouchRaw: the touch count and the coordinates it reported. */
  datatype RawTouch = RawTouch(count: uint8, x: int, y: int)

  /** `_RAWERR`: the largest accepted difference between two readings of one pair. */
  const RAW_ERR: nat := 20

  function Abs(v: int): nat
  {
    if v < 0 then -v else v
  }

  /** Two readings form an acceptable pair. */
  predicate Agree(a: RawTouch, b: RawTouch)
  {
    a.count != 0 && b.count != 0 && Abs(a.x - b.x) <= RAW_ERR && Abs(a.y - b.y) <= RAW_ERR
  }

  /** The inner wait: the first reading at or after `i` that reports a touch. */
  function FirstTouch(s: seq<RawTouch>, i: nat): (k: Option<nat>)
    requires i <= |s|
    ensures k.Some? ==> i <= k.value < |s| && s[k.value].count != 0
    decreases |s| - i
  {
    if i == |s| then None
    else if s[i].count != 0 then Some(i)
    else FirstTouch(s, i + 1)
  }

  /** The wait skips exactly the readings that report no touch. */
  lemma {:induction false} FirstTouchSkipsIdle(s: seq<RawTouch>, i: nat)
    requires i <= |s|
    ensures var k := FirstTouch(s, i);
            && (k.Some? ==> forall m :: i <= m < k.value ==> s[m].count == 0)
            && (k.None? ==> forall m :: i <= m < |s| ==> s[m].count == 0)
    decreases |s| - i
  {
    if i < |s| && s[i].count == 0 {
      FirstTouchSkipsIdle(s, i + 1);
    }
  }

  /**
   * One accepted pair from reading `i` on: the index of its first reading
   * (the second follows it), or None when the readings run out.
   */
  function NextPair(s: seq<RawTouch>, i: nat): (k: Option<nat>)
    requires i <= |s|
    ensures k.Some? ==> i <= k.value && k.value + 1 < |s| && Agree(s[k.value], s[k.value + 1])
    decreases |s| - i
  {
    match FirstTouch(s, i)
    case None => None
    case Some(a) =>
      if a + 1 == |s| then None
      else if Agree(s[a], s[a + 1]) then Some(a)
      else NextPair(s, a + 2)
  }

  /** The sums of x and of y over `n` accepted pairs from reading `i` on, and the next reading. */
  datatype Sums = Sums(x: int, y: int, next: nat)

  function SamplePairs(s: seq<RawTouch>, i: nat, n: nat): (r: Option<Sums>)
    requires i <= |s|
    ensures r.Some? ==> i <= r.value.next <= |s|
    decreases n
  {
    if n == 0 then Some(Sums(0, 0, i))
    else match NextPair(s, i)
      case None => None
      case Some(a) =>
        match SamplePairs(s, a + 2, n - 1)
        case None => None
        case Some(rest) => Some(Sums(s[a].x + s[a + 1].x + rest.x, s[a].y + s[a + 1].y + rest.y, rest.next))
  }

  /** The number of accepted pairs per corner. */
  const PAIRS: nat := 8

  /** `x_touch >> 4` stored into a uint16 element of `orig`. */
  function Average16(sum: int): uint16
  {
    (sum / 16) % 0x1_0000
  }

  /** One accepted pair, the one at `a`, followed by the remaining n - 1. */
  lemma SamplePairsStep(s: seq<RawTouch>, i: nat, n: nat, a: nat)
    requires i <= |s| && n > 0 && NextPair(s, i) == Some(a)
    ensures a + 2 <= |s|
    ensures SamplePairs(s, i, n) == AddSums(SamplePairs(s, a + 2, n - 1), s[a].x + s[a + 1].x, s[a].y + s[a + 1].y)
  {
  }

  /** `2 * n * v`, one pair at a time. */
  function PairsTimes(n: nat, v: int): int
  {
    if n == 0 then 0 else PairsTimes(n - 1, v) + 2 * v
  }

  lemma PairsTimesStep(n: nat, v: int)
    requires n > 0
    ensures PairsTimes(n, v) == PairsTimes(n - 1, v) + 2 * v
  {
  }

  lemma {:induction false} PairsTimesLinear(n: nat, v: int)
    ensures PairsTimes(n, v) == 2 * n * v
  {
    if n > 0 {
      PairsTimesLinear(n - 1, v);
      assert 2 * n * v == 2 * (n - 1) * v + 2 * v;
    }
  }

  /**
   * When every reading lies in [lo, hi], the sums of n accepted pairs lie
   * in [2n lo, 2n hi]: the jitter filter never invents values.
   */
  lemma {:induction false} SamplePairsBounds(s: seq<RawTouch>, i: nat, n: nat, lo: int, hi: int)
    requires i <= |s|
    requires forall m :: i <= m < |s| ==> lo <= s[m].x <= hi && lo <= s[m].y <= hi
    ensures var r := SamplePairs(s, i, n);
            r.Some? ==> && PairsTimes(n, lo) <= r.value.x <= PairsTimes(n, hi)
                        && PairsTimes(n, lo) <= r.value.y <= PairsTimes(n, hi)
    decreases n
  {
    if n > 0 && NextPair(s, i).Some? {
      var a := NextPair(s, i).value;
      SamplePairsStep(s, i, n, a);
      SamplePairsBounds(s, a + 2, n - 1, lo, hi);
      var rest := SamplePairs(s, a + 2, n - 1);
      if rest.Some? {
        PairsTimesStep(n, lo);
        PairsTimesStep(n, hi);
        assert SamplePairs(s, i, n).value
            == Sums(s[a].x + s[a + 1].x + rest.value.x, s[a].y + s[a + 1].y + rest.value.y, rest.value.next);
      }
    }
  }

  lemma AverageBounds(sum: int, lo: int, hi: int)
    requires 0 <= lo <= hi < 0x1_0000
    requires 16 * lo <= sum <= 16 * hi
    ensures lo <= Average16(sum) <= hi
  {
  }

  /** A corner's calibration value stays within the range of the readings it was taken from. */
  lemma CornerValueInRange(s: seq<RawTouch>, i: nat, lo: int, hi: int)
    requires i <= |s| && 0 <= lo <= hi < 0x1_0000
    requires forall m :: i <= m < |s| ==> lo <= s[m].x <= hi && lo <= s[m].y <= hi
    ensures var r := SamplePairs(s, i, PAIRS);
            r.Some? ==> lo <= Average16(r.value.x) <= hi && lo <= Average16(r.value.y) <= hi
  {
    SamplePairsBounds(s, i, PAIRS, lo, hi);
    PairsTimesLinear(PAIRS, lo);
    PairsTimesLinear(PAIRS, hi);
    var r := SamplePairs(s, i, PAIRS);
    if r.Some? {
      AverageBounds(r.value.x, lo, hi);
      AverageBounds(r.value.y, lo, hi);
    }
  }

  /** The wait for the release: the reading after the first one that reports no touch. */
  function WaitRelease(s: seq<RawTouch>, i: nat): (k: Option<nat>)
    requires i <= |s|
    ensures k.Some? ==> i < k.value <= |s| && s[k.value - 1].count == 0
    decreases |s| - i
  {
    if i == |s| then None
    else if s[i].count == 0 then Some(i + 1)
    else WaitRelease(s, i + 1)
  }

  /** The wait consumes the readings that still report a touch, and the first one that does not. */
  lemma {:induction false} WaitReleaseSkipsTouches(s: seq<RawTouch>, i: nat)
    requires i <= |s|
    ensures var k := WaitRelease(s, i);
            k.Some? ==> forall m :: i <= m < k.value - 1 ==> s[m].count != 0
    decreases |s| - i
  {
    if i < |s| && s[i].count != 0 {
      WaitReleaseSkipsTouches(s, i + 1);
    }
  }

  /**
   * The eight values calibrate_touch measures over corners k..3 from
   * reading `i` on, or None when the readings run out.
   */
  function CalibrateFrom(s: seq<RawTouch>, i: nat, k: nat): (r: Option<seq<uint16>>)
    requires i <= |s| && k <= 4
    ensures r.Some? ==> |r.value| == 2 * (4 - k)
    decreases 4 - k
  {
    if k == 4 then Some([])
    else match SamplePairs(s, i, PAIRS)
      case None => None
      case Some(sums) =>
        match WaitRelease(s, sums.next)
        case None => None
        case Some(j) =>
          match CalibrateFrom(s, j, k + 1)
          case None => None
          case Some(rest) => Some([Average16(sums.x), Average16(sums.y)] + rest)
  }

  /** Sums of the pairs taken earlier added to the sums of the pairs still to come. */
  function AddSums(r: Option<Sums>, x: int, y: int): Option<Sums>
  {
    match r
    case None => None
    case Some(rest) => Some(Sums(x + rest.x, y + rest.y, rest.next))
  }

  /**
   * The do-while of calibrate_touch that takes one pair: wait for a touch,
   * take the next reading as its partner, and start over unless they agree.
   */
  method AcceptPair(s: seq<RawTouch>, start: nat) returns (a: Option<nat>)
    requires start <= |s|
    ensures a == NextPair(s, start)
  {
    var i := start;
    while true
      invariant start <= i <= |s|
      invariant NextPair(s, start) == NextPair(s, i)
      decreases |s| - i
    {
      ghost var i0 := i;
      while i < |s| && s[i].count == 0
        invariant i0 <= i <= |s|
        invariant FirstTouch(s, i) == FirstTouch(s, i0)
        decreases |s| - i
      {
        i := i + 1;
      }
      if i == |s| || i + 1 == |s| {
        return None;
      }
      if Agree(s[i], s[i + 1]) {
        return Some(i);
      }
      i := i + 2;
    }
  }

  /**
   * Taking one more pair moves its readings from the pairs to come into the
   * running sums: the invariant of the sampling loop is kept.
   */
  lemma AddSumsStep(s: seq<RawTouch>, start: nat, pairs: nat, i: nat, left: nat, x: int, y: int, k: nat)
    requires i <= |s| && left > 0 && NextPair(s, i) == Some(k)
    requires start <= |s| && SamplePairs(s, start, pairs) == AddSums(SamplePairs(s, i, left), x, y)
    ensures k + 2 <= |s|
    ensures SamplePairs(s, start, pairs)
            == AddSums(SamplePairs(s, k + 2, left - 1), x + (s[k].x + s[k + 1].x), y + (s[k].y + s[k + 1].y))
  {
    SamplePairsStep(s, i, left, k);
    AddSumsChain(SamplePairs(s, start, pairs), SamplePairs(s, i, left), SamplePairs(s, k + 2, left - 1),
                 s[k].x + s[k + 1].x, s[k].y + s[k + 1].y, x, y);
  }

  /** The readings run out before the next pair: the corner yields nothing. */
  lemma SampleStops(s: seq<RawTouch>, start: nat, pairs: nat, i: nat, left: nat, x: int, y: int)
    requires i <= |s| && left > 0 && NextPair(s, i).None?
    requires start <= |s| && SamplePairs(s, start, pairs) == AddSums(SamplePairs(s, i, left), x, y)
    ensures SamplePairs(s, start, pairs).None?
  {
  }

  /** Every pair taken: the running sums are the corner's sums. */
  lemma SampleDone(s: seq<RawTouch>, start: nat, pairs: nat, i: nat, x: int, y: int)
    requires i <= |s| && start <= |s| && SamplePairs(s, start, pairs) == AddSums(SamplePairs(s, i, 0), x, y)
    ensures SamplePairs(s, start, pairs) == Some(Sums(x, y, i))
  {
  }

  lemma AddSumsChain(r0: Option<Sums>, r1: Option<Sums>, r2: Option<Sums>, a: int, b: int, x: int, y: int)
    requires r0 == AddSums(r1, x, y) && r1 == AddSums(r2, a, b)
    ensures r0 == AddSums(r2, x + a, y + b)
  {
  }

  /**
   * The sampling loop of one corner, as written, taking `pairs` accepted
   * pairs (calibrate_touch takes PAIRS) and summing their readings.
   */
  method SampleCorner(s: seq<RawTouch>, start: nat, pairs: nat) returns (r: Option<Sums>)
    requires start <= |s|
    ensures r == SamplePairs(s, start, pairs)
  {
    var xTouch, yTouch := 0, 0;
    var i := start;
    var j := 0;
    ghost var left: nat := pairs;
    assert AddSums(SamplePairs(s, start, pairs), 0, 0) == SamplePairs(s, start, pairs);
    while j < pairs
      invariant j <= pairs && start <= i <= |s| && left == pairs - j
      invariant SamplePairs(s, start, pairs) == AddSums(SamplePairs(s, i, left), xTouch, yTouch)
    {
      var a := AcceptPair(s, i);
      if a.None? {
        SampleStops(s, start, pairs, i, left, xTouch, yTouch);
        return None;
      }
      var k := a.value;
      AddSumsStep(s, start, pairs, i, left, xTouch, yTouch, k);
      xTouch, yTouch, i, j := xTouch + (s[k].x + s[k + 1].x), yTouch + (s[k].y + s[k + 1].y), k + 2, j + 1;
      left := left - 1;
    }
    SampleDone(s, start, pairs, i, xTouch, yTouch);
    r := Some(Sums(xTouch, yTouch, i));
  }
}
