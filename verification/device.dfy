/**
 * LGFX_Device: the device object that owns a panel descriptor and a touch
 * controller descriptor and drives them.  Everything it sends to the bus,
 * the panel or the controller is appended to `trace`; the pixels of the
 * panel's memory are the grid `screen`, indexed `screen[x, y]`.
 */
module Device {
  import opened BusTrace
  import opened CommandTable
  import opened DeviceEvents
  import Touch
  import RC = ReadCommand
  import CR = CopyRect
  import ArgbScan

  /** The touch controller descriptor: whether it shares the panel's bus, and its raw range. */
  datatype TouchDesc = TouchDesc(busShared: bool, xMin: uint16, xMax: uint16, yMin: uint16, yMax: uint16)

  /** An `std::int32_t` the caller passes by pointer. */
  class IntRef {
    var value: int

    constructor (v: int)
      ensures value == v
    {
      value := v;
    }
  }

  /** An `std::uint16_t` the caller passes by pointer. */
  class Uint16Ref {
    var value: uint16

    constructor (v: uint16)
      ensures value == v
    {
      value := v;
    }
  }

  /** The part of `pixelcopy_t` that pushImageARGB_impl reads and updates. */
  class PixelCopyParam {
    var srcX: int
    var srcY: int
    /** The alpha channel of `src_data`, from its first pixel on. */
    const alpha: seq<uint8>

    constructor (srcX: int, srcY: int, alpha: seq<uint8>)
      ensures this.srcX == srcX && this.srcY == srcY && this.alpha == alpha
    {
      this.srcX := srcX;
      this.srcY := srcY;
      this.alpha := alpha;
    }
  }

  /** getTouchRaw: the controller is asked between endTransaction and beginTransaction when both hold. */
  function TouchRawEvents(busShared: bool, inTransaction: bool, number: uint8): seq<Event>
  {
    if busShared && inTransaction then [EndTransaction, TouchRead(number), BeginTransaction]
    else [TouchRead(number)]
  }

  /** What calibrate_touch draws and waits for at corner `i`. */
  function CornerEvents(i: nat, width: int, height: int, size: uint8, fg: int, bg: int): seq<Event>
    requires i < 4
  {
    var (px, py) := Touch.Corner(i, width, height);
    [DrawCalibratePoint(px, py, size, fg, bg), Delay(500), DrawCalibratePoint(px, py, size, bg, bg)]
  }

  /** The first `k` corners. */
  function CornersEvents(k: nat, width: int, height: int, size: uint8, fg: int, bg: int): (ev: seq<Event>)
    requires k <= 4
    ensures |ev| == 3 * k
  {
    if k == 0 then []
    else CornersEvents(k - 1, width, height, size, fg, bg) + CornerEvents(k - 1, width, height, size, fg, bg)
  }

  /**
   * calibrate_touch with a controller: rotation 0, the four corners, the
   * fit of the measured `values`, and the rotation put back.
   */
  function CalibrateTouchEvents(p: PanelDesc, width: int, height: int, size: uint8, fg: int, bg: int,
                                values: seq<uint16>): seq<Event>
    requires PanelValid(p)
  {
    SetRotationEvents(p, 0)
    + (CornersEvents(4, width, height, size, fg, bg) + [SetTouchCalibrate(values)])
    + SetRotationEvents(Rotated(p, 0), Int8Of(p.rotation))
  }

  /** Corner `m` of the first `k` sits at events 3m .. 3m + 3. */
  lemma {:induction false} CornersEventsAt(k: nat, width: int, height: int, size: uint8, fg: int, bg: int, m: nat)
    requires m < k <= 4
    ensures CornersEvents(k, width, height, size, fg, bg)[3 * m .. 3 * m + 3] == CornerEvents(m, width, height, size, fg, bg)
  {
    var prev := CornersEvents(k - 1, width, height, size, fg, bg);
    var last := CornerEvents(k - 1, width, height, size, fg, bg);
    assert CornersEvents(k, width, height, size, fg, bg) == prev + last;
    if m < k - 1 {
      CornersEventsAt(k - 1, width, height, size, fg, bg, m);
      assert (prev + last)[3 * m .. 3 * m + 3] == prev[3 * m .. 3 * m + 3];
    } else {
      assert (prev + last)[3 * m .. 3 * m + 3] == last;
    }
  }

  /**
   * The corners are visited in the order (0, 0), (0, H-1), (W-1, 0),
   * (W-1, H-1); at each, the cross is drawn, then erased in the background
   * colour after the samples.
   */
  lemma CalibrationCornerOrder(width: int, height: int, size: uint8, fg: int, bg: int, m: nat)
    requires m < 4
    ensures var ev := CornersEvents(4, width, height, size, fg, bg);
            var (px, py) := [(0, 0), (0, height - 1), (width - 1, 0), (width - 1, height - 1)][m];
            && ev[3 * m] == DrawCalibratePoint(px, py, size, fg, bg)
            && ev[3 * m + 1] == Delay(500)
            && ev[3 * m + 2] == DrawCalibratePoint(px, py, size, bg, bg)
  {
    var ev := CornersEvents(4, width, height, size, fg, bg);
    CornersEventsAt(4, width, height, size, fg, bg, m);
    assert ev[3 * m] == ev[3 * m .. 3 * m + 3][0];
    assert ev[3 * m + 1] == ev[3 * m .. 3 * m + 3][1];
    assert ev[3 * m + 2] == ev[3 * m .. 3 * m + 3][2];
  }

  class LgfxDevice {
    var panel: Option<PanelDesc>
    var touch: Option<TouchDesc>
    var width: int
    var height: int
    // the clip window `_sx, _sy, _sw, _sh`
    var sx: int
    var sy: int
    var sw: int
    var sh: int
    var inTransaction: bool
    /** `_write_conv.depth` and `_write_conv.bytes`. */
    var colorDepth: uint8
    var pixelBytes: nat
    /**
     * The first step of convertRawXY: the float affine map `_touch_affine`
     * applied to a raw point and truncated to int32.
     */
    var affine: (int, int) -> (int, int)
    /**
     * The least-squares fit of set_touch_calibrate: from the eight measured
     * values and the four screen targets to the affine step it installs.
     */
    const fitTouch: (seq<uint16>, seq<(int, int)>) -> ((int, int) -> (int, int))
    const screen: array2<int>
    var trace: seq<Event>

    ghost predicate Valid()
      reads this
    {
      panel.Some? ==> PanelValid(panel.value)
    }

    constructor (panel: Option<PanelDesc>, touch: Option<TouchDesc>, width: int, height: int,
                 colorDepth: uint8, pixelBytes: nat,
                 fitTouch: (seq<uint16>, seq<(int, int)>) -> ((int, int) -> (int, int)), screen: array2<int>)
      requires panel.Some? ==> PanelValid(panel.value)
      ensures Valid()
      ensures this.panel == panel && this.touch == touch && this.width == width && this.height == height
      ensures this.colorDepth == colorDepth && this.pixelBytes == pixelBytes
      ensures this.fitTouch == fitTouch && this.screen == screen
      ensures sx == 0 && sy == 0 && sw == 0 && sh == 0 && !inTransaction && trace == []
      // the touch transform starts as the identity
      ensures forall x, y :: affine(x, y) == (x, y)
    {
      this.panel := panel;
      this.touch := touch;
      this.width := width;
      this.height := height;
      this.colorDepth := colorDepth;
      this.pixelBytes := pixelBytes;
      this.fitTouch := fitTouch;
      this.screen := screen;
      sx, sy, sw, sh := 0, 0, 0, 0;
      inTransaction := false;
      affine := (x: int, y: int) => (x, y);
      trace := [];
    }

    //-----------------------------------------------------------------------
    // Command tables

    /** One pass of command_list: the entry at `addr` is sent and the pointer moves past it. */
    method SendEntry(t: seq<uint8>, addr: nat) returns (next: nat)
      requires addr + 1 < |t| && EntryEnd(t, addr) <= |t|
      modifies this`trace
      ensures next == EntryEnd(t, addr)
      ensures trace == old(trace) + EntryEvents(EntryAt(t, addr))
    {
      ghost var e := EntryAt(t, addr);
      trace := trace + [Cmd(t[addr])];
      next := addr + 1;
      var numArgs := t[next];
      next := next + 1;
      var ms := HasDelay(numArgs);
      var left := ArgCount(numArgs);
      ghost var argStart := next;
      while left > 0
        invariant argStart <= next && next - argStart + left == |e.args|
        invariant trace == old(trace) + [Cmd(e.op)] + DataEvents(e.args[..next - argStart])
      {
        DataEventsSnoc(e.args[..next - argStart], t[next]);
        assert e.args[..next - argStart + 1] == e.args[..next - argStart] + [t[next]];
        trace := trace + [Data(t[next])];
        next := next + 1;
        left := left - 1;
      }
      assert e.args[..next - argStart] == e.args;
      if ms {
        var d := t[next];
        next := next + 1;
        trace := trace + [Delay(if d == 255 then LONG_DELAY_MS else d)];
      }
    }

    /** command_list: walk the table entry by entry until the end marker. */
    method RunCommandList(t: seq<uint8>)
      requires Terminated(t)
      modifies this`trace
      ensures trace == old(trace) + TableEvents(t)
    {
      var addr: nat := 0;
      while !AtEndMark(t, addr)
        invariant ParseFrom(t, addr).Some?
        invariant old(trace) + TableEvents(t) == trace + EntriesEvents(ParseFrom(t, addr).value)
        decreases |t| - addr
      {
        ParseStep(t, addr);
        EntriesEventsCons(EntryAt(t, addr), ParseFrom(t, EntryEnd(t, addr)).value);
        addr := SendEntry(t, addr);
      }
    }

    /**
     * commandList: false and no traffic at all for a null table or one that
     * starts with the end marker; otherwise the table inside a write bracket
     * and the two hooks, and true.
     */
    method CommandList(t: Option<seq<uint8>>) returns (ok: bool)
      requires TableOk(t)
      modifies this`trace
      ensures ok <==> t.Some? && !AtEndMark(t.value, 0)
      ensures trace == old(trace) + CommandListEvents(t)
    {
      if t.None? {
        return false;
      }
      if AtEndMark(t.value, 0) {
        return false;
      }
      trace := trace + [StartWrite, PreCommandList];
      RunCommandList(t.value);
      trace := trace + [PostCommandList, EndWrite];
      return true;
    }

    method Sleep()
      requires Valid() && panel.Some?
      modifies this`trace
      ensures trace == old(trace) + SleepEvents(panel.value)
    {
      var _ := CommandList(panel.value.sleepIn);
      trace := trace + [PanelSleep];
    }

    method Wakeup()
      requires Valid() && panel.Some?
      modifies this`trace
      ensures trace == old(trace) + WakeupEvents(panel.value)
    {
      var _ := CommandList(panel.value.sleepOut);
      trace := trace + [PanelWakeup];
    }

    method PartialOn()
      requires Valid() && panel.Some?
      modifies this`trace
      ensures trace == old(trace) + CommandListEvents(panel.value.partialOn)
    {
      var _ := CommandList(panel.value.partialOn);
    }

    method PartialOff()
      requires Valid() && panel.Some?
      modifies this`trace
      ensures trace == old(trace) + CommandListEvents(panel.value.partialOff)
    {
      var _ := CommandList(panel.value.partialOff);
    }

    /** setColorDepth: the panel's table, then the write converter follows the panel's depth. */
    method SetColorDepth(depth: uint8)
      requires Valid() && panel.Some?
      modifies this`trace, this`colorDepth
      ensures trace == old(trace) + SetColorDepthEvents(panel.value, depth)
      ensures colorDepth == panel.value.depthAfter(depth)
    {
      var _ := CommandList(panel.value.depthCommands(depth));
      colorDepth := panel.value.depthAfter(depth);
      trace := trace + [PostSetColorDepth];
    }

    /** setRotation: the panel's table, and the panel now holds the rotation it settled on. */
    method SetRotation(r: int)
      requires Valid() && panel.Some?
      modifies this`trace, this`panel
      ensures Valid()
      ensures trace == old(trace) + SetRotationEvents(old(panel).value, r)
      ensures panel == Some(Rotated(old(panel).value, r))
    {
      var _ := CommandList(panel.value.rotationCommands(r));
      panel := Some(Rotated(panel.value, r));
      trace := trace + [PostSetRotation];
    }

    method InvertDisplay(invert: bool)
      requires Valid() && panel.Some?
      modifies this`trace
      ensures trace == old(trace) + InvertDisplayEvents(panel.value, invert)
    {
      var _ := CommandList(panel.value.invertCommands(invert));
    }

    method SetBrightness(level: uint8)
      modifies this`trace
      ensures trace == old(trace) + [Event.SetBrightness(level)]
    {
      trace := trace + [Event.SetBrightness(level)];
    }

    /**
     * initPanel: only the preInit hook without a panel.  Otherwise the panel
     * is initialised, the clip window reset to the whole screen, and the
     * init tables, invert, colour depth, rotation and brightness are sent
     * inside one write bracket.
     */
    method InitPanel(useReset: bool)
      requires Valid()
      modifies this`trace, this`sx, this`sy, this`sw, this`sh, this`colorDepth, this`panel
      ensures Valid()
      ensures trace == old(trace) + InitPanelEvents(old(panel), useReset, old(colorDepth))
      ensures old(panel).None? ==>
                sx == old(sx) && sy == old(sy) && sw == old(sw) && sh == old(sh)
                && colorDepth == old(colorDepth) && panel == old(panel)
      ensures old(panel).Some? ==>
                var p := old(panel).value;
                && sx == 0 && sy == 0 && sw == width && sh == height
                && colorDepth == p.depthAfter(old(colorDepth))
                && panel == Some(Rotated(p, Int8Of(p.rotation)))
    {
      trace := trace + [PreInit];
      if panel.None? {
        assert InitPanelEvents(old(panel), useReset, old(colorDepth)) == [PreInit];
        return;
      }
      ghost var p := panel.value;
      InitWithPanel(useReset);
      ghost var body := InitPanelBody(p, old(colorDepth));
      InitPanelTraceShape(old(trace), body, useReset);
      assert InitPanelEvents(old(panel), useReset, old(colorDepth))
             == [PreInit, PanelInit(useReset)] + ([StartWrite] + body + [EndWrite]) + [PanelPostInit];
    }

    /** initPanel once a panel is attached, after its preInit hook. */
    method InitWithPanel(useReset: bool)
      requires Valid() && panel.Some?
      modifies this`trace, this`sx, this`sy, this`sw, this`sh, this`colorDepth, this`panel
      ensures Valid()
      ensures var p := old(panel).value;
              && trace == old(trace) + [PanelInit(useReset)] + [StartWrite] + InitPanelBody(p, old(colorDepth))
                          + [EndWrite, PanelPostInit]
              && sx == 0 && sy == 0 && sw == width && sh == height
              && colorDepth == p.depthAfter(old(colorDepth))
              && panel == Some(Rotated(p, Int8Of(p.rotation)))
    {
      var p := panel.value;
      trace := trace + [PanelInit(useReset)];
      sx, sy := 0, 0;
      sw := width;
      sh := height;
      trace := trace + [StartWrite];
      InitPanelBodyRun(p);
      trace := trace + [EndWrite, PanelPostInit];
    }

    /** What initPanel does between its startWrite and its endWrite. */
    method InitPanelBodyRun(p: PanelDesc)
      requires Valid() && panel == Some(p)
      modifies this`trace, this`colorDepth, this`panel
      ensures Valid()
      ensures trace == old(trace) + InitPanelBody(p, old(colorDepth))
      ensures colorDepth == p.depthAfter(old(colorDepth))
      ensures panel == Some(Rotated(p, Int8Of(p.rotation)))
    {
      ghost var t0 := trace;
      RunInitTables(p.initCommands);
      ghost var tables := InitTablesEvents(p.initCommands, |p.initCommands|);
      trace := trace + [CsLow];
      AppendAssoc(t0, tables, [CsLow]);
      ApplySettings(p);
      AppendAssoc(t0, tables + [CsLow], SettingsEvents(p, old(colorDepth)));
    }

    /** The four calls that push the panel's settings after the init tables: invert, depth, rotation, brightness. */
    method ApplySettings(p: PanelDesc)
      requires Valid() && panel == Some(p)
      modifies this`trace, this`colorDepth, this`panel
      ensures Valid()
      ensures trace == old(trace) + SettingsEvents(p, old(colorDepth))
      ensures colorDepth == p.depthAfter(old(colorDepth))
      ensures panel == Some(Rotated(p, Int8Of(p.rotation)))
    {
      ghost var t0 := trace;
      ghost var inv := InvertDisplayEvents(p, p.invert);
      ghost var dep := SetColorDepthEvents(p, old(colorDepth));
      ghost var rot := SetRotationEvents(p, Int8Of(p.rotation));
      InvertDisplay(p.invert);
      SetColorDepth(colorDepth);
      AppendAssoc(t0, inv, dep);
      SetRotation(Int8Of(p.rotation));
      AppendAssoc(t0, inv + dep, rot);
      SetBrightness(panel.value.brightness);
      AppendAssoc(t0, inv + dep + rot, [Event.SetBrightness(p.brightness)]);
    }

    /** The init-table loop of initPanel: table i while getInitCommands(i) is not null. */
    method RunInitTables(ts: seq<seq<uint8>>)
      requires AllTerminated(ts)
      modifies this`trace
      ensures trace == old(trace) + InitTablesEvents(ts, |ts|)
    {
      var i: nat := 0;
      while i < |ts|
        invariant i <= |ts|
        invariant trace == old(trace) + InitTablesEvents(ts, i)
      {
        var cmds := ts[i];
        ghost var before := trace;
        trace := trace + [Delay(120), CsLow];
        var _ := CommandList(Some(cmds));
        trace := trace + [CsHigh];
        AppendAssoc(before + [Delay(120), CsLow], CommandListEvents(Some(cmds)), [CsHigh]);
        AppendAssoc(before, [Delay(120), CsLow], CommandListEvents(Some(cmds)) + [CsHigh]);
        AppendAssoc([Delay(120), CsLow], CommandListEvents(Some(cmds)), [CsHigh]);
        AppendAssoc(old(trace), InitTablesEvents(ts, i), InitTableEvents(cmds));
        i := i + 1;
      }
    }

    //-----------------------------------------------------------------------
    // Register reads: `reply` is what the panel's readCommand answers

    method ReadCommand8(cmd: uint8, index: uint8, reply: uint32) returns (r: uint8)
      modifies this`trace
      ensures trace == old(trace) + [ReadCommand(cmd, index, 1)]
      ensures r == RC.Read8(reply)
    {
      trace := trace + [ReadCommand(cmd, index, 1)];
      r := reply % 0x100;
    }

    method ReadCommand16(cmd: uint8, index: uint8, reply: uint32) returns (r: uint16)
      modifies this`trace
      ensures trace == old(trace) + [ReadCommand(cmd, index, 2)]
      ensures r == RC.Read16(reply)
    {
      trace := trace + [ReadCommand(cmd, index, 2)];
      r := RC.Read16(reply);
    }

    method ReadCommand32(cmd: uint8, index: uint8, reply: uint32) returns (r: uint32)
      modifies this`trace
      ensures trace == old(trace) + [ReadCommand(cmd, index, 4)]
      ensures r == RC.Bswap32(reply)
    {
      trace := trace + [ReadCommand(cmd, index, 4)];
      r := RC.Bswap32(reply);
    }

    //-----------------------------------------------------------------------
    // Touch

    /**
     * getTouchRaw: 0 and nothing else without a controller.  Otherwise the
     * controller is asked, inside a break in the bus transaction exactly
     * when it shares the bus and a transaction is open; `reading` is its
     * answer, written through the pointers it is given when it reports a
     * touch.
     */
    method GetTouchRaw(x: IntRef?, y: IntRef?, number: uint8, reading: Touch.RawTouch) returns (res: uint8)
      modifies this`trace, x, y
      ensures touch.None? ==> res == 0 && trace == old(trace)
      ensures touch.Some? ==>
                res == reading.count && trace == old(trace) + TouchRawEvents(touch.value.busShared, inTransaction, number)
      ensures res != 0 && x != null && x != y ==> x.value == reading.x
      ensures res != 0 && y != null ==> y.value == reading.y
      ensures res == 0 ==> (x != null ==> x.value == old(x.value)) && (y != null ==> y.value == old(y.value))
    {
      if touch.None? {
        return 0;
      }
      var needTransaction := touch.value.busShared && inTransaction;
      if needTransaction {
        trace := trace + [EndTransaction];
      }
      trace := trace + [TouchRead(number)];
      res := reading.count;
      if res != 0 {
        if x != null {
          x.value := reading.x;
        }
        if y != null {
          y.value := reading.y;
        }
      }
      if needTransaction {
        trace := trace + [BeginTransaction];
      }
    }

    /**
     * convertRawXY: the affine step, then the rotation remap.  Both
     * pointers are read before either is tested for null, so both must be
     * valid.
     */
    method ConvertRawXY(x: IntRef, y: IntRef)
      requires panel.Some?
      modifies x, y
      ensures var (rx, ry) := Touch.Remap(panel.value.rotation, width, height,
                                          affine(old(x.value), old(y.value)).0,
                                          affine(old(x.value), old(y.value)).1);
              && (x != y ==> x.value == rx)
              && y.value == ry
    {
      var (tx, ty) := affine(x.value, y.value);
      var r := panel.value.rotation % 8;
      if r % 2 == 1 {
        tx, ty := ty, tx;
      }
      if (r / 2) % 2 == 1 {
        tx := (width - 1) - tx;
      }
      x.value := tx;
      if ((r + 1) / 2 % 2 == 0) != (r / 4 % 2 == 0) {
        ty := (height - 1) - ty;
      }
      y.value := ty;
    }

    /** convertRawXY on 16-bit coordinates: the results are truncated to 16 bits. */
    method ConvertRawXY16(x: Uint16Ref, y: Uint16Ref)
      requires panel.Some?
      modifies x, y
      ensures var (rx, ry) := Touch.Remap(panel.value.rotation, width, height,
                                          affine(old(x.value), old(y.value)).0,
                                          affine(old(x.value), old(y.value)).1);
              && (x != y ==> x.value == rx % 0x1_0000)
              && y.value == ry % 0x1_0000
    {
      var tx := new IntRef(x.value);
      var ty := new IntRef(y.value);
      ConvertRawXY(tx, ty);
      x.value := tx.value % 0x1_0000;
      y.value := ty.value % 0x1_0000;
    }

    /**
     * getTouch on int32 pointers: the raw count; when it is not 0, the
     * converted point is written through the non-null pointers, and when
     * it is 0 they are left alone.
     */
    method GetTouch(x: IntRef?, y: IntRef?, number: uint8, reading: Touch.RawTouch) returns (res: uint8)
      requires touch.Some? && reading.count != 0 ==> panel.Some?
      modifies this`trace, x, y
      ensures res == (if touch.None? then 0 else reading.count)
      ensures trace == old(trace) + (if touch.None? then [] else TouchRawEvents(touch.value.busShared, inTransaction, number))
      ensures res != 0 ==>
                var (rx, ry) := Touch.Remap(panel.value.rotation, width, height,
                                            affine(reading.x, reading.y).0, affine(reading.x, reading.y).1);
                && (x != null && x != y ==> x.value == rx)
                && (y != null ==> y.value == ry)
      ensures res == 0 ==> (x != null ==> x.value == old(x.value)) && (y != null ==> y.value == old(y.value))
    {
      var tx := new IntRef(-1);
      var ty := new IntRef(-1);
      res := GetTouchRaw(tx, ty, number, reading);
      if res == 0 {
        return 0;
      }
      ConvertRawXY(tx, ty);
      if x != null {
        x.value := tx.value;
      }
      if y != null {
        y.value := ty.value;
      }
    }

    /**
     * The template getTouch: as getTouch on int32 pointers, except that
     * the non-null outputs receive -1 when there is no touch.
     */
    method GetTouchOrMinusOne(x: IntRef?, y: IntRef?, number: uint8, reading: Touch.RawTouch) returns (res: uint8)
      requires touch.Some? && reading.count != 0 ==> panel.Some?
      modifies this`trace, x, y
      ensures res == (if touch.None? then 0 else reading.count)
      ensures trace == old(trace) + (if touch.None? then [] else TouchRawEvents(touch.value.busShared, inTransaction, number))
      ensures res != 0 ==>
                var (rx, ry) := Touch.Remap(panel.value.rotation, width, height,
                                            affine(reading.x, reading.y).0, affine(reading.x, reading.y).1);
                && (x != null && x != y ==> x.value == rx)
                && (y != null ==> y.value == ry)
      ensures res == 0 ==> (x != null ==> x.value == -1) && (y != null ==> y.value == -1)
    {
      var tx := new IntRef(-1);
      var ty := new IntRef(-1);
      res := GetTouch(tx, ty, number, reading);
      if x != null {
        x.value := tx.value;
      }
      if y != null {
        y.value := ty.value;
      }
    }

    /**
     * set_touch_calibrate: the eight values are fitted against the corners
     * of the screen as the current rotation sees it.
     */
    method SetTouchCalibrateImpl(parameters: seq<uint16>)
      requires panel.Some? && |parameters| == 8
      modifies this`trace, this`affine
      ensures affine == fitTouch(parameters, Touch.CalibrationTargets(panel.value.rotation, width, height))
      ensures trace == old(trace) + [SetTouchCalibrate(parameters)]
    {
      affine := fitTouch(parameters, Touch.CalibrationTargets(panel.value.rotation, width, height));
      trace := trace + [SetTouchCalibrate(parameters)];
    }

    /** postSetTouch: calibrate from the controller's raw range, corner by corner. */
    method PostSetTouch()
      requires panel.Some? && touch.Some?
      modifies this`trace, this`affine
      ensures var t := touch.value;
              var values := Touch.PostSetTouchParameters(t.xMin, t.xMax, t.yMin, t.yMax);
              && affine == fitTouch(values, Touch.CalibrationTargets(panel.value.rotation, width, height))
              && trace == old(trace) + [SetTouchCalibrate(values)]
    {
      var t := touch.value;
      SetTouchCalibrateImpl(Touch.PostSetTouchParameters(t.xMin, t.xMax, t.yMin, t.yMax));
    }

    /**
     * calibrate_touch over the controller's successive answers `readings`:
     * at rotation 0, each corner is drawn, sampled (eight agreeing pairs,
     * averaged) and erased, and the next corner waits for the touch to be
     * released; the eight values go to `parameters` when it is not null and
     * to the fit, and the rotation is put back.
     */
    method CalibrateTouch(parameters: array?<uint16>, fg: int, bg: int, size: uint8, readings: seq<Touch.RawTouch>)
      requires Valid() && (touch.Some? ==> panel.Some?)
      requires parameters != null ==> parameters.Length >= 8
      requires touch.Some? ==> Touch.CalibrateFrom(readings, 0, 0).Some?
      modifies this`trace, this`panel, this`affine, parameters
      ensures Valid()
      ensures touch.None? ==>
                trace == old(trace) && panel == old(panel) && affine == old(affine)
                && (parameters != null ==> parameters[..] == old(parameters[..]))
      ensures touch.Some? ==>
                var p := old(panel).value;
                var values := Touch.CalibrateFrom(readings, 0, 0).value;
                && trace == old(trace) + CalibrateTouchEvents(p, width, height, size, fg, bg, values)
                && affine == fitTouch(values, Touch.CalibrationTargets(p.rotationAfter(0), width, height))
                && panel == Some(Rotated(Rotated(p, 0), Int8Of(p.rotation)))
                && (parameters != null ==> parameters[..8] == values && parameters[8..] == old(parameters[8..]))
    {
      if touch.None? {
        return;
      }
      CalibrateWithTouch(parameters, fg, bg, size, readings);
    }

    /** calibrate_touch once a touch controller is attached. */
    method CalibrateWithTouch(parameters: array?<uint16>, fg: int, bg: int, size: uint8, readings: seq<Touch.RawTouch>)
      requires Valid() && panel.Some?
      requires parameters != null ==> parameters.Length >= 8
      requires Touch.CalibrateFrom(readings, 0, 0).Some?
      modifies this`trace, this`panel, this`affine, parameters
      ensures Valid()
      ensures var p := old(panel).value;
              var values := Touch.CalibrateFrom(readings, 0, 0).value;
              && trace == old(trace) + CalibrateTouchEvents(p, width, height, size, fg, bg, values)
              && affine == fitTouch(values, Touch.CalibrationTargets(p.rotationAfter(0), width, height))
              && panel == Some(Rotated(Rotated(p, 0), Int8Of(p.rotation)))
              && (parameters != null ==> parameters[..8] == values && parameters[8..] == old(parameters[8..]))
    {
      var rot := panel.value.rotation;
      ghost var p := panel.value;
      ghost var values := Touch.CalibrateFrom(readings, 0, 0).value;
      SetRotation(0);
      var orig := MeasureAndFit(parameters, fg, bg, size, readings);
      SetRotation(Int8Of(rot));
      AppendAssoc(old(trace), SetRotationEvents(p, 0), CornersEvents(4, width, height, size, fg, bg) + [SetTouchCalibrate(values)]);
      AppendAssoc(old(trace), SetRotationEvents(p, 0) + (CornersEvents(4, width, height, size, fg, bg) + [SetTouchCalibrate(values)]),
                  SetRotationEvents(Rotated(p, 0), Int8Of(p.rotation)));
    }

    /** The corners measured at rotation 0, copied out to `parameters` and fitted. */
    method MeasureAndFit(parameters: array?<uint16>, fg: int, bg: int, size: uint8, readings: seq<Touch.RawTouch>)
      returns (orig: seq<uint16>)
      requires panel.Some? && (parameters != null ==> parameters.Length >= 8)
      requires Touch.CalibrateFrom(readings, 0, 0).Some?
      modifies this`trace, this`affine, parameters
      ensures orig == Touch.CalibrateFrom(readings, 0, 0).value
      ensures trace == old(trace) + (CornersEvents(4, width, height, size, fg, bg) + [SetTouchCalibrate(orig)])
      ensures affine == fitTouch(orig, Touch.CalibrationTargets(panel.value.rotation, width, height))
      ensures parameters != null ==> parameters[..8] == orig && parameters[8..] == old(parameters[8..])
    {
      orig := CalibrateCorners(fg, bg, size, readings);
      if parameters != null {
        CopyParameters(parameters, orig);
      }
      SetTouchCalibrateImpl(orig);
      AppendAssoc(old(trace), CornersEvents(4, width, height, size, fg, bg), [SetTouchCalibrate(orig)]);
    }

    /** The loop of calibrate_touch over the four corners, collecting the eight raw values. */
    method CalibrateCorners(fg: int, bg: int, size: uint8, readings: seq<Touch.RawTouch>) returns (orig: seq<uint16>)
      requires Touch.CalibrateFrom(readings, 0, 0).Some?
      modifies this`trace
      ensures orig == Touch.CalibrateFrom(readings, 0, 0).value
      ensures trace == old(trace) + CornersEvents(4, width, height, size, fg, bg)
    {
      ghost var values := Touch.CalibrateFrom(readings, 0, 0).value;
      orig := [];
      var pos: nat := 0;
      var i: nat := 0;
      while i < 4
        invariant i <= 4 && pos <= |readings|
        invariant Touch.CalibrateFrom(readings, pos, i).Some?
        invariant values == orig + Touch.CalibrateFrom(readings, pos, i).value
        invariant trace == old(trace) + CornersEvents(i, width, height, size, fg, bg)
      {
        AppendAssoc(old(trace), CornersEvents(i, width, height, size, fg, bg), CornerEvents(i, width, height, size, fg, bg));
        var vx, vy;
        vx, vy, pos := CalibrateCorner(i, pos, fg, bg, size, readings);
        orig := orig + [vx, vy];
        i := i + 1;
      }
    }

    /** The copy of the eight measured values out to the caller's array. */
    static method CopyParameters(parameters: array<uint16>, orig: seq<uint16>)
      requires parameters.Length >= 8 && |orig| == 8
      modifies parameters
      ensures parameters[..8] == orig && parameters[8..] == old(parameters[8..])
    {
      forall k | 0 <= k < 8 {
        parameters[k] := orig[k];
      }
    }

    /** One corner of calibrate_touch: draw, sample, erase, wait for the release. */
    method CalibrateCorner(i: nat, pos: nat, fg: int, bg: int, size: uint8, readings: seq<Touch.RawTouch>)
      returns (vx: uint16, vy: uint16, next: nat)
      requires i < 4 && pos <= |readings| && Touch.CalibrateFrom(readings, pos, i).Some?
      modifies this`trace
      ensures next <= |readings| && Touch.CalibrateFrom(readings, next, i + 1).Some?
      ensures Touch.CalibrateFrom(readings, pos, i).value == [vx, vy] + Touch.CalibrateFrom(readings, next, i + 1).value
      ensures trace == old(trace) + CornerEvents(i, width, height, size, fg, bg)
    {
      var (px, py) := Touch.Corner(i, width, height);
      trace := trace + [DrawCalibratePoint(px, py, size, fg, bg), Delay(500)];
      var sums := Touch.SampleCorner(readings, pos, Touch.PAIRS);
      vx, vy := Touch.Average16(sums.value.x), Touch.Average16(sums.value.y);
      trace := trace + [DrawCalibratePoint(px, py, size, bg, bg)];
      next := WaitForRelease(readings, sums.value.next);
    }

    /** The wait for the release of the stylus, over the readings from `start` on. */
    static method WaitForRelease(readings: seq<Touch.RawTouch>, start: nat) returns (next: nat)
      requires start <= |readings| && Touch.WaitRelease(readings, start).Some?
      ensures Touch.WaitRelease(readings, start) == Some(next)
    {
      var j := start;
      while j < |readings| && readings[j].count != 0
        invariant start <= j <= |readings|
        invariant Touch.WaitRelease(readings, j) == Touch.WaitRelease(readings, start)
        decreases |readings| - j
      {
        j := j + 1;
      }
      next := j + 1;
    }

    //-----------------------------------------------------------------------
    // Pixel transfers

    /** Both rectangles of a copy lie inside the panel's memory. */
    ghost predicate CopyInside(dstX: int, dstY: int, w: int, h: int, srcX: int, srcY: int)
      reads this
    {
      && 0 <= dstX && dstX + w <= screen.Length0 && 0 <= dstY && dstY + h <= screen.Length1
      && 0 <= srcX && srcX + w <= screen.Length0 && 0 <= srcY && srcY + h <= screen.Length1
    }

    /** One step of copyRect_impl: strip `pos` is read whole into a buffer, then written. */
    method CopyStrip(dstX: int, dstY: int, w: int, h: int, srcX: int, srcY: int, pos: int)
      requires w >= 1 && h >= 1 && 0 <= pos < CR.StripCount(w, h)
      requires CopyInside(dstX, dstY, w, h, srcX, srcY)
      modifies this`trace, screen
      ensures trace == old(trace) + CR.StripEvents(dstX, dstY, w, h, srcX, srcY, pos)
      ensures forall a, b :: 0 <= a < screen.Length0 && 0 <= b < screen.Length1 ==>
                screen[a, b] == (if CR.InRect(a, b, dstX, dstY, w, h) && CR.StripOf(w, h, dstX, dstY, a, b) == pos
                                 then old(screen[a - dstX + srcX, b - dstY + srcY])
                                 else old(screen[a, b]))
    {
      var cols := CR.ByColumns(w, h);
      var len := if cols then h else w;
      var buf := if cols then seq(h, t requires 0 <= t < h reads screen => screen[srcX + pos, srcY + t])
                 else seq(w, t requires 0 <= t < w reads screen => screen[srcX + t, srcY + pos]);
      if cols {
        trace := trace + [ReadRect(srcX + pos, srcY, 1, h), SetWindow(dstX + pos, dstY, dstX + pos, dstY + h - 1)];
      } else {
        trace := trace + [ReadRect(srcX, srcY + pos, w, 1), SetWindow(dstX, dstY + pos, dstX + w - 1, dstY + pos)];
      }
      ghost var t1 := trace;
      var t := 0;
      while t < len
        invariant 0 <= t <= len && trace == t1
        invariant forall a, b :: 0 <= a < screen.Length0 && 0 <= b < screen.Length1 ==>
                    screen[a, b] == (if CR.InRect(a, b, dstX, dstY, w, h) && CR.StripOf(w, h, dstX, dstY, a, b) == pos
                                        && (if cols then b - dstY else a - dstX) < t
                                     then old(screen[a - dstX + srcX, b - dstY + srcY])
                                     else old(screen[a, b]))
      {
        if cols {
          screen[dstX + pos, dstY + t] := buf[t];
        } else {
          screen[dstX + t, dstY + pos] := buf[t];
        }
        t := t + 1;
      }
      trace := trace + [WritePixels(0, len)];
      assert trace == old(trace) + CR.StripEvents(dstX, dstY, w, h, srcX, srcY, pos);
    }

    /**
     * copyRect_impl: the destination rectangle ends up holding what the
     * source rectangle held before the copy, even where the two overlap,
     * and every other cell is unchanged.
     */
    method CopyRect(dstX: int, dstY: int, w: int, h: int, srcX: int, srcY: int)
      requires w >= 1 && h >= 1
      requires CopyInside(dstX, dstY, w, h, srcX, srcY)
      modifies this`trace, screen
      ensures trace == old(trace) + CR.CopyRectEvents(dstX, dstY, w, h, srcX, srcY)
      ensures forall a, b :: 0 <= a < screen.Length0 && 0 <= b < screen.Length1 ==>
                screen[a, b] == (if CR.InRect(a, b, dstX, dstY, w, h)
                                 then old(screen[a - dstX + srcX, b - dstY + srcY])
                                 else old(screen[a, b]))
    {
      var n := CR.StripCount(w, h);
      var desc := CR.Descending(w, h, dstX, dstY, srcX, srcY);
      var add := if desc then -1 else 1;
      var pos := if desc then n - 1 else 0;
      var k := 0;
      while k < n
        invariant 0 <= k <= n && pos == CR.StripAt(n, desc, k)
        invariant trace == old(trace) + CR.StepsEvents(dstX, dstY, w, h, srcX, srcY, k)
        invariant forall a, b :: 0 <= a < screen.Length0 && 0 <= b < screen.Length1 ==>
                    screen[a, b] == (if CR.InRect(a, b, dstX, dstY, w, h)
                                        && CR.StripDone(n, desc, k, CR.StripOf(w, h, dstX, dstY, a, b))
                                     then old(screen[a - dstX + srcX, b - dstY + srcY])
                                     else old(screen[a, b]))
      {
        if CR.ByColumns(w, h) {
          CR.SourceStripPending(n, k, srcX, dstX);
        } else {
          CR.SourceStripPending(n, k, srcY, dstY);
        }
        forall q | true
          ensures CR.StripDone(n, desc, k + 1, q) <==> CR.StripDone(n, desc, k, q) || q == pos
        {
          CR.StripDoneStep(n, desc, k, q);
        }
        AppendAssoc(old(trace), CR.StepsEvents(dstX, dstY, w, h, srcX, srcY, k),
                    CR.StripEvents(dstX, dstY, w, h, srcX, srcY, pos));
        CopyStrip(dstX, dstY, w, h, srcX, srcY, pos);
        pos := pos + add;
        k := k + 1;
      }
      forall q | true
        ensures CR.StripDone(n, desc, n, q) <==> 0 <= q < n
      {
        CR.StripDoneAll(n, desc, q);
      }
      trace := trace + [WaitDma];
    }

    /**
     * pushImageARGB_impl: `h` rows, each drawn at the next screen line from
     * the next source line with the same alpha row (the first `w` alphas of
     * the source).  `src_y` ends h - 1 lines further on, and `src_x` holds
     * the first pixel of the last row's last span, or its old value when
     * that row has no span.
     */
    method PushImageARGB(x: int, y: int, w: int, h: int, param: PixelCopyParam)
      requires w >= 1 && h >= 1 && |param.alpha| >= w
      modifies this`trace, param
      ensures var A := param.alpha[..w];
              && trace == old(trace) + ArgbScan.ImageEvents(A, x, y, old(param.srcY), pixelBytes, h)
              && param.srcY == old(param.srcY) + h - 1
              && param.srcX == (match ArgbScan.LastSpanLo(ArgbScan.RowPlan(A))
                                case Some(lo) => lo
                                case None => old(param.srcX))
    {
      var srcX := param.srcX;
      var A := param.alpha[..w];
      var line := y;
      var row: nat := 0;
      while true
        invariant 0 <= row < h && line == y + row
        invariant trace == old(trace) + ArgbScan.ImageEvents(A, x, y, old(param.srcY), pixelBytes, row)
        invariant param.srcY == old(param.srcY) + row && param.srcX == srcX
        decreases h - row
      {
        ArgbScan.ImageEventsStep(A, x, y, old(param.srcY), pixelBytes, row);
        AppendAssoc(old(trace), ArgbScan.ImageEvents(A, x, y, old(param.srcY), pixelBytes, row),
                    ArgbScan.RowEvents(A, x, line, param.srcY, pixelBytes));
        PushRow(A, x, line, param);
        if row + 1 == h {
          return;
        }
        param.srcX := srcX;
        param.srcY := param.srcY + 1;
        line := line + 1;
        row := row + 1;
      }
    }

    /** One row of pushImageARGB_impl: a DMA buffer, then the reads and spans of the row's plan. */
    method PushRow(A: seq<uint8>, x: int, line: int, param: PixelCopyParam)
      requires |A| >= 1
      modifies this`trace, param`srcX
      ensures trace == old(trace) + ArgbScan.RowEvents(A, x, line, param.srcY, pixelBytes)
      ensures param.srcX == (match ArgbScan.LastSpanLo(ArgbScan.RowPlan(A)) case Some(lo) => lo case None => old(param.srcX))
    {
      trace := trace + [GetDmaBuffer((|A| + 1) * pixelBytes)];
      ghost var t1 := trace;
      var ops := ArgbScan.ScanRow(A);
      var j: nat := 0;
      while j < |ops|
        invariant j <= |ops|
        invariant trace == t1 + ArgbScan.OpsEvents(ops[..j], x, line, param.srcY)
        invariant param.srcX == (match ArgbScan.LastSpanLo(ops[..j]) case Some(lo) => lo case None => old(param.srcX))
      {
        assert ops[..j + 1][..j] == ops[..j];
        AppendAssoc(t1, ArgbScan.OpsEvents(ops[..j], x, line, param.srcY), ArgbScan.OpEvents(ops[j], x, line, param.srcY));
        EmitOp(ops[j], x, line, param);
        j := j + 1;
      }
      assert ops[..j] == ops;
      AppendAssoc(old(trace), [GetDmaBuffer((|A| + 1) * pixelBytes)], ArgbScan.OpsEvents(ops, x, line, param.srcY));
    }

    /**
     * One operation of a row: a read-back of the pixels under a blended run,
     * or a span converted into the buffer and written, `src_x` set to its
     * first pixel.
     */
    method EmitOp(op: ArgbScan.RowOp, x: int, line: int, param: PixelCopyParam)
      modifies this`trace, param`srcX
      ensures trace == old(trace) + ArgbScan.OpEvents(op, x, line, param.srcY)
      ensures param.srcX == (if op.Span? then op.lo else old(param.srcX))
    {
      match op {
        case Read(start, count) =>
          trace := trace + [ReadRect(x + start, line, count, 1)];
        case Span(lo, hi) =>
          param.srcX := lo;
          trace := trace + [FpCopy(lo, hi, lo, param.srcY), SetWindow(x + lo, line, x + hi, line), WritePixels(lo, hi - lo)];
      }
    }
  }
}
