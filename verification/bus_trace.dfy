/**
 * Vocabulary shared by the whole model of LGFX_Device: machine integer
 * types, an Option type, and the events that make up the trace of bus,
 * panel and touch-controller activity the device emits.
 *
 * The hardware primitives of the device (writeCommand, writeData, delay,
 * gpio_lo/gpio_hi on the chip-select pin, startWrite/endWrite, setWindow,
 * readRect, writePixelsDMA, waitDMA, begin/endTransaction, the panel's and
 * the touch controller's own calls) are pure virtual or defined in other
 * files; the model records each call as one Event, and the behaviour of the
 * device becomes a property of the trace it appends.
 */
module BusTrace {

  /** One byte, e.g. of a command table (`const std::uint8_t*`). */
  type uint8 = x: int | 0 <= x < 0x100
  type uint16 = x: int | 0 <= x < 0x1_0000
  type uint32 = x: int | 0 <= x < 0x1_0000_0000

  datatype Option<+T> = None | Some(value: T)

  datatype Event =
    // bus primitives used by the command-table interpreter
    | Cmd(op: uint8)                 // writeCommand
    | Data(arg: uint8)               // writeData
    | Delay(ms: nat)                // delay
    | CsLow                         // cs_l: chip select asserted
    | CsHigh                        // cs_h: chip select released
    | StartWrite
    | EndWrite
    // virtual hooks of the device and calls into the panel descriptor
    | PreCommandList
    | PostCommandList
    | PreInit
    | PanelInit(useReset: bool)     // _panel->init(use_reset)
    | PanelPostInit                 // _panel->post_init(this)
    | PanelSleep                    // _panel->sleep()
    | PanelWakeup                   // _panel->wakeup()
    | PostSetColorDepth             // conversion tables follow the panel's depths
    | PostSetRotation
    | SetBrightness(level: uint8)   // _panel->setBrightness
    // pixel transfer primitives
    | SetWindow(x0: int, y0: int, x1: int, y1: int)
    | ReadRect(x: int, y: int, w: int, h: int)
    | WritePixels(offset: int, count: int)  // writePixelsDMA_impl(buf + offset pixels, count)
    | WaitDma
    | GetDmaBuffer(length: int)     // get_dmabuffer(length) (the pool is modelled by DmaBuffers)
    | FpCopy(dstLo: int, dstHi: int, srcX: int, srcY: int)  // param->fp_copy(buf, lo, hi, param)
    // touch controller and bus transactions
    | EndTransaction
    | BeginTransaction
    | TouchRead(number: uint8)      // _touch->getTouch(x, y, number)
    | ReadCommand(cmd: uint8, index: uint8, len: uint8)
    | DrawCalibratePoint(x: int, y: int, size: uint8, fg: int, bg: int)
    | SetTouchCalibrate(parameters: seq<uint16>)

  /** Net number of open StartWrite brackets in `ev`. */
  function WriteDepth(ev: seq<Event>): int
  {
    if ev == [] then 0
    else WriteDepth(ev[..|ev| - 1])
         + (match ev[|ev| - 1]
            case StartWrite => 1
            case EndWrite => -1
            case _ => 0)
  }

  /** No event of `ev` opens or closes a write bracket. */
  predicate NoBrackets(ev: seq<Event>)
  {
    forall k :: 0 <= k < |ev| ==> !ev[k].StartWrite? && !ev[k].EndWrite?
  }

  /**
   * `ev` closes every write bracket it opens and never closes one it did
   * not open: no prefix has more EndWrite than StartWrite events.
   */
  predicate Balanced(ev: seq<Event>)
  {
    && WriteDepth(ev) == 0
    && forall k :: 0 <= k <= |ev| ==> WriteDepth(ev[..k]) >= 0
  }

  lemma {:induction false} WriteDepthAppend(a: seq<Event>, b: seq<Event>)
    ensures WriteDepth(a + b) == WriteDepth(a) + WriteDepth(b)
    decreases |b|
  {
    if b == [] {
      assert a + b == a;
    } else {
      var b' := b[..|b| - 1];
      assert (a + b)[..|a + b| - 1] == a + b';
      assert (a + b)[|a + b| - 1] == b[|b| - 1];
      WriteDepthAppend(a, b');
    }
  }

  lemma BalancedAppend(a: seq<Event>, b: seq<Event>)
    requires Balanced(a) && Balanced(b)
    ensures Balanced(a + b)
  {
    WriteDepthAppend(a, b);
    forall k | 0 <= k <= |a + b|
      ensures WriteDepth((a + b)[..k]) >= 0
    {
      if k <= |a| {
        assert (a + b)[..k] == a[..k];
      } else {
        assert (a + b)[..k] == a + b[..k - |a|];
        WriteDepthAppend(a, b[..k - |a|]);
      }
    }
  }

  lemma {:induction false} NoBracketsFlat(ev: seq<Event>)
    requires NoBrackets(ev)
    ensures WriteDepth(ev) == 0
    decreases |ev|
  {
    if ev != [] {
      var e' := ev[..|ev| - 1];
      assert NoBrackets(e');
      NoBracketsFlat(e');
    }
  }

  lemma NoBracketsBalanced(ev: seq<Event>)
    requires NoBrackets(ev)
    ensures Balanced(ev)
  {
    NoBracketsFlat(ev);
    forall k | 0 <= k <= |ev|
      ensures WriteDepth(ev[..k]) >= 0
    {
      assert NoBrackets(ev[..k]);
      NoBracketsFlat(ev[..k]);
    }
  }

  /** Appending to a trace in two steps is appending the two parts at once. */
  lemma AppendAssoc(a: seq<Event>, b: seq<Event>, c: seq<Event>)
    ensures a + b + c == a + (b + c)
  {
  }
}
