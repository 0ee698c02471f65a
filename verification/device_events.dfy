/**
 * The bus traffic of LGFX_Device's panel lifecycle: commandList, the
 * wrappers that fetch a command table from the panel descriptor and run it
 * (sleep, wakeup, partialOn, partialOff, setColorDepth, setRotation,
 * invertDisplay), and initPanel.
 *
 * The panel descriptor (PanelCommon and its subclasses) is an input: the
 * tables it hands out and the settings it holds are fields of PanelDesc.
 */
module DeviceEvents {
  import opened BusTrace
  import opened CommandTable

  /** What the panel descriptor answers. */
  datatype PanelDesc = PanelDesc(
    rotation: uint8,
    invert: bool,
    brightness: uint8,
    // getInitCommands(i) for i < |initCommands|, nullptr from there on
    initCommands: seq<seq<uint8>>,
    // getSleepInCommands, getSleepOutCommands, getPartialOnCommands, getPartialOffCommands
    sleepIn: Option<seq<uint8>>,
    sleepOut: Option<seq<uint8>>,
    partialOn: Option<seq<uint8>>,
    partialOff: Option<seq<uint8>>,
    // getColorDepthCommands, getRotationCommands, getInvertDisplayCommands
    depthCommands: uint8 -> Option<seq<uint8>>,
    rotationCommands: int -> Option<seq<uint8>>,
    invertCommands: bool -> Option<seq<uint8>>,
    // the write depth the panel settles on once asked for a colour depth
    depthAfter: uint8 -> uint8,
    // the rotation the panel records once asked for a rotation
    rotationAfter: int -> uint8)

  /** The panel once getRotationCommands(r) has run. */
  function Rotated(p: PanelDesc, r: int): PanelDesc
  {
    p.(rotation := p.rotationAfter(r))
  }

  /** A byte read back as `std::int_fast8_t`, as getRotation returns the panel's rotation. */
  function Int8Of(v: uint8): (r: int)
    ensures -128 <= r < 128 && (r - v) % 256 == 0
  {
    if v < 128 then v else v - 256
  }

  /** A table pointer the interpreter may be given: null, or a table that reaches its end marker. */
  predicate TableOk(t: Option<seq<uint8>>)
  {
    t.Some? ==> Terminated(t.value)
  }

  /**
   * Every table the descriptor hands out is terminated, and the list of
   * init tables ends before the uint8 index of initPanel would wrap.
   */
  ghost predicate PanelValid(p: PanelDesc)
  {
    && |p.initCommands| < 256
    && AllTerminated(p.initCommands)
    && TableOk(p.sleepIn) && TableOk(p.sleepOut) && TableOk(p.partialOn) && TableOk(p.partialOff)
    && (forall d :: TableOk(p.depthCommands(d)))
    && (forall r :: TableOk(p.rotationCommands(r)))
    && (forall b :: TableOk(p.invertCommands(b)))
  }

  /**
   * commandList: nothing at all for a null table or one that starts with the
   * end marker; otherwise the table's commands inside a write bracket and
   * the two hooks.
   */
  function CommandListEvents(t: Option<seq<uint8>>): (ev: seq<Event>)
    requires TableOk(t)
    ensures ev == [] <==> t.None? || AtEndMark(t.value, 0)
    ensures ev != [] ==> ev[0] == StartWrite && ev[|ev| - 1] == EndWrite
  {
    if t.None? || AtEndMark(t.value, 0) then []
    else [StartWrite, PreCommandList] + TableEvents(t.value) + [PostCommandList, EndWrite]
  }

  /** A write bracket around bracket-free events is balanced. */
  lemma BracketBalanced(x: seq<Event>)
    requires NoBrackets(x)
    ensures Balanced([StartWrite] + x + [EndWrite])
  {
    var ev := [StartWrite] + x + [EndWrite];
    NoBracketsFlat(x);
    WriteDepthAppend([StartWrite], x);
    WriteDepthAppend([StartWrite] + x, [EndWrite]);
    assert WriteDepth([StartWrite]) == 1 by {
      assert [StartWrite][..0] == [];
    }
    assert WriteDepth([EndWrite]) == -1 by {
      assert [EndWrite][..0] == [];
    }
    forall k | 0 <= k <= |ev|
      ensures WriteDepth(ev[..k]) >= 0
    {
      if 1 <= k <= |x| + 1 {
        assert ev[..k] == [StartWrite] + x[..k - 1];
        assert NoBrackets(x[..k - 1]);
        NoBracketsFlat(x[..k - 1]);
        WriteDepthAppend([StartWrite], x[..k - 1]);
      } else if k == |ev| {
        assert ev[..k] == ev;
      }
    }
  }

  /** commandList closes the write bracket it opens. */
  lemma CommandListBalanced(t: Option<seq<uint8>>)
    requires TableOk(t)
    ensures Balanced(CommandListEvents(t))
  {
    if t.None? || AtEndMark(t.value, 0) {
      NoBracketsBalanced([]);
    } else {
      var inner := [PreCommandList] + TableEvents(t.value) + [PostCommandList];
      EntriesNoBrackets(ParseFrom(t.value, 0).value);
      assert NoBrackets(inner);
      BracketBalanced(inner);
      assert CommandListEvents(t) == [StartWrite] + inner + [EndWrite];
    }
  }

  /** Every table of the list reaches its end marker. */
  ghost predicate AllTerminated(ts: seq<seq<uint8>>)
  {
    forall i :: 0 <= i < |ts| ==> Terminated(ts[i])
  }

  /** One init table: `delay(120)`, `cs_l()`, the table, `cs_h()`. */
  function InitTableEvents(t: seq<uint8>): seq<Event>
    requires Terminated(t)
  {
    [Delay(120), CsLow] + CommandListEvents(Some(t)) + [CsHigh]
  }

  /** The first `n` init tables, in the order of their index. */
  function InitTablesEvents(ts: seq<seq<uint8>>, n: nat): seq<Event>
    requires n <= |ts| && AllTerminated(ts)
  {
    if n == 0 then []
    else InitTablesEvents(ts, n - 1) + InitTableEvents(ts[n - 1])
  }

  lemma {:induction false} InitTablesBalanced(ts: seq<seq<uint8>>, n: nat)
    requires n <= |ts| && AllTerminated(ts)
    ensures Balanced(InitTablesEvents(ts, n))
  {
    if n == 0 {
      NoBracketsBalanced([]);
    } else {
      var t := ts[n - 1];
      InitTablesBalanced(ts, n - 1);
      InitTableBalanced(t);
      BalancedAppend(InitTablesEvents(ts, n - 1), InitTableEvents(t));
    }
  }

  lemma InitTableBalanced(t: seq<uint8>)
    requires Terminated(t)
    ensures Balanced(InitTableEvents(t))
  {
    CommandListBalanced(Some(t));
    NoBracketsBalanced([Delay(120), CsLow]);
    NoBracketsBalanced([CsHigh]);
    BalancedAppend([Delay(120), CsLow], CommandListEvents(Some(t)));
    BalancedAppend([Delay(120), CsLow] + CommandListEvents(Some(t)), [CsHigh]);
  }

  function SleepEvents(p: PanelDesc): seq<Event>
    requires PanelValid(p)
  {
    CommandListEvents(p.sleepIn) + [PanelSleep]
  }

  function WakeupEvents(p: PanelDesc): seq<Event>
    requires PanelValid(p)
  {
    CommandListEvents(p.sleepOut) + [PanelWakeup]
  }

  function SetColorDepthEvents(p: PanelDesc, depth: uint8): seq<Event>
    requires PanelValid(p)
  {
    CommandListEvents(p.depthCommands(depth)) + [PostSetColorDepth]
  }

  function SetRotationEvents(p: PanelDesc, r: int): seq<Event>
    requires PanelValid(p)
  {
    CommandListEvents(p.rotationCommands(r)) + [PostSetRotation]
  }

  function InvertDisplayEvents(p: PanelDesc, invert: bool): seq<Event>
    requires PanelValid(p)
  {
    CommandListEvents(p.invertCommands(invert))
  }

  /**
   * What initPanel issues between its startWrite and its endWrite: the init
   * tables, `cs_l()`, then invert, colour depth, rotation and brightness as
   * the panel and the device hold them.
   */
  function InitPanelBody(p: PanelDesc, depth: uint8): seq<Event>
    requires PanelValid(p)
  {
    InitTablesEvents(p.initCommands, |p.initCommands|) + [CsLow] + SettingsEvents(p, depth)
  }

  /** invertDisplay, setColorDepth, setRotation and setBrightness with the values the panel and the device hold. */
  function SettingsEvents(p: PanelDesc, depth: uint8): seq<Event>
    requires PanelValid(p)
  {
    InvertDisplayEvents(p, p.invert)
    + SetColorDepthEvents(p, depth)
    + SetRotationEvents(p, Int8Of(p.rotation))
    + [SetBrightness(p.brightness)]
  }

  /** initPanel: only the preInit hook without a panel. */
  function InitPanelEvents(panel: Option<PanelDesc>, useReset: bool, depth: uint8): seq<Event>
    requires panel.Some? ==> PanelValid(panel.value)
  {
    match panel
    case None => [PreInit]
    case Some(p) => [PreInit, PanelInit(useReset)] + ([StartWrite] + InitPanelBody(p, depth) + [EndWrite]) + [PanelPostInit]
  }

  /** initPanel appends its events one call at a time; together they are InitPanelEvents. */
  lemma InitPanelTraceShape(t: seq<Event>, body: seq<Event>, useReset: bool)
    ensures t + [PreInit] + [PanelInit(useReset)] + [StartWrite] + body + [EndWrite, PanelPostInit]
            == t + ([PreInit, PanelInit(useReset)] + ([StartWrite] + body + [EndWrite]) + [PanelPostInit])
  {
  }

  lemma InitPanelBodyBalanced(p: PanelDesc, depth: uint8)
    requires PanelValid(p)
    ensures Balanced(InitPanelBody(p, depth))
  {
    InitTablesBalanced(p.initCommands, |p.initCommands|);
    NoBracketsBalanced([CsLow]);
    CommandListBalanced(p.invertCommands(p.invert));
    CommandListBalanced(p.depthCommands(depth));
    NoBracketsBalanced([PostSetColorDepth]);
    CommandListBalanced(p.rotationCommands(Int8Of(p.rotation)));
    NoBracketsBalanced([PostSetRotation]);
    NoBracketsBalanced([SetBrightness(p.brightness)]);
    var a := InitTablesEvents(p.initCommands, |p.initCommands|) + [CsLow];
    BalancedAppend(InitTablesEvents(p.initCommands, |p.initCommands|), [CsLow]);
    var b := InvertDisplayEvents(p, p.invert);
    BalancedAppend(CommandListEvents(p.depthCommands(depth)), [PostSetColorDepth]);
    var c := b + SetColorDepthEvents(p, depth);
    BalancedAppend(b, SetColorDepthEvents(p, depth));
    BalancedAppend(CommandListEvents(p.rotationCommands(Int8Of(p.rotation))), [PostSetRotation]);
    var d := c + SetRotationEvents(p, Int8Of(p.rotation));
    BalancedAppend(c, SetRotationEvents(p, Int8Of(p.rotation)));
    BalancedAppend(d, [SetBrightness(p.brightness)]);
    BalancedAppend(a, SettingsEvents(p, depth));
  }

  /**
   * `ev` is `pre`, one write bracket, then `post`: the bracket opens right
   * after `pre`, closes right before `post`, is open at every point in
   * between, and the whole run is balanced.
   */
  ghost predicate OneBracket(ev: seq<Event>, pre: seq<Event>, post: seq<Event>)
  {
    && |pre| + |post| + 2 <= |ev|
    && ev[..|pre| + 1] == pre + [StartWrite]
    && ev[|ev| - |post| - 1..] == [EndWrite] + post
    && (forall k :: |pre| + 1 <= k <= |ev| - |post| - 1 ==> WriteDepth(ev[..k]) >= 1)
    && Balanced(ev)
  }

  /**
   * With a panel, everything initPanel sends after `_panel->init` happens
   * inside its one startWrite/endWrite pair: every nested bracket of
   * commandList is closed again, the bracket is open at every point in
   * between, and post_init comes after it is closed.
   */
  lemma InitPanelBracketed(p: PanelDesc, useReset: bool, depth: uint8)
    requires PanelValid(p)
    ensures OneBracket(InitPanelEvents(Some(p), useReset, depth), [PreInit, PanelInit(useReset)], [PanelPostInit])
  {
    var body := InitPanelBody(p, depth);
    InitPanelBodyBalanced(p, depth);
    BracketedRun([PreInit, PanelInit(useReset)], body, [PanelPostInit]);
  }

  /**
   * Bracket-free events, a balanced body inside one write bracket, and
   * bracket-free events again: the bracket is open all through the body and
   * the whole run is balanced.
   */
  lemma BracketedRun(pre: seq<Event>, body: seq<Event>, post: seq<Event>)
    requires NoBrackets(pre) && NoBrackets(post) && Balanced(body)
    ensures OneBracket(pre + ([StartWrite] + body + [EndWrite]) + post, pre, post)
  {
    OpenThroughout(pre, body, post);
    WrappedBalanced(pre, body, post);
    var ev := pre + ([StartWrite] + body + [EndWrite]) + post;
    assert ev[..|pre| + 1] == pre + [StartWrite];
    assert ev[|ev| - |post| - 1..] == [EndWrite] + post;
  }

  /** Inside `pre`, a bracket around a balanced body, `post`: the bracket is open all through the body. */
  lemma OpenThroughout(pre: seq<Event>, body: seq<Event>, post: seq<Event>)
    requires NoBrackets(pre) && Balanced(body)
    ensures var ev := pre + ([StartWrite] + body + [EndWrite]) + post;
            forall k :: |pre| + 1 <= k <= |pre| + 1 + |body| ==> WriteDepth(ev[..k]) >= 1
  {
    var ev := pre + ([StartWrite] + body + [EndWrite]) + post;
    var head := pre + [StartWrite];
    NoBracketsFlat(pre);
    WriteDepthAppend(pre, [StartWrite]);
    assert WriteDepth([StartWrite]) == 1 by {
      assert [StartWrite][..0] == [];
    }
    forall k | |pre| + 1 <= k <= |pre| + 1 + |body|
      ensures WriteDepth(ev[..k]) >= 1
    {
      assert ev[..k] == head + body[..k - |head|];
      WriteDepthAppend(head, body[..k - |head|]);
    }
  }

  /** Events without brackets, then a balanced body inside one bracket, then events without brackets. */
  lemma WrappedBalanced(pre: seq<Event>, body: seq<Event>, post: seq<Event>)
    requires NoBrackets(pre) && NoBrackets(post) && Balanced(body)
    ensures Balanced(pre + ([StartWrite] + body + [EndWrite]) + post)
  {
    NoBracketsBalanced(pre);
    NoBracketsBalanced(post);
    WrapBalanced(body);
    BalancedAppend(pre, [StartWrite] + body + [EndWrite]);
    BalancedAppend(pre + ([StartWrite] + body + [EndWrite]), post);
  }

  /** Wrapping a balanced sequence in one more bracket keeps it balanced. */
  lemma WrapBalanced(body: seq<Event>)
    requires Balanced(body)
    ensures Balanced([StartWrite] + body + [EndWrite])
  {
    var ev := [StartWrite] + body + [EndWrite];
    assert WriteDepth([StartWrite]) == 1 by {
      assert [StartWrite][..0] == [];
    }
    assert WriteDepth([EndWrite]) == -1 by {
      assert [EndWrite][..0] == [];
    }
    WriteDepthAppend([StartWrite], body);
    WriteDepthAppend([StartWrite] + body, [EndWrite]);
    forall k | 0 <= k <= |ev|
      ensures WriteDepth(ev[..k]) >= 0
    {
      if 1 <= k <= |body| + 1 {
        assert ev[..k] == [StartWrite] + body[..k - 1];
        WriteDepthAppend([StartWrite], body[..k - 1]);
      } else if k == |ev| {
        assert ev[..k] == ev;
      }
    }
  }
}
