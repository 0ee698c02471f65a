/**
 * The uint8-encoded command tables that panel descriptors hand to the device
 * for initialisation, sleep, wake, partial mode, colour depth, rotation and
 * inversion (LGFX_Device::commandList / command_list).
 *
 * A table is a run of entries followed by the two-uint8 end marker 0xFF 0xFF.
 * An entry is: the opcode byte, a count byte whose low seven bits give the
 * number of argument bytes and whose high bit (CMD_INIT_DELAY) says that one
 * delay byte follows the arguments, then the argument bytes, then the
 * optional delay byte.  The end marker is only looked for where an entry
 * starts.  Both marker bytes are 0xFF, so reading them as one 16-bit word is
 * independent of uint8 order.
 */
module CommandTable {
  import opened BusTrace

  /** High bit of the count byte: a delay byte follows the arguments. */
  const CMD_INIT_DELAY: uint8 := 0x80
  /** Each of the two bytes of the end marker. */
  const END_MARK: uint8 := 0xFF
  /** A delay byte of 255 does not mean 255 ms but this many. */
  const LONG_DELAY_MS: nat := 500

  /**
   * Number of argument bytes announced by a count byte: `numArgs &
   * ~CMD_INIT_DELAY`, which for a byte and the single-bit mask 0x80 is the
   * remainder modulo 0x80.
   */
  function ArgCount(count: uint8): nat
  {
    count % CMD_INIT_DELAY
  }

  /**
   * Whether a count byte announces a trailing delay byte: `numArgs &
   * CMD_INIT_DELAY` is non-zero exactly when the byte is at least 0x80.
   */
  predicate HasDelay(count: uint8)
  {
    count >= CMD_INIT_DELAY
  }

  /** Milliseconds waited for a delay byte. */
  function DelayMs(d: uint8): nat
  {
    if d == 255 then LONG_DELAY_MS else d as nat
  }

  /** One decoded table entry. */
  datatype Entry = Entry(op: uint8, args: seq<uint8>, delay: Option<uint8>)

  /** The two bytes at `i` are the end marker. */
  predicate AtEndMark(t: seq<uint8>, i: nat)
  {
    i + 1 < |t| && t[i] == END_MARK && t[i + 1] == END_MARK
  }

  /** Index just past the entry that starts at `i`. */
  function EntryEnd(t: seq<uint8>, i: nat): nat
    requires i + 1 < |t|
  {
    i + 2 + ArgCount(t[i + 1]) + (if HasDelay(t[i + 1]) then 1 else 0)
  }

  /** The entry that starts at `i`. */
  function EntryAt(t: seq<uint8>, i: nat): Entry
    requires i + 1 < |t| && EntryEnd(t, i) <= |t|
  {
    var n := ArgCount(t[i + 1]);
    Entry(t[i], t[i + 2 .. i + 2 + n], if HasDelay(t[i + 1]) then Some(t[i + 2 + n]) else None)
  }

  /**
   * The entries from the entry boundary `i` up to the end marker.  None when
   * the table runs out first: the source then reads past the table, which
   * its callers must never let happen.
   */
  function ParseFrom(t: seq<uint8>, i: nat): Option<seq<Entry>>
    decreases |t| - i
  {
    if i + 1 >= |t| then None
    else if AtEndMark(t, i) then Some([])
    else if EntryEnd(t, i) > |t| then None
    else match ParseFrom(t, EntryEnd(t, i))
      case None => None
      case Some(rest) => Some([EntryAt(t, i)] + rest)
  }

  /** The table reaches an end marker at an entry boundary. */
  predicate Terminated(t: seq<uint8>)
  {
    ParseFrom(t, 0).Some?
  }

  /** The events that writing one entry produces. */
  function EntryEvents(e: Entry): seq<Event>
  {
    [Cmd(e.op)] + DataEvents(e.args)
    + (match e.delay
       case Some(d) => [Delay(DelayMs(d))]
       case None => [])
  }

  function DataEvents(args: seq<uint8>): seq<Event>
  {
    if args == [] then [] else [Data(args[0])] + DataEvents(args[1..])
  }

  function EntriesEvents(es: seq<Entry>): seq<Event>
  {
    if es == [] then [] else EntryEvents(es[0]) + EntriesEvents(es[1..])
  }

  /** What interpreting a terminated table puts on the bus. */
  function TableEvents(t: seq<uint8>): seq<Event>
    requires Terminated(t)
  {
    EntriesEvents(ParseFrom(t, 0).value)
  }

  //-------------------------------------------------------------------------
  // Encoding: the inverse of ParseFrom

  function CountByte(e: Entry): uint8
    requires |e.args| < 128
  {
    |e.args| + (if e.delay.Some? then CMD_INIT_DELAY else 0)
  }

  /**
   * An entry can be written into a table and read back: at most 127
   * arguments, and its first two bytes are not the end marker.
   */
  predicate Encodable(e: Entry)
  {
    |e.args| < 128 && !(e.op == END_MARK && CountByte(e) == END_MARK)
  }

  function EncodeEntry(e: Entry): seq<uint8>
    requires |e.args| < 128
  {
    [e.op, CountByte(e)] + e.args
    + (match e.delay
       case Some(d) => [d]
       case None => [])
  }

  /** Every entry of `es` is Encodable. */
  predicate AllEncodable(es: seq<Entry>)
  {
    forall k :: 0 <= k < |es| ==> Encodable(es[k])
  }

  function EncodeEntries(es: seq<Entry>): seq<uint8>
    requires AllEncodable(es)
  {
    if es == [] then [] else EncodeEntry(es[0]) + EncodeEntries(es[1..])
  }

  /** A table holding `es`, closed by the end marker. */
  function Encode(es: seq<Entry>): seq<uint8>
    requires AllEncodable(es)
  {
    EncodeEntries(es) + [END_MARK, END_MARK]
  }

  lemma CountByteFields(e: Entry)
    requires |e.args| < 128
    ensures ArgCount(CountByte(e)) == |e.args|
    ensures HasDelay(CountByte(e)) == e.delay.Some?
  {
  }

  /**
   * Decoding an encoded table gives back its entries, whatever bytes come
   * before it (entry boundaries are counted from where it starts) and
   * whatever bytes follow the end marker.
   */
  lemma {:induction false} ParseEncode(pre: seq<uint8>, es: seq<Entry>, post: seq<uint8>)
    requires AllEncodable(es)
    ensures ParseFrom(pre + Encode(es) + post, |pre|) == Some(es)
    decreases |es|
  {
    var t := pre + Encode(es) + post;
    var i := |pre|;
    if es == [] {
      assert t[i] == END_MARK && t[i + 1] == END_MARK;
    } else {
      var e := es[0];
      var rest := es[1..];
      assert Encodable(e);
      CountByteFields(e);
      var enc := EncodeEntry(e);
      assert Encode(es) == enc + Encode(rest);
      assert t == (pre + enc) + Encode(rest) + post;
      assert t[i] == e.op && t[i + 1] == CountByte(e);
      var n := |e.args|;
      assert EntryEnd(t, i) == i + |enc|;
      assert t[i + 2 .. i + 2 + n] == e.args;
      assert e.delay.Some? ==> t[i + 2 + n] == e.delay.value;
      assert EntryAt(t, i) == e;
      assert AllEncodable(rest);
      assert EntryEnd(t, i) <= |t|;
      ParseEncode(pre + enc, rest, post);
      assert |pre + enc| == EntryEnd(t, i);
      assert !AtEndMark(t, i);
      assert ParseFrom(t, EntryEnd(t, i)) == Some(rest);
      assert [e] + rest == es;
    }
  }

  /** Index of the end marker that decoding from `i` stops at. */
  function EndMarkFrom(t: seq<uint8>, i: nat): (m: nat)
    requires ParseFrom(t, i).Some?
    ensures i <= m && AtEndMark(t, m)
    decreases |t| - i
  {
    if AtEndMark(t, i) then i else EndMarkFrom(t, EntryEnd(t, i))
  }

  /**
   * Conversely, the bytes from `i` up to the end marker are exactly the
   * encoding of the decoded entries: decoding consumes every uint8 before
   * the marker, none after it, and loses nothing.
   */
  lemma {:induction false} EncodeParse(t: seq<uint8>, i: nat)
    requires ParseFrom(t, i).Some?
    ensures var es := ParseFrom(t, i).value;
            && AllEncodable(es)
            && t[i .. EndMarkFrom(t, i) + 2] == Encode(es)
    decreases |t| - i
  {
    if !AtEndMark(t, i) {
      ParseStep(t, i);
      var j := EntryEnd(t, i);
      EncodeParse(t, j);
      EntryRoundTrip(t, i);
      var m := EndMarkFrom(t, j) + 2;
      assert t[i .. m] == t[i .. j] + t[j .. m];
      EncodeCons(EntryAt(t, i), ParseFrom(t, j).value);
    }
  }

  /** One step of decoding: the entry at `i`, then the rest of the table. */
  lemma ParseStep(t: seq<uint8>, i: nat)
    requires ParseFrom(t, i).Some? && !AtEndMark(t, i)
    ensures i + 1 < |t| && EntryEnd(t, i) <= |t|
    ensures ParseFrom(t, EntryEnd(t, i)).Some?
    ensures ParseFrom(t, i).value == [EntryAt(t, i)] + ParseFrom(t, EntryEnd(t, i)).value
    ensures EndMarkFrom(t, i) == EndMarkFrom(t, EntryEnd(t, i))
  {
  }

  lemma EncodeCons(e: Entry, rest: seq<Entry>)
    requires Encodable(e) && AllEncodable(rest)
    ensures AllEncodable([e] + rest)
    ensures Encode([e] + rest) == EncodeEntry(e) + Encode(rest)
  {
    var es := [e] + rest;
    assert es[0] == e && es[1..] == rest;
  }

  /** The entry at a boundary that is not the end marker re-encodes to its own bytes. */
  lemma EntryRoundTrip(t: seq<uint8>, i: nat)
    requires i + 1 < |t| && EntryEnd(t, i) <= |t| && !AtEndMark(t, i)
    ensures Encodable(EntryAt(t, i))
    ensures EncodeEntry(EntryAt(t, i)) == t[i .. EntryEnd(t, i)]
  {
    var e := EntryAt(t, i);
    var c := t[i + 1];
    var n := ArgCount(c);
    assert |e.args| == n && e.delay.Some? == HasDelay(c);
    CountByteOf(e, c);
  }

  lemma CountByteOf(e: Entry, c: uint8)
    requires |e.args| == ArgCount(c) && e.delay.Some? == HasDelay(c)
    ensures |e.args| < 128 && CountByte(e) == c
  {
  }

  /** Bytes after the end marker are never read. */
  lemma {:induction false} ParseIgnoresTail(t: seq<uint8>, i: nat, post: seq<uint8>)
    requires ParseFrom(t, i).Some?
    ensures ParseFrom(t + post, i) == ParseFrom(t, i)
    decreases |t| - i
  {
    var u := t + post;
    assert u[i] == t[i] && u[i + 1] == t[i + 1];
    if !AtEndMark(t, i) {
      var j := EntryEnd(t, i);
      assert EntryEnd(u, i) == j;
      assert u[i + 2 .. i + 2 + ArgCount(t[i + 1])] == t[i + 2 .. i + 2 + ArgCount(t[i + 1])];
      assert EntryAt(u, i) == EntryAt(t, i);
      ParseIgnoresTail(t, j, post);
    }
  }

  /**
   * The end marker is looked for only at entry boundaries: an entry whose
   * opcode is 0xFF with the count byte 0xFF (127 arguments and a delay)
   * cannot be written, since it reads as the end of the table.
   */
  lemma MarkerShadowsEntry(e: Entry, post: seq<uint8>)
    requires |e.args| == 127 && e.delay.Some? && e.op == END_MARK
    ensures !Encodable(e)
    ensures ParseFrom(EncodeEntry(e) + post, 0) == Some([])
  {
    var t := EncodeEntry(e) + post;
    assert CountByte(e) == END_MARK;
    assert t[0] == END_MARK && t[1] == END_MARK;
  }

  /** Interpreting a table opens and closes no write bracket. */
  lemma {:induction false} EntriesNoBrackets(es: seq<Entry>)
    ensures NoBrackets(EntriesEvents(es))
    decreases |es|
  {
    if es != [] {
      EntriesNoBrackets(es[1..]);
      DataNoBrackets(es[0].args);
    }
  }

  lemma {:induction false} DataNoBrackets(args: seq<uint8>)
    ensures NoBrackets(DataEvents(args))
    ensures |DataEvents(args)| == |args|
    ensures forall k :: 0 <= k < |args| ==> DataEvents(args)[k] == Data(args[k])
    decreases |args|
  {
    if args != [] {
      DataNoBrackets(args[1..]);
    }
  }

  /** Writing one more argument appends one Data event. */
  lemma {:induction false} DataEventsSnoc(args: seq<uint8>, b: uint8)
    ensures DataEvents(args + [b]) == DataEvents(args) + [Data(b)]
    decreases |args|
  {
    if args == [] {
      assert [] + [b] == [b];
    } else {
      assert (args + [b])[1..] == args[1..] + [b];
      DataEventsSnoc(args[1..], b);
    }
  }

  /** The events of the entries before `e` followed by those of `e`. */
  lemma {:induction false} EntriesEventsCons(e: Entry, rest: seq<Entry>)
    ensures EntriesEvents([e] + rest) == EntryEvents(e) + EntriesEvents(rest)
  {
    assert ([e] + rest)[0] == e && ([e] + rest)[1..] == rest;
  }

  /** The sleep-out then display-on table: 0x11 without arguments, 0x29 with a 120 ms delay. */
  lemma SleepOutDisplayOn()
    ensures Terminated([0x11, 0x00, 0x29, 0x80, 0x78, 0xFF, 0xFF])
    ensures TableEvents([0x11, 0x00, 0x29, 0x80, 0x78, 0xFF, 0xFF])
            == [Cmd(0x11), Cmd(0x29), Delay(120)]
  {
    var t: seq<uint8> := [0x11, 0x00, 0x29, 0x80, 0x78, 0xFF, 0xFF];
    var sleepOut := Entry(0x11, [], None);
    var displayOn := Entry(0x29, [], Some(0x78));
    assert ArgCount(0x00) == 0 && !HasDelay(0x00);
    assert ArgCount(0x80) == 0 && HasDelay(0x80);
    assert EntryEnd(t, 0) == 2 && EntryEnd(t, 2) == 5;
    assert AtEndMark(t, 5) && !AtEndMark(t, 2) && !AtEndMark(t, 0);
    assert t[4..4] == [] && t[2..2] == [];
    assert EntryAt(t, 2) == displayOn;
    assert EntryAt(t, 0) == sleepOut;
    assert ParseFrom(t, 5) == Some([]);
    assert [displayOn] + [] == [displayOn];
    assert ParseFrom(t, 2) == Some([displayOn]);
    assert [sleepOut] + [displayOn] == [sleepOut, displayOn];
    assert ParseFrom(t, 0) == Some([sleepOut, displayOn]);
    assert EntryEvents(displayOn) == [Cmd(0x29), Delay(120)];
  }

  /** Delay byte 255 stands for 500 ms: sleep-out, the long wait, then display-on. */
  lemma SleepOutLongDelay()
    ensures Terminated([0x11, 0x80, 0xFF, 0x29, 0x00, 0xFF, 0xFF])
    ensures TableEvents([0x11, 0x80, 0xFF, 0x29, 0x00, 0xFF, 0xFF])
            == [Cmd(0x11), Delay(500), Cmd(0x29)]
  {
    var t: seq<uint8> := [0x11, 0x80, 0xFF, 0x29, 0x00, 0xFF, 0xFF];
    var sleepOut := Entry(0x11, [], Some(0xFF));
    var displayOn := Entry(0x29, [], None);
    assert ArgCount(0x00) == 0 && !HasDelay(0x00);
    assert ArgCount(0x80) == 0 && HasDelay(0x80);
    assert EntryEnd(t, 0) == 3 && EntryEnd(t, 3) == 5;
    assert AtEndMark(t, 5) && !AtEndMark(t, 3) && !AtEndMark(t, 0);
    assert t[2..2] == [] && t[5..5] == [];
    assert EntryAt(t, 3) == displayOn;
    assert EntryAt(t, 0) == sleepOut;
    assert ParseFrom(t, 5) == Some([]);
    assert [displayOn] + [] == [displayOn];
    assert ParseFrom(t, 3) == Some([displayOn]);
    assert [sleepOut] + [displayOn] == [sleepOut, displayOn];
    assert ParseFrom(t, 0) == Some([sleepOut, displayOn]);
    assert EntryEvents(sleepOut) == [Cmd(0x11), Delay(500)];
  }
}
