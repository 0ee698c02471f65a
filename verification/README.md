# LGFX_Device: a verified model

This project models `LGFX_Device`, the panel-facing base class of the LovyanGFX
graphics library (`src/lgfx/LGFX_Device.hpp`). It covers:

- the command-table interpreter (`commandList` / `command_list`);
- the panel operations built on it: sleep, wakeup, partial on/off, colour depth,
  rotation, inversion, brightness and `initPanel`;
- `copyRect_impl` on the panel's memory;
- the transparency scan of `pushImageARGB_impl`;
- the two-slot DMA buffer pool (`get_dmabuffer` / `delete_dmabuffer`);
- the `readCommand8/16/32` byte-order handling;
- the touch path: `getTouchRaw`, `getTouch`, `convertRawXY`, `postSetTouch`,
  `set_touch_calibrate` and the sampling protocol of `calibrate_touch`.

Everything the device sends to the bus or the panel is recorded in a `trace`
field of class `Device.LgfxDevice`, as a sequence of `BusTrace.Event`s.
Each method is proved to append exactly the events of a pure specification
function, for example `trace == old(trace) + SleepEvents(panel.value)`. The
one exception is the sampling inside `calibrate_touch`: its `getTouchRaw`
calls and its 1 ms and 2 ms polling delays are not recorded (see "Left out"). The
properties the source relies on are then proved about those functions:

- `startWrite`/`endWrite` brackets balance;
- `initPanel` holds one write transaction open from the first init table to
  the brightness call;
- a copy moves every strip once and never reads a strip it has already
  overwritten;
- every non-transparent ARGB pixel is covered by a written span, and every
  blended pixel is read back first;
- the DMA pool reuses a buffer only when the rounded length matches;
- the calibration values lie within the range of the samples they average.

Modules, one file each:

- `BusTrace` (bus_trace.dfy): byte types, the event alphabet, write-bracket depth and balance.
- `CommandTable` (command_table.dfy): the command-table format, its parser and encoder, and round trips.
- `DeviceEvents` (device_events.dfy): the panel descriptor and the events of each panel operation and of `initPanel`.
- `CopyRect` (copy_rect.dfy): the strip schedule of `copyRect_impl`.
- `DmaBuffers` (dma_buffers.dfy): the DMA pool, as pure functions and as class `DmaPool` over a two-slot array.
- `ArgbScan` (argb_scan.dfy): the alpha scan of one row, as a function and as loops.
- `Touch` (touch.dfy): the rotation remap, the calibration corners and the calibration sampling.
- `ReadCommand` (read_command.dfy): the byte swaps of `readCommand16/32`.
- `Device` (device.dfy): class `LgfxDevice` with the device's state and all of its methods.

Three behaviours of the code that are easy to miss, and that the model keeps:

- `copyRect_impl` streams COLUMNS (one `readRect`/`setWindow`/`writePixelsDMA` per
  column of height h) when `w < h`, and rows otherwise.
- `get_dmabuffer` flips the slot before it looks at it. Two calls in a row
  therefore use different slots, and a buffer of the same length is found
  again on the call after next (`SameLengthReusedEveryOtherCall`), not on the
  next call.
- In `pushImageARGB_impl` every `setWindow` spans one column more than the
  pixels then written (`x + xstart` is the inclusive right edge). The alpha
  values are read from `buffer[0 .. w)` on every row, because `buffer` never
  advances. So the same alpha row decides the spans of all lines.

## Model

| member | source | states |
|---|---|---|
| CommandTable.CountByteFields | Sketchbook/libraries/LovyanGFX-master/src/lgfx/LGFX_Device.hpp:266-268 | The count byte carries the argument count in its low seven bits and the delay flag in bit 0x80 |
| CommandTable.ParseEncode | Sketchbook/libraries/LovyanGFX-master/src/lgfx/LGFX_Device.hpp:260-280 | Parsing an encoded list of entries, at any offset and followed by anything, gives back exactly those entries |
| CommandTable.EncodeParse | Sketchbook/libraries/LovyanGFX-master/src/lgfx/LGFX_Device.hpp:260-280 | Every table that parses consists of the encodings of the entries read, followed by the 0xFF 0xFF end mark |
| CommandTable.EntryRoundTrip | Sketchbook/libraries/LovyanGFX-master/src/lgfx/LGFX_Device.hpp:265-278 | One entry read from a table re-encodes to exactly the bytes it was read from |
| CommandTable.ParseIgnoresTail | Sketchbook/libraries/LovyanGFX-master/src/lgfx/LGFX_Device.hpp:264 | Bytes after the end mark are never read: appending any bytes does not change the parse |
| CommandTable.MarkerShadowsEntry | Sketchbook/libraries/LovyanGFX-master/src/lgfx/LGFX_Device.hpp:264 | An entry for command 0xFF with 127 arguments and a delay starts with 0xFF 0xFF. It is read as the end of the table, so it cannot be encoded |
| CommandTable.EntriesNoBrackets | Sketchbook/libraries/LovyanGFX-master/src/lgfx/LGFX_Device.hpp:262-279 | command_list itself emits only commands, data and delays, never a startWrite or endWrite |
| CommandTable.DataNoBrackets | Sketchbook/libraries/LovyanGFX-master/src/lgfx/LGFX_Device.hpp:269-274 | The arguments go out as one data write per byte, in table order |
| CommandTable.SleepOutDisplayOn | Sketchbook/libraries/LovyanGFX-master/src/lgfx/LGFX_Device.hpp:262-279 | A two-entry table: command 0x11 without arguments, then 0x29 with delay byte 0x78, which waits 120 ms |
| CommandTable.SleepOutLongDelay | Sketchbook/libraries/LovyanGFX-master/src/lgfx/LGFX_Device.hpp:275-277 | Delay byte 255 waits 500 ms: command 0x11 with delay byte 0xFF, then 0x29, gives the command, a 500 ms delay, and the second command |
| DeviceEvents.Int8Of | Sketchbook/libraries/LovyanGFX-master/src/lgfx/LGFX_Device.hpp:115 | The conversion of the panel's rotation to int_fast8_t gives a value in [-128, 128) that is congruent to the byte modulo 256 |
| DeviceEvents.CommandListEvents | Sketchbook/libraries/LovyanGFX-master/src/lgfx/LGFX_Device.hpp:247-258 | commandList emits nothing exactly when the table is absent or starts with the end mark. Otherwise its events start with startWrite and end with endWrite |
| DeviceEvents.CommandListBalanced | Sketchbook/libraries/LovyanGFX-master/src/lgfx/LGFX_Device.hpp:247-258 | Every commandList leaves the write brackets balanced |
| DeviceEvents.InitTableBalanced | Sketchbook/libraries/LovyanGFX-master/src/lgfx/LGFX_Device.hpp:153-156 | One init table (delay, cs_l, commandList, cs_h) is bracket-balanced |
| DeviceEvents.InitTablesBalanced | Sketchbook/libraries/LovyanGFX-master/src/lgfx/LGFX_Device.hpp:151-157 | The whole run of init tables is bracket-balanced |
| DeviceEvents.InitPanelBodyBalanced | Sketchbook/libraries/LovyanGFX-master/src/lgfx/LGFX_Device.hpp:149-165 | The body of initPanel, from startWrite to endWrite, is balanced |
| DeviceEvents.InitPanelBracketed | Sketchbook/libraries/LovyanGFX-master/src/lgfx/LGFX_Device.hpp:138-168 | With a panel, initPanel emits preInit and init, then a startWrite. The write stays open through every table and wrapper call until the endWrite, and post_init follows. The whole run is balanced |
| CopyRect.StripOrderPermutation | Sketchbook/libraries/LovyanGFX-master/src/lgfx/LGFX_Device.hpp:336-343 | The pos sequence (up from 0 or down from n-1) visits each of the n strips exactly once |
| CopyRect.NoStripReadAfterWritten | Sketchbook/libraries/LovyanGFX-master/src/lgfx/LGFX_Device.hpp:336-337 | With the direction chosen by comparing src and dst, no step reads the strip an earlier step wrote |
| CopyRect.SourceStripPending | Sketchbook/libraries/LovyanGFX-master/src/lgfx/LGFX_Device.hpp:348-349 | When a step runs, the source strip it reads is not among the destination strips already written |
| CopyRect.StepsEventsNoWait | Sketchbook/libraries/LovyanGFX-master/src/lgfx/LGFX_Device.hpp:338-343 | The strip loop issues three calls per strip and never waits for the DMA |
| CopyRect.StepsEventsAt | Sketchbook/libraries/LovyanGFX-master/src/lgfx/LGFX_Device.hpp:338-343 | Step m reads, windows and writes strip pos(m), at events 3m to 3m+2 |
| CopyRect.CopyRectEventsShape | Sketchbook/libraries/LovyanGFX-master/src/lgfx/LGFX_Device.hpp:333-357 | A copy is one step per column (w < h) or per row, followed by exactly one waitDMA |
| CopyRect.StripDoneAll | Sketchbook/libraries/LovyanGFX-master/src/lgfx/LGFX_Device.hpp:343 | After the last step every strip of the rectangle has been copied |
| DmaBuffers.RoundUp4 | Sketchbook/libraries/LovyanGFX-master/src/lgfx/LGFX_Device.hpp:431 | The length is rounded up to a multiple of 4 within three bytes. Past 0xFFFFFFFC it wraps to 0 |
| DmaBuffers.Acquire | Sketchbook/libraries/LovyanGFX-master/src/lgfx/LGFX_Device.hpp:428-438 | The flip toggles and the other slot is untouched. The current slot's buffer is reused when its length equals the rounded length; otherwise it is freed and reallocated, with length 0 if allocation fails. The result is that slot's buffer, and pool validity is kept |
| DmaBuffers.Release | Sketchbook/libraries/LovyanGFX-master/src/lgfx/LGFX_Device.hpp:440-444 | On a valid pool, both slots are emptied and each present buffer is freed, slot 0 first. The flip is kept, and so is validity |
| DmaBuffers.SameLengthReusedEveryOtherCall | Sketchbook/libraries/LovyanGFX-master/src/lgfx/LGFX_Device.hpp:428-438 | A request repeated two calls later, after any request in between, gets the same buffer without an allocation |
| DmaBuffers.AcquiredBufferLongEnough | Sketchbook/libraries/LovyanGFX-master/src/lgfx/LGFX_Device.hpp:431-435 | A buffer handed out is at least as long as requested, unless the rounding wraps |
| DmaBuffers.DmaPool.constructor | Sketchbook/libraries/LovyanGFX-master/src/lgfx/LGFX_Device.hpp:416-418 | Both slots start empty with flip false |
| DmaBuffers.DmaPool.FreeSlotAt | Sketchbook/libraries/LovyanGFX-master/src/lgfx/LGFX_Device.hpp:419-425 | free() releases a present buffer to the heap and empties the slot; an empty slot is left alone. The other slot is unchanged |
| DmaBuffers.DmaPool.GetDmaBuffer | Sketchbook/libraries/LovyanGFX-master/src/lgfx/LGFX_Device.hpp:428-438 | The in-place get_dmabuffer does exactly what Acquire specifies |
| DmaBuffers.DmaPool.DeleteDmaBuffer | Sketchbook/libraries/LovyanGFX-master/src/lgfx/LGFX_Device.hpp:440-444 | The in-place delete_dmabuffer does exactly what Release specifies |
| ArgbScan.SkipOpaque | Sketchbook/libraries/LovyanGFX-master/src/lgfx/LGFX_Device.hpp:394 | The skip stops at the first non-opaque pixel or at w, and passes only opaque pixels |
| ArgbScan.RunEnd | Sketchbook/libraries/LovyanGFX-master/src/lgfx/LGFX_Device.hpp:397 | The run of partly transparent pixels stops at the first fully transparent or opaque pixel, or at w |
| ArgbScan.ScanStep | Sketchbook/libraries/LovyanGFX-master/src/lgfx/LGFX_Device.hpp:378-401 | Each pass of the do-loop either ends the row or moves xstart forward, keeping drawed_x <= xstart |
| ArgbScan.ScanWellFormed | Sketchbook/libraries/LovyanGFX-master/src/lgfx/LGFX_Device.hpp:378-408 | The reads and spans of a row lie in [0, w), in increasing order, and do not overlap |
| ArgbScan.ScanCovers | Sketchbook/libraries/LovyanGFX-master/src/lgfx/LGFX_Device.hpp:378-408 | Every pixel with alpha other than 0, from drawed_x on, lies in some written span |
| ArgbScan.ScanReadsBeforeBlend | Sketchbook/libraries/LovyanGFX-master/src/lgfx/LGFX_Device.hpp:396-398 | Every partly transparent pixel in a span is read back from the panel before that span is written |
| ArgbScan.RowPlanCorrect | Sketchbook/libraries/LovyanGFX-master/src/lgfx/LGFX_Device.hpp:376-408 | For a whole row: the plan is well formed, covers every non-transparent pixel, and reads every blended pixel first |
| ArgbScan.TransparentRowEmpty | Sketchbook/libraries/LovyanGFX-master/src/lgfx/LGFX_Device.hpp:381-391 | A fully transparent row writes and reads nothing |
| ArgbScan.OpaqueRowOneSpan | Sketchbook/libraries/LovyanGFX-master/src/lgfx/LGFX_Device.hpp:394-395 | A fully opaque row is one span [0, w) and needs no read |
| ArgbScan.SkipOpaqueLoop | Sketchbook/libraries/LovyanGFX-master/src/lgfx/LGFX_Device.hpp:394 | The while loop stops exactly where SkipOpaque says |
| ArgbScan.RunEndLoop | Sketchbook/libraries/LovyanGFX-master/src/lgfx/LGFX_Device.hpp:397 | The while loop stops exactly where RunEnd says |
| ArgbScan.ScanPass | Sketchbook/libraries/LovyanGFX-master/src/lgfx/LGFX_Device.hpp:380-401 | One pass of the do-loop body computes ScanStep: either its operations and the next state, or the final ones |
| ArgbScan.ScanRow | Sketchbook/libraries/LovyanGFX-master/src/lgfx/LGFX_Device.hpp:377-408 | The loop over a row produces exactly RowPlan, so RowPlanCorrect applies to it |
| ArgbScan.OpsEventsWrites | Sketchbook/libraries/LovyanGFX-master/src/lgfx/LGFX_Device.hpp:385-388 | Every writePixelsDMA of a row writes exactly one planned span |
| Touch.MirrorTable | Sketchbook/libraries/LovyanGFX-master/src/lgfx/LGFX_Device.hpp:223-232 | The bit tests on r = rotation & 7: axes swap for 1, 3, 5, 7; x mirrors for 2, 3, 6, 7; y mirrors for 1, 2, 4, 7 |
| Touch.RemapBijective | Sketchbook/libraries/LovyanGFX-master/src/lgfx/LGFX_Device.hpp:223-234 | The rotation remap has an inverse on both sides, so distinct touch points stay distinct |
| Touch.RemapInBounds | Sketchbook/libraries/LovyanGFX-master/src/lgfx/LGFX_Device.hpp:223-234 | A point inside the raw frame is mapped inside the width-by-height screen |
| Touch.Corner | Sketchbook/libraries/LovyanGFX-master/src/lgfx/LGFX_Device.hpp:486-487 | Corner i is (0,0), (0,h-1), (w-1,0), (w-1,h-1) for i = 0..3 |
| Touch.CalibrationTargets | Sketchbook/libraries/LovyanGFX-master/src/lgfx/LGFX_Device.hpp:523-531 | Four targets: the corners of the screen with width and height exchanged for odd rotations |
| Touch.PostSetTouchMatchesCorners | Sketchbook/libraries/LovyanGFX-master/src/lgfx/LGFX_Device.hpp:301-309 | postSetTouch pairs each screen corner with the raw minimum or maximum on the matching side of each axis |
| Touch.FirstTouch | Sketchbook/libraries/LovyanGFX-master/src/lgfx/LGFX_Device.hpp:495 | The wait for a touch ends on a reading that reports one |
| Touch.FirstTouchSkipsIdle | Sketchbook/libraries/LovyanGFX-master/src/lgfx/LGFX_Device.hpp:495 | Every reading the wait skips reports no touch. When no touch comes, every remaining reading is idle |
| Touch.NextPair | Sketchbook/libraries/LovyanGFX-master/src/lgfx/LGFX_Device.hpp:494-499 | An accepted pair is two consecutive readings, both touching, within 20 of each other on both axes |
| Touch.SamplePairs | Sketchbook/libraries/LovyanGFX-master/src/lgfx/LGFX_Device.hpp:493-505 | Sampling eight pairs consumes readings only forward and stays inside the readings |
| Touch.SamplePairsBounds | Sketchbook/libraries/LovyanGFX-master/src/lgfx/LGFX_Device.hpp:493-505 | The sums of n pairs lie between 2n·lo and 2n·hi when every reading lies in [lo, hi] |
| Touch.CornerValueInRange | Sketchbook/libraries/LovyanGFX-master/src/lgfx/LGFX_Device.hpp:493-507 | The value stored for a corner (sum >> 4) lies within the range of the readings it averages |
| Touch.WaitRelease | Sketchbook/libraries/LovyanGFX-master/src/lgfx/LGFX_Device.hpp:509 | The release wait ends just after a reading that reports no touch |
| Touch.WaitReleaseSkipsTouches | Sketchbook/libraries/LovyanGFX-master/src/lgfx/LGFX_Device.hpp:509 | Every reading the release wait passes over still reports a touch |
| Touch.CalibrateFrom | Sketchbook/libraries/LovyanGFX-master/src/lgfx/LGFX_Device.hpp:485-510 | Calibration from corner k on yields two values per remaining corner |
| Touch.AcceptPair | Sketchbook/libraries/LovyanGFX-master/src/lgfx/LGFX_Device.hpp:494-499 | The nested do-while loops stop at the pair NextPair specifies |
| Touch.SampleCorner | Sketchbook/libraries/LovyanGFX-master/src/lgfx/LGFX_Device.hpp:490-505 | The loop over j accumulates exactly the sums SamplePairs specifies |
| ReadCommand.Read16 | Sketchbook/libraries/LovyanGFX-master/src/lgfx/LGFX_Device.hpp:56 | readCommand16 puts the first byte received in the high half and the second in the low half |
| ReadCommand.Bswap32 | Sketchbook/libraries/LovyanGFX-master/src/lgfx/LGFX_Device.hpp:58 | Byte k of the result is byte 3-k of the reply |
| ReadCommand.Bswap32Involution | Sketchbook/libraries/LovyanGFX-master/src/lgfx/LGFX_Device.hpp:58 | Swapping twice gives back the reply |
| ReadCommand.ReadWidthsAgree | Sketchbook/libraries/LovyanGFX-master/src/lgfx/LGFX_Device.hpp:54-58 | The 16-bit read is the top half of the swapped 32-bit read, and the 8-bit read is the top byte of the 16-bit read |
| ReadCommand.WordBytes | Sketchbook/libraries/LovyanGFX-master/src/lgfx/LGFX_Device.hpp:58 | A word assembled from four bytes yields those bytes back, least significant first |
| ReadCommand.ByteAtWord | Sketchbook/libraries/LovyanGFX-master/src/lgfx/LGFX_Device.hpp:58 | A 32-bit word is rebuilt from its four bytes |
| Device.CornersEvents | Sketchbook/libraries/LovyanGFX-master/src/lgfx/LGFX_Device.hpp:485-510 | Each corner contributes three events: draw, 500 ms delay, erase |
| Device.CalibrationCornerOrder | Sketchbook/libraries/LovyanGFX-master/src/lgfx/LGFX_Device.hpp:485-510 | Corners are drawn in the order (0,0), (0,H-1), (W-1,0), (W-1,H-1). Each is drawn in fg on bg, then after the 500 ms delay erased in bg on bg |
| Device.LgfxDevice.constructor | Sketchbook/libraries/LovyanGFX-master/src/lgfx/LGFX_Device.hpp:285-292 | A device starts with the identity touch transform, no open transaction and an empty trace |
| Device.LgfxDevice.SendEntry | Sketchbook/libraries/LovyanGFX-master/src/lgfx/LGFX_Device.hpp:265-278 | One entry: command, its arguments, and the delay when the flag is set. The address moves past the entry |
| Device.LgfxDevice.RunCommandList | Sketchbook/libraries/LovyanGFX-master/src/lgfx/LGFX_Device.hpp:260-280 | command_list emits exactly the events of the parsed table |
| Device.LgfxDevice.CommandList | Sketchbook/libraries/LovyanGFX-master/src/lgfx/LGFX_Device.hpp:247-258 | Returns true iff the table exists and does not begin with the end mark; appends CommandListEvents |
| Device.LgfxDevice.Sleep | Sketchbook/libraries/LovyanGFX-master/src/lgfx/LGFX_Device.hpp:73-78 | The sleep-in table, when the panel has one, then the panel's own sleep |
| Device.LgfxDevice.Wakeup | Sketchbook/libraries/LovyanGFX-master/src/lgfx/LGFX_Device.hpp:80-85 | The sleep-out table, when the panel has one, then the panel's own wakeup |
| Device.LgfxDevice.PartialOn | Sketchbook/libraries/LovyanGFX-master/src/lgfx/LGFX_Device.hpp:87-91 | The partial-on table through commandList |
| Device.LgfxDevice.PartialOff | Sketchbook/libraries/LovyanGFX-master/src/lgfx/LGFX_Device.hpp:93-97 | The partial-off table through commandList |
| Device.LgfxDevice.SetColorDepth | Sketchbook/libraries/LovyanGFX-master/src/lgfx/LGFX_Device.hpp:108-113 | The colour-depth table, then postSetColorDepth; the depth becomes the one the panel settles on |
| Device.LgfxDevice.SetRotation | Sketchbook/libraries/LovyanGFX-master/src/lgfx/LGFX_Device.hpp:115-120 | The rotation table, then postSetRotation; the panel takes its new rotation |
| Device.LgfxDevice.InvertDisplay | Sketchbook/libraries/LovyanGFX-master/src/lgfx/LGFX_Device.hpp:122-126 | The inversion table through commandList |
| Device.LgfxDevice.SetBrightness | Sketchbook/libraries/LovyanGFX-master/src/lgfx/LGFX_Device.hpp:130-132 | The brightness goes to the panel; nothing else is emitted |
| Device.LgfxDevice.InitPanel | Sketchbook/libraries/LovyanGFX-master/src/lgfx/LGFX_Device.hpp:138-168 | Without a panel, only preInit and nothing changes. With one, the full initialisation sequence runs, the window becomes (0, 0, width, height), the colour depth is the one the panel settles on, and the panel's own rotation is re-applied |
| Device.LgfxDevice.InitWithPanel | Sketchbook/libraries/LovyanGFX-master/src/lgfx/LGFX_Device.hpp:143-167 | initPanel past the null check: init, window reset, the bracketed body, post_init |
| Device.LgfxDevice.InitPanelBodyRun | Sketchbook/libraries/LovyanGFX-master/src/lgfx/LGFX_Device.hpp:149-165 | startWrite, the init tables, cs_l, invert, depth, rotation, brightness, endWrite |
| Device.LgfxDevice.ApplySettings | Sketchbook/libraries/LovyanGFX-master/src/lgfx/LGFX_Device.hpp:160-163 | invertDisplay, setColorDepth, setRotation and setBrightness with the panel's own settings; depth and rotation take the values the panel settles on |
| Device.LgfxDevice.RunInitTables | Sketchbook/libraries/LovyanGFX-master/src/lgfx/LGFX_Device.hpp:151-157 | Each init table in order, framed by a 120 ms delay, cs_l and cs_h |
| Device.LgfxDevice.ReadCommand8 | Sketchbook/libraries/LovyanGFX-master/src/lgfx/LGFX_Device.hpp:54 | A one-byte read whose result is the low byte of the reply |
| Device.LgfxDevice.ReadCommand16 | Sketchbook/libraries/LovyanGFX-master/src/lgfx/LGFX_Device.hpp:56 | A two-byte read, byte-swapped to 16 bits |
| Device.LgfxDevice.ReadCommand32 | Sketchbook/libraries/LovyanGFX-master/src/lgfx/LGFX_Device.hpp:58 | A four-byte read, byte-swapped to 32 bits |
| Device.LgfxDevice.GetTouchRaw | Sketchbook/libraries/LovyanGFX-master/src/lgfx/LGFX_Device.hpp:178-187 | Returns 0 without a controller. Otherwise it returns the controller's count, leaving the transaction around the query exactly when the bus is shared and a transaction is open, and writes a reported touch through the non-null pointers |
| Device.LgfxDevice.ConvertRawXY | Sketchbook/libraries/LovyanGFX-master/src/lgfx/LGFX_Device.hpp:218-235 | The affine transform, then the rotation remap |
| Device.LgfxDevice.ConvertRawXY16 | Sketchbook/libraries/LovyanGFX-master/src/lgfx/LGFX_Device.hpp:210-216 | The int32 conversion, truncated to 16 bits on the way back |
| Device.LgfxDevice.GetTouch | Sketchbook/libraries/LovyanGFX-master/src/lgfx/LGFX_Device.hpp:199-208 | The raw count. On a touch the converted point is written; on none the outputs are untouched |
| Device.LgfxDevice.GetTouchOrMinusOne | Sketchbook/libraries/LovyanGFX-master/src/lgfx/LGFX_Device.hpp:189-197 | As GetTouch, but the outputs become -1 when there is no touch |
| Device.LgfxDevice.SetTouchCalibrateImpl | Sketchbook/libraries/LovyanGFX-master/src/lgfx/LGFX_Device.hpp:518-531 | The eight values are fitted against the corners of the screen at the current rotation |
| Device.LgfxDevice.PostSetTouch | Sketchbook/libraries/LovyanGFX-master/src/lgfx/LGFX_Device.hpp:299-311 | Calibrates from the controller's raw range in corner order |
| Device.LgfxDevice.CalibrateTouch | Sketchbook/libraries/LovyanGFX-master/src/lgfx/LGFX_Device.hpp:478-516 | Without a controller, nothing changes. With one: rotation 0, four corners, copy to parameters when non-null, fit, and the old rotation restored |
| Device.LgfxDevice.CalibrateWithTouch | Sketchbook/libraries/LovyanGFX-master/src/lgfx/LGFX_Device.hpp:481-515 | calibrate_touch past the null check, with the trace, fit, rotation and parameters stated |
| Device.LgfxDevice.MeasureAndFit | Sketchbook/libraries/LovyanGFX-master/src/lgfx/LGFX_Device.hpp:484-514 | Measures the eight values, copies them out and fits them |
| Device.LgfxDevice.CalibrateCorners | Sketchbook/libraries/LovyanGFX-master/src/lgfx/LGFX_Device.hpp:485-510 | The corner loop computes CalibrateFrom and draws the four corners |
| Device.LgfxDevice.CalibrateCorner | Sketchbook/libraries/LovyanGFX-master/src/lgfx/LGFX_Device.hpp:486-509 | One corner: draw, delay, eight pairs averaged into two values, erase, wait for release |
| Device.LgfxDevice.WaitForRelease | Sketchbook/libraries/LovyanGFX-master/src/lgfx/LGFX_Device.hpp:509 | The release loop stops where WaitRelease says |
| Device.LgfxDevice.CopyParameters | Sketchbook/libraries/LovyanGFX-master/src/lgfx/LGFX_Device.hpp:511-513 | The first eight entries become the measured values; the rest are kept |
| Device.LgfxDevice.CopyStrip | Sketchbook/libraries/LovyanGFX-master/src/lgfx/LGFX_Device.hpp:338-343 | One step: the strip is read whole before it is written, so it gets the source's old cells. Every other cell is unchanged |
| Device.LgfxDevice.CopyRect | Sketchbook/libraries/LovyanGFX-master/src/lgfx/LGFX_Device.hpp:330-358 | The destination rectangle holds the source rectangle's old contents, overlap included. Every other cell is unchanged. The calls are those of CopyRectEvents |
| Device.LgfxDevice.PushImageARGB | Sketchbook/libraries/LovyanGFX-master/src/lgfx/LGFX_Device.hpp:360-414 | h rows, each writing the spans of RowPlan. src_y advances h-1 lines, and src_x is left at the last span's start |
| Device.LgfxDevice.PushRow | Sketchbook/libraries/LovyanGFX-master/src/lgfx/LGFX_Device.hpp:376-408 | One row: a DMA buffer request, then the plan's reads and writes in order |
| Device.LgfxDevice.EmitOp | Sketchbook/libraries/LovyanGFX-master/src/lgfx/LGFX_Device.hpp:385-388 | A span sets src_x, converts the pixels, opens its window and writes; a read reads back from the panel |

## Left out

- The affine fit of `set_touch_calibrate` (float accumulation and Gauss–Jordan inversion) is not modelled. The device carries a `fitTouch` function that gives the transform for eight values and four targets, and an `affine` field that holds the result.
- `convertRawXY` applies `affine` as an integer function of the raw point; the float arithmetic and its rounding are not modelled.
- The hardware primitives (writeCommand, writeData, delay, cs_l/cs_h, readRect_impl, setWindow_impl, writePixelsDMA_impl, waitDMA_impl, panel init/sleep/wakeup/post_init, setBrightness, draw_calibrate_point) are virtual or platform calls. They are recorded as trace events, not executed.
- Pixel format conversion (`fp_copy`, `_write_conv` / `_read_conv`) is not modelled. `postSetColorDepth` is only an event, and the device's pixel byte count is a fixed field.
- The panel's descriptor (its command-table factories, the colour depth and rotation it settles on) is an input. The panel classes are not part of this model.
- Inside `calibrate_touch`, the busy-wait loops are abstracted. Their `getTouchRaw` calls and their `delay(1)` and `delay(2)` polling pauses are not recorded in the trace. The controller's answers are a sequence of readings given up front, and the loops consume them. The trace of a calibration holds only the draws, the 500 ms delays, the fit and the rotation changes.
- Touch driver: a reading writes x and y only when it reports a touch, which is what the controller drivers do. The drivers themselves are not part of this model.
- Device.LgfxDevice.CalibrateTouch: requires that the readings are enough to finish the calibration; with fewer, the source would wait forever.
- Device.LgfxDevice.SetRotation: the rotation's effect on the device's width and height is not modelled; a subclass's postSetRotation does that. The width and height stay as given.
- Device.LgfxDevice.CalibrateTouch: because of that, corners and fit targets are placed with the width and height held before the call. When the starting rotation is odd and postSetRotation swaps width and height, the source would place the corners with the swapped values after `setRotation(0)`. The model does not capture that case.
- 32-bit overflow of int32 coordinates and sums is not modelled: integers are unbounded.
- The uint8 loop index of the init tables would wrap after 255 tables. The panel is required to have fewer than 256 init tables.
- The template `getTouch<T>` converts to T; it is modelled for int32 outputs.
- `heap_alloc_dma` / `heap_free` are modelled as an allocator that hands out fresh ids and may fail (`allocOk`); the memory itself is not modelled.
- ArgbScan / PushImageARGB: the DMA buffer is requested as an event. A null buffer is not checked, and the source does not check it either.
- `flush`, `initTouch`, `readPanelID`, `init_impl`, `getBoard`, the panel/touch setters and the inline wrappers (writecommand, spiWrite, writedata, the lower-case readcommand aliases) are not part of this model. They forward to other members or to code outside this file.
- Concurrency (the DMA running behind the CPU) is not modelled; waitDMA is an event.
