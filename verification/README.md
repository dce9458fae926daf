# Verified model of the remote-control viewer and relay

This Dafny project models the parts of the repository in which the hardest reasoning happens: the
browser-side RFB (VNC) client that `urc-web` serves, and the relay hub of the coordinator. It
proves properties of the model; nothing of the original program is executed.

`dafny verify dfyconfig.toml` checks the whole project.

## What is modelled

- **Message loop and queue** (`Websock`, `Client`, `Chunking`, `Pacing`, `Rfb`, `Decoders`, `Hextile`). `Client`
  is the connected client as a state machine over its unread bytes; `Chunking` proves that cutting
  the server's bytes into WebSocket messages does not matter, and exactly when that goes on past a
  failure; `Pacing` adds the pauses for the display; `Rfb` is the object with its handlers over the
  socket's queue, proved to be runs of that machine. `Websock` is the queue itself, in both
  directions.
- **What a server's bytes ask for** (`Pictures`, `HextileTiles`, `Server`, `TightRects`, `ZrleTiles`): pictures,
  tiles, rectangles and messages as a server holds them, the bytes the protocol gives them, and the
  drawing they ask for; the decoders and the message loop are proved to make exactly that drawing.
- **Display** (`Canvas`, `Display`, `DisplayRuns`): the hidden and the visible canvas, the damage bounds, the
  viewport and the render queue that waits for images. Runs are arbitrary sequences of drawing
  calls, load events, pans, resizes and flushes.
- **Pixel codecs** (`Zrle`, `Tight`, `TightStream`, `Hextile`): bit fields, run lengths, tiles and the
  gradient predictor, on inflated bytes.
- **Cryptography** (`DesTables`, `DesBits`, `Des`, `DesCipher`, `BigInt`, `Rsa` with module `DiffieHellman`).
  `Fips` writes down the Data Encryption Standard, FIPS 46-3, on bits; `DesOpening` and `DesStandard`
  prove that the word arithmetic of the source computes it.
- **Keyboard tracker** (`Keyboard`), with the change that turns a viewer's repeats into fresh presses;
  `KeyboardInputs` tells what it does from its inputs.
- **Connection lifecycle** (`Lifecycle`): states, timer, events.
- **Relay hub** (`Relay`): the interleaved steps of any number of legs and sessions.

`Arith`, `Bytes`, `Rows` and `Rects` hold what several of these share. Objects that the source updates in
place are classes whose methods are proved equal to a function of the old state; the properties are
then proved about that function, over all runs.

## Where the code falls short of its intent

The code is modelled as it is. Where a property that one would expect is false, the project states
exactly when it holds, and shows a case where it does not:

- `websock.js:211` copies the wrong bytes from the second chunk of a long push on
  (`Websock.PushDeliversExactlyWhenItFits`).
- `display.js:389` queues a blit from the start of the array's buffer, not of the array
  (`Display.QueuedBlitExactlyWhen`, `DisplayRuns.QueuedBlitShowsOther`); a raw Hextile tile passes such an array at `hextile.js:89-94`.
- `resize` does not wait for the render queue, so drawing queued behind an image lands on a
  framebuffer of another size than when it was called (`DisplayRuns.ResizePassesQueue`,
  `DisplayRuns.ResizeCommutesExactlyWhen`).
- Source-over composition does not clear: panning onto framebuffer contents that were never drawn
  leaves the old pixels visible (`Display.FlipIsExactWhen`, `Display.StaleHappens`).
- An image whose decoded size is not the announced one stops the render queue for good
  (`Display.StuckForGood`, `DisplayRuns.DrainsExactlyWhen`).
- After an unknown message type, or an illegal XVP operation, `_fail` is called but the handler
  returns true, so the rest of the same WebSocket message is still acted upon
  (`Chunking.FailureActsOnItsOwnMessage`, `Chunking.FailureHalts`, `Chunking.IndependentExactlyWhen`).
- A message that takes the unread bytes over 40 MiB throws and is dropped whole, although the same
  bytes in smaller messages are handled (`Rfb.LimitDependsOnCutting`). The queue then takes its
  buffer for larger than it is, and refuses messages far below the limit
  (`Websock.Websock.RecvMessage`, `Websock.EmptyTakesExactlyWhen`, `Rfb.RefusalRefusesLater`).
- An update without rectangles that begins while the display is behind is not resumed: no flip, and
  no request for the next one (`Pacing.PausesLoseNothingExactlyWhen`, `Pacing.EmptyUpdateIsLost`).
- A fence with more than 64 payload bytes leaves the others in the queue as messages
  (`Client.FenceReadExactlyWhen`, `Chunking.LongFenceRunsOn`, `Chunking.FenceRings`).
- A Hextile subrectangle that reaches past its tile's width wraps into the next row
  (`Hextile.SubrectIsItsPixelsExactlyWhenInside`).
- The ZRLE palette check lets an index equal to the palette's size through
  (`Zrle.OwnColorsExactlyWhen`, `Zrle.StaleEntryShown`); packed tiles and Tight palettes have no check
  (`Zrle.PackedOwnColorsExactlyWhen`, `Tight.OwnColorsExactlyWhen`).
- An empty Tight palette rectangle leaves its colours for the next rectangle
  (`TightStream.PaletteClearedExactlyWhen`, `TightStream.NextPaletteIsData`).
- A Tight palette of one colour comes as one bit a pixel and is drawn as one byte a pixel, so most
  pixels have no data (`TightStream.PaletteIsWholeExactlyWhen`, `Tight.IndexedDataCoversExactlyWhen`).
- A ControlLeft held back for AltGr detection is sent after a loss of focus has released all keys
  (`Keyboard.BlurIsFinalExactlyWhen`).
- `modPow` with modulus one and exponent zero returns one (`BigInt.ModPowExactlyWhen`,
  `DiffieHellman.SecretsAgreeExactlyWhen`); an integer too large for its pad length may lose its last
  digit (`BigInt.ReadsBackExactlyWhen`).
- The coordinator announces a tunnel before it creates the session, so an agent's leg can attach
  without ever being registered (`Relay.HearsExactlyWhen`, `Relay.EarlyAgentIsDeaf`).

## Parameters

What the model cannot see is a parameter: the bytes and timing of the network, the load events and
contents of images, layout sizes, whether the display is
behind at an update's header, the code and keysym that the browser's key event leads to, random
bytes, keys generated by Web Crypto, the output of zlib (a byte sequence for ZRLE, a function of a
stream's input and the sizes asked for, for Tight), and the choice of the next step in the relay.

## Model

| member | source | states |
|---|---|---|
| Chunking.ChunkingIndependence | crates/urc-web/static/novnc/core/rfb.js:962-986 | For any two cuttings of the same server bytes into messages that the queue takes, the connected client makes the same display calls, replies and events up to and including the disconnect event, fails or not alike, and without a failure ends in the same state with the same unread bytes |
| Chunking.RunResumes | crates/urc-web/static/novnc/core/rfb.js:962-986 | Handling some bytes and then more equals handling them together, from every state and at every cut: what the client keeps between messages is enough to resume |
| Chunking.StepStable | crates/urc-web/static/novnc/core/rfb.js:2437-2542 | A message, header or rectangle piece that could be handled is handled the same way however many bytes follow it |
| Chunking.RunEndsBlocked | crates/urc-web/static/novnc/core/rfb.js:962-986 | The message loop stops only where the next piece is incomplete |
| Chunking.ChunksAreOneMessage | crates/urc-web/static/novnc/core/rfb.js:962-986 | As long as the connection stands, any cutting gives exactly what one single message would give |
| Chunking.CutIsPrefixOfWhole | crates/urc-web/static/novnc/core/rfb.js:962-986 | Whatever the cutting, the record of outputs is a prefix of the record for one message, also past a failure |
| Chunking.CutFailsAlike | crates/urc-web/static/novnc/core/rfb.js:932-953 | Whether the connection fails does not depend on the cutting |
| Chunking.SinglesAreLeast | crates/urc-web/static/novnc/core/rfb.js:962-986 | No cutting makes the client do less than byte-by-byte delivery |
| Chunking.SinglesEndThere | crates/urc-web/static/novnc/core/rfb.js:962-986 | Byte by byte, nothing is done after the byte on which the connection fails |
| Chunking.IndependentExactlyWhen | crates/urc-web/static/novnc/core/rfb.js:962-986 | The whole record, past a disconnect included, is the same for every cutting if and only if the loop, after the byte on which the connection fails, does nothing with its unread bytes and the rest of the stream |
| Chunking.FailureHalts | crates/urc-web/static/novnc/core/rfb.js:2437-2493 | A step that fails the connection ends the loop if and only if it is not an unknown message type or an illegal XVP operation |
| Chunking.IndependentWithoutSoftFailure | crates/urc-web/static/novnc/core/rfb.js:2437-2493 | If the loop never comes to one of those two messages, the whole record is the same for every cutting |
| Chunking.FailureActsOnItsOwnMessage | crates/urc-web/static/novnc/core/rfb.js:2484-2492 | Full independence fails: after an unknown type the loop goes on inside the same WebSocket message and rings a bell, which it does not when the bell comes in a message of its own |
| Chunking.StepHonest | crates/urc-web/static/novnc/core/rfb.js:932-953 | A step tears the connection down at most once, and its disconnect event is the last thing it does |
| Server.SessionIsShown | crates/urc-web/static/novnc/core/rfb.js:2437-2576 | For every sequence of server messages (updates of rectangles in Raw, CopyRect, RRE and Hextile, cursor, name, size, screen layout, extended keys and LEDs, with or without the last-rectangle mark; bell, cut text, fence, end of continuous updates, XVP), and every cutting of their protocol bytes, a new client does exactly what each asks for: every rectangle's drawing calls at its own x, y, width and height, in order, then the flip and the request, and nothing else |
| Server.CarrierTaken | crates/urc-web/static/novnc/core/rfb.js:2518-2542 | From any client between two rectangles: the bytes of one lead to its own drawing at its own place, to the frame's end if it is the last, and to what the session is after it |
| Server.CarriersTaken | crates/urc-web/static/novnc/core/rfb.js:2495-2542 | All rectangles of an update, and the mark that ends it early |
| Server.LayoutTaken | crates/urc-web/static/novnc/core/rfb.js:2765-2838 | A screen layout resizes unless it answers a refused request, keeps the first screen's id and flags, and the first one leads to the client's own request |
| Server.RreIsDrawn | crates/urc-web/static/novnc/core/decoders/rre.js:15-42 | For every background and list of pieces, decoding their bytes finishes, reads exactly those, and fills the rectangle and each piece at its offset in it |
| HextileTiles.TilesAreDrawn | crates/urc-web/static/novnc/core/decoders/hextile.js:19-132 | For every list of tiles, decoding their bytes finishes, reads exactly those, and makes each tile's drawing at its own place, in order, with the colours that are inherited; a blank tile after a raw one draws nothing |
| HextileTiles.TileIsRead | crates/urc-web/static/novnc/core/decoders/hextile.js:27-128 | A raw, blank or painted tile, with own or inherited colours and parts of one colour or their own, is counted and read whole and makes its drawing |
| Pictures.RawIsDrawn | crates/urc-web/static/novnc/core/decoders/raw.js:15-57 | For every picture of the rectangle's size, at depth 24 and at depth 8, decoding its row-major bytes finishes, reads exactly those, and blits each row, opaque, at its own height |
| Pictures.RawPixel | crates/urc-web/static/novnc/core/decoders/raw.js:30-52 | Together those blits write sample (i, j) of the picture at (x + i, y + j), opaque, once, and nothing outside the rectangle |
| Pictures.BlitShowsPicture | crates/urc-web/static/novnc/core/display.js:383-407 | A blit of a picture's row-major bytes shows sample (i, j) at (x + i, y + j), and changes nothing else |
| Client.StepProgress | crates/urc-web/static/novnc/core/rfb.js:962-986 | Every step reads bytes or moves strictly down a finite rank, so the message loop ends on every input |
| Client.FenceReadExactlyWhen | crates/urc-web/static/novnc/core/rfb.js:2372-2386 | A fence is read to its end if and only if its payload has at most 64 bytes; the rest of a longer one is left in the queue as messages |
| Chunking.LongFenceRunsOn | crates/urc-web/static/novnc/core/rfb.js:2372-2412 | After a fence of more than 64 bytes the loop goes on with the 65th byte of its payload as a message |
| Chunking.FenceRings | crates/urc-web/static/novnc/core/rfb.js:2372-2412 | So a fence whose 65th byte is 2 is answered and then rings the bell |
| Rfb.RFB.HandleMessage | crates/urc-web/static/novnc/core/rfb.js:962-986 | The imperative loop over the queue ends exactly where the state machine ends: same state, same unread bytes, same outputs |
| Rfb.RFB.Receive | crates/urc-web/static/novnc/core/rfb.js:962-986 | One WebSocket message through queue, loop, handlers and decoders is exactly one `Feed` if the queue takes it, and changes nothing but the queue's sizes if it throws; it throws if and only if the connection stands and the queue does not take the message |
| Rfb.RFB.ReceiveAll | crates/urc-web/static/novnc/core/websock.js:345-364 | Over any sequence of WebSocket messages, taken and refused ones, the object ends where `FeedAll` takes it on the messages that its queue takes, so no byte of those is lost, in agreement with every other cutting of their bytes |
| Rfb.AllTakenExactlyWhen | crates/urc-web/static/novnc/core/websock.js:345-364 | A queue that has refused nothing yet takes all of a sequence if and only if each message fits beside the unread bytes when it arrives |
| Rfb.RefusalRefusesLater | crates/urc-web/static/novnc/core/websock.js:312-342 | After one message over 40 MiB a new client refuses bells, on an empty queue and within the limit, that it would ring otherwise |
| Rfb.LimitDependsOnCutting | crates/urc-web/static/novnc/core/websock.js:312-342 | The queue's limit does see the cutting: bells that are received in two messages are refused in one if they are more than 40 MiB together |
| Rfb.RFB.NormalMsg | crates/urc-web/static/novnc/core/rfb.js:2437-2493 | One message: the step sequence of the state machine, backing up over the type byte when the message is incomplete |
| Rfb.RFB.FramebufferUpdate | crates/urc-web/static/novnc/core/rfb.js:2495-2542 | Header and rectangles, resumed at the rectangle where the last call stopped, then the flip and the next request: the run of the state machine whose drawing `Server.SessionIsShown` tells from the rectangles |
| Pacing.PausesDoNotMatter | crates/urc-web/static/novnc/core/rfb.js:2495-2512 | With pauses until the display has caught up: however messages and the ends of flushes follow each other, the connected client ends where the loop with every flush done at once takes it on all the bytes |
| Pacing.PausesLoseNothingExactlyWhen | crates/urc-web/static/novnc/core/rfb.js:2495-2512 | A client that pauses does everything that one that never pauses does if and only if no update without rectangles begins while the display is behind |
| Pacing.EmptyUpdateIsLost | crates/urc-web/static/novnc/core/rfb.js:2495-2512 | It happens: after such an update nothing is shown and no next one is requested |
| Rfb.RFB.HandleRect | crates/urc-web/static/novnc/core/rfb.js:2544-2576 | The encoding of the pending rectangle decides between the pseudo rectangles and the decoders |
| Rfb.RFB.HandleServerCutText | crates/urc-web/static/novnc/core/rfb.js:2204-2222 | Waits for the whole text before anything is taken off the queue |
| Rfb.RFB.HandleServerFenceMsg | crates/urc-web/static/novnc/core/rfb.js:2372-2412 | Answers a request with its supported flags and payload, tears down on anything else, and takes nothing while the payload is incomplete |
| Rfb.RFB.HandleXvpMsg | crates/urc-web/static/novnc/core/rfb.js:2414-2435 | The three operations and the failure on any other, which does not stop the loop |
| Rfb.RFB.HandleEndOfContinuousUpdates | crates/urc-web/static/novnc/core/rfb.js:2469-2478 | The first of these messages switches continuous updates on, a later one off |
| Rfb.RFB.HandleCursor | crates/urc-web/static/novnc/core/rfb.js:2694-2729 | The cursor's pixels and mask are taken only when all of both are there |
| Rfb.RFB.HandleDesktopName | crates/urc-web/static/novnc/core/rfb.js:2731-2748 | The name is taken with its length, or nothing is |
| Rfb.RFB.HandleExtendedDesktopSize | crates/urc-web/static/novnc/core/rfb.js:2765-2838 | Waits for header and screen list together, then resizes unless the client's own request was refused |
| Websock.Websock.RecvMessage | crates/urc-web/static/novnc/core/websock.js:345-364 | The receive queue is a byte FIFO in every state: a message is appended or, if it throws, nothing is, and no unread byte is lost. It throws exactly as `Takes` says: over 40 MiB while the recorded size is the buffer's, and past the buffer's real end once a refusal has made the two differ, except for a message so long that a new buffer is made |
| Websock.TakenWhenRoomFits | crates/urc-web/static/novnc/core/websock.js:312-356 | That condition is when neither of the two errors comes, the one for the limit and the one of `set` |
| Websock.EmptyTakesExactlyWhen | crates/urc-web/static/novnc/core/websock.js:345-356 | An empty queue takes every message up to 40 MiB, and one that has refused a message only those up to its buffer's size, which stays as it is |
| Websock.RefusalSpoils | crates/urc-web/static/novnc/core/websock.js:312-356 | It happens on a new queue: after a message over 40 MiB it refuses every message over 4 MiB |
| Websock.Websock.ExpandCompactRQ | crates/urc-web/static/novnc/core/websock.js:312-342 | Compaction and growth keep the unread bytes, fail exactly at the limit, and end in a buffer of the recorded size if a new one is made |
| Websock.Websock.RQshift | crates/urc-web/static/novnc/core/websock.js:119-125 | The sum of signed 32-bit shifts is the unsigned big-endian number of the bytes read |
| Websock.Websock.RQshiftBytes | crates/urc-web/static/novnc/core/websock.js:137-144 | Returns the first unread bytes and removes exactly those |
| Websock.Websock.RQwait | crates/urc-web/static/novnc/core/websock.js:163-174 | Waits exactly when fewer bytes are unread than asked for, and then gives back the bytes named |
| Websock.SendQueueKeepsOrder | crates/urc-web/static/novnc/core/websock.js:178-228 | Over any mix of 8, 16 and 32-bit pushes, byte-array pushes that fit and flushes, bytes sent followed by bytes buffered are everything pushed, in order |
| Websock.PushDeliversExactlyWhenItFits | crates/urc-web/static/novnc/core/websock.js:202-215 | The chunk loop with its `subarray(offset, chunkSize)` delivers every byte string of a length if and only if that length fits the room left |
| Websock.IntendedPushDelivers | crates/urc-web/static/novnc/core/websock.js:202-215 | With the chunk's own end index the same loop delivers every byte string |
| Websock.TooLongIsSpoiled | crates/urc-web/static/novnc/core/websock.js:211 | For every length that needs a second chunk there is a byte string that is sent wrongly |
| Websock.IntBytesValue | crates/urc-web/static/novnc/core/websock.js:178-195 | The bytes that a field push writes read back as the number modulo the field's width, for negative numbers too |
| Websock.Websock.SQpush32 | crates/urc-web/static/novnc/core/websock.js:189-195 | Appends the four bytes of the number, flushing first if they do not fit |
| Websock.Websock.SQpushBytes | crates/urc-web/static/novnc/core/websock.js:202-215 | The loop as written terminates with the state of the modelled chunk loop, and appends the bytes when they fit |
| Websock.Websock.Flush | crates/urc-web/static/novnc/core/websock.js:217-222 | On an open channel what was buffered becomes sent; on a closed one nothing changes |
| Decoders.RawDecoder.DecodeRect | crates/urc-web/static/novnc/core/decoders/raw.js:15-57 | Line by line, with the state of an interrupted call, exactly the run of the Raw step function on the unread bytes, which by `Pictures.RawIsDrawn` draws the picture |
| Decoders.RawStepStable | crates/urc-web/static/novnc/core/decoders/raw.js:15-57 | Later bytes do not change a line that could be drawn |
| Decoders.RREDecoder.DecodeRect | crates/urc-web/static/novnc/core/decoders/rre.js:15-42 | Background and subrectangles, resumed at the subrectangle where the last call stopped |
| Decoders.RreStepStable | crates/urc-web/static/novnc/core/decoders/rre.js:15-42 | Later bytes do not change a subrectangle that could be drawn |
| Decoders.DecodeCopyRect | crates/urc-web/static/novnc/core/decoders/copyrect.js:11-25 | The source position is taken whole or not at all; an empty rectangle copies nothing |
| Hextile.TilesPartition | crates/urc-web/static/novnc/core/decoders/hextile.js:40-46 | A pixel lies in the k-th visited tile if and only if it is in the rectangle and k is its own tile: tiles are disjoint and reach nowhere outside |
| Hextile.TilesCover | crates/urc-web/static/novnc/core/decoders/hextile.js:21-24 | Every pixel's tile is among those visited, for every width and height |
| Hextile.TileIsPaintedInOrder | crates/urc-web/static/novnc/core/decoders/hextile.js:135-180 | A finished tile shows at every pixel the last subrectangle that contains it, or the background, when the subrectangles stay inside |
| Hextile.SubrectIsItsPixelsExactlyWhenInside | crates/urc-web/static/novnc/core/decoders/hextile.js:155-173 | Painting touches exactly the announced pixels if and only if no part of a row wraps into another row of the tile |
| Hextile.WrappedPixel | crates/urc-web/static/novnc/core/decoders/hextile.js:163-171 | A subrectangle that does wrap paints a pixel of the tile that it does not contain |
| Hextile.ReadTile | crates/urc-web/static/novnc/core/decoders/hextile.js:78-128 | A tile that is read takes exactly the bytes that were counted while peeking |
| Hextile.HextileDecoder.ConsumeTile | crates/urc-web/static/novnc/core/decoders/hextile.js:78-128 | The reads of a tile take exactly the peeked bytes off the queue and make the drawing |
| Hextile.HexStepStable | crates/urc-web/static/novnc/core/decoders/hextile.js:27-77 | Later bytes do not change a tile that could be read |
| Hextile.HextileDecoder.DecodeRect | crates/urc-web/static/novnc/core/decoders/hextile.js:19-132 | The loop over the tiles left, with its buffer and colours, is the run of the step function on the unread bytes |
| Hextile.HextileDecoder.SubTile | crates/urc-web/static/novnc/core/decoders/hextile.js:155-173 | The double loop leaves the tile buffer painted row after row |
| Hextile.HextileDecoder.StartTile | crates/urc-web/static/novnc/core/decoders/hextile.js:135-152 | The buffer's front becomes one opaque colour |
| Display.RunKept | crates/urc-web/static/novnc/core/display.js:92-297 | In every state reachable by drawing, loading, panning, clipping, sizing and flushing: the viewport is inside the framebuffer, wrong pixels lie in the damage bounds, drawing happens in submission order |
| Display.StepTracks | crates/urc-web/static/novnc/core/display.js:235-297 | Every call keeps: a drawn pixel that the viewport shows wrongly lies inside the damage bounds |
| Display.FlipShows | crates/urc-web/static/novnc/core/display.js:253-297 | After an executed flip no drawn pixel of the viewport is shown wrongly |
| Display.DrawsThere | crates/urc-web/static/novnc/core/display.js:316-411 | A fill shows its colour, a copy what was at the same distance from the old corner, a blit its row-major data and an image its own pixels, each at its own place within the framebuffer; no other pixel changes |
| Display.FlippedPixel | crates/urc-web/static/novnc/core/display.js:259-292 | A flip copies exactly the drawn pixels that are both damaged and in view, each to its own place |
| Display.FlipIsExactWhen | crates/urc-web/static/novnc/core/display.js:259-295 | After a flip the visible canvas equals the window of the hidden one everywhere if and only if every window pixel never drawn was clear on it before |
| Display.StaleHappens | crates/urc-web/static/novnc/core/display.js:92-132 | A run in which a pan shows the colour of another place where the framebuffer was never drawn |
| Display.PanLands | crates/urc-web/static/novnc/core/display.js:92-132 | A clipped pan lands at x + floor(dx) clamped to 0 and the framebuffer width less the viewport's, likewise y; an unclipped viewport stays the whole framebuffer |
| Display.ChangeSizeFits | crates/urc-web/static/novnc/core/display.js:134-173 | The size asked for, cut to the framebuffer, inside it whenever it changes |
| Display.ReadjustPlaces | crates/urc-web/static/novnc/core/display.js:216-220 | After a clip toggle or a framebuffer resize, whatever the viewport was, it is inside, and all of the framebuffer when not clipped |
| Display.StepPlaces | crates/urc-web/static/novnc/core/display.js:92-221 | Every call leaves the viewport placed |
| Display.StepOrders | crates/urc-web/static/novnc/core/display.js:464-527 | Every call keeps: what was drawn and then what is queued is everything submitted, in order, and a queue at rest waits for a load event or stands at an image of the wrong size; the flush promise is resolved exactly when a call leaves the queue empty |
| DisplayRuns.QueueOnlyDelays | crates/urc-web/static/novnc/core/display.js:464-527 | In every run in which no change of the framebuffer's size meets a waiting queue, the hidden canvas with the queued actions drawn on it is what the same calls make when nothing ever waits |
| DisplayRuns.DrainedQueue | crates/urc-web/static/novnc/core/display.js:480-527 | With the queue empty everything submitted has been drawn in order, and in such a run the hidden canvas is as if there had been no queue |
| DisplayRuns.LoadTimesDoNotMatter | crates/urc-web/static/novnc/core/display.js:464-527 | Two such runs with the same drawing calls and resizes end in the same hidden canvas, whenever and in whatever order their images load and whatever the viewport does |
| DisplayRuns.ResizeCommutesExactlyWhen | crates/urc-web/static/novnc/core/display.js:189-214 | A resize past a waiting image leaves the same framebuffer, whatever is queued behind the image, if and only if it keeps the size or leaves no pixel |
| DisplayRuns.ResizePassesQueue | crates/urc-web/static/novnc/core/display.js:189-214 | It happens: the same drawing calls, with the image loaded late or at once, leave a red or a clear pixel, with both queues empty |
| DisplayRuns.DrainsExactlyWhen | crates/urc-web/static/novnc/core/display.js:473-527 | After the load events of all queued images, in any order, the queue is empty if and only if every image has the announced size |
| DisplayRuns.FlipsStayExact | crates/urc-web/static/novnc/core/display.js:259-295 | In every run, from a moment at which all of the framebuffer has been drawn and as long as it does not grow, each flip that a call executes, at once or from the middle of the queue, makes the visible canvas exactly the window of the hidden one |
| DisplayRuns.FlipsAreCounted | crates/urc-web/static/novnc/core/display.js:480-527 | Those are all the flips: in such a run the history holds exactly as many for each call |
| DisplayRuns.QueuedBlitShowsOther | crates/urc-web/static/novnc/core/display.js:383-407 | A pixel four bytes into its buffer, blitted behind a waiting image, shows the buffer's first bytes; blitted after the load event it shows its own |
| Display.LoadDrawsExactlyWhen | crates/urc-web/static/novnc/core/display.js:497-513 | The load event of the image at the head draws it if and only if its size is as announced |
| Display.StuckForGood | crates/urc-web/static/novnc/core/display.js:499-503 | An image of the wrong size at the head stops the queue: no later call draws anything |
| Display.QueuedBlitExactlyWhen | crates/urc-web/static/novnc/core/display.js:383-407 | A queued blit has the immediate path's data for every buffer if and only if the array starts at zero or the blit is empty |
| Display.ResizedTracks | crates/urc-web/static/novnc/core/display.js:196-214 | A new framebuffer size keeps the drawn pixels that still fit |
| Display.Display.ScanRenderQ | crates/urc-web/static/novnc/core/display.js:480-527 | The loop draws from the front up to the first image that is not ready, and resolves the promise if nothing is left |
| Display.Display.CopyDamage | crates/urc-web/static/novnc/core/display.js:259-295 | The chain of clippings copies exactly the damage cut to the viewport and resets the bounds |
| Display.Display.ViewportChangePos | crates/urc-web/static/novnc/core/display.js:92-132 | The source's branches compute the clamped position, damage all of the viewport and flip or queue a flip |
| Display.Display.ViewportChangeSize | crates/urc-web/static/novnc/core/display.js:134-173 | Resizing the visible canvas clears it, and everything in view is damaged |
| Display.Display.SetClipViewport | crates/urc-web/static/novnc/core/display.js:74-80 | The setter leaves the viewport placed and the invariants kept |
| Display.Display.ResizeFramebuffer | crates/urc-web/static/novnc/core/display.js:189-221 | Resizing keeps the contents that fit, then places the viewport |
| Display.Display.BlitImage | crates/urc-web/static/novnc/core/display.js:383-407 | As written: from the buffer's beginning when queued, from the array's own offset when drawn at once |
| Display.Display.OnLoad | crates/urc-web/static/novnc/core/display.js:473-478 | A load event resumes the queue only if it was waited for |
| Display.Display.FlushQueue | crates/urc-web/static/novnc/core/display.js:303-314 | Tells whether the promise is resolved at once, which is exactly when the queue is empty |
| DesBits.ClosingUndoesOpening | crates/urc-web/static/novnc/core/crypto/des.js:191-206 | The closing bit-swap network undoes the opening one with the halves exchanged |
| DesBits.OpeningUndoesClosing | crates/urc-web/static/novnc/core/crypto/des.js:233-250 | And the other way round |
| Des.RoundsUndone | crates/urc-web/static/novnc/core/crypto/des.js:208-231 | Any number of rounds is unwound by the same rounds with the keys reversed |
| Des.EncipherInverts | crates/urc-web/static/novnc/core/crypto/des.js:182-260 | Running the cipher with the round keys reversed undoes it, for every key schedule and every pair of halves (FIPS 46-3, Deciphering) |
| Des.EncipherBlockInverts | crates/urc-web/static/novnc/core/crypto/des.js:182-260 | The same from bytes to bytes |
| Des.Pc1FollowsTable | crates/urc-web/static/novnc/core/crypto/des.js:138-142 | The running index with its corrections walks permuted choice 1 of FIPS 46-3 and stays inside an 8-byte key |
| Des.FComplements | crates/urc-web/static/novnc/core/crypto/des.js:209-230 | The round function does not change when its half and its key are complemented |
| Des.EncipherComplements | crates/urc-web/static/novnc/core/crypto/des.js:182-260 | Complementing the block and every round key complements the result |
| Des.ScheduleOfKeyBytes | crates/urc-web/static/novnc/core/crypto/des.js:132-179 | Only the first eight bytes of a password count, zeros filling a short one |
| Des.ScheduleComplements | crates/urc-web/static/novnc/core/crypto/des.js:132-179 | For every password the schedule takes the complement of those eight bytes to the complement of the round keys |
| Des.Complementation | crates/urc-web/static/novnc/core/crypto/des.js:132-260 | The complementation property of DES from password bytes to cipher bytes |
| DesCipher.DES.constructor | crates/urc-web/static/novnc/core/crypto/des.js:132-179 | The loops of the key schedule produce the 16 round keys, which `DesStandard.RoundKeyIsStandard` equates with those of FIPS 46-3 |
| DesCipher.DES.Enc8 | crates/urc-web/static/novnc/core/crypto/des.js:182-260 | The in-place steps of `enc8` compute the block function under the object's keys, which `DesStandard.EnciphersAsStandard` equates with FIPS 46-3 |
| DesStandard.EnciphersAsStandard | crates/urc-web/static/novnc/core/crypto/des.js:132-260 | For every password and block, the bits that `enc8` computes under the password's schedule are the bits that FIPS 46-3 computes, with its own tables, under the key whose bytes are the password's with their bits mirrored |
| DesStandard.RoundKeyIsStandard | crates/urc-web/static/novnc/core/crypto/des.js:81-84 | Every bit of every round key, in the place where a box reads it, is the password bit that the schedule of FIPS 46-3 names: permuted choices 1 and 2 and the rotations |
| DesStandard.FIsStandard | crates/urc-web/static/novnc/core/crypto/des.js:208-230 | The round function, its rotation taken back, is P after the eight selection functions after E and the key of FIPS 46-3 |
| DesOpening.OpeningIsIp | crates/urc-web/static/novnc/core/crypto/des.js:186-206 | The opening swaps, the rotations of both halves taken back, are the initial permutation of FIPS 46-3 |
| DesStandard.ClosingIsIpInverse | crates/urc-web/static/novnc/core/crypto/des.js:234-255 | The closing swaps are its inverse on the halves exchanged |
| DesCipher.DESECBCipher.Encrypt | crates/urc-web/static/novnc/core/crypto/des.js:282-292 | `null` exactly without a key or for a length that is not a multiple of 8; otherwise each block enciphered in its place |
| DesCipher.DESCBCCipher.Encrypt | crates/urc-web/static/novnc/core/crypto/des.js:314-329 | The same, each block chained to the cipher block before it, the first to the vector |
| DesCipher.EcbInverts | crates/urc-web/static/novnc/core/crypto/des.js:282-292 | ECB with the round keys reversed recovers every plaintext |
| DesCipher.CbcInverts | crates/urc-web/static/novnc/core/crypto/des.js:314-329 | Block-by-block CBC decryption recovers every plaintext, whatever the vector |
| DesCipher.EcbBlock | crates/urc-web/static/novnc/core/crypto/des.js:282-292 | Every cipher block of ECB is its own plaintext block enciphered |
| DesCipher.CbcBlock | crates/urc-web/static/novnc/core/crypto/des.js:314-329 | Every cipher block of CBC is the enciphered exclusive or of its plaintext block and the cipher block before it, the vector for the first |
| DesCipher.ModesAreInjective | crates/urc-web/static/novnc/core/crypto/des.js:282-329 | Neither mode sends two plaintexts to one ciphertext |
| BigInt.ComputeModPow | crates/urc-web/static/novnc/core/crypto/bigint.js:1-12 | Square and multiply gives the power modulo m, throwing for a zero modulus |
| BigInt.ModPowExactlyWhen | crates/urc-web/static/novnc/core/crypto/bigint.js:1-12 | The result is the power modulo m if and only if m > 1 or the exponent is not zero |
| BigInt.SquareStep | crates/urc-web/static/novnc/core/crypto/bigint.js:4-10 | One turn of the loop keeps accumulator times power modulo m, for odd and even exponents |
| BigInt.BigIntToU8Array | crates/urc-web/static/novnc/core/crypto/bigint.js:14-26 | The parsing loop fills the array with the text's whole bytes |
| BigInt.U8ArrayToBigInt | crates/urc-web/static/novnc/core/crypto/bigint.js:28-34 | The number read is the big-endian value of the bytes; an empty array throws |
| BigInt.ReadsBackExactlyWhen | crates/urc-web/static/novnc/core/crypto/bigint.js:14-34 | Writing and reading back gives the integer if and only if its padded text is a whole number of bytes |
| BigInt.FitsExactlyWhen | crates/urc-web/static/novnc/core/crypto/bigint.js:14-26 | The array has the length asked for and reads back if and only if the integer is below 256 to that length |
| BigInt.WritesBack | crates/urc-web/static/novnc/core/crypto/bigint.js:14-34 | Reading any non-empty array and writing it to its own length gives it back |
| Rsa.NonZero | crates/urc-web/static/novnc/core/crypto/rsa.js:92-94 | Every random byte becomes a padding byte between 1 and 255 |
| Rsa.UnpadsExactly | crates/urc-web/static/novnc/core/crypto/rsa.js:112-123 | Decrypted bytes yield a message if and only if they are that message in the PKCS #1 encoding with a padding free of zeros |
| Rsa.EncryptsBlock | crates/urc-web/static/novnc/core/crypto/rsa.js:86-102 | `null` if and only if the message leaves no room for eight padding bytes; else the power of the number of a block 0, 2, non-zero padding, 0, message, at the key's length |
| Rsa.UnpadsAfterFirstZero | crates/urc-web/static/novnc/core/crypto/rsa.js:112-123 | Decryption accepts exactly bytes that begin 0, 2 and have a zero after that, and gives what follows the first such zero |
| Rsa.ThereAndBack | crates/urc-web/static/novnc/core/crypto/rsa.js:99-111 | Exponentiation there and back through byte arrays of the key's length gives every number below the modulus |
| Rsa.RoundTrip | crates/urc-web/static/novnc/core/crypto/rsa.js:86-124 | For every message up to k - 11 bytes and every random padding, decryption returns the message, given matching exponents and a modulus of full length (RFC 8017, section 7.2) |
| Rsa.RSACipher.Encrypt | crates/urc-web/static/novnc/core/crypto/rsa.js:86-102 | `null` exactly for a message that is too long; otherwise the encoded message raised and written to the key's length |
| Rsa.RSACipher.Decrypt | crates/urc-web/static/novnc/core/crypto/rsa.js:104-124 | `null` for a wrong length or a wrong encoding; a missing private exponent acts as zero |
| Rsa.RSACipher.ImportKey | crates/urc-web/static/novnc/core/crypto/rsa.js:69-84 | Succeeds exactly for parts of one non-zero length |
| Rsa.RSACipher.GenerateKey | crates/urc-web/static/novnc/core/crypto/rsa.js:39-58 | Throws exactly for a part longer than the key or a key of no length; otherwise padding the exported parts does not change their values |
| DiffieHellman.SecretsAgreeExactlyWhen | crates/urc-web/static/novnc/core/crypto/dh.js:36-54 | Both sides derive the same bytes if and only if the modulus exceeds one or both or neither private key is zero |
| DiffieHellman.PowersCommute | crates/urc-web/static/novnc/core/crypto/dh.js:43-54 | The two secrets are one power of a power, in either order |
| DiffieHellman.DHCipher.GenerateKey | crates/urc-web/static/novnc/core/crypto/dh.js:36-46 | The public key is the power of the generator at the key's length; an empty generator or modulus and a modulus of zero throw |
| DiffieHellman.DHCipher.DeriveBits | crates/urc-web/static/novnc/core/crypto/dh.js:48-54 | The secret at the longer of the key's and the requested length; an empty peer key throws |
| Zrle.ZRLEDecoder.DecodePaletteTile | crates/urc-web/static/novnc/core/decoders/zrle.js:95-125 | Succeeds exactly when the palette and th * ceil(tw * bpp / 8) index bytes are there, uses exactly those, and gives every pixel the entry that its own bit field names (RFC 6143, section 7.7.6) |
| Zrle.ZRLEDecoder.DecodePaletteRow | crates/urc-web/static/novnc/core/decoders/zrle.js:104-119 | A row uses its own bytes and fills its own part of the tile |
| Zrle.LengthRoundTrip | crates/urc-web/static/novnc/core/decoders/zrle.js:176-184 | Reading inverts the 255-continued length code for every length from one up |
| Zrle.LengthCodeIsOnly | crates/urc-web/static/novnc/core/decoders/zrle.js:176-184 | No other bytes read as the same length |
| Zrle.ZRLEDecoder.ReadRLELength | crates/urc-web/static/novnc/core/decoders/zrle.js:176-184 | The loop ends on every input and reads that length, or throws when the data ends |
| Zrle.TileRoundTrip | crates/urc-web/static/novnc/core/decoders/zrle.js:127-142 | Every tile comes back from its plain run-length encoding |
| Zrle.PlainRoundTrip | crates/urc-web/static/novnc/core/decoders/zrle.js:127-142 | So does it from any other division into runs |
| Zrle.PaletteRoundTrip | crates/urc-web/static/novnc/core/decoders/zrle.js:144-174 | Every division of a tile into palette runs decodes to the tile |
| Zrle.ZRLEDecoder.DecodeRLETile | crates/urc-web/static/novnc/core/decoders/zrle.js:127-142 | Throws exactly when the runs are incomplete; otherwise the tile holds their pixels, a run past the end included |
| Zrle.ZRLEDecoder.DecodeRLEPaletteTile | crates/urc-web/static/novnc/core/decoders/zrle.js:144-174 | Throws exactly when the palette or the runs are incomplete, an index is above the palette's size or a run leaves the tile; otherwise the tile holds their pixels |
| Zrle.IndexAcceptedExactlyWhen | crates/urc-web/static/novnc/core/decoders/zrle.js:158-160 | An accepted run, plain or counted, names an entry of its palette if and only if its index is not the palette's size |
| Zrle.OwnColorsExactlyWhen | crates/urc-web/static/novnc/core/decoders/zrle.js:144-174 | An accepted tile shows only colours of its palette, whatever is behind the palette in the buffer, if and only if no run's index is the palette's size |
| Zrle.StaleEntryShown | crates/urc-web/static/novnc/core/decoders/zrle.js:158-160 | It happens: two bytes paint three pixels with a fourth entry of a palette of three |
| Zrle.PackedOwnColorsExactlyWhen | crates/urc-web/static/novnc/core/decoders/zrle.js:95-125 | A packed-palette tile, whose indices nothing checks, shows only colours of its palette, whatever is behind it in the buffer, if and only if every index is below the palette's size |
| Zrle.FullPaletteIsNamed | crates/urc-web/static/novnc/core/decoders/zrle.js:73-81 | For palettes of two, four and sixteen colours that is always so |
| Zrle.ZRLEDecoder.ReadPixels | crates/urc-web/static/novnc/core/decoders/zrle.js:83-93 | Exactly three bytes a pixel, made opaque; the rest of the buffer keeps earlier pixels |
| Zrle.TilesPartition | crates/urc-web/static/novnc/core/decoders/zrle.js:39-43 | The tiles are disjoint and cover the rectangle: a pixel is in the tile of its column and row only |
| ZrleTiles.TilesAreShown | crates/urc-web/static/novnc/core/decoders/zrle.js:39-72 | For every rectangle and every list of tiles (raw, one colour, packed palette of 2 to 16 colours, runs, palette runs), decoding their bytes reads exactly those and gives each tile's own pixels at its own place |
| ZrleTiles.TileIsShown | crates/urc-web/static/novnc/core/decoders/zrle.js:45-66 | Each subencoding leads to the pixels of its kind of tile, whatever the pixel buffer held before |
| Zrle.TilesArranged | crates/urc-web/static/novnc/core/decoders/zrle.js:39-43 | The pieces of a decoded rectangle come row by row, each with its own tile's place and size |
| Zrle.EveryPixelInOnePiece | crates/urc-web/static/novnc/core/decoders/zrle.js:39-43 | Every pixel of the rectangle is in one piece, that of its column and row, and in no other |
| Zrle.ZRLEDecoder.DecodeTile | crates/urc-web/static/novnc/core/decoders/zrle.js:45-66 | Decodes exactly the tiles that have a meaning under their subencoding, and throws otherwise; takes the tile's bytes and no more, leaves the pixel buffer that the next tile finds, and draws every pixel |
| Zrle.ZRLEDecoder.DecodeRect | crates/urc-web/static/novnc/core/decoders/zrle.js:24-71 | Waits if and only if the length or some of the data is missing, keeping a length that was read; then takes exactly the data off the queue, throws if and only if some tile has no meaning, and otherwise draws one output for each tile with that tile's pixels |
| Zrle.WaitResumes | crates/urc-web/static/novnc/core/decoders/zrle.js:24-36 | A call after a waiting one waits for, and takes, what a first call on all the bytes would |
| Tight.GradientInverts | crates/urc-web/static/novnc/core/decoders/tight.js:313-350 | Residuals of any opaque RGB image against the clamped left + upper - upperleft prediction, modulo 256, decode to that image |
| Tight.DecodedExactlyWhen | crates/urc-web/static/novnc/core/decoders/tight.js:313-350 | An image decodes from data if and only if it is opaque and the data is its own residuals: decoding and encoding are inverse both ways |
| Tight.DecodedFront | crates/urc-web/static/novnc/core/decoders/tight.js:313-350 | No two images decode from the same data |
| Tight.Gradient | crates/urc-web/static/novnc/core/decoders/tight.js:313-350 | The two loops over flat arrays with their three small buffers produce that image |
| Tight.MonoRect | crates/urc-web/static/novnc/core/decoders/tight.js:239-270 | Every pixel of a two-colour rectangle is the entry that its own bit names, rows padded to bytes, widths not divisible by 8 included |
| Tight.PaletteRect | crates/urc-web/static/novnc/core/decoders/tight.js:272-285 | Every pixel of an indexed rectangle is the entry its byte names, and a pixel without a byte is opaque black |
| Tight.CopyRect | crates/urc-web/static/novnc/core/decoders/tight.js:143-179 | Three bytes a pixel, made opaque |
| Tight.IndexedDataCoversExactlyWhen | crates/urc-web/static/novnc/core/decoders/tight.js:181-237 | The data of a rectangle drawn from byte indices covers its area if and only if it has more than one colour, is at most one pixel wide or has no height |
| Tight.OwnColorsExactlyWhen | crates/urc-web/static/novnc/core/decoders/tight.js:272-285 | An indexed rectangle shows only colours of its palette, whatever earlier rectangles left behind it, if and only if every pixel has a byte below the number of colours |
| TightRects.RectIsDrawn | crates/urc-web/static/novnc/core/decoders/tight.js:28-237 | For every rectangle (fill, JPEG, copied with the filter implicit or named, palette, gradient; any stream and resets; data sent as they are or compressed), decoding its bytes finishes, leaves what follows, and makes exactly its drawing; exactly the streams it names are emptied, and its compressed data goes to its own stream and to no other |
| TightStream.StepSound | crates/urc-web/static/novnc/core/decoders/tight.js:28-237 | Every step keeps a palette of at most 256 colours in its buffer |
| TightStream.DrawnFits | crates/urc-web/static/novnc/core/decoders/tight.js:143-237 | Whatever data the filters are handed has the length that the filter, the palette and the area call for |
| TightStream.Render | crates/urc-web/static/novnc/core/decoders/tight.js:143-350 | For all that is handed to them, the filters give every pixel: copied, named by its bit or byte, or predicted |
| TightStream.PaletteIsWholeExactlyWhen | crates/urc-web/static/novnc/core/decoders/tight.js:181-237 | Every pixel of a palette rectangle has a bit or byte that names it if and only if the palette does not have one colour or the rectangle is one pixel wide |
| Tight.LengthRoundTrip | crates/urc-web/static/novnc/core/decoders/tight.js:357-375 | Every length up to 22 bits comes back from its one to three byte code |
| Tight.ReadsExactlyWhen | crates/urc-web/static/novnc/core/decoders/tight.js:357-375 | A complete code with its data is left unread if and only if both are shorter than three bytes |
| TightStream.RunResumes | crates/urc-web/static/novnc/core/decoders/tight.js:28-72 | A call that had to wait goes on where it stopped, at every cut, for every filter and any behaviour of zlib |
| TightStream.SplitDoesNotMatter | crates/urc-web/static/novnc/core/decoders/tight.js:28-141 | However a rectangle's bytes are split into messages, the decoder ends in the same state with the same drawing, which `TightRects.RectIsDrawn` tells from the rectangle |
| TightStream.StepStable | crates/urc-web/static/novnc/core/decoders/tight.js:28-141 | Later bytes do not change a piece that could be read |
| TightStream.PaletteClearedExactlyWhen | crates/urc-web/static/novnc/core/decoders/tight.js:181-237 | A palette rectangle clears its colours when done if and only if it has an area |
| TightStream.NextPaletteIsData | crates/urc-web/static/novnc/core/decoders/tight.js:181-237 | With two colours left over, the next palette rectangle takes its own colour count for pixel data |
| Keyboard.RunTracked | crates/urc-web/static/novnc/core/input/keyboard.js:39-60 | After every run of key, blur and timeout events, `_keyDownList` is exactly the keys that the emitted events leave down, with their keysyms |
| Keyboard.EventsAlternate | crates/urc-web/static/novnc/core/input/keyboard.js:39-60 | In every run each code's emitted events alternate, beginning with a press, and each release carries the keysym of its press |
| Keyboard.HeldBackFate | crates/urc-web/static/novnc/core/input/keyboard.js:105-127 | In every run a held-back ControlLeft stays held back until the next key event or timeout, which drops it exactly for an AltRight pressed less than 50 ms after it and otherwise sends it first |
| Keyboard.AltGrIsOnePress | crates/urc-web/static/novnc/core/input/keyboard.js:114-123 | A merged AltGr reaches the receiver as one press of AltRight, a fresh one with the keysym in the list if it was down, and without ControlLeft |
| Keyboard.RepeatIsFreshPress | tests/keyboard-repeat.mjs:22-38 | A client's repeat of a held key is sent as a release and a fresh press with the same keysym, and no other key changes |
| Keyboard.BlurReleasesAll | crates/urc-web/static/novnc/core/input/keyboard.js:264-270 | A loss of focus leaves no key down |
| Keyboard.BlurIsFinalExactlyWhen | crates/urc-web/static/novnc/core/input/keyboard.js:258-270 | After a loss of focus all keys stay up if and only if no ControlLeft was held back, for the timer goes on |
| Keyboard.ControlPressedAfterBlur | crates/urc-web/static/novnc/core/input/keyboard.js:258-270 | That case happens: ControlLeft, loss of focus and timeout leave ControlLeft down |
| Keyboard.Keyboard.HandleDown | crates/urc-web/static/novnc/core/input/keyboard.js:93-218 | The handler's branches, with the invariants kept |
| Keyboard.Keyboard.HandleUp | crates/urc-web/static/novnc/core/input/keyboard.js:220-256 | The same for releases, with the Shift correction on Windows; `KeyboardInputs.KeyUpDoes` says which events that is |
| KeyboardInputs.UpIsUp | crates/urc-web/static/novnc/core/input/keyboard.js:93-270 | Over every run, for every code: a key whose last input is its key-up, or that had none, is not down at the receiver, nor is ControlLeft then held back |
| KeyboardInputs.DownExactlyWhen | crates/urc-web/static/novnc/core/input/keyboard.js:93-270 | Over every run, an ordinary key is down if and only if it was pressed since it was last let go by a key-up of its own, the other Shift's on Windows or a loss of focus, and then with the keysym that the first press since called for |
| KeyboardInputs.ControlExactly | crates/urc-web/static/novnc/core/input/keyboard.js:103-262 | Over every run on Windows, ControlLeft is up, held back or down exactly as a three-state account of the inputs says |
| KeyboardInputs.AppleCapsLockIsUp | crates/urc-web/static/novnc/core/input/keyboard.js:182-192 | Over every run on Apple's platforms CapsLock is never down: it is pressed and released at once |
| KeyboardInputs.KeyDownDoes | crates/urc-web/static/novnc/core/input/keyboard.js:93-218 | A key-down emits exactly what input and platform call for: a held-back ControlLeft first unless it belongs to an AltGr, then nothing, a press and a release, or a press of its own key, with the keysym held or called for; no other key changes |
| KeyboardInputs.PlainPress | crates/urc-web/static/novnc/core/input/keyboard.js:217 | A plain key-down of a key that is up is one press, with the keysym that the input and the platform call for |
| KeyboardInputs.KeyUpDoes | crates/urc-web/static/novnc/core/input/keyboard.js:220-256 | A key-up of a key that is down emits exactly one release, with the keysym of its press; only a held-back ControlLeft goes out before it, and on Windows the other Shift's release after it; no other key changes |
| KeyboardInputs.BlurDoes | crates/urc-web/static/novnc/core/input/keyboard.js:264-270 | A loss of focus releases every key that is down, once each, in the order in which they went down |
| Keyboard.Keyboard.AllKeysUp | crates/urc-web/static/novnc/core/input/keyboard.js:264-270 | Releases every key in the order in which it went down |
| Keyboard.Keyboard.SendKeyEvent | crates/urc-web/static/novnc/core/input/keyboard.js:39-60 | The list and the events change together |
| Lifecycle.RunKept | crates/urc-web/static/novnc/core/rfb.js:833-925 | In every run the disconnect timer is set exactly while disconnecting, at most one connect and one disconnect event are dispatched, and the disconnect event is the last |
| Lifecycle.OnlyForward | crates/urc-web/static/novnc/core/rfb.js:840-881 | Between any two points of a run the state moves only forward, and nothing is dispatched after the disconnect event |
| Lifecycle.FailureDisconnects | crates/urc-web/static/novnc/core/rfb.js:932-953 | Any failure after the start ends the connection at once, and not cleanly |
| Lifecycle.NoticeIsTrue | crates/urc-web/static/novnc/core/rfb.js:918-922 | The disconnect event calls the end clean if and only if no input up to it was a failure |
| Lifecycle.DisconnectingEnds | crates/urc-web/static/novnc/core/rfb.js:909-916 | Whichever comes first, the socket's close or the timer, ends a disconnecting object |
| Lifecycle.LeadsThere | crates/urc-web/static/novnc/core/rfb.js:833-953 | Every input leads where the design says: a finished handshake connects, with one connect event, and a disconnect by the user before the end starts the timer |
| Lifecycle.ConnectionRuns | crates/urc-web/static/novnc/core/rfb.js:833-925 | A whole connection: opened, initialised, ended by the user, and closed or given up on, with one connect event and one clean disconnect event |
| Lifecycle.Connection.UpdateConnectionState | crates/urc-web/static/novnc/core/rfb.js:833-925 | The guards let exactly the proper transitions through |
| Lifecycle.Connection.HandleClose | crates/urc-web/static/novnc/core/rfb.js:648-683 | A close ends every started connection |
| Lifecycle.Connection.TimedOut | crates/urc-web/static/novnc/core/rfb.js:913-916 | The timeout always reaches the permanent state |
| Relay.RunKept | crates/urc-coordinator/src/relay.rs:44-107 | In every interleaving of any number of legs: slots and looked-up peers are of the right session and side, and each flow between two legs is a segment of what its sender sent |
| Relay.DeliveredIsSegment | crates/urc-coordinator/src/relay.rs:61-102 | What a leg was written from a given peer is an in-order, gap-free, duplicate-free segment of what that peer sent, beginning at the leg's registration, whatever other legs do |
| Relay.DeliveredFromPeer | crates/urc-coordinator/src/relay.rs:86-102 | No message crosses sessions or comes back to its own side |
| Relay.OnlyPeer | crates/urc-coordinator/src/relay.rs:86-102 | With one leg on the other side that segment is everything relayed to the leg, keepalive pings aside |
| Relay.NothingLost | crates/urc-coordinator/src/relay.rs:61-102 | While the leg is in its slot and its forwarder runs, written, queued and about-to-be-sent messages are all of the peer's messages since registration |
| Relay.FlowEnds | crates/urc-coordinator/src/relay.rs:87-106 | Out of its slot a leg is directed nothing more: the segment ends at session removal |
| Relay.NeverBack | crates/urc-coordinator/src/relay.rs:48-58 | A leg that lost its slot never gets it back |
| Relay.LateWrite | crates/urc-coordinator/src/relay.rs:104-106 | The abort does not wait: a leg's forwarder may still write queued messages after its session was removed, up to its stop and not after |
| Relay.HearsExactlyWhen | crates/urc-coordinator/src/relay.rs:48-58 | From the moment a leg registers there is a run in which it is written a message of its peer if and only if its session exists at that moment |
| Relay.AttachedTooEarly | crates/urc-coordinator/src/relay.rs:48-58 | A leg that attached while its session did not exist is written nothing but pings |
| Relay.EarlyAgentIsDeaf | crates/urc-coordinator/src/main.rs:161-170 | The order in which the coordinator announces and creates a session allows a run with both legs attached in which the client's message reaches nobody |
| Relay.RelayHub.Attach | crates/urc-coordinator/src/relay.rs:48-58 | Registration puts the leg's sender into its side's slot if the session exists |
| Relay.RelayHub.LookUpPeer | crates/urc-coordinator/src/relay.rs:87-98 | Under the locks: the other side's sender, or the end of the leg when the session is gone |
| Relay.RelayHub.SendToPeer | crates/urc-coordinator/src/relay.rs:99-101 | The message goes to the channel that was looked up; a closed one swallows it |
| Relay.RelayHub.Detach | crates/urc-coordinator/src/relay.rs:104-106 | The end of a leg tells its tasks to stop and removes the session for both sides |
| Relay.RelayHub.CreateSession | crates/urc-coordinator/src/relay.rs:26-34 | A new session has both slots empty |

## Left out

- Websock.Websock.SQpushBytes: requires an open channel or a push that fits, because on a closed channel with a full buffer the loop of `websock.js:202-215` makes no progress.
- Websock.SendQueueKeepsOrder: byte-array pushes have to fit the room left, the exact condition of `Websock.PushDeliversExactlyWhenItFits`.
- Display.Display.constructor: the visible canvas has no size at first, as `rfb.js:223-224` makes it; another size would leave the viewport outside the empty framebuffer until the first resize.
- Display.ChangeSizeFits: sizes come from the page's layout and are not negative.
- Server.SessionIsShown: a Hextile tile uses only colours that were sent before it, and a cut text, fence or XVP message is one that the client can answer; what it does on others is stated by `Chunking` and `Rfb`.
- TightRects.RectIsDrawn: a palette rectangle needs the palette of the one before to be used up, the exact condition of `TightStream.PaletteClearedExactlyWhen`; and a length is read only when three bytes are there (`Tight.ReadsExactlyWhen`).
- KeyboardInputs.DownExactlyWhen: keys that Apple's platforms or Windows never release are excluded; they are pressed and released at once (`KeyboardInputs.KeyDownDoes`).
- DesCipher.DESCBCCipher.Encrypt: the vector has eight bytes; the source's inner loop is written for that.
- Chunking.ChunkingIndependence: has no limit on the unread bytes; `Rfb.RFB.ReceiveAll` states it for the object, on the messages its queue takes.
- Rfb.RFB.FramebufferUpdate: does not pause while the display flushes its queue (`rfb.js:2503-2512`); `Pacing` has the pauses, on the state machine.
- Rfb.RFB.HandleRect: stops at Tight, ZRLE, JPEG, TightPNG and VMware cursor rectangles.
- Rfb.RFB.HandleServerCutText: stops at extended clipboard messages.
- Rfb.RFB.HandleCursor: the conversion of pixels and mask to RGBA belongs to the cursor, which is left out.
- Rfb.RFB.HandleDesktopName: the name is its bytes; UTF-8 decoding is left out.
- Rfb.RFB.HandleExtendedDesktopSize: that a resize is requested is recorded, the size that the page's layout asks for is not.
- Websock.Websock.RQwait: the error for giving back more bytes than were read is excluded; no caller does that.
- Websock.Websock.SQpush32: requires an open channel or room for the bytes; on a closed channel with a full buffer the source drops bytes past the buffer's end and counts them all the same.
- Zrle.ZRLEDecoder.DecodeRect: what zlib makes of the data is a parameter of the call.
- Keyboard.AltGrIsOnePress: an AltRight in the list whose keysym Windows never releases is excluded; such keys are released at once and never stay in the list.
- DisplayRuns.QueueOnlyDelays: for a resize that meets a waiting queue only the worst case is exact (`DisplayRuns.ResizeCommutesExactlyWhen`); with harmless actions queued such a run can still agree.
- Tight, ZRLE, JPEG and TightPNG rectangles, the VMware cursor and the extended clipboard inside the message loop: the client's state machine stops there; the Tight and ZRLE decoders are modelled on their own.
- Replies as wire bytes: the message loop records what is sent, the send queue is proved on its own.
- Replies after a failure: the socket is closing, so they are not recorded.
- The aliasing of `rQshiftBytes(len, false)`: the Raw and Hextile decoders write alpha bytes into consumed parts of the receive queue, which nothing reads again.
- The handshake and the security types before the connected state: branches around foreign cryptography.
- Partly transparent pixels: canvas data is opaque or clear, as every decoder's data is.
- Images: base64 text and decoding; an image is a pixel block that becomes complete and later has its load event.
- `_rescale`, `autoscale`, `absX` and `absY`: floating-point scaling of the element.
- The Tight decoder's `decodeRect` as an object: its state between calls is modelled on values, its pixel loops on arrays.
- The scratch buffer of `_monoRect` and `_paletteRect`: a buffer of the size needed is allocated.
- Integers below zero in `bigIntToU8Array`: no caller has one.
- Exceptions inside an event handler of the application.
- Fairness and liveness of the relay: a step may be delayed for ever, so delivery is a safety property.
- The gesture handler, the cursor, pointer capture, the user interface, key tables, process supervision, TLS, proxies, HTTP routes, installers and the Android application.
