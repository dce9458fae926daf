/**
 * The connected client as a state machine over its unread bytes. `Step` is the smallest
 * amount of work the message loop can do: read one message or one piece of a rectangle, or
 * wait. Everything the imperative client in Rfb.dfy does is a run of such steps.
 */
module Client {
  import opened Bytes
  import opened Decoders
  import opened Hextile
  import opened Rects

  /** Settings that do not change while messages are handled. */
  datatype Config = Config(viewOnly: bool, resizeSession: bool, depth8: bool)

  /** `failed`: the connection was torn down by an error; `halted`: the message loop has
      also returned, or met a message this model does not follow. */
  datatype State = State(
    rects: nat, rect: Rect, encoding: Option<int>,
    lines: nat, subrects: nat, hex: Hex,
    fbWidth: nat, fbHeight: nat,
    supportsFence: bool, supportsContinuous: bool, enabledContinuous: bool,
    supportsSetDesktopSize: bool, screenID: nat, screenFlags: nat,
    qemuExtKey: bool, xvpVer: nat, locks: Option<(bool, bool)>,
    failed: bool, halted: bool)

  datatype StepResult = Blocked | Next(c: State, n: nat, out: seq<Output>)

  const RAW := 0
  const COPYRECT := 1
  const RRE := 2
  const HEXTILE := 5
  const CURSOR := -239
  const DESKTOP_SIZE := -223
  const LAST_RECT := -224
  const QEMU_EXT_KEY := -258
  const QEMU_LED := -261
  const DESKTOP_NAME := -307
  const EXTENDED_DESKTOP_SIZE := -308

  /** Encodings the source decodes and this model does not: Tight, ZRLE, TightPNG, JPEG and
      the VMware cursor. */
  predicate Foreign(e: int) { e == 7 || e == 16 || e == -260 || e == 21 || e == 0x574d5664 }

  /** Pseudo rectangles: something other than pixels. */
  predicate Pseudo(e: int) {
    e in {LAST_RECT, CURSOR, QEMU_EXT_KEY, DESKTOP_NAME, DESKTOP_SIZE, EXTENDED_DESKTOP_SIZE, QEMU_LED}
  }

  /** Messages to the server leave only while the connection is up: tearing it down closes
      the socket first. */
  function Send(c: State, o: Output): seq<Output> {
    if c.failed then [] else [o]
  }

  /** `_fail`: the first failure dispatches the one disconnect event. */
  function Fail(c: State, n: nat, halt: bool): StepResult {
    Next(c.(failed := true, halted := halt), n, Send(c, Disconnect))
  }

  /** The request that follows a finished framebuffer update. */
  function Request(c: State): seq<Output> {
    if c.enabledContinuous then [] else Send(c, FbUpdateRequest(c.fbWidth, c.fbHeight))
  }

  /** A rectangle is done; after the last one the frame is shown and the next requested. */
  function EndRect(c: State): State {
    c.(rects := if c.rects > 0 then c.rects - 1 else 0, encoding := None)
  }

  function EndRectOutput(c: State): seq<Output> {
    if EndRect(c).rects == 0 then [Flip] + Request(c) else []
  }

  function Complete(c: State, n: nat, out: seq<Output>): StepResult {
    Next(EndRect(c), n, out + EndRectOutput(c))
  }

  function Resize(c: State, w: nat, h: nat): State {
    c.(fbWidth := w, fbHeight := h)
  }

  function ResizeOutput(c: State, w: nat, h: nat): seq<Output> {
    [ResizeDisplay(w, h)] + if c.enabledContinuous then Send(c, EnableContinuousUpdates(w, h)) else []
  }

  // ---------------------------------------------------------------- messages

  function CutText(cfg: Config, c: State, q: seq<byte>): StepResult
    requires |q| >= 1
  {
    if |q| < 8 then Blocked
    else
      var length := Signed32(U32(q[4..]));
      var size := if length < 0 then -length else length;
      if |q| < 8 + size then Blocked
      else if length < 0 then Next(c.(halted := true), 8, [Unmodelled])
      else Next(c, 8 + size, if cfg.viewOnly then [] else [Clipboard(q[8..8 + size])])
  }

  function Fence(c: State, q: seq<byte>): StepResult
    requires |q| >= 1
  {
    if |q| < 9 then Blocked
    else
      var flags, length: nat := U32(q[4..]), q[8];
      if |q| < 9 + length then Blocked
      else
        var kept := if length > 64 then 64 else length;
        var c' := c.(supportsFence := true);
        if flags < 0x8000_0000 then Fail(c', 9 + kept, true)
        else Next(c', 9 + kept, Send(c, ClientFence(flags % 4, q[9..9 + kept])))
  }

  /** A fence is read to its end exactly when its payload has at most 64 bytes; the rest of a
      longer one is taken for messages. */
  lemma FenceReadExactlyWhen(c: State, q: seq<byte>)
    requires |q| >= 1 && Fence(c, q).Next?
    ensures Fence(c, q).n == 9 + q[8] as int <==> q[8] <= 64
  {
    hide U32;
  }

  function Xvp(c: State, q: seq<byte>): StepResult
    requires |q| >= 1
  {
    if |q| < 4 then Blocked
    else if q[3] == 0 then Next(c, 4, [])
    else if q[3] == 1 then Next(c.(xvpVer := q[2]), 4, [PowerCapability])
    else Fail(c, 4, c.halted)
  }

  function EndOfContinuousUpdates(c: State): StepResult {
    var first := !c.supportsContinuous;
    Next(c.(supportsContinuous := true, enabledContinuous := first), 1,
         if first then Send(c, EnableContinuousUpdates(c.fbWidth, c.fbHeight)) else [])
  }

  function UpdateHeader(c: State, q: seq<byte>): StepResult
    requires |q| >= 1
  {
    if |q| < 4 then Blocked
    else
      var rects := U16(q[2..]);
      Next(c.(rects := rects), 4, if rects == 0 then [Flip] + Request(c) else [])
  }

  function Message(cfg: Config, c: State, q: seq<byte>): StepResult
    requires |q| >= 1
  {
    if q[0] == 0 then UpdateHeader(c, q)
    else if q[0] == 1 then Fail(c, 1, true)
    else if q[0] == 2 then Next(c, 1, [Bell])
    else if q[0] == 3 then CutText(cfg, c, q)
    else if q[0] == 150 then EndOfContinuousUpdates(c)
    else if q[0] == 248 then Fence(c, q)
    else if q[0] == 250 then Xvp(c, q)
    else Fail(c, 1, c.halted)
  }

  // ---------------------------------------------------------------- rectangles

  function RectHeader(c: State, q: seq<byte>): StepResult {
    if |q| < 12 then Blocked
    else
      Next(c.(rect := Rect(U16(q), U16(q[2..]), U16(q[4..]), U16(q[6..])),
              encoding := Some(Signed32(U32(q[8..])))), 12, [])
  }

  function PixelBytes(w: nat, h: nat): nat { w * h * 4 }

  /** One bit a pixel, each row padded to a byte. */
  function MaskBytes(w: nat, h: nat): nat { (w + 7) / 8 * h }

  function CursorRect(c: State, q: seq<byte>): StepResult {
    var w, h := c.rect.w, c.rect.h;
    var pixels, mask := PixelBytes(w, h), MaskBytes(w, h);
    if |q| < pixels + mask then Blocked
    else Complete(c, pixels + mask,
                  [Cursor(c.rect.x, c.rect.y, w, h, q[..pixels], q[pixels..pixels + mask])])
  }

  function NameRect(c: State, q: seq<byte>): StepResult {
    if |q| < 4 then Blocked
    else
      var length := U32(q);
      if |q| < 4 + length then Blocked
      else Complete(c, 4 + length, [DesktopName(q[4..4 + length])])
  }

  function LedRect(c: State, q: seq<byte>): StepResult {
    if |q| < 1 then Blocked
    else Complete(c.(locks := Some((Bit(q[0], 1), Bit(q[0], 2)))), 1, [])
  }

  /** Bytes of a screen layout: a header and sixteen for each screen. */
  function ScreensEnd(screens: nat): nat { 4 + 16 * screens }

  /** The server may refuse a resize this client asked for; the layout is noted all the same. */
  predicate ResizeRefused(c: State) { c.rect.x == 1 && c.rect.y != 0 }

  function ScreenLayout(c: State, q: seq<byte>): State
    requires |q| >= 4 && |q| >= ScreensEnd(q[0])
  {
    var c1 := if q[0] == 0 then c else c.(screenID := U32(q[4..]), screenFlags := U32(q[16..]));
    var c2 := c1.(supportsSetDesktopSize := true);
    if ResizeRefused(c) then c2 else Resize(c2, c.rect.w, c.rect.h)
  }

  function ScreenLayoutOutput(cfg: Config, c: State, c': State): seq<Output> {
    var out := if ResizeRefused(c) then [] else ResizeOutput(c, c.rect.w, c.rect.h);
    var ask := !c.supportsSetDesktopSize && cfg.resizeSession && !cfg.viewOnly;
    out + if ask then Send(c, SetDesktopSize(c'.screenID, c'.screenFlags)) else []
  }

  function ExtendedSize(cfg: Config, c: State, q: seq<byte>): StepResult {
    if |q| < 4 || |q| < ScreensEnd(q[0]) then Blocked
    else
      var c' := ScreenLayout(c, q);
      Complete(c', ScreensEnd(q[0]), ScreenLayoutOutput(cfg, c, c'))
  }

  function RawRect(cfg: Config, c: State, q: seq<byte>): StepResult {
    match RawStep(c.lines, c.rect, cfg.depth8, q)
    case Wait => Blocked
    case More(s, n, out) => Next(c.(lines := s), n, out)
    case Done(s, n, out) => Complete(c.(lines := s), n, out)
    case Throw(s, n, out) => Fail(c.(lines := s), n, true)
  }

  function CopyRect(c: State, q: seq<byte>): StepResult {
    match CopyRectStep(c.rect, q)
    case Wait => Blocked
    case More(s, n, out) => Next(c, n, out)
    case Done(s, n, out) => Complete(c, n, out)
    case Throw(s, n, out) => Fail(c, n, true)
  }

  function RreRect(c: State, q: seq<byte>): StepResult {
    match RreStep(c.subrects, c.rect, q)
    case Wait => Blocked
    case More(s, n, out) => Next(c.(subrects := s), n, out)
    case Done(s, n, out) => Complete(c.(subrects := s), n, out)
    case Throw(s, n, out) => Fail(c.(subrects := s), n, true)
  }

  function HextileRect(c: State, q: seq<byte>): StepResult {
    match HexStep(c.hex, c.rect, q)
    case Wait => Blocked
    case More(s, n, out) => Next(c.(hex := s), n, out)
    case Done(s, n, out) => Complete(c.(hex := s), n, out)
    case Throw(s, n, out) => Fail(c.(hex := s), n, true)
  }

  function RectBody(cfg: Config, c: State, e: int, q: seq<byte>): StepResult {
    if e == LAST_RECT then Complete(c.(rects := 1), 0, [])
    else if e == CURSOR then CursorRect(c, q)
    else if e == QEMU_EXT_KEY then Complete(c.(qemuExtKey := true), 0, [])
    else if e == DESKTOP_NAME then NameRect(c, q)
    else if e == DESKTOP_SIZE then Complete(Resize(c, c.rect.w, c.rect.h), 0, ResizeOutput(c, c.rect.w, c.rect.h))
    else if e == EXTENDED_DESKTOP_SIZE then ExtendedSize(cfg, c, q)
    else if e == QEMU_LED then LedRect(c, q)
    else if e == RAW then RawRect(cfg, c, q)
    else if e == COPYRECT then CopyRect(c, q)
    else if e == RRE then RreRect(c, q)
    else if e == HEXTILE then HextileRect(c, q)
    else if Foreign(e) then Next(c.(halted := true), 0, [Unmodelled])
    else Fail(c, 0, true)
  }

  // ---------------------------------------------------------------- runs

  function Step(cfg: Config, c: State, q: seq<byte>): StepResult {
    if c.halted then Blocked
    else if c.rects == 0 then if |q| < 1 then Blocked else Message(cfg, c, q)
    else if c.encoding.None? then RectHeader(c, q)
    else RectBody(cfg, c, c.encoding.value, q)
  }

  /** What a step that reads nothing uses up. */
  function Rank(c: State): nat {
    if c.halted then 0
    else if c.rects == 0 || c.encoding.None? then 1
    else if c.encoding == Some(RAW) && c.lines == 0 then 3
    else if c.encoding == Some(HEXTILE) && c.hex.tiles == 0 then 3
    else 2
  }

  /** Steps read only what is there, and a step that reads nothing lowers the rank: the
      message loop terminates. */
  lemma StepProgress(cfg: Config, c: State, q: seq<byte>)
    requires Step(cfg, c, q).Next?
    ensures var r := Step(cfg, c, q);
            r.n <= |q| && (r.n == 0 ==> Rank(r.c) < Rank(c))
  {
    hide Message, RectHeader, RectBody;
    if c.rects == 0 {
      MessageProgress(cfg, c, q);
    } else if c.encoding.None? {
      HeaderProgress(c, q);
    } else {
      BodyProgress(cfg, c, c.encoding.value, q);
    }
  }

  lemma MessageProgress(cfg: Config, c: State, q: seq<byte>)
    requires |q| >= 1 && Message(cfg, c, q).Next?
    ensures 0 < Message(cfg, c, q).n <= |q|
  {
  }

  lemma HeaderProgress(c: State, q: seq<byte>)
    requires RectHeader(c, q).Next?
    ensures 0 < RectHeader(c, q).n <= |q|
  {
  }

  lemma BodyProgress(cfg: Config, c: State, e: int, q: seq<byte>)
    requires c.rects > 0 && c.encoding == Some(e) && !c.halted && RectBody(cfg, c, e, q).Next?
    ensures var r := RectBody(cfg, c, e, q);
            r.n <= |q| && (r.n == 0 ==> Rank(r.c) < Rank(c))
  {
    hide CursorRect, NameRect, ExtendedSize, LedRect, RawRect, CopyRect, RreRect, HextileRect;
    hide EndRectOutput, ResizeOutput, Foreign;
    if e == RAW {
      RawProgress(cfg, c, q);
    } else if e == HEXTILE {
      HextileProgress(c, q);
    } else if e == RRE || e == COPYRECT {
      RreProgress(c, q);
    } else if e < 0 {
      PseudoProgress(cfg, c, q);
    }
  }

  lemma RawProgress(cfg: Config, c: State, q: seq<byte>)
    requires c.rects > 0 && c.encoding == Some(RAW) && !c.halted && RawRect(cfg, c, q).Next?
    ensures var r := RawRect(cfg, c, q);
            r.n <= |q| && (r.n == 0 ==> Rank(r.c) < Rank(c))
  {
    hide RawStep, EndRectOutput;
  }

  lemma HextileProgress(c: State, q: seq<byte>)
    requires c.rects > 0 && c.encoding == Some(HEXTILE) && !c.halted && HextileRect(c, q).Next?
    ensures var r := HextileRect(c, q);
            r.n <= |q| && (r.n == 0 ==> Rank(r.c) < Rank(c))
  {
    hide HexStep, EndRectOutput;
  }

  lemma RreProgress(c: State, q: seq<byte>)
    ensures RreRect(c, q).Next? ==> 0 < RreRect(c, q).n <= |q|
    ensures CopyRect(c, q).Next? ==> 0 < CopyRect(c, q).n <= |q|
  {
    hide RreStep, CopyRectStep, EndRectOutput;
  }

  lemma PseudoProgress(cfg: Config, c: State, q: seq<byte>)
    requires c.rects > 0 && c.encoding.Some? && c.encoding.value < 0 && !c.halted
    ensures CursorRect(c, q).Next? ==> CursorRect(c, q).n <= |q| && Rank(CursorRect(c, q).c) < Rank(c)
    ensures NameRect(c, q).Next? ==> 0 < NameRect(c, q).n <= |q|
    ensures LedRect(c, q).Next? ==> 0 < LedRect(c, q).n <= |q|
    ensures ExtendedSize(cfg, c, q).Next? ==> 0 < ExtendedSize(cfg, c, q).n <= |q|
  {
    hide EndRectOutput, ResizeOutput, PixelBytes, MaskBytes, ScreenLayoutOutput;
  }

  datatype Result = Result(c: State, rest: seq<byte>, out: seq<Output>)

  function Prepend(out: seq<Output>, r: Result): Result {
    r.(out := out + r.out)
  }

  /** One activation of the message handler: steps until it waits. */
  function Run(cfg: Config, c: State, q: seq<byte>): Result
    decreases |q|, Rank(c)
  {
    match Step(cfg, c, q)
    case Blocked => Result(c, q, [])
    case Next(c', n, out) =>
      StepProgress(cfg, c, q);
      Prepend(out, Run(cfg, c', q[n..]))
  }
}
