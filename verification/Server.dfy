/**
 * A server's session as a list of messages, with the bytes that the protocol gives them and
 * what each asks the client to do. The theorem is that the client does exactly that, whatever
 * WebSocket messages the bytes arrive in.
 */
module Server {
  import opened Bytes
  import opened Chunking
  import opened Client
  import opened Decoders
  import Hextile
  import opened HextileTiles
  import opened Pictures
  import opened Rects

  type Color = Hextile.Color

  datatype Piece = Piece(color: Color, x: nat, y: nat, w: nat, h: nat)
  datatype Screen = Screen(id: nat, x: nat, y: nat, w: nat, h: nat, flags: nat)

  /** What a rectangle carries: pixels in one of four encodings, or news about something else. */
  datatype Body =
    | Pixels(rows: seq<Row>)
    | Copied(fromX: nat, fromY: nat)
    | Filled(bg: Color, pieces: seq<Piece>)
    | Tiled(tiles: seq<Tile>)
    | Pointer(pixels: seq<byte>, mask: seq<byte>)
    | Title(text: seq<byte>)
    | NewSize
    | Layout(screens: seq<Screen>)
    | KeyEvents
    | Leds(state: byte)

  datatype Carrier = Carrier(r: Rect, body: Body)

  /** An update announces the number of its rectangles, or any larger one and a mark after the last. */
  datatype Message =
    | Update(carriers: seq<Carrier>, announced: nat)
    | RingBell
    | CutText(text: seq<byte>)
    | Fence(flags: nat, payload: seq<byte>)
    | EndOfContinuousUpdates
    | PowerOffer(version: byte)

  /** What the client knows of the session that its answers depend on. */
  datatype Session =
    Session(w: nat, h: nat, continuous: bool, offered: bool, sizeable: bool, screen: (nat, nat), pen: Pen)

  function Begun(w: nat, h: nat): Session { Session(w, h, false, false, false, (0, 0), Pen(None, None, false)) }

  // ---------------------------------------------------------------- bytes

  predicate Short(n: nat) { n < 0x1_0000 }
  predicate Long(n: nat) { n < 0x1_0000_0000 }

  function Two(n: nat): seq<byte>
    requires Short(n)
  {
    [n / 256, n % 256]
  }

  function Four(n: nat): seq<byte>
    requires Long(n)
  {
    [n / 0x100_0000, n / 0x1_0000 % 256, n / 256 % 256, n % 256]
  }

  /** The encodings by their numbers, two's complement on 32 bits. */
  function Code(b: Body): int {
    match b
    case Pixels(_) => 0
    case Copied(_, _) => 1
    case Filled(_, _) => 2
    case Tiled(_) => 5
    case Pointer(_, _) => -239
    case Title(_) => -307
    case NewSize => -223
    case Layout(_) => -308
    case KeyEvents => -258
    case Leds(_) => -261
  }

  const LAST := -224

  function Header(r: Rect, code: int): seq<byte>
    requires Short(r.x) && Short(r.y) && Short(r.w) && Short(r.h)
  {
    Two(r.x) + (Two(r.y) + (Two(r.w) + (Two(r.h) + Four(code % 0x1_0000_0000))))
  }

  predicate PieceFits(p: Piece) { Short(p.x) && Short(p.y) && Short(p.w) && Short(p.h) }

  function PieceSent(p: Piece): seq<byte>
    requires PieceFits(p)
  {
    p.color + (Two(p.x) + (Two(p.y) + (Two(p.w) + Two(p.h))))
  }

  predicate PiecesFit(pieces: seq<Piece>) { forall p | p in pieces :: PieceFits(p) }

  function PiecesSent(pieces: seq<Piece>): seq<byte>
    requires PiecesFit(pieces)
  {
    if |pieces| == 0 then [] else PieceSent(pieces[0]) + PiecesSent(pieces[1..])
  }

  predicate ScreenFits(s: Screen) {
    Long(s.id) && Short(s.x) && Short(s.y) && Short(s.w) && Short(s.h) && Long(s.flags)
  }

  function ScreenSent(s: Screen): seq<byte>
    requires ScreenFits(s)
  {
    Four(s.id) + (Two(s.x) + (Two(s.y) + (Two(s.w) + (Two(s.h) + Four(s.flags)))))
  }

  function ScreensSent(screens: seq<Screen>): seq<byte>
    requires forall s | s in screens :: ScreenFits(s)
  {
    if |screens| == 0 then [] else ScreenSent(screens[0]) + ScreensSent(screens[1..])
  }

  /** What the protocol asks of a rectangle: fields of their width, as much data as the area calls for. */
  predicate Proper(depth8: bool, pen: Pen, c: Carrier) {
    && Short(c.r.x) && Short(c.r.y) && Short(c.r.w) && Short(c.r.h)
    && match c.body
       case Pixels(rows) => Sized(rows, c.r.w, c.r.h) && Sendable(rows, depth8)
       case Copied(x, y) => Short(x) && Short(y)
       case Filled(_, pieces) => Long(|pieces|) && PiecesFit(pieces)
       case Tiled(tiles) => |tiles| == Hextile.TotalTiles(c.r) && TilesGood(c.r, tiles, 0, pen)
       case Pointer(pixels, mask) => |pixels| == c.r.w * c.r.h * 4 && |mask| == (c.r.w + 7) / 8 * c.r.h
       case Title(text) => Long(|text|)
       case Layout(screens) => |screens| < 256 && forall s | s in screens :: ScreenFits(s)
       case _ => true
  }

  function BodySent(depth8: bool, pen: Pen, c: Carrier): seq<byte>
    requires Proper(depth8, pen, c)
  {
    match c.body
    case Pixels(rows) => SentRows(rows, depth8)
    case Copied(x, y) => Two(x) + Two(y)
    case Filled(bg, pieces) => Four(|pieces|) + (bg + PiecesSent(pieces))
    case Tiled(tiles) => TilesSent(c.r, tiles, 0, pen)
    case Pointer(pixels, mask) => pixels + mask
    case Title(text) => Four(|text|) + text
    case NewSize => []
    case Layout(screens) => [|screens|, 0, 0, 0] + ScreensSent(screens)
    case KeyEvents => []
    case Leds(state) => [state]
  }

  function CarrierSent(depth8: bool, pen: Pen, c: Carrier): seq<byte>
    requires Proper(depth8, pen, c)
  {
    Header(c.r, Code(c.body)) + BodySent(depth8, pen, c)
  }

  // ---------------------------------------------------------------- what is asked for

  /** A refused request to resize is answered with the layout as it stays. */
  predicate Refused(r: Rect) { r.x == 1 && r.y != 0 }

  function AfterCarrier(s: Session, c: Carrier): Session {
    match c.body
    case Tiled(tiles) => s.(pen := PenAfterAll(s.pen, tiles, 0))
    case NewSize => s.(w := c.r.w, h := c.r.h)
    case Layout(screens) =>
      var t := if |screens| == 0 then s else s.(screen := (screens[0].id, screens[0].flags));
      if Refused(c.r) then t.(sizeable := true) else t.(sizeable := true, w := c.r.w, h := c.r.h)
    case _ => s
  }

  function Resizing(s: Session, r: Rect): seq<Output> {
    [ResizeDisplay(r.w, r.h)] + if s.continuous then [EnableContinuousUpdates(r.w, r.h)] else []
  }

  function PieceFills(r: Rect, pieces: seq<Piece>): seq<Output> {
    if |pieces| == 0 then []
    else
      var p := pieces[0];
      [FillRect(r.x + p.x, r.y + p.y, p.w, p.h, p.color)] + PieceFills(r, pieces[1..])
  }

  /** The first layout shows that the server can resize: then the client asks for its own size, if it is set to. */
  function LayoutDrawing(cfg: Config, s: Session, r: Rect, after: Session): seq<Output> {
    (if Refused(r) then [] else Resizing(s, r))
    + if !s.sizeable && cfg.resizeSession && !cfg.viewOnly then [SetDesktopSize(after.screen.0, after.screen.1)] else []
  }

  /** The calls that a rectangle asks for, at its own place. */
  function Drawing(cfg: Config, s: Session, c: Carrier): seq<Output>
    requires Proper(cfg.depth8, s.pen, c)
  {
    var r := c.r;
    match c.body
    case Pixels(rows) => RawDrawing(r, rows)
    case Copied(x, y) => if r.w == 0 || r.h == 0 then [] else [CopyImage(x, y, r.x, r.y, r.w, r.h)]
    case Filled(bg, pieces) => [FillRect(r.x, r.y, r.w, r.h, bg)] + PieceFills(r, pieces)
    case Tiled(tiles) => TilesDrawing(r, tiles, 0, s.pen)
    case Pointer(pixels, mask) => [Cursor(r.x, r.y, r.w, r.h, pixels, mask)]
    case Title(text) => [DesktopName(text)]
    case NewSize => Resizing(s, r)
    case Layout(screens) =>
      LayoutDrawing(cfg, s, r, AfterCarrier(s, c))
    case KeyEvents => []
    case Leds(_) => []
  }

  /** The frame is shown, and the next one asked for unless updates come by themselves. */
  function FrameEnd(s: Session): seq<Output> {
    [Flip] + if s.continuous then [] else [FbUpdateRequest(s.w, s.h)]
  }

  predicate AllProper(depth8: bool, s: Session, cs: seq<Carrier>)
    decreases |cs|
  {
    |cs| > 0 ==> Proper(depth8, s.pen, cs[0]) && AllProper(depth8, AfterCarrier(s, cs[0]), cs[1..])
  }

  function CarriersSent(depth8: bool, s: Session, cs: seq<Carrier>): seq<byte>
    requires AllProper(depth8, s, cs)
    decreases |cs|
  {
    if |cs| == 0 then []
    else CarrierSent(depth8, s.pen, cs[0]) + CarriersSent(depth8, AfterCarrier(s, cs[0]), cs[1..])
  }

  function Drawings(cfg: Config, s: Session, cs: seq<Carrier>): seq<Output>
    requires AllProper(cfg.depth8, s, cs)
    decreases |cs|
  {
    if |cs| == 0 then [] else Drawing(cfg, s, cs[0]) + Drawings(cfg, AfterCarrier(s, cs[0]), cs[1..])
  }

  function AfterCarriers(s: Session, cs: seq<Carrier>): Session
    decreases |cs|
  {
    if |cs| == 0 then s else AfterCarriers(AfterCarrier(s, cs[0]), cs[1..])
  }

  predicate Valid(depth8: bool, s: Session, m: Message) {
    match m
    case Update(carriers, announced) => AllProper(depth8, s, carriers) && |carriers| <= announced && Short(announced)
    case CutText(text) => |text| < 0x8000_0000
    case Fence(flags, payload) => 0x8000_0000 <= flags < 0x1_0000_0000 && |payload| <= 64
    case _ => true
  }

  /** The mark after the last rectangle of an update that announced more. */
  function Mark(cs: seq<Carrier>, announced: nat): seq<byte> {
    if announced > |cs| then Header(Rect(0, 0, 0, 0), LAST) else []
  }

  function Encoded(depth8: bool, s: Session, m: Message): seq<byte>
    requires Valid(depth8, s, m)
  {
    match m
    case Update(carriers, announced) =>
      [0, 0] + Two(announced) + (CarriersSent(depth8, s, carriers) + Mark(carriers, announced))
    case RingBell => [2]
    case CutText(text) => [3, 0, 0, 0] + Four(|text|) + text
    case Fence(flags, payload) => [248, 0, 0, 0] + Four(flags) + [|payload|] + payload
    case EndOfContinuousUpdates => [150]
    case PowerOffer(version) => [250, 0, version, 1]
  }

  function Later(s: Session, m: Message): Session {
    match m
    case Update(carriers, _) => AfterCarriers(s, carriers)
    case EndOfContinuousUpdates => s.(offered := true, continuous := !s.offered)
    case _ => s
  }

  function Asked(cfg: Config, s: Session, m: Message): seq<Output>
    requires Valid(cfg.depth8, s, m)
  {
    match m
    case Update(carriers, _) => Drawings(cfg, s, carriers) + FrameEnd(AfterCarriers(s, carriers))
    case RingBell => [Bell]
    case CutText(text) => if cfg.viewOnly then [] else [Clipboard(text)]
    case Fence(flags, payload) => [ClientFence(flags % 4, payload)]
    case EndOfContinuousUpdates => if s.offered then [] else [EnableContinuousUpdates(s.w, s.h)]
    case PowerOffer(_) => [PowerCapability]
  }

  predicate AllValid(depth8: bool, s: Session, ms: seq<Message>)
    decreases |ms|
  {
    |ms| > 0 ==> Valid(depth8, s, ms[0]) && AllValid(depth8, Later(s, ms[0]), ms[1..])
  }

  function Stream(depth8: bool, s: Session, ms: seq<Message>): seq<byte>
    requires AllValid(depth8, s, ms)
    decreases |ms|
  {
    if |ms| == 0 then [] else Encoded(depth8, s, ms[0]) + Stream(depth8, Later(s, ms[0]), ms[1..])
  }

  function AllAsked(cfg: Config, s: Session, ms: seq<Message>): seq<Output>
    requires AllValid(cfg.depth8, s, ms)
    decreases |ms|
  {
    if |ms| == 0 then [] else Asked(cfg, s, ms[0]) + AllAsked(cfg, Later(s, ms[0]), ms[1..])
  }

  // ---------------------------------------------------------------- reading fields

  lemma TwoRead(n: nat, x: seq<byte>)
    requires Short(n)
    ensures U16(Two(n) + x) == n && (Two(n) + x)[2..] == x
  {
  }

  lemma FourRead(n: nat, x: seq<byte>)
    requires Long(n)
    ensures U32(Four(n) + x) == n && (Four(n) + x)[4..] == x
  {
    FourDigits(n);
  }

  lemma FourDigits(n: nat)
    requires Long(n)
    ensures 0x100_0000 * (n / 0x100_0000) + 0x1_0000 * (n / 0x1_0000 % 256) + 0x100 * (n / 256 % 256) + n % 256 == n
  {
    assert n / 256 / 256 == n / 0x1_0000 && n / 0x1_0000 / 256 == n / 0x100_0000;
  }

  lemma Associate(a: seq<byte>, b: seq<byte>, x: seq<byte>)
    ensures a + b + x == a + (b + x)
  {
  }

  lemma HeaderRead(r: Rect, code: int, x: seq<byte>)
    requires Short(r.x) && Short(r.y) && Short(r.w) && Short(r.h)
    ensures var q := Header(r, code) + x;
            && |q| >= 12 && U16(q) == r.x && U16(q[2..]) == r.y && U16(q[4..]) == r.w && U16(q[6..]) == r.h
            && U32(q[8..]) == code % 0x1_0000_0000 && q[12..] == x
  {
    var e := Four(code % 0x1_0000_0000);
    var q := Header(r, code) + x;
    Associate(Two(r.x), Two(r.y) + (Two(r.w) + (Two(r.h) + e)), x);
    Associate(Two(r.y), Two(r.w) + (Two(r.h) + e), x);
    Associate(Two(r.w), Two(r.h) + e, x);
    Associate(Two(r.h), e, x);
    FourRead(code % 0x1_0000_0000, x);
    hide Two, Four, U16, U32;
    TwoRead(r.h, e + x);
    TwoRead(r.w, Two(r.h) + (e + x));
    TwoRead(r.y, Two(r.w) + (Two(r.h) + (e + x)));
    TwoRead(r.x, Two(r.y) + (Two(r.w) + (Two(r.h) + (e + x))));
    assert q == Two(r.x) + (Two(r.y) + (Two(r.w) + (Two(r.h) + (e + x))));
    assert q[2..][2..] == q[4..] && q[4..][2..] == q[6..] && q[6..][2..] == q[8..] && q[8..][4..] == q[12..];
  }

  lemma SignedRead(code: int)
    requires -0x8000_0000 <= code < 0x8000_0000
    ensures Signed32(code % 0x1_0000_0000) == code
  {
  }

  // ---------------------------------------------------------------- what the client holds

  /** Between two pieces of the stream the client holds what the session says, and nothing half read. */
  predicate Holds(c: State, s: Session) {
    && c.lines == 0 && c.subrects == 0 && c.hex.tiles == 0 && Agrees(c.hex, s.pen)
    && c.fbWidth == s.w && c.fbHeight == s.h && c.enabledContinuous == s.continuous && c.supportsContinuous == s.offered
    && c.supportsSetDesktopSize == s.sizeable && (c.screenID, c.screenFlags) == s.screen
    && !c.failed && !c.halted
  }

  /** With `n` rectangles of an update to come. */
  predicate Awaits(c: State, s: Session, n: nat) { Holds(c, s) && c.rects == n && c.encoding.None? }

  /** What the end of a rectangle adds when it is the last. */
  function RectEnd(s: Session, n: nat): seq<Output> { if n == 1 then FrameEnd(s) else [] }

  lemma HeaderTaken(cfg: Config, c: State, r: Rect, code: int, x: seq<byte>)
    requires c.rects > 0 && c.encoding.None? && !c.halted && -0x8000_0000 <= code < 0x8000_0000
    requires Short(r.x) && Short(r.y) && Short(r.w) && Short(r.h)
    ensures Run(cfg, c, Header(r, code) + x) == Run(cfg, c.(rect := r, encoding := Some(code)), x)
  {
    HeaderRead(r, code, x);
    SignedRead(code);
    hide Run, Header, U16, U32, Signed32;
    var q := Header(r, code) + x;
    RunUnfolds(cfg, c, q);
    PrependPrepend([], [], Run(cfg, c.(rect := r, encoding := Some(code)), x));
  }

  /** The client after a rectangle. */
  lemma Ended(c: State, s: Session, n: nat)
    requires Holds(c, s) && c.rects == n > 0
    ensures Awaits(EndRect(c), s, n - 1) && EndRectOutput(c) == RectEnd(s, n)
  {
    assert [Flip] + [] == [Flip];
  }

  lemma CompleteTaken(cfg: Config, c: State, q: seq<byte>, c2: State, n: nat, out: seq<Output>, x: seq<byte>)
    requires Step(cfg, c, q) == Complete(c2, n, out) && n <= |q| && q[n..] == x
    ensures Run(cfg, c, q) == Prepend(out + EndRectOutput(c2), Run(cfg, EndRect(c2), x))
  {
    hide Run, Step, EndRect, EndRectOutput;
    RunUnfolds(cfg, c, q);
  }

  // ---------------------------------------------------------------- decoders within the loop

  lemma PrependAfter(out: seq<Output>, a: seq<Output>, b: seq<Output>, r: Result)
    ensures Prepend(out, Prepend(a + b, r)) == Prepend(out + a + b, r)
  {
    assert out + (a + b + r.out) == out + a + b + r.out;
  }

  lemma {:induction false} RawInLoop(cfg: Config, c: State, q: seq<byte>)
    requires c.rects > 0 && c.encoding == Some(RAW) && !c.halted
    requires RawRun(c.lines, c.rect, cfg.depth8, q).status == Finished
    ensures var d := RawRun(c.lines, c.rect, cfg.depth8, q); var c2 := c.(lines := d.s);
            Run(cfg, c, q) == Prepend(d.out + EndRectOutput(c2), Run(cfg, EndRect(c2), d.rest))
    decreases |q|, if c.lines == 0 then 1 else 0
  {
    var p := RawStep(c.lines, c.rect, cfg.depth8, q);
    RawRunUnfolds(c.lines, c.rect, cfg.depth8, q);
    hide Run, RawStep, EndRect, EndRectOutput;
    RunUnfolds(cfg, c, q);
    match p
    case Wait => assert false;
    case Throw(_, _, _) => assert false;
    case Done(_, _, _) =>
    case More(s, n, out) =>
      var c1 := c.(lines := s);
      hide RawRun;
      RawInLoop(cfg, c1, q[n..]);
      var d := RawRun(s, c.rect, cfg.depth8, q[n..]);
      var c2 := c1.(lines := d.s);
      PrependAfter(out, d.out, EndRectOutput(c2), Run(cfg, EndRect(c2), d.rest));
  }

  lemma RreRunUnfolds(subrects: nat, r: Rect, q: seq<byte>)
    ensures var p := RreStep(subrects, r, q);
            && (p.Done? ==> RreRun(subrects, r, q) == Decoded(Finished, p.s, q[p.n..], p.out))
            && (p.More? ==> RreRun(subrects, r, q) == After(p.out, RreRun(p.s, r, q[p.n..])))
            && (p.Wait? ==> RreRun(subrects, r, q).status == Waiting)
  {
    hide RreStep;
  }

  lemma {:induction false} RreInLoop(cfg: Config, c: State, q: seq<byte>)
    requires c.rects > 0 && c.encoding == Some(RRE) && !c.halted
    requires RreRun(c.subrects, c.rect, q).status == Finished
    ensures var d := RreRun(c.subrects, c.rect, q); var c2 := c.(subrects := d.s);
            Run(cfg, c, q) == Prepend(d.out + EndRectOutput(c2), Run(cfg, EndRect(c2), d.rest))
    decreases |q|
  {
    var p := RreStep(c.subrects, c.rect, q);
    RreRunUnfolds(c.subrects, c.rect, q);
    assert !p.Throw?;
    hide Run, RreStep, RreRun, EndRect, EndRectOutput;
    RunUnfolds(cfg, c, q);
    if p.More? {
      var c1 := c.(subrects := p.s);
      RreInLoop(cfg, c1, q[p.n..]);
      var d := RreRun(p.s, c.rect, q[p.n..]);
      var c2 := c1.(subrects := d.s);
      PrependAfter(p.out, d.out, EndRectOutput(c2), Run(cfg, EndRect(c2), d.rest));
    }
  }

  lemma HexRunStatus(s: Hextile.Hex, r: Rect, q: seq<byte>)
    ensures Hextile.HexStep(s, r, q).Wait? ==> Hextile.HexRun(s, r, q).status == Waiting
    ensures Hextile.HexStep(s, r, q).Throw? ==> Hextile.HexRun(s, r, q).status == Thrown
  {
    hide Hextile.HexStep;
  }

  lemma {:induction false} HextileInLoop(cfg: Config, c: State, q: seq<byte>)
    requires c.rects > 0 && c.encoding == Some(HEXTILE) && !c.halted
    requires Hextile.HexRun(c.hex, c.rect, q).status == Finished
    ensures var d := Hextile.HexRun(c.hex, c.rect, q); var c2 := c.(hex := d.s);
            Run(cfg, c, q) == Prepend(d.out + EndRectOutput(c2), Run(cfg, EndRect(c2), d.rest))
    decreases |q|, if c.hex.tiles == 0 then 1 else 0
  {
    var p := Hextile.HexStep(c.hex, c.rect, q);
    HexRunUnfolds(c.hex, c.rect, q);
    HexRunStatus(c.hex, c.rect, q);
    hide Run, Hextile.HexStep, Hextile.HexRun, EndRect, EndRectOutput;
    RunUnfolds(cfg, c, q);
    if p.More? {
      var c1 := c.(hex := p.s);
      HextileInLoop(cfg, c1, q[p.n..]);
      var d := Hextile.HexRun(p.s, c.rect, q[p.n..]);
      var c2 := c1.(hex := d.s);
      PrependAfter(p.out, d.out, EndRectOutput(c2), Run(cfg, EndRect(c2), d.rest));
    }
  }

  // ---------------------------------------------------------------- RRE

  lemma PieceRead(p: Piece, x: seq<byte>)
    requires PieceFits(p)
    ensures var q := PieceSent(p) + x;
            && |q| >= 12 && q[..4] == p.color && U16(q[4..]) == p.x && U16(q[6..]) == p.y && U16(q[8..]) == p.w
            && U16(q[10..]) == p.h && q[12..] == x
  {
    var q := PieceSent(p) + x;
    Associate(p.color, Two(p.x) + (Two(p.y) + (Two(p.w) + Two(p.h))), x);
    Associate(Two(p.x), Two(p.y) + (Two(p.w) + Two(p.h)), x);
    Associate(Two(p.y), Two(p.w) + Two(p.h), x);
    Associate(Two(p.w), Two(p.h), x);
    hide Two, U16;
    TwoRead(p.h, x);
    TwoRead(p.w, Two(p.h) + x);
    TwoRead(p.y, Two(p.w) + (Two(p.h) + x));
    TwoRead(p.x, Two(p.y) + (Two(p.w) + (Two(p.h) + x)));
    assert q == p.color + (Two(p.x) + (Two(p.y) + (Two(p.w) + (Two(p.h) + x))));
    assert q[4..][2..] == q[6..] && q[6..][2..] == q[8..] && q[8..][2..] == q[10..] && q[10..][2..] == q[12..];
  }

  lemma FirstPiece(pieces: seq<Piece>)
    requires |pieces| > 0 && PiecesFit(pieces)
    ensures PieceFits(pieces[0]) && PiecesFit(pieces[1..])
    ensures PiecesSent(pieces) == PieceSent(pieces[0]) + PiecesSent(pieces[1..])
  {
  }

  function Fill(r: Rect, p: Piece): Output { FillRect(r.x + p.x, r.y + p.y, p.w, p.h, p.color) }

  lemma FirstFill(r: Rect, pieces: seq<Piece>)
    requires |pieces| > 0
    ensures PieceFills(r, pieces) == [Fill(r, pieces[0])] + PieceFills(r, pieces[1..])
  {
  }

  lemma PieceStep(r: Rect, p: Piece, n: nat, tail: seq<byte>)
    requires PieceFits(p) && n > 0
    ensures var q := PieceSent(p) + tail; var out := [FillRect(r.x + p.x, r.y + p.y, p.w, p.h, p.color)];
            && |q| >= 12 && q[12..] == tail
            && RreStep(n, r, q) == if n == 1 then Done(0, 12, out) else More(n - 1, 12, out)
  {
    hide RreStep, U16, PieceSent;
    PieceRead(p, tail);
    RreSubrect(n, r, PieceSent(p) + tail);
  }

  lemma FirstDrawn(r: Rect, p: Piece, n: nat, x: seq<byte>)
    requires PieceFits(p) && n > 0
    ensures var fill := [Fill(r, p)];
            RreRun(n, r, PieceSent(p) + x)
            == if n == 1 then Decoded(Finished, 0, x, fill) else After(fill, RreRun(n - 1, r, x))
  {
    hide RreStep, RreRun, PieceSent, PieceFits;
    PieceStep(r, p, n, x);
    RreRunUnfolds(n, r, PieceSent(p) + x);
  }

  lemma OneDrawn(r: Rect, pieces: seq<Piece>, x: seq<byte>)
    requires |pieces| == 1 && PiecesFit(pieces)
    ensures RreRun(1, r, PiecesSent(pieces) + x) == Decoded(Finished, 0, x, PieceFills(r, pieces))
  {
    FirstPiece(pieces);
    FirstFill(r, pieces);
    FirstDrawn(r, pieces[0], 1, x);
    hide RreRun, PieceSent, PieceFits, PiecesFit;
    assert pieces[1..] == [];
    assert PieceSent(pieces[0]) + [] == PieceSent(pieces[0]);
  }

  lemma MoreDrawn(r: Rect, pieces: seq<Piece>, x: seq<byte>)
    requires |pieces| > 1 && PiecesFit(pieces)
    ensures PiecesFit(pieces[1..])
    ensures RreRun(|pieces|, r, PiecesSent(pieces) + x)
         == After([Fill(r, pieces[0])], RreRun(|pieces| - 1, r, PiecesSent(pieces[1..]) + x))
  {
    FirstPiece(pieces);
    hide RreRun, PieceSent, PieceFits, PiecesFit, PiecesSent, Fill;
    FirstDrawn(r, pieces[0], |pieces|, PiecesSent(pieces[1..]) + x);
    Associate(PieceSent(pieces[0]), PiecesSent(pieces[1..]), x);
  }

  lemma {:induction false} PiecesDrawn(r: Rect, pieces: seq<Piece>, x: seq<byte>)
    requires |pieces| > 0 && PiecesFit(pieces)
    ensures RreRun(|pieces|, r, PiecesSent(pieces) + x) == Decoded(Finished, 0, x, PieceFills(r, pieces))
    decreases |pieces|
  {
    hide RreRun, PieceFills, PiecesFit, PiecesSent, Fill;
    if |pieces| == 1 {
      OneDrawn(r, pieces, x);
    } else {
      MoreDrawn(r, pieces, x);
      PiecesDrawn(r, pieces[1..], x);
      FirstFill(r, pieces);
    }
  }

  /** For every list of pieces, decoding draws the background and each piece at its place in the rectangle. */
  lemma RreIsDrawn(r: Rect, bg: Color, pieces: seq<Piece>, x: seq<byte>)
    requires Long(|pieces|) && PiecesFit(pieces)
    ensures RreRun(0, r, Four(|pieces|) + (bg + PiecesSent(pieces)) + x)
         == Decoded(Finished, 0, x, [FillRect(r.x, r.y, r.w, r.h, bg)] + PieceFills(r, pieces))
  {
    var n := Four(|pieces|);
    var tail := PiecesSent(pieces) + x;
    Associate(n, bg + PiecesSent(pieces), x);
    Associate(bg, PiecesSent(pieces), x);
    var q := n + (bg + tail);
    FourRead(|pieces|, bg + tail);
    hide Four, U32, PiecesFit;
    assert |n| == 4;
    assert q[4..8] == q[4..][..4] == bg && q[8..] == q[4..][4..] == tail;
    RreRunUnfolds(0, r, q);
    hide RreRun;
    if |pieces| > 0 {
      PiecesDrawn(r, pieces, x);
    } else {
      assert tail == x;
    }
  }

  // ---------------------------------------------------------------- rectangles

  /** The run of the rest of a rectangle is its drawing, and the client is as the session after it says. */
  ghost predicate Did(cfg: Config, c: State, q: seq<byte>, out: seq<Output>, c': State, x: seq<byte>) {
    Run(cfg, c, q) == Prepend(out, Run(cfg, c', x))
  }

  lemma PixelsTaken(cfg: Config, c: State, s: Session, rows: seq<Row>, n: nat, x: seq<byte>) returns (c': State)
    requires Holds(c, s) && c.rects == n > 0 && c.encoding == Some(0)
    requires Sized(rows, c.rect.w, c.rect.h) && Pictures.Sendable(rows, cfg.depth8)
    ensures Awaits(c', s, n - 1)
    ensures Did(cfg, c, SentRows(rows, cfg.depth8) + x, RawDrawing(c.rect, rows) + RectEnd(s, n), c', x)
  {
    hide Run, EndRect, EndRectOutput, RawRun, RectEnd, SentRows, RawDrawing;
    RawIsDrawn(c.rect, cfg.depth8, rows, x);
    RawInLoop(cfg, c, SentRows(rows, cfg.depth8) + x);
    var c2 := c.(lines := 0);
    Ended(c2, s, n);
    c' := EndRect(c2);
  }

  lemma FilledTaken(cfg: Config, c: State, s: Session, bg: Color, pieces: seq<Piece>, n: nat, x: seq<byte>)
    returns (c': State)
    requires Holds(c, s) && c.rects == n > 0 && c.encoding == Some(2)
    requires Long(|pieces|) && PiecesFit(pieces)
    ensures Awaits(c', s, n - 1)
    ensures var r := c.rect;
            Did(cfg, c, Four(|pieces|) + (bg + PiecesSent(pieces)) + x,
                [FillRect(r.x, r.y, r.w, r.h, bg)] + PieceFills(r, pieces) + RectEnd(s, n), c', x)
  {
    hide Run, EndRect, EndRectOutput, RreRun, RectEnd, PiecesSent, PieceFills, Four, PiecesFit;
    RreIsDrawn(c.rect, bg, pieces, x);
    RreInLoop(cfg, c, Four(|pieces|) + (bg + PiecesSent(pieces)) + x);
    var c2 := c.(subrects := 0);
    Ended(c2, s, n);
    c' := EndRect(c2);
  }

  lemma TiledTaken(cfg: Config, c: State, s: Session, tiles: seq<Tile>, n: nat, x: seq<byte>) returns (c': State)
    requires Holds(c, s) && c.rects == n > 0 && c.encoding == Some(5)
    requires |tiles| == Hextile.TotalTiles(c.rect) && TilesGood(c.rect, tiles, 0, s.pen)
    ensures Awaits(c', s.(pen := PenAfterAll(s.pen, tiles, 0)), n - 1)
    ensures Did(cfg, c, TilesSent(c.rect, tiles, 0, s.pen) + x,
                TilesDrawing(c.rect, tiles, 0, s.pen) + RectEnd(s, n), c', x)
  {
    hide Run, EndRect, EndRectOutput, Hextile.HexRun, RectEnd, TilesSent, TilesDrawing, TilesGood, Hextile.TotalTiles;
    hide Agrees, PenAfterAll;
    TilesAreDrawn(c.hex, c.rect, tiles, s.pen, x);
    var q := TilesSent(c.rect, tiles, 0, s.pen) + x;
    HextileInLoop(cfg, c, q);
    var c2 := c.(hex := Hextile.HexRun(c.hex, c.rect, q).s);
    var s2 := s.(pen := PenAfterAll(s.pen, tiles, 0));
    Ended(c2, s2, n);
    SameEnd(s, s2, n);
    c' := EndRect(c2);
  }

  lemma SameEnd(s: Session, t: Session, n: nat)
    requires t == s.(pen := t.pen)
    ensures RectEnd(t, n) == RectEnd(s, n)
  {
  }

  lemma CopiedTaken(cfg: Config, c: State, s: Session, fromX: nat, fromY: nat, n: nat, x: seq<byte>) returns (c': State)
    requires Holds(c, s) && c.rects == n > 0 && c.encoding == Some(1) && Short(fromX) && Short(fromY)
    ensures Awaits(c', s, n - 1)
    ensures var r := c.rect;
            Did(cfg, c, Two(fromX) + Two(fromY) + x,
                (if r.w == 0 || r.h == 0 then [] else [CopyImage(fromX, fromY, r.x, r.y, r.w, r.h)]) + RectEnd(s, n),
                c', x)
  {
    Associate(Two(fromX), Two(fromY), x);
    var q := Two(fromX) + (Two(fromY) + x);
    TwoRead(fromX, Two(fromY) + x);
    TwoRead(fromY, x);
    hide Two, U16;
    assert q[2..][2..] == q[4..];
    hide Run, EndRect, EndRectOutput, RectEnd;
    var out := if c.rect.w == 0 || c.rect.h == 0 then []
               else [CopyImage(fromX, fromY, c.rect.x, c.rect.y, c.rect.w, c.rect.h)];
    CompleteTaken(cfg, c, q, c, 4, out, x);
    Ended(c, s, n);
    c' := EndRect(c);
  }

  lemma PointerTaken(cfg: Config, c: State, s: Session, pixels: seq<byte>, mask: seq<byte>, n: nat, x: seq<byte>)
    returns (c': State)
    requires Holds(c, s) && c.rects == n > 0 && c.encoding == Some(-239)
    requires |pixels| == c.rect.w * c.rect.h * 4 && |mask| == (c.rect.w + 7) / 8 * c.rect.h
    ensures Awaits(c', s, n - 1)
    ensures var r := c.rect;
            Did(cfg, c, pixels + mask + x, [Cursor(r.x, r.y, r.w, r.h, pixels, mask)] + RectEnd(s, n), c', x)
  {
    var q := pixels + mask + x;
    assert PixelBytes(c.rect.w, c.rect.h) == |pixels| && MaskBytes(c.rect.w, c.rect.h) == |mask|;
    hide PixelBytes, MaskBytes;
    assert q[..|pixels|] == pixels && q[|pixels|..|pixels| + |mask|] == mask && q[|pixels| + |mask|..] == x;
    hide Run, EndRect, EndRectOutput, RectEnd;
    CompleteTaken(cfg, c, q, c, |pixels| + |mask|, [Cursor(c.rect.x, c.rect.y, c.rect.w, c.rect.h, pixels, mask)], x);
    Ended(c, s, n);
    c' := EndRect(c);
  }

  lemma TitleTaken(cfg: Config, c: State, s: Session, text: seq<byte>, n: nat, x: seq<byte>) returns (c': State)
    requires Holds(c, s) && c.rects == n > 0 && c.encoding == Some(-307) && Long(|text|)
    ensures Awaits(c', s, n - 1)
    ensures Did(cfg, c, Four(|text|) + text + x, [DesktopName(text)] + RectEnd(s, n), c', x)
  {
    Associate(Four(|text|), text, x);
    var q := Four(|text|) + (text + x);
    FourRead(|text|, text + x);
    hide U32;
    assert q[4..4 + |text|] == q[4..][..|text|] == text && q[4 + |text|..] == q[4..][|text|..] == x;
    hide Run, EndRect, EndRectOutput, RectEnd, Four;
    CompleteTaken(cfg, c, q, c, 4 + |text|, [DesktopName(text)], x);
    Ended(c, s, n);
    c' := EndRect(c);
  }

  lemma NewSizeTaken(cfg: Config, c: State, s: Session, n: nat, x: seq<byte>) returns (c': State)
    requires Holds(c, s) && c.rects == n > 0 && c.encoding == Some(-223)
    ensures Awaits(c', s.(w := c.rect.w, h := c.rect.h), n - 1)
    ensures Did(cfg, c, [] + x, Resizing(s, c.rect) + RectEnd(s.(w := c.rect.w, h := c.rect.h), n), c', x)
  {
    assert [] + x == x && x[0..] == x;
    hide Run, EndRect, EndRectOutput, RectEnd;
    var c2 := Resize(c, c.rect.w, c.rect.h);
    CompleteTaken(cfg, c, x, c2, 0, Resizing(s, c.rect), x);
    Ended(c2, s.(w := c.rect.w, h := c.rect.h), n);
    c' := EndRect(c2);
  }

  lemma NewsTaken(cfg: Config, c: State, s: Session, n: nat, x: seq<byte>) returns (c': State)
    requires Holds(c, s) && c.rects == n > 0 && c.encoding == Some(-258)
    ensures Awaits(c', s, n - 1)
    ensures Did(cfg, c, [] + x, [] + RectEnd(s, n), c', x)
  {
    assert [] + x == x && x[0..] == x;
    hide Run, EndRect, EndRectOutput, RectEnd;
    var c2 := c.(qemuExtKey := true);
    CompleteTaken(cfg, c, x, c2, 0, [], x);
    Ended(c2, s, n);
    c' := EndRect(c2);
  }

  lemma LedsTaken(cfg: Config, c: State, s: Session, state: byte, n: nat, x: seq<byte>) returns (c': State)
    requires Holds(c, s) && c.rects == n > 0 && c.encoding == Some(-261)
    ensures Awaits(c', s, n - 1) && c'.locks == Some((state / 2 % 2 == 1, state / 4 % 2 == 1))
    ensures Did(cfg, c, [state] + x, [] + RectEnd(s, n), c', x)
  {
    var q := [state] + x;
    assert q[0] == state && q[1..] == x;
    hide Run, EndRectOutput, RectEnd;
    var c2 := c.(locks := Some((Bit(state, 1), Bit(state, 2))));
    CompleteTaken(cfg, c, q, c2, 1, [], x);
    Ended(c2, s, n);
    c' := EndRect(c2);
  }

  lemma ScreensRead(screens: seq<Screen>, x: seq<byte>)
    requires |screens| < 256 && forall t | t in screens :: ScreenFits(t)
    ensures var q := [|screens|, 0, 0, 0] + ScreensSent(screens) + x;
            && q[0] == |screens| && |q| >= ScreensEnd(|screens|) && q[ScreensEnd(|screens|)..] == x
            && (|screens| > 0 ==> U32(q[4..]) == screens[0].id && U32(q[16..]) == screens[0].flags)
  {
    var q := [|screens|, 0, 0, 0] + ScreensSent(screens) + x;
    Associate([|screens|, 0, 0, 0], ScreensSent(screens), x);
    ScreensSize(screens);
    assert q[4..] == ScreensSent(screens) + x;
    if |screens| > 0 {
      FirstScreen(screens, x);
      hide U32;
      assert q[16..] == q[4..][12..];
    }
  }

  lemma {:induction false} ScreensSize(screens: seq<Screen>)
    requires forall t | t in screens :: ScreenFits(t)
    ensures |ScreensSent(screens)| == 16 * |screens|
    decreases |screens|
  {
    if |screens| > 0 {
      ScreensSize(screens[1..]);
    }
  }

  lemma FirstScreen(screens: seq<Screen>, x: seq<byte>)
    requires |screens| > 0 && forall t | t in screens :: ScreenFits(t)
    ensures var q := ScreensSent(screens) + x; |q| >= 16 && U32(q) == screens[0].id && U32(q[12..]) == screens[0].flags
  {
    var t := screens[0];
    assert ScreenFits(t);
    var tail := ScreensSent(screens[1..]) + x;
    var q := ScreensSent(screens) + x;
    var middle := Two(t.x) + (Two(t.y) + (Two(t.w) + Two(t.h)));
    assert q == Four(t.id) + (middle + (Four(t.flags) + tail));
    FourRead(t.id, middle + (Four(t.flags) + tail));
    FourRead(t.flags, tail);
    assert q[12..] == q[4..][8..] == Four(t.flags) + tail;
  }

  lemma LayoutNoted(cfg: Config, c: State, s: Session, screens: seq<Screen>, q: seq<byte>)
    requires Holds(c, s) && |q| >= 4 && q[0] == |screens| && |q| >= ScreensEnd(|screens|)
    requires |screens| > 0 ==> U32(q[4..]) == screens[0].id && U32(q[16..]) == screens[0].flags
    ensures var s' := AfterCarrier(s, Carrier(c.rect, Layout(screens))); var c2 := ScreenLayout(c, q);
            && Holds(c2, s') && c2.rects == c.rects
            && ScreenLayoutOutput(cfg, c, c2) == LayoutDrawing(cfg, s, c.rect, s')
  {
    hide U32, Agrees;
  }

  lemma LayoutTaken(cfg: Config, c: State, s: Session, screens: seq<Screen>, n: nat, x: seq<byte>) returns (c': State)
    requires Holds(c, s) && c.rects == n > 0 && c.encoding == Some(-308)
    requires |screens| < 256 && forall t | t in screens :: ScreenFits(t)
    ensures var s' := AfterCarrier(s, Carrier(c.rect, Layout(screens)));
            && Awaits(c', s', n - 1)
            && Did(cfg, c, [|screens|, 0, 0, 0] + ScreensSent(screens) + x,
                   LayoutDrawing(cfg, s, c.rect, s') + RectEnd(s', n), c', x)
  {
    var q := [|screens|, 0, 0, 0] + ScreensSent(screens) + x;
    ScreensRead(screens, x);
    LayoutNoted(cfg, c, s, screens, q);
    hide Run, EndRect, EndRectOutput, RectEnd, ScreenLayout, ScreenLayoutOutput, LayoutDrawing, AfterCarrier, Holds;
    hide ScreensSent, U32;
    var s' := AfterCarrier(s, Carrier(c.rect, Layout(screens)));
    var c2 := ScreenLayout(c, q);
    LayoutStep(cfg, c, q);
    CompleteTaken(cfg, c, q, c2, ScreensEnd(|screens|), ScreenLayoutOutput(cfg, c, c2), x);
    Ended(c2, s', n);
    c' := EndRect(c2);
  }

  lemma LayoutStep(cfg: Config, c: State, q: seq<byte>)
    requires c.rects > 0 && c.encoding == Some(-308) && !c.halted && |q| >= 4 && |q| >= ScreensEnd(q[0])
    ensures var c2 := ScreenLayout(c, q);
            Step(cfg, c, q) == Complete(c2, ScreensEnd(q[0]), ScreenLayoutOutput(cfg, c, c2))
  {
    hide ScreenLayout, ScreenLayoutOutput, Complete;
  }

  /** A rectangle's data, after its header. */
  lemma BodyTaken(cfg: Config, c: State, s: Session, b: Carrier, n: nat, x: seq<byte>) returns (c': State)
    requires Proper(cfg.depth8, s.pen, b) && Holds(c, s) && c.rects == n > 0
    requires c.rect == b.r && c.encoding == Some(Code(b.body))
    ensures Awaits(c', AfterCarrier(s, b), n - 1)
    ensures Did(cfg, c, BodySent(cfg.depth8, s.pen, b) + x, Drawing(cfg, s, b) + RectEnd(AfterCarrier(s, b), n), c', x)
  {
    hide Run, Did, Holds, RectEnd, Awaits;
    match b.body
    case Pixels(rows) => c' := PixelsTaken(cfg, c, s, rows, n, x);
    case Copied(fromX, fromY) => c' := CopiedTaken(cfg, c, s, fromX, fromY, n, x);
    case Filled(bg, pieces) => c' := FilledTaken(cfg, c, s, bg, pieces, n, x);
    case Tiled(tiles) =>
      c' := TiledTaken(cfg, c, s, tiles, n, x);
      SameEnd(s, AfterCarrier(s, b), n);
    case Pointer(pixels, mask) => c' := PointerTaken(cfg, c, s, pixels, mask, n, x);
    case Title(text) => c' := TitleTaken(cfg, c, s, text, n, x);
    case NewSize => c' := NewSizeTaken(cfg, c, s, n, x);
    case Layout(screens) => c' := LayoutTaken(cfg, c, s, screens, n, x);
    case KeyEvents => c' := NewsTaken(cfg, c, s, n, x);
    case Leds(state) => c' := LedsTaken(cfg, c, s, state, n, x);
  }

  lemma CodeIsShort(b: Body)
    ensures -0x8000_0000 <= Code(b) < 0x8000_0000
  {
  }

  lemma HeadedStill(c: State, s: Session, r: Rect, code: int, n: nat)
    requires Awaits(c, s, n)
    ensures var c1 := c.(rect := r, encoding := Some(code)); Holds(c1, s) && c1.rects == n
  {
  }

  /** A whole rectangle. */
  lemma CarrierTaken(cfg: Config, c: State, s: Session, b: Carrier, n: nat, x: seq<byte>) returns (c': State)
    requires Proper(cfg.depth8, s.pen, b) && Awaits(c, s, n) && n > 0
    ensures Awaits(c', AfterCarrier(s, b), n - 1)
    ensures Did(cfg, c, CarrierSent(cfg.depth8, s.pen, b) + x,
                Drawing(cfg, s, b) + RectEnd(AfterCarrier(s, b), n), c', x)
  {
    CodeIsShort(b.body);
    HeadedStill(c, s, b.r, Code(b.body), n);
    hide Run, Code, BodySent, Drawing, RectEnd, Header;
    var body := BodySent(cfg.depth8, s.pen, b);
    Associate(Header(b.r, Code(b.body)), body, x);
    HeaderTaken(cfg, c, b.r, Code(b.body), body + x);
    c' := BodyTaken(cfg, c.(rect := b.r, encoding := Some(Code(b.body))), s, b, n, x);
  }

  /** The mark ends the update, however many rectangles are still announced. */
  lemma MarkTaken(cfg: Config, c: State, s: Session, n: nat, x: seq<byte>) returns (c': State)
    requires Awaits(c, s, n) && n > 0
    ensures Awaits(c', s, 0) && Did(cfg, c, Header(Rect(0, 0, 0, 0), LAST) + x, FrameEnd(s), c', x)
  {
    hide Run, Header, FrameEnd;
    var r := Rect(0, 0, 0, 0);
    HeaderTaken(cfg, c, r, LAST, x);
    hide Holds;
    HeadedStill(c, s, r, LAST, n);
    c' := MarkedEnd(cfg, c.(rect := r, encoding := Some(LAST)), s, x);
  }

  lemma MarkedEnd(cfg: Config, c: State, s: Session, x: seq<byte>) returns (c': State)
    requires Holds(c, s) && c.rects > 0 && c.encoding == Some(-224)
    ensures Awaits(c', s, 0) && Did(cfg, c, x, FrameEnd(s), c', x)
  {
    hide Run, EndRect, EndRectOutput, FrameEnd, Step, Complete;
    assert x[0..] == x;
    var c2 := c.(rects := 1);
    MarkStep(cfg, c, x);
    CompleteTaken(cfg, c, x, c2, 0, [], x);
    Ended(c2, s, 1);
    c' := EndRect(c2);
  }

  lemma MarkStep(cfg: Config, c: State, x: seq<byte>)
    requires c.rects > 0 && c.encoding == Some(-224) && !c.halted
    ensures Step(cfg, c, x) == Complete(c.(rects := 1), 0, [])
  {
    hide Client.Message, RectHeader, Complete, CursorRect, NameRect, ExtendedSize, LedRect;
  }

  /** All rectangles, and the mark if there is one: then the frame is shown. */
  lemma {:induction false} CarriersTaken(cfg: Config, c: State, s: Session, cs: seq<Carrier>, n: nat, x: seq<byte>)
    returns (c': State)
    requires AllProper(cfg.depth8, s, cs) && |cs| <= n && 0 < n && Awaits(c, s, n)
    ensures Awaits(c', AfterCarriers(s, cs), 0)
    ensures Did(cfg, c, CarriersSent(cfg.depth8, s, cs) + Mark(cs, n) + x,
                Drawings(cfg, s, cs) + FrameEnd(AfterCarriers(s, cs)), c', x)
    decreases |cs|
  {
    hide Run, Awaits, Drawing, Header, FrameEnd, Proper, AfterCarrier, CarrierSent;
    if |cs| == 0 {
      assert [] + Header(Rect(0, 0, 0, 0), LAST) == Header(Rect(0, 0, 0, 0), LAST);
      assert [] + FrameEnd(s) == FrameEnd(s);
      c' := MarkTaken(cfg, c, s, n, x);
    } else {
      var s1, first, rest := AfterCarrier(s, cs[0]), CarrierSent(cfg.depth8, s.pen, cs[0]), cs[1..];
      var tail := CarriersSent(cfg.depth8, s1, rest) + Mark(rest, n - 1);
      assert CarriersSent(cfg.depth8, s, cs) + Mark(cs, n) + x == first + (tail + x);
      var c1 := CarrierTaken(cfg, c, s, cs[0], n, tail + x);
      if n == 1 {
        assert tail + x == x;
        assert Drawing(cfg, s, cs[0]) + [] == Drawing(cfg, s, cs[0]);
        c' := c1;
      } else {
        c' := CarriersTaken(cfg, c1, s1, rest, n - 1, x);
        var d, e := Drawing(cfg, s, cs[0]), Drawings(cfg, s1, rest) + FrameEnd(AfterCarriers(s1, rest));
        assert d + [] == d;
        PrependPrepend(d, e, Run(cfg, c', x));
        assert d + e == Drawings(cfg, s, cs) + FrameEnd(AfterCarriers(s, cs));
      }
    }
  }

  // ---------------------------------------------------------------- messages

  lemma UpdateTaken(cfg: Config, c: State, s: Session, m: Message, x: seq<byte>) returns (c': State)
    requires m.Update? && Valid(cfg.depth8, s, m) && Awaits(c, s, 0)
    ensures Awaits(c', Later(s, m), 0) && Did(cfg, c, Encoded(cfg.depth8, s, m) + x, Asked(cfg, s, m), c', x)
  {
    hide CarriersSent, Mark, Two, Run, AllProper, Drawings, AfterCarriers, FrameEnd, Awaits, Did;
    c' := CountedTaken(cfg, c, s, m.carriers, m.announced, x);
    var body := CarriersSent(cfg.depth8, s, m.carriers) + Mark(m.carriers, m.announced);
    Associate([0, 0] + Two(m.announced), body, x);
    Associate([0, 0], Two(m.announced), body + x);
  }

  lemma CountedTaken(cfg: Config, c: State, s: Session, cs: seq<Carrier>, n: nat, x: seq<byte>) returns (c': State)
    requires AllProper(cfg.depth8, s, cs) && |cs| <= n && Short(n) && Awaits(c, s, 0)
    ensures Awaits(c', AfterCarriers(s, cs), 0)
    ensures Did(cfg, c, [0, 0] + (Two(n) + (CarriersSent(cfg.depth8, s, cs) + Mark(cs, n) + x)),
                Drawings(cfg, s, cs) + FrameEnd(AfterCarriers(s, cs)), c', x)
  {
    hide CarriersSent, Drawings, Mark, Run, AllProper, Two, FrameEnd, AfterCarriers;
    var body := CarriersSent(cfg.depth8, s, cs) + Mark(cs, n);
    CountTaken(cfg, c, s, n, body + x);
    var c1 := c.(rects := n);
    assert Awaits(c1, s, n);
    hide Awaits;
    if n == 0 {
      NothingSent(cfg, s, cs);
      assert body + x == x;
      assert [] + FrameEnd(s) == FrameEnd(s);
      c' := c1;
    } else {
      c' := CarriersTaken(cfg, c1, s, cs, n, x);
      PrependPrepend([], [], Run(cfg, c1, body + x));
    }
  }

  lemma CountTaken(cfg: Config, c: State, s: Session, n: nat, x: seq<byte>)
    requires Short(n) && Awaits(c, s, 0)
    ensures Did(cfg, c, [0, 0] + (Two(n) + x), if n == 0 then FrameEnd(s) else [], c.(rects := n), x)
  {
    var q := [0, 0] + (Two(n) + x);
    TwoRead(n, x);
    hide Two, U16, Run;
    assert q[0] == 0 && q[2..] == Two(n) + x && q[4..] == q[2..][2..] == x;
    assert [Flip] + [] == [Flip];
    RunUnfolds(cfg, c, q);
  }

  lemma NothingSent(cfg: Config, s: Session, cs: seq<Carrier>)
    requires |cs| == 0
    ensures AllProper(cfg.depth8, s, cs) && CarriersSent(cfg.depth8, s, cs) == [] && Mark(cs, 0) == []
    ensures Drawings(cfg, s, cs) == [] && AfterCarriers(s, cs) == s
  {
  }

  lemma TextTaken(cfg: Config, c: State, s: Session, text: seq<byte>, x: seq<byte>)
    requires |text| < 0x8000_0000 && Awaits(c, s, 0)
    ensures Did(cfg, c, [3, 0, 0, 0] + Four(|text|) + text + x, if cfg.viewOnly then [] else [Clipboard(text)], c, x)
  {
    var q := [3, 0, 0, 0] + (Four(|text|) + (text + x));
    assert [3, 0, 0, 0] + Four(|text|) + text + x == q;
    FourRead(|text|, text + x);
    SignedRead(|text|);
    hide Four, U32, Signed32, Run;
    assert q[4..] == Four(|text|) + (text + x);
    assert q[8..] == q[4..][4..];
    TextStep(cfg, c, q, text, x);
    RunUnfolds(cfg, c, q);
  }

  lemma TextStep(cfg: Config, c: State, q: seq<byte>, text: seq<byte>, x: seq<byte>)
    requires c.rects == 0 && !c.halted && |q| >= 8 && q[0] == 3 && U32(q[4..]) == |text| && q[8..] == text + x
    requires Signed32(|text|) == |text|
    ensures Step(cfg, c, q) == Next(c, 8 + |text|, if cfg.viewOnly then [] else [Clipboard(text)])
    ensures |q| >= 8 + |text| && q[8 + |text|..] == x
  {
    hide U32, Signed32;
    assert q[8..8 + |text|] == q[8..][..|text|] == text;
    assert q[8 + |text|..] == q[8..][|text|..] == x;
  }

  lemma FenceTaken(cfg: Config, c: State, s: Session, flags: nat, payload: seq<byte>, x: seq<byte>) returns (c': State)
    requires 0x8000_0000 <= flags < 0x1_0000_0000 && |payload| <= 64 && Awaits(c, s, 0)
    ensures Awaits(c', s, 0)
    ensures Did(cfg, c, [248, 0, 0, 0] + Four(flags) + [|payload|] + payload + x, [ClientFence(flags % 4, payload)],
                c', x)
  {
    hide U32, Run;
    var q := [248, 0, 0, 0] + Four(flags) + [|payload|] + payload + x;
    FourRead(flags, [|payload|] + payload + x);
    assert |Four(flags)| == 4;
    hide Four;
    assert q[0] == 248 && q[4..] == Four(flags) + ([|payload|] + payload + x);
    assert q[8] == |payload|;
    assert q[9..9 + |payload|] == payload && q[9 + |payload|..] == x;
    RunUnfolds(cfg, c, q);
    c' := c.(supportsFence := true);
  }

  lemma SmallTaken(cfg: Config, c: State, s: Session, m: Message, x: seq<byte>) returns (c': State)
    requires (m.RingBell? || m.EndOfContinuousUpdates? || m.PowerOffer?) && Awaits(c, s, 0)
    ensures Awaits(c', Later(s, m), 0) && Did(cfg, c, Encoded(cfg.depth8, s, m) + x, Asked(cfg, s, m), c', x)
  {
    hide Run;
    var e := Encoded(cfg.depth8, s, m);
    var q := e + x;
    assert q[0] == e[0] && q[|e|..] == x;
    RunUnfolds(cfg, c, q);
    c' := Step(cfg, c, q).c;
  }

  lemma MessageTaken(cfg: Config, c: State, s: Session, m: Message, x: seq<byte>) returns (c': State)
    requires Valid(cfg.depth8, s, m) && Awaits(c, s, 0)
    ensures Awaits(c', Later(s, m), 0) && Did(cfg, c, Encoded(cfg.depth8, s, m) + x, Asked(cfg, s, m), c', x)
  {
    hide Run, Did, Awaits, Four;
    match m
    case Update(_, _) => c' := UpdateTaken(cfg, c, s, m, x);
    case CutText(text) =>
      TextTaken(cfg, c, s, text, x);
      c' := c;
    case Fence(flags, payload) => c' := FenceTaken(cfg, c, s, flags, payload, x);
    case RingBell => c' := SmallTaken(cfg, c, s, m, x);
    case EndOfContinuousUpdates => c' := SmallTaken(cfg, c, s, m, x);
    case PowerOffer(_) => c' := SmallTaken(cfg, c, s, m, x);
  }

  lemma {:induction false} StreamTaken(cfg: Config, c: State, s: Session, ms: seq<Message>) returns (c': State)
    requires AllValid(cfg.depth8, s, ms) && Awaits(c, s, 0)
    ensures c'.rects == 0 && !c'.failed
    ensures Run(cfg, c, Stream(cfg.depth8, s, ms)) == Result(c', [], AllAsked(cfg, s, ms))
    decreases |ms|
  {
    if |ms| == 0 {
      hide Run;
      RunUnfolds(cfg, c, []);
      c' := c;
    } else {
      hide Run, Awaits, Encoded, Asked, Later, Valid;
      var s1 := Later(s, ms[0]);
      var c1 := MessageTaken(cfg, c, s, ms[0], Stream(cfg.depth8, s1, ms[1..]));
      c' := StreamTaken(cfg, c1, s1, ms[1..]);
    }
  }

  /**
   * For every session of messages and every cutting of its bytes, a new client does exactly what
   * the messages ask for, in order, and nothing else; it is then between two messages again.
   */
  lemma SessionIsShown(cfg: Config, w: nat, h: nat, ms: seq<Message>, chunks: seq<seq<byte>>)
    requires AllValid(cfg.depth8, Begun(w, h), ms) && Concat(chunks) == Stream(cfg.depth8, Begun(w, h), ms)
    ensures var r := FeedAll(cfg, Fresh(w, h), chunks);
            r.out == AllAsked(cfg, Begun(w, h), ms) && r.rest == [] && r.c.rects == 0 && !r.c.failed
  {
    hide Run, Step, Stream, AllAsked;
    var r := Fresh(w, h);
    assert Awaits(r.c, Begun(w, h), 0);
    var c' := StreamTaken(cfg, r.c, Begun(w, h), ms);
    assert r.rest + Concat(chunks) == Concat(chunks);
    NothingFails(cfg, r, chunks);
  }

  lemma NothingFails(cfg: Config, r: Result, chunks: seq<seq<byte>>)
    requires r == Fresh(r.c.fbWidth, r.c.fbHeight) && !Whole(cfg, r, Concat(chunks)).c.failed
    ensures FeedAll(cfg, r, chunks) == Whole(cfg, r, Concat(chunks))
  {
    hide Run, Step;
    SmallSteps(cfg, r.c);
    assert Idle(cfg, r);
    assert Honest(r);
    CutFailsAlike(cfg, r, chunks);
    ChunksAreOneMessage(cfg, r, chunks);
  }
}
