/**
 * The two-level display of display.js: drawing goes to a hidden canvas and marks the damage;
 * `flip` copies the damage that the viewport shows to the visible canvas. Drawing that has to
 * wait for an image goes through a render queue.
 */
module Display {
  import opened Bytes
  import opened Canvas

  datatype View = View(x: int, y: int, w: int, h: int)
  datatype Bounds = Bounds(left: int, top: int, right: int, bottom: int)

  const NO_DAMAGE := Bounds(65535, 65535, 0, 0)

  type ImageId = nat

  datatype Action =
    | Flip
    | CopyRect(oldX: int, oldY: int, x: int, y: int, w: int, h: int)
    | FillRect(x: int, y: int, w: int, h: int, color: Pixel)
    | Blit(x: int, y: int, w: int, h: int, data: seq<byte>)
    | Image(id: ImageId, pic: Picture, x: int, y: int, w: int, h: int)

  /** What has happened to the hidden canvas. */
  datatype Effect = Drew(action: Action) | Sized(w: int, h: int)

  /**
   * `complete` holds the images that can be drawn, `loaded` those whose load event has come,
   * `listening` those whose load event will resume the queue. `submitted` and `history` record
   * every drawing call and every effect.
   */
  datatype State = State(
    fbW: int, fbH: int, view: View, clip: bool, damage: Bounds, back: Canvas, target: Canvas,
    queue: seq<Action>, complete: set<ImageId>, loaded: set<ImageId>, listening: set<ImageId>,
    flushing: bool, flushes: nat, submitted: seq<Action>, history: seq<Effect>)

  /** A new canvas element is 300 by 150. */
  const START := State(0, 0, View(0, 0, 0, 0), false, Bounds(0, 0, 300, 150), Blank(300, 150), Blank(0, 0),
                       [], {}, {}, {}, false, 0, [], [])

  // ---------------------------------------------------------------- drawing

  function Damage(b: Bounds, x: int, y: int, w: int, h: int): Bounds {
    Bounds(if x < b.left then x else b.left, if y < b.top then y else b.top,
           if x + w > b.right then x + w else b.right, if y + h > b.bottom then y + h else b.bottom)
  }

  /** One axis of the area to flip: the damage cut to the viewport, as position and length. */
  function Cut(from: int, to: int, at: int, size: int): (r: (int, int)) {
    var v := from - at;
    var start := if v < 0 then from - v else from;
    var skipped := if v < 0 then 0 else v;
    var length := if v < 0 then to - from + v else to - from;
    (start, if skipped + length > size then size - skipped else length)
  }

  function Flipped(view: View, damage: Bounds, back: Canvas, target: Canvas): Canvas {
    var x := Cut(damage.left, damage.right, view.x, view.w);
    var y := Cut(damage.top, damage.bottom, view.y, view.h);
    if x.1 > 0 && y.1 > 0 then DrawFrom(target, back, x.0, y.0, x.1, y.1, x.0 - view.x, y.0 - view.y) else target
  }

  function DoFlip(s: State): State {
    s.(target := Flipped(s.view, s.damage, s.back, s.target), damage := NO_DAMAGE)
  }

  /** The hidden canvas after a drawing action. */
  function Drawn(back: Canvas, a: Action): Canvas {
    match a
    case Flip => back
    case CopyRect(oldX, oldY, x, y, w, h) => DrawFrom(back, back, oldX, oldY, w, h, x, y)
    case FillRect(x, y, w, h, color) => Fill(back, x, y, w, h, color)
    case Blit(x, y, w, h, data) => Put(back, x, y, w, h, data)
    case Image(_, pic, x, y, _, _) => DrawPicture(back, pic, x, y)
  }

  predicate Within(i: int, j: int, x: int, y: int, w: int, h: int) { x <= i < x + w && y <= j < y + h }

  /**
   * What each action shows, pixel by pixel: a fill its colour, a copy what was at the same
   * distance from the old corner, a blit its row-major data, an image its own pixels; all of them
   * at their own places within the framebuffer, and nothing changes anywhere else.
   */
  lemma DrawsThere(back: Canvas, a: Action, i: int, j: int)
    ensures Drawn(back, a).w == back.w && Drawn(back, a).h == back.h
    ensures var after, before := Drawn(back, a).px(i, j), back.px(i, j);
            match a
            case Flip => after == before
            case FillRect(x, y, w, h, color) =>
              after == if back.Has(i, j) && Within(i, j, x, y, w, h) then color else before
            case CopyRect(oldX, oldY, x, y, w, h) =>
              var u, v := oldX + (i - x), oldY + (j - y);
              after == if back.Has(i, j) && Within(i, j, x, y, w, h) && back.Has(u, v) && back.px(u, v).Solid?
                       then back.px(u, v) else before
            case Blit(x, y, w, h, data) =>
              var k := (j - y) * w + (i - x);
              back.Has(i, j) && Within(i, j, x, y, w, h) ==>
                (0 <= k && 4 * k + 2 < |data| ==> after == Solid(data[4 * k], data[4 * k + 1], data[4 * k + 2]))
            case Image(_, pic, x, y, _, _) =>
              var u, v := i - x, j - y;
              after == if back.Has(i, j) && Within(u, v, 0, 0, pic.w, pic.h) && pic.px(u, v).Solid?
                       then pic.px(u, v) else before
    ensures a.Blit? && !(back.Has(i, j) && Within(i, j, a.x, a.y, a.w, a.h))
        ==> Drawn(back, a).px(i, j) == back.px(i, j)
  {
    match a
    case Flip =>
    case FillRect(x, y, w, h, color) => assert Filled(back, x, y, w, h, color)(i, j) == Drawn(back, a).px(i, j);
    case CopyRect(oldX, oldY, x, y, w, h) =>
      assert Composed(back, back, oldX, oldY, w, h, x, y)(i, j) == Drawn(back, a).px(i, j);
    case Blit(x, y, w, h, data) => assert Replaced(back, x, y, w, h, data)(i, j) == Drawn(back, a).px(i, j);
    case Image(_, pic, x, y, _, _) =>
      var src := Canvas(pic.w, pic.h, pic.px);
      assert Composed(back, src, 0, 0, pic.w, pic.h, x, y)(i, j) == Drawn(back, a).px(i, j);
  }

  function Damaged(b: Bounds, a: Action): Bounds {
    match a
    case Flip => b
    case CopyRect(_, _, x, y, w, h) => Damage(b, x, y, w, h)
    case FillRect(x, y, w, h, _) => Damage(b, x, y, w, h)
    case Blit(x, y, w, h, _) => Damage(b, x, y, w, h)
    case Image(_, pic, x, y, _, _) => Damage(b, x, y, pic.w, pic.h)
  }

  /** An action carried out, whether at once or from the queue. */
  function Execute(s: State, a: Action): State {
    var t := if a.Flip? then DoFlip(s) else s.(back := Drawn(s.back, a), damage := Damaged(s.damage, a));
    t.(history := s.history + [Drew(a)])
  }

  // ---------------------------------------------------------------- the render queue

  predicate Ready(s: State, a: Action) {
    a.Image? ==> a.id in s.complete && a.pic.w == a.w && a.pic.h == a.h
  }

  /** Draw from the front until an image has to be waited for, or has the wrong size. */
  function Scan(s: State): State
    decreases |s.queue|
  {
    if |s.queue| == 0 then
      if s.flushing then s.(flushing := false, flushes := s.flushes + 1) else s
    else if Ready(s, s.queue[0]) then
      Scan(Execute(s, s.queue[0]).(queue := s.queue[1..]))
    else if s.queue[0].id in s.complete then s
    else s.(listening := s.listening + {s.queue[0].id})
  }

  function Push(s: State, a: Action): State {
    var t := s.(queue := s.queue + [a]);
    if |t.queue| == 1 then Scan(t) else t
  }

  /** A drawing call: queued behind waiting images, or carried out now. */
  function Submit(s: State, a: Action): State {
    var t := s.(submitted := s.submitted + [a]);
    if |t.queue| > 0 || a.Image? then Push(t, a) else Execute(t, a)
  }

  /** The browser finishes decoding an image. */
  function Completed(s: State, id: ImageId): State { s.(complete := s.complete + {id}) }

  /** Its load event arrives, once; it is complete then, and the listener is removed. */
  function Loaded(s: State, id: ImageId): State {
    if id in s.loaded then s else
      var t := s.(complete := s.complete + {id}, loaded := s.loaded + {id});
      if id in t.listening then Scan(t.(listening := t.listening - {id})) else t
  }

  /** A `flush` call: whether its promise is resolved at once. */
  function Flush(s: State): State {
    if |s.queue| == 0 then s else s.(flushing := true)
  }

  // ---------------------------------------------------------------- the viewport

  /** One axis of `viewportChangePos`. */
  function Shifted(at: int, size: int, fb: int, delta: int): int {
    var d := if at + delta < 0 then -at else delta;
    var last := at + size - 1;
    at + if last + d >= fb then d - (last + d - fb + 1) else d
  }

  function ChangePos(s: State, deltaX: real, deltaY: real): State {
    var x := Shifted(s.view.x, s.view.w, s.fbW, if s.clip then deltaX.Floor else -s.view.w);
    var y := Shifted(s.view.y, s.view.h, s.fbH, if s.clip then deltaY.Floor else -s.view.h);
    if x == s.view.x && y == s.view.y then s else
      Submit(s.(view := View(x, y, s.view.w, s.view.h), damage := Damage(s.damage, x, y, s.view.w, s.view.h)), Flip)
  }

  function Limited(size: Option<real>, other: Option<real>, clip: bool, fb: int): int {
    var n := if !clip || size.None? || other.None? then fb else size.value.Floor;
    if n > fb then fb else n
  }

  /** `None` is an undefined argument. */
  function ChangeSize(s: State, width: Option<real>, height: Option<real>): State {
    var w := Limited(width, height, s.clip, s.fbW);
    var h := Limited(height, width, s.clip, s.fbH);
    if s.view.w == w && s.view.h == h then s else
      var t := ChangePos(s.(view := View(s.view.x, s.view.y, w, h), target := Blank(w, h)), 0.0, 0.0);
      Submit(t.(damage := Damage(t.damage, t.view.x, t.view.y, w, h)), Flip)
  }

  /** The viewport brought back into the framebuffer. */
  function Readjust(s: State): State {
    ChangePos(ChangeSize(s, Some(s.view.w as real), Some(s.view.h as real)), 0.0, 0.0)
  }

  function SetClip(s: State, clip: bool): State { Readjust(s.(clip := clip)) }

  function SizedTo(s: State, width: nat, height: nat): State {
    var t := s.(fbW := width, fbH := height);
    if t.back.w != width || t.back.h != height
    then t.(back := Resized(t.back, width, height), history := t.history + [Sized(width, height)])
    else t
  }

  function Resize(s: State, width: nat, height: nat): State { Readjust(SizedTo(s, width, height)) }

  // ---------------------------------------------------------------- runs

  datatype Call =
    | Draw(action: Action)
    | ImageCompletes(id: ImageId)
    | ImageLoads(id: ImageId)
    | AwaitFlush
    | Pan(dx: real, dy: real)
    | SizeView(w: Option<real>, h: Option<real>)
    | Clip(on: bool)
    | ResizeTo(fbW: nat, fbH: nat)

  /** Sizes come from the page's layout and are not negative. */
  predicate Sensible(c: Call) {
    c.SizeView? ==> (c.w.Some? ==> c.w.value >= 0.0) && (c.h.Some? ==> c.h.value >= 0.0)
  }

  /** An empty image is not drawn. */
  function Step(s: State, c: Call): State {
    match c
    case Draw(a) => if a.Image? && (a.w == 0 || a.h == 0) then s else Submit(s, a)
    case ImageCompletes(id) => Completed(s, id)
    case ImageLoads(id) => Loaded(s, id)
    case AwaitFlush => Flush(s)
    case Pan(dx, dy) => ChangePos(s, dx, dy)
    case SizeView(w, h) => ChangeSize(s, w, h)
    case Clip(on) => SetClip(s, on)
    case ResizeTo(w, h) => Resize(s, w, h)
  }

  function Run(calls: seq<Call>): State {
    if |calls| == 0 then START else Step(Run(calls[..|calls| - 1]), calls[|calls| - 1])
  }

  // ---------------------------------------------------------------- the viewport stays inside

  predicate Fits(v: View, fbW: int, fbH: int) {
    0 <= v.x && 0 <= v.w && v.x + v.w <= fbW && 0 <= v.y && 0 <= v.h && v.y + v.h <= fbH
  }

  /** The visible canvas has the viewport's size. */
  predicate Matched(s: State) { s.target.w == s.view.w && s.target.h == s.view.h }

  /** What holds even between the steps of an adjustment. */
  ghost predicate Loose(s: State) {
    && 0 <= s.view.x && 0 <= s.view.y && 0 <= s.view.w && 0 <= s.view.h && 0 <= s.fbW && 0 <= s.fbH
    && Matched(s)
    && ((s.fbW == s.back.w && s.fbH == s.back.h) || s.fbW == s.fbH == 0)
  }

  /** The viewport is inside the framebuffer, and all of it when there is no clipping. */
  ghost predicate Placed(s: State) {
    && Loose(s)
    && Fits(s.view, s.fbW, s.fbH)
    && (!s.clip ==> s.view == View(0, 0, s.fbW, s.fbH))
  }

  function Clamp(v: int, low: int, high: int): int {
    if v > high then high else if v < low then low else v
  }

  lemma ShiftedClamps(at: int, size: int, fb: int, delta: int)
    requires 0 <= at && 0 <= size <= fb
    ensures Shifted(at, size, fb, delta) == Clamp(at + delta, 0, fb - size)
  {
  }

  /** Everything that drawing leaves alone. */
  ghost predicate SameLayout(s: State, t: State) {
    && t.fbW == s.fbW && t.fbH == s.fbH && t.view == s.view && t.clip == s.clip
    && t.back.w == s.back.w && t.back.h == s.back.h && t.target.w == s.target.w && t.target.h == s.target.h
  }

  lemma ExecuteLayout(s: State, a: Action)
    ensures SameLayout(s, Execute(s, a))
  {
  }

  lemma {:induction false} ScanLayout(s: State)
    ensures SameLayout(s, Scan(s))
    decreases |s.queue|
  {
    if |s.queue| > 0 && Ready(s, s.queue[0]) {
      ExecuteLayout(s, s.queue[0]);
      hide Execute;
      ScanLayout(Execute(s, s.queue[0]).(queue := s.queue[1..]));
    }
  }

  lemma SubmitLayout(s: State, a: Action)
    ensures SameLayout(s, Submit(s, a))
  {
    var t := s.(submitted := s.submitted + [a]);
    ExecuteLayout(t, a);
    ScanLayout(t.(queue := t.queue + [a]));
    hide Execute, Scan;
  }

  lemma ChangePosLands(s: State, dx: real, dy: real)
    requires Loose(s) && s.view.w <= s.fbW && s.view.h <= s.fbH && (!s.clip ==> s.view.w == s.fbW && s.view.h == s.fbH)
    ensures Placed(ChangePos(s, dx, dy))
    ensures var v := ChangePos(s, dx, dy).view;
            v == View(if s.clip then Clamp(s.view.x + dx.Floor, 0, s.fbW - s.view.w) else 0,
                      if s.clip then Clamp(s.view.y + dy.Floor, 0, s.fbH - s.view.h) else 0, s.view.w, s.view.h)
    ensures ChangePos(s, dx, dy).fbW == s.fbW && ChangePos(s, dx, dy).fbH == s.fbH
        && ChangePos(s, dx, dy).clip == s.clip
  {
    var x := Shifted(s.view.x, s.view.w, s.fbW, if s.clip then dx.Floor else -s.view.w);
    var y := Shifted(s.view.y, s.view.h, s.fbH, if s.clip then dy.Floor else -s.view.h);
    ShiftedClamps(s.view.x, s.view.w, s.fbW, if s.clip then dx.Floor else -s.view.w);
    ShiftedClamps(s.view.y, s.view.h, s.fbH, if s.clip then dy.Floor else -s.view.h);
    hide Shifted;
    var t := s.(view := View(x, y, s.view.w, s.view.h), damage := Damage(s.damage, x, y, s.view.w, s.view.h));
    SubmitLayout(t, Flip);
    hide Submit;
  }

  /** A pan of a placed viewport lands at the clamped position; an unclipped viewport does not move. */
  lemma PanLands(s: State, dx: real, dy: real)
    requires Placed(s)
    ensures Placed(ChangePos(s, dx, dy))
    ensures var v := ChangePos(s, dx, dy).view;
            if s.clip
            then v == View(Clamp(s.view.x + dx.Floor, 0, s.fbW - s.view.w),
                           Clamp(s.view.y + dy.Floor, 0, s.fbH - s.view.h), s.view.w, s.view.h)
            else v == View(0, 0, s.fbW, s.fbH)
  {
    ChangePosLands(s, dx, dy);
    hide ChangePos;
  }

  ghost predicate SizeOk(size: Option<real>) { size.Some? ==> size.value >= 0.0 }

  lemma LimitedIn(size: Option<real>, other: Option<real>, clip: bool, fb: int)
    requires 0 <= fb && SizeOk(size)
    ensures 0 <= Limited(size, other, clip, fb) <= fb && (!clip ==> Limited(size, other, clip, fb) == fb)
  {
  }

  /** The size asked for, cut to the framebuffer; the position follows only if the size changes. */
  lemma ChangeSizeFits(s: State, width: Option<real>, height: Option<real>)
    requires Loose(s) && SizeOk(width) && SizeOk(height)
    ensures var t := ChangeSize(s, width, height);
            && Loose(t) && t.fbW == s.fbW && t.fbH == s.fbH && t.clip == s.clip
            && t.view.w == Limited(width, height, s.clip, s.fbW) && t.view.h == Limited(height, width, s.clip, s.fbH)
            && (Placed(s) || t.view.w != s.view.w || t.view.h != s.view.h ==> Placed(t))
  {
    var w := Limited(width, height, s.clip, s.fbW);
    var h := Limited(height, width, s.clip, s.fbH);
    LimitedIn(width, height, s.clip, s.fbW);
    LimitedIn(height, width, s.clip, s.fbH);
    hide Limited;
    if !(s.view.w == w && s.view.h == h) {
      var u := s.(view := View(s.view.x, s.view.y, w, h), target := Blank(w, h));
      ChangePosLands(u, 0.0, 0.0);
      var t := ChangePos(u, 0.0, 0.0);
      hide ChangePos;
      SubmitLayout(t.(damage := Damage(t.damage, t.view.x, t.view.y, w, h)), Flip);
      hide Submit;
    }
  }

  lemma ReadjustPlaces(s: State)
    requires Loose(s)
    ensures Placed(Readjust(s)) && Readjust(s).fbW == s.fbW && Readjust(s).fbH == s.fbH && Readjust(s).clip == s.clip
  {
    var w, h := Some(s.view.w as real), Some(s.view.h as real);
    ChangeSizeFits(s, w, h);
    LimitedIn(w, h, s.clip, s.fbW);
    LimitedIn(h, w, s.clip, s.fbH);
    hide Limited, ChangeSize, ChangePos;
    ChangePosLands(ChangeSize(s, w, h), 0.0, 0.0);
  }

  /** After every kind of call the viewport is where it should be. */
  lemma StepPlaces(s: State, c: Call)
    requires Placed(s) && Sensible(c)
    ensures Placed(Step(s, c))
  {
    match c
    case Draw(a) => SubmitLayout(s, a); hide Submit;
    case ImageCompletes(_) =>
    case ImageLoads(id) =>
      ScanLayout(s.(complete := s.complete + {id}, loaded := s.loaded + {id}, listening := s.listening - {id}));
      hide Scan;
    case AwaitFlush =>
    case Pan(dx, dy) => ChangePosLands(s, dx, dy); hide ChangePos;
    case SizeView(w, h) => ChangeSizeFits(s, w, h); hide ChangeSize;
    case Clip(on) => ReadjustPlaces(s.(clip := on)); hide Readjust;
    case ResizeTo(w, h) =>
      var t := s.(fbW := w, fbH := h);
      ReadjustPlaces(if t.back.w != w || t.back.h != h
                     then t.(back := Resized(t.back, w, h), history := t.history + [Sized(w, h)]) else t);
      hide Readjust;
  }

  // ---------------------------------------------------------------- the visible canvas agrees

  predicate InBounds(b: Bounds, x: int, y: int) {
    b.left <= x < b.right && b.top <= y < b.bottom
  }

  /** What the visible canvas has at framebuffer position `(x, y)`. */
  function Shown(s: State, x: int, y: int): Pixel {
    s.target.px(x - s.view.x, y - s.view.y)
  }

  predicate InView(v: View, x: int, y: int) { InRect(x, y, v.x, v.y, v.w, v.h) }

  /** The viewport shows a drawn pixel wrongly. */
  predicate Wrong(s: State, x: int, y: int) {
    InView(s.view, x, y) && s.back.Has(x, y) && s.back.px(x, y).Solid? && Shown(s, x, y) != s.back.px(x, y)
  }

  /** Display agreement: wherever that is so, the damage bounds say it. */
  ghost predicate Tracked(s: State) {
    forall x, y | Wrong(s, x, y) :: InBounds(s.damage, x, y)
  }

  lemma CutIs(from: int, to: int, at: int, size: int, p: int)
    ensures var r := Cut(from, to, at, size); r.0 <= p < r.0 + r.1 <==> from <= p < to && at <= p < at + size
  {
    var r := Cut(from, to, at, size);
    assert r.0 == if from < at then at else from;
    assert r.0 + r.1 == if to - at > size then at + size else to;
  }

  /** A flip copies exactly the drawn pixels that are both damaged and in view. */
  lemma FlippedPixel(s: State, x: int, y: int)
    requires Matched(s) && InView(s.view, x, y)
    ensures Shown(DoFlip(s), x, y)
         == if InBounds(s.damage, x, y) && s.back.Has(x, y) && s.back.px(x, y).Solid?
            then s.back.px(x, y) else Shown(s, x, y)
  {
    CutIs(s.damage.left, s.damage.right, s.view.x, s.view.w, x);
    CutIs(s.damage.top, s.damage.bottom, s.view.y, s.view.h, y);
    var a := Cut(s.damage.left, s.damage.right, s.view.x, s.view.w);
    var b := Cut(s.damage.top, s.damage.bottom, s.view.y, s.view.h);
    hide Cut;
    var i, j := x - s.view.x, y - s.view.y;
    assert InBounds(s.damage, x, y) <==> InRect(i, j, a.0 - s.view.x, b.0 - s.view.y, a.1, b.1);
    assert s.target.Has(i, j);
    assert InBounds(s.damage, x, y)
        ==> DoFlip(s).target == DrawFrom(s.target, s.back, a.0, b.0, a.1, b.1, a.0 - s.view.x, b.0 - s.view.y);
  }

  /** So after a flip no drawn pixel is shown wrongly. */
  lemma FlipShows(s: State, x: int, y: int)
    requires Matched(s) && Tracked(s)
    ensures !Wrong(DoFlip(s), x, y)
  {
    if InView(s.view, x, y) {
      FlippedPixel(s, x, y);
      assert Wrong(s, x, y) ==> InBounds(s.damage, x, y);
    }
  }

  /**
   * The visible canvas is the window of the hidden one exactly when every window pixel that was
   * never drawn was clear on the visible canvas before the flip.
   */
  lemma FlipIsExactWhen(s: State)
    requires Placed(s) && Tracked(s)
    ensures (forall x, y | InView(s.view, x, y) :: Shown(DoFlip(s), x, y) == s.back.px(x, y))
       <==> (forall x, y | InView(s.view, x, y) && s.back.px(x, y).Clear? :: Shown(s, x, y).Clear?)
  {
    forall x, y | InView(s.view, x, y)
      ensures Shown(DoFlip(s), x, y) == if s.back.px(x, y).Clear? then Shown(s, x, y) else s.back.px(x, y)
    {
      FlippedPixel(s, x, y);
      assert Wrong(s, x, y) ==> InBounds(s.damage, x, y);
    }
    hide DoFlip;
  }

  /** Where an action draws. */
  predicate Covers(a: Action, x: int, y: int) {
    match a
    case Flip => false
    case CopyRect(_, _, left, top, w, h) => InRect(x, y, left, top, w, h)
    case FillRect(left, top, w, h, _) => InRect(x, y, left, top, w, h)
    case Blit(left, top, w, h, _) => InRect(x, y, left, top, w, h)
    case Image(_, pic, left, top, _, _) => InRect(x, y, left, top, pic.w, pic.h)
  }

  lemma DrawnOutside(back: Canvas, a: Action, x: int, y: int)
    requires !Covers(a, x, y)
    ensures Drawn(back, a).px(x, y) == back.px(x, y)
  {
  }

  lemma DamageCovers(b: Bounds, a: Action, x: int, y: int)
    ensures InBounds(b, x, y) || Covers(a, x, y) ==> InBounds(Damaged(b, a), x, y)
  {
  }

  lemma ExecuteTracks(s: State, a: Action)
    requires Matched(s) && Tracked(s)
    ensures Tracked(Execute(s, a))
  {
    var t := Execute(s, a);
    forall x, y | Wrong(t, x, y)
      ensures InBounds(t.damage, x, y)
    {
      if a.Flip? {
        FlipShows(s, x, y);
        hide DoFlip;
      } else {
        DamageCovers(s.damage, a, x, y);
        hide Drawn;
        if !Covers(a, x, y) {
          DrawnOutside(s.back, a, x, y);
          ExecuteLayout(s, a);
          assert Wrong(s, x, y);
        }
      }
    }
  }

  lemma {:induction false} ScanTracks(s: State)
    requires Matched(s) && Tracked(s)
    ensures Tracked(Scan(s))
    decreases |s.queue|
  {
    if |s.queue| > 0 && Ready(s, s.queue[0]) {
      var t := Execute(s, s.queue[0]);
      ExecuteTracks(s, s.queue[0]);
      ExecuteLayout(s, s.queue[0]);
      assert Tracked(t.(queue := s.queue[1..])) by { SameTracks(t, t.(queue := s.queue[1..])); }
      hide Execute, Tracked;
      ScanTracks(t.(queue := s.queue[1..]));
    } else {
      SameTracks(s, Scan(s));
    }
  }

  lemma SameTracks(s: State, t: State)
    requires Tracked(s) && t.view == s.view && t.back == s.back && t.target == s.target && t.damage == s.damage
    ensures Tracked(t)
  {
    forall x, y | Wrong(t, x, y) ensures InBounds(t.damage, x, y) { assert Wrong(s, x, y); }
  }

  lemma SubmitTracks(s: State, a: Action)
    requires Matched(s) && Tracked(s)
    ensures Tracked(Submit(s, a))
  {
    var t := s.(submitted := s.submitted + [a]);
    SameTracks(s, t);
    SameTracks(s, t.(queue := t.queue + [a]));
    hide Tracked;
    ExecuteTracks(t, a);
    ScanTracks(t.(queue := t.queue + [a]));
    hide Execute, Scan;
  }

  function WholeView(s: State): State {
    s.(damage := Damage(s.damage, s.view.x, s.view.y, s.view.w, s.view.h))
  }

  /** With the whole viewport damaged nothing can be missed. */
  lemma WholeViewTracks(s: State)
    ensures Tracked(WholeView(s))
  {
  }

  lemma ChangePosTracks(s: State, dx: real, dy: real)
    requires Matched(s) && Tracked(s)
    ensures Tracked(ChangePos(s, dx, dy))
  {
    var x := Shifted(s.view.x, s.view.w, s.fbW, if s.clip then dx.Floor else -s.view.w);
    var y := Shifted(s.view.y, s.view.h, s.fbH, if s.clip then dy.Floor else -s.view.h);
    ChangePosIs(s, dx, dy);
    hide Tracked, Shifted, Submit, ChangePos;
    if ChangePos(s, dx, dy) != s {
      var t := s.(view := View(x, y, s.view.w, s.view.h));
      WholeViewTracks(t);
      SubmitTracks(WholeView(t), Flip);
    }
  }

  lemma ChangePosIs(s: State, dx: real, dy: real)
    ensures var x := Shifted(s.view.x, s.view.w, s.fbW, if s.clip then dx.Floor else -s.view.w);
            var y := Shifted(s.view.y, s.view.h, s.fbH, if s.clip then dy.Floor else -s.view.h);
            ChangePos(s, dx, dy) == s
                || ChangePos(s, dx, dy) == Submit(WholeView(s.(view := View(x, y, s.view.w, s.view.h))), Flip)
  {
    hide Submit, Shifted;
  }

  lemma ChangeSizeIs(s: State, width: Option<real>, height: Option<real>)
    ensures var w := Limited(width, height, s.clip, s.fbW); var h := Limited(height, width, s.clip, s.fbH);
            var u := s.(view := View(s.view.x, s.view.y, w, h), target := Blank(w, h));
            ChangeSize(s, width, height) == s
            || (ChangePos(u, 0.0, 0.0).view.w == w && ChangePos(u, 0.0, 0.0).view.h == h
                ==> ChangeSize(s, width, height) == Submit(WholeView(ChangePos(u, 0.0, 0.0)), Flip))
  {
    hide Submit, Limited, ChangePos;
  }

  lemma ChangePosMatched(s: State, dx: real, dy: real)
    ensures var t := ChangePos(s, dx, dy);
            t.view.w == s.view.w && t.view.h == s.view.h && t.target.w == s.target.w && t.target.h == s.target.h
  {
    var x := Shifted(s.view.x, s.view.w, s.fbW, if s.clip then dx.Floor else -s.view.w);
    var y := Shifted(s.view.y, s.view.h, s.fbH, if s.clip then dy.Floor else -s.view.h);
    ChangePosIs(s, dx, dy);
    SubmitLayout(WholeView(s.(view := View(x, y, s.view.w, s.view.h))), Flip);
    hide ChangePos, Submit, Shifted;
  }

  lemma ChangeSizeTracks(s: State, width: Option<real>, height: Option<real>)
    requires Matched(s) && Tracked(s)
    ensures Tracked(ChangeSize(s, width, height)) && Matched(ChangeSize(s, width, height))
  {
    var w := Limited(width, height, s.clip, s.fbW);
    var h := Limited(height, width, s.clip, s.fbH);
    var u := s.(view := View(s.view.x, s.view.y, w, h), target := Blank(w, h));
    ChangeSizeIs(s, width, height);
    ChangePosMatched(u, 0.0, 0.0);
    hide Tracked, Limited, Submit, ChangePos, ChangeSize;
    var t := ChangePos(u, 0.0, 0.0);
    WholeViewTracks(t);
    SubmitTracks(WholeView(t), Flip);
    SubmitLayout(WholeView(t), Flip);
  }

  lemma ReadjustTracks(s: State)
    requires Matched(s) && Tracked(s)
    ensures Tracked(Readjust(s)) && Matched(Readjust(s))
  {
    hide ChangeSize, ChangePos, Tracked;
    var w, h := Some(s.view.w as real), Some(s.view.h as real);
    ChangeSizeTracks(s, w, h);
    ChangePosTracks(ChangeSize(s, w, h), 0.0, 0.0);
    ChangePosMatched(ChangeSize(s, w, h), 0.0, 0.0);
  }

  /** A new framebuffer size keeps the drawn pixels that still fit. */
  lemma ResizedTracks(s: State, w: int, h: int)
    requires Tracked(s)
    ensures Tracked(s.(back := Resized(s.back, w, h)))
  {
    var t := s.(back := Resized(s.back, w, h));
    forall x, y | Wrong(t, x, y) ensures InBounds(t.damage, x, y) { assert Wrong(s, x, y); }
  }

  lemma StepTracks(s: State, c: Call)
    requires Matched(s) && Tracked(s)
    ensures Tracked(Step(s, c))
  {
    match c
    case Draw(a) => SubmitTracks(s, a); hide Submit, Tracked;
    case ImageCompletes(id) => SameTracks(s, Step(s, c));
    case ImageLoads(id) =>
      var t := s.(complete := s.complete + {id}, loaded := s.loaded + {id});
      SameTracks(s, t);
      var u := t.(listening := t.listening - {id});
      SameTracks(s, u);
      hide Tracked;
      ScanTracks(u);
      hide Scan;
    case AwaitFlush => SameTracks(s, Step(s, c));
    case Pan(dx, dy) => ChangePosTracks(s, dx, dy); hide ChangePos, Tracked;
    case SizeView(w, h) => ChangeSizeTracks(s, w, h); hide ChangeSize, Tracked;
    case Clip(on) =>
      SameTracks(s, s.(clip := on));
      ReadjustTracks(s.(clip := on));
      hide Readjust, Tracked;
    case ResizeTo(w, h) =>
      var t := s.(fbW := w, fbH := h);
      SameTracks(s, t);
      if t.back.w != w || t.back.h != h {
        var u := t.(back := Resized(t.back, w, h));
        ResizedTracks(t, w, h);
        var v := u.(history := t.history + [Sized(w, h)]);
        SameTracks(u, v);
        hide Tracked;
        ReadjustTracks(v);
      } else {
        ReadjustTracks(t);
      }
      hide Readjust, Tracked;
  }

  // ---------------------------------------------------------------- the order of drawing

  /** The drawing actions of a history. */
  function Actions(history: seq<Effect>): seq<Action> {
    if |history| == 0 then []
    else
      var e := history[|history| - 1];
      Actions(history[..|history| - 1]) + if e.Drew? then [e.action] else []
  }

  /** The hidden canvas that the effects make of a new one, in the order in which they happened. */
  function Rebuilt(history: seq<Effect>): Canvas {
    if |history| == 0 then Blank(300, 150)
    else
      var back := Rebuilt(history[..|history| - 1]);
      AfterEffect(back, history[|history| - 1])
  }

  function AfterEffect(back: Canvas, e: Effect): Canvas {
    match e
    case Drew(a) => Drawn(back, a)
    case Sized(w, h) => Resized(back, w, h)
  }

  lemma HistorySnoc(history: seq<Effect>, e: Effect)
    ensures Actions(history + [e]) == Actions(history) + if e.Drew? then [e.action] else []
    ensures Rebuilt(history + [e]) == AfterEffect(Rebuilt(history), e)
  {
    assert (history + [e])[..|history|] == history;
  }

  /** What was drawn and then what is queued is everything submitted, in order. */
  ghost predicate Ordered(s: State) {
    && Actions(s.history) + s.queue == s.submitted
    && s.back == Rebuilt(s.history)
    && s.loaded <= s.complete && s.listening !! s.loaded
  }

  /** A queue that stands still stands at an image: its load event is to come, or its size is wrong. */
  ghost predicate Resting(s: State) {
    && (|s.queue| > 0 ==>
          && s.queue[0].Image?
          && (s.queue[0].id in s.listening || (s.queue[0].id in s.complete && !Ready(s, s.queue[0]))))
    && (s.flushing ==> |s.queue| > 0)
  }

  lemma ExecuteOrders(s: State, a: Action, queue: seq<Action>)
    requires Actions(s.history) + ([a] + queue) == s.submitted && s.back == Rebuilt(s.history)
    requires s.loaded <= s.complete && s.listening !! s.loaded
    ensures Ordered(Execute(s, a).(queue := queue))
  {
    HistorySnoc(s.history, Drew(a));
    assert Actions(s.history) + [a] + queue == Actions(s.history) + ([a] + queue);
    hide Actions, Rebuilt, Drawn, Damaged, Flipped;
    assert a.Flip? ==> Drawn(s.back, a) == s.back by { FlipDraws(s.back); }
  }

  lemma FlipDraws(back: Canvas)
    ensures Drawn(back, Flip) == back
  {
  }

  ghost predicate Sound(s: State) { Ordered(s) && Resting(s) }

  /** A scan leaves a queue at rest, and resolves the flush promise exactly if that queue is empty. */
  lemma {:induction false} ScanOrders(s: State)
    requires Ordered(s)
    ensures Sound(Scan(s))
    ensures Scan(s).flushes == s.flushes + if s.flushing && Scan(s).queue == [] then 1 else 0
    decreases |s.queue|
  {
    if |s.queue| > 0 && Ready(s, s.queue[0]) {
      assert s.queue == [s.queue[0]] + s.queue[1..];
      ExecuteOrders(s, s.queue[0], s.queue[1..]);
      ExecuteRests(s, s.queue[0]);
      hide Execute, Ordered, Resting;
      ScanOrders(Execute(s, s.queue[0]).(queue := s.queue[1..]));
    }
  }

  /** A call that keeps the queue sound without resolving a promise. */
  ghost predicate Quiet(s: State, t: State) {
    Sound(t) && t.flushes == s.flushes && t.flushing == s.flushing
  }

  lemma SubmitOrders(s: State, a: Action)
    requires Sound(s)
    ensures Quiet(s, Submit(s, a))
  {
    hide Actions, Rebuilt, Drawn;
    var t := s.(submitted := s.submitted + [a]);
    var u := t.(queue := t.queue + [a]);
    assert Actions(s.history) + (s.queue + [a]) == s.submitted + [a];
    if |s.queue| == 0 && !a.Image? {
      assert [a] + [] == s.queue + [a];
      ExecuteOrders(t, a, []);
      ExecuteRests(t, a);
      hide Execute;
    } else if |s.queue| == 0 {
      ScanOrders(u);
      ScanStaysQuiet(u);
      hide Scan;
    }
  }

  lemma {:induction false} ScanStaysQuiet(s: State)
    requires !s.flushing
    ensures !Scan(s).flushing
    decreases |s.queue|
  {
    if |s.queue| > 0 && Ready(s, s.queue[0]) {
      ExecuteRests(s, s.queue[0]);
      hide Execute;
      ScanStaysQuiet(Execute(s, s.queue[0]).(queue := s.queue[1..]));
    }
  }

  lemma ExecuteRests(s: State, a: Action)
    ensures var t := Execute(s, a);
            t.queue == s.queue && t.flushing == s.flushing && t.flushes == s.flushes
            && t.complete == s.complete && t.listening == s.listening
  {
  }

  /** The viewport and the damage have no part in it. */
  lemma SameOrders(s: State, t: State)
    requires t.queue == s.queue && t.submitted == s.submitted && t.history == s.history && t.back == s.back
    requires t.complete == s.complete && t.loaded == s.loaded && t.listening == s.listening && t.flushing == s.flushing
    ensures Sound(t) == Sound(s)
  {
  }

  lemma ChangePosOrders(s: State, dx: real, dy: real)
    requires Sound(s)
    ensures Quiet(s, ChangePos(s, dx, dy))
  {
    var x := Shifted(s.view.x, s.view.w, s.fbW, if s.clip then dx.Floor else -s.view.w);
    var y := Shifted(s.view.y, s.view.h, s.fbH, if s.clip then dy.Floor else -s.view.h);
    var t := WholeView(s.(view := View(x, y, s.view.w, s.view.h)));
    ChangePosIs(s, dx, dy);
    SameOrders(s, t);
    hide Shifted, Submit, ChangePos, Sound;
    SubmitOrders(t, Flip);
  }

  lemma ChangeSizeOrders(s: State, width: Option<real>, height: Option<real>)
    requires Sound(s)
    ensures Quiet(s, ChangeSize(s, width, height))
  {
    var w := Limited(width, height, s.clip, s.fbW);
    var h := Limited(height, width, s.clip, s.fbH);
    var u := s.(view := View(s.view.x, s.view.y, w, h), target := Blank(w, h));
    ChangeSizeIs(s, width, height);
    ChangePosMatched(u, 0.0, 0.0);
    SameOrders(s, u);
    hide Limited, Submit, ChangePos, ChangeSize, Ordered, Resting;
    ChangePosOrders(u, 0.0, 0.0);
    var t := ChangePos(u, 0.0, 0.0);
    SameOrders(t, WholeView(t));
    SubmitOrders(WholeView(t), Flip);
  }

  lemma ReadjustOrders(s: State)
    requires Sound(s)
    ensures Quiet(s, Readjust(s))
  {
    hide ChangeSize, ChangePos, Sound;
    var w, h := Some(s.view.w as real), Some(s.view.h as real);
    ChangeSizeOrders(s, w, h);
    ChangePosOrders(ChangeSize(s, w, h), 0.0, 0.0);
  }

  lemma ResizeOrders(s: State, w: nat, h: nat)
    requires Sound(s)
    ensures Quiet(s, Resize(s, w, h))
  {
    var t := s.(fbW := w, fbH := h);
    SameOrders(s, t);
    if t.back.w != w || t.back.h != h {
      var u := t.(back := Resized(t.back, w, h), history := t.history + [Sized(w, h)]);
      HistorySnoc(t.history, Sized(w, h));
      assert Actions(t.history) + [] == Actions(t.history);
      hide Actions, Rebuilt, Resized;
      assert Sound(u);
      hide Sound, Readjust;
      ReadjustOrders(u);
    } else {
      hide Sound, Readjust;
      ReadjustOrders(t);
    }
  }

  lemma LoadedOrders(s: State, id: ImageId)
    requires Sound(s)
    ensures Sound(Loaded(s, id))
    ensures Loaded(s, id).flushes == s.flushes + if s.flushing && Loaded(s, id).queue == [] then 1 else 0
  {
    var t := s.(complete := s.complete + {id}, loaded := s.loaded + {id});
    var u := t.(listening := t.listening - {id});
    hide Actions, Rebuilt;
    assert Ordered(u);
    ScanOrders(u);
    hide Scan;
  }

  /**
   * Every call keeps the submission order and a queue that waits for an image, and resolves the
   * flush promise exactly when it leaves the queue empty.
   */
  lemma StepOrders(s: State, c: Call)
    requires Sound(s)
    ensures Sound(Step(s, c))
    ensures Step(s, c).flushes == s.flushes + if s.flushing && Step(s, c).queue == [] then 1 else 0
  {
    match c
    case Draw(a) => SubmitOrders(s, a); hide Submit, Ordered;
    case ImageCompletes(id) => hide Actions, Rebuilt;
    case ImageLoads(id) => LoadedOrders(s, id); hide Loaded;
    case AwaitFlush => hide Actions, Rebuilt;
    case Pan(dx, dy) => ChangePosOrders(s, dx, dy); hide ChangePos, Ordered;
    case SizeView(w, h) => ChangeSizeOrders(s, w, h); hide ChangeSize, Ordered;
    case Clip(on) =>
      SameOrders(s, s.(clip := on));
      ReadjustOrders(s.(clip := on));
      hide Readjust, Ordered;
    case ResizeTo(w, h) => ResizeOrders(s, w, h); hide Resize, Ordered;
  }

  /**
   * In every run: the viewport is placed, the damage covers every wrong pixel, drawing happens
   * in submission order and the queue rests at an image.
   */
  lemma {:induction false} RunKept(calls: seq<Call>)
    requires forall c | c in calls :: Sensible(c)
    ensures Placed(Run(calls)) && Tracked(Run(calls)) && Sound(Run(calls))
  {
    if |calls| == 0 {
      assert Rebuilt([]) == Blank(300, 150);
    } else {
      var s := Run(calls[..|calls| - 1]);
      hide Step, Tracked, Sound;
      RunKept(calls[..|calls| - 1]);
      assert Matched(s);
      hide Placed;
      StepPlaces(s, calls[|calls| - 1]);
      StepTracks(s, calls[|calls| - 1]);
      StepOrders(s, calls[|calls| - 1]);
    }
  }

  // ---------------------------------------------------------------- where it falls short

  predicate RightSize(a: Action) { a.Image? ==> a.pic.w == a.w && a.pic.h == a.h }

  /** The load event of the image a queue waits for draws it exactly when its size is as announced. */
  lemma LoadDrawsExactlyWhen(s: State)
    requires Sound(s) && |s.queue| > 0 && s.queue[0].id !in s.loaded && s.queue[0].id in s.listening
    ensures |Loaded(s, s.queue[0].id).history| > |s.history| <==> RightSize(s.queue[0])
  {
    var a := s.queue[0];
    var t := s.(complete := s.complete + {a.id}, loaded := s.loaded + {a.id}, listening := s.listening - {a.id});
    if RightSize(a) {
      ScanGrows(Execute(t, a).(queue := t.queue[1..]));
    }
  }

  lemma {:induction false} ScanGrows(s: State)
    ensures |Scan(s).history| >= |s.history|
    decreases |s.queue|
  {
    if |s.queue| > 0 && Ready(s, s.queue[0]) {
      ScanGrows(Execute(s, s.queue[0]).(queue := s.queue[1..]));
    }
  }

  ghost predicate Stuck(s: State) { |s.queue| > 0 && !RightSize(s.queue[0]) }

  ghost predicate StaysStuck(s: State, t: State) {
    |s.queue| > 0 && Stuck(t) && t.queue[0] == s.queue[0] && Actions(t.history) == Actions(s.history)
  }

  lemma SubmitStuck(s: State, a: Action)
    requires Stuck(s)
    ensures StaysStuck(s, Submit(s, a))
  {
    hide Actions;
  }

  lemma ChangePosStuck(s: State, dx: real, dy: real)
    requires Stuck(s)
    ensures StaysStuck(s, ChangePos(s, dx, dy))
  {
    var x := Shifted(s.view.x, s.view.w, s.fbW, if s.clip then dx.Floor else -s.view.w);
    var y := Shifted(s.view.y, s.view.h, s.fbH, if s.clip then dy.Floor else -s.view.h);
    ChangePosIs(s, dx, dy);
    SubmitStuck(WholeView(s.(view := View(x, y, s.view.w, s.view.h))), Flip);
    hide Shifted, ChangePos, Submit, Actions;
  }

  lemma ChangeSizeStuck(s: State, width: Option<real>, height: Option<real>)
    requires Stuck(s)
    ensures StaysStuck(s, ChangeSize(s, width, height))
  {
    var u := s.(view := View(s.view.x, s.view.y, Limited(width, height, s.clip, s.fbW),
                             Limited(height, width, s.clip, s.fbH)),
                target := Blank(Limited(width, height, s.clip, s.fbW), Limited(height, width, s.clip, s.fbH)));
    ChangeSizeIs(s, width, height);
    ChangePosMatched(u, 0.0, 0.0);
    hide Limited, ChangePos, ChangeSize, Submit, Actions;
    ChangePosStuck(u, 0.0, 0.0);
    SubmitStuck(WholeView(ChangePos(u, 0.0, 0.0)), Flip);
  }

  lemma ReadjustStuck(s: State)
    requires Stuck(s)
    ensures StaysStuck(s, Readjust(s))
  {
    hide ChangeSize, ChangePos, Actions;
    var w, h := Some(s.view.w as real), Some(s.view.h as real);
    ChangeSizeStuck(s, w, h);
    ChangePosStuck(ChangeSize(s, w, h), 0.0, 0.0);
  }

  /** An image of the wrong size at the head stops the queue for good: no call draws anything. */
  lemma StuckForGood(s: State, c: Call)
    requires Stuck(s)
    ensures StaysStuck(s, Step(s, c))
  {
    match c
    case Draw(a) => SubmitStuck(s, a); hide Submit, Actions;
    case ImageCompletes(id) =>
    case ImageLoads(id) => hide Actions;
    case AwaitFlush =>
    case Pan(dx, dy) => ChangePosStuck(s, dx, dy); hide ChangePos, Actions;
    case SizeView(w, h) => ChangeSizeStuck(s, w, h); hide ChangeSize, Actions;
    case Clip(on) => ReadjustStuck(s.(clip := on)); hide Readjust, Actions;
    case ResizeTo(w, h) =>
      var t := s.(fbW := w, fbH := h);
      HistorySnoc(t.history, Sized(w, h));
      assert Actions(t.history) + [] == Actions(t.history);
      hide Readjust, Actions;
      ReadjustStuck(if t.back.w != w || t.back.h != h
                    then t.(back := Resized(t.back, w, h), history := t.history + [Sized(w, h)]) else t);
  }

  /** What the immediate path draws from an array that starts at `at` in its buffer. */
  function Immediate(buffer: seq<byte>, at: nat, n: nat): seq<byte>
    requires at + n <= |buffer|
  {
    buffer[at..at + n]
  }

  /** What the queue keeps of it. */
  function Queued(buffer: seq<byte>, n: nat): seq<byte>
    requires n <= |buffer|
  {
    buffer[..n]
  }

  /** A queued blit has the right data, for every buffer, exactly when the array starts at zero or is empty. */
  lemma QueuedBlitExactlyWhen(at: nat, n: nat)
    ensures (forall buffer: seq<byte> | at + n <= |buffer| :: Queued(buffer, n) == Immediate(buffer, at, n))
        <==> at == 0 || n == 0
  {
    if at > 0 && n > 0 {
      var buffer: seq<byte> := seq(at + n, (i: nat) => if i == at then 1 else 0);
      assert Queued(buffer, n)[0] != Immediate(buffer, at, n)[0];
    }
  }

  /** Framebuffer contents that were never drawn: a pan onto them shows what was there before. */
  lemma PanShowsStale(s: State, red: Pixel)
    requires Placed(s) && s.clip && s.fbW == 2 && s.fbH == 1 && s.view == View(0, 0, 1, 1) && s.queue == []
        && red.Solid?
    requires s.back.px(1, 0).Clear? && s.target.px(0, 0) == red
    ensures var t := ChangePos(s, 1.0, 0.0);
            t.view == View(1, 0, 1, 1) && t.back.px(1, 0).Clear? && Shown(t, 1, 0) == red
  {
    ShiftedClamps(0, 1, 2, 1);
    ShiftedClamps(0, 1, 1, 0);
    assert 1.0.Floor == 1 && 0.0.Floor == 0;
    var t := WholeView(s.(view := View(1, 0, 1, 1)));
    assert ChangePos(s, 1.0, 0.0) == Submit(t, Flip);
    FlippedPixel(t.(submitted := t.submitted + [Flip]), 1, 0);
  }

  /** A run to such a state: two pixels wide, clipped to one, and only the first one drawn. */
  function StaleRun(red: Pixel): seq<Call> {
    [ResizeTo(2, 1), Clip(true), SizeView(Some(1.0), Some(1.0)), Draw(FillRect(0, 0, 1, 1, red)), Draw(Flip)]
  }

  lemma Unrolled(calls: seq<Call>, n: nat)
    requires n < |calls|
    ensures Run(calls[..n + 1]) == Step(Run(calls[..n]), calls[n])
    ensures n == 0 ==> Run(calls[..0]) == START
  {
    assert calls[..n + 1][..n] == calls[..n];
  }

  /** Nothing is queued or shown beyond what is said here. */
  ghost predicate AtStale(s: State, clip: bool, w: int) {
    && s.clip == clip && s.fbW == 2 && s.fbH == 1 && s.view == View(0, 0, w, 1) && s.queue == []
    && s.back.w == 2 && s.back.h == 1 && s.back.px(1, 0).Clear? && s.target.w == w && s.target.h == 1
  }

  lemma FlipSteps(s: State)
    requires s.queue == []
    ensures Submit(s, Flip) == s.(target := DoFlip(s).target, damage := NO_DAMAGE,
                                  submitted := s.submitted + [Flip], history := s.history + [Drew(Flip)])
  {
  }

  lemma StaleResized(s: State)
    requires s == START
    ensures AtStale(Step(s, ResizeTo(2, 1)), false, 2)
  {
    var t := s.(fbW := 2, fbH := 1, back := Resized(s.back, 2, 1), history := s.history + [Sized(2, 1)]);
    ReadjustFull(t);
  }

  lemma ReadjustFull(s: State)
    requires !s.clip && s.view == View(0, 0, 0, 0) && s.fbW == 2 && s.fbH == 1 && s.queue == []
    ensures var t := Readjust(s);
            t.view == View(0, 0, 2, 1) && t.queue == [] && t.back == s.back && t.target.w == 2 && t.target.h == 1
            && t.fbW == 2 && t.fbH == 1 && !t.clip
  {
    var u := s.(view := View(0, 0, 2, 1), target := Blank(2, 1));
    assert Shifted(0, 2, 2, -2) == 0 && Shifted(0, 1, 1, -1) == 0;
    assert ChangePos(u, 0.0, 0.0) == u;
    var v := u.(damage := Damage(u.damage, 0, 0, 2, 1));
    FlipSteps(v);
    assert ChangeSize(s, Some(0.0), Some(0.0)) == Submit(v, Flip);
    hide Flipped;
    assert ChangePos(Submit(v, Flip), 0.0, 0.0) == Submit(v, Flip);
  }

  lemma StaleClipped(s: State)
    requires AtStale(s, false, 2)
    ensures AtStale(Step(s, Clip(true)), true, 2)
  {
    var t := s.(clip := true);
    assert (2 as real).Floor == 2 && (1 as real).Floor == 1 && 0.0.Floor == 0;
    assert ChangeSize(t, Some(2 as real), Some(1 as real)) == t;
    assert ChangePos(t, 0.0, 0.0) == t;
  }

  lemma StaleSized(s: State)
    requires AtStale(s, true, 2)
    ensures AtStale(Step(s, SizeView(Some(1.0), Some(1.0))), true, 1)
  {
    var u := s.(view := View(0, 0, 1, 1), target := Blank(1, 1));
    assert 1.0.Floor == 1 && 0.0.Floor == 0;
    assert ChangePos(u, 0.0, 0.0) == u;
    var v := WholeView(u);
    FlipSteps(v);
    assert Step(s, SizeView(Some(1.0), Some(1.0))) == Submit(v, Flip);
    hide Flipped;
  }

  lemma StaleDrawn(s: State, red: Pixel)
    requires AtStale(s, true, 1) && red.Solid?
    ensures var t := Step(Step(s, Draw(FillRect(0, 0, 1, 1, red))), Draw(Flip));
            AtStale(t, true, 1) && t.target.px(0, 0) == red
  {
    var t := Step(s, Draw(FillRect(0, 0, 1, 1, red)));
    assert t.back == Fill(s.back, 0, 0, 1, 1, red);
    assert s.back.Has(0, 0) && InRect(0, 0, 0, 0, 1, 1);
    assert Filled(s.back, 0, 0, 1, 1, red)(0, 0) == red;
    assert t.back.px(0, 0) == red && AtStale(t, true, 1) && InBounds(t.damage, 0, 0);
    FlipSteps(t);
    FlippedPixel(t, 0, 0);
  }

  /**
   * The case happens: after this run and a pan of one pixel, the visible canvas shows the first
   * pixel's colour where the framebuffer was never drawn.
   */
  lemma StaleHappens(red: Pixel)
    requires red.Solid?
    ensures var t := Run(StaleRun(red) + [Pan(1.0, 0.0)]);
            t.view == View(1, 0, 1, 1) && t.back.px(1, 0).Clear? && Shown(t, 1, 0) == red
  {
    var r := StaleRun(red) + [Pan(1.0, 0.0)];
    var calls := StaleRun(red);
    Unrolled(r, 0);
    Unrolled(r, 1);
    Unrolled(r, 2);
    Unrolled(r, 3);
    Unrolled(r, 4);
    Unrolled(r, 5);
    assert r[..6] == r && r[3] == Draw(FillRect(0, 0, 1, 1, red)) && r[4] == Draw(Flip) && r[5] == Pan(1.0, 0.0);
    assert r[0] == ResizeTo(2, 1) && r[1] == Clip(true) && r[2] == SizeView(Some(1.0), Some(1.0));
    hide Run, Step;
    StaleResized(Run(r[..0]));
    StaleClipped(Run(r[..1]));
    StaleSized(Run(r[..2]));
    StaleDrawn(Run(r[..3]), red);
    PanIs(Run(r[..5]));
    PanShowsStale(Run(r[..5]), red);
  }

  lemma PanIs(s: State)
    ensures Step(s, Pan(1.0, 0.0)) == ChangePos(s, 1.0, 0.0)
  {
  }

  // ---------------------------------------------------------------- the object

  class Display {
    var fbWidth: int
    var fbHeight: int
    var viewportLoc: View
    var clipViewport: bool
    var damageBounds: Bounds
    var backbuffer: Canvas
    var target: Canvas
    var renderQ: seq<Action>
    var complete: set<ImageId>
    var loaded: set<ImageId>
    var listening: set<ImageId>
    var flushPromise: bool
    var flushes: nat
    ghost var submitted: seq<Action>
    ghost var history: seq<Effect>

    ghost function Current(): State
      reads this
    {
      State(fbWidth, fbHeight, viewportLoc, clipViewport, damageBounds, backbuffer, target,
            renderQ, complete, loaded, listening, flushPromise, flushes, submitted, history)
    }

    ghost predicate Valid()
      reads this
    {
      Placed(Current()) && Tracked(Current()) && Sound(Current())
    }

    /** RFB hands over a visible canvas of no size. */
    constructor ()
      ensures Valid() && Current() == START
    {
      fbWidth, fbHeight, viewportLoc, clipViewport := 0, 0, View(0, 0, 0, 0), false;
      damageBounds, backbuffer, target := Bounds(0, 0, 300, 150), Blank(300, 150), Blank(0, 0);
      renderQ, complete, loaded, listening := [], {}, {}, {};
      flushPromise, flushes, submitted, history := false, 0, [], [];
      new;
      RunKept([]);
    }

    method MarkDamage(x: int, y: int, w: int, h: int)
      modifies this`damageBounds
      ensures damageBounds == Damage(old(damageBounds), x, y, w, h)
    {
      if x < damageBounds.left {
        damageBounds := damageBounds.(left := x);
      }
      if y < damageBounds.top {
        damageBounds := damageBounds.(top := y);
      }
      if x + w > damageBounds.right {
        damageBounds := damageBounds.(right := x + w);
      }
      if y + h > damageBounds.bottom {
        damageBounds := damageBounds.(bottom := y + h);
      }
    }

    /** The part of `flip` that copies. */
    method CopyDamage()
      modifies this`target, this`damageBounds
      ensures Current() == DoFlip(old(Current()))
    {
      var x, y := damageBounds.left, damageBounds.top;
      var w, h := damageBounds.right - x, damageBounds.bottom - y;
      var vx, vy := x - viewportLoc.x, y - viewportLoc.y;
      if vx < 0 {
        w := w + vx;
        x := x - vx;
        vx := 0;
      }
      if vy < 0 {
        h := h + vy;
        y := y - vy;
        vy := 0;
      }
      if vx + w > viewportLoc.w {
        w := viewportLoc.w - vx;
      }
      if vy + h > viewportLoc.h {
        h := viewportLoc.h - vy;
      }
      hide Composed;
      if w > 0 && h > 0 {
        target := DrawFrom(target, backbuffer, x, y, w, h, vx, vy);
      }
      damageBounds := Bounds(65535, 65535, 0, 0);
    }

    /** What the drawing methods do when they need not queue. */
    method Perform(a: Action)
      modifies this
      ensures Current() == Execute(old(Current()), a)
    {
      hide Composed, Filled, Replaced, Flipped, Damage;
      match a {
        case Flip =>
          CopyDamage();
        case CopyRect(oldX, oldY, x, y, w, h) =>
          backbuffer := DrawFrom(backbuffer, backbuffer, oldX, oldY, w, h, x, y);
          MarkDamage(x, y, w, h);
        case FillRect(x, y, w, h, color) =>
          backbuffer := Fill(backbuffer, x, y, w, h, color);
          MarkDamage(x, y, w, h);
        case Blit(x, y, w, h, data) =>
          backbuffer := Put(backbuffer, x, y, w, h, data);
          MarkDamage(x, y, w, h);
        case Image(_, pic, x, y, _, _) =>
          backbuffer := DrawPicture(backbuffer, pic, x, y);
          MarkDamage(x, y, pic.w, pic.h);
      }
      history := history + [Drew(a)];
    }

    method ScanRenderQ()
      modifies this
      ensures Current() == Scan(old(Current()))
    {
      hide Execute;
      ghost var result := Scan(Current());
      var ready := true;
      while ready && |renderQ| > 0
        invariant if ready then Scan(Current()) == result else Current() == result && |renderQ| > 0
        decreases |renderQ|, ready
      {
        var a := renderQ[0];
        if a.Image? {
          if a.id in complete {
            if a.pic.w != a.w || a.pic.h != a.h {
              return;
            }
          } else {
            listening := listening + {a.id};
            ready := false;
          }
        }
        if ready {
          ExecuteRests(Current(), a);
          Perform(a);
          renderQ := renderQ[1..];
        }
      }
      if |renderQ| == 0 && flushPromise {
        flushes := flushes + 1;
        flushPromise := false;
      }
    }

    method RenderQPush(a: Action)
      modifies this
      ensures Current() == Push(old(Current()), a)
    {
      hide Scan;
      renderQ := renderQ + [a];
      if |renderQ| == 1 {
        ScanRenderQ();
      }
    }

    /** `flip`, `fillRect`, `copyImage` and `blitImage` of an array that starts at zero. */
    method DrawOrQueue(a: Action)
      requires !a.Image?
      modifies this
      ensures Current() == Submit(old(Current()), a)
    {
      hide Push, Execute;
      submitted := submitted + [a];
      if |renderQ| > 0 {
        RenderQPush(a);
      } else {
        Perform(a);
      }
    }

    method ImageRect(a: Action)
      requires Valid() && a.Image?
      modifies this
      ensures Current() == Step(old(Current()), Draw(a)) && Valid()
    {
      StepValid(Current(), Draw(a));
      hide Push, Execute, Placed, Tracked, Sound;
      if a.w == 0 || a.h == 0 {
        return;
      }
      submitted := submitted + [a];
      RenderQPush(a);
    }

    /** The browser has decoded an image; its event may come later. */
    method ImageComplete(id: ImageId)
      requires Valid()
      modifies this
      ensures Current() == Completed(old(Current()), id) && Valid()
    {
      StepValid(Current(), ImageCompletes(id));
      complete := complete + {id};
    }

    /** The load event of an image, which resumes the queue if it was waited for. */
    method OnLoad(id: ImageId)
      requires Valid() && id !in loaded
      modifies this
      ensures Current() == Loaded(old(Current()), id) && Valid()
    {
      StepValid(Current(), ImageLoads(id));
      hide Scan, Placed, Tracked, Sound;
      complete, loaded := complete + {id}, loaded + {id};
      if id in listening {
        listening := listening - {id};
        ScanRenderQ();
      }
    }

    /** Whether the promise is resolved already. */
    method FlushQueue() returns (now: bool)
      requires Valid()
      modifies this
      ensures Current() == Flush(old(Current())) && Valid() && now == (renderQ == [])
    {
      StepValid(Current(), AwaitFlush);
      if |renderQ| == 0 {
        return true;
      }
      flushPromise := true;
      now := false;
    }

    method ViewportChangePos(deltaX: real, deltaY: real)
      requires viewportLoc.x >= 0
      modifies this
      ensures Current() == ChangePos(old(Current()), deltaX, deltaY)
    {
      hide Submit;
      var vp := viewportLoc;
      var dx, dy := deltaX.Floor, deltaY.Floor;
      if !clipViewport {
        dx, dy := -vp.w, -vp.h;
      }
      var vx2, vy2 := vp.x + vp.w - 1, vp.y + vp.h - 1;
      if dx < 0 && vp.x + dx < 0 {
        dx := -vp.x;
      }
      if vx2 + dx >= fbWidth {
        dx := dx - (vx2 + dx - fbWidth + 1);
      }
      if vp.y + dy < 0 {
        dy := -vp.y;
      }
      if vy2 + dy >= fbHeight {
        dy := dy - (vy2 + dy - fbHeight + 1);
      }
      assert vp.x + dx == Shifted(vp.x, vp.w, fbWidth, if clipViewport then deltaX.Floor else -vp.w);
      assert vp.y + dy == Shifted(vp.y, vp.h, fbHeight, if clipViewport then deltaY.Floor else -vp.h);
      hide Shifted;
      if dx == 0 && dy == 0 {
        return;
      }
      viewportLoc := View(vp.x + dx, vp.y + dy, vp.w, vp.h);
      MarkDamage(viewportLoc.x, viewportLoc.y, vp.w, vp.h);
      DrawOrQueue(Flip);
    }

    method ViewportChangeSize(width0: Option<real>, height0: Option<real>)
      requires viewportLoc.x >= 0
      modifies this
      ensures Current() == ChangeSize(old(Current()), width0, height0)
    {
      hide Submit, ChangePos;
      var width, height := fbWidth, fbHeight;
      if clipViewport && width0.Some? && height0.Some? {
        width, height := width0.value.Floor, height0.value.Floor;
      }
      if width > fbWidth {
        width := fbWidth;
      }
      if height > fbHeight {
        height := fbHeight;
      }
      assert width == Limited(width0, height0, clipViewport, fbWidth);
      assert height == Limited(height0, width0, clipViewport, fbHeight);
      hide Limited, Damage;
      if viewportLoc.w != width || viewportLoc.h != height {
        viewportLoc := View(viewportLoc.x, viewportLoc.y, width, height);
        target := Blank(width, height);
        ChangePosMatched(Current(), 0.0, 0.0);
        ViewportChangePos(0.0, 0.0);
        MarkDamage(viewportLoc.x, viewportLoc.y, viewportLoc.w, viewportLoc.h);
        DrawOrQueue(Flip);
      }
    }

    /** The last two calls of the `clipViewport` setter and of `resize`. */
    method ReadjustViewport()
      requires Loose(Current())
      modifies this
      ensures Current() == Readjust(old(Current()))
    {
      AdjustKeepsLeft(Current());
      hide ChangeSize, ChangePos;
      var vp := viewportLoc;
      ViewportChangeSize(Some(vp.w as real), Some(vp.h as real));
      ViewportChangePos(0.0, 0.0);
    }

    method SetClipViewport(viewport: bool)
      requires Valid()
      modifies this
      ensures Current() == SetClip(old(Current()), viewport) && Valid()
    {
      StepValid(Current(), Clip(viewport));
      hide Tracked, Sound, Readjust;
      clipViewport := viewport;
      ReadjustViewport();
    }

    method SetSize(width: nat, height: nat)
      modifies this
      ensures Current() == SizedTo(old(Current()), width, height)
    {
      fbWidth, fbHeight := width, height;
      if backbuffer.w != width || backbuffer.h != height {
        backbuffer := Resized(backbuffer, width, height);
        history := history + [Sized(width, height)];
      }
    }

    method ResizeFramebuffer(width: nat, height: nat)
      requires Valid()
      modifies this
      ensures Current() == Resize(old(Current()), width, height) && Valid()
    {
      StepValid(Current(), ResizeTo(width, height));
      SizedLoose(Current(), width, height);
      hide Placed, Loose, Tracked, Sound, Readjust, SizedTo;
      SetSize(width, height);
      ReadjustViewport();
    }

    /** The queued copy starts at the buffer's beginning, the immediate one at the array's. */
    method BlitImage(x: int, y: int, width: nat, height: nat, buffer: seq<byte>, byteOffset: nat, offset: nat)
      requires Valid() && byteOffset + offset + width * height * 4 <= |buffer|
      modifies this
      ensures var n := width * height * 4;
              Current() == Submit(old(Current()), Blit(x, y, width, height,
                if old(renderQ) != [] then Queued(buffer, n) else Immediate(buffer, byteOffset + offset, n)))
      ensures Valid()
    {
      var n := width * height * 4;
      var data := if renderQ != [] then buffer[..n] else buffer[byteOffset + offset..byteOffset + offset + n];
      StepValid(Current(), Draw(Blit(x, y, width, height, data)));
      hide Submit, Placed, Tracked, Sound;
      DrawOrQueue(Blit(x, y, width, height, data));
    }
  }

  lemma SizedLoose(s: State, width: nat, height: nat)
    requires Loose(s)
    ensures Loose(SizedTo(s, width, height))
  {
  }

  lemma AdjustKeepsLeft(s: State)
    requires Loose(s)
    ensures ChangeSize(s, Some(s.view.w as real), Some(s.view.h as real)).view.x >= 0
  {
    ChangeSizeFits(s, Some(s.view.w as real), Some(s.view.h as real));
    hide ChangeSize;
  }

  lemma StepValid(s: State, c: Call)
    requires Placed(s) && Tracked(s) && Sound(s) && Sensible(c)
    ensures Placed(Step(s, c)) && Tracked(Step(s, c)) && Sound(Step(s, c))
  {
    assert Matched(s);
    hide Placed, Tracked, Sound, Step;
    StepPlaces(s, c);
    StepTracks(s, c);
    StepOrders(s, c);
  }
}
