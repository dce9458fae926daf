/**
 * Whole runs of the display of display.js: what the render queue changes about the hidden
 * canvas, when it empties, and when the visible canvas is exact.
 */
module DisplayRuns {
  import Arith
  import opened Bytes
  import opened Canvas
  import opened Display

  // ---------------------------------------------------------------- drawing without a queue

  /** One call on a display whose images are always there: nothing waits. */
  function DirectStep(back: Canvas, c: Call): Canvas {
    match c
    case Draw(a) => if a.Image? && (a.w == 0 || a.h == 0) then back else Drawn(back, a)
    case ResizeTo(w, h) => if back.w != w || back.h != h then Resized(back, w, h) else back
    case _ => back
  }

  function Direct(calls: seq<Call>): Canvas {
    if |calls| == 0 then START.back else DirectStep(Direct(calls[..|calls| - 1]), calls[|calls| - 1])
  }

  function DrawAll(back: Canvas, queue: seq<Action>): Canvas
    decreases |queue|
  {
    if |queue| == 0 then back else DrawAll(Drawn(back, queue[0]), queue[1..])
  }

  /** The hidden canvas once everything queued has been drawn. */
  function Pending(s: State): Canvas { DrawAll(s.back, s.queue) }

  lemma {:induction false} DrawAllSnoc(back: Canvas, queue: seq<Action>, a: Action)
    ensures DrawAll(back, queue + [a]) == Drawn(DrawAll(back, queue), a)
    decreases |queue|
  {
    if |queue| > 0 {
      assert (queue + [a])[1..] == queue[1..] + [a];
      DrawAllSnoc(Drawn(back, queue[0]), queue[1..], a);
    } else {
      assert (queue + [a])[1..] == [];
    }
    hide Drawn;
  }

  lemma ExecutePends(s: State, a: Action)
    ensures Execute(s, a).back == Drawn(s.back, a)
  {
    hide Flipped;
  }

  lemma {:induction false} ScanPends(s: State)
    ensures Pending(Scan(s)) == Pending(s) && Scan(s).complete == s.complete
    ensures forall b | b in Scan(s).queue :: b in s.queue
    ensures forall b | b in s.queue :: b in Scan(s).queue || RightSize(b)
    decreases |s.queue|
  {
    if |s.queue| > 0 && Ready(s, s.queue[0]) {
      ExecutePends(s, s.queue[0]);
      ExecuteRests(s, s.queue[0]);
      assert s.queue == [s.queue[0]] + s.queue[1..];
      hide Execute, Drawn;
      ScanPends(Execute(s, s.queue[0]).(queue := s.queue[1..]));
    }
  }

  lemma SubmitPends(s: State, a: Action)
    ensures Pending(Submit(s, a)) == Drawn(Pending(s), a) && Submit(s, a).complete == s.complete
    ensures forall b | b in Submit(s, a).queue :: b in s.queue || b == a
  {
    var t := s.(submitted := s.submitted + [a]);
    ExecutePends(t, a);
    ExecuteRests(t, a);
    DrawAllSnoc(s.back, s.queue, a);
    ScanPends(t.(queue := t.queue + [a]));
    hide Execute, Drawn, Scan;
  }

  /** Nothing is drawn, now or later; only flips can have joined the queue. */
  ghost predicate Onward(s: State, t: State) {
    && Pending(t) == Pending(s) && t.complete == s.complete
    && forall b | b in t.queue :: b in s.queue || b.Flip?
  }

  lemma FlipOnward(s: State, t: State)
    requires t.back == s.back && t.queue == s.queue && t.complete == s.complete
    ensures Onward(s, Submit(t, Flip))
  {
    SubmitPends(t, Flip);
    hide Submit;
  }

  lemma ChangePosOnward(s: State, dx: real, dy: real)
    ensures Onward(s, ChangePos(s, dx, dy))
  {
    var x := Shifted(s.view.x, s.view.w, s.fbW, if s.clip then dx.Floor else -s.view.w);
    var y := Shifted(s.view.y, s.view.h, s.fbH, if s.clip then dy.Floor else -s.view.h);
    ChangePosIs(s, dx, dy);
    FlipOnward(s, WholeView(s.(view := View(x, y, s.view.w, s.view.h))));
    hide Shifted, ChangePos, Submit, DrawAll;
  }

  lemma ChangeSizeOnward(s: State, width: Option<real>, height: Option<real>)
    ensures Onward(s, ChangeSize(s, width, height))
  {
    var w, h := Limited(width, height, s.clip, s.fbW), Limited(height, width, s.clip, s.fbH);
    var u := s.(view := View(s.view.x, s.view.y, w, h), target := Blank(w, h));
    ChangeSizeIs(s, width, height);
    ChangePosMatched(u, 0.0, 0.0);
    hide Limited, ChangePos, ChangeSize, Submit, DrawAll;
    ChangePosOnward(u, 0.0, 0.0);
    var t := ChangePos(u, 0.0, 0.0);
    FlipOnward(t, WholeView(t));
  }

  lemma ReadjustOnward(s: State)
    ensures Onward(s, Readjust(s))
  {
    hide ChangeSize, ChangePos, DrawAll;
    var w, h := Some(s.view.w as real), Some(s.view.h as real);
    ChangeSizeOnward(s, w, h);
    ChangePosOnward(ChangeSize(s, w, h), 0.0, 0.0);
  }

  lemma ResizeOnward(s: State, w: nat, h: nat)
    ensures Onward(SizedTo(s, w, h), Resize(s, w, h))
    ensures SizedTo(s, w, h).queue == s.queue && SizedTo(s, w, h).complete == s.complete
  {
    ReadjustOnward(SizedTo(s, w, h));
    hide Readjust, DrawAll;
  }

  lemma LoadedPends(s: State, id: ImageId)
    ensures Pending(Loaded(s, id)) == Pending(s)
    ensures forall b | b in Loaded(s, id).queue :: b in s.queue
    ensures forall b | b in s.queue :: b in Loaded(s, id).queue || RightSize(b)
    ensures id in Loaded(s, id).loaded && s.loaded <= Loaded(s, id).loaded
  {
    var u := s.(complete := s.complete + {id}, loaded := s.loaded + {id}, listening := s.listening - {id});
    ScanPends(u);
    ScanLoads(u);
    hide Scan, DrawAll;
  }

  lemma {:induction false} ScanLoads(s: State)
    ensures Scan(s).loaded == s.loaded
    decreases |s.queue|
  {
    if |s.queue| > 0 && Ready(s, s.queue[0]) {
      hide Flipped, Drawn;
      ScanLoads(Execute(s, s.queue[0]).(queue := s.queue[1..]));
    }
  }

  predicate Resizes(s: State, c: Call) { c.ResizeTo? && (s.back.w != c.fbW || s.back.h != c.fbH) }

  /** Whatever is queued, a call leads to what it makes of the hidden canvas at once, unless it resizes. */
  lemma StepPends(s: State, c: Call)
    requires Resizes(s, c) ==> s.queue == []
    ensures Pending(Step(s, c)) == DirectStep(Pending(s), c)
  {
    PendingSize(s.back, s.queue);
    match c
    case Draw(a) => SubmitPends(s, a); hide Submit, Drawn, DrawAll;
    case ImageCompletes(id) =>
    case ImageLoads(id) => LoadedPends(s, id); hide Loaded, DrawAll;
    case AwaitFlush =>
    case Pan(dx, dy) => ChangePosOnward(s, dx, dy); hide ChangePos, DrawAll;
    case SizeView(w, h) => ChangeSizeOnward(s, w, h); hide ChangeSize, DrawAll;
    case Clip(on) => ReadjustOnward(s.(clip := on)); hide Readjust, DrawAll;
    case ResizeTo(w, h) => ResizeOnward(s, w, h); hide Readjust;
  }

  lemma {:induction false} PendingSize(back: Canvas, queue: seq<Action>)
    ensures DrawAll(back, queue).w == back.w && DrawAll(back, queue).h == back.h
    decreases |queue|
  {
    if |queue| > 0 { PendingSize(Drawn(back, queue[0]), queue[1..]); }
  }

  /** Every change of the framebuffer's size meets an empty queue. */
  ghost predicate Prompt(calls: seq<Call>) {
    forall k | 0 <= k < |calls| :: Resizes(Run(calls[..k]), calls[k]) ==> Run(calls[..k]).queue == []
  }

  lemma PromptPrefix(calls: seq<Call>, n: nat)
    requires Prompt(calls) && n <= |calls|
    ensures Prompt(calls[..n])
  {
    hide Run;
    forall k | 0 <= k < n
      ensures Resizes(Run(calls[..n][..k]), calls[..n][k]) ==> Run(calls[..n][..k]).queue == []
    {
      assert calls[..n][..k] == calls[..k];
    }
  }

  /**
   * Then the queue changes nothing but the time of drawing: the hidden canvas with the queued
   * actions drawn on it is what the calls make of it when nothing waits.
   */
  lemma {:induction false} QueueOnlyDelays(calls: seq<Call>)
    requires Prompt(calls)
    ensures Pending(Run(calls)) == Direct(calls)
  {
    if |calls| > 0 {
      var n := |calls| - 1;
      PromptPrefix(calls, n);
      QueueOnlyDelays(calls[..n]);
      StepPends(Run(calls[..n]), calls[n]);
      hide Step, Pending;
    }
  }

  /** With the queue empty, everything submitted has been drawn in order; it is as if there had been no queue. */
  lemma DrainedQueue(calls: seq<Call>)
    requires (forall c | c in calls :: Sensible(c)) && Run(calls).queue == []
    ensures Actions(Run(calls).history) == Run(calls).submitted
    ensures Prompt(calls) ==> Run(calls).back == Direct(calls)
  {
    RunKept(calls);
    if Prompt(calls) { QueueOnlyDelays(calls); }
    hide Run, Actions, Rebuilt;
    assert Actions(Run(calls).history) + [] == Actions(Run(calls).history);
  }

  /** The calls that reach the hidden canvas. */
  function Drawing(calls: seq<Call>): seq<Call> {
    if |calls| == 0 then [] else
      var c := calls[|calls| - 1];
      Drawing(calls[..|calls| - 1]) + if c.Draw? || c.ResizeTo? then [c] else []
  }

  lemma DirectSnoc(calls: seq<Call>, c: Call)
    ensures Direct(calls + [c]) == DirectStep(Direct(calls), c)
  {
    assert (calls + [c])[..|calls|] == calls;
    hide DirectStep;
  }

  lemma {:induction false} DirectOfDrawing(calls: seq<Call>)
    ensures Direct(calls) == Direct(Drawing(calls))
  {
    if |calls| > 0 {
      var before, c := calls[..|calls| - 1], calls[|calls| - 1];
      DirectOfDrawing(before);
      DirectSnoc(Drawing(before), c);
      assert Drawing(before) + [] == Drawing(before);
      hide Drawn;
    }
  }

  /** When the images load, in what order, and what the viewport does meanwhile is not seen in the end. */
  lemma LoadTimesDoNotMatter(a: seq<Call>, b: seq<Call>)
    requires Drawing(a) == Drawing(b) && Prompt(a) && Prompt(b)
    requires Run(a).queue == [] && Run(b).queue == []
    ensures Run(a).back == Run(b).back
  {
    QueueOnlyDelays(a);
    QueueOnlyDelays(b);
    DirectOfDrawing(a);
    DirectOfDrawing(b);
    hide Run, Direct, Drawing, Prompt;
  }

  // ---------------------------------------------------------------- when the queue empties

  /** The load events of the images come, in this order. */
  function LoadAll(s: State, ids: seq<ImageId>): State
    decreases |ids|
  {
    if |ids| == 0 then s else LoadAll(Loaded(s, ids[0]), ids[1..])
  }

  lemma {:induction false} LoadAllPends(s: State, ids: seq<ImageId>)
    requires Sound(s)
    ensures Sound(LoadAll(s, ids)) && Pending(LoadAll(s, ids)) == Pending(s)
    ensures forall b | b in LoadAll(s, ids).queue :: b in s.queue
    ensures forall b | b in s.queue :: b in LoadAll(s, ids).queue || RightSize(b)
    ensures forall id | id in ids || id in s.loaded :: id in LoadAll(s, ids).loaded
    decreases |ids|
  {
    hide Sound, Pending, Loaded;
    if |ids| > 0 {
      LoadedPends(s, ids[0]);
      StepOrders(s, ImageLoads(ids[0]));
      assert Step(s, ImageLoads(ids[0])) == Loaded(s, ids[0]);
      assert ids == [ids[0]] + ids[1..];
      LoadAllPends(Loaded(s, ids[0]), ids[1..]);
    }
  }

  /**
   * After the load events of all queued images, in any order, the queue is empty exactly when
   * every image has the announced size.
   */
  lemma DrainsExactlyWhen(s: State, ids: seq<ImageId>)
    requires Sound(s) && forall a | a in s.queue && a.Image? :: a.id in ids
    ensures LoadAll(s, ids).queue == [] <==> forall a | a in s.queue :: RightSize(a)
  {
    LoadAllPends(s, ids);
    var t := LoadAll(s, ids);
    if |t.queue| > 0 {
      assert t.queue[0] in s.queue && t.queue[0].id in t.loaded;
    }
  }

  // ---------------------------------------------------------------- a resize past waiting images

  function Shot(pic: Picture): Action { Image(0, pic, 0, 0, 1, 1) }

  /** An image at the left, red at its right, and a second column. */
  function LateLoad(pic: Picture, red: Pixel): seq<Call> {
    [ResizeTo(1, 1), Draw(Shot(pic)), Draw(FillRect(1, 0, 1, 1, red)), ResizeTo(2, 1), ImageLoads(0)]
  }

  function PromptLoad(pic: Picture, red: Pixel): seq<Call> {
    [ResizeTo(1, 1), Draw(Shot(pic)), ImageLoads(0), Draw(FillRect(1, 0, 1, 1, red)), ResizeTo(2, 1)]
  }

  /** A one-pixel framebuffer, nothing drawn or queued. */
  lemma FirstSize()
    ensures var s := Step(START, ResizeTo(1, 1));
            Sound(s) && s.back == Resized(START.back, 1, 1) && s.queue == [] && s.complete == {}
  {
    var s := Step(START, ResizeTo(1, 1));
    RunKept([]);
    StepOrders(START, ResizeTo(1, 1));
    ResizeOnward(START, 1, 1);
    hide Readjust, Ordered;
    assert s.queue == [];
  }

  /** Then an image of one pixel is waited for. */
  lemma FirstImage(s: State, pic: Picture)
    requires Sound(s) && s.queue == [] && s.complete == {}
    ensures var t := Step(s, Draw(Shot(pic)));
            Sound(t) && t.back == s.back && t.queue == [Shot(pic)] && t.complete == {}
  {
    StepOrders(s, Draw(Shot(pic)));
    hide Ordered, Resting;
  }

  /** The load event of the one image empties a queue that holds no other. */
  lemma LoadDrains(s: State, pic: Picture)
    requires Sound(s) && pic.w == 1 && pic.h == 1
    requires forall b | b in s.queue :: b.Image? ==> b == Shot(pic)
    ensures var t := Loaded(s, 0); t.queue == [] && t.back == Pending(s) && Sound(t)
  {
    LoadOne(s);
    hide Sound, Loaded, Pending, LoadAll;
    DrainsExactlyWhen(s, [0]);
    LoadAllPends(s, [0]);
    NothingPends(Loaded(s, 0));
  }

  lemma LoadOne(s: State)
    ensures LoadAll(s, [0]) == Loaded(s, 0)
  {
    assert LoadAll(Loaded(s, 0), [0][1..]) == Loaded(s, 0);
    hide Loaded;
  }

  lemma NothingPends(s: State)
    requires s.queue == []
    ensures Pending(s) == s.back
  {
  }

  /** The image and the red pixel are queued when the size changes. */
  lemma LateSteps(s: State, pic: Picture, red: Pixel)
    requires Sound(s) && s.queue == [Shot(pic)] && pic.w == 1 && pic.h == 1
    ensures var t := Step(Step(Step(s, Draw(FillRect(1, 0, 1, 1, red))), ResizeTo(2, 1)), ImageLoads(0));
            t.queue == [] && t.back == DrawAll(SizedTo(s, 2, 1).back, [Shot(pic), FillRect(1, 0, 1, 1, red)])
  {
    var u := Step(s, Draw(FillRect(1, 0, 1, 1, red)));
    LateFill(s, Shot(pic), FillRect(1, 0, 1, 1, red));
    StepOrders(u, ResizeTo(2, 1));
    ResizeOnward(u, 2, 1);
    hide Sound, Resize, DrawAll, Loaded, Drawn, Submit;
    LoadDrains(Step(u, ResizeTo(2, 1)), pic);
  }

  lemma LateFill(s: State, image: Action, fill: Action)
    requires Sound(s) && s.queue == [image] && !fill.Image?
    ensures var t := Step(s, Draw(fill)); Sound(t) && t.back == s.back && t.queue == [image, fill]
    ensures SizedTo(Step(s, Draw(fill)), 2, 1).back == SizedTo(s, 2, 1).back
  {
    StepOrders(s, Draw(fill));
    hide Sound;
    assert [image] + [fill] == [image, fill];
  }

  /** The image is there when the red pixel is drawn. */
  lemma EarlySteps(s: State, pic: Picture, red: Pixel)
    requires Sound(s) && s.queue == [Shot(pic)] && pic.w == 1 && pic.h == 1 && s.back.w == s.back.h == 1
    ensures var t := Step(Step(Step(s, ImageLoads(0)), Draw(FillRect(1, 0, 1, 1, red))), ResizeTo(2, 1));
            t.queue == [] && t.back == Resized(Fill(Drawn(s.back, Shot(pic)), 1, 0, 1, 1, red), 2, 1)
  {
    var fill := FillRect(1, 0, 1, 1, red);
    var u := Loaded(s, 0);
    var v := Step(u, Draw(fill));
    LoadDrains(s, pic);
    OnePends(s, Shot(pic));
    hide Sound, Loaded, Drawn, Fill, Pending;
    EarlyFill(u, red);
    EarlyResize(v);
  }

  lemma OnePends(s: State, a: Action)
    requires s.queue == [a]
    ensures Pending(s) == Drawn(s.back, a)
  {
    assert DrawAll(Drawn(s.back, a), [a][1..]) == Drawn(s.back, a);
    hide Drawn;
  }

  lemma EarlyFill(s: State, red: Pixel)
    requires Sound(s) && s.queue == []
    ensures var t := Step(s, Draw(FillRect(1, 0, 1, 1, red)));
            t.queue == [] && t.back == Fill(s.back, 1, 0, 1, 1, red) && Sound(t)
  {
    StepOrders(s, Draw(FillRect(1, 0, 1, 1, red)));
    hide Sound, Fill;
  }

  lemma EarlyResize(s: State)
    requires Sound(s) && s.queue == []
    ensures var t := Step(s, ResizeTo(2, 1)); t.queue == [] && t.back == SizedTo(s, 2, 1).back
  {
    StepOrders(s, ResizeTo(2, 1));
    ResizeOnward(s, 2, 1);
    NothingPends(SizedTo(s, 2, 1));
    NothingPends(Step(s, ResizeTo(2, 1)));
    hide Readjust, Pending, Ordered;
  }

  lemma LateColors(back: Canvas, pic: Picture, red: Pixel)
    requires back == Resized(START.back, 1, 1)
    ensures DrawAll(Resized(back, 2, 1), [Shot(pic), FillRect(1, 0, 1, 1, red)]).px(1, 0) == red
  {
    var wide, fill := Resized(back, 2, 1), FillRect(1, 0, 1, 1, red);
    DrawAllSnoc(wide, [Shot(pic)], fill);
    PendingSize(wide, [Shot(pic)]);
    assert [Shot(pic)] + [fill] == [Shot(pic), fill];
    FillPaints(DrawAll(wide, [Shot(pic)]), 1, 0, red);
    hide DrawAll, Fill;
  }

  lemma FillPaints(c: Canvas, x: int, y: int, color: Pixel)
    requires c.Has(x, y)
    ensures Fill(c, x, y, 1, 1, color).px(x, y) == color
  {
    assert InRect(x, y, x, y, 1, 1);
    assert Filled(c, x, y, 1, 1, color)(x, y) == color;
  }

  lemma EarlyColors(back: Canvas, pic: Picture, red: Pixel)
    requires back == Resized(START.back, 1, 1)
    ensures Resized(Fill(Drawn(back, Shot(pic)), 1, 0, 1, 1, red), 2, 1).px(1, 0) == Clear
  {
    KeptOutside(Fill(Drawn(back, Shot(pic)), 1, 0, 1, 1, red), 2, 1, 1, 0);
    hide Resized;
  }

  lemma DrawingSnoc(calls: seq<Call>, c: Call)
    ensures Drawing(calls + [c]) == Drawing(calls) + if c.Draw? || c.ResizeTo? then [c] else []
  {
    assert (calls + [c])[..|calls|] == calls;
  }

  lemma FiveCalls(c0: Call, c1: Call, c2: Call, c3: Call, c4: Call)
    ensures Run([c0, c1, c2, c3, c4]) == Step(Step(Step(Step(Step(START, c0), c1), c2), c3), c4)
  {
    var r := [c0, c1, c2, c3, c4];
    Unrolled(r, 0);
    Unrolled(r, 1);
    Unrolled(r, 2);
    Unrolled(r, 3);
    Unrolled(r, 4);
    assert r[..5] == r;
    hide Step, Run;
  }

  lemma SameDrawing(size: Call, image: Call, load: Call, fill: Call, wide: Call)
    requires !load.Draw? && !load.ResizeTo?
    ensures Drawing([size, image, fill, wide, load]) == Drawing([size, image, load, fill, wide])
  {
    DrawingSnoc([size, image, fill, wide], load);
    DrawingSnoc([size, image, fill], wide);
    DrawingSnoc([size, image], fill);
    DrawingSnoc([size, image, load, fill], wide);
    DrawingSnoc([size, image, load], fill);
    DrawingSnoc([size, image], load);
    hide Drawing;
    assert [size, image, fill, wide] + [load] == [size, image, fill, wide, load];
    assert [size, image, load, fill] + [wide] == [size, image, load, fill, wide];
    assert [size, image] + [fill] == [size, image, fill] && [size, image, fill] + [wide] == [size, image, fill, wide];
    assert [size, image] + [load] == [size, image, load] && [size, image, load] + [fill] == [size, image, load, fill];
  }

  /**
   * Resizing does not wait for the queue. The same drawing calls, once with the load event of
   * the image at the end and once before the red pixel is drawn, leave different framebuffers,
   * both with nothing queued: the red pixel was outside when the calls drew it.
   */
  lemma ResizePassesQueue(pic: Picture, red: Pixel)
    requires pic.w == 1 && pic.h == 1 && red.Solid?
    ensures var late, early := Run(LateLoad(pic, red)), Run(PromptLoad(pic, red));
            && Drawing(LateLoad(pic, red)) == Drawing(PromptLoad(pic, red))
            && late.queue == [] && early.queue == []
            && late.back.px(1, 0) == red && early.back.px(1, 0) == Clear
  {
    var size, image, fill, wide, load := ResizeTo(1, 1), Draw(Shot(pic)), Draw(FillRect(1, 0, 1, 1, red)),
        ResizeTo(2, 1), ImageLoads(0);
    FiveCalls(size, image, fill, wide, load);
    FiveCalls(size, image, load, fill, wide);
    SameDrawing(size, image, load, fill, wide);
    var s := Step(START, size);
    FirstSize();
    FirstImage(s, pic);
    LateSteps(Step(s, image), pic, red);
    EarlySteps(Step(s, image), pic, red);
    LateColors(s.back, pic, red);
    EarlyColors(s.back, pic, red);
    hide Run, Step, Sound, Resized, DrawAll, Drawn, Fill, Drawing;
  }

  // ---------------------------------------------------------------- which resizes the queue notices

  /** Two canvases of one size that agree on their pixels. */
  ghost predicate Alike(c: Canvas, d: Canvas) {
    c.w == d.w && c.h == d.h && forall x, y | c.Has(x, y) :: c.px(x, y) == d.px(x, y)
  }

  lemma DrawnAlike(c: Canvas, d: Canvas, a: Action)
    requires Alike(c, d)
    ensures Alike(Drawn(c, a), Drawn(d, a))
  {
    forall x, y | c.Has(x, y)
      ensures Drawn(c, a).px(x, y) == Drawn(d, a).px(x, y)
    {
      assert c.px(x, y) == d.px(x, y);
    }
  }

  lemma {:induction false} DrawAllAlike(c: Canvas, d: Canvas, queue: seq<Action>)
    requires Alike(c, d)
    ensures Alike(DrawAll(c, queue), DrawAll(d, queue))
    decreases |queue|
  {
    hide Drawn, Alike;
    if |queue| > 0 {
      DrawnAlike(c, d, queue[0]);
      DrawAllAlike(Drawn(c, queue[0]), Drawn(d, queue[0]), queue[1..]);
    }
  }

  lemma ResizedAlike(c: Canvas)
    ensures Alike(Resized(c, c.w, c.h), c)
  {
  }

  /** A queue that stands at an image of the announced size. */
  predicate Waits(queue: seq<Action>) { |queue| > 0 && queue[0].Image? && RightSize(queue[0]) }

  /** The new size first and the queue later, or the other way round: the same framebuffer. */
  ghost predicate Commutes(back: Canvas, w: nat, h: nat, queue: seq<Action>) {
    Alike(DrawAll(Resized(back, w, h), queue), Resized(DrawAll(back, queue), w, h))
  }

  /** An image that shows nothing, and what is queued behind it. */
  function Behind(rest: seq<Action>): seq<Action> {
    [Image(0, Picture(1, 1, NoPixels()), 0, 0, 1, 1)] + rest
  }

  lemma BehindDraws(back: Canvas, rest: seq<Action>)
    ensures Waits(Behind(rest)) && Alike(DrawAll(back, Behind(rest)), DrawAll(back, rest))
  {
    var a := Behind(rest)[0];
    assert Alike(Drawn(back, a), back);
    assert Behind(rest)[1..] == rest;
    DrawAllAlike(Drawn(back, a), back, rest);
    hide Drawn, Alike;
  }

  lemma KeptOutside(c: Canvas, w: int, h: int, x: int, y: int)
    requires !c.Has(x, y)
    ensures Resized(c, w, h).px(x, y) == Clear
  {
    assert Kept(c, w, h)(x, y) == Clear;
  }

  /** A pixel painted where only the new size reaches. */
  lemma GrowingShows(back: Canvas, w: nat, h: nat, x: nat, y: nat, color: Pixel)
    requires x < w && y < h && !back.Has(x, y) && color.Solid?
    ensures !Commutes(back, w, h, Behind([FillRect(x, y, 1, 1, color)]))
  {
    var q := [FillRect(x, y, 1, 1, color)];
    var wide := Resized(back, w, h);
    BehindDraws(wide, q);
    PendingSize(back, Behind(q));
    OneDraws(wide, q[0]);
    FillPaints(wide, x, y, color);
    KeptOutside(DrawAll(back, Behind(q)), w, h, x, y);
    assert DrawAll(wide, Behind(q)).px(x, y) == color;
    hide DrawAll, Fill;
  }

  lemma OneDraws(back: Canvas, a: Action)
    ensures DrawAll(back, [a]) == Drawn(back, a)
  {
    assert DrawAll(Drawn(back, a), [a][1..]) == Drawn(back, a);
    hide Drawn;
  }

  lemma CornerCopied(c: Canvas, x: nat, y: nat)
    requires c.Has(0, 0)
    ensures Drawn(c, CopyRect(x, y, 0, 0, 1, 1)).px(0, 0)
         == if c.Has(x, y) && c.px(x, y).Solid? then c.px(x, y) else c.px(0, 0)
  {
    var px := Composed(c, c, x, y, 1, 1, 0, 0);
    var i, j := 0, 0;
    assert i - 0 + x == x && j - 0 + y == y && InRect(i, j, 0, 0, 1, 1);
    assert px(i, j) == if c.Has(x, y) && c.px(x, y).Solid? then c.px(x, y) else c.px(0, 0);
  }

  /** A pixel painted where only the old size reaches, and copied into the corner. */
  lemma ShrinkingShows(back: Canvas, w: nat, h: nat, x: nat, y: nat, color: Pixel)
    requires 0 < w && 0 < h && back.Has(x, y) && !(x < w && y < h) && color.Solid? && color != back.px(0, 0)
    ensures !Commutes(back, w, h, Behind([FillRect(x, y, 1, 1, color), CopyRect(x, y, 0, 0, 1, 1)]))
  {
    var fill, copy := FillRect(x, y, 1, 1, color), CopyRect(x, y, 0, 0, 1, 1);
    var small := Resized(back, w, h);
    TwoDraw(back, fill, copy);
    TwoDraw(small, fill, copy);
    FillPaints(back, x, y, color);
    CornerCopied(Fill(back, x, y, 1, 1, color), x, y);
    CornerCopied(Fill(small, x, y, 1, 1, color), x, y);
    BehindDraws(small, [fill, copy]);
    BehindDraws(back, [fill, copy]);
    ShrinkingKeeps(back, w, h, x, y, color);
    PendingSize(back, Behind([fill, copy]));
    PendingSize(back, [fill, copy]);
    PendingSize(small, [fill, copy]);
    hide DrawAll, Fill, DrawFrom, Behind, Filled, Composed;
    assert DrawAll(back, Behind([fill, copy])).px(0, 0) == color;
    assert Kept(DrawAll(back, Behind([fill, copy])), w, h)(0, 0) == color;
    assert DrawAll(small, Behind([fill, copy])).px(0, 0) == back.px(0, 0);
  }

  lemma ShrinkingKeeps(back: Canvas, w: nat, h: nat, x: nat, y: nat, color: Pixel)
    requires 0 < w && 0 < h && back.Has(x, y) && !(x < w && y < h)
    ensures Fill(Resized(back, w, h), x, y, 1, 1, color).px(0, 0) == back.px(0, 0)
    ensures !Fill(Resized(back, w, h), x, y, 1, 1, color).Has(x, y)
  {
    assert Filled(Resized(back, w, h), x, y, 1, 1, color)(0, 0) == Kept(back, w, h)(0, 0);
  }

  lemma TwoDraw(back: Canvas, a: Action, b: Action)
    ensures DrawAll(back, [a, b]) == Drawn(Drawn(back, a), b)
  {
    assert [a, b] == [a] + [b];
    DrawAllSnoc(back, [a], b);
    OneDraws(back, a);
    hide DrawAll, Drawn;
  }

  /**
   * A resize past a waiting queue is harmless, whatever is queued behind the image, exactly when
   * it keeps the size or leaves no pixel.
   */
  lemma ResizeCommutesExactlyWhen(back: Canvas, w: nat, h: nat)
    requires back.w >= 0 && back.h >= 0
    ensures (forall queue | Waits(queue) :: Commutes(back, w, h, queue))
        <==> (w == back.w && h == back.h) || w == 0 || h == 0
  {
    var x := if w > back.w then back.w else if h > back.h then 0 else if w < back.w then w else 0;
    var y := if w > back.w then 0 else if h > back.h then back.h else if w < back.w then 0 else h;
    var color := if back.px(0, 0) == Solid(0, 0, 0) then Solid(1, 0, 0) else Solid(0, 0, 0);
    if w == 0 || h == 0 {
      forall queue | Waits(queue) ensures Commutes(back, w, h, queue) {
        PendingSize(Resized(back, w, h), queue);
        hide DrawAll;
      }
    } else if w == back.w && h == back.h {
      forall queue | Waits(queue) ensures Commutes(back, w, h, queue) {
        ResizedAlike(back);
        ResizedAlike(DrawAll(back, queue));
        PendingSize(back, queue);
        DrawAllAlike(Resized(back, w, h), back, queue);
        hide DrawAll, Resized;
      }
    } else if w > back.w || h > back.h {
      BehindDraws(back, [FillRect(x, y, 1, 1, color)]);
      GrowingShows(back, w, h, x, y, color);
      hide Commutes, DrawAll;
    } else {
      BehindDraws(back, [FillRect(x, y, 1, 1, color), CopyRect(x, y, 0, 0, 1, 1)]);
      ShrinkingShows(back, w, h, x, y, color);
      hide Commutes, DrawAll;
    }
  }

  // ---------------------------------------------------------------- data that starts inside its buffer

  /** A blit of the `n` bytes at `at` in a buffer, as the two paths take them. */
  function Blitted(s: State, x: int, y: int, w: int, h: int, buffer: seq<byte>, at: nat, n: nat): State
    requires at + n <= |buffer|
  {
    Submit(s, Blit(x, y, w, h, if s.queue != [] then Queued(buffer, n) else Immediate(buffer, at, n)))
  }

  /**
   * A pixel four bytes into its buffer, blitted while an image is waited for and drawn when it
   * loads, shows the buffer's first bytes; blitted after the load event it shows its own.
   */
  lemma QueuedBlitShowsOther(pic: Picture, buffer: seq<byte>)
    requires pic.w == 1 && pic.h == 1 && |buffer| == 8
    ensures var s := Run([ResizeTo(1, 1), Draw(Shot(pic))]);
            var late, early := Loaded(Blitted(s, 0, 0, 1, 1, buffer, 4, 4), 0),
                Blitted(Loaded(s, 0), 0, 0, 1, 1, buffer, 4, 4);
            && late.queue == [] && late.back.px(0, 0) == Solid(buffer[0], buffer[1], buffer[2])
            && early.queue == [] && early.back.px(0, 0) == Solid(buffer[4], buffer[5], buffer[6])
  {
    var s := Run([ResizeTo(1, 1), Draw(Shot(pic))]);
    Unrolled([ResizeTo(1, 1), Draw(Shot(pic))], 0);
    Unrolled([ResizeTo(1, 1), Draw(Shot(pic))], 1);
    assert [ResizeTo(1, 1), Draw(Shot(pic))][..2] == [ResizeTo(1, 1), Draw(Shot(pic))];
    FirstSize();
    FirstImage(Step(START, ResizeTo(1, 1)), pic);
    hide Run, Step, Sound, Loaded;
    LateBlit(s, pic, buffer);
    EarlyBlit(s, pic, buffer);
  }

  lemma PutPixel(c: Canvas, data: seq<byte>)
    requires c.Has(0, 0) && |data| == 4
    ensures Drawn(c, Blit(0, 0, 1, 1, data)).px(0, 0) == Solid(data[0], data[1], data[2])
  {
    assert InRect(0, 0, 0, 0, 1, 1);
    assert Replaced(c, 0, 0, 1, 1, data)(0, 0) == PixelAt(data, 0);
  }

  lemma LateBlit(s: State, pic: Picture, buffer: seq<byte>)
    requires Sound(s) && s.queue == [Shot(pic)] && pic.w == 1 && pic.h == 1 && s.back.w == s.back.h == 1
        && |buffer| == 8
    ensures var t := Loaded(Blitted(s, 0, 0, 1, 1, buffer, 4, 4), 0);
            t.queue == [] && t.back.px(0, 0) == Solid(buffer[0], buffer[1], buffer[2])
  {
    var a := Blit(0, 0, 1, 1, buffer[..4]);
    SubmitOrders(s, a);
    SubmitPends(s, a);
    OnePends(s, Shot(pic));
    PutPixel(Drawn(s.back, Shot(pic)), buffer[..4]);
    hide Sound, Submit, Loaded, Pending, Drawn;
    LoadDrains(Submit(s, a), pic);
  }

  lemma EarlyBlit(s: State, pic: Picture, buffer: seq<byte>)
    requires Sound(s) && s.queue == [Shot(pic)] && pic.w == 1 && pic.h == 1 && s.back.w == s.back.h == 1
        && |buffer| == 8
    ensures var t := Blitted(Loaded(s, 0), 0, 0, 1, 1, buffer, 4, 4);
            t.queue == [] && t.back.px(0, 0) == Solid(buffer[4], buffer[5], buffer[6])
  {
    OnePends(s, Shot(pic));
    LoadDrains(s, pic);
    PutPixel(Drawn(s.back, Shot(pic)), buffer[4..8]);
    hide Sound, Loaded, Pending, Drawn;
  }

  // ---------------------------------------------------------------- when flips are exact

  /** Every pixel of the framebuffer has been drawn. */
  ghost predicate Covered(back: Canvas) { forall x, y | back.Has(x, y) :: back.px(x, y).Solid? }

  /** A fill has a colour, and a blit has data for its area. */
  predicate Full(a: Action) {
    && (a.FillRect? ==> a.color.Solid?)
    && (a.Blit? ==> a.w >= 0 && a.h >= 0 && |a.data| >= 4 * (a.w * a.h))
  }

  lemma DataFor(data: seq<byte>, w: int, h: int, i: int, j: int)
    requires 0 <= i < w && 0 <= j < h && |data| >= 4 * (w * h)
    ensures PixelAt(data, j * w + i).Solid?
  {
    Arith.MulLe(j + 1, h, w);
    Arith.Distribute(j, 1, w);
    hide PixelAt;
    InData(data, w * h, j * w + i);
  }

  lemma InData(data: seq<byte>, n: int, k: int)
    requires 0 <= k < n && |data| >= 4 * n
    ensures PixelAt(data, k).Solid?
  {
  }

  lemma DrawnCovers(back: Canvas, a: Action)
    requires Covered(back) && Full(a)
    ensures Covered(Drawn(back, a))
  {
    forall x, y | back.Has(x, y)
      ensures Drawn(back, a).px(x, y).Solid?
    {
      assert back.px(x, y).Solid?;
      if a.Blit? && InRect(x, y, a.x, a.y, a.w, a.h) {
        DataFor(a.data, a.w, a.h, x - a.x, y - a.y);
        hide PixelAt;
      }
    }
  }

  /** The framebuffer is drawn, and what is queued will not undo that. */
  ghost predicate Whole(s: State) { Covered(s.back) && forall a | a in s.queue :: Full(a) }

  lemma ExecuteWhole(s: State, a: Action)
    requires Covered(s.back) && Full(a)
    ensures Covered(Execute(s, a).back)
  {
    DrawnCovers(s.back, a);
    ExecutePends(s, a);
    hide Execute, Drawn;
  }

  lemma {:induction false} ScanWhole(s: State)
    requires Whole(s)
    ensures Whole(Scan(s))
    decreases |s.queue|
  {
    if |s.queue| > 0 && Ready(s, s.queue[0]) {
      ExecuteWhole(s, s.queue[0]);
      ExecuteRests(s, s.queue[0]);
      hide Execute, Covered, Full;
      ScanWhole(Execute(s, s.queue[0]).(queue := s.queue[1..]));
    }
  }

  lemma SubmitWhole(s: State, a: Action)
    requires Whole(s) && Full(a)
    ensures Whole(Submit(s, a))
  {
    var t := s.(submitted := s.submitted + [a]);
    ExecuteWhole(t, a);
    ExecuteRests(t, a);
    hide Execute, Covered, Full, Scan;
    ScanWhole(t.(queue := t.queue + [a]));
  }

  lemma FlipWhole(s: State, t: State)
    requires Whole(s) && t.back == s.back && t.queue == s.queue
    ensures Whole(Submit(t, Flip))
  {
    hide Covered;
    SubmitWhole(t, Flip);
    hide Submit;
  }

  lemma ChangePosWhole(s: State, dx: real, dy: real)
    requires Whole(s)
    ensures Whole(ChangePos(s, dx, dy))
  {
    var x := Shifted(s.view.x, s.view.w, s.fbW, if s.clip then dx.Floor else -s.view.w);
    var y := Shifted(s.view.y, s.view.h, s.fbH, if s.clip then dy.Floor else -s.view.h);
    ChangePosIs(s, dx, dy);
    FlipWhole(s, WholeView(s.(view := View(x, y, s.view.w, s.view.h))));
    hide Shifted, ChangePos, Submit, Whole;
  }

  lemma ChangeSizeWhole(s: State, width: Option<real>, height: Option<real>)
    requires Whole(s)
    ensures Whole(ChangeSize(s, width, height))
  {
    var w, h := Limited(width, height, s.clip, s.fbW), Limited(height, width, s.clip, s.fbH);
    var u := s.(view := View(s.view.x, s.view.y, w, h), target := Blank(w, h));
    ChangeSizeIs(s, width, height);
    ChangePosMatched(u, 0.0, 0.0);
    assert Whole(u);
    hide Limited, ChangePos, ChangeSize, Submit, Whole;
    ChangePosWhole(u, 0.0, 0.0);
    var t := ChangePos(u, 0.0, 0.0);
    FlipWhole(t, WholeView(t));
  }

  lemma ReadjustWhole(s: State)
    requires Whole(s)
    ensures Whole(Readjust(s))
  {
    hide ChangeSize, ChangePos, Whole;
    var w, h := Some(s.view.w as real), Some(s.view.h as real);
    ChangeSizeWhole(s, w, h);
    ChangePosWhole(ChangeSize(s, w, h), 0.0, 0.0);
  }

  /** Drawing with full data, and no growth of the framebuffer. */
  predicate Careful(s: State, c: Call) {
    && (c.Draw? ==> Full(c.action))
    && (c.ResizeTo? ==> c.fbW <= s.back.w && c.fbH <= s.back.h)
  }

  lemma SizedWhole(s: State, w: nat, h: nat)
    requires Whole(s) && w <= s.back.w && h <= s.back.h
    ensures Whole(SizedTo(s, w, h))
  {
    var t := SizedTo(s, w, h);
    forall x, y | t.back.Has(x, y) ensures t.back.px(x, y).Solid? {
      assert s.back.Has(x, y) && s.back.px(x, y).Solid?;
      assert t.back != s.back ==> Kept(s.back, w, h)(x, y) == s.back.px(x, y);
    }
  }

  lemma ResizeWhole(s: State, w: nat, h: nat)
    requires Whole(s) && w <= s.back.w && h <= s.back.h
    ensures Whole(Resize(s, w, h))
  {
    SizedWhole(s, w, h);
    ReadjustWhole(SizedTo(s, w, h));
    hide Readjust;
  }

  lemma StepWhole(s: State, c: Call)
    requires Whole(s) && Careful(s, c)
    ensures Whole(Step(s, c))
  {
    match c
    case Draw(a) => SubmitWhole(s, a); hide Submit, Whole;
    case ImageCompletes(id) => hide Covered;
    case ImageLoads(id) =>
      var u := s.(complete := s.complete + {id}, loaded := s.loaded + {id}, listening := s.listening - {id});
      hide Covered, Full;
      ScanWhole(u);
      hide Scan;
    case AwaitFlush => hide Covered;
    case Pan(dx, dy) => ChangePosWhole(s, dx, dy); hide ChangePos, Whole;
    case SizeView(w, h) => ChangeSizeWhole(s, w, h); hide ChangeSize, Whole;
    case Clip(on) =>
      hide Covered, Full;
      ReadjustWhole(s.(clip := on));
      hide Readjust;
    case ResizeTo(w, h) => ResizeWhole(s, w, h); hide Resize, Whole;
  }

  lemma {:induction false} RunWhole(calls: seq<Call>, k: nat)
    requires k <= |calls| && Whole(Run(calls[..k]))
    requires forall i | k <= i < |calls| :: Careful(Run(calls[..i]), calls[i])
    ensures Whole(Run(calls))
    decreases |calls| - k
  {
    hide Run, Whole, Careful;
    if k == |calls| {
      assert calls[..k] == calls;
    } else {
      Unrolled(calls, k);
      StepWhole(Run(calls[..k]), calls[k]);
      hide Step;
      RunWhole(calls, k + 1);
    }
  }

  // ---------------------------------------------------------------- every flip that is executed

  /** The states in which a scan of the queue executes a flip. */
  function ScanFlips(s: State): seq<State>
    decreases |s.queue|
  {
    if |s.queue| > 0 && Ready(s, s.queue[0]) then
      (if s.queue[0].Flip? then [s] else []) + ScanFlips(Execute(s, s.queue[0]).(queue := s.queue[1..]))
    else []
  }

  function SubmitFlips(s: State, a: Action): seq<State> {
    var t := s.(submitted := s.submitted + [a]);
    if |s.queue| == 0 && !a.Image? then if a.Flip? then [t] else []
    else if |s.queue| == 0 then ScanFlips(t.(queue := t.queue + [a]))
    else []
  }

  /** The moved viewport, all of it damaged. */
  function Moved(s: State, dx: real, dy: real): State {
    WholeView(s.(view := View(Shifted(s.view.x, s.view.w, s.fbW, if s.clip then dx.Floor else -s.view.w),
                              Shifted(s.view.y, s.view.h, s.fbH, if s.clip then dy.Floor else -s.view.h),
                              s.view.w, s.view.h)))
  }

  function ChangePosFlips(s: State, dx: real, dy: real): seq<State> {
    if Moved(s, dx, dy).view == s.view then [] else SubmitFlips(Moved(s, dx, dy), Flip)
  }

  /** The resized viewport, before it is moved back inside. */
  function SizedView(s: State, width: Option<real>, height: Option<real>): State {
    var w, h := Limited(width, height, s.clip, s.fbW), Limited(height, width, s.clip, s.fbH);
    s.(view := View(s.view.x, s.view.y, w, h), target := Blank(w, h))
  }

  function ChangeSizeFlips(s: State, width: Option<real>, height: Option<real>): seq<State> {
    var u := SizedView(s, width, height);
    if u.view == s.view then []
    else ChangePosFlips(u, 0.0, 0.0) + SubmitFlips(WholeView(ChangePos(u, 0.0, 0.0)), Flip)
  }

  function ReadjustFlips(s: State): seq<State> {
    var w, h := Some(s.view.w as real), Some(s.view.h as real);
    ChangeSizeFlips(s, w, h) + ChangePosFlips(ChangeSize(s, w, h), 0.0, 0.0)
  }

  /** The states in which a call executes a flip, at once or in the middle of a scan. */
  function StepFlips(s: State, c: Call): seq<State> {
    match c
    case Draw(a) => if a.Image? && (a.w == 0 || a.h == 0) then [] else SubmitFlips(s, a)
    case ImageLoads(id) =>
      if id in s.listening && id !in s.loaded
      then ScanFlips(s.(complete := s.complete + {id}, loaded := s.loaded + {id}, listening := s.listening - {id}))
      else []
    case Pan(dx, dy) => ChangePosFlips(s, dx, dy)
    case SizeView(w, h) => ChangeSizeFlips(s, w, h)
    case Clip(on) => ReadjustFlips(s.(clip := on))
    case ResizeTo(w, h) => ReadjustFlips(SizedTo(s, w, h))
    case _ => []
  }

  /** The flips in a history. */
  function FlipCount(history: seq<Effect>): nat {
    if |history| == 0 then 0
    else FlipCount(history[..|history| - 1]) + if history[|history| - 1] == Drew(Flip) then 1 else 0
  }

  lemma FlipCountSnoc(history: seq<Effect>, e: Effect)
    ensures FlipCount(history + [e]) == FlipCount(history) + if e == Drew(Flip) then 1 else 0
  {
    assert (history + [e])[..|history|] == history;
  }

  /** A flip in such a state shows the window exactly. */
  ghost predicate Clean(s: State) { Placed(s) && Tracked(s) && Whole(s) }

  /** The flips of an operation: as many as its history tells, each in a clean state. */
  ghost predicate CleanFlips(s: State, t: State, flips: seq<State>) {
    FlipCount(t.history) == FlipCount(s.history) + |flips| && forall u | u in flips :: Clean(u)
  }

  lemma FlipsAppend(s: State, t: State, u: State, a: seq<State>, b: seq<State>)
    requires CleanFlips(s, t, a) && CleanFlips(t, u, b)
    ensures CleanFlips(s, u, a + b)
  {
    hide Clean, FlipCount;
  }

  lemma SameClean(s: State, t: State)
    requires Clean(s) && SameLayout(s, t) && t.back == s.back && t.target == s.target && t.damage == s.damage
    requires forall a | a in t.queue :: Full(a)
    ensures Clean(t)
  {
    SameTracks(s, t);
    hide Tracked, Covered;
  }

  lemma ExecuteClean(s: State, a: Action, rest: seq<Action>)
    requires Clean(s) && s.queue == [a] + rest
    ensures Clean(Execute(s, a).(queue := rest))
    ensures CleanFlips(s, Execute(s, a).(queue := rest), if a.Flip? then [s] else [])
  {
    assert a in s.queue && forall b | b in rest :: b in s.queue;
    ExecuteTracks(s, a);
    ExecuteWhole(s, a);
    ExecuteLayout(s, a);
    ExecuteHistory(s, a);
    SameTracks(Execute(s, a), Execute(s, a).(queue := rest));
    FlipCountSnoc(s.history, Drew(a));
    hide Execute, Tracked, Covered, FlipCount;
  }

  lemma ExecuteHistory(s: State, a: Action)
    ensures Execute(s, a).history == s.history + [Drew(a)]
  {
  }

  lemma {:induction false} ScanClean(s: State)
    requires Clean(s)
    ensures CleanFlips(s, Scan(s), ScanFlips(s))
    decreases |s.queue|
  {
    if |s.queue| > 0 && Ready(s, s.queue[0]) {
      var t := Execute(s, s.queue[0]).(queue := s.queue[1..]);
      assert s.queue == [s.queue[0]] + s.queue[1..];
      ExecuteClean(s, s.queue[0], s.queue[1..]);
      hide Execute, Clean, FlipCount, CleanFlips;
      ScanClean(t);
      FlipsAppend(s, t, Scan(t), if s.queue[0].Flip? then [s] else [], ScanFlips(t));
    }
    hide Clean, FlipCount;
  }

  lemma SubmitClean(s: State, a: Action)
    requires Clean(s) && Full(a)
    ensures CleanFlips(s, Submit(s, a), SubmitFlips(s, a))
  {
    var t := s.(submitted := s.submitted + [a]);
    var u := t.(queue := t.queue + [a]);
    SameClean(s, t);
    SameClean(s, u);
    if |s.queue| == 0 && !a.Image? {
      ExecuteHistory(t, a);
      FlipCountSnoc(s.history, Drew(a));
      hide Clean, FlipCount, Execute;
    } else if |s.queue| == 0 {
      ScanClean(u);
      hide Clean, FlipCount, Scan, ScanFlips;
    }
    hide Clean, FlipCount;
  }

  lemma MovedIs(s: State, dx: real, dy: real)
    ensures ChangePos(s, dx, dy) == if Moved(s, dx, dy).view == s.view then s else Submit(Moved(s, dx, dy), Flip)
  {
    hide Submit, Shifted;
  }

  lemma ChangePosClean(s: State, dx: real, dy: real)
    requires Loose(s) && s.view.w <= s.fbW && s.view.h <= s.fbH && (!s.clip ==> s.view.w == s.fbW && s.view.h == s.fbH)
    requires Whole(s)
    ensures CleanFlips(s, ChangePos(s, dx, dy), ChangePosFlips(s, dx, dy))
  {
    MovedIs(s, dx, dy);
    hide ChangePos, Whole, Tracked;
    var t := Moved(s, dx, dy);
    if t.view != s.view {
      ChangePosLands(s, dx, dy);
      SubmitLayout(t, Flip);
      MovedTracks(s, dx, dy);
      assert Placed(t) by { hide Moved, Submit; }
      SameWhole(s, t);
      hide Moved, Submit, SubmitFlips, Placed;
      SubmitClean(t, Flip);
    }
  }

  lemma MovedTracks(s: State, dx: real, dy: real)
    ensures Tracked(Moved(s, dx, dy)) && Moved(s, dx, dy).history == s.history
    ensures Moved(s, dx, dy).back == s.back && Moved(s, dx, dy).queue == s.queue
  {
    hide Shifted;
  }

  lemma SameWhole(s: State, t: State)
    requires Whole(s) && t.back == s.back && t.queue == s.queue
    ensures Whole(t)
  {
  }

  lemma ResizedIs(s: State, width: Option<real>, height: Option<real>)
    ensures var u := SizedView(s, width, height);
            ChangeSize(s, width, height)
            == if u.view == s.view then s else Submit(WholeView(ChangePos(u, 0.0, 0.0)), Flip)
  {
    var u := SizedView(s, width, height);
    ChangePosMatched(u, 0.0, 0.0);
    hide Submit, Limited, ChangePos;
  }

  lemma ChangeSizeClean(s: State, width: Option<real>, height: Option<real>)
    requires Loose(s) && SizeOk(width) && SizeOk(height) && Whole(s)
    ensures CleanFlips(s, ChangeSize(s, width, height), ChangeSizeFlips(s, width, height))
  {
    var u := SizedView(s, width, height);
    ResizedIs(s, width, height);
    if u.view != s.view {
      LimitedIn(width, height, s.clip, s.fbW);
      LimitedIn(height, width, s.clip, s.fbH);
      hide Limited, ChangeSize;
      ChangePosLands(u, 0.0, 0.0);
      SameWhole(s, u);
      hide Whole, Tracked, ChangePos, ChangePosFlips, Submit, SubmitFlips;
      ChangePosClean(u, 0.0, 0.0);
      ChangePosWhole(u, 0.0, 0.0);
      var t := ChangePos(u, 0.0, 0.0);
      WholeViewTracks(t);
      SameWhole(t, WholeView(t));
      SubmitClean(WholeView(t), Flip);
      hide Clean, FlipCount;
      FlipsAppend(s, t, Submit(WholeView(t), Flip), ChangePosFlips(u, 0.0, 0.0), SubmitFlips(WholeView(t), Flip));
    }
  }

  lemma ReadjustClean(s: State)
    requires Loose(s) && Whole(s)
    ensures CleanFlips(s, Readjust(s), ReadjustFlips(s))
  {
    var w, h := Some(s.view.w as real), Some(s.view.h as real);
    ChangeSizeClean(s, w, h);
    ChangeSizeFits(s, w, h);
    ChangeSizeWhole(s, w, h);
    LimitedIn(w, h, s.clip, s.fbW);
    LimitedIn(h, w, s.clip, s.fbH);
    hide Limited, ChangeSize, ChangePos, ChangeSizeFlips, ChangePosFlips, Whole, CleanFlips;
    var t := ChangeSize(s, w, h);
    ChangePosClean(t, 0.0, 0.0);
    FlipsAppend(s, t, Readjust(s), ChangeSizeFlips(s, w, h), ChangePosFlips(t, 0.0, 0.0));
  }

  lemma ResizeClean(s: State, w: nat, h: nat)
    requires Clean(s) && w <= s.back.w && h <= s.back.h
    ensures CleanFlips(s, Resize(s, w, h), ReadjustFlips(SizedTo(s, w, h)))
  {
    SizedWhole(s, w, h);
    SizedLoose(s, w, h);
    SizedFlips(s, w, h);
    hide SizedTo, Readjust, ReadjustFlips, Whole, Tracked, Placed, Loose;
    ReadjustClean(SizedTo(s, w, h));
  }

  lemma SizedFlips(s: State, w: nat, h: nat)
    ensures FlipCount(SizedTo(s, w, h).history) == FlipCount(s.history)
  {
    FlipCountSnoc(s.history, Sized(w, h));
  }

  /** The flips of a call are those of the history, and each is executed in a clean state. */
  lemma StepClean(s: State, c: Call)
    requires Clean(s) && Sensible(c) && Careful(s, c)
    ensures CleanFlips(s, Step(s, c), StepFlips(s, c))
  {
    match c
    case Draw(a) => SubmitClean(s, a); hide Submit, SubmitFlips, Clean, FlipCount;
    case ImageCompletes(_) => hide Clean, FlipCount;
    case ImageLoads(id) =>
      var t := s.(complete := s.complete + {id}, loaded := s.loaded + {id}, listening := s.listening - {id});
      SameClean(s, t);
      hide Clean, Scan, ScanFlips, FlipCount;
      ScanClean(t);
    case AwaitFlush => hide Clean, FlipCount;
    case Pan(dx, dy) => ChangePosClean(s, dx, dy); hide ChangePos, ChangePosFlips, CleanFlips;
    case SizeView(w, h) => ChangeSizeClean(s, w, h); hide ChangeSize, ChangeSizeFlips, CleanFlips;
    case Clip(on) =>
      SameWhole(s, s.(clip := on));
      hide Whole, Tracked, Readjust, ReadjustFlips, FlipCount;
      ReadjustClean(s.(clip := on));
    case ResizeTo(w, h) => ResizeClean(s, w, h); hide Resize, ReadjustFlips, CleanFlips;
  }

  lemma CleanFlip(s: State, x: int, y: int)
    requires Clean(s) && InView(s.view, x, y)
    ensures Shown(DoFlip(s), x, y) == s.back.px(x, y)
  {
    FlipIsExactWhen(s);
    hide DoFlip, Tracked, Shown;
    forall i, j | InView(s.view, i, j) ensures s.back.px(i, j).Solid? {
      assert s.back.Has(i, j);
    }
  }

  /**
   * From a moment on at which every pixel has been drawn, as long as the framebuffer does not
   * grow, every flip that is executed, be it from the middle of the queue, makes the visible
   * canvas the exact window of the hidden one, whatever is drawn, panned, resized and loaded in
   * between. `u` is the state in which call `i` executes it.
   */
  lemma FlipsStayExact(calls: seq<Call>, k: nat, i: nat, u: State, x: int, y: int)
    requires forall c | c in calls :: Sensible(c)
    requires k <= i < |calls| && Whole(Run(calls[..k]))
    requires forall j | k <= j < |calls| :: Careful(Run(calls[..j]), calls[j])
    requires u in StepFlips(Run(calls[..i]), calls[i]) && InView(u.view, x, y)
    ensures Shown(DoFlip(u), x, y) == u.back.px(x, y)
  {
    RunClean(calls, k, i);
    hide Run, Clean, StepFlips, DoFlip, Shown;
    StepClean(Run(calls[..i]), calls[i]);
    CleanFlip(u, x, y);
  }

  lemma RunClean(calls: seq<Call>, k: nat, i: nat)
    requires forall c | c in calls :: Sensible(c)
    requires k <= i < |calls| && Whole(Run(calls[..k]))
    requires forall j | k <= j < |calls| :: Careful(Run(calls[..j]), calls[j])
    ensures Clean(Run(calls[..i]))
  {
    hide Run, Whole, Careful, Tracked, Sound, Placed;
    assert calls[..i][..k] == calls[..k];
    forall j | k <= j < i ensures Careful(Run(calls[..i][..j]), calls[..i][j]) {
      assert calls[..i][..j] == calls[..j];
    }
    RunWhole(calls[..i], k);
    RunKept(calls[..i]);
  }

  /** And these are all the flips: in such a run the history tells no others. */
  lemma FlipsAreCounted(calls: seq<Call>, k: nat, i: nat)
    requires forall c | c in calls :: Sensible(c)
    requires k <= i < |calls| && Whole(Run(calls[..k]))
    requires forall j | k <= j < |calls| :: Careful(Run(calls[..j]), calls[j])
    ensures FlipCount(Run(calls[..i + 1]).history)
         == FlipCount(Run(calls[..i]).history) + |StepFlips(Run(calls[..i]), calls[i])|
  {
    RunClean(calls, k, i);
    Unrolled(calls, i);
    hide Run, Clean, StepFlips, FlipCount, Step;
    StepClean(Run(calls[..i]), calls[i]);
  }
}
