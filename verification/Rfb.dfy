/**
 * The RFB client while connected: the message loop of rfb.js over the socket's receive
 * queue, with its handlers and rectangle decoders. `Receive` is what happens for one
 * WebSocket message, and is proved to be `Feed` of the state machine in Client.dfy.
 */
module Rfb {
  import opened Bytes
  import opened Chunking
  import opened Client
  import opened Decoders
  import opened Hextile
  import opened Rects
  import opened Websock

  // ---------------------------------------------------------------- outcomes

  /** Where the message loop ends up from here, with what it has already put out. */
  ghost function Outcome(cfg: Config, c: State, q: seq<byte>, log: seq<Output>): Result {
    Prepend(log, Run(cfg, c, q))
  }

  /** State, queue and record moved as the step says; a blocked step moves nothing. */
  ghost predicate Did(r: StepResult, c: State, q: seq<byte>, log: seq<Output>,
                      c': State, q': seq<byte>, log': seq<Output>)
  {
    match r
    case Blocked => c' == c && q' == q && log' == log
    case Next(c1, n, out) => c' == c1 && n <= |q| && q' == q[n..] && log' == log + out
  }

  /** A rectangle handler returned true: the rectangle is complete up to the bookkeeping
      that its caller does. */
  ghost predicate DidRect(r: StepResult, q: seq<byte>, log: seq<Output>, c': State, q': seq<byte>, log': seq<Output>) {
    && log <= log' && |q'| <= |q| && q' == q[|q| - |q'|..]
    && r == Complete(c', |q| - |q'|, log'[|log|..])
  }

  lemma DidKeepsOutcome(cfg: Config, c: State, q: seq<byte>, log: seq<Output>, c': State, q': seq<byte>,
                        log': seq<Output>)
    requires Did(Step(cfg, c, q), c, q, log, c', q', log')
    ensures Outcome(cfg, c, q, log) == Outcome(cfg, c', q', log')
    ensures Step(cfg, c, q).Blocked? ==> Outcome(cfg, c, q, log) == Result(c, q, log)
  {
    hide Step, Run;
    RunUnfolds(cfg, c, q);
    var r := Step(cfg, c, q);
    if r.Next? {
      PrependPrepend(log, r.out, Run(cfg, r.c, q[r.n..]));
    } else {
      assert log + [] == log;
    }
  }

  lemma DidRectKeepsOutcome(cfg: Config, c: State, q: seq<byte>, log: seq<Output>, c': State, q': seq<byte>,
                            log': seq<Output>)
    requires DidRect(Step(cfg, c, q), q, log, c', q', log')
    ensures Outcome(cfg, c, q, log) == Outcome(cfg, EndRect(c'), q', log' + EndRectOutput(c'))
  {
    hide Step, Run, EndRectOutput;
    var out := log'[|log|..];
    assert log + (out + EndRectOutput(c')) == log' + EndRectOutput(c');
    DidKeepsOutcome(cfg, c, q, log, EndRect(c'), q', log' + EndRectOutput(c'));
  }

  /** A handler of a one-step rectangle: done, or waiting, or failed for good. */
  ghost predicate RectResult(r: StepResult, ret: bool, c: State, q: seq<byte>, log: seq<Output>,
                             c': State, q': seq<byte>, log': seq<Output>)
  {
    if ret then DidRect(r, q, log, c', q', log')
    else Did(r, c, q, log, c', q', log') && (r.Next? ==> r.c.halted)
  }

  lemma RectEnds(cfg: Config, ret: bool, c: State, q: seq<byte>, log: seq<Output>, c': State, q': seq<byte>,
                 log': seq<Output>)
    requires RectResult(Step(cfg, c, q), ret, c, q, log, c', q', log')
    ensures EndsAs(cfg, Outcome(cfg, c, q, log), if ret then Finished else Waiting, c', q', log')
  {
    hide Outcome, EndRectOutput;
    if ret {
      DidRectKeepsOutcome(cfg, c, q, log, c', q', log');
    } else {
      DidKeepsOutcome(cfg, c, q, log, c', q', log');
    }
  }

  lemma BlockedOutcome(cfg: Config, c: State, q: seq<byte>, log: seq<Output>)
    requires Step(cfg, c, q).Blocked?
    ensures Outcome(cfg, c, q, log) == Result(c, q, log)
  {
    hide Step;
    DidKeepsOutcome(cfg, c, q, log, c, q, log);
  }

  // ---------------------------------------------------------------- decoders inside the client

  lemma Assoc(a: seq<Output>, b: seq<Output>, c: seq<Output>)
    ensures a + (b + c) == a + b + c && a + [] == a
  {
  }

  /** What a decoder's result means for the client around it: the rectangle is over, or the
      loop waits, or the decoder threw and the connection was torn down. */
  ghost predicate EndsAs(cfg: Config, ending: Result, status: Status, c: State, rest: seq<byte>, log: seq<Output>) {
    match status
    case Finished => ending == Outcome(cfg, EndRect(c), rest, log + EndRectOutput(c))
    case Waiting => ending == Outcome(cfg, c, rest, log) && Step(cfg, c, rest).Blocked?
    case Thrown => ending == Outcome(cfg, Halted(c), rest, log + Send(c, Disconnect))
  }

  /** `_fail` from a handler that then returns false. */
  ghost function Halted(c: State): State { c.(failed := true, halted := true) }

  lemma EndsAfter(cfg: Config, c: State, q: seq<byte>, log: seq<Output>, n: nat, out: seq<Output>, c1: State,
                  status: Status, c2: State, rest: seq<byte>, log2: seq<Output>)
    requires Step(cfg, c, q) == Next(c1, n, out) && n <= |q|
    requires EndsAs(cfg, Outcome(cfg, c1, q[n..], log + out), status, c2, rest, log2)
    ensures EndsAs(cfg, Outcome(cfg, c, q, log), status, c2, rest, log2)
  {
    hide Step, Outcome, EndsAs;
    DidKeepsOutcome(cfg, c, q, log, c1, q[n..], log + out);
  }

  lemma EndsDone(cfg: Config, c: State, q: seq<byte>, log: seq<Output>, n: nat, out: seq<Output>, c1: State)
    requires Step(cfg, c, q) == Complete(c1, n, out) && n <= |q|
    ensures EndsAs(cfg, Outcome(cfg, c, q, log), Finished, c1, q[n..], log + out)
  {
    hide Step, Outcome, EndRectOutput;
    Assoc(log, out, EndRectOutput(c1));
    DidKeepsOutcome(cfg, c, q, log, EndRect(c1), q[n..], log + (out + EndRectOutput(c1)));
  }

  lemma EndsWaiting(cfg: Config, c: State, q: seq<byte>, log: seq<Output>)
    ensures Step(cfg, c, q).Blocked? ==> EndsAs(cfg, Outcome(cfg, c, q, log), Waiting, c, q, log)
  {
    hide Step, Outcome;
  }

  lemma {:induction false} RawInClient(cfg: Config, c: State, q: seq<byte>, log: seq<Output>)
    requires c.rects > 0 && c.encoding == Some(RAW) && !c.halted
    ensures var d := After(log, RawRun(c.lines, c.rect, cfg.depth8, q));
            EndsAs(cfg, Outcome(cfg, c, q, log), d.status, c.(lines := d.s), d.rest, d.out)
    decreases |q|, if c.lines == 0 then 1 else 0
  {
    hide RawStep, Run, EndRectOutput, Step, Outcome, EndsAs;
    var p := RawStep(c.lines, c.rect, cfg.depth8, q);
    RawStepsInClient(cfg, c, q);
    if p.More? {
      var d := RawRun(p.s, c.rect, cfg.depth8, q[p.n..]);
      RawInClient(cfg, c.(lines := p.s), q[p.n..], log + p.out);
      Assoc(log, p.out, d.out);
      EndsAfter(cfg, c, q, log, p.n, p.out, c.(lines := p.s), d.status, c.(lines := d.s), d.rest, log + p.out + d.out);
    } else if p.Done? {
      EndsDone(cfg, c, q, log, p.n, p.out, c.(lines := p.s));
    } else {
      EndsWaiting(cfg, c, q, log);
      Assoc(log, [], []);
    }
  }

  lemma RawStepsInClient(cfg: Config, c: State, q: seq<byte>)
    requires c.rects > 0 && c.encoding == Some(RAW) && !c.halted
    ensures Step(cfg, c, q) == RawRect(cfg, c, q)
    ensures !RawStep(c.lines, c.rect, cfg.depth8, q).Throw?
  {
  }

  lemma {:induction false} RreInClient(cfg: Config, c: State, q: seq<byte>, log: seq<Output>)
    requires c.rects > 0 && c.encoding == Some(RRE) && !c.halted
    ensures var d := After(log, RreRun(c.subrects, c.rect, q));
            EndsAs(cfg, Outcome(cfg, c, q, log), d.status, c.(subrects := d.s), d.rest, d.out)
    decreases |q|
  {
    hide RreStep, Run, EndRectOutput, Step, Outcome, EndsAs;
    var p := RreStep(c.subrects, c.rect, q);
    RreStepsInClient(cfg, c, q);
    if p.More? {
      var d := RreRun(p.s, c.rect, q[p.n..]);
      RreInClient(cfg, c.(subrects := p.s), q[p.n..], log + p.out);
      Assoc(log, p.out, d.out);
      EndsAfter(cfg, c, q, log, p.n, p.out, c.(subrects := p.s), d.status, c.(subrects := d.s), d.rest,
                log + p.out + d.out);
    } else if p.Done? {
      EndsDone(cfg, c, q, log, p.n, p.out, c.(subrects := p.s));
    } else {
      EndsWaiting(cfg, c, q, log);
      Assoc(log, [], []);
    }
  }

  lemma RreStepsInClient(cfg: Config, c: State, q: seq<byte>)
    requires c.rects > 0 && c.encoding == Some(RRE) && !c.halted
    ensures Step(cfg, c, q) == RreRect(c, q)
    ensures !RreStep(c.subrects, c.rect, q).Throw?
  {
  }

  lemma {:induction false} HextileInClient(cfg: Config, c: State, q: seq<byte>, log: seq<Output>)
    requires c.rects > 0 && c.encoding == Some(HEXTILE) && !c.halted
    ensures var d := After(log, HexRun(c.hex, c.rect, q));
            EndsAs(cfg, Outcome(cfg, c, q, log), d.status, c.(hex := d.s), d.rest, d.out)
    decreases |q|, if c.hex.tiles == 0 then 1 else 0
  {
    hide HexStep, Run, EndRectOutput, Step, Outcome, EndsAs;
    var p := HexStep(c.hex, c.rect, q);
    HextileStepsInClient(cfg, c, q);
    if p.More? {
      var d := HexRun(p.s, c.rect, q[p.n..]);
      HextileInClient(cfg, c.(hex := p.s), q[p.n..], log + p.out);
      Assoc(log, p.out, d.out);
      EndsAfter(cfg, c, q, log, p.n, p.out, c.(hex := p.s), d.status, c.(hex := d.s), d.rest, log + p.out + d.out);
    } else if p.Done? {
      EndsDone(cfg, c, q, log, p.n, p.out, c.(hex := p.s));
    } else {
      if p.Throw? {
        HexHonest(c.hex, c.rect, q);
        EndsThrown(cfg, c, q, log, p.n, c.(hex := p.s));
      }
      EndsWaiting(cfg, c, q, log);
      Assoc(log, [], []);
    }
  }

  lemma EndsThrown(cfg: Config, c: State, q: seq<byte>, log: seq<Output>, n: nat, c1: State)
    requires Step(cfg, c, q) == Fail(c1, n, true) && n <= |q|
    ensures EndsAs(cfg, Outcome(cfg, c, q, log), Thrown, c1, q[n..], log + [])
  {
    hide Step, Outcome;
    Assoc(log, [], []);
    DidKeepsOutcome(cfg, c, q, log, Halted(c1), q[n..], log + Send(c1, Disconnect));
  }

  lemma HextileStepsInClient(cfg: Config, c: State, q: seq<byte>)
    requires c.rects > 0 && c.encoding == Some(HEXTILE) && !c.halted
    ensures Step(cfg, c, q) == HextileRect(c, q)
  {
  }

  // ---------------------------------------------------------------- the client object

  class RFB {
    const cfg: Config
    const sock: Websock
    const sink: Sink
    const rawDecoder: RawDecoder
    const rreDecoder: RREDecoder
    const hextileDecoder: HextileDecoder

    var rects: nat
    var rect: Rect
    var encoding: Option<int>
    var fbWidth: nat
    var fbHeight: nat
    var supportsFence: bool
    var supportsContinuousUpdates: bool
    var enabledContinuousUpdates: bool
    var supportsSetDesktopSize: bool
    var screenID: nat
    var screenFlags: nat
    var qemuExtKeyEventSupported: bool
    var xvpVer: nat
    var remoteLocks: Option<(bool, bool)>
    var failed: bool
    var halted: bool

    ghost function Abs(): State
      reads this, rawDecoder, rreDecoder, hextileDecoder
    {
      State(rects, rect, encoding, rawDecoder.lines, rreDecoder.subrects, hextileDecoder.State(),
            fbWidth, fbHeight, supportsFence, supportsContinuousUpdates, enabledContinuousUpdates,
            supportsSetDesktopSize, screenID, screenFlags, qemuExtKeyEventSupported, xvpVer,
            remoteLocks, failed, halted)
    }

    ghost predicate Valid()
      reads this, sock, hextileDecoder
    {
      && sock.Valid() && hextileDecoder.Valid() && hextileDecoder.tileBuffer != sock.rQ
      && (hextileDecoder.tiles > 0 ==>
            rects > 0 && encoding == Some(HEXTILE) && hextileDecoder.Within(rect))
    }

    ghost function Ending(): Result
      reads this, sock, sock.rQ, sink, rawDecoder, rreDecoder, hextileDecoder
    {
      Outcome(cfg, Abs(), sock.Unread(), sink.log)
    }

    /** A client that has just finished the handshake for a w x h framebuffer. */
    constructor (cfg: Config, sock: Websock, w: nat, h: nat)
      requires sock.Valid() && sock.Unread() == []
      ensures Valid() && this.sock == sock && this.cfg == cfg
      ensures Result(Abs(), sock.Unread(), sink.log) == Fresh(w, h)
      ensures fresh(sink) && fresh(rawDecoder) && fresh(rreDecoder) && fresh(hextileDecoder)
      ensures fresh(hextileDecoder.tileBuffer)
    {
      this.cfg, this.sock := cfg, sock;
      sink := new Sink();
      rawDecoder := new RawDecoder();
      rreDecoder := new RREDecoder();
      hextileDecoder := new HextileDecoder();
      rects, rect, encoding := 0, Rect(0, 0, 0, 0), None;
      fbWidth, fbHeight := w, h;
      supportsFence, supportsContinuousUpdates, enabledContinuousUpdates := false, false, false;
      supportsSetDesktopSize, screenID, screenFlags := false, 0, 0;
      qemuExtKeyEventSupported, xvpVer, remoteLocks := false, 0, None;
      failed, halted := false, false;
    }

    // ------------------------------------------------------------ outputs

    /** Sends a message to the server, or nothing once the socket was closed. */
    method Reply(o: Output)
      modifies sink
      ensures sink.log == old(sink.log) + Send(Abs(), o)
    {
      if !failed {
        sink.Emit(o);
      } else {
        assert sink.log + [] == sink.log;
      }
    }

    /** `_fail`: tears the connection down; only the first one dispatches the event. The
        flag `halt` is set where the handler goes on to return false. */
    method FailConnection(halt: bool)
      modifies sink, this`failed, this`halted
      ensures sink.log == old(sink.log) + Send(old(Abs()), Disconnect)
      ensures Abs() == old(Abs()).(failed := true, halted := halt || old(halted))
    {
      if !failed {
        sink.Emit(Disconnect);
      } else {
        assert sink.log + [] == sink.log;
      }
      failed := true;
      halted := halt || halted;
    }

    method UpdateContinuousUpdates()
      modifies sink
      ensures sink.log == old(sink.log)
              + if enabledContinuousUpdates then Send(Abs(), EnableContinuousUpdates(fbWidth, fbHeight)) else []
    {
      if enabledContinuousUpdates {
        Reply(EnableContinuousUpdates(fbWidth, fbHeight));
      } else {
        assert sink.log + [] == sink.log;
      }
    }

    method ResizeFramebuffer(w: nat, h: nat)
      modifies sink, this`fbWidth, this`fbHeight
      ensures Abs() == Resize(old(Abs()), w, h)
      ensures sink.log == old(sink.log) + ResizeOutput(old(Abs()), w, h)
    {
      fbWidth := w;
      fbHeight := h;
      sink.Emit(ResizeDisplay(w, h));
      UpdateContinuousUpdates();
      Assoc(old(sink.log), [ResizeDisplay(w, h)], ResizeOutput(old(Abs()), w, h)[1..]);
    }

    // ------------------------------------------------------------ messages

    /** The message type has just been read: `q` is the queue before that. */
    ghost predicate AfterType(q: seq<byte>)
      reads this, sock, sock.rQ
    {
      && sock.Valid() && |q| >= 1 && sock.rQi >= 1
      && sock.rQ[sock.rQi - 1..sock.rQlen] == q
    }

    method HandleServerCutText(ghost q: seq<byte>) returns (ret: bool)
      requires Valid() && AfterType(q) && !halted
      modifies this`halted, sock`rQi, sink
      ensures Valid()
      ensures Did(CutText(cfg, old(Abs()), q), old(Abs()), q, old(sink.log), Abs(), sock.Unread(), sink.log)
      ensures ret == (CutText(cfg, old(Abs()), q).Next? && !halted)
    {
      ghost var c, log := Abs(), sink.log;
      assert |q| >= 1 && !c.halted;
      hide *;
      var wait, length, text := ReadCutText(q);
      if !wait {
        ret := TakeCutText(length, text);
      } else {
        ret := false;
      }
      CutTextCases(cfg, c, q, log, wait, length, text, ret, Abs(), sock.Unread(), sink.log);
    }

    /** Plain text goes to the clipboard; a negative length announces an extended message. */
    method TakeCutText(length: int, text: seq<byte>) returns (ret: bool)
      requires Valid() && !halted
      modifies this`halted, sink
      ensures Valid() && ret == (length >= 0)
      ensures Abs() == (if ret then old(Abs()) else old(Abs()).(halted := true))
      ensures sink.log == old(sink.log) + CutTextOutput(cfg, ret, text)
    {
      if length >= 0 {
        if !cfg.viewOnly {
          sink.Emit(Clipboard(text));
        }
        assert sink.log + [] == sink.log;
        return true;
      }
      sink.Emit(Unmodelled);
      halted := true;
      ret := false;
    }

    /** The length field and, when it is not negative, the text, once all of it is there. */
    method ReadCutText(ghost q: seq<byte>) returns (wait: bool, length: int, text: seq<byte>)
      requires Valid() && AfterType(q)
      modifies sock`rQi
      ensures Valid() && Abs() == old(Abs())
      ensures var l := if |q| < 8 then 0 else Signed32(U32(q[4..]));
              var size := if l < 0 then -l else l;
              && wait == (|q| < 8 + size)
              && (wait ==> sock.Unread() == q)
              && (!wait ==> length == l)
              && (!wait && l >= 0 ==> text == q[8..8 + size] && sock.Unread() == q[8 + size..])
              && (!wait && l < 0 ==> sock.Unread() == q[8..])
    {
      hide U32, Signed32;
      length, text := 0, [];
      AfterTypeUnread(q);
      wait := sock.RQwait(7, 1);
      if wait {
        return;
      }
      DropDrop(q, 1, 3);
      sock.RQskipBytes(3);
      DropDrop(q, 4, 4);
      var u := sock.RQshift32();
      length := Signed32(u);
      var size := if length < 0 then -length else length;
      wait := sock.RQwait(size, 8);
      if wait {
        return;
      }
      if length >= 0 {
        DropDrop(q, 8, size);
        text := sock.RQshiftBytes(size);
      }
    }

    lemma AfterTypeUnread(q: seq<byte>)
      requires AfterType(q)
      ensures sock.Unread() == q[1..] && |sock.Unread()| == |q| - 1
    {
    }

    method HandleServerFenceMsg(ghost q: seq<byte>) returns (ret: bool)
      requires Valid() && AfterType(q) && !halted
      modifies this`supportsFence, this`failed, this`halted, sock`rQi, sink
      ensures Valid()
      ensures Did(Fence(old(Abs()), q), old(Abs()), q, old(sink.log), Abs(), sock.Unread(), sink.log)
      ensures ret == (Fence(old(Abs()), q).Next? && !halted)
    {
      ghost var c, log := Abs(), sink.log;
      assert |q| >= 1 && !c.halted;
      hide *;
      var wait, flags, payload := ReadFence(q);
      if !wait {
        ret := AnswerFence(flags, payload);
      } else {
        ret := false;
      }
      FenceCases(c, q, log, wait, ret, flags, payload, Abs(), sock.Unread(), sink.log);
    }

    /** Reads the flags and at most 64 bytes of the payload, once all of it has arrived. */
    method ReadFence(ghost q: seq<byte>) returns (wait: bool, flags: nat, payload: seq<byte>)
      requires Valid() && AfterType(q)
      modifies sock`rQi
      ensures Valid() && Abs() == old(Abs())
      ensures wait == (|q| < 9 || |q| < 9 + q[8] as int)
      ensures wait ==> sock.Unread() == q
      ensures !wait ==> var kept: nat := if q[8] > 64 then 64 else q[8];
              flags == U32(q[4..]) && payload == q[9..9 + kept] && sock.Unread() == q[9 + kept..]
    {
      hide U32;
      payload := [];
      var length: nat;
      wait, flags, length := ReadFenceHeader(q);
      if wait {
        return;
      }
      wait := sock.RQwait(length, 9);
      if wait {
        return;
      }
      if length > 64 {
        length := 64;
      }
      DropDrop(q, 9, length);
      payload := sock.RQshiftBytes(length);
    }

    method ReadFenceHeader(ghost q: seq<byte>) returns (wait: bool, flags: nat, length: nat)
      requires Valid() && AfterType(q)
      modifies sock`rQi
      ensures Valid() && Abs() == old(Abs()) && wait == (|q| < 9)
      ensures wait ==> sock.Unread() == q
      ensures !wait ==>
        flags == U32(q[4..]) && length == q[8] as int && sock.Unread() == q[9..]
        && sock.rQi >= 9 && sock.rQ[sock.rQi - 9..sock.rQlen] == q
    {
      hide U32;
      flags, length := 0, 0;
      AfterTypeUnread(q);
      wait := sock.RQwait(8, 1);
      if wait {
        return;
      }
      DropDrop(q, 1, 3);
      sock.RQskipBytes(3);
      DropDrop(q, 4, 4);
      flags := sock.RQshift32();
      DropDrop(q, 8, 1);
      length := sock.RQshift8();
    }

    /** A fence must be a request; its supported flags and payload are sent back. */
    method AnswerFence(flags: nat, payload: seq<byte>) returns (ret: bool)
      requires Valid() && !halted
      modifies this`supportsFence, this`failed, this`halted, sink
      ensures Valid() && ret == (flags >= 0x8000_0000) && halted == !ret
      ensures var c := old(Abs()).(supportsFence := true);
              && Abs() == (if ret then c else Halted(c))
              && sink.log == old(sink.log) + Send(c, if ret then ClientFence(flags % 4, payload) else Disconnect)
    {
      supportsFence := true;
      if flags < 0x8000_0000 {
        FailConnection(true);
        return false;
      }
      Reply(ClientFence(flags % 4, payload));
      return true;
    }

    method HandleXvpMsg(ghost q: seq<byte>) returns (ret: bool)
      requires Valid() && AfterType(q) && !halted
      modifies this`xvpVer, this`failed, this`halted, sock`rQi, sink
      ensures Valid()
      ensures Did(Xvp(old(Abs()), q), old(Abs()), q, old(sink.log), Abs(), sock.Unread(), sink.log)
      ensures ret == (Xvp(old(Abs()), q).Next? && !halted)
    {
      var wait, ver, msg := ReadXvp(q);
      if wait {
        return false;
      }
      hide AfterType;
      if msg == 0 {
        Assoc(sink.log, [], []);
      } else if msg == 1 {
        xvpVer := ver;
        sink.Emit(PowerCapability);
      } else {
        FailConnection(false);
      }
      return true;
    }

    method ReadXvp(ghost q: seq<byte>) returns (wait: bool, ver: nat, msg: nat)
      requires Valid() && AfterType(q)
      modifies sock`rQi
      ensures Valid() && Abs() == old(Abs()) && wait == (|q| < 4)
      ensures wait ==> sock.Unread() == q
      ensures !wait ==> ver == q[2] && msg == q[3] && sock.Unread() == q[4..]
    {
      ver, msg := 0, 0;
      AfterTypeUnread(q);
      wait := sock.RQwait(3, 1);
      if wait {
        return;
      }
      DropDrop(q, 1, 1);
      sock.RQskipBytes(1);
      DropDrop(q, 2, 1);
      ver := sock.RQshift8();
      DropDrop(q, 3, 1);
      msg := sock.RQshift8();
    }

    method HandleEndOfContinuousUpdates(ghost q: seq<byte>)
      requires Valid() && AfterType(q) && !halted
      modifies this`supportsContinuousUpdates, this`enabledContinuousUpdates, sink
      ensures Valid()
      ensures Did(EndOfContinuousUpdates(old(Abs())), old(Abs()), q, old(sink.log), Abs(), sock.Unread(), sink.log)
    {
      assert sock.Unread() == q[1..];
      var first := !supportsContinuousUpdates;
      supportsContinuousUpdates := true;
      enabledContinuousUpdates := false;
      if first {
        enabledContinuousUpdates := true;
        UpdateContinuousUpdates();
      } else {
        assert sink.log + [] == sink.log;
      }
    }

    // ------------------------------------------------------------ rectangles

    /** A rectangle is being read. */
    ghost predicate InRect()
      reads this, sock, hextileDecoder
    {
      Valid() && rects > 0 && encoding.Some? && !halted
    }

    method HandleCursor() returns (ret: bool)
      requires InRect()
      modifies sock`rQi, sink
      ensures InRect() && sock.rQi >= old(sock.rQi)
      ensures RectResult(CursorRect(old(Abs()), old(sock.Unread())), ret, old(Abs()), old(sock.Unread()), old(sink.log),
                         Abs(), sock.Unread(), sink.log)
    {
      hide CursorRect, RectResult;
      ghost var c, q := Abs(), sock.Unread();
      var w, h := rect.w, rect.h;
      var pixelslength := PixelBytes(w, h);
      var masklength := MaskBytes(w, h);
      hide PixelBytes, MaskBytes;
      CursorCases(c, q, sink.log);
      var wait := sock.RQwait(pixelslength + masklength, 0);
      if wait {
        return false;
      }
      var pixels, mask := ReadCursor(pixelslength, masklength);
      sink.Emit(Cursor(rect.x, rect.y, w, h, pixels, mask));
      return true;
    }

    method ReadCursor(pixelslength: nat, masklength: nat) returns (pixels: seq<byte>, mask: seq<byte>)
      requires sock.Valid() && |sock.Unread()| >= pixelslength + masklength
      modifies sock`rQi
      ensures sock.Valid() && sock.rQi >= old(sock.rQi)
      ensures pixels == old(sock.Unread())[..pixelslength]
      ensures mask == old(sock.Unread())[pixelslength..pixelslength + masklength]
      ensures sock.Unread() == old(sock.Unread())[pixelslength + masklength..]
    {
      hide *;
      DropDrop(sock.Unread(), pixelslength, masklength);
      pixels := sock.RQshiftBytes(pixelslength);
      mask := sock.RQshiftBytes(masklength);
    }

    method HandleDesktopName() returns (ret: bool)
      requires InRect()
      modifies sock`rQi, sink
      ensures InRect() && sock.rQi >= old(sock.rQi)
      ensures RectResult(NameRect(old(Abs()), old(sock.Unread())), ret, old(Abs()), old(sock.Unread()), old(sink.log),
                         Abs(), sock.Unread(), sink.log)
    {
      hide Complete, U32;
      ghost var q := sock.Unread();
      var wait := sock.RQwait(4, 0);
      if wait {
        return false;
      }
      var length := sock.RQshift32();
      wait := sock.RQwait(length, 4);
      if wait {
        return false;
      }
      DropDrop(q, 4, length);
      var name := sock.RQshiftBytes(length);
      sink.Emit(DesktopName(name));
      return true;
    }

    method HandleLedEvent() returns (ret: bool)
      requires InRect()
      modifies this`remoteLocks, sock`rQi
      ensures InRect() && sock.rQi >= old(sock.rQi)
      ensures RectResult(LedRect(old(Abs()), old(sock.Unread())), ret, old(Abs()), old(sock.Unread()), sink.log,
                         Abs(), sock.Unread(), sink.log)
    {
      hide Complete, Bit;
      var wait := sock.RQwait(1, 0);
      assert sink.log + [] == sink.log;
      if wait {
        return false;
      }
      var data := sock.RQshift8();
      remoteLocks := Some((Bit(data, 1), Bit(data, 2)));
      return true;
    }

    method HandleExtendedDesktopSize() returns (ret: bool)
      requires InRect()
      modifies this`supportsSetDesktopSize, this`screenID, this`screenFlags, this`fbWidth, this`fbHeight, sock`rQi, sink
      ensures InRect() && sock.rQi >= old(sock.rQi)
      ensures RectResult(ExtendedSize(cfg, old(Abs()), old(sock.Unread())), ret, old(Abs()), old(sock.Unread()),
                         old(sink.log),
                         Abs(), sock.Unread(), sink.log)
    {
      hide *;
      ghost var c, q := Abs(), sock.Unread();
      LayoutWaitResult(cfg, c, q, sink.log);
      var wait, numberOfScreens := AwaitLayout();
      if wait {
        return false;
      }
      TakeLayout(numberOfScreens);
      LayoutResult(cfg, c, q, old(sink.log), Abs(), sock.Unread(), sink.log);
      return true;
    }

    /** Whether the whole layout is there, and how many screens it has. */
    method AwaitLayout() returns (wait: bool, numberOfScreens: nat)
      requires InRect()
      modifies sock`rQi
      ensures InRect() && sock.rQi == old(sock.rQi) && sock.Unread() == old(sock.Unread())
      ensures wait <==> ExtendedSize(cfg, Abs(), sock.Unread()).Blocked?
      ensures !wait ==>
        && |sock.Unread()| >= 4 && |sock.Unread()| >= ScreensEnd(numberOfScreens)
        && sock.Unread()[0] == numberOfScreens
    {
      LayoutWaits(cfg, Abs(), sock.Unread());
      hide Complete, ScreenLayoutOutput, U32, ExtendedSize, ScreenLayout;
      numberOfScreens := 0;
      wait := sock.RQwait(4, 0);
      if wait {
        return;
      }
      numberOfScreens := sock.RQpeek8();
      wait := sock.RQwait(ScreensEnd(numberOfScreens), 0);
    }

    /** A complete layout is at hand. */
    method TakeLayout(numberOfScreens: nat)
      requires InRect() && |sock.Unread()| >= ScreensEnd(numberOfScreens) && sock.Unread()[0] == numberOfScreens
      modifies this`supportsSetDesktopSize, this`screenID, this`screenFlags, this`fbWidth, this`fbHeight, sock`rQi, sink
      ensures InRect() && sock.rQi >= old(sock.rQi)
      ensures Abs() == ScreenLayout(old(Abs()), old(sock.Unread()))
      ensures sock.Unread() == old(sock.Unread())[ScreensEnd(numberOfScreens)..]
      ensures sink.log == old(sink.log) + ScreenLayoutOutput(cfg, old(Abs()), Abs())
    {
      hide ScreenLayoutOutput, U32, ResizeRefused, ScreensEnd, ScreenLayout;
      ghost var c, q := Abs(), sock.Unread();
      var firstUpdate := !supportsSetDesktopSize;
      FirstScreenThere(numberOfScreens);
      ReadScreens(numberOfScreens);
      ApplyScreens(firstUpdate, c);
      LayoutIs(c, q, Abs());
    }

    /** Notes the identity of the first screen and skips the rest of the layout. */
    method ReadScreens(numberOfScreens: nat)
      requires InRect() && |sock.Unread()| >= ScreensEnd(numberOfScreens)
      modifies this`supportsSetDesktopSize, this`screenID, this`screenFlags, sock`rQi
      ensures InRect() && sock.rQi >= old(sock.rQi)
      ensures sock.Unread() == old(sock.Unread())[ScreensEnd(numberOfScreens)..]
      ensures supportsSetDesktopSize
      ensures screenID == if numberOfScreens == 0 then old(screenID) else U32(old(sock.Unread())[4..])
      ensures screenFlags == if numberOfScreens == 0 then old(screenFlags) else U32(old(sock.Unread())[16..])
    {
      supportsSetDesktopSize := true;
      ReadScreenList(numberOfScreens);
    }

    method ReadScreenList(numberOfScreens: nat)
      requires sock.Valid() && |sock.Unread()| >= ScreensEnd(numberOfScreens)
      modifies this`screenID, this`screenFlags, sock`rQi
      ensures sock.Valid() && sock.rQi >= old(sock.rQi)
      ensures sock.Unread() == old(sock.Unread())[ScreensEnd(numberOfScreens)..]
      ensures numberOfScreens > 0 ==> |old(sock.Unread())| >= 20
      ensures screenID == if numberOfScreens == 0 then old(screenID) else U32(old(sock.Unread())[4..])
      ensures screenFlags == if numberOfScreens == 0 then old(screenFlags) else U32(old(sock.Unread())[16..])
    {
      ghost var q := sock.Unread();
      FirstScreenThere(numberOfScreens);
      hide *;
      SkipCounts();
      var i := 0;
      while i < numberOfScreens
        invariant i <= numberOfScreens && sock.Valid() && sock.rQi >= old(sock.rQi)
        invariant ScreensEnd(i) <= |q| && sock.Unread() == q[ScreensEnd(i)..]
        invariant screenID == if i == 0 then old(screenID) else U32(q[4..])
        invariant screenFlags == if i == 0 then old(screenFlags) else U32(q[16..])
      {
        MoreScreens(i, numberOfScreens);
        ReadScreen(i, q);
        i := i + 1;
      }
    }

    /** The number of screens, which has been looked at, and the padding. */
    method SkipCounts()
      requires sock.Valid() && |sock.Unread()| >= 4
      modifies sock`rQi
      ensures sock.Valid() && sock.rQi >= old(sock.rQi) && sock.Unread() == old(sock.Unread())[ScreensEnd(0)..]
      ensures ScreensEnd(0) == 4
    {
      DropDrop(sock.Unread(), 1, 3);
      sock.RQskipBytes(1);
      sock.RQskipBytes(3);
    }

    /** One screen: only the first is noted. */
    method ReadScreen(i: nat, ghost q: seq<byte>)
      requires sock.Valid() && |q| >= ScreensEnd(i + 1) && sock.Unread() == q[ScreensEnd(i)..]
      modifies this`screenID, this`screenFlags, sock`rQi
      ensures sock.Valid() && sock.rQi >= old(sock.rQi) && sock.Unread() == q[ScreensEnd(i + 1)..]
      ensures |q| >= 20
      ensures screenID == if i == 0 then U32(q[4..]) else old(screenID)
      ensures screenFlags == if i == 0 then U32(q[16..]) else old(screenFlags)
    {
      hide U32;
      if i == 0 {
        ReadFirstScreen(q);
      } else {
        DropDrop(q, ScreensEnd(i), 16);
        sock.RQskipBytes(16);
      }
    }

    method ReadFirstScreen(ghost q: seq<byte>)
      requires sock.Valid() && |q| >= 20 && sock.Unread() == q[4..]
      modifies this`screenID, this`screenFlags, sock`rQi
      ensures sock.Valid() && sock.rQi >= old(sock.rQi) && sock.Unread() == q[20..]
      ensures screenID == U32(q[4..]) && screenFlags == U32(q[16..])
    {
      hide *;
      screenID := sock.RQshift32();
      DropDrop(q, 4, 4);
      sock.RQskipBytes(2);
      DropDrop(q, 8, 2);
      sock.RQskipBytes(2);
      DropDrop(q, 10, 2);
      sock.RQskipBytes(2);
      DropDrop(q, 12, 2);
      sock.RQskipBytes(2);
      DropDrop(q, 14, 2);
      screenFlags := sock.RQshift32();
      DropDrop(q, 16, 4);
    }

    /** Follows the new size, unless it is the refusal of a request of ours, and asks for the
        first remote resize. */
    method ApplyScreens(firstUpdate: bool, ghost c: State)
      requires InRect() && firstUpdate == !c.supportsSetDesktopSize
      requires c.rect == rect && c.enabledContinuous == enabledContinuousUpdates && c.failed == failed
      modifies this`fbWidth, this`fbHeight, sink
      ensures InRect()
      ensures fbWidth == (if ResizeRefused(c) then old(fbWidth) else rect.w)
      ensures fbHeight == (if ResizeRefused(c) then old(fbHeight) else rect.h)
      ensures sink.log == old(sink.log) + ScreenLayoutOutput(cfg, c, Abs())
    {
      ghost var log := sink.log;
      Assoc(log, [], []);
      if rect.x == 1 && rect.y != 0 {
      } else {
        ResizeFramebuffer(rect.w, rect.h);
      }
      ghost var out := if ResizeRefused(c) then [] else ResizeOutput(c, rect.w, rect.h);
      assert sink.log == log + out;
      hide ResizeOutput;
      Assoc(out, [], []);
      if firstUpdate && cfg.resizeSession && !cfg.viewOnly {
        Reply(SetDesktopSize(screenID, screenFlags));
        Assoc(log, out, Send(c, SetDesktopSize(screenID, screenFlags)));
      }
    }

    /** The rectangle's decoder, as far as the bytes reach. True when the rectangle is done;
        the caller has yet to count it. */
    method HandleDataRect() returns (ret: bool)
      requires InRect() && !Pseudo(encoding.value)
      modifies this`failed, this`halted, sock`rQi, sink
      modifies rawDecoder, rreDecoder, hextileDecoder, hextileDecoder.tileBuffer
      ensures Valid() && sock.rQi >= old(sock.rQi) && (ret ==> InRect())
      ensures EndsAs(cfg, old(Ending()), if ret then Finished else Waiting, Abs(), sock.Unread(), sink.log)
      ensures ret ==> hextileDecoder.tiles == 0
    {
      if encoding == Some(RAW) {
        ret := HandleRaw();
      } else if encoding == Some(RRE) {
        ret := HandleRre();
      } else if encoding == Some(HEXTILE) {
        ret := HandleHextile();
      } else if encoding == Some(COPYRECT) {
        ret := HandleCopyRect();
      } else {
        ret := false;
        HandleUnknownRect();
      }
    }

    method HandleRaw() returns (ret: bool)
      requires InRect() && encoding == Some(RAW)
      modifies sock`rQi, sink, rawDecoder
      ensures InRect() && sock.rQi >= old(sock.rQi)
      ensures EndsAs(cfg, old(Ending()), if ret then Finished else Waiting, Abs(), sock.Unread(), sink.log)
    {
      hide Outcome, EndsAs, RawRun;
      RawInClient(cfg, Abs(), sock.Unread(), sink.log);
      ret := rawDecoder.DecodeRect(rect, sock, sink, cfg.depth8);
    }

    method HandleRre() returns (ret: bool)
      requires InRect() && encoding == Some(RRE)
      modifies sock`rQi, sink, rreDecoder
      ensures InRect() && sock.rQi >= old(sock.rQi)
      ensures EndsAs(cfg, old(Ending()), if ret then Finished else Waiting, Abs(), sock.Unread(), sink.log)
    {
      hide Outcome, EndsAs, RreRun;
      RreInClient(cfg, Abs(), sock.Unread(), sink.log);
      ret := rreDecoder.DecodeRect(rect, sock, sink);
    }

    method HandleCopyRect() returns (ret: bool)
      requires InRect() && encoding == Some(COPYRECT)
      modifies sock`rQi, sink
      ensures InRect() && sock.rQi >= old(sock.rQi)
      ensures EndsAs(cfg, old(Ending()), if ret then Finished else Waiting, Abs(), sock.Unread(), sink.log)
    {
      hide Outcome, EndsAs, CopyRectStep;
      CopyRectInClient(cfg, Abs(), sock.Unread(), sink.log);
      ret := DecodeCopyRect(rect, sock, sink);
      if !ret {
        assert sink.log + [] == sink.log;
      }
    }

    method HandleHextile() returns (ret: bool)
      requires InRect() && encoding == Some(HEXTILE)
      modifies this`failed, this`halted, sock`rQi, sink, hextileDecoder, hextileDecoder.tileBuffer
      ensures Valid() && sock.rQi >= old(sock.rQi) && (ret ==> InRect() && hextileDecoder.tiles == 0)
      ensures EndsAs(cfg, old(Ending()), if ret then Finished else Waiting, Abs(), sock.Unread(), sink.log)
    {
      hide *;
      ghost var ending := Ending();
      var status := DecodeHextile();
      ret := status.Finished?;
      if status.Thrown? {
        ThrownEnds(cfg, ending, Abs(), sock.Unread(), sink.log);
        TearDown();
      }
    }

    /** The decoder threw: `_fail`, and the handler returns false. */
    method TearDown()
      requires InRect()
      modifies this`failed, this`halted, sink
      ensures Valid() && Abs() == Halted(old(Abs()))
      ensures sink.log == old(sink.log) + Send(old(Abs()), Disconnect)
    {
      FailConnection(true);
    }

    method DecodeHextile() returns (status: Status)
      requires InRect() && encoding == Some(HEXTILE)
      modifies sock`rQi, sink, hextileDecoder, hextileDecoder.tileBuffer
      ensures Valid() && InRect() && sock.rQi >= old(sock.rQi) && (status.Finished? ==> hextileDecoder.tiles == 0)
      ensures EndsAs(cfg, old(Ending()), status, Abs(), sock.Unread(), sink.log)
    {
      hide Outcome, HexRun, EndsAs;
      HextileInClient(cfg, Abs(), sock.Unread(), sink.log);
      status := hextileDecoder.DecodeRect(rect, sock, sink);
    }

    /** An encoding outside this model, or outside the protocol. */
    method HandleUnknownRect()
      requires InRect() && !Pseudo(encoding.value)
      requires encoding.value !in {RAW, RRE, HEXTILE, COPYRECT}
      modifies this`failed, this`halted, sink
      ensures Valid()
      ensures EndsAs(cfg, old(Ending()), Waiting, Abs(), sock.Unread(), sink.log)
    {
      hide Outcome, Foreign, EndsAs;
      ghost var c, q, log := Abs(), sock.Unread(), sink.log;
      UnknownEnds(cfg, c, q, log);
      if Foreign(encoding.value) {
        sink.Emit(Unmodelled);
        halted := true;
      } else {
        FailConnection(true);
      }
    }

    method HandleRect() returns (ret: bool)
      requires InRect()
      modifies this, sock`rQi, sink, rawDecoder, rreDecoder, hextileDecoder, hextileDecoder.tileBuffer
      ensures Valid() && sock.rQi >= old(sock.rQi)
      ensures ret ==> InRect() && rects <= old(rects) && hextileDecoder.tiles == 0
      ensures EndsAs(cfg, old(Ending()), if ret then Finished else Waiting, Abs(), sock.Unread(), sink.log)
    {
      if encoding.value in {LAST_RECT, QEMU_EXT_KEY, DESKTOP_SIZE} {
        HandleEmptyRect();
        ret := true;
      } else if encoding.value in {CURSOR, DESKTOP_NAME, EXTENDED_DESKTOP_SIZE, QEMU_LED} {
        ret := HandlePseudoRect();
      } else {
        ret := HandleDataRect();
      }
    }

    /** Rectangles whose header says it all. */
    method HandleEmptyRect()
      requires InRect() && encoding.value in {LAST_RECT, QEMU_EXT_KEY, DESKTOP_SIZE}
      modifies this`rects, this`qemuExtKeyEventSupported, this`fbWidth, this`fbHeight, sink
      ensures InRect() && rects <= old(rects) && hextileDecoder.tiles == 0
      ensures EndsAs(cfg, old(Ending()), Finished, Abs(), sock.Unread(), sink.log)
    {
      hide Outcome, EndRectOutput, ResizeOutput;
      ghost var c, q, log := Abs(), sock.Unread(), sink.log;
      assert q[0..] == q;
      if encoding == Some(LAST_RECT) {
        rects := 1;
      } else if encoding == Some(QEMU_EXT_KEY) {
        qemuExtKeyEventSupported := true;
      } else {
        ResizeFramebuffer(rect.w, rect.h);
      }
      ghost var out := sink.log[|log|..];
      assert sink.log == log + out;
      assert Step(cfg, c, q) == Complete(Abs(), 0, out);
      DidRectKeepsOutcome(cfg, c, q, log, Abs(), q, sink.log);
    }

    method HandlePseudoRect() returns (ret: bool)
      requires InRect() && encoding.value in {CURSOR, DESKTOP_NAME, EXTENDED_DESKTOP_SIZE, QEMU_LED}
      modifies this`supportsSetDesktopSize, this`screenID, this`screenFlags, this`fbWidth, this`fbHeight
      modifies this`remoteLocks, sock`rQi, sink
      ensures InRect() && sock.rQi >= old(sock.rQi) && hextileDecoder.tiles == 0
      ensures EndsAs(cfg, old(Ending()), if ret then Finished else Waiting, Abs(), sock.Unread(), sink.log)
    {
      hide Outcome, EndsAs, RectResult, CursorRect, NameRect, LedRect, ExtendedSize;
      ghost var c, q, log := Abs(), sock.Unread(), sink.log;
      PseudoSteps(cfg, c, q);
      if encoding == Some(CURSOR) {
        ret := HandleCursor();
      } else if encoding == Some(DESKTOP_NAME) {
        ret := HandleDesktopName();
      } else if encoding == Some(EXTENDED_DESKTOP_SIZE) {
        ret := HandleExtendedDesktopSize();
      } else {
        ret := HandleLedEvent();
      }
      RectEnds(cfg, ret, c, q, log, Abs(), sock.Unread(), sink.log);
    }

    method ReadRectHeader() returns (wait: bool)
      requires Valid() && rects > 0 && encoding.None? && !halted
      modifies this`rect, this`encoding, sock`rQi
      ensures Valid() && sock.rQi >= old(sock.rQi) && (!wait ==> InRect())
      ensures Did(RectHeader(old(Abs()), old(sock.Unread())), old(Abs()), old(sock.Unread()), sink.log,
                  Abs(), sock.Unread(), sink.log)
      ensures wait == RectHeader(old(Abs()), old(sock.Unread())).Blocked?
    {
      hide U16, U32, Signed32;
      assert sink.log + [] == sink.log;
      wait := sock.RQwait(12, 0);
      if wait {
        return;
      }
      var x, y, w, h, e := ReadHeaderFields();
      rect := Rect(x, y, w, h);
      encoding := Some(Signed32(e));
    }

    method ReadHeaderFields() returns (x: nat, y: nat, w: nat, h: nat, e: nat)
      requires sock.Valid() && |sock.Unread()| >= 12
      modifies sock`rQi
      ensures sock.Valid() && sock.rQi >= old(sock.rQi)
      ensures var q := old(sock.Unread());
              && x == U16(q) && y == U16(q[2..]) && w == U16(q[4..]) && h == U16(q[6..]) && e == U32(q[8..])
              && sock.Unread() == q[12..]
    {
      hide *;
      ghost var q := sock.Unread();
      x := sock.RQshift16();
      DropDrop(q, 2, 2);
      y := sock.RQshift16();
      DropDrop(q, 4, 2);
      w := sock.RQshift16();
      DropDrop(q, 6, 2);
      h := sock.RQshift16();
      DropDrop(q, 8, 4);
      e := sock.RQshift32();
    }

    /** The rectangles of an update, from wherever reading them stopped. */
    method ReadRects() returns (ret: bool)
      requires Valid() && !halted
      modifies this, sock`rQi, sink, rawDecoder, rreDecoder, hextileDecoder, hextileDecoder.tileBuffer
      ensures Valid() && sock.rQi >= old(sock.rQi)
      ensures ret ==> rects == 0 && !halted
      ensures !ret ==> old(Ending()) == Ending() && Step(cfg, Abs(), sock.Unread()).Blocked?
      ensures ret && old(rects) > 0
          ==> old(Ending()) == Outcome(cfg, Abs(), sock.Unread(), sink.log + [Flip] + Request(Abs()))
      ensures old(rects) == 0 ==>
        ret && Abs() == old(Abs()) && sock.Unread() == old(sock.Unread()) && sink.log == old(sink.log)
    {
      if rects == 0 {
        return true;
      }
      hide *;
      ghost var ending := Ending();
      EndingIsOutcome();
      while rects > 0
        invariant Valid() && sock.rQi >= old(sock.rQi) && !halted && sock.rQ == old(sock.rQ)
        invariant ending == Outcome(cfg, Abs(), sock.Unread(), WithFrame(rects, sink.log, Abs()))
      {
        EndingIsOutcome();
        ret := ReadRect();
        if !ret {
          EndingIsOutcome();
          return;
        }
      }
      EndingIsOutcome();
      return true;
    }

    lemma EndingIsOutcome()
      ensures Ending() == Outcome(cfg, Abs(), sock.Unread(), sink.log)
      ensures WithFrame(rects, sink.log, Abs()) == if rects == 0 then sink.log + [Flip] + Request(Abs()) else sink.log
    {
    }

    /** The body of that loop: one rectangle. */
    method ReadRect() returns (ret: bool)
      requires Valid() && !halted && rects > 0
      modifies this, sock`rQi, sink, rawDecoder, rreDecoder, hextileDecoder, hextileDecoder.tileBuffer
      ensures Valid() && sock.rQi >= old(sock.rQi)
      ensures ret ==> rects < old(rects) && !halted
      ensures !ret ==> old(Ending()) == Ending() && Step(cfg, Abs(), sock.Unread()).Blocked?
      ensures ret ==> old(Ending()) == Outcome(cfg, Abs(), sock.Unread(), WithFrame(rects, sink.log, Abs()))
    {
      hide Outcome, Step, EndsAs, Request, Did, RectHeader;
      ghost var ending := Ending();
      if encoding.None? {
        ghost var c, q, log := Abs(), sock.Unread(), sink.log;
        HeaderStep(cfg, c, q);
        var wait := ReadRectHeader();
        DidKeepsOutcome(cfg, c, q, log, Abs(), sock.Unread(), sink.log);
        if wait {
          DidNothing(cfg, c, q, log, Abs(), sock.Unread(), sink.log);
          return false;
        }
      }
      ret := HandleRect();
      EndingOf(cfg, ending, ret, Abs(), sock.Unread(), sink.log);
      if !ret {
        return;
      }
      rects := rects - 1;
      encoding := None;
    }

    // ------------------------------------------------------------ the message loop

    /** The number of rectangles of a new update; its type has been read. */
    method ReadUpdateHeader(ghost q: seq<byte>) returns (wait: bool)
      requires Valid() && !halted && rects == 0 && AfterType(q) && q[0] == 0
      modifies this`rects, sock`rQi
      ensures Valid() && wait == (|q| < 4)
      ensures wait ==> Abs() == old(Abs()) && sock.Unread() == q
      ensures !wait ==> Abs() == old(Abs()).(rects := U16(q[2..])) && sock.Unread() == q[4..]
    {
      hide U16;
      AfterTypeUnread(q);
      wait := sock.RQwait(3, 1);
      if wait {
        return;
      }
      DropDrop(q, 1, 1);
      sock.RQskipBytes(1);
      DropDrop(q, 2, 2);
      rects := sock.RQshift16();
    }

    /** Without images in flight `_display.pending()` is false, so an update never waits for
        the previous frame. */
    method FramebufferUpdate(ghost q: seq<byte>) returns (ret: bool)
      requires Valid() && !halted
      requires if rects == 0 then AfterType(q) && q[0] == 0 else q == sock.Unread()
      modifies this, sock`rQi, sink, rawDecoder, rreDecoder, hextileDecoder, hextileDecoder.tileBuffer
      ensures Valid() && (ret ==> rects == 0 && !halted && (old(rects) == 0 ==> |sock.Unread()| < |q|))
      ensures var ending := Outcome(cfg, old(Abs()), q, old(sink.log));
              if ret then ending == Outcome(cfg, Abs(), sock.Unread(), sink.log + Request(Abs()))
              else ending == Ending() && Step(cfg, Abs(), sock.Unread()).Blocked?
    {
      assert rects == 0 ==> |q| >= 1 && q[0] == 0;
      hide Outcome, Step, Request, U16, AfterType;
      ghost var c, log := Abs(), sink.log;
      if rects == 0 {
        UpdateSteps(cfg, c, q, log);
        var wait := ReadUpdateHeader(q);
        if wait {
          return false;
        }
      }
      ret := ReadRects();
      if !ret {
        return;
      }
      sink.Emit(Flip);
    }

    method NormalMsg() returns (ret: bool)
      requires Valid() && !halted && (rects == 0 ==> |sock.Unread()| >= 1)
      modifies this, sock`rQi, sink, rawDecoder, rreDecoder, hextileDecoder, hextileDecoder.tileBuffer
      ensures Valid() && Ending() == old(Ending())
      ensures !ret ==> Step(cfg, Abs(), sock.Unread()).Blocked?
      ensures ret ==> rects == 0 && !halted && (old(rects) == 0 ==> |sock.Unread()| < |old(sock.Unread())|)
    {
      hide Outcome, Step, Request, AfterType;
      ghost var q := sock.Unread();
      var msgType: byte := 0;
      if rects == 0 {
        msgType := ReadType();
      }
      if msgType == 0 {
        ret := FramebufferUpdate(q);
        if ret {
          RequestNext();
        }
      } else {
        ret := OtherMessage(msgType, q);
      }
    }

    method ReadType() returns (msgType: byte)
      requires Valid() && |sock.Unread()| >= 1
      modifies sock`rQi
      ensures Valid() && AfterType(old(sock.Unread())) && msgType == old(sock.Unread())[0]
    {
      msgType := sock.RQshift8();
    }

    /** A finished update is followed by the request for the next, unless updates come by
        themselves. */
    method RequestNext()
      requires Valid()
      modifies sink
      ensures Valid() && sink.log == old(sink.log) + Request(Abs())
    {
      if !enabledContinuousUpdates {
        Reply(FbUpdateRequest(fbWidth, fbHeight));
      } else {
        assert sink.log + [] == sink.log;
      }
    }

    method OtherMessage(msgType: byte, ghost q: seq<byte>) returns (ret: bool)
      requires Valid() && !halted && rects == 0 && AfterType(q) && msgType == q[0] != 0
      modifies this, sock`rQi, sink
      ensures Valid() && Ending() == Outcome(cfg, old(Abs()), q, old(sink.log))
      ensures !ret ==> Step(cfg, Abs(), sock.Unread()).Blocked?
      ensures ret ==> rects == 0 && !halted && |sock.Unread()| < |q|
    {
      ghost var c, log := Abs(), sink.log;
      MessageSteps(cfg, c, q);
      assert |q| >= 1;
      hide *;
      ret := Dispatch(msgType, q);
      OtherMessageDone(cfg, c, q, log, ret, Abs(), sock.Unread(), sink.log);
      EndingIsOutcome();
      RectsAndHalted();
    }

    lemma RectsAndHalted()
      ensures Abs().rects == rects && Abs().halted == halted
    {
    }

    method Dispatch(msgType: byte, ghost q: seq<byte>) returns (ret: bool)
      requires Valid() && !halted && rects == 0 && AfterType(q) && msgType == q[0] != 0
      modifies this, sock`rQi, sink
      ensures Valid()
      ensures Did(Message(cfg, old(Abs()), q), old(Abs()), q, old(sink.log), Abs(), sock.Unread(), sink.log)
      ensures ret == (Message(cfg, old(Abs()), q).Next? && !halted)
    {
      hide CutText, Fence, Xvp, EndOfContinuousUpdates, UpdateHeader;
      AfterTypeUnread(q);
      if msgType == 1 {
        FailConnection(true);
        ret := false;
      } else if msgType == 2 {
        sink.Emit(Bell);
        ret := true;
      } else if msgType == 3 {
        ret := HandleServerCutText(q);
      } else if msgType == 150 {
        HandleEndOfContinuousUpdates(q);
        ret := true;
      } else if msgType == 248 {
        ret := HandleServerFenceMsg(q);
      } else if msgType == 250 {
        ret := HandleXvpMsg(q);
      } else {
        FailConnection(false);
        ret := true;
      }
    }

    /** The socket's message handler in the connected state. */
    method HandleMessage()
      requires Valid() && !halted
      modifies this, sock`rQi, sink, rawDecoder, rreDecoder, hextileDecoder, hextileDecoder.tileBuffer
      ensures Valid()
      ensures old(|sock.Unread()|) > 0 ==> Result(Abs(), sock.Unread(), sink.log) == old(Ending())
      ensures old(|sock.Unread()|) == 0 ==>
        && Ending() == old(Ending()) && Abs() == old(Abs())
        && sink.log == old(sink.log) && sock.Unread() == []
    {
      hide Outcome, Step;
      var wait := sock.RQwait(1, 0);
      if wait {
        return;
      }
      while true
        invariant Valid() && !halted && |sock.Unread()| >= 1 && sock.rQ == old(sock.rQ)
        invariant Ending() == old(Ending())
        decreases if rects > 0 then 1 else 0, |sock.Unread()|
      {
        var goOn := NormalMsg();
        if !goOn {
          break;
        }
        wait := sock.RQwait(1, 0);
        if wait {
          NothingToRead(cfg, Abs(), sock.Unread());
          break;
        }
      }
      BlockedOutcome(cfg, Abs(), sock.Unread(), sink.log);
    }

    ghost function Current(): Result
      reads this, sock, sock.rQ, sink, rawDecoder, rreDecoder, hextileDecoder
    {
      Result(Abs(), sock.Unread(), sink.log)
    }

    /** The client with the sizes of its receive queue. */
    ghost function Whole(): Loaded
      reads this, sock, sock.rQ, sink, rawDecoder, rreDecoder, hextileDecoder
    {
      Loaded(Current(), sock.Space())
    }

    /**
     * One WebSocket message arrives. The source throws exactly when the queue does not take the
     * message, and then nothing else happens; otherwise the client does what `Feed` says.
     */
    method Receive(data: seq<byte>) returns (ok: bool)
      requires Valid() && Idle(cfg, Current())
      modifies this, sock`rQ, sock`rQi, sock`rQlen, sock`rQbufferSize, sock.rQ, sink
      modifies rawDecoder, rreDecoder, hextileDecoder, hextileDecoder.tileBuffer
      ensures ok <==> old(Whole()).Accepts(data)
      ensures Valid() && Idle(cfg, Current()) && Whole() == Offer(cfg, old(Whole()), data)
      ensures sock.rQ == old(sock.rQ) || fresh(sock.rQ)
    {
      hide Run, Step, Takes, Arrived, Refused;
      ghost var r, s := Current(), sock.Space();
      FeedStaysIdle(cfg, r, data);
      if failed {
        return true;
      }
      var notify;
      ok, notify := sock.RecvMessage(data);
      assert Abs() == r.c && sink.log == r.out;
      if !ok {
        return;
      }
      if halted {
        HaltedRun(cfg, Abs(), sock.Unread());
        assert r.out + [] == r.out;
      } else if notify {
        HandleMessage();
      } else {
        NothingArrived(cfg, r, data);
      }
      ReadUpTo(Arrived(s, |data|), sock.Space(), sock.Unread());
    }

    /**
     * Messages arrive one after another, some of them too long for the queue. The client ends as
     * if just the messages taken had been sent: no byte of them is lost. What it did up to a
     * disconnect event, and all it is if there was none, it would be after every other cutting
     * of the bytes of those.
     */
    method ReceiveAll(messages: seq<seq<byte>>) returns (taken: seq<seq<byte>>)
      requires Valid() && Idle(cfg, Current())
      modifies this, sock`rQ, sock`rQi, sock`rQlen, sock`rQbufferSize, sock.rQ, sink
      modifies rawDecoder, rreDecoder, hextileDecoder, hextileDecoder.tileBuffer
      ensures taken == Taken(cfg, old(Whole()), messages)
      ensures Valid() && Idle(cfg, Current()) && Current() == FeedAll(cfg, old(Current()), taken)
      ensures Honest(old(Current())) ==> AgreesWithEveryCutting(cfg, old(Current()), taken, Current())
    {
      hide Feed, Idle, Honest, AgreesWithEveryCutting, Taken, FeedAll, Offer, OfferAll;
      ghost var h := Whole();
      taken := [];
      OfferedFrom(cfg, h, messages, 0);
      var n := 0;
      while n < |messages|
        invariant n <= |messages| && Valid() && Idle(cfg, Current())
        invariant sock.rQ == old(sock.rQ) || fresh(sock.rQ)
        invariant OfferAll(cfg, Whole(), messages[n..]) == OfferAll(cfg, h, messages)
        invariant taken + Taken(cfg, Whole(), messages[n..]) == Taken(cfg, h, messages)
      {
        OfferNext(cfg, Whole(), messages, n);
        ghost var was := taken;
        var ok := Receive(messages[n]);
        if ok {
          taken := taken + [messages[n]];
        }
        TakenSplits(was, if ok then [messages[n]] else [], Taken(cfg, Whole(), messages[n + 1..]));
        n := n + 1;
      }
      NothingOffered(cfg, Whole(), messages[n..]);
      OfferAllFeeds(cfg, h, messages);
      if Honest(h.r) {
        CuttingsAgree(cfg, h.r, taken);
      }
    }
  }

  // ---------------------------------------------------------------- many messages

  /** A client and the sizes of its receive queue. */
  datatype Loaded = Loaded(r: Result, s: Space) {
    /** Nothing is received once the connection is torn down. */
    predicate Accepts(message: seq<byte>) { r.c.failed || Takes(s, |message|) }

    /** The queue's unread bytes are the client's. */
    predicate Sound() { s.Valid() && s.Unread() == |r.rest| }
  }

  /** The queue when all but `unread` bytes of it have been read. */
  function ReadTo(s: Space, unread: nat): Space { s.(at := if unread <= s.end then s.end - unread else 0) }

  /** One message: taken and handled, or refused. */
  function Offer(cfg: Config, h: Loaded, message: seq<byte>): Loaded {
    if h.r.c.failed then h
    else if Takes(h.s, |message|) then
      var r := Feed(cfg, h.r, message);
      Loaded(r, ReadTo(Arrived(h.s, |message|), |r.rest|))
    else h.(s := Refused(h.s))
  }

  function OfferAll(cfg: Config, h: Loaded, messages: seq<seq<byte>>): Loaded
    decreases |messages|
  {
    if |messages| == 0 then h else OfferAll(cfg, Offer(cfg, h, messages[0]), messages[1..])
  }

  /** The messages that the queue takes when they arrive in turn. */
  function Taken(cfg: Config, h: Loaded, messages: seq<seq<byte>>): (taken: seq<seq<byte>>)
    ensures |taken| <= |messages|
    decreases |messages|
  {
    if |messages| == 0 then []
    else (if h.Accepts(messages[0]) then [messages[0]] else []) + Taken(cfg, Offer(cfg, h, messages[0]), messages[1..])
  }

  lemma ReadUpTo(s: Space, t: Space, rest: seq<byte>)
    requires t == s.(at := t.at) && t.at <= t.end && |rest| == t.end - t.at
    ensures t == ReadTo(s, |rest|)
  {
  }

  lemma OfferedFrom(cfg: Config, h: Loaded, messages: seq<seq<byte>>, n: nat)
    requires n == 0
    ensures messages[n..] == messages && [] + Taken(cfg, h, messages) == Taken(cfg, h, messages)
  {
    hide Taken;
  }

  lemma OfferNext(cfg: Config, h: Loaded, messages: seq<seq<byte>>, n: nat)
    requires n < |messages|
    ensures OfferAll(cfg, h, messages[n..]) == OfferAll(cfg, Offer(cfg, h, messages[n]), messages[n + 1..])
    ensures Taken(cfg, h, messages[n..])
         == (if h.Accepts(messages[n]) then [messages[n]] else [])
            + Taken(cfg, Offer(cfg, h, messages[n]), messages[n + 1..])
  {
    assert messages[n..][1..] == messages[n + 1..];
    hide Offer;
  }

  lemma TakenSplits(a: seq<seq<byte>>, b: seq<seq<byte>>, c: seq<seq<byte>>)
    ensures a + (b + c) == a + b + c && a + [] == a
  {
  }

  lemma NothingOffered(cfg: Config, h: Loaded, messages: seq<seq<byte>>)
    requires messages == []
    ensures OfferAll(cfg, h, messages) == h && Taken(cfg, h, messages) == []
  {
  }

  /** Refused messages leave no trace in the client: it is fed the taken ones. */
  lemma {:induction false} OfferAllFeeds(cfg: Config, h: Loaded, messages: seq<seq<byte>>)
    ensures OfferAll(cfg, h, messages).r == FeedAll(cfg, h.r, Taken(cfg, h, messages))
    decreases |messages|
  {
    if |messages| > 0 {
      hide Takes, Arrived, Refused, Run;
      var later := Taken(cfg, Offer(cfg, h, messages[0]), messages[1..]);
      OfferAllFeeds(cfg, Offer(cfg, h, messages[0]), messages[1..]);
      assert ([messages[0]] + later)[1..] == later && [] + later == later;
    }
  }

  /** A queue that has refused nothing yet takes all messages exactly when each fits beside the unread bytes. */
  lemma {:induction false} AllTakenExactlyWhen(cfg: Config, h: Loaded, messages: seq<seq<byte>>)
    requires h.Sound() && h.s.size == h.s.recorded
    ensures Taken(cfg, h, messages) == messages <==> FitOnArrival(cfg, h.r, messages)
    decreases |messages|
  {
    if |messages| > 0 {
      var m, next := messages[0], Offer(cfg, h, messages[0]);
      var later := Taken(cfg, next, messages[1..]);
      assert messages == [m] + messages[1..];
      if h.Accepts(m) {
        OfferSound(cfg, h, m);
        hide Offer, Taken;
        AllTakenExactlyWhen(cfg, next, messages[1..]);
        assert ([m] + later)[1..] == later;
      }
    }
  }

  lemma OfferSound(cfg: Config, h: Loaded, message: seq<byte>)
    requires h.Sound()
    ensures Offer(cfg, h, message).Sound()
    ensures h.Accepts(message) ==> Offer(cfg, h, message).r == Feed(cfg, h.r, message)
    ensures h.Accepts(message) && h.s.size == h.s.recorded
        ==> Offer(cfg, h, message).s.size == Offer(cfg, h, message).s.recorded
  {
    SpaceKept(h.s, |message|);
    if !h.r.c.failed {
      RunReads(cfg, h.r.c, h.r.rest + message);
    }
    hide Takes, Arrived, Run, Refused;
  }

  lemma {:induction false} RunReads(cfg: Config, c: State, q: seq<byte>)
    ensures |Run(cfg, c, q).rest| <= |q|
    decreases |q|, Rank(c)
  {
    hide Step, Run, Rank;
    RunUnfolds(cfg, c, q);
    var r := Step(cfg, c, q);
    if r.Next? {
      StepProgress(cfg, c, q);
      RunReads(cfg, r.c, q[r.n..]);
    }
  }

  /**
   * After one message over the limit, bells are refused that a new client rings: the queue is
   * empty, but takes no more than its buffer.
   */
  lemma RefusalRefusesLater(cfg: Config, r: Result, tooLong: seq<byte>, n: nat)
    requires r.c.rects == 0 && !r.c.halted && !r.c.failed && r.rest == []
    requires |tooLong| > MAX_RQ_GROW_SIZE && INITIAL_RQ_SIZE < n <= MAX_RQ_GROW_SIZE
    ensures Taken(cfg, Loaded(r, EMPTY), [Bells(n)]) == [Bells(n)]
    ensures Taken(cfg, Loaded(r, EMPTY), [tooLong, Bells(n)]) == []
  {
    RefusalSpoils(|tooLong|, n);
    BellsRing(cfg, r.c, n);
    hide Takes, Refused, Bells, Feed;
    assert [tooLong, Bells(n)][1..] == [Bells(n)];
    var refused := Loaded(r, Refused(EMPTY));
    assert Taken(cfg, refused, [Bells(n)]) == [];
    assert Taken(cfg, Loaded(r, EMPTY), [tooLong, Bells(n)]) == Taken(cfg, refused, [Bells(n)]);
  }

  /** On arrival each message fits into the queue beside the unread bytes, or the connection is down. */
  ghost predicate FitOnArrival(cfg: Config, r: Result, messages: seq<seq<byte>>)
    decreases |messages|
  {
    |messages| == 0 || (&& (r.c.failed || |r.rest| + |messages[0]| <= MAX_RQ_GROW_SIZE)
                        && FitOnArrival(cfg, Feed(cfg, r, messages[0]), messages[1..]))
  }

  /** The same as far as the server and the page can tell before a failure, and without one altogether. */
  ghost predicate Agree(a: Result, b: Result) {
    UpToDisconnect(a.out) == UpToDisconnect(b.out) && a.c.failed == b.c.failed && (!a.c.failed ==> a == b)
  }

  /** What a run on some messages has in common with the runs on every other cutting of their bytes. */
  ghost predicate AgreesWithEveryCutting(cfg: Config, r: Result, messages: seq<seq<byte>>, end: Result) {
    forall other: seq<seq<byte>> | Concat(other) == Concat(messages) :: Agree(end, FeedAll(cfg, r, other))
  }

  lemma CuttingsAgree(cfg: Config, r: Result, messages: seq<seq<byte>>)
    requires Idle(cfg, r) && Honest(r)
    ensures AgreesWithEveryCutting(cfg, r, messages, FeedAll(cfg, r, messages))
  {
    hide Honest, Idle, FeedAll, UpToDisconnect;
    forall other: seq<seq<byte>> | Concat(other) == Concat(messages)
      ensures Agree(FeedAll(cfg, r, messages), FeedAll(cfg, r, other))
    {
      ChunkingIndependence(cfg, r, messages, other);
    }
  }

  function Bells(n: nat): seq<byte> { if n == 0 then [] else [2] + Bells(n - 1) }

  lemma ConcatOne(chunk: seq<byte>)
    ensures Concat([chunk]) == chunk
  {
    assert [chunk][1..] == [];
    assert chunk + Concat([]) == chunk;
  }

  lemma {:induction false} BellsRing(cfg: Config, c: State, n: nat)
    requires c.rects == 0 && !c.halted
    ensures |Bells(n)| == n && Run(cfg, c, Bells(n)).c == c && Run(cfg, c, Bells(n)).rest == []
  {
    hide Run;
    RunUnfolds(cfg, c, Bells(n));
    if n > 0 {
      assert Bells(n)[1..] == Bells(n - 1);
      BellsRing(cfg, c, n - 1);
    }
  }

  /**
   * The limit does depend on the cutting: bells that are all received in two messages are more
   * than the queue takes in one, whatever was received before.
   */
  lemma LimitDependsOnCutting(cfg: Config, r: Result, m: nat, n: nat)
    requires r.c.rects == 0 && !r.c.halted && !r.c.failed && r.rest == []
    requires m <= MAX_RQ_GROW_SIZE && n <= MAX_RQ_GROW_SIZE && m + n > MAX_RQ_GROW_SIZE
    ensures Concat([Bells(m), Bells(n)]) == Concat([Bells(m) + Bells(n)])
    ensures FitOnArrival(cfg, r, [Bells(m), Bells(n)]) && !FitOnArrival(cfg, r, [Bells(m) + Bells(n)])
  {
    BellsRing(cfg, r.c, m);
    BellsRing(cfg, r.c, n);
    hide Run, Step, Bells;
    assert [] + Bells(m) == Bells(m);
    ConcatOne(Bells(n));
    ConcatOne(Bells(m) + Bells(n));
    assert [Bells(m), Bells(n)][1..] == [Bells(n)];
    assert FitOnArrival(cfg, Feed(cfg, r, Bells(m)), [Bells(n)]);
  }

  lemma NothingArrived(cfg: Config, r: Result, data: seq<byte>)
    requires Idle(cfg, r) && r.rest + data == []
    ensures Prepend(r.out, Run(cfg, r.c, r.rest + data)) == r
  {
    hide Step;
    assert r.rest == [] && data == [];
    assert r.out + [] == r.out;
    RunUnfolds(cfg, r.c, r.rest + data);
  }

  lemma NothingToRead(cfg: Config, c: State, q: seq<byte>)
    requires c.rects == 0 && q == []
    ensures Step(cfg, c, q).Blocked?
  {
  }

  lemma UpdateSteps(cfg: Config, c: State, q: seq<byte>, log: seq<Output>)
    requires c.rects == 0 && !c.halted && |q| >= 1 && q[0] == 0
    ensures |q| < 4 ==> Step(cfg, c, q).Blocked?
    ensures |q| >= 4 ==> var c' := c.(rects := U16(q[2..]));
            Outcome(cfg, c, q, log) == Outcome(cfg, c', q[4..], WithFrame(c'.rects, log, c'))
  {
    hide U16, Outcome, Request;
    assert Step(cfg, c, q) == UpdateHeader(c, q);
    if |q| >= 4 {
      var c' := c.(rects := U16(q[2..]));
      assert Request(c') == Request(c) by { SameRequest(c, c'); }
      Assoc(log, [Flip], Request(c));
      Assoc(log, [], []);
      DidKeepsOutcome(cfg, c, q, log, c', q[4..], WithFrame(c'.rects, log, c'));
    }
  }

  lemma SameRequest(c: State, c': State)
    requires c' == c.(rects := c'.rects)
    ensures Request(c') == Request(c)
  {
  }

  lemma MessageSteps(cfg: Config, c: State, q: seq<byte>)
    requires c.rects == 0 && !c.halted && |q| >= 1
    ensures Step(cfg, c, q) == Message(cfg, c, q)
  {
    hide CutText, Fence, Xvp, EndOfContinuousUpdates, UpdateHeader;
  }

  lemma OtherMessageDone(cfg: Config, c: State, q: seq<byte>, log: seq<Output>, ret: bool, c': State, q': seq<byte>,
                         log': seq<Output>)
    requires c.rects == 0 && !c.halted && |q| >= 1 && q[0] != 0
    requires Step(cfg, c, q) == Message(cfg, c, q)
    requires Did(Message(cfg, c, q), c, q, log, c', q', log')
    requires ret == (Message(cfg, c, q).Next? && !c'.halted)
    ensures Outcome(cfg, c, q, log) == Outcome(cfg, c', q', log')
    ensures !ret ==> Step(cfg, c', q').Blocked?
    ensures ret ==> c'.rects == 0 && !c'.halted && |q'| < |q|
  {
    hide Message, Outcome;
    DidKeepsOutcome(cfg, c, q, log, c', q', log');
    if Message(cfg, c, q).Next? {
      OtherMessageReads(cfg, c, q);
    }
  }

  lemma OtherMessageReads(cfg: Config, c: State, q: seq<byte>)
    requires |q| >= 1 && Message(cfg, c, q).Next? && q[0] != 0
    ensures 0 < Message(cfg, c, q).n <= |q| && Message(cfg, c, q).c.rects == c.rects
  {
    MessageProgress(cfg, c, q);
    TextKeepsRects(cfg, c, q);
    FenceKeepsRects(c, q);
    OthersKeepRects(c, q);
    hide CutText, Fence, Xvp, EndOfContinuousUpdates, UpdateHeader;
  }

  lemma TextKeepsRects(cfg: Config, c: State, q: seq<byte>)
    requires |q| >= 1
    ensures CutText(cfg, c, q).Next? ==> CutText(cfg, c, q).c.rects == c.rects
  {
    hide Signed32, U32;
  }

  lemma FenceKeepsRects(c: State, q: seq<byte>)
    requires |q| >= 1
    ensures Fence(c, q).Next? ==> Fence(c, q).c.rects == c.rects
  {
    hide U32, Send;
  }

  lemma OthersKeepRects(c: State, q: seq<byte>)
    requires |q| >= 1
    ensures Xvp(c, q).Next? ==> Xvp(c, q).c.rects == c.rects
    ensures EndOfContinuousUpdates(c).c.rects == c.rects
  {
    hide Send;
  }

  /** After the last rectangle the frame is still to be shown and the next one requested. */
  ghost function WithFrame(rects: nat, log: seq<Output>, c: State): seq<Output> {
    if rects == 0 then log + [Flip] + Request(c) else log
  }

  lemma HeaderStep(cfg: Config, c: State, q: seq<byte>)
    requires c.rects > 0 && c.encoding.None? && !c.halted
    ensures Step(cfg, c, q) == RectHeader(c, q)
  {
  }

  lemma DidNothing(cfg: Config, c: State, q: seq<byte>, log: seq<Output>, c': State, q': seq<byte>, log': seq<Output>)
    requires Step(cfg, c, q).Blocked? && Did(Step(cfg, c, q), c, q, log, c', q', log')
    ensures c' == c && q' == q && log' == log
  {
  }

  /** Reading a decoder's result: the loop waits here, or the rectangle is to be counted. */
  lemma EndingOf(cfg: Config, ending: Result, done: bool, c: State, q: seq<byte>, log: seq<Output>)
    requires EndsAs(cfg, ending, if done then Finished else Waiting, c, q, log)
    ensures !done ==> ending == Outcome(cfg, c, q, log) && Step(cfg, c, q).Blocked?
    ensures done && c.rects > 0 ==>
              var c' := c.(rects := c.rects - 1, encoding := None);
              ending == Outcome(cfg, c', q, WithFrame(c'.rects, log, c'))
  {
    hide Outcome, Step;
    if done && c.rects > 0 {
      Assoc(log, [Flip], Request(EndRect(c)));
      Assoc(log, [], []);
      assert Request(EndRect(c)) == Request(c.(rects := c.rects - 1, encoding := None));
    }
  }

  lemma PseudoSteps(cfg: Config, c: State, q: seq<byte>)
    requires c.rects > 0 && c.encoding.Some? && !c.halted
    ensures c.encoding == Some(CURSOR) ==> Step(cfg, c, q) == CursorRect(c, q)
    ensures c.encoding == Some(DESKTOP_NAME) ==> Step(cfg, c, q) == NameRect(c, q)
    ensures c.encoding == Some(EXTENDED_DESKTOP_SIZE) ==> Step(cfg, c, q) == ExtendedSize(cfg, c, q)
    ensures c.encoding == Some(QEMU_LED) ==> Step(cfg, c, q) == LedRect(c, q)
  {
    hide CursorRect, NameRect, ExtendedSize, LedRect, RawRect, CopyRect, RreRect, HextileRect;
  }

  lemma ThrownEnds(cfg: Config, ending: Result, c: State, q: seq<byte>, log: seq<Output>)
    requires EndsAs(cfg, ending, Thrown, c, q, log)
    ensures EndsAs(cfg, ending, Waiting, Halted(c), q, log + Send(c, Disconnect))
  {
    hide Outcome;
  }

  lemma UnknownEnds(cfg: Config, c: State, q: seq<byte>, log: seq<Output>)
    requires c.rects > 0 && c.encoding.Some? && !c.halted
    requires !Pseudo(c.encoding.value)
    requires c.encoding.value !in {RAW, RRE, HEXTILE, COPYRECT}
    ensures var foreign := Foreign(c.encoding.value);
            EndsAs(cfg, Outcome(cfg, c, q, log), Waiting, if foreign then c.(halted := true) else Halted(c), q,
                   log + if foreign then [Unmodelled] else Send(c, Disconnect))
  {
    hide Outcome, Foreign;
    assert q[0..] == q;
    var foreign := Foreign(c.encoding.value);
    DidKeepsOutcome(cfg, c, q, log, if foreign then c.(halted := true) else Halted(c), q,
                    log + if foreign then [Unmodelled] else Send(c, Disconnect));
  }

  lemma CopyRectInClient(cfg: Config, c: State, q: seq<byte>, log: seq<Output>)
    requires c.rects > 0 && c.encoding == Some(COPYRECT) && !c.halted
    ensures var p := CopyRectStep(c.rect, q);
            && !p.Throw? && !p.More?
            && (p.Wait? ==> EndsAs(cfg, Outcome(cfg, c, q, log), Waiting, c, q, log))
            && (p.Done? ==> p.n <= |q| && EndsAs(cfg, Outcome(cfg, c, q, log), Finished, c, q[p.n..], log + p.out))
  {
    hide Run, EndRectOutput;
    var p := CopyRectStep(c.rect, q);
    assert Step(cfg, c, q) == CopyRect(c, q);
    if p.Done? {
      Assoc(log, p.out, EndRectOutput(c));
      DidKeepsOutcome(cfg, c, q, log, EndRect(c), q[p.n..], log + (p.out + EndRectOutput(c)));
    }
  }

  lemma CursorCases(c: State, q: seq<byte>, log: seq<Output>)
    ensures var pixels, mask := PixelBytes(c.rect.w, c.rect.h), MaskBytes(c.rect.w, c.rect.h);
            if |q| < pixels + mask then RectResult(CursorRect(c, q), false, c, q, log, c, q, log)
            else
              RectResult(CursorRect(c, q), true, c, q, log, c, q[pixels + mask..],
                log + [Cursor(c.rect.x, c.rect.y, c.rect.w, c.rect.h, q[..pixels], q[pixels..pixels + mask])])
  {
    hide EndRectOutput, PixelBytes, MaskBytes;
    var pixels, mask := PixelBytes(c.rect.w, c.rect.h), MaskBytes(c.rect.w, c.rect.h);
    if |q| >= pixels + mask {
      var o := Cursor(c.rect.x, c.rect.y, c.rect.w, c.rect.h, q[..pixels], q[pixels..pixels + mask]);
      assert (log + [o])[|log|..] == [o];
    }
  }

  function CutTextOutput(cfg: Config, plain: bool, text: seq<byte>): seq<Output> {
    if !plain then [Unmodelled] else if cfg.viewOnly then [] else [Clipboard(text)]
  }

  lemma CutTextCases(cfg: Config, c: State, q: seq<byte>, log: seq<Output>, wait: bool, length: int, text: seq<byte>,
                     ret: bool,
                     c': State, q': seq<byte>, log': seq<Output>)
    requires |q| >= 1 && !c.halted && ret == (!wait && length >= 0)
    requires var l := if |q| < 8 then 0 else Signed32(U32(q[4..]));
             var size := if l < 0 then -l else l;
             && wait == (|q| < 8 + size)
             && (wait ==> q' == q)
             && (!wait ==> length == l)
             && (!wait && l >= 0 ==> text == q[8..8 + size] && q' == q[8 + size..])
             && (!wait && l < 0 ==> q' == q[8..])
    requires wait || ret ==> c' == c
    requires !wait && !ret ==> c' == c.(halted := true)
    requires log' == if wait then log else log + CutTextOutput(cfg, ret, text)
    ensures Did(CutText(cfg, c, q), c, q, log, c', q', log')
    ensures ret == (CutText(cfg, c, q).Next? && !c'.halted)
  {
    hide U32, Signed32;
  }

  lemma FenceCases(c: State, q: seq<byte>, log: seq<Output>, wait: bool, ret: bool, flags: nat, payload: seq<byte>,
                   c': State, q': seq<byte>, log': seq<Output>)
    requires |q| >= 1 && !c.halted && wait == (|q| < 9 || |q| < 9 + q[8] as int)
    requires wait ==> !ret && c' == c && q' == q && log' == log
    requires !wait ==>
               var kept: nat := if q[8] > 64 then 64 else q[8];
               && flags == U32(q[4..]) && payload == q[9..9 + kept] && q' == q[9 + kept..]
               && ret == (flags >= 0x8000_0000)
               && var c1 := c.(supportsFence := true);
                  c' == (if ret then c1 else Halted(c1))
                  && log' == log + Send(c1, if ret then ClientFence(flags % 4, payload) else Disconnect)
    ensures Did(Fence(c, q), c, q, log, c', q', log')
    ensures ret == (Fence(c, q).Next? && !c'.halted)
  {
    hide U32;
  }

  lemma MoreScreens(i: nat, n: nat)
    requires i < n
    ensures ScreensEnd(i + 1) <= ScreensEnd(n)
  {
  }

  lemma FirstScreenThere(n: nat)
    ensures ScreensEnd(n) >= 4 && (n > 0 ==> ScreensEnd(n) >= 20)
  {
  }

  lemma LayoutIs(c: State, q: seq<byte>, c': State)
    requires |q| >= 4 && |q| >= ScreensEnd(q[0])
    requires c' == c.(supportsSetDesktopSize := true, screenID := c'.screenID, screenFlags := c'.screenFlags,
                      fbWidth := c'.fbWidth, fbHeight := c'.fbHeight)
    requires c'.fbWidth == (if ResizeRefused(c) then c.fbWidth else c.rect.w)
    requires c'.fbHeight == (if ResizeRefused(c) then c.fbHeight else c.rect.h)
    requires c'.screenID == if q[0] == 0 then c.screenID else U32(q[4..])
    requires c'.screenFlags == if q[0] == 0 then c.screenFlags else U32(q[16..])
    ensures c' == ScreenLayout(c, q)
  {
    hide U32, ResizeRefused;
  }

  lemma LayoutWaits(cfg: Config, c: State, q: seq<byte>)
    ensures ExtendedSize(cfg, c, q).Blocked? <==> |q| < 4 || |q| < ScreensEnd(q[0])
  {
    hide EndRectOutput, ScreenLayoutOutput;
  }

  lemma LayoutIsRect(cfg: Config, c: State, q: seq<byte>, log: seq<Output>, c': State, q': seq<byte>, log': seq<Output>)
    requires |q| >= 4 && |q| >= ScreensEnd(q[0])
    requires c' == ScreenLayout(c, q) && q' == q[ScreensEnd(q[0])..]
    requires log' == log + ScreenLayoutOutput(cfg, c, c')
    ensures DidRect(ExtendedSize(cfg, c, q), q, log, c', q', log')
  {
    hide Complete, ScreenLayoutOutput;
    assert log'[|log|..] == ScreenLayoutOutput(cfg, c, c');
  }

  lemma LayoutWaitResult(cfg: Config, c: State, q: seq<byte>, log: seq<Output>)
    ensures ExtendedSize(cfg, c, q).Blocked? ==> RectResult(ExtendedSize(cfg, c, q), false, c, q, log, c, q, log)
  {
    hide ExtendedSize;
  }

  lemma LayoutResult(cfg: Config, c: State, q: seq<byte>, log: seq<Output>, c': State, q': seq<byte>, log': seq<Output>)
    requires |q| >= 4 && |q| >= ScreensEnd(q[0]) && !ExtendedSize(cfg, c, q).Blocked?
    requires c' == ScreenLayout(c, q) && q' == q[ScreensEnd(q[0])..]
    requires log' == log + ScreenLayoutOutput(cfg, c, c')
    ensures RectResult(ExtendedSize(cfg, c, q), true, c, q, log, c', q', log')
  {
    LayoutIsRect(cfg, c, q, log, c', q', log');
    hide ExtendedSize, DidRect, ScreenLayout, ScreenLayoutOutput;
  }
}
