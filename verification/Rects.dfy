/** What the client does in response to server bytes, and the shape of a resumable decoder. */
module Rects {
  import opened Bytes

  datatype Rect = Rect(x: nat, y: nat, w: nat, h: nat)

  predicate Inside(r: Rect, px: nat, py: nat) {
    r.x <= px < r.x + r.w && r.y <= py < r.y + r.h
  }

  /** Everything the connected client does that can be seen from outside: calls on the
      display, messages to the server, events for the page. */
  datatype Output =
    | FillRect(x: int, y: int, w: int, h: int, color: seq<byte>)
    | CopyImage(oldX: int, oldY: int, x: int, y: int, w: int, h: int)
    | BlitImage(x: int, y: int, w: int, h: int, data: seq<byte>)
    | Flip
    | ResizeDisplay(w: int, h: int)
    | Cursor(hotx: nat, hoty: nat, w: int, h: int, pixels: seq<byte>, mask: seq<byte>)
    | FbUpdateRequest(w: int, h: int)
    | EnableContinuousUpdates(w: int, h: int)
    | ClientFence(flags: nat, payload: seq<byte>)
    | SetDesktopSize(id: nat, flags: nat)
    | Bell
    | Clipboard(text: seq<byte>)
    | DesktopName(name: seq<byte>)
    | PowerCapability
    | Disconnect
    | Unmodelled

  /** The ordered record of those outputs; display, channel and event target in one. */
  class Sink {
    var log: seq<Output>

    constructor ()
      ensures log == []
    {
      log := [];
    }

    method Emit(o: Output)
      modifies this
      ensures log == old(log) + [o]
    {
      log := log + [o];
    }
  }

  /** One step of a resumable decoder: it waits for more bytes without changing anything,
      or reads `n` bytes and goes on, completes the rectangle, or throws. */
  datatype Progress<+S> =
    | Wait
    | More(s: S, n: nat, out: seq<Output>)
    | Done(s: S, n: nat, out: seq<Output>)
    | Throw(s: S, n: nat, out: seq<Output>)

  datatype Status = Waiting | Finished | Thrown

  /** What a call of `decodeRect` amounts to. */
  datatype Decoded<+S> = Decoded(status: Status, s: S, rest: seq<byte>, out: seq<Output>)

  function After<S>(out: seq<Output>, d: Decoded<S>): Decoded<S> {
    d.(out := out + d.out)
  }

  /** The queue and the record moved exactly as the step says. */
  ghost predicate Performed<S>(p: Progress<S>, q: seq<byte>, q': seq<byte>, log: seq<Output>, log': seq<Output>) {
    !p.Wait? && p.n <= |q| && q' == q[p.n..] && log' == log + p.out
  }

  /** One turn of a decoder's loop: it waited and nothing moved, or it threw, or it went on
      (`more` says whether there is more of the rectangle to come). */
  ghost predicate Moved<S(!new)>(p: Progress<S>, status: Status, more: bool,
                                 s: S, q: seq<byte>, log: seq<Output>, s': S, q': seq<byte>, log': seq<Output>)
  {
    match status
    case Waiting => p.Wait? && s' == s && q' == q && log' == log
    case Thrown => p.Throw? && s' == p.s && Performed(p, q, q', log, log')
    case Finished => (if more then p.More? else p.Done?) && s' == p.s && Performed(p, q, q', log, log')
  }

  /** Reading from the front of a longer queue gives the same bytes. */
  lemma SliceStable(q: seq<byte>, x: seq<byte>)
    ensures forall a, b | 0 <= a <= b <= |q| :: (q + x)[a..b] == q[a..b]
    ensures forall b | 0 <= b <= |q| :: (q + x)[..b] == q[..b]
  {
  }

  lemma DropDrop(q: seq<byte>, a: nat, b: nat)
    requires a + b <= |q|
    ensures q[a..][b..] == q[a + b..] && q[a..][..b] == q[a..a + b]
  {
  }

  lemma DropStable(q: seq<byte>, x: seq<byte>, n: nat)
    requires n <= |q|
    ensures (q + x)[n..] == q[n..] + x
  {
  }
}
