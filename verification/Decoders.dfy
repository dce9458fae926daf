/** The Raw, RRE and CopyRect rectangle decoders. */
module Decoders {
  import opened Bytes
  import opened Rects
  import opened Websock

  // ---------------------------------------------------------------- Raw

  /** Channel `c` of an eight-bit pixel: two bits, scaled to a byte. */
  function Channel(pixel: int, c: nat): byte {
    var v := if c == 0 then pixel % 4 else if c == 1 then pixel / 4 % 4 else pixel / 16 % 4;
    v * 255 / 3
  }

  /** One line of pixels made opaque, after expanding 2-bit channels at depth 8. */
  function RawLine(data: seq<byte>, depth8: bool): seq<byte> {
    if depth8 then
      seq(4 * |data|, (i: nat) requires i < 4 * |data| =>
        if i % 4 == 3 then 255 else Channel(data[i / 4], i % 4))
    else
      seq(|data|, (i: nat) requires i < |data| => if i % 4 == 3 then 255 else data[i])
  }

  function LineBytes(w: nat, depth8: bool): nat { if depth8 then w else 4 * w }

  function RawStep(lines: nat, r: Rect, depth8: bool, q: seq<byte>): (p: Progress<nat>)
    ensures !p.Wait? ==> p.n <= |q|
    ensures p.More? && p.n == 0 ==> lines == 0 && p.s > 0
  {
    if r.w == 0 || r.h == 0 then Done(lines, 0, [])
    else if lines == 0 then More(r.h, 0, [])
    else
      var n := LineBytes(r.w, depth8);
      if |q| < n then Wait
      else
        var out := [BlitImage(r.x, r.y + (r.h - lines), r.w, 1, RawLine(q[..n], depth8))];
        if lines == 1 then Done(0, n, out) else More(lines - 1, n, out)
  }

  function RawRun(lines: nat, r: Rect, depth8: bool, q: seq<byte>): (d: Decoded<nat>)
    ensures |d.rest| <= |q|
    decreases |q|, if lines == 0 then 1 else 0
  {
    match RawStep(lines, r, depth8, q)
    case Wait => Decoded(Waiting, lines, q, [])
    case More(s, n, out) => After(out, RawRun(s, r, depth8, q[n..]))
    case Done(s, n, out) => Decoded(Finished, s, q[n..], out)
    case Throw(s, n, out) => Decoded(Thrown, s, q[n..], out)
  }

  class RawDecoder {
    var lines: nat

    constructor ()
      ensures lines == 0
    {
      lines := 0;
    }

    method DecodeRect(r: Rect, sock: Websock, sink: Sink, depth8: bool) returns (done: bool)
      requires sock.Valid()
      modifies this, sock`rQi, sink
      ensures sock.Valid()
      ensures Decoded(if done then Finished else Waiting, lines, sock.Unread(), sink.log)
           == After(old(sink.log), RawRun(old(lines), r, depth8, old(sock.Unread())))
    {
      if r.w == 0 || r.h == 0 {
        assert sock.Unread()[0..] == sock.Unread() && sink.log + [] == sink.log;
        return true;
      }
      RawBegins(lines, r, depth8, sock.Unread(), sink.log);
      if lines == 0 {
        lines := r.h;
      }
      hide *;
      while lines > 0
        invariant sock.Valid()
        invariant After(sink.log, RawRest(false, lines, r, depth8, sock.Unread()))
               == After(old(sink.log), RawRun(old(lines), r, depth8, old(sock.Unread())))
      {
        ghost var s, q, log := lines, sock.Unread(), sink.log;
        var wait := DecodeLine(r, sock, sink, depth8);
        RawResumes(s, r, depth8, q, log, wait, lines, sock.Unread(), sink.log);
        if wait {
          RawStops(true, lines, r, depth8, sock.Unread(), sink.log);
          return false;
        }
      }
      RawStops(false, lines, r, depth8, sock.Unread(), sink.log);
      return true;
    }

    /** The body of that loop. */
    method DecodeLine(r: Rect, sock: Websock, sink: Sink, depth8: bool) returns (wait: bool)
      requires sock.Valid() && lines > 0 && r.w > 0 && r.h > 0
      modifies this, sock`rQi, sink
      ensures sock.Valid() && (!wait ==> lines == old(lines) - 1)
      ensures Moved(RawStep(old(lines), r, depth8, old(sock.Unread())), if wait then Waiting else Finished, lines > 0,
                    old(lines), old(sock.Unread()), old(sink.log), lines, sock.Unread(), sink.log)
    {
      hide RawLine;
      var bytesPerLine := LineBytes(r.w, depth8);
      wait := sock.RQwait(bytesPerLine, 0);
      if wait {
        return;
      }
      var curY := r.y + (r.h - lines);
      var data := sock.RQshiftBytes(bytesPerLine);
      sink.Emit(BlitImage(r.x, curY, r.w, 1, RawLine(data, depth8)));
      lines := lines - 1;
    }
  }

  /** What is left to decode after a turn of the loop. */
  ghost function RawRest(wait: bool, lines: nat, r: Rect, depth8: bool, q: seq<byte>): Decoded<nat> {
    if wait then Decoded(Waiting, lines, q, [])
    else if lines > 0 then RawRun(lines, r, depth8, q) else Decoded(Finished, 0, q, [])
  }

  lemma RawBegins(lines: nat, r: Rect, depth8: bool, q: seq<byte>, log: seq<Output>)
    requires r.w > 0 && r.h > 0
    ensures After(log, RawRest(false, if lines == 0 then r.h else lines, r, depth8, q))
        == After(log, RawRun(lines, r, depth8, q))
  {
    assert q[0..] == q;
    if lines == 0 {
      assert RawRun(lines, r, depth8, q) == After([], RawRun(r.h, r, depth8, q[0..]));
    }
  }

  lemma RawResumes(lines: nat, r: Rect, depth8: bool, q: seq<byte>, log: seq<Output>, wait: bool, lines': nat,
                   q': seq<byte>, log': seq<Output>)
    requires Moved(RawStep(lines, r, depth8, q), if wait then Waiting else Finished, lines' > 0,
                   lines, q, log, lines', q', log')
    ensures After(log', RawRest(wait, lines', r, depth8, q')) == After(log, RawRun(lines, r, depth8, q))
  {
    hide RawStep;
    var d := RawRest(wait, lines', r, depth8, q');
    assert !wait ==> log + (RawStep(lines, r, depth8, q).out + d.out) == log' + d.out;
  }

  lemma RawStops(wait: bool, lines: nat, r: Rect, depth8: bool, q: seq<byte>, log: seq<Output>)
    requires wait || lines == 0
    ensures After(log, RawRest(wait, lines, r, depth8, q)) == Decoded(if wait then Waiting else Finished, lines, q, log)
  {
    assert log + [] == log;
  }

  // ---------------------------------------------------------------- RRE

  function RreStep(subrects: nat, r: Rect, q: seq<byte>): (p: Progress<nat>)
    ensures !p.Wait? ==> 0 < p.n <= |q|
  {
    if subrects == 0 then
      if |q| < 8 then Wait
      else
        var n := U32(q);
        var out := [FillRect(r.x, r.y, r.w, r.h, q[4..8])];
        if n == 0 then Done(0, 8, out) else More(n, 8, out)
    else if |q| < 12 then Wait
    else
      var out := [FillRect(r.x + U16(q[4..]), r.y + U16(q[6..]), U16(q[8..]), U16(q[10..]), q[..4])];
      if subrects == 1 then Done(0, 12, out) else More(subrects - 1, 12, out)
  }

  function RreRun(subrects: nat, r: Rect, q: seq<byte>): (d: Decoded<nat>)
    ensures |d.rest| <= |q|
    decreases |q|
  {
    match RreStep(subrects, r, q)
    case Wait => Decoded(Waiting, subrects, q, [])
    case More(s, n, out) => After(out, RreRun(s, r, q[n..]))
    case Done(s, n, out) => Decoded(Finished, s, q[n..], out)
    case Throw(s, n, out) => Decoded(Thrown, s, q[n..], out)
  }

  class RREDecoder {
    var subrects: nat

    constructor ()
      ensures subrects == 0
    {
      subrects := 0;
    }

    method DecodeRect(r: Rect, sock: Websock, sink: Sink) returns (done: bool)
      requires sock.Valid()
      modifies this, sock`rQi, sink
      ensures sock.Valid()
      ensures Decoded(if done then Finished else Waiting, subrects, sock.Unread(), sink.log)
           == After(old(sink.log), RreRun(old(subrects), r, old(sock.Unread())))
    {
      hide *;
      ghost var s, q, log := subrects, sock.Unread(), sink.log;
      if subrects == 0 {
        var wait := DecodeHeader(r, sock, sink);
        RreResumes(s, r, q, log, wait, subrects, sock.Unread(), sink.log);
        if wait {
          RreStops(true, subrects, r, sock.Unread(), sink.log);
          return false;
        }
      } else {
        RreBegins(s, r, q, log);
      }
      while subrects > 0
        invariant sock.Valid()
        invariant After(sink.log, RreRest(false, subrects, r, sock.Unread())) == After(log, RreRun(s, r, q))
      {
        ghost var s1, q1, log1 := subrects, sock.Unread(), sink.log;
        var wait := DecodeSubrect(r, sock, sink);
        RreResumes(s1, r, q1, log1, wait, subrects, sock.Unread(), sink.log);
        RreBegins(s1, r, q1, log1);
        if wait {
          RreStops(true, subrects, r, sock.Unread(), sink.log);
          return false;
        }
      }
      RreStops(false, subrects, r, sock.Unread(), sink.log);
      return true;
    }

    /** The subrectangle count and the background. */
    method DecodeHeader(r: Rect, sock: Websock, sink: Sink) returns (wait: bool)
      requires sock.Valid() && subrects == 0
      modifies this, sock`rQi, sink
      ensures sock.Valid()
      ensures Moved(RreStep(0, r, old(sock.Unread())), if wait then Waiting else Finished, subrects > 0,
                    0, old(sock.Unread()), old(sink.log), subrects, sock.Unread(), sink.log)
    {
      wait := sock.RQwait(8, 0);
      if wait {
        return;
      }
      ghost var q := sock.Unread();
      subrects := sock.RQshift32();
      var color := sock.RQshiftBytes(4);
      assert q[4..][..4] == q[4..8] && q[4..][4..] == q[8..];
      sink.Emit(FillRect(r.x, r.y, r.w, r.h, color));
    }

    /** The body of the loop. */
    method DecodeSubrect(r: Rect, sock: Websock, sink: Sink) returns (wait: bool)
      requires sock.Valid() && subrects > 0
      modifies this, sock`rQi, sink
      ensures sock.Valid() && (!wait ==> subrects == old(subrects) - 1)
      ensures Moved(RreStep(old(subrects), r, old(sock.Unread())), if wait then Waiting else Finished, subrects > 0,
                    old(subrects), old(sock.Unread()), old(sink.log), subrects, sock.Unread(), sink.log)
    {
      hide U16, RreStep;
      RreSubrect(subrects, r, sock.Unread());
      wait := sock.RQwait(12, 0);
      if wait {
        return;
      }
      var color, sx, sy, swidth, sheight := ReadSubrect(sock);
      sink.Emit(FillRect(r.x + sx, r.y + sy, swidth, sheight, color));
      subrects := subrects - 1;
    }

    /** The fields of a subrectangle, all of which are there. */
    method ReadSubrect(sock: Websock) returns (color: seq<byte>, sx: nat, sy: nat, swidth: nat, sheight: nat)
      requires sock.Valid() && |sock.Unread()| >= 12
      modifies sock`rQi
      ensures sock.Valid() && sock.Unread() == old(sock.Unread())[12..]
      ensures var q := old(sock.Unread());
              color == q[..4] && sx == U16(q[4..]) && sy == U16(q[6..]) && swidth == U16(q[8..])
                  && sheight == U16(q[10..])
    {
      hide *;
      ghost var q := sock.Unread();
      color := sock.RQshiftBytes(4);
      Drops(q);
      sx := sock.RQshift16();
      sy := sock.RQshift16();
      swidth := sock.RQshift16();
      sheight := sock.RQshift16();
    }
  }

  lemma RreSubrect(subrects: nat, r: Rect, q: seq<byte>)
    requires subrects > 0
    ensures var p := RreStep(subrects, r, q);
            if |q| < 12 then p.Wait?
            else
              p.n == 12 && p.s == subrects - 1 && (if subrects == 1 then p.Done? else p.More?)
              && p.out == [FillRect(r.x + U16(q[4..]), r.y + U16(q[6..]), U16(q[8..]), U16(q[10..]), q[..4])]
  {
  }

  lemma Drops(q: seq<byte>)
    requires |q| >= 12
    ensures q[4..][2..] == q[6..] && q[6..][2..] == q[8..] && q[8..][2..] == q[10..] && q[10..][2..] == q[12..]
  {
  }

  /** What is left to decode after a turn of the loop. */
  ghost function RreRest(wait: bool, subrects: nat, r: Rect, q: seq<byte>): Decoded<nat> {
    if wait then Decoded(Waiting, subrects, q, [])
    else if subrects > 0 then RreRun(subrects, r, q) else Decoded(Finished, 0, q, [])
  }

  lemma RreBegins(subrects: nat, r: Rect, q: seq<byte>, log: seq<Output>)
    requires subrects > 0
    ensures After(log, RreRest(false, subrects, r, q)) == After(log, RreRun(subrects, r, q))
  {
  }

  lemma RreResumes(subrects: nat, r: Rect, q: seq<byte>, log: seq<Output>, wait: bool, subrects': nat, q': seq<byte>,
                   log': seq<Output>)
    requires Moved(RreStep(subrects, r, q), if wait then Waiting else Finished, subrects' > 0,
                   subrects, q, log, subrects', q', log')
    ensures After(log', RreRest(wait, subrects', r, q')) == After(log, RreRun(subrects, r, q))
  {
    hide RreStep;
    var d := RreRest(wait, subrects', r, q');
    assert !wait ==> log + (RreStep(subrects, r, q).out + d.out) == log' + d.out;
  }

  lemma RreStops(wait: bool, subrects: nat, r: Rect, q: seq<byte>, log: seq<Output>)
    requires wait || subrects == 0
    ensures After(log, RreRest(wait, subrects, r, q)) == Decoded(if wait then Waiting else Finished, subrects, q, log)
  {
    assert log + [] == log;
  }

  // ---------------------------------------------------------------- CopyRect

  function CopyRectStep(r: Rect, q: seq<byte>): (p: Progress<()>)
    ensures !p.Wait? ==> 0 < p.n <= |q|
  {
    if |q| < 4 then Wait
    else if r.w == 0 || r.h == 0 then Done((), 4, [])
    else Done((), 4, [CopyImage(U16(q), U16(q[2..]), r.x, r.y, r.w, r.h)])
  }

  method DecodeCopyRect(r: Rect, sock: Websock, sink: Sink) returns (done: bool)
    requires sock.Valid()
    modifies sock`rQi, sink
    ensures sock.Valid()
    ensures Moved(CopyRectStep(r, old(sock.Unread())), if done then Finished else Waiting, false,
                  (), old(sock.Unread()), old(sink.log), (), sock.Unread(), sink.log)
  {
    var wait := sock.RQwait(4, 0);
    if wait {
      return false;
    }
    ghost var q := sock.Unread();
    var deltaX := sock.RQshift16();
    var deltaY := sock.RQshift16();
    assert q[2..][2..] == q[4..];
    if r.w == 0 || r.h == 0 {
      return true;
    }
    sink.Emit(CopyImage(deltaX, deltaY, r.x, r.y, r.w, r.h));
    return true;
  }

  // ---------------------------------------------------------------- more bytes change nothing

  lemma RawStepStable(lines: nat, r: Rect, depth8: bool, q: seq<byte>, x: seq<byte>)
    requires !RawStep(lines, r, depth8, q).Wait?
    ensures RawStep(lines, r, depth8, q + x) == RawStep(lines, r, depth8, q)
  {
    SliceStable(q, x);
  }

  lemma RreStepStable(subrects: nat, r: Rect, q: seq<byte>, x: seq<byte>)
    requires !RreStep(subrects, r, q).Wait?
    ensures RreStep(subrects, r, q + x) == RreStep(subrects, r, q)
  {
    SliceStable(q, x);
    assert |q| >= 8;
  }

  lemma CopyRectStepStable(r: Rect, q: seq<byte>, x: seq<byte>)
    requires !CopyRectStep(r, q).Wait?
    ensures CopyRectStep(r, q + x) == CopyRectStep(r, q)
  {
  }
}
