/**
 * The buffering wrapper around the WebSocket: a receive queue that is compacted or
 * grown inside one byte array, and a send queue that is flushed whenever it is full.
 */
module Websock {
  import opened Arith
  import opened Bytes

  const MAX_RQ_GROW_SIZE: nat := 40 * 1024 * 1024
  const INITIAL_RQ_SIZE: nat := 4 * 1024 * 1024
  const SQ_SIZE: nat := 10 * 1024

  function Min(a: int, b: int): int { if a < b then a else b }
  function Max(a: int, b: int): int { if a > b then a else b }

  // ---------------------------------------------------------------- send queue

  /** The send queue as a value: buffer contents, bytes in use, bytes already handed
      to the channel. */
  datatype SendQ = SendQ(buf: seq<byte>, len: nat, sent: seq<byte>) {
    ghost predicate Valid() { |buf| == SQ_SIZE && len <= SQ_SIZE }

    /** Everything pushed so far, in order. */
    function Stream(): seq<byte>
      requires len <= |buf|
    {
      sent + buf[..len]
    }

    function Flushed(): SendQ
      requires len <= |buf|
    {
      SendQ(buf, 0, Stream())
    }

    /** The queue after the source has made sure of one free byte on an open channel. */
    function WithSpace(): (q: SendQ)
      requires Valid()
      ensures q.Valid() && q.len < SQ_SIZE
    {
      if len == SQ_SIZE then Flushed() else this
    }

    /** How many bytes fit before a second chunk would be needed. */
    function Room(): nat
      requires Valid()
    {
      SQ_SIZE - WithSpace().len
    }
  }

  /** `subarray(begin, end)` of a typed array: empty when the end precedes the begin. */
  function Subarray(s: seq<byte>, begin: nat, end: nat): (r: seq<byte>)
    requires begin <= |s|
    ensures |r| <= Max(end - begin, 0)
  {
    var e := Min(end, |s|);
    if e < begin then [] else s[begin..e]
  }

  /** `buf.set(src, at)`. */
  function Overwrite(buf: seq<byte>, at: nat, src: seq<byte>): (r: seq<byte>)
    requires at + |src| <= |buf|
    ensures |r| == |buf|
    ensures r[..at] == buf[..at] && r[at..at + |src|] == src && r[at + |src|..] == buf[at + |src|..]
  {
    buf[..at] + src + buf[at + |src|..]
  }

  /** One turn of the chunk loop of `sQpushBytes` while the channel is open. The second
      argument of `subarray` is an end index; `intended` says whether it is the chunk's
      own end or, as the source has it, the chunk size. */
  function PushChunk(q: SendQ, bytes: seq<byte>, offset: nat, intended: bool): (r: SendQ)
    requires q.Valid() && offset < |bytes|
    ensures r.Valid()
  {
    var q1 := q.WithSpace();
    var n := Min(SQ_SIZE - q1.len, |bytes| - offset);
    var src := Subarray(bytes, offset, if intended then offset + n else n);
    SendQ(Overwrite(q1.buf, q1.len, src), q1.len + n, q1.sent)
  }

  function ChunkSize(q: SendQ, bytes: seq<byte>, offset: nat): (n: nat)
    requires q.Valid() && offset < |bytes|
    ensures 0 < n <= |bytes| - offset
  {
    Min(q.Room(), |bytes| - offset)
  }

  function PushLoop(q: SendQ, bytes: seq<byte>, offset: nat, intended: bool): (r: SendQ)
    requires q.Valid() && offset <= |bytes|
    ensures r.Valid()
    decreases |bytes| - offset
  {
    if offset == |bytes| then q
    else PushLoop(PushChunk(q, bytes, offset, intended), bytes,
                  offset + ChunkSize(q, bytes, offset), intended)
  }

  /** What a correct push does to the queue's history. */
  ghost predicate Delivers(q: SendQ, bytes: seq<byte>, intended: bool)
    requires q.Valid()
  {
    PushLoop(q, bytes, 0, intended).Stream() == q.Stream() + bytes
  }

  lemma StreamGrows(q: SendQ, bytes: seq<byte>, offset: nat, intended: bool)
    requires q.Valid() && offset < |bytes|
    ensures var r := PushChunk(q, bytes, offset, intended);
            |r.Stream()| == |q.Stream()| + ChunkSize(q, bytes, offset)
            && q.Stream() <= r.Stream()
  {
    var q1 := q.WithSpace();
    var r := PushChunk(q, bytes, offset, intended);
    assert q1.Stream() == q.Stream();
    assert r.buf[..q1.len] == q1.buf[..q1.len];
    assert r.buf[..r.len] == r.buf[..q1.len] + r.buf[q1.len..r.len];
  }

  lemma {:induction false} LoopGrows(q: SendQ, bytes: seq<byte>, offset: nat, intended: bool)
    requires q.Valid() && offset <= |bytes|
    ensures q.Stream() <= PushLoop(q, bytes, offset, intended).Stream()
    decreases |bytes| - offset
  {
    hide PushLoop, PushChunk, ChunkSize;
    LoopUnfolds(q, bytes, offset, intended);
    if offset < |bytes| {
      StreamGrows(q, bytes, offset, intended);
      LoopGrows(PushChunk(q, bytes, offset, intended), bytes,
                offset + ChunkSize(q, bytes, offset), intended);
    }
  }

  /** With the chunk's own end index the loop would deliver every byte string. */
  lemma IntendedPushDelivers(q: SendQ, bytes: seq<byte>)
    requires q.Valid()
    ensures Delivers(q, bytes, true)
  {
    IntendedFrom(q, bytes, 0);
  }

  lemma {:induction false} IntendedFrom(q: SendQ, bytes: seq<byte>, offset: nat)
    requires q.Valid() && offset <= |bytes|
    ensures PushLoop(q, bytes, offset, true).Stream() == q.Stream() + bytes[offset..]
    decreases |bytes| - offset
  {
    hide PushLoop, PushChunk, ChunkSize;
    LoopUnfolds(q, bytes, offset, true);
    if offset < |bytes| {
      var n := ChunkSize(q, bytes, offset);
      var r := PushChunk(q, bytes, offset, true);
      FirstChunk(q, bytes, offset, true);
      IntendedFrom(r, bytes, offset + n);
      assert bytes[offset..] == bytes[offset..offset + n] + bytes[offset + n..];
    }
  }

  /** A chunk is copied right when the end index used is the chunk's own end; the
      as-written one is exactly in the first chunk. */
  lemma FirstChunk(q: SendQ, bytes: seq<byte>, offset: nat, intended: bool)
    requires q.Valid() && offset < |bytes| && (intended || offset == 0)
    ensures var n := ChunkSize(q, bytes, offset);
            PushChunk(q, bytes, offset, intended).Stream()
            == q.Stream() + bytes[offset..offset + n]
  {
    var q1 := q.WithSpace();
    var n := ChunkSize(q, bytes, offset);
    assert q1.Stream() == q.Stream() && n == Min(SQ_SIZE - q1.len, |bytes| - offset);
    assert Subarray(bytes, offset, if intended then offset + n else n) == bytes[offset..offset + n];
    hide Overwrite, Subarray;
    OverwriteDelivers(q1, bytes[offset..offset + n]);
  }

  lemma OverwriteDelivers(q: SendQ, src: seq<byte>)
    requires q.Valid() && q.len + |src| <= SQ_SIZE
    ensures SendQ(Overwrite(q.buf, q.len, src), q.len + |src|, q.sent).Stream() == q.Stream() + src
  {
    var buf := Overwrite(q.buf, q.len, src);
    assert buf[..q.len + |src|] == buf[..q.len] + buf[q.len..q.len + |src|];
    assert q.sent + (q.buf[..q.len] + src) == q.sent + q.buf[..q.len] + src;
    hide Overwrite;
  }

  /** After the first of several chunks the buffer is full, and the second chunk's last
      byte is whatever the buffer held there: the copy never reaches it. */
  lemma SecondChunkIsStale(q: SendQ, bytes: seq<byte>)
    requires q.Valid() && |bytes| > q.Room()
    ensures var c1 := q.Room();
            var c2 := Min(SQ_SIZE, |bytes| - c1);
            var a := PushChunk(q, bytes, 0, false);
            a.len == SQ_SIZE && ChunkSize(a, bytes, c1) == c2
            && var b := PushChunk(a, bytes, c1, false);
               b.len == c2 && b.sent == a.Stream() && b.buf[c2 - 1] == a.buf[c2 - 1]
  {
    hide Overwrite;
    var c1 := q.Room();
    var c2 := Min(SQ_SIZE, |bytes| - c1);
    var a := PushChunk(q, bytes, 0, false);
    var src := Subarray(bytes, c1, c2);
    assert a.len == SQ_SIZE && |src| < c2;
    var b := PushChunk(a, bytes, c1, false);
    assert b == SendQ(Overwrite(a.buf, 0, src), c2, a.Stream());
    OverwriteAt(a.buf, 0, src, c2 - 1);
  }

  lemma OverwriteAt(buf: seq<byte>, at: nat, src: seq<byte>, i: nat)
    requires at + |src| <= i < |buf|
    ensures Overwrite(buf, at, src)[i] == buf[i]
  {
  }

  lemma TwoChunks(q: SendQ, bytes: seq<byte>)
    requires q.Valid() && |bytes| > q.Room()
    ensures var c1 := q.Room();
            var a := PushChunk(q, bytes, 0, false);
            PushLoop(q, bytes, 0, false)
            == PushLoop(PushChunk(a, bytes, c1, false), bytes, c1 + ChunkSize(a, bytes, c1), false)
  {
    var a := PushChunk(q, bytes, 0, false);
    assert PushLoop(q, bytes, 0, false) == PushLoop(a, bytes, q.Room(), false);
  }

  lemma LastByteOfSecondChunk(q: SendQ, bytes: seq<byte>)
    requires q.Valid() && |bytes| > q.Room()
    ensures var c1 := q.Room();
            var c2 := Min(SQ_SIZE, |bytes| - c1);
            var at := |q.Stream()| + c1 + c2 - 1;
            var s := PushLoop(q, bytes, 0, false).Stream();
            at < |s| && s[at] == PushChunk(q, bytes, 0, false).buf[c2 - 1]
  {
    hide PushLoop, PushChunk;
    var c1 := q.Room();
    var a := PushChunk(q, bytes, 0, false);
    var b := PushChunk(a, bytes, c1, false);
    SecondChunkIsStale(q, bytes);
    StreamGrows(q, bytes, 0, false);
    TwoChunks(q, bytes);
    var r := PushLoop(b, bytes, c1 + b.len, false);
    LoopGrows(b, bytes, c1 + b.len, false);
    LastOf(b);
    PrefixAt(b.Stream(), r.Stream(), |b.sent| + b.len - 1);
  }

  lemma LastOf(b: SendQ)
    requires b.Valid() && b.len > 0
    ensures |b.Stream()| == |b.sent| + b.len && b.Stream()[|b.sent| + b.len - 1] == b.buf[b.len - 1]
  {
  }

  lemma PrefixAt(s: seq<byte>, t: seq<byte>, i: nat)
    requires s <= t && i < |s|
    ensures i < |t| && t[i] == s[i]
  {
  }

  /** For every length that needs a second chunk some byte string is sent wrongly: zeros,
      except where the stale byte goes. */
  lemma TooLongIsSpoiled(q: SendQ, n: nat)
    requires q.Valid() && n > q.Room()
    ensures exists bytes: seq<byte> | |bytes| == n :: !Delivers(q, bytes, false)
  {
    hide PushLoop, PushChunk;
    var c1 := q.Room();
    var c2 := Min(SQ_SIZE, n - c1);
    var zeros := seq<byte>(n, i => 0);
    var stale := PushChunk(q, zeros, 0, false).buf[c2 - 1];
    var bytes := zeros[c1 + c2 - 1 := if stale == 0 then 1 else 0];
    SameFirstChunk(q, zeros, bytes);
    LastByteOfSecondChunk(q, bytes);
    assert (q.Stream() + bytes)[|q.Stream()| + c1 + c2 - 1] == bytes[c1 + c2 - 1];
    assert !Delivers(q, bytes, false);
  }

  lemma SameFirstChunk(q: SendQ, s: seq<byte>, t: seq<byte>)
    requires q.Valid() && |s| == |t| > q.Room() && s[..q.Room()] == t[..q.Room()]
    ensures PushChunk(q, s, 0, false) == PushChunk(q, t, 0, false)
  {
  }

  /** The chunk loop as written sends the pushed bytes, whatever they are, exactly when
      the whole push fits the room left before the next flush. */
  lemma PushDeliversExactlyWhenItFits(q: SendQ, n: nat)
    requires q.Valid()
    ensures (forall bytes: seq<byte> | |bytes| == n :: Delivers(q, bytes, false)) <==> n <= q.Room()
  {
    if n <= q.Room() {
      forall bytes: seq<byte> | |bytes| == n ensures Delivers(q, bytes, false) {
        if n > 0 {
          FirstChunk(q, bytes, 0, false);
          assert bytes[0..n] == bytes;
        } else {
          assert q.Stream() + bytes == q.Stream();
        }
      }
    } else {
      TooLongIsSpoiled(q, n);
    }
  }

  /** Pushing a short field: one flush if it does not fit, then its bytes. */
  function PushField(q: SendQ, field: seq<byte>): (r: SendQ)
    requires q.Valid() && |field| <= SQ_SIZE
    ensures r.Valid()
  {
    var q1 := if SQ_SIZE - q.len < |field| then q.Flushed() else q;
    SendQ(Overwrite(q1.buf, q1.len, field), q1.len + |field|, q1.sent)
  }

  lemma FieldDelivers(q: SendQ, field: seq<byte>)
    requires q.Valid() && |field| <= SQ_SIZE
    ensures PushField(q, field).Stream() == q.Stream() + field
  {
    var q1 := if SQ_SIZE - q.len < |field| then q.Flushed() else q;
    var r := PushField(q, field);
    assert q1.Stream() == q.Stream();
    assert r.buf[..r.len] == q1.buf[..q1.len] + field;
  }

  /** What a client of the open channel may do with the send queue. */
  datatype SendOp = Field(num: int, width: nat) | Bytes(bytes: seq<byte>) | Flush {
    function Payload(): seq<byte> {
      match this
      case Field(num, width) => IntBytes(num, width)
      case Bytes(bytes) => bytes
      case Flush => []
    }
    ghost predicate Legal() { Field? ==> width in {1, 2, 4} }
  }

  function Apply(q: SendQ, op: SendOp): (r: SendQ)
    requires q.Valid() && op.Legal()
    ensures r.Valid()
  {
    match op
    case Field(num, width) => PushField(q, IntBytes(num, width))
    case Bytes(bytes) => PushLoop(q, bytes, 0, false)
    case Flush => if q.len > 0 then q.Flushed() else q
  }

  function ApplyAll(q: SendQ, ops: seq<SendOp>): (r: SendQ)
    requires q.Valid() && forall op | op in ops :: op.Legal()
    ensures r.Valid()
    decreases |ops|
  {
    if |ops| == 0 then q else ApplyAll(Apply(q, ops[0]), ops[1..])
  }

  /** No byte string in the run needs a second chunk when its turn comes. */
  ghost predicate AllFit(q: SendQ, ops: seq<SendOp>)
    requires q.Valid() && forall op | op in ops :: op.Legal()
    decreases |ops|
  {
    |ops| > 0 ==>
      && (ops[0].Bytes? ==> |ops[0].bytes| <= q.Room())
      && AllFit(Apply(q, ops[0]), ops[1..])
  }

  function Payloads(ops: seq<SendOp>): seq<byte> {
    if |ops| == 0 then [] else ops[0].Payload() + Payloads(ops[1..])
  }

  /** Over any mix of pushes and flushes on an open channel, bytes sent followed by bytes
      buffered are everything pushed, in order. */
  lemma {:induction false} SendQueueKeepsOrder(q: SendQ, ops: seq<SendOp>)
    requires q.Valid() && (forall op | op in ops :: op.Legal()) && AllFit(q, ops)
    ensures ApplyAll(q, ops).Stream() == q.Stream() + Payloads(ops)
    decreases |ops|
  {
    hide PushLoop, PushField;
    if |ops| > 0 {
      var q1 := Apply(q, ops[0]);
      match ops[0] {
        case Field(num, width) => FieldDelivers(q, IntBytes(num, width));
        case Bytes(bytes) => FittingPushDelivers(q, bytes);
        case Flush =>
          assert q1.Stream() == q.Stream();
          assert q.Stream() + [] == q.Stream();
      }
      assert q1.Stream() == q.Stream() + ops[0].Payload();
      SendQueueKeepsOrder(q1, ops[1..]);
    } else {
      assert q.Stream() + [] == q.Stream();
    }
  }

  /** Low-order bytes of a pushed integer, most significant first: what `>>` and `& 0xff`
      extract, also from a negative number. */
  function IntBytes(num: int, n: nat): (s: seq<byte>)
    ensures |s| == n
    decreases n
  {
    if n == 0 then [] else IntBytes(num / 256, n - 1) + [num % 256]
  }

  /** Reading back pushed bytes gives the number modulo the field width. */
  lemma {:induction false} IntBytesValue(num: int, n: nat)
    ensures BigEndian(IntBytes(num, n)) == num % Pow256(n)
    decreases n
  {
    if n > 0 {
      IntBytesValue(num / 256, n - 1);
      var s := IntBytes(num, n);
      assert s[..n - 1] == IntBytes(num / 256, n - 1);
      DivDiv(num, 256, Pow256(n - 1));
    }
  }

  lemma NoPower(n: nat)
    ensures n * Pow256(0) == n
  {
  }

  // ---------------------------------------------------------------- room in the receive queue

  /**
   * `size` is the length of the queue's buffer and `recorded` what the object takes it for; a
   * message that is refused can leave the second at the limit and the first as it was. Bytes
   * `at` to `end` are unread.
   */
  datatype Space = RecvSpace(size: nat, recorded: nat, at: nat, end: nat) {
    predicate Valid() {
      && at <= end <= size <= recorded <= MAX_RQ_GROW_SIZE && 0 < size
      && (size == recorded || recorded == MAX_RQ_GROW_SIZE)
    }

    function Unread(): nat { if at <= end then end - at else 0 }

    /** Where the next message goes: a queue that has been read starts over. */
    function Reset(): Space { if at == end then this.(at := 0, end := 0) else this }
  }

  /** A new queue. */
  const EMPTY := RecvSpace(INITIAL_RQ_SIZE, INITIAL_RQ_SIZE, 0, 0)

  /**
   * A message of `d` bytes is taken. While the recorded size is right, that is a question of the
   * limit; once it is not, of the buffer's own end, or of a message so long that a new buffer
   * is made.
   */
  predicate Takes(s: Space, d: nat) {
    if s.size == s.recorded then s.Unread() + d <= MAX_RQ_GROW_SIZE
    else
      || s.Reset().end + d <= s.size
      || (s.Reset().end + d > MAX_RQ_GROW_SIZE && s.Unread() + d <= MAX_RQ_GROW_SIZE)
  }

  /** The unread bytes at the front, in a new buffer if with the message they are more than an
      eighth of the recorded size. */
  function Expanded(s: Space, d: nat): Space {
    var n := 8 * (s.Unread() + d);
    if s.recorded < n then
      var b := Min(MAX_RQ_GROW_SIZE, Max(2 * s.recorded, n));
      RecvSpace(b, b, 0, s.Unread())
    else RecvSpace(s.size, s.recorded, 0, s.Unread())
  }

  /** The room made for a message: behind the others if the recorded size allows it. */
  function Room(s: Space, d: nat): Space {
    if s.Reset().end + d <= s.recorded then s.Reset() else Expanded(s, d)
  }

  /** The queue after a message that it has taken. */
  function Arrived(s: Space, d: nat): Space { Room(s, d).(end := Room(s, d).end + d) }

  /** No room is made: the limit is exceeded, and was looked at. */
  predicate Exceeds(s: Space, d: nat) {
    s.Reset().end + d > s.recorded && s.Unread() + d > MAX_RQ_GROW_SIZE
  }

  /** The queue after a message that it has refused. */
  function Refused(s: Space): Space { s.Reset().(recorded := MAX_RQ_GROW_SIZE) }

  lemma SpaceKept(s: Space, d: nat)
    requires s.Valid()
    ensures Takes(s, d) ==> Arrived(s, d).Valid() && Arrived(s, d).Unread() == s.Unread() + d
    ensures Takes(s, d) && s.size == s.recorded ==> Arrived(s, d).size == Arrived(s, d).recorded
    ensures Refused(s).Valid() && Refused(s).Unread() == s.Unread()
  {
  }

  lemma SameExpanded(s: Space, d: nat)
    ensures Expanded(s.Reset(), d) == Expanded(s, d) && s.Reset().Unread() == s.Unread()
  {
  }

  /** The two errors and the guard of the first, in the terms of the queue before the message. */
  lemma TakenWhenRoomFits(s: Space, d: nat)
    requires s.Valid()
    ensures Takes(s, d) <==> !Exceeds(s, d) && Room(s, d).end + d <= Room(s, d).size
    ensures !Exceeds(s, d) && !Takes(s, d) ==> Room(s, d) == Refused(s)
    ensures !Exceeds(s, d) ==> Room(s, d).Valid() && Room(s, d).Unread() == s.Unread()
  {
  }

  /**
   * An empty queue that has refused a message takes others exactly up to its buffer's size, and
   * that size stays; one that has not takes all up to the limit.
   */
  lemma EmptyTakesExactlyWhen(s: Space, d: nat)
    requires s.Valid() && s.Unread() == 0
    ensures Takes(s, d) <==> d <= (if s.size == s.recorded then MAX_RQ_GROW_SIZE else s.size)
    ensures s.size < s.recorded && Takes(s, d) ==> Arrived(s, d).size == s.size < Arrived(s, d).recorded
  {
  }

  /** A message over the limit makes a new queue refuse messages that it would have taken, far below the limit. */
  lemma RefusalSpoils(tooLong: nat, d: nat)
    requires tooLong > MAX_RQ_GROW_SIZE && INITIAL_RQ_SIZE < d <= MAX_RQ_GROW_SIZE
    ensures !Takes(EMPTY, tooLong) && Takes(EMPTY, d) && !Takes(Refused(EMPTY), d)
  {
    EmptyTakesExactlyWhen(EMPTY, d);
    EmptyTakesExactlyWhen(Refused(EMPTY), d);
  }

  // ---------------------------------------------------------------- the object

  class Websock {
    var rQi: nat
    var rQlen: nat
    var rQbufferSize: nat
    var rQ: array<byte>

    var sQlen: nat
    var sQ: array<byte>

    // readyState === 'open'
    var open: bool
    // everything handed to the channel so far
    ghost var sent: seq<byte>

    /** The sizes and positions of the receive queue. */
    ghost function Space(): Space
      reads this
    {
      RecvSpace(rQ.Length, rQbufferSize, rQi, rQlen)
    }

    ghost predicate Valid()
      reads this
    {
      && Space().Valid()
      && sQ.Length == SQ_SIZE && sQlen <= SQ_SIZE
      && rQ != sQ
    }

    /** The bytes received and not yet read: the FIFO the object implements. */
    ghost function Unread(): seq<byte>
      reads this, rQ
    {
      if rQi <= rQlen <= rQ.Length then rQ[rQi..rQlen] else []
    }

    ghost function Sending(): SendQ
      reads this, sQ
      ensures Valid() ==> Sending().Valid()
    {
      SendQ(sQ[..], sQlen, sent)
    }

    constructor ()
      ensures Valid() && Unread() == [] && !open && fresh(rQ) && fresh(sQ)
      ensures sQlen == 0 && sent == [] && Space() == EMPTY
    {
      rQi, rQlen, rQbufferSize := 0, 0, INITIAL_RQ_SIZE;
      sQlen, open, sent := 0, false, [];
      rQ := new byte[INITIAL_RQ_SIZE](_ => 0);
      sQ := new byte[SQ_SIZE](_ => 0);
    }

    // ------------------------------------------------------------ receive queue

    method RQpeek8() returns (b: byte)
      requires Valid() && |Unread()| >= 1
      ensures b == Unread()[0]
    {
      b := rQ[rQi];
    }

    method RQskipBytes(bytes: nat)
      requires Valid() && bytes <= |Unread()|
      modifies this`rQi
      ensures Valid() && rQi == old(rQi) + bytes
      ensures Unread() == old(Unread())[bytes..]
    {
      rQi := rQi + bytes;
    }

    /** Reads an unsigned big-endian integer; each summand is a signed 32-bit shift, and
        only the final `>>> 0` makes the sum unsigned. */
    method RQshift(bytes: nat) returns (res: nat)
      requires Valid() && 1 <= bytes <= 4 && bytes <= |Unread()|
      modifies this`rQi
      ensures Valid() && rQi == old(rQi) + bytes
      ensures res == BigEndian(old(Unread())[..bytes])
      ensures Unread() == old(Unread())[bytes..]
    {
      ghost var before := Unread();
      var sum: int := 0;
      var byte := bytes - 1;
      assert Pow256(4) == 0x1_0000_0000 && BigEndian(before[..0]) == 0;
      hide Pow256, BigEndian, Signed32;
      while byte >= 0
        invariant -1 <= byte < bytes
        invariant rQi == old(rQi) + (bytes - 1 - byte)
        invariant sum % 0x1_0000_0000 ==
                  BigEndian(before[..bytes - 1 - byte]) * Pow256(byte + 1) % 0x1_0000_0000
      {
        ghost var k := bytes - 1 - byte;
        assert before[..k + 1][..k] == before[..k];
        assert before[k] == rQ[rQi];
        ghost var sum0 := sum;
        sum := sum + Signed32(rQ[rQi] * Pow256(byte));
        rQi := rQi + 1;
        ShiftStep(sum0, BigEndian(before[..k]), before[k], byte);
        byte := byte - 1;
      }
      res := sum % 0x1_0000_0000;
      BigEndianBound(before[..bytes]);
      Pow256Mono(bytes, 4);
      assert before[..bytes] == before[..bytes - 1 - byte];
      NoPower(BigEndian(before[..bytes]));
    }

    method RQshift8() returns (res: byte)
      requires Valid() && 1 <= |Unread()|
      modifies this`rQi
      ensures Valid() && rQi == old(rQi) + 1
      ensures res == old(Unread())[0]
      ensures Unread() == old(Unread())[1..]
    {
      var r := RQshift(1);
      assert old(Unread())[..1][..0] == [];
      res := r;
    }

    method RQshift16() returns (res: nat)
      requires Valid() && 2 <= |Unread()|
      modifies this`rQi
      ensures Valid() && rQi == old(rQi) + 2
      ensures res == U16(old(Unread()))
      ensures Unread() == old(Unread())[2..]
    {
      BigEndian2(Unread()[..2]);
      res := RQshift(2);
    }

    method RQshift32() returns (res: nat)
      requires Valid() && 4 <= |Unread()|
      modifies this`rQi
      ensures Valid() && rQi == old(rQi) + 4
      ensures res == U32(old(Unread()))
      ensures Unread() == old(Unread())[4..]
    {
      BigEndian4(Unread()[..4]);
      res := RQshift(4);
    }

    method RQshiftBytes(len: nat) returns (s: seq<byte>)
      requires Valid() && len <= |Unread()|
      modifies this`rQi
      ensures Valid() && rQi == old(rQi) + len
      ensures s == old(Unread())[..len]
      ensures Unread() == old(Unread())[len..]
    {
      rQi := rQi + len;
      s := rQ[rQi - len..rQi];
    }

    method RQpeekBytes(len: nat) returns (s: seq<byte>)
      requires Valid() && len <= |Unread()|
      ensures s == Unread()[..len]
    {
      s := rQ[rQi..rQi + len];
    }

    /** Asks whether `num` more bytes must be awaited, and if so steps back over the
        `goback` bytes just read. The source throws when it cannot step back that far. */
    method RQwait(num: nat, goback: nat) returns (wait: bool)
      requires Valid() && (|Unread()| < num ==> goback <= rQi)
      modifies this`rQi
      ensures Valid()
      ensures wait == (old(|Unread()|) < num)
      ensures rQi == if wait then old(rQi) - goback else old(rQi)
    {
      if rQlen - rQi < num {
        rQi := rQi - goback;
        return true;
      }
      return false;
    }

    /**
     * Compacts or grows the buffer; `false` stands for the thrown error, which comes after the
     * recorded size was changed. A buffer that is kept may be smaller than the recorded size.
     */
    method ExpandCompactRQ(minFit: nat) returns (ok: bool)
      requires Valid()
      modifies this`rQ, this`rQi, this`rQlen, this`rQbufferSize, rQ
      ensures ok <==> old(|Unread()|) + minFit <= MAX_RQ_GROW_SIZE
      ensures Valid() && Unread() == old(Unread())
      ensures ok ==> Space() == Expanded(old(Space()), minFit) && (rQ == old(rQ) || fresh(rQ))
      ensures !ok ==> rQ == old(rQ) && Space() == old(Space()).(recorded := MAX_RQ_GROW_SIZE)
    {
      var required := (rQlen - rQi + minFit) * 8;
      var resizeNeeded := rQbufferSize < required;
      if resizeNeeded {
        rQbufferSize := Max(rQbufferSize * 2, required);
      }
      if rQbufferSize > MAX_RQ_GROW_SIZE {
        rQbufferSize := MAX_RQ_GROW_SIZE;
        if rQbufferSize - (rQlen - rQi) < minFit {
          return false;
        }
      }
      if resizeNeeded {
        MoveToNewBuffer();
      } else {
        MoveToFront();
      }
      rQlen := rQlen - rQi;
      rQi := 0;
      return true;
    }

    /** Copies the unread bytes to the start of a new buffer of the chosen size. */
    method MoveToNewBuffer()
      requires rQi <= rQlen <= rQ.Length && rQlen - rQi <= rQbufferSize
      modifies this`rQ
      ensures fresh(rQ) && rQ.Length == rQbufferSize && rQ[..rQlen - rQi] == old(Unread())
    {
      var n, oldRQ, from := rQlen - rQi, rQ, rQi;
      rQ := new byte[rQbufferSize](_ => 0);
      forall i | 0 <= i < n { rQ[i] := oldRQ[from + i]; }
    }

    /** `copyWithin(0, _rQi, _rQlen)`. */
    method MoveToFront()
      requires rQi <= rQlen <= rQ.Length
      modifies rQ
      ensures rQ[..rQlen - rQi] == old(Unread())
    {
      forall i | 0 <= i < rQlen - rQi { rQ[i] := rQ[rQi + i]; }
    }

    /**
     * Appends a message, or throws and appends nothing. No unread byte is lost either way.
     * `notify` says whether the message handler is called.
     */
    method RecvMessage(data: seq<byte>) returns (ok: bool, notify: bool)
      requires Valid()
      modifies this`rQ, this`rQi, this`rQlen, this`rQbufferSize, rQ
      ensures ok <==> Takes(old(Space()), |data|)
      ensures Valid() && Unread() == if ok then old(Unread()) + data else old(Unread())
      ensures Space() == if ok then Arrived(old(Space()), |data|) else Refused(old(Space()))
      ensures rQ == old(rQ) || fresh(rQ)
      ensures notify == (ok && |Unread()| > 0)
    {
      ghost var s := Space();
      TakenWhenRoomFits(s, |data|);
      hide Takes, Room, Refused, Exceeds;
      ok := MakeRoom(|data|);
      if !ok {
        return false, false;
      }
      ok := Append(data);
      notify := ok && rQlen - rQi > 0;
    }

    /** What comes before the message is written; `false` stands for the error of the limit. */
    method MakeRoom(d: nat) returns (ok: bool)
      requires Valid()
      modifies this`rQ, this`rQi, this`rQlen, this`rQbufferSize, rQ
      ensures ok <==> !Exceeds(old(Space()), d)
      ensures Valid() && Unread() == old(Unread()) && (rQ == old(rQ) || fresh(rQ))
      ensures Space() == if ok then Room(old(Space()), d) else Refused(old(Space()))
    {
      ghost var s := Space();
      ResetQueue();
      hide Expanded;
      SameExpanded(s, d);
      ok := true;
      if d > rQbufferSize - rQlen {
        ok := ExpandCompactRQ(d);
      }
    }

    /** A queue of which everything was read starts at the front. */
    method ResetQueue()
      requires Valid()
      modifies this`rQi, this`rQlen
      ensures Valid() && Unread() == old(Unread()) && Space() == old(Space()).Reset()
    {
      if rQlen == rQi {
        rQlen := 0;
        rQi := 0;
      }
      assert |Unread()| == 0 || Unread() == old(Unread());
    }

    /** `_rQ.set(u8, _rQlen)`, which throws past the buffer's end, and the new write position. */
    method Append(data: seq<byte>) returns (ok: bool)
      requires Valid()
      modifies this`rQlen, rQ
      ensures ok <==> old(rQlen) + |data| <= rQ.Length
      ensures Valid() && rQi == old(rQi) && rQlen == if ok then old(rQlen) + |data| else old(rQlen)
      ensures Unread() == if ok then old(Unread()) + data else old(Unread())
    {
      if rQlen + |data| > rQ.Length {
        return false;
      }
      forall i | 0 <= i < |data| { rQ[rQlen + i] := data[i]; }
      rQlen := rQlen + |data|;
      ghost var u := Unread();
      assert forall i | 0 <= i < |u| :: u[i] == (old(Unread()) + data)[i];
      ok := true;
    }

    // ------------------------------------------------------------ send queue

    method Flush()
      requires Valid()
      modifies this`sQlen, this`sent
      ensures Valid()
      ensures Sending() == if old(sQlen) > 0 && open then old(Sending()).Flushed() else old(Sending())
    {
      if sQlen > 0 && open {
        sent := sent + sQ[..sQlen];
        sQlen := 0;
      }
    }

    method SQensureSpace(bytes: nat)
      requires Valid()
      modifies this`sQlen, this`sent
      ensures Valid()
      ensures Sending() == if SQ_SIZE - old(sQlen) < bytes && old(sQlen) > 0 && open
                           then old(Sending()).Flushed() else old(Sending())
    {
      if SQ_SIZE - sQlen < bytes {
        Flush();
      }
    }

    /** One byte already masked to eight bits is put at the end of the buffer. */
    method Put(b: byte)
      requires Valid() && sQlen < SQ_SIZE
      modifies this`sQlen, sQ
      ensures Valid()
      ensures Sending() == SendQ(old(sQ[..])[old(sQlen) := b], old(sQlen) + 1, sent)
    {
      sQ[sQlen] := b;
      sQlen := sQlen + 1;
    }

    method SQpush8(num: int)
      requires Valid() && (open || sQlen + 1 <= SQ_SIZE)
      modifies this`sQlen, this`sent, sQ
      ensures Valid()
      ensures Sending() == PushField(old(Sending()), IntBytes(num, 1))
      ensures Sending().Stream() == old(Sending().Stream()) + IntBytes(num, 1)
    {
      FieldDelivers(Sending(), IntBytes(num, 1));
      SQensureSpace(1);
      Put(num % 256);
      assert IntBytes(num, 0) == [];
    }

    method SQpush16(num: int)
      requires Valid() && (open || sQlen + 2 <= SQ_SIZE)
      modifies this`sQlen, this`sent, sQ
      ensures Valid()
      ensures Sending() == PushField(old(Sending()), IntBytes(num, 2))
      ensures Sending().Stream() == old(Sending().Stream()) + IntBytes(num, 2)
    {
      hide IntBytes, Overwrite;
      FieldDelivers(Sending(), IntBytes(num, 2));
      TwoBytes(num);
      SQensureSpace(2);
      TwoPuts(sQ[..], sQlen, IntBytes(num, 2));
      Put(num / 256 % 256);
      Put(num % 256);
    }

    method SQpush32(num: int)
      requires Valid() && (open || sQlen + 4 <= SQ_SIZE)
      modifies this`sQlen, this`sent, sQ
      ensures Valid()
      ensures Sending() == PushField(old(Sending()), IntBytes(num, 4))
      ensures Sending().Stream() == old(Sending().Stream()) + IntBytes(num, 4)
    {
      hide IntBytes, Overwrite;
      FieldDelivers(Sending(), IntBytes(num, 4));
      FourBytes(num);
      SQensureSpace(4);
      PutFour(num / 0x100_0000 % 256, num / 0x1_0000 % 256, num / 0x100 % 256, num % 256);
    }

    /** The four assignments of a 32-bit push. */
    method PutFour(b0: byte, b1: byte, b2: byte, b3: byte)
      requires Valid() && sQlen + 4 <= SQ_SIZE
      modifies this`sQlen, sQ
      ensures Valid()
      ensures Sending() == SendQ(Overwrite(old(sQ[..]), old(sQlen), [b0, b1, b2, b3]), old(sQlen) + 4, sent)
    {
      FourPuts(sQ[..], sQlen, [b0, b1, b2, b3]);
      hide Overwrite;
      Put(b0);
      Put(b1);
      Put(b2);
      Put(b3);
    }

    /** `_sQ.set(src, _sQlen)`. */
    method SetSQ(src: seq<byte>)
      requires Valid() && sQlen + |src| <= SQ_SIZE
      modifies sQ
      ensures sQ[..] == Overwrite(old(sQ[..]), sQlen, src)
    {
      forall i | 0 <= i < |src| { sQ[sQlen + i] := src[i]; }
    }

    /** The chunk loop, as written. */
    method SQpushBytes(bytes: seq<byte>)
      requires Valid() && (open || |bytes| <= SQ_SIZE - sQlen)
      modifies this`sQlen, this`sent, sQ
      ensures Valid()
      ensures Sending() == PushLoop(old(Sending()), bytes, 0, false)
      ensures |bytes| <= old(Sending()).Room()
              ==> Sending().Stream() == old(Sending().Stream()) + bytes
    {
      hide *;
      ghost var q0 := Sending();
      var offset := 0;
      while offset < |bytes|
        invariant Valid() && 0 <= offset <= |bytes| && (open || |bytes| - offset <= SQ_SIZE - sQlen)
        invariant PushLoop(q0, bytes, 0, false) == PushLoop(Sending(), bytes, offset, false)
      {
        ghost var q := Sending();
        LoopUnfolds(q, bytes, offset, false);
        var chunkSize := PushOneChunk(bytes, offset);
        offset := offset + chunkSize;
      }
      LoopUnfolds(Sending(), bytes, |bytes|, false);
      FittingPushDelivers(q0, bytes);
    }

    /** The body of that loop. */
    method PushOneChunk(bytes: seq<byte>, offset: nat) returns (chunkSize: nat)
      requires Valid() && offset < |bytes| && (open || |bytes| - offset <= SQ_SIZE - sQlen)
      modifies this`sQlen, this`sent, sQ
      ensures Valid()
      ensures open || |bytes| - offset - chunkSize <= SQ_SIZE - sQlen
      ensures chunkSize == ChunkSize(old(Sending()), bytes, offset)
      ensures Sending() == PushChunk(old(Sending()), bytes, offset, false)
    {
      hide Overwrite, Subarray;
      SQensureSpace(1);
      chunkSize := SQ_SIZE - sQlen;
      if chunkSize > |bytes| - offset {
        chunkSize := |bytes| - offset;
      }
      SetSQ(Subarray(bytes, offset, chunkSize));
      sQlen := sQlen + chunkSize;
    }
  }

  lemma FittingPushDelivers(q: SendQ, bytes: seq<byte>)
    requires q.Valid()
    ensures |bytes| <= q.Room() ==> PushLoop(q, bytes, 0, false).Stream() == q.Stream() + bytes
  {
    if |bytes| <= q.Room() {
      PushDeliversExactlyWhenItFits(q, |bytes|);
      assert Delivers(q, bytes, false);
    }
  }

  lemma LoopUnfolds(q: SendQ, bytes: seq<byte>, offset: nat, intended: bool)
    requires q.Valid() && offset <= |bytes|
    ensures PushLoop(q, bytes, offset, intended)
         == if offset == |bytes| then q
            else PushLoop(PushChunk(q, bytes, offset, intended), bytes, offset + ChunkSize(q, bytes, offset), intended)
  {
  }

  lemma TwoPuts(buf: seq<byte>, at: nat, s: seq<byte>)
    requires |s| == 2 && at + 2 <= |buf|
    ensures buf[at := s[0]][at + 1 := s[1]] == Overwrite(buf, at, s)
  {
  }

  lemma TwoBytes(num: int)
    ensures IntBytes(num, 2) == [num / 256 % 256, num % 256]
  {
    assert IntBytes(num / 256, 0) == [];
  }

  lemma FourPuts(buf: seq<byte>, at: nat, s: seq<byte>)
    requires |s| == 4 && at + 4 <= |buf|
    ensures buf[at := s[0]][at + 1 := s[1]][at + 2 := s[2]][at + 3 := s[3]] == Overwrite(buf, at, s)
  {
  }

  lemma FourBytes(num: int)
    ensures IntBytes(num, 4) == [num / 0x100_0000 % 256, num / 0x1_0000 % 256, num / 0x100 % 256, num % 256]
  {
    var n3 := num / 256 / 256 / 256;
    assert num / 256 / 256 == num / 0x1_0000 && n3 == num / 0x100_0000;
    assert IntBytes(n3, 0) == [];
    assert IntBytes(n3, 1) == [n3 % 256];
    assert IntBytes(num / 256 / 256, 2) == [n3 % 256, num / 256 / 256 % 256];
    assert IntBytes(num / 256, 3) == [n3 % 256, num / 256 / 256 % 256, num / 256 % 256];
  }

  lemma ShiftStep(sum: int, hi: nat, b: byte, k: nat)
    requires k < 4
    requires sum % 0x1_0000_0000 == hi * Pow256(k + 1) % 0x1_0000_0000
    ensures (sum + Signed32(b * Pow256(k))) % 0x1_0000_0000
         == (256 * hi + b) * Pow256(k) % 0x1_0000_0000
  {
    hide *;
    var m, v, h := 0x1_0000_0000, b * Pow256(k), hi * Pow256(k + 1);
    SignedMod(v);
    ModAdd(Signed32(v), sum, m);
    ModAdd(v, sum, m);
    ModAdd(sum, v, m);
    ModAdd(h, v, m);
    assert (sum + Signed32(v)) % m == (h + v) % m;
    Pow256Step(k);
    Associate(hi, 256, Pow256(k));
    Distribute(256 * hi, b, Pow256(k));
  }

  lemma SignedMod(v: int)
    ensures Signed32(v) % 0x1_0000_0000 == v % 0x1_0000_0000
  {
    ModAddMultiple(v, -(v / 0x1_0000_0000), 0x1_0000_0000);
    ModAddMultiple(Signed32(v), 1, 0x1_0000_0000);
  }
}
