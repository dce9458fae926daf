/**
 * The pause of the message loop while the display is behind: at the header of an update the
 * loop looks whether images are waited for, and if so stops until they are drawn. Whether the
 * display is behind at the k-th header is a parameter.
 */
module Pacing {
  import opened Bytes
  import opened Chunking
  import opened Client
  import opened Rects

  type Busy = nat -> bool

  /** The client between two events; `headers` counts the update headers read. */
  datatype Paced = Paced(r: Result, headers: nat, flushing: bool)

  function Prefixed(out: seq<Output>, p: Paced): Paced { p.(r := Prepend(out, p.r)) }

  /** The next step reads the header of an update. */
  predicate AtHeader(c: State, q: seq<byte>) { c.rects == 0 && |q| >= 1 && q[0] == 0 }

  /** The loop, which stops where it has to wait for the display. What the header's step would put out is lost then. */
  function Handle(cfg: Config, busy: Busy, c: State, q: seq<byte>, k: nat): Paced
    decreases |q|, Rank(c)
  {
    match Step(cfg, c, q)
    case Blocked => Paced(Result(c, q, []), k, false)
    case Next(c', n, out) =>
      StepProgress(cfg, c, q);
      if !AtHeader(c, q) then Prefixed(out, Handle(cfg, busy, c', q[n..], k))
      else if busy(k) then Paced(Result(c', q[n..], []), k + 1, true)
      else Prefixed(out, Handle(cfg, busy, c', q[n..], k + 1))
  }

  datatype Event = Arrives(chunk: seq<byte>) | Flushed

  /** A message is only queued while the loop pauses; the end of the flush resumes it. */
  function On(cfg: Config, busy: Busy, p: Paced, e: Event): Paced {
    if p.r.c.failed then p
    else
      match e
      case Arrives(chunk) =>
        if p.flushing then p.(r := p.r.(rest := p.r.rest + chunk))
        else Prefixed(p.r.out, Handle(cfg, busy, p.r.c, p.r.rest + chunk, p.headers))
      case Flushed =>
        if p.flushing then Prefixed(p.r.out, Handle(cfg, busy, p.r.c, p.r.rest, p.headers)) else p
  }

  function Events(cfg: Config, busy: Busy, p: Paced, events: seq<Event>): Paced
    decreases |events|
  {
    if |events| == 0 then p else Events(cfg, busy, On(cfg, busy, p, events[0]), events[1..])
  }

  /** The bytes of the messages among the events. */
  function Arrived(events: seq<Event>): seq<byte> {
    if |events| == 0 then []
    else (if events[0].Arrives? then events[0].chunk else []) + Arrived(events[1..])
  }

  /** The loop with every flush done at once. */
  function Unpaused(cfg: Config, busy: Busy, c: State, q: seq<byte>, k: nat): Paced
    decreases |q|, Rank(c)
  {
    match Step(cfg, c, q)
    case Blocked => Paced(Result(c, q, []), k, false)
    case Next(c', n, out) =>
      StepProgress(cfg, c, q);
      if !AtHeader(c, q) then Prefixed(out, Unpaused(cfg, busy, c', q[n..], k))
      else Prefixed(if busy(k) then [] else out, Unpaused(cfg, busy, c', q[n..], k + 1))
  }

  // ---------------------------------------------------------------- pauses do not matter

  lemma PrefixedTwice(a: seq<Output>, b: seq<Output>, p: Paced)
    ensures Prefixed(a, Prefixed(b, p)) == Prefixed(a + b, p) && Prefixed([], p) == p
  {
    PrependPrepend(a, b, p.r);
  }

  lemma UnpausedUnfolds(cfg: Config, busy: Busy, c: State, q: seq<byte>, k: nat)
    ensures var s := Step(cfg, c, q);
            if s.Blocked? then Unpaused(cfg, busy, c, q, k) == Paced(Result(c, q, []), k, false)
            else
              && s.n <= |q|
              && Unpaused(cfg, busy, c, q, k)
                 == Prefixed(if AtHeader(c, q) && busy(k) then [] else s.out,
                             Unpaused(cfg, busy, s.c, q[s.n..], if AtHeader(c, q) then k + 1 else k))
  {
    hide Step, AtHeader;
    if Step(cfg, c, q).Next? { StepProgress(cfg, c, q); }
  }

  /** What a pausing loop has done, and the rest of it, is what the loop without pauses does. */
  lemma {:induction false} HandleLeadsTo(cfg: Config, busy: Busy, c: State, q: seq<byte>, k: nat)
    ensures var p := Handle(cfg, busy, c, q, k);
            && Unpaused(cfg, busy, c, q, k) == Prefixed(p.r.out, Unpaused(cfg, busy, p.r.c, p.r.rest, p.headers))
            && (!p.flushing ==> Step(cfg, p.r.c, p.r.rest).Blocked?)
    decreases |q|, Rank(c)
  {
    hide Step, Rank, AtHeader, Unpaused;
    UnpausedUnfolds(cfg, busy, c, q, k);
    var s := Step(cfg, c, q);
    if s.Next? {
      StepProgress(cfg, c, q);
      var k' := if AtHeader(c, q) then k + 1 else k;
      if !(AtHeader(c, q) && busy(k)) {
        HandleLeadsTo(cfg, busy, s.c, q[s.n..], k');
        var p := Handle(cfg, busy, s.c, q[s.n..], k');
        PrefixedTwice(s.out, p.r.out, Unpaused(cfg, busy, p.r.c, p.r.rest, p.headers));
      }
    } else {
      PrefixedTwice([], [], Unpaused(cfg, busy, c, q, k));
    }
  }

  lemma HeaderStable(cfg: Config, c: State, q: seq<byte>, x: seq<byte>)
    requires Step(cfg, c, q).Next?
    ensures AtHeader(c, q + x) == AtHeader(c, q)
  {
    hide Message, RectHeader, RectBody;
  }

  /** More bytes go on where the others led. */
  lemma {:induction false} UnpausedResumes(cfg: Config, busy: Busy, c: State, q: seq<byte>, k: nat, x: seq<byte>)
    ensures var p := Unpaused(cfg, busy, c, q, k);
            Unpaused(cfg, busy, c, q + x, k) == Prefixed(p.r.out, Unpaused(cfg, busy, p.r.c, p.r.rest + x, p.headers))
    decreases |q|, Rank(c)
  {
    hide Step, Rank, AtHeader, Unpaused;
    UnpausedUnfolds(cfg, busy, c, q, k);
    var s := Step(cfg, c, q);
    if s.Next? {
      StepStable(cfg, c, q, x);
      StepProgress(cfg, c, q);
      HeaderStable(cfg, c, q, x);
      UnpausedUnfolds(cfg, busy, c, q + x, k);
      DropStable(q, x, s.n);
      var k' := if AtHeader(c, q) then k + 1 else k;
      UnpausedResumes(cfg, busy, s.c, q[s.n..], k', x);
      var p := Unpaused(cfg, busy, s.c, q[s.n..], k');
      PrefixedTwice(if AtHeader(c, q) && busy(k) then [] else s.out, p.r.out,
                    Unpaused(cfg, busy, p.r.c, p.r.rest + x, p.headers));
    } else {
      PrefixedTwice([], [], Unpaused(cfg, busy, c, q + x, k));
    }
  }

  /** Where the client gets once every flush is done. */
  function Settled(cfg: Config, busy: Busy, p: Paced): Paced {
    Prefixed(p.r.out, Unpaused(cfg, busy, p.r.c, p.r.rest, p.headers))
  }

  /** A loop that does not pause has to wait for bytes. */
  ghost predicate Resting(cfg: Config, p: Paced) { p.flushing || Step(cfg, p.r.c, p.r.rest).Blocked? }

  lemma SettledRests(cfg: Config, busy: Busy, p: Paced)
    requires Resting(cfg, p) && !p.flushing
    ensures Settled(cfg, busy, p) == p
  {
    hide Step;
    UnpausedUnfolds(cfg, busy, p.r.c, p.r.rest, p.headers);
    assert p.r.out + [] == p.r.out;
  }

  lemma SettledHandle(cfg: Config, busy: Busy, out: seq<Output>, c: State, q: seq<byte>, k: nat)
    ensures var p := Prefixed(out, Handle(cfg, busy, c, q, k));
            Settled(cfg, busy, p) == Prefixed(out, Unpaused(cfg, busy, c, q, k)) && Resting(cfg, p)
  {
    hide Handle, Unpaused, Step;
    var p := Handle(cfg, busy, c, q, k);
    HandleLeadsTo(cfg, busy, c, q, k);
    PrefixedTwice(out, p.r.out, Unpaused(cfg, busy, p.r.c, p.r.rest, p.headers));
  }

  /** An event changes where the client gets by its bytes alone. */
  lemma OnSettles(cfg: Config, busy: Busy, p: Paced, e: Event)
    requires Resting(cfg, p) && !p.r.c.failed
    ensures Resting(cfg, On(cfg, busy, p, e))
    ensures Settled(cfg, busy, On(cfg, busy, p, e))
         == Prefixed(p.r.out, Unpaused(cfg, busy, p.r.c, p.r.rest + Arrived([e]), p.headers))
  {
    hide Handle, Unpaused, Step;
    assert Arrived([e][1..]) == [];
    assert (if e.Arrives? then e.chunk else []) + [] == if e.Arrives? then e.chunk else [];
    assert p.r.rest + [] == p.r.rest;
    SettledHandle(cfg, busy, p.r.out, p.r.c, p.r.rest + Arrived([e]), p.headers);
    if e.Flushed? && !p.flushing {
      SettledRests(cfg, busy, p);
    }
  }

  lemma {:induction false} FailureStays(cfg: Config, busy: Busy, p: Paced, events: seq<Event>)
    requires p.r.c.failed
    ensures Events(cfg, busy, p, events) == p
    decreases |events|
  {
    if |events| > 0 { FailureStays(cfg, busy, p, events[1..]); }
  }

  /** However messages and flushes follow each other, the connected client is on its way to one and the same end. */
  lemma {:induction false} EventsSettle(cfg: Config, busy: Busy, p: Paced, events: seq<Event>)
    requires Resting(cfg, p) && !Events(cfg, busy, p, events).r.c.failed
    ensures Resting(cfg, Events(cfg, busy, p, events))
    ensures Settled(cfg, busy, Events(cfg, busy, p, events))
         == Prefixed(p.r.out, Unpaused(cfg, busy, p.r.c, p.r.rest + Arrived(events), p.headers))
    decreases |events|
  {
    hide Step, Unpaused, On;
    if |events| == 0 {
      assert p.r.rest + [] == p.r.rest;
    } else {
      var e, later := events[0], events[1..];
      var q := On(cfg, busy, p, e);
      if q.r.c.failed { FailureStays(cfg, busy, q, later); }
      if p.r.c.failed { FailureStays(cfg, busy, p, events); }
      OnSettles(cfg, busy, p, e);
      EventsSettle(cfg, busy, q, later);
      Onward(cfg, busy, p, q, e, later);
    }
  }

  lemma Onward(cfg: Config, busy: Busy, p: Paced, q: Paced, e: Event, later: seq<Event>)
    requires Settled(cfg, busy, q) == Prefixed(p.r.out, Unpaused(cfg, busy, p.r.c, p.r.rest + Arrived([e]), p.headers))
    ensures Prefixed(q.r.out, Unpaused(cfg, busy, q.r.c, q.r.rest + Arrived(later), q.headers))
         == Prefixed(p.r.out, Unpaused(cfg, busy, p.r.c, p.r.rest + Arrived([e] + later), p.headers))
  {
    hide *;
    var x := Arrived(later);
    var start := p.r.rest + Arrived([e]);
    ArrivedFirst(e, later);
    assert start + x == p.r.rest + Arrived([e] + later);
    SettlesLater(cfg, busy, p.r.out, p.r.c, start, p.headers, x);
    SettlesLater(cfg, busy, q.r.out, q.r.c, q.r.rest, q.headers, x);
    SettledIs(cfg, busy, q);
  }

  lemma SettledIs(cfg: Config, busy: Busy, q: Paced)
    ensures Settled(cfg, busy, q) == Prefixed(q.r.out, Unpaused(cfg, busy, q.r.c, q.r.rest, q.headers))
  {
    hide Unpaused;
  }

  /** More bytes for a client that has come to an end: what matters is that end. */
  function Later(cfg: Config, busy: Busy, p: Paced, x: seq<byte>): Paced {
    Prefixed(p.r.out, Unpaused(cfg, busy, p.r.c, p.r.rest + x, p.headers))
  }

  lemma SettlesLater(cfg: Config, busy: Busy, out: seq<Output>, c: State, q: seq<byte>, k: nat, x: seq<byte>)
    ensures Prefixed(out, Unpaused(cfg, busy, c, q + x, k))
         == Later(cfg, busy, Prefixed(out, Unpaused(cfg, busy, c, q, k)), x)
  {
    UnpausedResumes(cfg, busy, c, q, k, x);
    hide Unpaused;
    var a := Unpaused(cfg, busy, c, q, k);
    PrefixedTwice(out, a.r.out, Unpaused(cfg, busy, a.r.c, a.r.rest + x, a.headers));
  }

  lemma ArrivedFirst(e: Event, later: seq<Event>)
    ensures Arrived([e] + later) == Arrived([e]) + Arrived(later)
  {
    assert ([e] + later)[1..] == later && [e][1..] == [];
    assert Arrived([]) == [];
  }

  /**
   * Pauses do not matter: with the last flush done, the connected client is where the loop
   * without pauses takes it on all the bytes, however they arrived between flushes.
   */
  lemma PausesDoNotMatter(cfg: Config, busy: Busy, p: Paced, events: seq<Event>)
    requires Resting(cfg, p)
    requires var e := Events(cfg, busy, p, events); !e.flushing && !e.r.c.failed
    ensures Events(cfg, busy, p, events)
         == Prefixed(p.r.out, Unpaused(cfg, busy, p.r.c, p.r.rest + Arrived(events), p.headers))
  {
    EventsSettle(cfg, busy, p, events);
    SettledRests(cfg, busy, Events(cfg, busy, p, events));
    hide Unpaused, Events, Step;
  }

  // ---------------------------------------------------------------- what a pause loses

  /** No update without rectangles begins while the display is behind. */
  ghost predicate NoEmptyUpdate(cfg: Config, busy: Busy, c: State, q: seq<byte>, k: nat)
    decreases |q|, Rank(c)
  {
    match Step(cfg, c, q)
    case Blocked => true
    case Next(c', n, out) =>
      StepProgress(cfg, c, q);
      && (AtHeader(c, q) && busy(k) ==> |q| >= 4 && U16(q[2..]) > 0)
      && NoEmptyUpdate(cfg, busy, c', q[n..], if AtHeader(c, q) then k + 1 else k)
  }

  lemma HeaderOutput(cfg: Config, c: State, q: seq<byte>)
    requires Step(cfg, c, q).Next? && AtHeader(c, q)
    ensures |q| >= 4 && (Step(cfg, c, q).out == [] <==> U16(q[2..]) > 0)
  {
    hide U16;
  }

  /** The pauses do not change the client's state, and take nothing but whole outputs of headers away. */
  lemma {:induction false} UnpausedIsRun(cfg: Config, busy: Busy, c: State, q: seq<byte>, k: nat)
    ensures var p, r := Unpaused(cfg, busy, c, q, k).r, Run(cfg, c, q);
            p.c == r.c && p.rest == r.rest && |p.out| <= |r.out|
            && (NoEmptyUpdate(cfg, busy, c, q, k) ==> p == r)
            && (!NoEmptyUpdate(cfg, busy, c, q, k) ==> |p.out| < |r.out|)
    decreases |q|, Rank(c)
  {
    hide Step, Rank, AtHeader, U16;
    RunUnfolds(cfg, c, q);
    UnpausedUnfolds(cfg, busy, c, q, k);
    var s := Step(cfg, c, q);
    if s.Next? {
      StepProgress(cfg, c, q);
      if AtHeader(c, q) { HeaderOutput(cfg, c, q); }
      UnpausedIsRun(cfg, busy, s.c, q[s.n..], if AtHeader(c, q) then k + 1 else k);
      hide Run, Unpaused;
    }
  }

  /**
   * A client that pauses does everything that one that never pauses does, exactly when no
   * update without rectangles begins while the display is behind.
   */
  lemma PausesLoseNothingExactlyWhen(cfg: Config, busy: Busy, p: Paced, events: seq<Event>)
    requires Resting(cfg, p)
    requires var e := Events(cfg, busy, p, events); !e.flushing && !e.r.c.failed
    ensures Events(cfg, busy, p, events).r == Prepend(p.r.out, Run(cfg, p.r.c, p.r.rest + Arrived(events)))
       <==> NoEmptyUpdate(cfg, busy, p.r.c, p.r.rest + Arrived(events), p.headers)
  {
    PausesDoNotMatter(cfg, busy, p, events);
    UnpausedIsRun(cfg, busy, p.r.c, p.r.rest + Arrived(events), p.headers);
    hide Unpaused, Run, Events, Step, NoEmptyUpdate;
  }

  /**
   * It happens: after an update without rectangles on a display that is behind, the client
   * neither shows the frame nor asks for the next one.
   */
  lemma EmptyUpdateIsLost(cfg: Config, busy: Busy)
    requires busy(0)
    ensures var events := [Arrives([0, 0, 0, 0]), Flushed]; var p := Paced(Fresh(2, 2), 0, false);
            && Events(cfg, busy, p, events) == p.(headers := 1)
            && Run(cfg, p.r.c, [0, 0, 0, 0]).out == [Flip, FbUpdateRequest(2, 2)]
  {
    var p := Paced(Fresh(2, 2), 0, false);
    var q: seq<byte> := [0, 0, 0, 0];
    var c := p.r.c;
    assert p.r.rest + q == q && q[4..] == [] && U16(q[2..]) == 0;
    assert Step(cfg, c, q) == Next(c, 4, [Flip, FbUpdateRequest(2, 2)]);
    assert Step(cfg, c, []).Blocked?;
    RunUnfolds(cfg, c, q);
    RunUnfolds(cfg, c, []);
    hide Run, Step;
    var paused := Paced(Result(c, [], []), 1, true);
    assert Handle(cfg, busy, c, q, 0) == paused;
    assert On(cfg, busy, p, Arrives(q)) == paused;
    assert Handle(cfg, busy, c, [], 1) == Paced(Result(c, [], []), 1, false);
    assert On(cfg, busy, paused, Flushed) == p.(headers := 1);
    assert [Arrives(q), Flushed][1..] == [Flushed] && [Flushed][1..] == [];
    assert Events(cfg, busy, paused, [Flushed]) == Events(cfg, busy, p.(headers := 1), []);
  }
}
