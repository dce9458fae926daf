/**
 * The relay hub of relay.rs as interleaved steps. A step is what happens under one lock, one
 * channel operation or one socket operation; a run is any sequence of steps of any number of
 * legs and sessions. WebSocket traffic, the timer and new connections are the choice of steps.
 */
module Relay {
  import opened Bytes

  type Id = nat
  type LegId = nat
  type Message = nat

  /** What a leg's channel carries: a peer's message, or the hub's own ping. */
  datatype Item = Relayed(from: LegId, msg: Message) | Ping

  /** Where a leg stands. The forwarder of an aborted leg runs on until it stops. */
  datatype Phase =
    | Connected
    | Reading
    | Got(msg: Message)
    | Holding(held: Message, peer: Option<LegId>)
    | Closing
    | Aborted
    | Gone

  /**
   * A leg. `received` is what its socket sent, of which `looked` messages were looked up a peer
   * for. `offered` is what was ever sent to its channel, `delivered` what its forwarder wrote.
   * `since`, set on registration, records how far every other leg's lookups had come.
   */
  datatype Leg = Leg(
    session: Id, agent: bool, phase: Phase, received: seq<Message>, looked: nat,
    open: bool, queue: seq<Item>, offered: seq<Item>, delivered: seq<Item>,
    since: Option<map<LegId, nat>>)

  datatype Session = Session(agent: Option<LegId>, client: Option<LegId>) {
    function Slot(ofAgent: bool): Option<LegId> { if ofAgent then agent else client }
    function With(ofAgent: bool, leg: LegId): Session {
      if ofAgent then Session(Some(leg), client) else Session(agent, Some(leg))
    }
  }

  datatype State = State(sessions: map<Id, Session>, legs: map<LegId, Leg>)

  const START := State(map[], map[])

  datatype Step =
    | Create(id: Id)
    | Connect(leg: LegId, session: Id, agent: bool)
    | Register(leg: LegId)
    | Receive(leg: LegId, msg: Message)
    | Lookup(leg: LegId)
    | Send(leg: LegId)
    | End(leg: LegId)
    | Forward(leg: LegId)
    | ForwardFails(leg: LegId)
    | KeepAlive(leg: LegId)
    | Abort(leg: LegId)
    | Remove(leg: LegId)
    | Stop(leg: LegId)

  // ---------------------------------------------------------------- steps

  function Progress(legs: map<LegId, Leg>): map<LegId, nat> {
    map p | p in legs :: legs[p].looked
  }

  function Registered(s: State, l: LegId): State
    requires l in s.legs
  {
    var leg := s.legs[l].(phase := Reading);
    if leg.session in s.sessions then
      State(s.sessions[leg.session := s.sessions[leg.session].With(leg.agent, l)],
            s.legs[l := leg.(since := Some(Progress(s.legs)))])
    else s.(legs := s.legs[l := leg])
  }

  function LookedUp(s: State, l: LegId): State
    requires l in s.legs && s.legs[l].phase.Got?
  {
    var leg := s.legs[l];
    s.(legs := s.legs[l :=
      if leg.session in s.sessions
      then leg.(phase := Holding(leg.phase.msg, s.sessions[leg.session].Slot(!leg.agent)), looked := leg.looked + 1)
      else leg.(phase := Closing)])
  }

  /** A send to a channel whose receiver is gone fails, and the failure is ignored. */
  function Offer(leg: Leg, item: Item): Leg {
    leg.(offered := leg.offered + [item], queue := if leg.open then leg.queue + [item] else leg.queue)
  }

  function Sent(s: State, l: LegId): State
    requires l in s.legs && s.legs[l].phase.Holding?
  {
    var leg := s.legs[l];
    var legs := s.legs[l := leg.(phase := Reading)];
    var peer := leg.phase.peer;
    s.(legs := if peer.Some? && peer.value in legs
               then legs[peer.value := Offer(legs[peer.value], Relayed(l, leg.phase.held))]
               else legs)
  }

  function OnLeg(s: State, l: LegId, t: Step): State
    requires l in s.legs
  {
    var leg := s.legs[l];
    match t
    case Register(_) => if leg.phase.Connected? then Registered(s, l) else s
    case Receive(_, m) =>
      if leg.phase.Reading? then s.(legs := s.legs[l := leg.(phase := Got(m), received := leg.received + [m])]) else s
    case Lookup(_) => if leg.phase.Got? then LookedUp(s, l) else s
    case Send(_) => if leg.phase.Holding? then Sent(s, l) else s
    case End(_) => if leg.phase.Reading? then s.(legs := s.legs[l := leg.(phase := Closing)]) else s
    case Forward(_) =>
      if leg.open && |leg.queue| > 0
      then s.(legs := s.legs[l := leg.(queue := leg.queue[1..], delivered := leg.delivered + [leg.queue[0]])])
      else s
    case ForwardFails(_) =>
      if leg.open && |leg.queue| > 0 then s.(legs := s.legs[l := leg.(open := false, queue := [])]) else s
    case KeepAlive(_) =>
      if leg.open && !leg.phase.Connected? then s.(legs := s.legs[l := Offer(leg, Ping)]) else s
    case Abort(_) => if leg.phase.Closing? then s.(legs := s.legs[l := leg.(phase := Aborted)]) else s
    case Remove(_) =>
      if leg.phase.Aborted?
      then State(s.sessions - {leg.session}, s.legs[l := leg.(phase := Gone)])
      else s
    case Stop(_) =>
      if leg.open && (leg.phase.Aborted? || leg.phase.Gone?)
      then s.(legs := s.legs[l := leg.(open := false, queue := [])])
      else s
    case _ => s
  }

  /** One step; a step that cannot happen changes nothing. */
  function Next(s: State, t: Step): State {
    match t
    case Create(id) => s.(sessions := s.sessions[id := Session(None, None)])
    case Connect(l, id, agent) =>
      if l in s.legs then s
      else s.(legs := s.legs[l := Leg(id, agent, Connected, [], 0, true, [], [], [], None)])
    case _ => if t.leg in s.legs then OnLeg(s, t.leg, t) else s
  }

  function Run(steps: seq<Step>): State {
    if |steps| == 0 then START else Next(Run(steps[..|steps| - 1]), steps[|steps| - 1])
  }

  // ---------------------------------------------------------------- what flows to a leg

  /** The messages of one sender among the items of a channel. */
  function From(p: LegId, items: seq<Item>): seq<Message> {
    if |items| == 0 then []
    else
      var last := items[|items| - 1];
      From(p, items[..|items| - 1]) + if last.Relayed? && last.from == p then [last.msg] else []
  }

  /** All relayed messages, keepalive pings aside. */
  function Messages(items: seq<Item>): seq<Message> {
    if |items| == 0 then []
    else
      var last := items[|items| - 1];
      Messages(items[..|items| - 1]) + if last.Relayed? then [last.msg] else []
  }

  /** A message that `p` has looked up `l` for and not sent yet. */
  function Pending(s: State, l: LegId, p: LegId): seq<Message>
    requires p in s.legs
  {
    var phase := s.legs[p].phase;
    if phase.Holding? && phase.peer == Some(l) then [phase.held] else []
  }

  /** Everything `p` has directed to `l`. */
  function Flow(s: State, l: LegId, p: LegId): seq<Message>
    requires l in s.legs && p in s.legs
  {
    From(p, s.legs[l].offered) + Pending(s, l, p)
  }

  predicate Opposite(s: State, l: LegId, p: LegId) {
    l in s.legs && p in s.legs && s.legs[l].session == s.legs[p].session && s.legs[l].agent != s.legs[p].agent
  }

  /** The leg's sender is in the session's slot for its side. */
  predicate InSlot(s: State, l: LegId)
    requires l in s.legs
  {
    s.legs[l].session in s.sessions && s.sessions[s.legs[l].session].Slot(s.legs[l].agent) == Some(l)
  }

  /** How many of `p`'s messages had been looked up when `l` registered. */
  function StartOf(s: State, l: LegId, p: LegId): nat
    requires l in s.legs
  {
    var since := s.legs[l].since;
    if since.Some? && p in since.value then since.value[p] else 0
  }

  /** What `p` has looked a peer up for since `l` registered. */
  function Since(s: State, l: LegId, p: LegId): seq<Message>
    requires l in s.legs && p in s.legs
  {
    var n := StartOf(s, l, p);
    var leg := s.legs[p];
    if n <= leg.looked <= |leg.received| then leg.received[n..leg.looked] else []
  }

  // ---------------------------------------------------------------- invariants

  /** One leg: its place in the loop, its counters, its channel. */
  ghost predicate LegKept(leg: Leg) {
    && (match leg.phase
        case Connected => leg.received == [] && leg.looked == 0 && leg.since.None? && leg.offered == [] && leg.open
        case Reading => leg.looked == |leg.received|
        case Got(m) => leg.received != [] && leg.looked == |leg.received| - 1 && m == leg.received[leg.looked]
        case Holding(m, _) => leg.received != [] && leg.looked == |leg.received| && m == leg.received[leg.looked - 1]
        case _ => leg.looked <= |leg.received|)
    && leg.delivered <= leg.offered
    && (leg.open ==> leg.delivered + leg.queue == leg.offered)
    && (leg.since.None? ==> Messages(leg.offered) == [])
  }

  /** A slot names a registered leg of its session and side. */
  ghost predicate SlotWired(s: State, id: Id, side: bool) {
    id in s.sessions && s.sessions[id].Slot(side).Some? ==>
      var l := s.sessions[id].Slot(side).value;
      l in s.legs && s.legs[l].session == id && s.legs[l].agent == side && s.legs[l].since.Some?
  }

  /** So does the peer a leg has looked up. */
  ghost predicate PeerWired(s: State, p: LegId)
    requires p in s.legs
  {
    s.legs[p].phase.Holding? && s.legs[p].phase.peer.Some? ==>
      Opposite(s, s.legs[p].phase.peer.value, p) && s.legs[s.legs[p].phase.peer.value].since.Some?
  }

  ghost predicate Wired(s: State) {
    && (forall id, side :: SlotWired(s, id, side))
    && (forall p | p in s.legs :: PeerWired(s, p))
  }

  /** Every relayed item comes from a leg of the same session and the other side; no leg is known before it connects. */
  ghost predicate SameSession(s: State, l: LegId)
    requires l in s.legs
  {
    && (forall item | item in s.legs[l].offered && item.Relayed? :: Opposite(s, l, item.from))
    && (s.legs[l].since.Some? ==> forall p | p in s.legs[l].since.value :: p in s.legs)
  }

  /** The flow from `p` to `l` is a segment of `p`'s messages, and all of them while `l` is in its slot. */
  ghost predicate Linked(s: State, l: LegId, p: LegId)
    requires l in s.legs && p in s.legs
  {
    && StartOf(s, l, p) <= s.legs[p].looked
    && Flow(s, l, p) <= Since(s, l, p)
    && (InSlot(s, l) && Opposite(s, l, p) ==> Flow(s, l, p) == Since(s, l, p))
  }

  ghost predicate Kept(s: State) {
    && (forall l | l in s.legs :: LegKept(s.legs[l]) && SameSession(s, l))
    && Wired(s)
    && (forall l, p | l in s.legs && p in s.legs :: Linked(s, l, p))
  }

  lemma FromSnoc(p: LegId, items: seq<Item>, item: Item)
    ensures From(p, items + [item]) == From(p, items) + if item.Relayed? && item.from == p then [item.msg] else []
    ensures Messages(items + [item]) == Messages(items) + if item.Relayed? then [item.msg] else []
  {
    assert (items + [item])[..|items|] == items;
  }

  /** What has to be compared for a step that leaves a pair's flow alone. */
  lemma SameLink(s: State, u: State, a: LegId, b: LegId)
    requires a in s.legs && b in s.legs && a in u.legs && b in u.legs && Linked(s, a, b)
    requires Flow(u, a, b) == Flow(s, a, b) && Since(u, a, b) == Since(s, a, b)
    requires StartOf(u, a, b) <= u.legs[b].looked
    requires InSlot(u, a) && Opposite(u, a, b) ==> InSlot(s, a) && Opposite(s, a, b)
    ensures Linked(u, a, b)
  {
  }

  /** A change to one leg that the flows do not see. */
  ghost predicate Quiet(a: Leg, b: Leg) {
    && a.session == b.session && a.agent == b.agent && a.looked == b.looked && a.since == b.since
    && a.offered == b.offered && a.received <= b.received
    && (a.phase == b.phase || (!a.phase.Holding? && !b.phase.Holding?))
  }

  lemma QuietKept(s: State, l: LegId, leg: Leg)
    requires Kept(s) && l in s.legs && Quiet(s.legs[l], leg) && LegKept(leg)
    ensures Kept(s.(legs := s.legs[l := leg]))
  {
    var u := s.(legs := s.legs[l := leg]);
    hide Linked, LegKept, SlotWired, PeerWired, SameSession, Quiet;
    forall a, b | a in u.legs && b in u.legs ensures Linked(u, a, b) {
      assert Linked(s, a, b) && LegKept(s.legs[b]);
      QuietLink(s, l, leg, a, b);
    }
    forall p | p in u.legs ensures PeerWired(u, p) { assert PeerWired(s, p); QuietPeer(s, l, leg, p); }
    forall id, side ensures SlotWired(u, id, side) { assert SlotWired(s, id, side); QuietSlot(s, l, leg, id, side); }
    forall a | a in u.legs ensures LegKept(u.legs[a]) && SameSession(u, a) {
      assert LegKept(s.legs[a]) && SameSession(s, a);
      QuietLeg(s, l, leg, a);
    }
  }

  lemma QuietLeg(s: State, l: LegId, leg: Leg, a: LegId)
    requires l in s.legs && Quiet(s.legs[l], leg) && a in s.legs && SameSession(s, a)
    ensures SameSession(s.(legs := s.legs[l := leg]), a)
  {
  }

  lemma QuietPeer(s: State, l: LegId, leg: Leg, p: LegId)
    requires l in s.legs && Quiet(s.legs[l], leg) && p in s.legs && PeerWired(s, p)
    ensures PeerWired(s.(legs := s.legs[l := leg]), p)
  {
  }

  lemma QuietSlot(s: State, l: LegId, leg: Leg, id: Id, side: bool)
    requires l in s.legs && Quiet(s.legs[l], leg) && SlotWired(s, id, side)
    ensures SlotWired(s.(legs := s.legs[l := leg]), id, side)
  {
  }

  lemma QuietLink(s: State, l: LegId, leg: Leg, a: LegId, b: LegId)
    requires l in s.legs && Quiet(s.legs[l], leg) && LegKept(leg)
    requires a in s.legs && b in s.legs && LegKept(s.legs[b]) && Linked(s, a, b)
    ensures Linked(s.(legs := s.legs[l := leg]), a, b)
  {
    hide From;
    var u := s.(legs := s.legs[l := leg]);
    assert Flow(u, a, b) == Flow(s, a, b);
    assert Since(u, a, b) == Since(s, a, b);
    SameLink(s, u, a, b);
  }

  /** Slots may lose their legs: a leg out of its slot only has to keep its segment. */
  lemma SlotsLost(s: State, sessions: map<Id, Session>)
    requires Kept(s)
    requires forall id | id in sessions
        :: sessions[id] == Session(None, None) || (id in s.sessions && sessions[id] == s.sessions[id])
    ensures Kept(s.(sessions := sessions))
  {
    var u := s.(sessions := sessions);
    forall a, b | a in u.legs && b in u.legs ensures Linked(u, a, b) {
      assert Linked(s, a, b);
      hide From;
      SameLink(s, u, a, b);
    }
    forall p | p in u.legs ensures PeerWired(u, p) { assert PeerWired(s, p); }
    forall id, side ensures SlotWired(u, id, side) { assert SlotWired(s, id, side); }
    forall a | a in u.legs ensures LegKept(u.legs[a]) && SameSession(u, a) {
      assert LegKept(s.legs[a]) && SameSession(s, a);
      hide LegKept;
    }
    hide Linked, LegKept, SlotWired, PeerWired, SameSession;
  }

  /** A channel operation of the leg itself: the flow into it gains at most a ping. */
  lemma PingKept(s: State, l: LegId)
    requires Kept(s) && l in s.legs && !s.legs[l].phase.Connected?
    ensures Kept(s.(legs := s.legs[l := Offer(s.legs[l], Ping)]))
  {
    var u := s.(legs := s.legs[l := Offer(s.legs[l], Ping)]);
    hide Linked, LegKept, SlotWired, PeerWired, SameSession, Offer;
    forall a, b | a in u.legs && b in u.legs ensures Linked(u, a, b) {
      assert Linked(s, a, b);
      PingLink(s, l, a, b);
    }
    forall p | p in u.legs ensures PeerWired(u, p) { assert PeerWired(s, p); PingPeer(s, l, p); }
    forall id, side ensures SlotWired(u, id, side) { assert SlotWired(s, id, side); PingSlot(s, l, id, side); }
    forall a | a in u.legs ensures LegKept(u.legs[a]) && SameSession(u, a) {
      assert LegKept(s.legs[a]) && LegKept(s.legs[l]) && SameSession(s, a);
      PingLeg(s.legs[l]);
      PingSource(s, l, a);
    }
  }

  lemma PingLeg(leg: Leg)
    requires LegKept(leg) && !leg.phase.Connected?
    ensures LegKept(Offer(leg, Ping))
  {
    FromSnoc(0, leg.offered, Ping);
  }

  lemma PingSource(s: State, l: LegId, a: LegId)
    requires l in s.legs && a in s.legs && SameSession(s, a)
    ensures SameSession(s.(legs := s.legs[l := Offer(s.legs[l], Ping)]), a)
  {
  }

  lemma PingPeer(s: State, l: LegId, p: LegId)
    requires l in s.legs && p in s.legs && PeerWired(s, p)
    ensures PeerWired(s.(legs := s.legs[l := Offer(s.legs[l], Ping)]), p)
  {
  }

  lemma PingSlot(s: State, l: LegId, id: Id, side: bool)
    requires l in s.legs && SlotWired(s, id, side)
    ensures SlotWired(s.(legs := s.legs[l := Offer(s.legs[l], Ping)]), id, side)
  {
  }

  lemma PingLink(s: State, l: LegId, a: LegId, b: LegId)
    requires l in s.legs && a in s.legs && b in s.legs && Linked(s, a, b)
    ensures Linked(s.(legs := s.legs[l := Offer(s.legs[l], Ping)]), a, b)
  {
    var u := s.(legs := s.legs[l := Offer(s.legs[l], Ping)]);
    FromSnoc(b, s.legs[l].offered, Ping);
    hide From;
    assert Flow(u, a, b) == Flow(s, a, b);
    SameLink(s, u, a, b);
  }

  lemma {:induction false} NothingFrom(p: LegId, items: seq<Item>)
    requires forall item | item in items && item.Relayed? :: item.from != p
    ensures From(p, items) == []
  {
    if |items| > 0 {
      NothingFrom(p, items[..|items| - 1]);
    }
  }

  /** A new connection has received nothing and is in no slot. */
  lemma ConnectKept(s: State, l: LegId, id: Id, agent: bool)
    requires Kept(s) && l !in s.legs
    ensures Kept(Next(s, Connect(l, id, agent)))
  {
    var u := Next(s, Connect(l, id, agent));
    forall id', side ensures SlotWired(u, id', side) {
      assert SlotWired(s, id', side);
      hide Linked, LegKept, SameSession;
    }
    forall p | p in u.legs ensures PeerWired(u, p) {
      assert p != l ==> PeerWired(s, p);
      hide Linked, LegKept, SameSession;
    }
    forall a | a in u.legs ensures LegKept(u.legs[a]) && SameSession(u, a) {
      assert a != l ==> LegKept(s.legs[a]) && SameSession(s, a);
      hide Linked, SlotWired, PeerWired;
    }
    hide Next;
    forall a, b | a in u.legs && b in u.legs ensures Linked(u, a, b) {
      assert a != l && b != l ==> Linked(s, a, b);
      assert a != l ==> SameSession(s, a);
      assert SlotWired(s, id, agent);
      assert b != l ==> PeerWired(s, b);
      ConnectLink(s, l, id, agent, a, b);
    }
    hide Linked, LegKept, SlotWired, PeerWired, SameSession;
  }

  lemma ConnectLink(s: State, l: LegId, id: Id, agent: bool, a: LegId, b: LegId)
    requires l !in s.legs && SlotWired(s, id, agent)
    requires (a == l || a in s.legs) && (b == l || b in s.legs)
    requires a != l && b != l ==> Linked(s, a, b)
    requires a != l ==> SameSession(s, a)
    requires b != l ==> PeerWired(s, b)
    ensures Linked(Next(s, Connect(l, id, agent)), a, b)
  {
    var u := Next(s, Connect(l, id, agent));
    if a == l {
      NothingFrom(b, []);
      hide From;
      assert Pending(u, a, b) == [] && !InSlot(u, a);
    } else if b == l {
      NothingFrom(l, s.legs[a].offered);
      hide From;
    } else {
      hide From;
      SameLink(s, u, a, b);
    }
  }

  lemma RegisterKept(s: State, l: LegId)
    requires Kept(s) && l in s.legs && s.legs[l].phase.Connected?
    ensures Kept(Registered(s, l))
  {
    var u := Registered(s, l);
    assert forall k :: k in u.legs <==> k in s.legs;
    hide Registered, Linked, LegKept, SlotWired, PeerWired, SameSession;
    forall a, b | a in u.legs && b in u.legs ensures Linked(u, a, b) {
      assert Linked(s, a, b) && LegKept(s.legs[b]) && LegKept(s.legs[l]) && PeerWired(s, b);
      RegisterLink(s, l, a, b);
    }
    forall p | p in u.legs ensures PeerWired(u, p) {
      assert PeerWired(s, p) && PeerWired(s, l) && SlotWired(s, s.legs[l].session, !s.legs[l].agent)
          && LegKept(s.legs[l]);
      RegisterPeer(s, l, p);
    }
    forall id, side ensures SlotWired(u, id, side) {
      assert SlotWired(s, id, side) && LegKept(s.legs[l]);
      RegisterSlot(s, l, id, side);
    }
    forall a | a in u.legs ensures LegKept(u.legs[a]) && SameSession(u, a) {
      assert LegKept(s.legs[a]) && LegKept(s.legs[l]) && SameSession(s, a) && PeerWired(s, l);
      RegisterLeg(s, l, a);
    }
  }

  lemma RegisterPeer(s: State, l: LegId, p: LegId)
    requires l in s.legs && s.legs[l].phase.Connected? && LegKept(s.legs[l])
    requires PeerWired(s, l) && SlotWired(s, s.legs[l].session, !s.legs[l].agent)
    requires p in s.legs && PeerWired(s, p)
    ensures p in Registered(s, l).legs && PeerWired(Registered(s, l), p)
  {
  }

  lemma RegisterSlot(s: State, l: LegId, id: Id, side: bool)
    requires l in s.legs && s.legs[l].phase.Connected? && LegKept(s.legs[l]) && SlotWired(s, id, side)
    ensures SlotWired(Registered(s, l), id, side)
  {
  }

  lemma RegisterLeg(s: State, l: LegId, a: LegId)
    requires l in s.legs && s.legs[l].phase.Connected? && a in s.legs && LegKept(s.legs[a]) && SameSession(s, a)
    ensures LegKept(Registered(s, l).legs[a]) && SameSession(Registered(s, l), a)
  {
  }

  /** A registering leg starts its segments where its senders stand. */
  lemma RegisterLink(s: State, l: LegId, a: LegId, b: LegId)
    requires l in s.legs && s.legs[l].phase.Connected? && LegKept(s.legs[l])
    requires a in s.legs && b in s.legs && LegKept(s.legs[b]) && PeerWired(s, b) && Linked(s, a, b)
    ensures Linked(Registered(s, l), a, b)
  {
    var u := Registered(s, l);
    assert Pending(u, a, b) == Pending(s, a, b);
    hide From;
    assert Flow(u, a, b) == Flow(s, a, b);
    if a == l {
      assert From(b, []) == [] by { NothingFrom(b, []); }
      assert Flow(u, a, b) == [];
    } else {
      SameLink(s, u, a, b);
    }
  }

  lemma LookupKept(s: State, l: LegId)
    requires Kept(s) && l in s.legs && s.legs[l].phase.Got?
    ensures Kept(LookedUp(s, l))
  {
    var u := LookedUp(s, l);
    assert forall k :: k in u.legs <==> k in s.legs;
    hide LookedUp, Linked, LegKept, SlotWired, PeerWired, SameSession;
    forall a, b | a in u.legs && b in u.legs ensures Linked(u, a, b) {
      assert Linked(s, a, b) && LegKept(s.legs[l]) && SlotWired(s, s.legs[l].session, !s.legs[l].agent);
      LookupLink(s, l, a, b);
    }
    forall p | p in u.legs ensures PeerWired(u, p) {
      assert PeerWired(s, p) && PeerWired(s, l) && SlotWired(s, s.legs[l].session, !s.legs[l].agent)
          && LegKept(s.legs[l]);
      LookupPeer(s, l, p);
    }
    forall id, side ensures SlotWired(u, id, side) {
      assert SlotWired(s, id, side) && LegKept(s.legs[l]);
      LookupSlot(s, l, id, side);
    }
    forall a | a in u.legs ensures LegKept(u.legs[a]) && SameSession(u, a) {
      assert LegKept(s.legs[a]) && LegKept(s.legs[l]) && SameSession(s, a) && PeerWired(s, l);
      LookupLeg(s, l, a);
    }
  }

  lemma LookupPeer(s: State, l: LegId, p: LegId)
    requires l in s.legs && s.legs[l].phase.Got? && LegKept(s.legs[l])
    requires PeerWired(s, l) && SlotWired(s, s.legs[l].session, !s.legs[l].agent)
    requires p in s.legs && PeerWired(s, p)
    ensures p in LookedUp(s, l).legs && PeerWired(LookedUp(s, l), p)
  {
  }

  lemma LookupSlot(s: State, l: LegId, id: Id, side: bool)
    requires l in s.legs && s.legs[l].phase.Got? && LegKept(s.legs[l]) && SlotWired(s, id, side)
    ensures SlotWired(LookedUp(s, l), id, side)
  {
  }

  lemma LookupLeg(s: State, l: LegId, a: LegId)
    requires l in s.legs && s.legs[l].phase.Got? && a in s.legs && LegKept(s.legs[a]) && SameSession(s, a)
    ensures LegKept(LookedUp(s, l).legs[a]) && SameSession(LookedUp(s, l), a)
  {
  }

  /** The looked-up message joins the flow to the leg in the slot, and to no other. */
  lemma LookupLink(s: State, l: LegId, a: LegId, b: LegId)
    requires l in s.legs && s.legs[l].phase.Got? && LegKept(s.legs[l])
    requires SlotWired(s, s.legs[l].session, !s.legs[l].agent)
    requires a in s.legs && b in s.legs && Linked(s, a, b)
    ensures Linked(LookedUp(s, l), a, b)
  {
    hide From;
    var u := LookedUp(s, l);
    if b == l && s.legs[l].session in s.sessions {
      LookupSelf(s, l, a);
    } else {
      assert Flow(u, a, b) == Flow(s, a, b) && Since(u, a, b) == Since(s, a, b);
      SameLink(s, u, a, b);
    }
  }

  lemma LookupSelf(s: State, l: LegId, a: LegId)
    requires l in s.legs && s.legs[l].phase.Got? && LegKept(s.legs[l]) && s.legs[l].session in s.sessions
    requires SlotWired(s, s.legs[l].session, !s.legs[l].agent)
    requires a in s.legs && Linked(s, a, l)
    ensures Linked(LookedUp(s, l), a, l)
  {
    hide From;
    var u := LookedUp(s, l);
    var leg := s.legs[l];
    var n := StartOf(s, a, l);
    assert Since(u, a, l) == Since(s, a, l) + [leg.phase.msg] by {
      assert leg.received[n..leg.looked + 1] == leg.received[n..leg.looked] + [leg.phase.msg];
    }
    assert Flow(s, a, l) == From(l, s.legs[a].offered);
    if InSlot(s, a) && Opposite(s, a, l) {
      assert Flow(u, a, l) == Flow(s, a, l) + [leg.phase.msg];
    } else {
      assert Pending(u, a, l) == [];
      assert Flow(u, a, l) == Flow(s, a, l);
    }
  }

  lemma SendKept(s: State, l: LegId)
    requires Kept(s) && l in s.legs && s.legs[l].phase.Holding?
    ensures Kept(Sent(s, l))
  {
    var u := Sent(s, l);
    assert forall k :: k in u.legs <==> k in s.legs;
    hide Sent, Linked, LegKept, SlotWired, PeerWired, SameSession;
    forall a, b | a in u.legs && b in u.legs ensures Linked(u, a, b) {
      assert Linked(s, a, b) && PeerWired(s, l);
      SendLink(s, l, a, b);
    }
    forall p | p in u.legs ensures PeerWired(u, p) {
      assert PeerWired(s, p) && PeerWired(s, l) && SlotWired(s, s.legs[l].session, !s.legs[l].agent)
          && LegKept(s.legs[l]);
      SendPeer(s, l, p);
    }
    forall id, side ensures SlotWired(u, id, side) {
      assert SlotWired(s, id, side) && LegKept(s.legs[l]);
      SendSlot(s, l, id, side);
    }
    forall a | a in u.legs ensures LegKept(u.legs[a]) && SameSession(u, a) {
      assert LegKept(s.legs[a]) && LegKept(s.legs[l]) && SameSession(s, a) && PeerWired(s, l);
      SendLeg(s, l, a);
    }
  }

  lemma SendPeer(s: State, l: LegId, p: LegId)
    requires l in s.legs && s.legs[l].phase.Holding? && LegKept(s.legs[l])
    requires PeerWired(s, l) && SlotWired(s, s.legs[l].session, !s.legs[l].agent)
    requires p in s.legs && PeerWired(s, p)
    ensures p in Sent(s, l).legs && PeerWired(Sent(s, l), p)
  {
  }

  lemma SendSlot(s: State, l: LegId, id: Id, side: bool)
    requires l in s.legs && s.legs[l].phase.Holding? && LegKept(s.legs[l]) && SlotWired(s, id, side)
    ensures SlotWired(Sent(s, l), id, side)
  {
  }

  lemma OfferLeg(leg: Leg, item: Item)
    requires LegKept(leg) && leg.since.Some?
    ensures LegKept(Offer(leg, item))
  {
  }

  lemma SendLeg(s: State, l: LegId, a: LegId)
    requires l in s.legs && s.legs[l].phase.Holding? && LegKept(s.legs[l]) && PeerWired(s, l)
    requires a in s.legs && LegKept(s.legs[a]) && SameSession(s, a)
    ensures LegKept(Sent(s, l).legs[a]) && SameSession(Sent(s, l), a)
  {
    var peer := s.legs[l].phase.peer;
    if peer == Some(a) {
      OfferLeg(s.legs[a], Relayed(l, s.legs[l].phase.held));
      hide LegKept;
    }
  }

  /** A send turns the pending message into an offered one, or drops one that has no peer. */
  lemma SendLink(s: State, l: LegId, a: LegId, b: LegId)
    requires l in s.legs && s.legs[l].phase.Holding? && PeerWired(s, l)
    requires a in s.legs && b in s.legs && Linked(s, a, b)
    ensures Linked(Sent(s, l), a, b)
  {
    var u := Sent(s, l);
    SendFlow(s, l, a, b);
    SendRest(s, l, a);
    SendRest(s, l, b);
    hide Sent, From, Flow;
    SameLink(s, u, a, b);
  }

  lemma SendRest(s: State, l: LegId, k: LegId)
    requires l in s.legs && s.legs[l].phase.Holding? && k in s.legs
    ensures Sent(s, l).sessions == s.sessions && k in Sent(s, l).legs
    ensures var a, b := s.legs[k], Sent(s, l).legs[k];
            a.session == b.session && a.agent == b.agent && a.looked == b.looked && a.received == b.received
                && a.since == b.since
  {
  }

  lemma SendOffered(s: State, l: LegId, a: LegId)
    requires l in s.legs && s.legs[l].phase.Holding? && a in s.legs
    ensures a in Sent(s, l).legs && Sent(s, l).legs[a].offered
         == s.legs[a].offered + if s.legs[l].phase.peer == Some(a) then [Relayed(l, s.legs[l].phase.held)] else []
  {
  }

  lemma SendPending(s: State, l: LegId, a: LegId, b: LegId)
    requires l in s.legs && s.legs[l].phase.Holding? && b in s.legs
    ensures b in Sent(s, l).legs && Pending(Sent(s, l), a, b) == if b == l then [] else Pending(s, a, b)
  {
  }

  lemma SendFlow(s: State, l: LegId, a: LegId, b: LegId)
    requires l in s.legs && s.legs[l].phase.Holding? && a in s.legs && b in s.legs
    ensures a in Sent(s, l).legs && b in Sent(s, l).legs && Flow(Sent(s, l), a, b) == Flow(s, a, b)
  {
    var held := s.legs[l].phase.held;
    var was := s.legs[a].offered;
    SendOffered(s, l, a);
    SendPending(s, l, a, b);
    FromSnoc(b, was, Relayed(l, held));
    hide Sent, From;
    assert was + [] == was;
  }

  lemma RemoveKept(s: State, l: LegId)
    requires Kept(s) && l in s.legs && s.legs[l].phase.Aborted?
    ensures Kept(State(s.sessions - {s.legs[l].session}, s.legs[l := s.legs[l].(phase := Gone)]))
  {
    assert LegKept(s.legs[l]);
    QuietKept(s, l, s.legs[l].(phase := Gone));
    hide Kept;
    SlotsLost(s.(legs := s.legs[l := s.legs[l].(phase := Gone)]), s.sessions - {s.legs[l].session});
  }

  lemma NextKept(s: State, t: Step)
    requires Kept(s)
    ensures Kept(Next(s, t))
  {
    match t
    case Create(id) => SlotsLost(s, s.sessions[id := Session(None, None)]);
    case Connect(l, id, agent) => if l !in s.legs { ConnectKept(s, l, id, agent); }
    case _ => if t.leg in s.legs { OnLegKept(s, t.leg, t); }
  }

  lemma OnLegKept(s: State, l: LegId, t: Step)
    requires Kept(s) && l in s.legs
    ensures Kept(OnLeg(s, l, t))
  {
    var leg := s.legs[l];
    var u := OnLeg(s, l, t);
    assert LegKept(leg);
    if t.Register? && leg.phase.Connected? {
      RegisterKept(s, l);
    } else if t.Lookup? && leg.phase.Got? {
      LookupKept(s, l);
    } else if t.Send? && leg.phase.Holding? {
      SendKept(s, l);
    } else if t.Remove? && leg.phase.Aborted? {
      RemoveKept(s, l);
    } else if t.KeepAlive? && leg.open && !leg.phase.Connected? {
      PingKept(s, l);
    } else if u != s {
      QuietStep(s, l, t);
      QuietKept(s, l, u.legs[l]);
    }
  }

  lemma QuietStep(s: State, l: LegId, t: Step)
    requires l in s.legs && LegKept(s.legs[l])
    requires t.Receive? || t.End? || t.Forward? || t.ForwardFails? || t.Abort? || t.Stop?
    requires OnLeg(s, l, t) != s
    ensures var leg := OnLeg(s, l, t).legs[l];
            OnLeg(s, l, t) == s.(legs := s.legs[l := leg]) && Quiet(s.legs[l], leg) && LegKept(leg)
  {
    hide Messages;
    if t.Forward? {
      ForwardLeg(s.legs[l]);
      hide LegKept;
    }
  }

  lemma ForwardLeg(leg: Leg)
    requires LegKept(leg) && leg.open && |leg.queue| > 0
    ensures LegKept(leg.(queue := leg.queue[1..], delivered := leg.delivered + [leg.queue[0]]))
  {
    var d := leg.delivered + [leg.queue[0]];
    assert d + leg.queue[1..] == leg.offered;
    assert d <= d + leg.queue[1..];
  }

  lemma {:induction false} RunKept(steps: seq<Step>)
    ensures Kept(Run(steps))
  {
    if |steps| > 0 {
      hide Kept, Next;
      RunKept(steps[..|steps| - 1]);
      NextKept(Run(steps[..|steps| - 1]), steps[|steps| - 1]);
    } else {
      hide Next;
    }
  }

  // ---------------------------------------------------------------- what a leg gets

  /** The messages among the items, when all of them come from one leg. */
  lemma {:induction false} OneSource(p: LegId, items: seq<Item>)
    requires forall item | item in items && item.Relayed? :: item.from == p
    ensures Messages(items) == From(p, items)
  {
    if |items| > 0 {
      OneSource(p, items[..|items| - 1]);
    }
  }

  lemma {:induction false} PrefixFrom(p: LegId, a: seq<Item>, b: seq<Item>)
    requires a <= b
    ensures From(p, a) <= From(p, b)
    decreases |b|
  {
    if |a| < |b| {
      PrefixFrom(p, a, b[..|b| - 1]);
    } else {
      assert a == b;
    }
  }

  /** No message crosses sessions or comes back to its own side, in any run. */
  lemma DeliveredFromPeer(steps: seq<Step>, l: LegId, item: Item)
    requires l in Run(steps).legs && item in Run(steps).legs[l].delivered && item.Relayed?
    ensures Opposite(Run(steps), l, item.from)
  {
    RunKept(steps);
    var s := Run(steps);
    hide Run;
    assert LegKept(s.legs[l]) && SameSession(s, l);
    assert item in s.legs[l].offered;
  }

  /**
   * Relay delivery over all interleavings: what a leg was written from a given peer is a
   * segment, in order and without gap or duplicate, of what that peer sent, beginning at the
   * leg's registration. This needs no assumption about other legs.
   */
  lemma DeliveredIsSegment(steps: seq<Step>, l: LegId, p: LegId)
    requires l in Run(steps).legs && p in Run(steps).legs
    ensures var s := Run(steps); var n := StartOf(s, l, p); var d := From(p, s.legs[l].delivered);
            n + |d| <= s.legs[p].looked <= |s.legs[p].received| && d == s.legs[p].received[n..n + |d|]
  {
    RunKept(steps);
    var s := Run(steps);
    hide Run, From, Messages, SameSession, Wired;
    assert LegKept(s.legs[l]) && LegKept(s.legs[p]) && Linked(s, l, p);
    PrefixFrom(p, s.legs[l].delivered, s.legs[l].offered);
    var d, f := From(p, s.legs[l].delivered), Flow(s, l, p);
    assert d <= From(p, s.legs[l].offered) <= f <= Since(s, l, p);
    assert d == Since(s, l, p)[..|d|];
  }

  /** With one leg on the other side, the segment is everything relayed to the leg. */
  lemma OnlyPeer(steps: seq<Step>, l: LegId, p: LegId)
    requires l in Run(steps).legs && Opposite(Run(steps), l, p)
    requires forall q | Opposite(Run(steps), l, q) :: q == p
    ensures var leg := Run(steps).legs[l]; Messages(leg.delivered) == From(p, leg.delivered)
  {
    forall item | item in Run(steps).legs[l].delivered && item.Relayed?
      ensures item.from == p
    {
      DeliveredFromPeer(steps, l, item);
    }
    OneSource(p, Run(steps).legs[l].delivered);
  }

  /**
   * Nothing is lost while the leg is in its slot and its forwarder runs: what was written, what
   * is queued and what a peer is about to send are all of the peer's messages since registration.
   */
  lemma NothingLost(steps: seq<Step>, l: LegId, p: LegId)
    requires Opposite(Run(steps), l, p) && InSlot(Run(steps), l) && Run(steps).legs[l].open
    ensures var s := Run(steps); var n := StartOf(s, l, p);
            && n <= s.legs[p].looked <= |s.legs[p].received|
            && From(p, s.legs[l].delivered + s.legs[l].queue) + Pending(s, l, p)
               == s.legs[p].received[n..s.legs[p].looked]
  {
    RunKept(steps);
    var s := Run(steps);
    hide Run;
    assert LegKept(s.legs[l]) && LegKept(s.legs[p]) && Linked(s, l, p);
  }

  /** Out of its slot, a leg is directed nothing more: the segment ends there. */
  lemma FlowEnds(steps: seq<Step>, t: Step, l: LegId, p: LegId)
    requires l in Run(steps).legs && p in Run(steps).legs && !InSlot(Run(steps), l)
    ensures var s, u := Run(steps), Next(Run(steps), t);
            l in u.legs && p in u.legs && Flow(u, l, p) == Flow(s, l, p)
  {
    RunKept(steps);
    var s := Run(steps);
    hide Run;
    match t
    case Create(_) =>
    case Connect(_, _, _) => hide From;
    case _ => if t.leg in s.legs {
      assert SlotWired(s, s.legs[p].session, !s.legs[p].agent);
      FlowEndsOnLeg(s, t.leg, t, l, p);
    }
  }

  lemma FlowEndsOnLeg(s: State, k: LegId, t: Step, l: LegId, p: LegId)
    requires k in s.legs && l in s.legs && p in s.legs && !InSlot(s, l)
    requires SlotWired(s, s.legs[p].session, !s.legs[p].agent)
    ensures var u := OnLeg(s, k, t); l in u.legs && p in u.legs && Flow(u, l, p) == Flow(s, l, p)
  {
    var u := OnLeg(s, k, t);
    if t.Send? && s.legs[k].phase.Holding? {
      SendFlow(s, k, l, p);
    } else {
      FromSnoc(p, s.legs[l].offered, Ping);
      hide From;
      assert Pending(u, l, p) == Pending(s, l, p);
    }
  }

  /** A leg that is out of its slot once it has attached never comes back to it. */
  lemma NeverBack(s: State, t: Step, l: LegId)
    requires l in s.legs && !s.legs[l].phase.Connected? && !InSlot(s, l)
    ensures l in Next(s, t).legs && !Next(s, t).legs[l].phase.Connected? && !InSlot(Next(s, t), l)
  {
  }

  /**
   * Taking a session away does not take back what was queued: the forwarder of a leg that is
   * gone still writes the next message, up to its stop and not after.
   */
  lemma LateWrite(s: State, l: LegId, item: Item, rest: seq<Item>)
    requires l in s.legs && s.legs[l].phase.Aborted? && s.legs[l].open && s.legs[l].queue == [item] + rest
    ensures var gone := Next(s, Remove(l));
            var late, stopped := Next(gone, Forward(l)), Next(Next(gone, Stop(l)), Forward(l));
            && s.legs[l].session !in late.sessions
            && late.legs[l].delivered == s.legs[l].delivered + [item]
            && stopped.legs[l].delivered == s.legs[l].delivered
  {
    var leg := s.legs[l].(phase := Gone);
    assert Next(s, Remove(l)) == State(s.sessions - {leg.session}, s.legs[l := leg]);
    var closed := leg.(open := false, queue := []);
    assert Next(Next(s, Remove(l)), Stop(l)).legs[l] == closed;
  }

  /** A leg that attached while its session did not exist is written nothing but pings. */
  lemma AttachedTooEarly(steps: seq<Step>, l: LegId)
    requires l in Run(steps).legs && Run(steps).legs[l].since.None?
    ensures Messages(Run(steps).legs[l].delivered) == []
  {
    RunKept(steps);
    var leg := Run(steps).legs[l];
    hide Run;
    assert LegKept(leg);
    PrefixMessages(leg.delivered, leg.offered);
  }

  lemma {:induction false} PrefixMessages(a: seq<Item>, b: seq<Item>)
    requires a <= b
    ensures Messages(a) <= Messages(b)
    decreases |b|
  {
    if |a| < |b| {
      PrefixMessages(a, b[..|b| - 1]);
    } else {
      assert a == b;
    }
  }

  /** The leg has been written a peer's message. */
  ghost predicate Hears(s: State, l: LegId) { l in s.legs && Messages(s.legs[l].delivered) != [] }

  lemma RunSnoc(steps: seq<Step>, t: Step)
    ensures Run(steps + [t]) == Next(Run(steps), t)
  {
    assert (steps + [t])[..|steps|] == steps;
    hide Next;
  }

  /** What is set on registration is never changed. */
  lemma {:induction false} SinceStays(base: seq<Step>, more: seq<Step>, l: LegId)
    requires l in Run(base).legs && !Run(base).legs[l].phase.Connected?
    ensures l in Run(base + more).legs && !Run(base + more).legs[l].phase.Connected?
    ensures Run(base + more).legs[l].since == Run(base).legs[l].since
    decreases |more|
  {
    hide Run;
    if |more| == 0 {
      assert base + more == base;
    } else {
      var n := |more| - 1;
      SinceStays(base, more[..n], l);
      RunSnoc(base + more[..n], more[n]);
      assert base + more[..n] + [more[n]] == base + more;
      SinceKept(Run(base + more[..n]), more[n], l);
    }
  }

  lemma SinceKept(s: State, t: Step, l: LegId)
    requires l in s.legs && !s.legs[l].phase.Connected?
    ensures l in Next(s, t).legs && !Next(s, t).legs[l].phase.Connected? && Next(s, t).legs[l].since == s.legs[l].since
  {
  }

  /** A message from a reading peer to a leg in its slot with an empty channel, step by step. */
  function Message4(l: LegId, p: LegId, m: Message): seq<Step> { [Receive(p, m), Lookup(p), Send(p), Forward(l)] }

  lemma OneMessage(s: State, l: LegId, p: LegId, m: Message)
    requires Opposite(s, l, p) && InSlot(s, l) && s.legs[l].open && s.legs[l].queue == [] && s.legs[l].delivered == []
    requires s.legs[p].phase.Reading?
    ensures Hears(Next(Next(Next(Next(s, Receive(p, m)), Lookup(p)), Send(p)), Forward(l)), l)
  {
    var s1 := Next(s, Receive(p, m));
    var got := s.legs[p].(phase := Got(m), received := s.legs[p].received + [m]);
    assert s1 == s.(legs := s.legs[p := got]);
    var s2 := Next(s1, Lookup(p));
    assert s2.legs[p].phase == Holding(m, Some(l)) && s2.legs[l] == s.legs[l];
    var item := Relayed(p, m);
    var s3 := Next(s2, Send(p));
    assert s3.legs[l].queue == [item] && s3.legs[l].delivered == [] && s3.legs[l].open;
    FromSnoc(p, [], item);
    assert [] + [item] == [item];
  }

  /**
   * A leg can be written a message of a peer, sooner or later, exactly when its session exists
   * at the moment it registers.
   */
  lemma HearsExactlyWhen(steps: seq<Step>, l: LegId, p: LegId)
    requires Opposite(Run(steps), l, p) && Run(steps).legs[l].phase.Connected? && Run(steps).legs[p].phase.Reading?
    ensures (exists more: seq<Step> :: Hears(Run(steps + [Register(l)] + more), l))
       <==> Run(steps).legs[l].session in Run(steps).sessions
  {
    var s, base := Run(steps), steps + [Register(l)];
    RunKept(steps);
    assert LegKept(s.legs[l]);
    RunSnoc(steps, Register(l));
    var u := Next(s, Register(l));
    if s.legs[l].session in s.sessions {
      assert InSlot(u, l) && Opposite(u, l, p) && u.legs[p] == s.legs[p];
      hide Run, Next, Opposite, InSlot;
      OneMessage(u, l, p, 0);
      var more := Message4(l, p, 0);
      FourSnoc(base, more[0], more[1], more[2], more[3]);
    } else {
      assert u.legs[l].since.None? && !u.legs[l].phase.Connected?;
      hide Run, Next;
      forall more: seq<Step> ensures !Hears(Run(base + more), l) {
        SinceStays(base, more, l);
        AttachedTooEarly(base + more, l);
      }
    }
  }

  lemma FourSnoc(base: seq<Step>, a: Step, b: Step, c: Step, d: Step)
    ensures Run(base + [a, b, c, d]) == Next(Next(Next(Next(Run(base), a), b), c), d)
  {
    hide Run, Next;
    RunSnoc(base, a);
    RunSnoc(base + [a], b);
    RunSnoc(base + [a] + [b], c);
    RunSnoc(base + [a] + [b] + [c], d);
    assert base + [a] + [b] + [c] + [d] == base + [a, b, c, d];
  }

  /** A run in which the agent's leg attaches before the session is created. */
  function EarlyAgent(m: Message): seq<Step> {
    [Connect(0, 7, true), Register(0), Create(7), Connect(1, 7, false), Register(1), Receive(1, m), Lookup(1), Send(1)]
  }

  /**
   * The coordinator tells the agent that its tunnel is ready before it creates the session, so
   * that run can happen: both legs are attached, and the client's message goes nowhere.
   */
  lemma EarlyAgentIsDeaf(m: Message)
    ensures var s := Run(EarlyAgent(m));
            0 in s.legs && 1 in s.legs && Opposite(s, 0, 1) && s.legs[0].phase.Reading? && s.legs[1].phase.Reading?
            && 7 in s.sessions && s.legs[1].received == [m] && s.legs[0].offered == []
  {
    var r := EarlyAgent(m);
    EarlyStart(m);
    NobodyHears(Run(r[..5]), m);
    Unrolled(r, 5);
    Unrolled(r, 6);
    Unrolled(r, 7);
    hide Run, Next;
    assert r[..8] == r;
  }

  lemma NobodyHears(s: State, m: Message)
    requires 1 in s.legs && s.legs[1].phase.Reading? && s.legs[1].received == [] && !s.legs[1].agent
    requires s.legs[1].session in s.sessions && s.sessions[s.legs[1].session].agent == None
    ensures Next(Next(Next(s, Receive(1, m)), Lookup(1)), Send(1))
         == s.(legs := s.legs[1 := s.legs[1].(received := [m], looked := s.legs[1].looked + 1)])
  {
    assert [] + [m] == [m];
    var heard := s.legs[1].(phase := Got(m), received := [m]);
    var s1 := Next(s, Receive(1, m));
    assert s1 == s.(legs := s.legs[1 := heard]);
    var s2 := Next(s1, Lookup(1));
    assert s2 == s.(legs := s.legs[1 := heard.(phase := Holding(m, None), looked := heard.looked + 1)]);
  }

  lemma EarlyStart(m: Message)
    ensures Run(EarlyAgent(m)[..5])
         == State(map[7 := Session(None, Some(1))],
                  map[0 := Leg(7, true, Reading, [], 0, true, [], [], [], None),
                      1 := Leg(7, false, Reading, [], 0, true, [], [], [], Some(map[0 := 0, 1 := 0]))])
  {
    var r := EarlyAgent(m);
    var s3 := Next(Next(Next(START, r[0]), r[1]), r[2]);
    assert s3 == State(map[7 := Session(None, None)], map[0 := Leg(7, true, Reading, [], 0, true, [], [], [], None)]);
    var s4 := Next(s3, r[3]);
    assert Progress(s4.legs) == map[0 := 0, 1 := 0];
    assert Next(s4, r[4]).legs[1] == Leg(7, false, Reading, [], 0, true, [], [], [], Some(map[0 := 0, 1 := 0]));
    assert Next(s4, r[4]) == State(map[7 := Session(None, Some(1))],
                                   map[0 := s3.legs[0], 1 := Next(s4, r[4]).legs[1]]);
    Unrolled(r, 0);
    Unrolled(r, 1);
    Unrolled(r, 2);
    Unrolled(r, 3);
    Unrolled(r, 4);
    hide Run, Next;
    assert r[..0] == [];
  }

  lemma Unrolled(r: seq<Step>, n: nat)
    requires n < |r|
    ensures Run(r[..n + 1]) == Next(Run(r[..n]), r[n])
    ensures n == 0 ==> Run(r[..0]) == START
  {
    assert r[..n + 1][..n] == r[..n];
  }

  // ---------------------------------------------------------------- the hub object

  /** The hub's map and its legs; each method is one critical section or channel operation. */
  class RelayHub {
    var sessions: map<Id, Session>
    var legs: map<LegId, Leg>

    ghost function Current(): State
      reads this
    {
      State(sessions, legs)
    }

    constructor ()
      ensures Current() == START
    {
      sessions, legs := map[], map[];
    }

    method CreateSession(id: Id)
      modifies this
      ensures Current() == Next(old(Current()), Create(id))
    {
      sessions := sessions[id := Session(None, None)];
    }

    /** The sender goes into the session's slot if the session is there. */
    method Attach(l: LegId)
      requires l in legs && legs[l].phase.Connected?
      modifies this
      ensures Current() == Next(old(Current()), Register(l))
    {
      var leg := legs[l].(phase := Reading);
      if leg.session in sessions {
        var s := sessions[leg.session];
        sessions := sessions[leg.session := if leg.agent then s.(agent := Some(l)) else s.(client := Some(l))];
        leg := leg.(since := Some(Progress(legs)));
      }
      legs := legs[l := leg];
    }

    /** Under the map's read lock and the session's lock: the peer's sender, if it has one. */
    method LookUpPeer(l: LegId)
      requires l in legs && legs[l].phase.Got?
      modifies this
      ensures Current() == Next(old(Current()), Lookup(l))
    {
      var leg := legs[l];
      if leg.session !in sessions {
        legs := legs[l := leg.(phase := Closing)];
        return;
      }
      var s := sessions[leg.session];
      var peer := if leg.agent then s.client else s.agent;
      legs := legs[l := leg.(phase := Holding(leg.phase.msg, peer), looked := leg.looked + 1)];
    }

    method SendToPeer(l: LegId)
      requires l in legs && legs[l].phase.Holding?
      modifies this
      ensures Current() == Next(old(Current()), Send(l))
    {
      var leg := legs[l];
      legs := legs[l := leg.(phase := Reading)];
      var peer := leg.phase.peer;
      if peer.Some? && peer.value in legs {
        legs := legs[peer.value := Offer(legs[peer.value], Relayed(l, leg.phase.held))];
      }
    }

    /**
     * The end of `bridge_leg`: the forwarder and the timer are told to stop, then the session
     * goes for both sides. Neither call waits until they have stopped.
     */
    method Detach(l: LegId)
      requires l in legs && legs[l].phase.Closing?
      modifies this
      ensures Current() == Next(Next(old(Current()), Abort(l)), Remove(l))
      ensures legs[l].session !in sessions
    {
      var leg := legs[l].(phase := Aborted);
      legs := legs[l := leg];
      sessions := sessions - {leg.session};
      legs := legs[l := leg.(phase := Gone)];
    }
  }
}
