/**
 * The connection lifecycle of an RFB object: the state it is in, the disconnect timer, the
 * socket handlers and the events given to the application. Socket events, timeouts, failures of
 * a message handler and the user's disconnect arrive in any order; the socket reports its close
 * later than the call that asks for it.
 */
module Lifecycle {
  datatype Phase = Initial | Connecting | Connected | Disconnecting | Disconnected

  datatype Notice = ConnectNotice | DisconnectNotice(clean: bool)

  /** `negotiating` is the init state having left the empty string. */
  datatype State = State(
    phase: Phase, negotiating: bool, timer: bool, clean: bool,
    openOn: bool, closeOn: bool, notices: seq<Notice>)

  const START := State(Initial, false, false, true, true, true, [])

  /** How the channel stands that a constructor is given. */
  datatype Channel = Url | RawConnecting | RawOpen | RawClosed

  datatype Input =
    | Begin(channel: Channel)
    | SocketOpen
    | SocketClose
    | Initialised
    | Failure
    | Timeout
    | UserDisconnect

  function Rank(p: Phase): nat {
    match p
    case Initial => 0
    case Connecting => 1
    case Connected => 2
    case Disconnecting => 3
    case Disconnected => 4
  }

  /** The transitions that `_updateConnectionState` lets through. */
  predicate Proper(from: Phase, to: Phase) {
    match to
    case Initial => false
    case Connecting => from == Initial
    case Connected => from == Connecting
    case Disconnecting => from == Connected || from == Connecting
    case Disconnected => from == Disconnecting
  }

  function Update(s: State, to: Phase): State {
    if !Proper(s.phase, to) then s else
      var t := s.(phase := to);
      var u := if t.timer && to != Disconnecting then t.(timer := false, closeOn := false) else t;
      match to
      case Connected => u.(notices := u.notices + [ConnectNotice])
      case Disconnecting => u.(timer := true)
      case Disconnected => u.(notices := u.notices + [DisconnectNotice(u.clean)])
      case _ => u
  }

  function Fail(s: State): State {
    Update(Update(s.(clean := false), Disconnecting), Disconnected)
  }

  function Open(s: State): State {
    if s.phase == Connecting && !s.negotiating then s.(negotiating := true) else Fail(s)
  }

  function Close(s: State): State {
    var t := match s.phase
      case Connected => Update(Update(s, Disconnecting), Disconnected)
      case Disconnecting => Update(s, Disconnected)
      case _ => Fail(s);
    t.(closeOn := false)
  }

  function Step(s: State, i: Input): State {
    match i
    case Begin(channel) =>
      if s.phase != Initial then s
      else if channel == RawOpen then Open(Update(s, Connecting))
      else Update(s, Connecting)
    case SocketOpen => if s.openOn then Open(s) else s
    case SocketClose => if s.closeOn then Close(s) else s
    case Initialised => Update(s, Connected)
    case Failure => Fail(s)
    case Timeout => if s.timer then Update(s, Disconnected) else s
    case UserDisconnect => Update(s, Disconnecting).(openOn := false)
  }

  function Run(s: State, inputs: seq<Input>): State {
    if |inputs| == 0 then s else Step(Run(s, inputs[..|inputs| - 1]), inputs[|inputs| - 1])
  }

  // ---------------------------------------------------------------- what every run keeps

  /** The notices so far, the timer and the close handler follow from the phase. */
  ghost predicate Kept(s: State) {
    && (s.timer <==> s.phase == Disconnecting)
    && (match s.phase
        case Initial => s.notices == [] && !s.negotiating
        case Connecting => s.notices == []
        case Connected => s.notices == [ConnectNotice]
        case Disconnecting => s.notices == [] || s.notices == [ConnectNotice]
        case Disconnected =>
          && |s.notices| in {1, 2} && s.notices[|s.notices| - 1].DisconnectNotice?
          && (|s.notices| == 2 ==> s.notices[0] == ConnectNotice))
    && (s.phase == Disconnected ==> !s.closeOn)
  }

  lemma UpdateKept(s: State, to: Phase)
    requires Kept(s)
    ensures Kept(Update(s, to)) && Rank(s.phase) <= Rank(Update(s, to).phase)
    ensures s.phase == Disconnected ==> Update(s, to) == s
    ensures Update(s, to).clean == s.clean
  {
  }

  lemma FailKept(s: State)
    requires Kept(s)
    ensures Kept(Fail(s)) && Rank(s.phase) <= Rank(Fail(s).phase)
    ensures s.phase != Initial ==> Fail(s).phase == Disconnected
    ensures s.phase == Disconnected ==> Fail(s) == s.(clean := false)
    ensures s.phase == Initial ==> Fail(s).phase == Initial
    ensures s.phase != Initial && s.phase != Disconnected ==> Fail(s).notices == s.notices + [DisconnectNotice(false)]
    ensures !Fail(s).clean
  {
    var t := s.(clean := false);
    UpdateKept(t, Disconnecting);
    UpdateKept(Update(t, Disconnecting), Disconnected);
  }

  lemma OpenKept(s: State)
    requires Kept(s)
    ensures Kept(Open(s)) && Rank(s.phase) <= Rank(Open(s).phase)
    ensures s.phase == Disconnected ==> Open(s).phase == Disconnected && Open(s).notices == s.notices
  {
    FailKept(s);
    hide Fail;
  }

  lemma CloseKept(s: State)
    requires Kept(s)
    ensures Kept(Close(s)) && Rank(s.phase) <= Rank(Close(s).phase)
    ensures s.phase == Disconnected ==> Close(s).phase == Disconnected && Close(s).notices == s.notices
  {
    FailKept(s);
    UpdateKept(s, Disconnected);
    UpdateKept(s, Disconnecting);
    UpdateKept(Update(s, Disconnecting), Disconnected);
    hide Fail, Update;
  }

  /** A step keeps the invariant and never goes back; a disconnected object stays as it is. */
  lemma StepKept(s: State, i: Input)
    requires Kept(s)
    ensures Kept(Step(s, i)) && Rank(s.phase) <= Rank(Step(s, i).phase)
    ensures s.phase == Disconnected ==> Step(s, i).phase == Disconnected && Step(s, i).notices == s.notices
  {
    match i
    case Begin(channel) =>
      UpdateKept(s, Connecting);
      OpenKept(Update(s, Connecting));
      hide Update, Open, Kept;
    case SocketOpen => OpenKept(s); hide Open, Kept;
    case SocketClose => CloseKept(s); hide Close, Kept;
    case Initialised => UpdateKept(s, Connected); hide Update, Kept;
    case Failure => FailKept(s); hide Fail, Kept;
    case Timeout => UpdateKept(s, Disconnected); hide Update, Kept;
    case UserDisconnect => UpdateKept(s, Disconnecting); hide Update;
  }

  /**
   * Lifecycle safety over every run: the timer is set exactly while disconnecting, at most one
   * connect and one disconnect notice are given, and the disconnect notice is the last.
   */
  lemma {:induction false} RunKept(inputs: seq<Input>)
    ensures Kept(Run(START, inputs))
  {
    hide Step, Kept;
    if |inputs| > 0 {
      RunKept(inputs[..|inputs| - 1]);
      StepKept(Run(START, inputs[..|inputs| - 1]), inputs[|inputs| - 1]);
    } else {
      StartKept();
    }
  }

  lemma StartKept()
    ensures Kept(START)
  {
  }

  lemma {:induction false} RunSplit(s: State, a: seq<Input>, b: seq<Input>)
    ensures Run(s, a + b) == Run(Run(s, a), b)
  {
    hide Step;
    if |b| > 0 {
      RunSplit(s, a, b[..|b| - 1]);
      assert (a + b)[..|a + b| - 1] == a + b[..|b| - 1];
    } else {
      assert a + b == a;
    }
  }

  lemma {:induction false} RunOnward(s: State, inputs: seq<Input>)
    requires Kept(s)
    ensures Kept(Run(s, inputs)) && Rank(s.phase) <= Rank(Run(s, inputs).phase)
    ensures s.phase == Disconnected ==> Run(s, inputs).phase == Disconnected && Run(s, inputs).notices == s.notices
  {
    hide Step, Kept;
    if |inputs| > 0 {
      RunOnward(s, inputs[..|inputs| - 1]);
      StepKept(Run(s, inputs[..|inputs| - 1]), inputs[|inputs| - 1]);
    }
  }

  /** Between any two points of a run the phase moves only forward, and nothing follows a disconnect notice. */
  lemma OnlyForward(inputs: seq<Input>, n: nat)
    requires n <= |inputs|
    ensures var s, t := Run(START, inputs[..n]), Run(START, inputs);
            Rank(s.phase) <= Rank(t.phase)
                && (s.phase == Disconnected ==> t.phase == Disconnected && t.notices == s.notices)
  {
    hide Run, Kept, Rank;
    RunKept(inputs[..n]);
    RunSplit(START, inputs[..n], inputs[n..]);
    assert inputs[..n] + inputs[n..] == inputs;
    RunOnward(Run(START, inputs[..n]), inputs[n..]);
  }

  // ---------------------------------------------------------------- how a connection ends

  /** The inputs that an object takes as a failure. */
  predicate Failing(s: State, i: Input) {
    || i.Failure?
    || (i.SocketOpen? && s.openOn && !(s.phase == Connecting && !s.negotiating))
    || (i.SocketClose? && s.closeOn && s.phase != Connected && s.phase != Disconnecting)
  }

  /** A failure after the start ends the connection at once, whatever the phase. */
  lemma FailureDisconnects(s: State, i: Input)
    requires Kept(s) && Failing(s, i) && s.phase != Initial
    ensures Step(s, i).phase == Disconnected && !Step(s, i).clean
    ensures s.phase != Disconnected ==> Step(s, i).notices == s.notices + [DisconnectNotice(false)]
  {
    FailKept(s);
  }

  /** No input of the run was a failure when it came. */
  ghost predicate NoFailure(inputs: seq<Input>) {
    |inputs| == 0
        || (NoFailure(inputs[..|inputs| - 1]) && !Failing(Run(START, inputs[..|inputs| - 1]), inputs[|inputs| - 1]))
  }

  lemma {:induction false} CleanUntilFailure(inputs: seq<Input>)
    ensures Run(START, inputs).clean <==> NoFailure(inputs)
  {
    if |inputs| > 0 {
      var front := inputs[..|inputs| - 1];
      hide Failing, Step, Kept;
      CleanUntilFailure(front);
      RunKept(front);
      CleanStep(Run(START, front), inputs[|inputs| - 1]);
    }
  }

  lemma CleanStep(s: State, i: Input)
    requires Kept(s)
    ensures Step(s, i).clean <==> s.clean && !Failing(s, i)
  {
    match i
    case Begin(_) =>
      UpdateKept(s, Connecting);
      OpenClean(Update(s, Connecting));
    case SocketOpen => OpenClean(s);
    case SocketClose =>
      FailKept(s);
      hide Fail;
    case Failure =>
      FailKept(s);
      hide Fail;
    case Initialised =>
    case Timeout =>
    case UserDisconnect =>
  }

  lemma OpenClean(s: State)
    requires Kept(s)
    ensures Open(s).clean <==> s.clean && s.phase == Connecting && !s.negotiating
  {
    FailKept(s);
    hide Fail;
  }

  /**
   * What the application is told: the disconnect notice calls the end clean exactly when no
   * input up to it was a failure.
   */
  lemma NoticeIsTrue(inputs: seq<Input>)
    requires |inputs| > 0 && Run(START, inputs).phase == Disconnected
    requires Run(START, inputs[..|inputs| - 1]).phase != Disconnected
    ensures Run(START, inputs).notices == Run(START, inputs[..|inputs| - 1]).notices
         + [DisconnectNotice(NoFailure(inputs))]
  {
    var n := |inputs| - 1;
    RunKept(inputs[..n]);
    CleanUntilFailure(inputs);
    NoticeOfStep(Run(START, inputs[..n]), inputs[n]);
    hide Failing, Step, Kept;
  }

  lemma NoticeOfStep(s: State, i: Input)
    requires Kept(s) && s.phase != Disconnected && Step(s, i).phase == Disconnected
    ensures Step(s, i).notices == s.notices + [DisconnectNotice(Step(s, i).clean)]
  {
    match i
    case Begin(_) => OpenNotice(Update(s, Connecting));
    case SocketOpen => OpenNotice(s);
    case SocketClose => CloseNotice(s);
    case Initialised =>
    case Failure => FailKept(s); hide Fail, Kept;
    case Timeout =>
    case UserDisconnect =>
  }

  lemma OpenNotice(s: State)
    requires Kept(s) && s.phase != Disconnected && Open(s).phase == Disconnected
    ensures Open(s).notices == s.notices + [DisconnectNotice(Open(s).clean)]
  {
    FailKept(s);
    hide Fail;
  }

  lemma CloseNotice(s: State)
    requires Kept(s) && s.phase != Disconnected && Close(s).phase == Disconnected
    ensures Close(s).notices == s.notices + [DisconnectNotice(Close(s).clean)]
  {
    FailKept(s);
    hide Fail;
  }

  /** A disconnecting object is freed by whichever comes first, the close or the timer. */
  lemma DisconnectingEnds(s: State)
    requires Kept(s) && s.phase == Disconnecting
    ensures Step(s, Timeout).phase == Disconnected
    ensures s.closeOn ==> Step(s, SocketClose).phase == Disconnected
  {
  }

  // ---------------------------------------------------------------- where each input leads

  predicate Ended(p: Phase) { p == Initial || p == Disconnected }

  /** The phase after an input, as the design has it. */
  function Leads(s: State, i: Input): Phase {
    match i
    case Begin(_) => if s.phase == Initial then Connecting else s.phase
    case Initialised => if s.phase == Connecting then Connected else s.phase
    case UserDisconnect => if s.phase == Connecting || s.phase == Connected then Disconnecting else s.phase
    case Timeout => if s.phase == Disconnecting then Disconnected else s.phase
    case Failure => if s.phase == Initial then Initial else Disconnected
    case SocketOpen =>
      if !s.openOn || Ended(s.phase) || (s.phase == Connecting && !s.negotiating) then s.phase else Disconnected
    case SocketClose => if !s.closeOn || Ended(s.phase) then s.phase else Disconnected
  }

  /**
   * Every input leads where the design says: a finished handshake connects, with one connect
   * notice, and a disconnect by the user before the end starts the timer.
   */
  lemma LeadsThere(s: State, i: Input)
    requires Kept(s)
    ensures Step(s, i).phase == Leads(s, i)
    ensures s.phase != Connected && Leads(s, i) == Connected ==> Step(s, i).notices == s.notices + [ConnectNotice]
    ensures s.phase != Disconnecting && Leads(s, i) == Disconnecting
        ==> Step(s, i).timer && Step(s, i).notices == s.notices
  {
    match i
    case Begin(_) => assert s.phase == Initial ==> Update(s, Connecting) == s.(phase := Connecting);
    case SocketOpen => FailKept(s); hide Fail;
    case SocketClose => FailKept(s); hide Fail;
    case Failure => FailKept(s); hide Fail;
    case Initialised =>
    case Timeout =>
    case UserDisconnect =>
  }

  /** A whole connection: opened, initialised, ended by the user, and closed or given up on. */
  lemma ConnectionRuns(ending: Input)
    requires ending == SocketClose || ending == Timeout
    ensures var s := Run(START, [Begin(Url), SocketOpen, Initialised, UserDisconnect, ending]);
            s.phase == Disconnected && s.notices == [ConnectNotice, DisconnectNotice(true)]
  {
    var inputs := [Begin(Url), SocketOpen, Initialised, UserDisconnect, ending];
    var s1 := START.(phase := Connecting);
    var s2 := s1.(negotiating := true);
    var s3 := s2.(phase := Connected, notices := [ConnectNotice]);
    var s4 := s3.(phase := Disconnecting, timer := true, openOn := false);
    FirstSteps(s1, s2);
    LastSteps(s2, s3, s4);
    hide Step;
    assert inputs[..5] == inputs && inputs[..0] == [];
    assert Run(START, inputs[..0]) == START;
    hide Run;
    RunPrefix(inputs, 0);
    RunPrefix(inputs, 1);
    RunPrefix(inputs, 2);
    RunPrefix(inputs, 3);
    RunPrefix(inputs, 4);
    LastStep(s4, ending);
  }

  lemma FirstSteps(s1: State, s2: State)
    requires s1 == START.(phase := Connecting) && s2 == s1.(negotiating := true)
    ensures Step(START, Begin(Url)) == s1 && Step(s1, SocketOpen) == s2
  {
  }

  lemma LastSteps(s2: State, s3: State, s4: State)
    requires s2.phase == Connecting && !s2.timer && s2.notices == []
    requires s3 == s2.(phase := Connected, notices := [ConnectNotice])
    requires s4 == s3.(phase := Disconnecting, timer := true, openOn := false)
    ensures Step(s2, Initialised) == s3 && Step(s3, UserDisconnect) == s4
  {
  }

  lemma LastStep(s: State, ending: Input)
    requires s.phase == Disconnecting && s.timer && s.closeOn && s.clean && (ending == SocketClose || ending == Timeout)
    ensures Step(s, ending).phase == Disconnected && Step(s, ending).notices == s.notices + [DisconnectNotice(true)]
  {
  }

  lemma RunPrefix(inputs: seq<Input>, n: nat)
    requires n < |inputs|
    ensures Run(START, inputs[..n + 1]) == Step(Run(START, inputs[..n]), inputs[n])
  {
    assert inputs[..n + 1][..n] == inputs[..n];
    hide Step;
  }

  // ---------------------------------------------------------------- the object

  class Connection {
    var rfbConnectionState: Phase
    var negotiating: bool
    var disconnTimer: bool
    var cleanDisconnect: bool
    var openHandler: bool
    var closeHandler: bool
    var dispatched: seq<Notice>

    ghost function Current(): State
      reads this
    {
      State(rfbConnectionState, negotiating, disconnTimer, cleanDisconnect, openHandler, closeHandler, dispatched)
    }

    ghost predicate Valid()
      reads this
    {
      Kept(Current())
    }

    /** A raw channel that is closed already makes the source throw, with nothing dispatched. */
    constructor (channel: Channel)
      ensures Valid() && Current() == Step(START, Begin(channel))
    {
      rfbConnectionState, negotiating, disconnTimer, cleanDisconnect := Initial, false, false, true;
      openHandler, closeHandler, dispatched := true, true, [];
      new;
      UpdateConnectionState(Connecting);
      if channel == RawOpen {
        HandleOpen();
      }
    }

    method UpdateConnectionState(state: Phase)
      requires Valid()
      modifies this
      ensures Valid() && Current() == Update(old(Current()), state)
    {
      UpdateKept(Current(), state);
      var oldstate := rfbConnectionState;
      if state == oldstate || oldstate == Disconnected {
        return;
      }
      match state {
        case Connected => if oldstate != Connecting { return; }
        case Disconnected => if oldstate != Disconnecting { return; }
        case Connecting => if oldstate != Initial { return; }
        case Disconnecting => if oldstate != Connected && oldstate != Connecting { return; }
        case Initial => return;
      }
      rfbConnectionState := state;
      if disconnTimer && state != Disconnecting {
        disconnTimer := false;
        closeHandler := false;
      }
      match state {
        case Connected => dispatched := dispatched + [ConnectNotice];
        case Disconnecting => disconnTimer := true;
        case Disconnected => dispatched := dispatched + [DisconnectNotice(cleanDisconnect)];
        case _ =>
      }
    }

    method Failed()
      requires Valid()
      modifies this
      ensures Valid() && Current() == Fail(old(Current()))
    {
      cleanDisconnect := false;
      UpdateConnectionState(Disconnecting);
      UpdateConnectionState(Disconnected);
    }

    method HandleOpen()
      requires Valid()
      modifies this
      ensures Valid() && Current() == Open(old(Current()))
    {
      if rfbConnectionState == Connecting && !negotiating {
        negotiating := true;
      } else {
        Failed();
      }
    }

    method HandleClose()
      requires Valid()
      modifies this
      ensures Valid() && Current() == Close(old(Current()))
    {
      match rfbConnectionState {
        case Connected =>
          UpdateConnectionState(Disconnecting);
          UpdateConnectionState(Disconnected);
        case Disconnecting =>
          UpdateConnectionState(Disconnected);
        case _ =>
          Failed();
      }
      closeHandler := false;
    }

    method Disconnect()
      requires Valid()
      modifies this
      ensures Valid() && Current() == Step(old(Current()), UserDisconnect)
    {
      UpdateConnectionState(Disconnecting);
      openHandler := false;
    }

    method TimedOut()
      requires Valid() && disconnTimer
      modifies this
      ensures Valid() && Current() == Step(old(Current()), Timeout) && rfbConnectionState == Disconnected
    {
      UpdateConnectionState(Disconnected);
    }
  }
}
