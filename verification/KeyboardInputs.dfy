/**
 * What the keyboard tracker makes of its inputs: the events of every single input, written out,
 * and over whole runs which keys the receiver has down, told from the inputs alone.
 */
module KeyboardInputs {
  import opened Bytes
  import opened Keyboard

  // ---------------------------------------------------------------- what an input calls for

  const NO_LOCKS := Locks(None, None)

  function Known(p: Platform, k: Key): Locks { Locks(if p.apple then None else Some(k.num), Some(k.caps)) }

  /** The key is the second half of an AltGr: AltRight, less than 50 ms after the held-back ControlLeft. */
  predicate JoinsAltGr(s: State, k: Key) { s.armed && k.code == "AltRight" && k.timeStamp - s.ctrlTime < 50.0 }

  /**
   * The keysym that a fresh press calls for: an AltGr is ISO_Level3_Shift; on Apple's platforms
   * the command keys stand for Alt and Super, and the option keys for Mode_switch and AltGr.
   */
  function Wanted(p: Platform, k: Key, altGr: bool): Keysym {
    var v := if altGr then Some(0xfe03) else k.keysym;
    if !p.apple then v
    else if v == Some(0xffeb) then Some(0xffe9)
    else if v == Some(0xffec) then Some(0xffeb)
    else if v == Some(0xffe9) then Some(0xff7e)
    else if v == Some(0xffea) then Some(0xfe03)
    else v
  }

  /** Keys of Japanese input methods that Windows never releases. */
  predicate Stuck(v: Keysym) {
    v == Some(0xff2a) || v == Some(0xff30) || v == Some(0xff26) || v == Some(0xff25) || v == Some(0xff24)
  }

  type Keys = map<string, Keysym>

  function Pressing(keys: Keys, c: string, v: Keysym, locks: Locks): seq<KeyEvent> {
    (if c in keys then [KeyEvent(keys[c], c, false, locks)] else []) + [KeyEvent(v, c, true, locks)]
  }

  function Releasing(keys: Keys, c: string): seq<KeyEvent> {
    if c in keys then [KeyEvent(keys[c], c, false, NO_LOCKS)] else []
  }

  /** What is done about a key-down: nothing, a press and a release, a press, or it is held back. */
  datatype Deed = Nothing | Tap(v: Keysym) | Hold(v: Keysym) | HoldBack

  function DeedOf(p: Platform, keys: Keys, k: Key, altGr: bool): Deed {
    var v := if k.code in keys then keys[k.code] else Wanted(p, k, altGr);
    if k.code == "Unidentified" then
      if k.keysym == None || k.keysym == Some(0) then Nothing else Tap(k.keysym)
    else if p.apple && k.meta && k.code != "MetaLeft" && k.code != "MetaRight" then Tap(v)
    else if p.apple && k.code == "CapsLock" then Tap(Some(0xffe5))
    else if p.windows && Stuck(v) then Tap(v)
    else if p.windows && k.code == "ControlLeft" && k.code !in keys then HoldBack
    else Hold(v)
  }

  function DeedEvents(d: Deed, keys: Keys, c: string, locks: Locks): seq<KeyEvent> {
    match d
    case Nothing => []
    case Tap(v) => Pressing(keys, c, v, locks) + [KeyEvent(v, c, false, locks)]
    case Hold(v) => Pressing(keys, c, v, locks)
    case HoldBack => []
  }

  function DeedKeys(d: Deed, keys: Keys, c: string): Keys {
    match d
    case Nothing => keys
    case Tap(_) => keys - {c}
    case Hold(v) => keys[c := v]
    case HoldBack => keys
  }

  /** A held-back ControlLeft that goes out before anything else. */
  function Before(sends: bool, locks: Locks): seq<KeyEvent> {
    if sends then [KeyEvent(Some(0xffe3), "ControlLeft", true, locks)] else []
  }

  function KeysBefore(keys: Keys, sends: bool): Keys {
    if sends then keys["ControlLeft" := Some(0xffe3)] else keys
  }

  /** The state moved by exactly these events, to these keys. */
  ghost predicate Did(s: State, t: State, events: seq<KeyEvent>, keys: Keys, armed: bool) {
    t.log == s.log + events && t.keys == keys && t.armed == armed
  }

  // ---------------------------------------------------------------- single inputs

  lemma DisarmDid(p: Platform, s: State, k: Key)
    requires HeldBack(s)
    ensures var sends := s.armed && !JoinsAltGr(s, k);
            Did(s, Disarm(p, s, k), Before(sends, Known(p, k)), KeysBefore(s.keys, sends), false)
  {
  }

  lemma PressDid(s: State, v: Keysym, c: string, locks: Locks)
    ensures Did(s, Press(s, v, c, locks), DeedEvents(Tap(v), s.keys, c, locks), DeedKeys(Tap(v), s.keys, c), s.armed)
  {
  }

  lemma SendDownDid(s: State, v: Keysym, c: string, locks: Locks)
    ensures Did(s, SendDown(s, v, c, locks), DeedEvents(Hold(v), s.keys, c, locks), DeedKeys(Hold(v), s.keys, c),
                s.armed)
  {
  }

  lemma ReleaseDid(s: State, c: string)
    ensures Did(s, Release(s, c, UNKNOWN), Releasing(s.keys, c), s.keys - {c}, s.armed)
  {
  }

  lemma DidBoth(s: State, t: State, u: State, a: seq<KeyEvent>, b: seq<KeyEvent>, m: Keys, keys: Keys, x: bool, y: bool)
    requires Did(s, t, a, m, x) && Did(t, u, b, keys, y)
    ensures Did(s, u, a + b, keys, y)
  {
  }

  lemma SymbolIs(p: Platform, s: State, k: Key)
    requires k.code != "Unidentified"
    ensures var keys := Disarm(p, s, k).keys;
            Symbol(p, s, k) == if k.code in keys then keys[k.code] else Wanted(p, k, JoinsAltGr(s, k))
  {
    hide Disarm;
  }

  /** After the disarming. */
  lemma RestDid(p: Platform, s: State, k: Key)
    requires HeldBack(s)
    ensures var t := Disarm(p, s, k); var d := DeedOf(p, t.keys, k, JoinsAltGr(s, k));
            Did(t, HandleKeyDown(p, s, k), DeedEvents(d, t.keys, k.code, Known(p, k)), DeedKeys(d, t.keys, k.code),
                d.HoldBack?)
    ensures DeedOf(p, Disarm(p, s, k).keys, k, JoinsAltGr(s, k)).HoldBack?
        ==> HandleKeyDown(p, s, k).ctrlTime == k.timeStamp
  {
    DisarmDid(p, s, k);
    var t := Disarm(p, s, k);
    var locks := LocksOf(p, k);
    hide Disarm, Press, SendDown;
    PressDid(t, k.keysym, k.code, locks);
    if k.code != "Unidentified" {
      SymbolIs(p, s, k);
    }
    hide Symbol;
    PressDid(t, Symbol(p, s, k), k.code, locks);
    PressDid(t, XK_CAPS_LOCK, "CapsLock", locks);
    SendDownDid(t, Symbol(p, s, k), k.code, locks);
  }

  /**
   * A key-down emits exactly what the input and the platform call for: a held-back ControlLeft
   * first unless it belongs to an AltGr, then the key's own events; no other key changes.
   */
  lemma KeyDownDoes(p: Platform, s: State, k: Key)
    requires HeldBack(s)
    ensures var sends := s.armed && !JoinsAltGr(s, k); var keys := KeysBefore(s.keys, sends);
            var d := DeedOf(p, keys, k, JoinsAltGr(s, k));
            Did(s, Step(p, s, KeyDown(k)), Before(sends, Known(p, k)) + DeedEvents(d, keys, k.code, Known(p, k)),
                DeedKeys(d, keys, k.code), d.HoldBack?)
            && (d.HoldBack? ==> Step(p, s, KeyDown(k)).ctrlTime == k.timeStamp)
  {
    DisarmDid(p, s, k);
    RestDid(p, s, k);
    hide Disarm, HandleKeyDown, DeedOf, DeedEvents, DeedKeys;
    var sends := s.armed && !JoinsAltGr(s, k);
    var keys := KeysBefore(s.keys, sends);
    var d := DeedOf(p, keys, k, JoinsAltGr(s, k));
    DidBoth(s, Disarm(p, s, k), HandleKeyDown(p, s, k), Before(sends, Known(p, k)),
            DeedEvents(d, keys, k.code, Known(p, k)), keys, DeedKeys(d, keys, k.code), false, d.HoldBack?);
  }

  /** A plain key-down of a key that is up is one press, with the keysym that the input and the platform call for. */
  lemma PlainPress(p: Platform, s: State, k: Key)
    requires !s.armed && k.code !in s.keys && DeedOf(p, s.keys, k, false).Hold?
    ensures Did(s, Step(p, s, KeyDown(k)), [KeyEvent(Wanted(p, k, false), k.code, true, Known(p, k))],
                s.keys[k.code := Wanted(p, k, false)], false)
  {
    KeyDownDoes(p, s, k);
    hide HandleKeyDown;
  }

  /** The Shift key that a key-up on Windows releases as well. */
  function OtherShift(p: Platform, c: string): Option<string> {
    if !p.windows then None
    else if c == "ShiftLeft" then Some("ShiftRight")
    else if c == "ShiftRight" then Some("ShiftLeft")
    else None
  }

  function UpEvents(p: Platform, keys: Keys, c: string): seq<KeyEvent> {
    if p.apple && c == "CapsLock" then DeedEvents(Tap(Some(0xffe5)), keys, c, NO_LOCKS)
    else
      Releasing(keys, c)
      + match OtherShift(p, c)
        case None => []
        case Some(other) => Releasing(keys, other)
  }

  function UpKeys(p: Platform, keys: Keys, c: string): Keys {
    var rest := keys - {c};
    match OtherShift(p, c)
    case None => rest
    case Some(other) => rest - {other}
  }

  lemma UpDid(p: Platform, t: State, c: string)
    ensures var u := Release(t, c, UNKNOWN);
            var v := if p.windows && (c == "ShiftLeft" || c == "ShiftRight")
                     then Release(Release(u, "ShiftRight", UNKNOWN), "ShiftLeft", UNKNOWN) else u;
            !(p.apple && c == "CapsLock") ==> Did(t, v, UpEvents(p, t.keys, c), UpKeys(p, t.keys, c), t.armed)
  {
    hide Release;
    ReleaseDid(t, c);
    var u := Release(t, c, UNKNOWN);
    ReleaseDid(u, "ShiftRight");
    var v := Release(u, "ShiftRight", UNKNOWN);
    ReleaseDid(v, "ShiftLeft");
  }

  /**
   * A key-up of a key that is down emits exactly one release, with the keysym of its press; only
   * a held-back ControlLeft goes out before it, and on Windows the other Shift after it.
   */
  lemma KeyUpDoes(p: Platform, s: State, k: Key)
    requires HeldBack(s)
    ensures var keys := KeysBefore(s.keys, s.armed);
            Did(s, Step(p, s, KeyUp(k)), Before(s.armed, NO_LOCKS) + UpEvents(p, keys, k.code),
                UpKeys(p, keys, k.code), false)
  {
    var t := if s.armed then SendControl(s.(armed := false), UNKNOWN) else s;
    var keys := KeysBefore(s.keys, s.armed);
    assert Did(s, t, Before(s.armed, NO_LOCKS), keys, false);
    hide SendControl, Before, KeysBefore;
    PressDid(t, XK_CAPS_LOCK, "CapsLock", UNKNOWN);
    UpDid(p, t, k.code);
    hide Press, Release, UpEvents;
    UpSplit(p, keys, k.code);
    DidBoth(s, t, Step(p, s, KeyUp(k)), Before(s.armed, NO_LOCKS), UpEvents(p, keys, k.code), keys,
            UpKeys(p, keys, k.code), false, false);
  }

  lemma UpSplit(p: Platform, keys: Keys, c: string)
    ensures p.apple && c == "CapsLock" ==>
              && UpEvents(p, keys, c) == DeedEvents(Tap(Some(0xffe5)), keys, c, NO_LOCKS)
              && UpKeys(p, keys, c) == DeedKeys(Tap(Some(0xffe5)), keys, c)
  {
  }

  /** A timeout sends a held-back ControlLeft. */
  lemma TimeoutDoes(p: Platform, s: State)
    requires HeldBack(s)
    ensures Did(s, Step(p, s, AltGrTimeout), Before(s.armed, NO_LOCKS), KeysBefore(s.keys, s.armed), false)
  {
  }

  /** The releases of these keys, in this order. */
  function Releases(keys: Keys, codes: seq<string>): seq<KeyEvent> {
    if |codes| == 0 then [] else Releasing(keys, codes[0]) + Releases(keys, codes[1..])
  }

  lemma {:induction false} SameReleases(a: Keys, b: Keys, codes: seq<string>)
    requires forall c | c in codes :: Releasing(a, c) == Releasing(b, c)
    ensures Releases(a, codes) == Releases(b, codes)
    decreases |codes|
  {
    if |codes| > 0 {
      SameReleases(a, b, codes[1..]);
    }
  }

  lemma {:induction false} ReleaseAllDid(s: State, codes: seq<string>)
    requires Distinct(codes)
    ensures ReleaseAll(s, codes).log == s.log + Releases(s.keys, codes)
    decreases |codes|
  {
    if |codes| > 0 {
      ReleaseDid(s, codes[0]);
      var t, rest := Release(s, codes[0], UNKNOWN), codes[1..];
      hide Release;
      ReleaseAllDid(t, rest);
      SameReleases(t.keys, s.keys, rest);
      var a, b := Releasing(s.keys, codes[0]), Releases(s.keys, rest);
      assert s.log + a + b == s.log + (a + b);
    } else {
      assert s.log + [] == s.log;
    }
  }

  /** A loss of focus releases every key that is down, once each, in the order in which they went down. */
  lemma BlurDoes(p: Platform, s: State)
    requires Tracked(s)
    ensures Did(s, Step(p, s, Blur), Releases(s.keys, s.order), map[], s.armed)
    ensures Distinct(s.order) && forall c :: c in s.order <==> c in s.keys
  {
    ReleaseAllDid(s, s.order);
    BlurReleasesAll(p, s);
    ReleaseAllExtends(s, s.order);
  }

  // ---------------------------------------------------------------- whole runs

  lemma Reachable(p: Platform, inputs: seq<Input>)
    ensures HeldBack(Run(p, START, inputs)) && Tracked(Run(p, START, inputs))
  {
    RunHoldsBack(p, inputs);
    RunTracked(p, inputs);
  }

  predicate Downs(i: Input, c: string) { i.KeyDown? && i.key.code == c }
  predicate Ups(i: Input, c: string) { i.KeyUp? && i.key.code == c }

  /** The last key event for a code, if there is one, is a key-up. */
  predicate LastIsUp(inputs: seq<Input>, c: string) {
    |inputs| > 0 ==>
      var i := inputs[|inputs| - 1];
      Ups(i, c) || (!Downs(i, c) && LastIsUp(inputs[..|inputs| - 1], c))
  }

  /** An input that is not its own does not bring a key down, but for a ControlLeft that is held back. */
  lemma OthersLeaveUp(p: Platform, s: State, i: Input, c: string)
    requires HeldBack(s) && Tracked(s) && !Downs(i, c) && c !in s.keys && (c == "ControlLeft" ==> !s.armed)
    ensures var t := Step(p, s, i); c !in t.keys && (c == "ControlLeft" ==> !t.armed)
  {
    hide Step, Tracked;
    match i
    case KeyDown(k) => KeyDownDoes(p, s, k);
    case KeyUp(k) => KeyUpDoes(p, s, k);
    case Blur => BlurDoes(p, s);
    case AltGrTimeout => TimeoutDoes(p, s);
  }

  lemma OwnUp(p: Platform, s: State, k: Key)
    requires HeldBack(s)
    ensures var t := Step(p, s, KeyUp(k)); k.code !in t.keys && !t.armed
  {
    hide Step;
    KeyUpDoes(p, s, k);
  }

  /** Over every run: a key whose last input is its key-up is not down at the receiver, nor is one without any. */
  lemma {:induction false} UpIsUp(p: Platform, inputs: seq<Input>, c: string)
    requires LastIsUp(inputs, c)
    ensures var s := Run(p, START, inputs); c !in s.keys && (c == "ControlLeft" ==> !s.armed)
  {
    if |inputs| > 0 {
      var front, i := inputs[..|inputs| - 1], inputs[|inputs| - 1];
      var s := Run(p, START, front);
      Reachable(p, front);
      hide Step, Tracked, HeldBack;
      if Ups(i, c) {
        OwnUp(p, s, i.key);
      } else {
        UpIsUp(p, front, c);
        OthersLeaveUp(p, s, i, c);
      }
    }
  }

  /** A loss of focus, the key's own key-up, and on Windows that of the other Shift, let a key go. */
  predicate LetsGo(p: Platform, i: Input, c: string) {
    i.Blur? || (i.KeyUp? && (i.key.code == c || OtherShift(p, i.key.code) == Some(c)))
  }

  /** The key-down that a key is held by: the first since it was let go. */
  function HeldSince(p: Platform, inputs: seq<Input>, c: string): (n: Option<nat>)
    ensures n.Some? ==> n.value < |inputs| && Downs(inputs[n.value], c)
  {
    if |inputs| == 0 then None
    else
      var i := inputs[|inputs| - 1];
      var before := HeldSince(p, inputs[..|inputs| - 1], c);
      if LetsGo(p, i, c) then None
      else if before.None? && Downs(i, c) then Some(|inputs| - 1)
      else before
  }

  /** A key that stays down until it is let go, as far as an input goes. */
  predicate Steady(p: Platform, i: Input, c: string) {
    Downs(i, c) ==>
      && !(p.apple && i.key.meta && c != "MetaLeft" && c != "MetaRight")
      && !(p.windows && Stuck(Wanted(p, i.key, false)))
  }

  /** Codes with no treatment of their own: CapsLock on Apple's platforms and ControlLeft on Windows have one. */
  predicate Ordinary(p: Platform, c: string) {
    c != "Unidentified" && !(p.apple && c == "CapsLock") && !(p.windows && c == "ControlLeft")
  }

  /** The keysym that a key is held with: what its key-down called for. */
  ghost function HeldWith(p: Platform, inputs: seq<Input>, n: nat): Keysym
    requires n < |inputs| && inputs[n].KeyDown?
  {
    Wanted(p, inputs[n].key, JoinsAltGr(At(p, inputs, n), inputs[n].key))
  }

  ghost predicate AsHeld(p: Platform, s: State, inputs: seq<Input>, c: string) {
    var n := HeldSince(p, inputs, c);
    && (c in s.keys <==> n.Some?)
    && (n.Some? ==> s.keys[c] == HeldWith(p, inputs, n.value))
  }

  lemma NeverArmed(p: Platform, inputs: seq<Input>)
    requires !p.windows
    ensures !Run(p, START, inputs).armed
  {
    if |inputs| > 0 {
      var front, i := inputs[..|inputs| - 1], inputs[|inputs| - 1];
      var s := Run(p, START, front);
      NeverArmed(p, front);
      Reachable(p, front);
      hide Step, Tracked, HeldBack, Run;
      match i
      case KeyDown(k) => KeyDownDoes(p, s, k);
      case KeyUp(k) => KeyUpDoes(p, s, k);
      case Blur => BlurDoes(p, s);
      case AltGrTimeout => TimeoutDoes(p, s);
    }
  }

  lemma AltGrNotStuck(p: Platform, k: Key)
    ensures !Stuck(Wanted(p, k, true))
  {
  }

  /** What one input does to an ordinary key. */
  lemma HeldStep(p: Platform, s: State, i: Input, c: string)
    requires HeldBack(s) && Tracked(s) && Ordinary(p, c) && Steady(p, i, c) && (p.windows || !s.armed)
    requires p.windows && c in s.keys ==> !Stuck(s.keys[c])
    ensures var t := Step(p, s, i);
            if LetsGo(p, i, c) then c !in t.keys
            else if Downs(i, c) then
              c in t.keys
              && t.keys[c] == if c in s.keys then s.keys[c] else Wanted(p, i.key, JoinsAltGr(s, i.key))
            else (c in t.keys <==> c in s.keys) && (c in s.keys ==> t.keys[c] == s.keys[c])
  {
    hide Step, Tracked;
    match i
    case KeyDown(k) =>
      KeyDownDoes(p, s, k);
      AltGrNotStuck(p, k);
    case KeyUp(k) => KeyUpDoes(p, s, k);
    case Blur => BlurDoes(p, s);
    case AltGrTimeout => TimeoutDoes(p, s);
  }

  lemma HeldNotStuck(p: Platform, inputs: seq<Input>, n: nat, c: string)
    requires n < |inputs| && Downs(inputs[n], c) && Steady(p, inputs[n], c) && p.windows
    ensures !Stuck(HeldWith(p, inputs, n))
  {
    AltGrNotStuck(p, inputs[n].key);
    hide Stuck, Wanted;
  }

  lemma HeldWithFront(p: Platform, inputs: seq<Input>, n: nat)
    requires n < |inputs| - 1 && inputs[n].KeyDown?
    ensures HeldWith(p, inputs[..|inputs| - 1], n) == HeldWith(p, inputs, n)
  {
    assert inputs[..|inputs| - 1][..n] == inputs[..n];
  }

  /**
   * Over every run, which ordinary keys are down is told by the inputs alone: a key is down
   * exactly when it was pressed since it was last let go, and then with the keysym that the first
   * press since called for.
   */
  lemma {:induction false} DownExactlyWhen(p: Platform, inputs: seq<Input>, c: string)
    requires Ordinary(p, c) && forall i | i in inputs :: Steady(p, i, c)
    ensures AsHeld(p, Run(p, START, inputs), inputs, c)
  {
    if |inputs| > 0 {
      var m := |inputs| - 1;
      var front, i := inputs[..m], inputs[m];
      var s := Run(p, START, front);
      assert forall j | j in front :: j in inputs;
      DownExactlyWhen(p, front, c);
      Reachable(p, front);
      if !p.windows {
        NeverArmed(p, front);
      }
      hide Step, Tracked, HeldBack, Steady, Ordinary, Wanted, Stuck;
      var n := HeldSince(p, front, c);
      if n.Some? {
        assert front[n.value] == inputs[n.value] && inputs[n.value] in inputs;
        HeldWithFront(p, inputs, n.value);
        if p.windows {
          HeldNotStuck(p, front, n.value, c);
        }
      }
      HeldStep(p, s, i, c);
      assert At(p, inputs, m) == s;
    }
  }

  // ---------------------------------------------------------------- the two codes with a treatment of their own

  /** CapsLock on Apple's platforms is pressed and released at once: it is never down. */
  lemma {:induction false} AppleCapsLockIsUp(p: Platform, inputs: seq<Input>)
    requires p.apple
    ensures "CapsLock" !in Run(p, START, inputs).keys
  {
    if |inputs| > 0 {
      var front, i := inputs[..|inputs| - 1], inputs[|inputs| - 1];
      var s := Run(p, START, front);
      AppleCapsLockIsUp(p, front);
      Reachable(p, front);
      hide Step, Tracked, HeldBack, Run;
      match i
      case KeyDown(k) => KeyDownDoes(p, s, k);
      case KeyUp(k) => KeyUpDoes(p, s, k);
      case Blur => BlurDoes(p, s);
      case AltGrTimeout => TimeoutDoes(p, s);
    }
  }

  /** ControlLeft on Windows: up, held back since a time, or down. */
  datatype Control = Up | Waiting(since: real) | Down

  function NextControl(x: Control, i: Input): Control {
    match i
    case KeyDown(k) =>
      if x.Waiting? then if k.code == "AltRight" && k.timeStamp - x.since < 50.0 then Up else Down
      else if x.Up? && k.code == "ControlLeft" then Waiting(k.timeStamp)
      else x
    case KeyUp(k) => if k.code == "ControlLeft" then Up else if x.Waiting? then Down else x
    case Blur => if x.Down? then Up else x
    case AltGrTimeout => if x.Waiting? then Down else x
  }

  function ControlAfter(inputs: seq<Input>): Control {
    if |inputs| == 0 then Up else NextControl(ControlAfter(inputs[..|inputs| - 1]), inputs[|inputs| - 1])
  }

  /** The tracker's state says what the three-state account says. */
  ghost predicate IsControl(s: State, x: Control) {
    && (x.Down? <==> "ControlLeft" in s.keys)
    && (x.Waiting? <==> s.armed)
    && (x.Waiting? ==> s.ctrlTime == x.since)
    && (x.Down? ==> !Stuck(s.keys["ControlLeft"]))
  }

  lemma ControlStep(p: Platform, s: State, i: Input, x: Control)
    requires HeldBack(s) && Tracked(s) && IsControl(s, x) && p.windows && !p.apple && Steady(p, i, "ControlLeft")
    ensures IsControl(Step(p, s, i), NextControl(x, i))
  {
    hide Step, Tracked;
    match i
    case KeyDown(k) => KeyDownDoes(p, s, k);
    case KeyUp(k) => KeyUpDoes(p, s, k);
    case Blur =>
      BlurDoes(p, s);
      BlurKeepsTime(p, s);
    case AltGrTimeout => TimeoutDoes(p, s);
  }

  lemma BlurKeepsTime(p: Platform, s: State)
    ensures Step(p, s, Blur).ctrlTime == s.ctrlTime
  {
    ReleaseAllExtends(s, s.order);
  }

  /** Over every run on Windows, ControlLeft is up, held back or down as that account says. */
  lemma {:induction false} ControlExactly(p: Platform, inputs: seq<Input>)
    requires p.windows && !p.apple && forall i | i in inputs :: Steady(p, i, "ControlLeft")
    ensures IsControl(Run(p, START, inputs), ControlAfter(inputs))
  {
    if |inputs| > 0 {
      var m := |inputs| - 1;
      assert forall j | j in inputs[..m] :: j in inputs;
      ControlExactly(p, inputs[..m]);
      Reachable(p, inputs[..m]);
      hide Step, Tracked, HeldBack, Steady, IsControl, NextControl;
      ControlStep(p, Run(p, START, inputs[..m]), inputs[m], ControlAfter(inputs[..m]));
    }
  }
}
