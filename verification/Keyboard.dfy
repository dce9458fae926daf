/**
 * The keyboard tracker of keyboard.js, including the change that turns a client's repeats into
 * fresh presses. What the browser says about a key (its code and keysym) and about the platform
 * is a parameter.
 */
module Keyboard {
  import opened Bytes

  type Keysym = Option<int>

  const XK_CONTROL_L: Keysym := Some(0xffe3)
  const XK_CAPS_LOCK: Keysym := Some(0xffe5)
  const XK_ALT_L: Keysym := Some(0xffe9)
  const XK_ALT_R: Keysym := Some(0xffea)
  const XK_SUPER_L: Keysym := Some(0xffeb)
  const XK_SUPER_R: Keysym := Some(0xffec)
  const XK_MODE_SWITCH: Keysym := Some(0xff7e)
  const XK_ISO_LEVEL3_SHIFT: Keysym := Some(0xfe03)

  /** Zenkaku_Hankaku, Eisu_toggle, Katakana, Hiragana and Romaji. */
  predicate NeverReleased(k: Keysym) {
    k in {Some(0xff2a), Some(0xff30), Some(0xff26), Some(0xff25), Some(0xff24)}
  }

  datatype Platform = Platform(apple: bool, windows: bool)

  /** One call of the `onkeyevent` handler; a lock state of `None` is unknown. */
  datatype KeyEvent = KeyEvent(keysym: Keysym, code: string, down: bool, locks: Locks)
  datatype Locks = Locks(num: Option<bool>, caps: Option<bool>)

  const UNKNOWN := Locks(None, None)

  /** A browser key event, after its code and keysym have been looked up. */
  datatype Key = Key(code: string, keysym: Keysym, num: bool, caps: bool, meta: bool, timeStamp: real)

  datatype Input = KeyDown(key: Key) | KeyUp(key: Key) | Blur | AltGrTimeout

  /** `order` is the order in which the list's codes were inserted. */
  datatype State = State(keys: map<string, Keysym>, order: seq<string>, armed: bool, ctrlTime: real, log: seq<KeyEvent>)

  const START := State(map[], [], false, 0.0, [])

  // ---------------------------------------------------------------- what the handlers do

  function Without(order: seq<string>, code: string): seq<string> {
    if |order| == 0 then []
    else if order[0] == code then order[1..]
    else [order[0]] + Without(order[1..], code)
  }

  function Emit(s: State, keysym: Keysym, code: string, down: bool, locks: Locks): State {
    s.(log := s.log + [KeyEvent(keysym, code, down, locks)])
  }

  function SendDown(s: State, keysym: Keysym, code: string, locks: Locks): State {
    var s1 := if code in s.keys then Emit(s, s.keys[code], code, false, locks)
              else s.(order := s.order + [code]);
    Emit(s1.(keys := s1.keys[code := keysym]), keysym, code, true, locks)
  }

  function SendUp(s: State, keysym: Keysym, code: string, locks: Locks): State {
    if code in s.keys
    then Emit(s.(keys := s.keys - {code}, order := Without(s.order, code)), keysym, code, false, locks)
    else s
  }

  function Press(s: State, keysym: Keysym, code: string, locks: Locks): State {
    SendUp(SendDown(s, keysym, code, locks), keysym, code, locks)
  }

  /** Release with the keysym the list holds; a code that is not in it is ignored. */
  function Release(s: State, code: string, locks: Locks): State {
    SendUp(s, if code in s.keys then s.keys[code] else None, code, locks)
  }

  function ReleaseAll(s: State, codes: seq<string>): State
    decreases |codes|
  {
    if |codes| == 0 then s else ReleaseAll(Release(s, codes[0], UNKNOWN), codes[1..])
  }

  function LocksOf(p: Platform, k: Key): Locks {
    Locks(if p.apple then None else Some(k.num), Some(k.caps))
  }

  /** The held-back ControlLeft belongs to an AltGr press. */
  predicate CompletesAltGr(s: State, k: Key) {
    k.code == "AltRight" && k.timeStamp - s.ctrlTime < 50.0
  }

  function SendControl(s: State, locks: Locks): State {
    SendDown(s, XK_CONTROL_L, "ControlLeft", locks)
  }

  /** The end of AltGr detection that the next key-down brings. */
  function Disarm(p: Platform, s: State, k: Key): State {
    if !s.armed then s
    else if CompletesAltGr(s, k) then s.(armed := false)
    else SendControl(s.(armed := false), LocksOf(p, k))
  }

  function AppleSymbol(k: Keysym): Keysym {
    if k == XK_SUPER_L then XK_ALT_L
    else if k == XK_SUPER_R then XK_SUPER_L
    else if k == XK_ALT_L then XK_MODE_SWITCH
    else if k == XK_ALT_R then XK_ISO_LEVEL3_SHIFT
    else k
  }

  /** The keysym to send: AltGr merging, the Apple shuffle, then what the list says. */
  function Symbol(p: Platform, s: State, k: Key): Keysym {
    var merged := if s.armed && CompletesAltGr(s, k) then XK_ISO_LEVEL3_SHIFT else k.keysym;
    var shuffled := if p.apple then AppleSymbol(merged) else merged;
    var keys := Disarm(p, s, k).keys;
    if k.code in keys then keys[k.code] else shuffled
  }

  function HandleKeyDown(p: Platform, s: State, k: Key): State {
    var locks := LocksOf(p, k);
    var t := Disarm(p, s, k);
    if k.code == "Unidentified" then
      var merged := k.keysym;
      if merged.Some? && merged.value != 0 then Press(t, merged, k.code, locks) else t
    else
      var keysym := Symbol(p, s, k);
      if p.apple && k.meta && k.code != "MetaLeft" && k.code != "MetaRight" then Press(t, keysym, k.code, locks)
      else if p.apple && k.code == "CapsLock" then Press(t, XK_CAPS_LOCK, "CapsLock", locks)
      else if p.windows && NeverReleased(keysym) then Press(t, keysym, k.code, locks)
      else if k.code == "ControlLeft" && p.windows && "ControlLeft" !in t.keys
      then t.(armed := true, ctrlTime := k.timeStamp)
      else SendDown(t, keysym, k.code, locks)
  }

  function HandleKeyUp(p: Platform, s: State, k: Key): State {
    var t := if s.armed then SendControl(s.(armed := false), UNKNOWN) else s;
    if p.apple && k.code == "CapsLock" then Press(t, XK_CAPS_LOCK, "CapsLock", UNKNOWN)
    else
      var u := Release(t, k.code, UNKNOWN);
      if p.windows && (k.code == "ShiftLeft" || k.code == "ShiftRight")
      then Release(Release(u, "ShiftRight", UNKNOWN), "ShiftLeft", UNKNOWN)
      else u
  }

  /** The timer runs only while the detection is armed. */
  function HandleTimeout(s: State): State {
    if s.armed then SendControl(s.(armed := false), UNKNOWN) else s
  }

  function Step(p: Platform, s: State, i: Input): State {
    match i
    case KeyDown(k) => HandleKeyDown(p, s, k)
    case KeyUp(k) => HandleKeyUp(p, s, k)
    case Blur => ReleaseAll(s, s.order)
    case AltGrTimeout => HandleTimeout(s)
  }

  function Run(p: Platform, s: State, inputs: seq<Input>): State {
    if |inputs| == 0 then s else Step(p, Run(p, s, inputs[..|inputs| - 1]), inputs[|inputs| - 1])
  }

  // ---------------------------------------------------------------- the history of a key

  /**
   * The keys a receiver of the log has down, each with the keysym it went down with; `None` if
   * the log presses a key that is down, or releases one that is up or with another keysym.
   */
  function Replay(log: seq<KeyEvent>): Option<map<string, Keysym>> {
    if |log| == 0 then Some(map[]) else
      var before := Replay(log[..|log| - 1]);
      var e := log[|log| - 1];
      if before.None? then None
      else if e.down then
        if e.code in before.value then None else Some(before.value[e.code := e.keysym])
      else
        if e.code in before.value && before.value[e.code] == e.keysym then Some(before.value - {e.code}) else None
  }

  /** The list is what the receiver has down, and `order` lists its codes once each. */
  ghost predicate Tracked(s: State) {
    && Replay(s.log) == Some(s.keys)
    && (forall c :: c in s.order <==> c in s.keys)
    && Distinct(s.order)
  }

  ghost predicate Distinct(order: seq<string>) {
    forall i, j | 0 <= i < j < |order| :: order[i] != order[j]
  }

  lemma ReplayOne(log: seq<KeyEvent>, e: KeyEvent, m: map<string, Keysym>)
    requires Replay(log) == Some(m)
    ensures e.down && e.code !in m ==> Replay(log + [e]) == Some(m[e.code := e.keysym])
    ensures !e.down && e.code in m && m[e.code] == e.keysym ==> Replay(log + [e]) == Some(m - {e.code})
  {
    assert (log + [e])[..|log|] == log;
  }

  lemma SendDownTracked(s: State, keysym: Keysym, code: string, locks: Locks)
    requires Tracked(s)
    ensures Tracked(SendDown(s, keysym, code, locks)) && SendDown(s, keysym, code, locks).keys == s.keys[code := keysym]
  {
    var t := SendDown(s, keysym, code, locks);
    var down := KeyEvent(keysym, code, true, locks);
    if code in s.keys {
      var up := KeyEvent(s.keys[code], code, false, locks);
      ReplayOne(s.log, up, s.keys);
      ReplayOne(s.log + [up], down, s.keys - {code});
      assert (s.keys - {code})[code := keysym] == s.keys[code := keysym];
    } else {
      ReplayOne(s.log, down, s.keys);
    }
  }

  lemma {:induction false} WithoutKeeps(order: seq<string>, code: string)
    requires Distinct(order)
    ensures forall c :: c in Without(order, code) <==> c in order && c != code
    ensures Distinct(Without(order, code))
  {
    if |order| > 0 {
      var rest := order[1..];
      assert order == [order[0]] + rest;
      assert order[0] !in rest;
      if order[0] != code {
        WithoutKeeps(rest, code);
        assert order[0] !in Without(rest, code);
      }
    }
  }

  lemma SendUpTracked(s: State, keysym: Keysym, code: string, locks: Locks)
    requires Tracked(s) && (code in s.keys ==> s.keys[code] == keysym)
    ensures Tracked(SendUp(s, keysym, code, locks)) && SendUp(s, keysym, code, locks).keys == s.keys - {code}
  {
    if code in s.keys {
      ReplayOne(s.log, KeyEvent(keysym, code, false, locks), s.keys);
      WithoutKeeps(s.order, code);
    }
  }

  lemma PressTracked(s: State, keysym: Keysym, code: string, locks: Locks)
    requires Tracked(s)
    ensures Tracked(Press(s, keysym, code, locks))
  {
    SendDownTracked(s, keysym, code, locks);
    SendUpTracked(SendDown(s, keysym, code, locks), keysym, code, locks);
  }

  lemma ReleaseTracked(s: State, code: string, locks: Locks)
    requires Tracked(s)
    ensures Tracked(Release(s, code, locks)) && Release(s, code, locks).keys == s.keys - {code}
  {
    SendUpTracked(s, if code in s.keys then s.keys[code] else None, code, locks);
  }

  lemma {:induction false} ReleaseAllTracked(s: State, codes: seq<string>)
    requires Tracked(s)
    ensures Tracked(ReleaseAll(s, codes))
    ensures forall c :: c in ReleaseAll(s, codes).keys <==> c in s.keys && c !in codes
    decreases |codes|
  {
    if |codes| > 0 {
      hide SendUp, Tracked;
      ReleaseTracked(s, codes[0], UNKNOWN);
      ReleaseAllTracked(Release(s, codes[0], UNKNOWN), codes[1..]);
      assert forall c :: c in codes <==> c == codes[0] || c in codes[1..];
    }
  }

  lemma StepTracked(p: Platform, s: State, i: Input)
    requires Tracked(s)
    ensures Tracked(Step(p, s, i))
  {
    match i
    case KeyDown(k) => KeyDownTracked(p, s, k);
    case KeyUp(k) => KeyUpTracked(p, s, k);
    case Blur => ReleaseAllTracked(s, s.order);
    case AltGrTimeout => SendDownTracked(s.(armed := false), XK_CONTROL_L, "ControlLeft", UNKNOWN);
  }

  lemma DisarmTracked(p: Platform, s: State, k: Key)
    requires Tracked(s)
    ensures Tracked(Disarm(p, s, k))
  {
    SendDownTracked(s.(armed := false), XK_CONTROL_L, "ControlLeft", LocksOf(p, k));
  }

  lemma KeyDownTracked(p: Platform, s: State, k: Key)
    requires Tracked(s)
    ensures Tracked(HandleKeyDown(p, s, k))
  {
    hide Symbol, NeverReleased, Press, SendDown;
    DisarmTracked(p, s, k);
    hide Disarm;
    var t := Disarm(p, s, k);
    var locks := LocksOf(p, k);
    PressTracked(t, k.keysym, k.code, locks);
    PressTracked(t, Symbol(p, s, k), k.code, locks);
    PressTracked(t, XK_CAPS_LOCK, "CapsLock", locks);
    SendDownTracked(t, Symbol(p, s, k), k.code, locks);
  }

  lemma KeyUpTracked(p: Platform, s: State, k: Key)
    requires Tracked(s)
    ensures Tracked(HandleKeyUp(p, s, k))
  {
    SendDownTracked(s.(armed := false), XK_CONTROL_L, "ControlLeft", UNKNOWN);
    hide SendDown, Press, Release;
    var t := if s.armed then SendControl(s.(armed := false), UNKNOWN) else s;
    assert Tracked(t);
    hide Tracked, SendControl;
    PressTracked(t, XK_CAPS_LOCK, "CapsLock", UNKNOWN);
    ReleaseTracked(t, k.code, UNKNOWN);
    var u := Release(t, k.code, UNKNOWN);
    ReleaseTracked(u, "ShiftRight", UNKNOWN);
    ReleaseTracked(Release(u, "ShiftRight", UNKNOWN), "ShiftLeft", UNKNOWN);
  }

  /** Over every run, the list is exactly the keys the emitted events leave down. */
  lemma {:induction false} RunTracked(p: Platform, inputs: seq<Input>)
    ensures Tracked(Run(p, START, inputs))
  {
    if |inputs| > 0 {
      RunTracked(p, inputs[..|inputs| - 1]);
      hide Tracked;
      StepTracked(p, Run(p, START, inputs[..|inputs| - 1]), inputs[|inputs| - 1]);
    }
  }

  /** The last event for a code before position `n`, or -1. */
  function LastOf(log: seq<KeyEvent>, code: string, n: nat): (i: int)
    requires n <= |log|
    ensures -1 <= i < n && (i >= 0 ==> log[i].code == code)
    ensures forall k | i < k < n :: log[k].code != code
  {
    if n == 0 then -1 else if log[n - 1].code == code then n - 1 else LastOf(log, code, n - 1)
  }

  lemma {:induction false} ReplayPrefix(log: seq<KeyEvent>, n: nat)
    requires n <= |log| && Replay(log).Some?
    ensures Replay(log[..n]).Some?
    decreases |log|
  {
    if n < |log| {
      ReplayPrefix(log[..|log| - 1], n);
      assert log[..|log| - 1][..n] == log[..n];
    } else {
      assert log[..n] == log;
    }
  }

  /** A code is down for the receiver exactly when its last event is a press, of that keysym. */
  lemma {:induction false} DownIsLast(log: seq<KeyEvent>, code: string, n: nat)
    requires n <= |log| && Replay(log[..n]).Some?
    ensures var m := Replay(log[..n]).value; var i := LastOf(log, code, n);
            (code in m <==> i >= 0 && log[i].down) && (code in m ==> m[code] == log[i].keysym)
  {
    if n > 0 {
      assert log[..n][..n - 1] == log[..n - 1];
      DownIsLast(log, code, n - 1);
    }
  }

  /**
   * Key history: in every run, each code's events alternate, beginning with a press, and each
   * release carries the keysym of the press before it.
   */
  lemma EventsAlternate(p: Platform, inputs: seq<Input>, n: nat)
    requires n < |Run(p, START, inputs).log|
    ensures var log := Run(p, START, inputs).log; var i := LastOf(log, log[n].code, n);
            if log[n].down then i < 0 || !log[i].down
            else i >= 0 && log[i].down && log[i].keysym == log[n].keysym
  {
    var s := Run(p, START, inputs);
    RunTracked(p, inputs);
    ReplayPrefix(s.log, n + 1);
    assert s.log[..n + 1][..n] == s.log[..n];
    DownIsLast(s.log, s.log[n].code, n);
    hide Run;
  }

  // ---------------------------------------------------------------- the held-back ControlLeft

  function NewEvents(s: State, t: State): seq<KeyEvent> {
    if |s.log| <= |t.log| then t.log[|s.log|..] else []
  }

  ghost predicate Extends(s: State, t: State) { s.log <= t.log }

  lemma {:induction false} ReleaseAllExtends(s: State, codes: seq<string>)
    ensures Extends(s, ReleaseAll(s, codes)) && ReleaseAll(s, codes).armed == s.armed
    ensures ReleaseAll(s, codes).ctrlTime == s.ctrlTime
    ensures forall e | e in NewEvents(s, ReleaseAll(s, codes)) :: !e.down
    decreases |codes|
  {
    if |codes| > 0 {
      var t := Release(s, codes[0], UNKNOWN);
      ReleaseAllExtends(t, codes[1..]);
      var u := ReleaseAll(s, codes);
      assert NewEvents(s, u) == NewEvents(s, t) + NewEvents(t, u);
    }
  }

  /** The first event a held-back key leads to, if the next input is not a loss of focus. */
  ghost predicate SentFirst(s: State, t: State) {
    s.log < t.log && t.log[|s.log|].down && t.log[|s.log|].code == "ControlLeft"
        && t.log[|s.log|].keysym == XK_CONTROL_L
  }

  ghost predicate NoControl(s: State, t: State) {
    s.log <= t.log && forall e | e in NewEvents(s, t) :: e.code != "ControlLeft"
  }

  predicate Drops(s: State, i: Input) { i.KeyDown? && CompletesAltGr(s, i.key) }

  lemma SendDownExtends(s: State, keysym: Keysym, code: string, locks: Locks)
    ensures var t := SendDown(s, keysym, code, locks); Extends(s, t) && s.log < t.log
    ensures code !in s.keys ==> SendDown(s, keysym, code, locks).log == s.log + [KeyEvent(keysym, code, true, locks)]
    ensures code != "ControlLeft" ==> NoControl(s, SendDown(s, keysym, code, locks))
  {
  }

  lemma SendUpExtends(s: State, keysym: Keysym, code: string, locks: Locks)
    ensures Extends(s, SendUp(s, keysym, code, locks))
    ensures code != "ControlLeft" ==> NoControl(s, SendUp(s, keysym, code, locks))
  {
  }

  lemma Joined(s: State, t: State, u: State)
    requires Extends(s, t) && Extends(t, u)
    ensures Extends(s, u)
    ensures NoControl(s, t) && NoControl(t, u) ==> NoControl(s, u)
    ensures SentFirst(s, t) ==> SentFirst(s, u)
  {
    assert NewEvents(s, u) == NewEvents(s, t) + NewEvents(t, u);
  }

  lemma PressExtends(s: State, keysym: Keysym, code: string, locks: Locks)
    ensures Extends(s, Press(s, keysym, code, locks))
    ensures code != "ControlLeft" ==> NoControl(s, Press(s, keysym, code, locks))
  {
    hide SendDown, SendUp, NoControl, Extends;
    var t := SendDown(s, keysym, code, locks);
    SendDownExtends(s, keysym, code, locks);
    SendUpExtends(t, keysym, code, locks);
    Joined(s, t, SendUp(t, keysym, code, locks));
  }

  /** Held back: the key is not in the list while the detection is armed. */
  ghost predicate HeldBack(s: State) { s.armed ==> "ControlLeft" !in s.keys }

  lemma ControlSent(s: State, locks: Locks)
    requires HeldBack(s) && s.armed
    ensures SentFirst(s, SendControl(s.(armed := false), locks))
  {
    SendDownExtends(s.(armed := false), XK_CONTROL_L, "ControlLeft", locks);
  }

  /** After the disarming, whatever else the handler emits comes later. */
  lemma KeyDownAfter(p: Platform, s: State, k: Key)
    ensures Extends(Disarm(p, s, k), HandleKeyDown(p, s, k))
    ensures k.code != "ControlLeft" && !(p.apple && k.code == "CapsLock")
        ==> NoControl(Disarm(p, s, k), HandleKeyDown(p, s, k))
  {
    hide Symbol, NeverReleased, Press, SendDown, Disarm;
    var t := Disarm(p, s, k);
    var locks := LocksOf(p, k);
    PressExtends(t, k.keysym, k.code, locks);
    PressExtends(t, Symbol(p, s, k), k.code, locks);
    PressExtends(t, XK_CAPS_LOCK, "CapsLock", locks);
    SendDownExtends(t, Symbol(p, s, k), k.code, locks);
  }

  lemma KeyUpAfter(p: Platform, s: State, k: Key)
    requires HeldBack(s) && s.armed
    ensures SentFirst(s, HandleKeyUp(p, s, k)) && !HandleKeyUp(p, s, k).armed
  {
    ControlSent(s, UNKNOWN);
    var t := SendControl(s.(armed := false), UNKNOWN);
    assert !t.armed;
    hide SendControl, SentFirst;
    PressExtends(t, XK_CAPS_LOCK, "CapsLock", UNKNOWN);
    Joined(s, t, Press(t, XK_CAPS_LOCK, "CapsLock", UNKNOWN));
    ReleaseExtends(t, k.code, UNKNOWN);
    var u := Release(t, k.code, UNKNOWN);
    ReleaseExtends(u, "ShiftRight", UNKNOWN);
    var v := Release(u, "ShiftRight", UNKNOWN);
    ReleaseExtends(v, "ShiftLeft", UNKNOWN);
    Joined(s, t, u);
    Joined(s, u, v);
    Joined(s, v, Release(v, "ShiftLeft", UNKNOWN));
  }

  lemma ReleaseExtends(s: State, code: string, locks: Locks)
    ensures Extends(s, Release(s, code, locks)) && Release(s, code, locks).armed == s.armed
  {
    SendUpExtends(s, if code in s.keys then s.keys[code] else None, code, locks);
  }

  /**
   * One input while ControlLeft is held back: it goes out before anything else, or is dropped
   * for an AltRight within 50 ms; a loss of focus alone leaves it held back.
   */
  lemma HeldBackStep(p: Platform, s: State, i: Input)
    requires HeldBack(s) && s.armed
    ensures i.Blur? ==>
      && Step(p, s, i).armed && Step(p, s, i).ctrlTime == s.ctrlTime
      && forall e | e in NewEvents(s, Step(p, s, i)) :: !e.down
    ensures Drops(s, i) ==> NoControl(s, Step(p, s, i)) && !Step(p, s, i).armed
    ensures !i.Blur? && !Drops(s, i) ==> SentFirst(s, Step(p, s, i))
  {
    match i
    case KeyDown(k) =>
      KeyDownAfter(p, s, k);
      var t := Disarm(p, s, k);
      if Drops(s, i) {
        assert t.log == s.log;
        AltRightDown(p, s, k);
      } else {
        ControlSent(s, LocksOf(p, k));
        assert t == SendControl(s.(armed := false), LocksOf(p, k));
        hide Disarm, HandleKeyDown, SendControl;
        SentExtends(s, t);
        Joined(s, t, HandleKeyDown(p, s, k));
      }
    case KeyUp(k) => KeyUpAfter(p, s, k);
    case Blur => ReleaseAllExtends(s, s.order);
    case AltGrTimeout => ControlSent(s, UNKNOWN);
  }

  lemma SentExtends(s: State, t: State)
    requires SentFirst(s, t)
    ensures Extends(s, t)
  {
  }

  lemma AltRightDown(p: Platform, s: State, k: Key)
    requires k.code == "AltRight" && s.armed && CompletesAltGr(s, k)
    ensures !HandleKeyDown(p, s, k).armed
  {
    hide Symbol, NeverReleased;
  }

  /** The first input from `n` on that is not a loss of focus. */
  function NextKey(inputs: seq<Input>, n: nat): (j: nat)
    requires n <= |inputs|
    ensures n <= j <= |inputs| && (forall k | n <= k < j :: inputs[k].Blur?)
    ensures j < |inputs| ==> !inputs[j].Blur?
    decreases |inputs| - n
  {
    if n == |inputs| || !inputs[n].Blur? then n else NextKey(inputs, n + 1)
  }

  lemma {:induction false} ReleaseAllShrinks(s: State, codes: seq<string>)
    ensures forall c | c in ReleaseAll(s, codes).keys :: c in s.keys
    decreases |codes|
  {
    if |codes| > 0 {
      ReleaseAllShrinks(Release(s, codes[0], UNKNOWN), codes[1..]);
    }
  }

  lemma StepHoldsBack(p: Platform, s: State, i: Input)
    requires HeldBack(s)
    ensures HeldBack(Step(p, s, i))
  {
    match i
    case KeyDown(k) => hide Symbol, NeverReleased;
    case KeyUp(k) =>
    case Blur => ReleaseAllExtends(s, s.order); ReleaseAllShrinks(s, s.order);
    case AltGrTimeout =>
  }

  lemma {:induction false} RunHoldsBack(p: Platform, inputs: seq<Input>)
    ensures HeldBack(Run(p, START, inputs))
  {
    if |inputs| > 0 {
      RunHoldsBack(p, inputs[..|inputs| - 1]);
      StepHoldsBack(p, Run(p, START, inputs[..|inputs| - 1]), inputs[|inputs| - 1]);
    }
  }

  /** The state after the first `n` inputs. */
  function At(p: Platform, inputs: seq<Input>, n: nat): State
    requires n <= |inputs|
  {
    Run(p, START, inputs[..n])
  }

  lemma AtNext(p: Platform, inputs: seq<Input>, n: nat)
    requires n < |inputs|
    ensures At(p, inputs, n + 1) == Step(p, At(p, inputs, n), inputs[n])
  {
    assert inputs[..n + 1][..n] == inputs[..n];
  }

  lemma {:induction false} StaysHeldBack(p: Platform, inputs: seq<Input>, n: nat, k: nat)
    requires n <= |inputs| && n <= k <= NextKey(inputs, n) && At(p, inputs, n).armed
    ensures At(p, inputs, k).armed && At(p, inputs, k).ctrlTime == At(p, inputs, n).ctrlTime
    ensures Extends(At(p, inputs, n), At(p, inputs, k))
    ensures forall e | e in NewEvents(At(p, inputs, n), At(p, inputs, k)) :: !e.down
  {
    hide Step, Run;
    if n < k {
      StaysHeldBack(p, inputs, n, k - 1);
      AtNext(p, inputs, k - 1);
      hide At;
      var s, t := At(p, inputs, n), At(p, inputs, k - 1);
      BlurKeepsHolding(p, s, t);
    }
  }

  lemma BlurKeepsHolding(p: Platform, s: State, t: State)
    requires t.armed && Extends(s, t) && forall e | e in NewEvents(s, t) :: !e.down
    ensures var u := Step(p, t, Blur);
            u.armed && u.ctrlTime == t.ctrlTime && Extends(s, u) && forall e | e in NewEvents(s, u) :: !e.down
  {
    var u := Step(p, t, Blur);
    ReleaseAllExtends(t, t.order);
    assert NewEvents(s, u) == NewEvents(s, t) + NewEvents(t, u);
  }

  /**
   * In every run a held-back ControlLeft stays held back until the next key event or timeout;
   * that one either drops it, being an AltRight pressed less than 50 ms after it, or sends it
   * first.
   */
  lemma HeldBackFate(p: Platform, inputs: seq<Input>, n: nat)
    requires n <= |inputs| && At(p, inputs, n).armed
    ensures var s := At(p, inputs, n); var j := NextKey(inputs, n); var t := At(p, inputs, j);
            && t.armed && Extends(s, t)
            && (forall e | e in NewEvents(s, t) :: !e.down)
            && (j < |inputs| ==>
                  var u := At(p, inputs, j + 1);
                  if inputs[j].KeyDown? && inputs[j].key.code == "AltRight"
                      && inputs[j].key.timeStamp - s.ctrlTime < 50.0
                  then NoControl(t, u) && !u.armed
                  else SentFirst(t, u))
  {
    hide Step, Run, At, NoControl, SentFirst, HeldBack, NextKey;
    var j := NextKey(inputs, n);
    StaysHeldBack(p, inputs, n, j);
    AtHoldsBack(p, inputs, j);
    if j < |inputs| {
      AtNext(p, inputs, j);
      HeldBackStep(p, At(p, inputs, j), inputs[j]);
    }
  }

  lemma AtHoldsBack(p: Platform, inputs: seq<Input>, n: nat)
    requires n <= |inputs|
    ensures HeldBack(At(p, inputs, n))
  {
    RunHoldsBack(p, inputs[..n]);
  }

  /** The events of one press, with the keysym that an earlier one in the list is released with. */
  function AltGrEvents(s: State, locks: Locks): seq<KeyEvent> {
    if "AltRight" in s.keys
    then [KeyEvent(s.keys["AltRight"], "AltRight", false, locks), KeyEvent(s.keys["AltRight"], "AltRight", true, locks)]
    else [KeyEvent(XK_ISO_LEVEL3_SHIFT, "AltRight", true, locks)]
  }

  /** A merged AltGr reaches the receiver as one press of AltRight, a fresh one if it was down, and no ControlLeft. */
  lemma AltGrIsOnePress(p: Platform, s: State, k: Key)
    requires s.armed && CompletesAltGr(s, k) && !p.apple
    requires "AltRight" in s.keys ==> !NeverReleased(s.keys["AltRight"])
    ensures HandleKeyDown(p, s, k).log == s.log + AltGrEvents(s, LocksOf(p, k))
  {
    if "AltRight" in s.keys {
      assert s.log + [KeyEvent(s.keys["AltRight"], "AltRight", false, LocksOf(p, k))]
               + [KeyEvent(s.keys["AltRight"], "AltRight", true, LocksOf(p, k))]
          == s.log + AltGrEvents(s, LocksOf(p, k));
    }
  }

  // ---------------------------------------------------------------- losing focus, repeats

  /** A loss of focus leaves no key down. */
  lemma BlurReleasesAll(p: Platform, s: State)
    requires Tracked(s)
    ensures Step(p, s, Blur).keys == map[] && Tracked(Step(p, s, Blur))
  {
    ReleaseAllTracked(s, s.order);
    var t := ReleaseAll(s, s.order);
    assert forall c :: c !in t.keys;
    assert t.keys == map[];
  }

  /**
   * But the timer is not stopped: all keys stay up exactly when no ControlLeft was held back,
   * for otherwise its press goes out after the focus is lost.
   */
  lemma BlurIsFinalExactlyWhen(p: Platform, s: State)
    requires Tracked(s)
    ensures Step(p, Step(p, s, Blur), AltGrTimeout).keys == map[] <==> !s.armed
  {
    BlurReleasesAll(p, s);
    ReleaseAllExtends(s, s.order);
    var t := Step(p, s, Blur);
    if t.armed {
      SendDownTracked(t.(armed := false), XK_CONTROL_L, "ControlLeft", UNKNOWN);
      assert "ControlLeft" in Step(p, t, AltGrTimeout).keys;
    }
  }

  /** The case happens: ControlLeft, loss of focus, timeout. */
  lemma ControlPressedAfterBlur(k: Key)
    requires k.code == "ControlLeft" && !NeverReleased(k.keysym)
    ensures Run(Platform(false, true), START, [KeyDown(k), Blur, AltGrTimeout]).keys
        == map["ControlLeft" := XK_CONTROL_L]
  {
    var p := Platform(false, true);
    var inputs := [KeyDown(k), Blur, AltGrTimeout];
    assert inputs[..2] == [KeyDown(k), Blur] && inputs[..2][..1] == [KeyDown(k)] && inputs[..1][..0] == [];
    var s1 := Step(p, START, KeyDown(k));
    assert Run(p, START, []) == START && Run(p, START, [KeyDown(k)]) == s1;
    assert s1.armed && s1.order == [] && s1.keys == map[];
  }

  /** A key-down that no special case catches. */
  predicate Plain(p: Platform, s: State, k: Key) {
    && !s.armed && k.code != "Unidentified"
    && !(p.apple && (k.meta || k.code == "CapsLock"))
    && !(p.windows && NeverReleased(Symbol(p, s, k)))
  }

  /**
   * A client's repeat of a held key reaches the receiver as a release and a fresh press with
   * the same keysym, and no other key changes.
   */
  lemma RepeatIsFreshPress(p: Platform, s: State, k: Key)
    requires Plain(p, s, k) && k.code in s.keys
    ensures HandleKeyDown(p, s, k).keys == s.keys && HandleKeyDown(p, s, k).order == s.order
    ensures HandleKeyDown(p, s, k).log
         == s.log + [KeyEvent(s.keys[k.code], k.code, false, LocksOf(p, k)),
                     KeyEvent(s.keys[k.code], k.code, true, LocksOf(p, k))]
  {
    hide NeverReleased;
  }

  // ---------------------------------------------------------------- the object

  class Keyboard {
    const platform: Platform
    var keyDownList: map<string, Keysym>
    var inserted: seq<string>
    var altGrArmed: bool
    var altGrTimeout: bool
    var altGrCtrlTime: real
    var events: seq<KeyEvent>

    ghost function Current(): State
      reads this
    {
      State(keyDownList, inserted, altGrArmed, altGrCtrlTime, events)
    }

    /** The timer runs exactly while the detection is armed. */
    ghost predicate Valid()
      reads this
    {
      Tracked(Current()) && HeldBack(Current()) && altGrTimeout == altGrArmed
    }

    constructor (platform: Platform)
      ensures Valid() && Current() == START && this.platform == platform
    {
      this.platform := platform;
      keyDownList, inserted := map[], [];
      altGrArmed, altGrTimeout, altGrCtrlTime := false, false, 0.0;
      events := [];
    }

    method SendKeyEvent(keysym: Keysym, code: string, down: bool, locks: Locks)
      modifies this
      ensures Current()
          == if down then SendDown(old(Current()), keysym, code, locks) else SendUp(old(Current()), keysym, code, locks)
      ensures altGrTimeout == old(altGrTimeout)
    {
      if down {
        if code in keyDownList {
          events := events + [KeyEvent(keyDownList[code], code, false, locks)];
        } else {
          inserted := inserted + [code];
        }
        keyDownList := keyDownList[code := keysym];
      } else {
        if code !in keyDownList {
          return;
        }
        keyDownList := keyDownList - {code};
        inserted := Without(inserted, code);
      }
      events := events + [KeyEvent(keysym, code, down, locks)];
    }

    /** Two of the source's consecutive `_sendKeyEvent` calls. */
    method SendPress(keysym: Keysym, code: string, locks: Locks)
      modifies this
      ensures Current() == Press(old(Current()), keysym, code, locks) && altGrTimeout == old(altGrTimeout)
    {
      SendKeyEvent(keysym, code, true, locks);
      SendKeyEvent(keysym, code, false, locks);
    }

    method SendRelease(code: string, locks: Locks)
      modifies this
      ensures Current() == Release(old(Current()), code, locks) && altGrTimeout == old(altGrTimeout)
    {
      SendKeyEvent(if code in keyDownList then keyDownList[code] else None, code, false, locks);
    }

    method EndDetection(k: Key, locks: Locks) returns (keysym: Keysym)
      requires Valid() && locks == LocksOf(platform, k)
      modifies this
      ensures Current() == Disarm(platform, old(Current()), k) && altGrTimeout == altGrArmed
      ensures keysym == if old(altGrArmed) && CompletesAltGr(old(Current()), k) then XK_ISO_LEVEL3_SHIFT else k.keysym
    {
      keysym := k.keysym;
      if altGrArmed {
        altGrArmed := false;
        altGrTimeout := false;
        if k.code == "AltRight" && k.timeStamp - altGrCtrlTime < 50.0 {
          keysym := XK_ISO_LEVEL3_SHIFT;
        } else {
          SendKeyEvent(XK_CONTROL_L, "ControlLeft", true, locks);
        }
      }
    }

    method HandleDown(k: Key)
      requires Valid()
      modifies this
      ensures Current() == HandleKeyDown(platform, old(Current()), k) && Valid()
    {
      ghost var s := Current();
      KeyDownTracked(platform, s, k);
      StepHoldsBack(platform, s, KeyDown(k));
      hide Tracked, HeldBack, NeverReleased, SendDown, SendUp;
      var locks := LocksOf(platform, k);
      var keysym := EndDetection(k, locks);
      if k.code == "Unidentified" {
        AltRightIsNamed(s, k);
        if keysym.Some? && keysym.value != 0 {
          SendPress(keysym, k.code, locks);
        }
        return;
      }
      if platform.apple {
        keysym := AppleSymbol(keysym);
      }
      if k.code in keyDownList {
        keysym := keyDownList[k.code];
      }
      assert keysym == Symbol(platform, s, k);
      hide Symbol, Disarm;
      if platform.apple && k.meta && k.code != "MetaLeft" && k.code != "MetaRight" {
        SendPress(keysym, k.code, locks);
        return;
      }
      if platform.apple && k.code == "CapsLock" {
        SendPress(XK_CAPS_LOCK, "CapsLock", locks);
        return;
      }
      if platform.windows && NeverReleased(keysym) {
        SendPress(keysym, k.code, locks);
        return;
      }
      if k.code == "ControlLeft" && platform.windows && "ControlLeft" !in keyDownList {
        altGrArmed := true;
        altGrTimeout := true;
        altGrCtrlTime := k.timeStamp;
        return;
      }
      SendKeyEvent(keysym, k.code, true, locks);
    }

    method HandleUp(k: Key)
      requires Valid()
      modifies this
      ensures Current() == HandleKeyUp(platform, old(Current()), k) && Valid()
    {
      KeyUpTracked(platform, Current(), k);
      StepHoldsBack(platform, Current(), KeyUp(k));
      hide Tracked, HeldBack, SendDown, SendUp;
      if altGrArmed {
        altGrArmed := false;
        altGrTimeout := false;
        SendKeyEvent(XK_CONTROL_L, "ControlLeft", true, UNKNOWN);
      }
      if platform.apple && k.code == "CapsLock" {
        SendPress(XK_CAPS_LOCK, "CapsLock", UNKNOWN);
        return;
      }
      SendRelease(k.code, UNKNOWN);
      if platform.windows && (k.code == "ShiftLeft" || k.code == "ShiftRight") {
        SendRelease("ShiftRight", UNKNOWN);
        SendRelease("ShiftLeft", UNKNOWN);
      }
    }

    /** The browser calls this only while the timer is set. */
    method HandleAltGrTimeout()
      requires Valid() && altGrTimeout
      modifies this
      ensures Current() == HandleTimeout(old(Current())) && Valid()
    {
      StepTracked(platform, Current(), AltGrTimeout);
      StepHoldsBack(platform, Current(), AltGrTimeout);
      altGrArmed := false;
      altGrTimeout := false;
      SendKeyEvent(XK_CONTROL_L, "ControlLeft", true, UNKNOWN);
    }

    /** Loss of focus, and the end of `ungrab`: every key goes up, in the order it went down. */
    method AllKeysUp()
      requires Valid()
      modifies this
      ensures Current() == ReleaseAll(old(Current()), old(inserted)) && Valid() && keyDownList == map[]
    {
      BlurReleasesAll(platform, Current());
      StepTracked(platform, Current(), Blur);
      StepHoldsBack(platform, Current(), Blur);
      ReleaseAllExtends(Current(), inserted);
      hide Tracked, HeldBack, Release;
      ghost var final := ReleaseAll(Current(), inserted);
      var codes := inserted;
      while |codes| > 0
        invariant ReleaseAll(Current(), codes) == final && altGrTimeout == old(altGrTimeout)
        decreases |codes|
      {
        SendRelease(codes[0], UNKNOWN);
        codes := codes[1..];
      }
    }
  }

  lemma AltRightIsNamed(s: State, k: Key)
    requires k.code == "Unidentified"
    ensures !CompletesAltGr(s, k)
  {
  }
}
