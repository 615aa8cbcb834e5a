/** The client's input path: the uinput injector (crates/platform/src/linux/inject.rs) and the
    handling of inbound messages (`inbound_loop`, `resync_modifiers` in crates/daemon/src/session.rs). */
module Injector {
  import opened I32
  import opened Wrappers
  import opened Input
  import opened Protocol

  const EV_SYN := 0
  const EV_KEY := 1
  const EV_REL := 2
  const REL_X := 0
  const REL_Y := 1
  const REL_HWHEEL := 6
  const REL_WHEEL := 8
  const REL_WHEEL_HI_RES := 11
  const REL_HWHEEL_HI_RES := 12

  datatype Evdev = Evdev(kind: int, code: int, value: int)

  const SYN := Evdev(EV_SYN, 0, 0)

  function KeyRaw(code: int, value: int): Evdev {
    Evdev(EV_KEY, code, value)
  }

  function Rel(axis: int, value: int): Evdev {
    Evdev(EV_REL, axis, value)
  }

  function StateValue(s: KeyState): int {
    if s == Pressed then 1 else 0
  }

  function EvdevCode(k: KeyCode): int {
    k + 8
  }

  function HidToEvdev(k: KeyCode): Option<int> {
    if 4 <= k <= 0xE7 then Some(k + 8) else None
  }

  function ButtonToEvdev(b: Button): Option<int> {
    match b
    case LeftButton => Some(0x110)
    case RightButton => Some(0x111)
    case MiddleButton => Some(0x112)
    case BackButton => Some(0x116)
    case ForwardButton => Some(0x115)
    case OtherButton(_) => None
  }

  /** How far a wheel has been turned, in notches and in the high-resolution unit. */
  datatype Turned = Turned(notches: int, fine: int)

  /** What the kernel makes of the events: the keys and buttons held down, the accumulated pointer motion, and
      that of the two wheels. */
  datatype Device = Device(keys: set<int>, at: Point, vertical: Turned, horizontal: Turned)

  const IDLE_DEVICE := Device({}, Point(0, 0), Turned(0, 0), Turned(0, 0))

  /** By the event types and codes of the kernel's input interface. */
  function Absorb(d: Device, e: Evdev): Device {
    if e.kind == 1 then d.(keys := if e.value == 0 then d.keys - {e.code} else d.keys + {e.code})
    else if e.kind == 2 && e.code == 0 then d.(at := d.at.(x := d.at.x + e.value))
    else if e.kind == 2 && e.code == 1 then d.(at := d.at.(y := d.at.y + e.value))
    else if e.kind == 2 && e.code == 8 then d.(vertical := d.vertical.(notches := d.vertical.notches + e.value))
    else if e.kind == 2 && e.code == 11 then d.(vertical := d.vertical.(fine := d.vertical.fine + e.value))
    else if e.kind == 2 && e.code == 6 then d.(horizontal := d.horizontal.(notches := d.horizontal.notches + e.value))
    else if e.kind == 2 && e.code == 12 then d.(horizontal := d.horizontal.(fine := d.horizontal.fine + e.value))
    else d
  }

  function Replay(d: Device, log: seq<Evdev>): Device
    decreases |log|
  {
    if log == [] then d else Replay(Absorb(d, log[0]), log[1..])
  }

  lemma {:induction false} ReplayAppend(d: Device, a: seq<Evdev>, b: seq<Evdev>)
    ensures Replay(d, a + b) == Replay(Replay(d, a), b)
    decreases |a|
  {
    if a == [] {
      assert a + b == b;
    } else {
      assert (a + b)[1..] == a[1..] + b;
      ReplayAppend(Absorb(d, a[0]), a[1..], b);
    }
  }

  datatype ClientState = ClientState(lastPos: Point, log: seq<Evdev>)

  const INITIAL_CLIENT := ClientState(Point(0, 0), [])

  function DeviceOf(c: ClientState): Device {
    Replay(IDLE_DEVICE, c.log)
  }

  function WriteBatch(c: ClientState, evs: seq<Evdev>): ClientState {
    c.(log := c.log + (evs + [SYN]))
  }

  function Wheel(horizontal: int, vertical: int): seq<Evdev> {
    (if vertical != 0 then [Rel(REL_WHEEL, vertical), Rel(REL_WHEEL_HI_RES, vertical * 120)] else [])
    + (if horizontal != 0 then [Rel(REL_HWHEEL, horizontal), Rel(REL_HWHEEL_HI_RES, horizontal * 120)] else [])
  }

  /** An absolute move becomes relative motion from the last known position. */
  function MoveTo(c: ClientState, p: Point): ClientState {
    var dx, dy := Wrap(p.x - c.lastPos.x), Wrap(p.y - c.lastPos.y);
    var c := c.(lastPos := p);
    if dx != 0 || dy != 0 then WriteBatch(c, [Rel(REL_X, dx), Rel(REL_Y, dy)]) else c
  }

  function MoveBy(c: ClientState, dx: int, dy: int): ClientState {
    WriteBatch(c.(lastPos := Point(Saturate(c.lastPos.x + dx), Saturate(c.lastPos.y + dy))),
               [Rel(REL_X, dx), Rel(REL_Y, dy)])
  }

  function Inject(c: ClientState, ev: InputEvent): ClientState {
    match ev
    case Mouse(Move(x, y)) => MoveTo(c, Point(x, y))
    case Mouse(MoveRelative(dx, dy)) => MoveBy(c, dx, dy)
    case Mouse(ButtonEvent(b, st)) =>
      var code := ButtonToEvdev(b);
      if code.None? then c else WriteBatch(c, [KeyRaw(code.value, StateValue(st))])
    case Mouse(Scroll(h, v)) =>
      if Wheel(h, v) == [] then c else WriteBatch(c, Wheel(h, v))
    case Key(k) =>
      var code := HidToEvdev(k.code);
      if code.None? then c else WriteBatch(c, [KeyRaw(code.value, StateValue(k.state))])
    case _ => c
  }

  const RELEASE_ORDER: seq<KeyCode> :=
    [LEFT_CTRL, RIGHT_CTRL, LEFT_SHIFT, RIGHT_SHIFT, LEFT_ALT, RIGHT_ALT, LEFT_SUPER, RIGHT_SUPER]

  /** The codes the program gives to the eight modifier keys. */
  function ModifierCodes(): set<int> {
    {232, 233, 234, 235, 236, 237, 238, 239}
  }

  lemma ReleasedCodes()
    ensures (set k | k in RELEASE_ORDER :: EvdevCode(k)) == ModifierCodes()
  {
    forall code | code in ModifierCodes() ensures exists k :: k in RELEASE_ORDER && EvdevCode(k) == code {
      assert RELEASE_ORDER[0] in RELEASE_ORDER && RELEASE_ORDER[1] in RELEASE_ORDER && RELEASE_ORDER[2] in RELEASE_ORDER
          && RELEASE_ORDER[3] in RELEASE_ORDER && RELEASE_ORDER[4] in RELEASE_ORDER && RELEASE_ORDER[5] in RELEASE_ORDER
          && RELEASE_ORDER[6] in RELEASE_ORDER && RELEASE_ORDER[7] in RELEASE_ORDER;
    }
  }

  function Releases(keys: seq<KeyCode>): seq<Evdev> {
    if keys == [] then [] else [KeyRaw(EvdevCode(keys[0]), 0)] + Releases(keys[1..])
  }

  function ReleaseAll(c: ClientState): ClientState {
    WriteBatch(c, Releases(RELEASE_ORDER))
  }

  const RESYNC_ORDER: seq<(Modifier, KeyCode)> :=
    [(SHIFT, LEFT_SHIFT), (CTRL, LEFT_CTRL), (ALT, LEFT_ALT), (SUPER, LEFT_SUPER)]

  function PressFlagged(c: ClientState, target: ModifierState, pairs: seq<(Modifier, KeyCode)>): ClientState
    decreases |pairs|
  {
    if pairs == [] then c
    else
      var (flag, code) := pairs[0];
      var c := if flag in target then Inject(c, Key(KeyEvent(code, Pressed, target, None))) else c;
      PressFlagged(c, target, pairs[1..])
  }

  function Resync(c: ClientState, target: ModifierState): ClientState {
    PressFlagged(ReleaseAll(c), target, RESYNC_ORDER)
  }

  /** `inbound_loop` on the client, as far as it touches the injector. */
  function Handle(c: ClientState, m: Message): ClientState {
    match m
    case MouseMove(x, y) => Inject(c, Mouse(Move(x, y)))
    case MouseMoveRelative(dx, dy) => Inject(c, Mouse(MoveRelative(dx, dy)))
    case MouseButton(e) => Inject(c, Mouse(e))
    case MouseScroll(e) => Inject(c, Mouse(e))
    case KeyMessage(k) => Inject(c, Key(k))
    case ScreenEnter(x, y, mods) => Resync(Inject(c, Mouse(Move(x, y))), mods)
    case ScreenLeave(_) => ReleaseAll(c)
    case ModifierSync(mods) => Resync(c, mods)
    case _ => c
  }

  function HandleAll(c: ClientState, ms: seq<Message>): ClientState {
    if ms == [] then c else Handle(HandleAll(c, ms[..|ms| - 1]), ms[|ms| - 1])
  }

  class LinuxInject {
    var lastPos: Point
    var log: seq<Evdev>

    ghost function State(): ClientState
      reads this
    {
      ClientState(lastPos, log)
    }

    constructor ()
      ensures State() == INITIAL_CLIENT
    {
      lastPos, log := Point(0, 0), [];
    }

    method Write(events: seq<Evdev>)
      modifies this
      ensures State() == WriteBatch(old(State()), events)
    {
      log := log + (events + [SYN]);
    }

    method InjectEvent(ev: InputEvent)
      modifies this
      ensures State() == Inject(old(State()), ev)
    {
      match ev
      case Mouse(Move(x, y)) =>
        var dx, dy := Wrap(x - lastPos.x), Wrap(y - lastPos.y);
        lastPos := Point(x, y);
        if dx != 0 || dy != 0 {
          Write([Rel(REL_X, dx), Rel(REL_Y, dy)]);
        }
      case Mouse(MoveRelative(dx, dy)) =>
        lastPos := Point(Saturate(lastPos.x + dx), Saturate(lastPos.y + dy));
        Write([Rel(REL_X, dx), Rel(REL_Y, dy)]);
      case Mouse(ButtonEvent(b, st)) =>
        var code := ButtonToEvdev(b);
        if code.Some? {
          Write([KeyRaw(code.value, StateValue(st))]);
        }
      case Mouse(Scroll(h, v)) =>
        var evs: seq<Evdev> := [];
        if v != 0 {
          evs := evs + [Rel(REL_WHEEL, v), Rel(REL_WHEEL_HI_RES, v * 120)];
        }
        if h != 0 {
          evs := evs + [Rel(REL_HWHEEL, h), Rel(REL_HWHEEL_HI_RES, h * 120)];
        }
        assert evs == Wheel(h, v);
        if evs != [] {
          Write(evs);
        }
      case Key(k) =>
        var code := HidToEvdev(k.code);
        if code.Some? {
          Write([KeyRaw(code.value, StateValue(k.state))]);
        }
      case _ =>
    }

    method ReleaseAllModifiers()
      modifies this
      ensures State() == ReleaseAll(old(State()))
    {
      var events: seq<Evdev> := [];
      for i := 0 to |RELEASE_ORDER|
        invariant events + Releases(RELEASE_ORDER[i..]) == Releases(RELEASE_ORDER)
        invariant State() == old(State())
      {
        var release := KeyRaw(EvdevCode(RELEASE_ORDER[i]), 0);
        assert RELEASE_ORDER[i..][1..] == RELEASE_ORDER[i + 1..];
        assert events + ([release] + Releases(RELEASE_ORDER[i + 1..])) == (events + [release]) + Releases(RELEASE_ORDER[i + 1..]);
        events := events + [release];
      }
      Write(events);
    }
  }

  method ResyncModifiers(inject: LinuxInject, target: ModifierState)
    modifies inject
    ensures inject.State() == Resync(old(inject.State()), target)
  {
    inject.ReleaseAllModifiers();
    for i := 0 to |RESYNC_ORDER|
      invariant PressFlagged(inject.State(), target, RESYNC_ORDER[i..]) == Resync(old(inject.State()), target)
    {
      var (flag, code) := RESYNC_ORDER[i];
      assert RESYNC_ORDER[i..][1..] == RESYNC_ORDER[i + 1..];
      if flag in target {
        inject.InjectEvent(Key(KeyEvent(code, Pressed, target, None)));
      }
    }
  }

  method HandleInbound(inject: LinuxInject, m: Message)
    modifies inject
    ensures inject.State() == Handle(old(inject.State()), m)
  {
    match m
    case MouseMove(x, y) => inject.InjectEvent(Mouse(Move(x, y)));
    case MouseMoveRelative(dx, dy) => inject.InjectEvent(Mouse(MoveRelative(dx, dy)));
    case MouseButton(e) => inject.InjectEvent(Mouse(e));
    case MouseScroll(e) => inject.InjectEvent(Mouse(e));
    case KeyMessage(k) => inject.InjectEvent(Key(k));
    case ScreenEnter(x, y, mods) =>
      inject.InjectEvent(Mouse(Move(x, y)));
      ResyncModifiers(inject, mods);
    case ScreenLeave(_) => inject.ReleaseAllModifiers();
    case ModifierSync(mods) => ResyncModifiers(inject, mods);
    case _ =>
  }

  method InboundLoop(inject: LinuxInject, inbound: seq<Message>)
    modifies inject
    ensures inject.State() == HandleAll(old(inject.State()), inbound)
  {
    for i := 0 to |inbound|
      invariant inject.State() == HandleAll(old(inject.State()), inbound[..i])
    {
      HandleInbound(inject, inbound[i]);
      assert inbound[..i + 1][..i] == inbound[..i];
    }
    assert inbound[..|inbound|] == inbound;
  }

  /** A forwarded event is injected on the client as it was captured on the server. */
  lemma ForwardedIsInjected(c: ClientState, ev: InputEvent)
    requires ev.Mouse? || ev.Key?
    ensures Handle(c, FromInput(ev)) == Inject(c, ev)
  {
    match ev
    case Mouse(Move(_, _)) =>
    case Mouse(MoveRelative(_, _)) =>
    case Mouse(ButtonEvent(_, _)) =>
    case Mouse(Scroll(_, _)) =>
    case Key(_) =>
  }

  /** Every known key has a code of its own, the one the modifier release uses, and no button shares it. */
  lemma CodesAreDistinct(k: KeyCode, l: KeyCode, b: Button)
    ensures HidToEvdev(k).Some? <==> k != 0
    ensures HidToEvdev(k).Some? ==> HidToEvdev(k).value == EvdevCode(k)
    ensures HidToEvdev(k).Some? && HidToEvdev(k) == HidToEvdev(l) ==> k == l
    ensures ButtonToEvdev(b).Some? ==> ButtonToEvdev(b) != HidToEvdev(k)
  {
  }

  // What the messages do to the device

  /** The modifier keys held down on the client. */
  function HeldModifiers(c: ClientState): set<int> {
    DeviceOf(c).keys * ModifierCodes()
  }

  /** The left-hand keys of the flags that `resync_modifiers` looks at. */
  function LeftVariants(mods: ModifierState): set<int> {
    (if CTRL in mods then {232} else {}) + (if SHIFT in mods then {233} else {})
    + (if ALT in mods then {234} else {}) + (if SUPER in mods then {235} else {})
  }

  lemma {:induction false} ReplayReleases(d: Device, keys: seq<KeyCode>)
    ensures Replay(d, Releases(keys) + [SYN]) == d.(keys := d.keys - set k | k in keys :: EvdevCode(k))
    decreases |keys|
  {
    if keys == [] {
      assert Releases(keys) + [SYN] == [SYN];
      assert Replay(d, [SYN]) == Replay(Absorb(d, SYN), []);
    } else {
      var head := KeyRaw(EvdevCode(keys[0]), 0);
      assert (Releases(keys) + [SYN])[1..] == Releases(keys[1..]) + [SYN];
      ReplayReleases(Absorb(d, head), keys[1..]);
      assert (set k | k in keys :: EvdevCode(k))
          == {EvdevCode(keys[0])} + set k | k in keys[1..] :: EvdevCode(k);
    }
  }

  lemma ReleaseAllEffect(c: ClientState)
    ensures DeviceOf(ReleaseAll(c)) == DeviceOf(c).(keys := DeviceOf(c).keys - ModifierCodes())
  {
    ReplayAppend(IDLE_DEVICE, c.log, Releases(RELEASE_ORDER) + [SYN]);
    ReplayReleases(DeviceOf(c), RELEASE_ORDER);
    ReleasedCodes();
  }

  lemma WriteEffect(c: ClientState, evs: seq<Evdev>)
    ensures DeviceOf(WriteBatch(c, evs)) == Replay(DeviceOf(c), evs)
  {
    ReplayAppend(IDLE_DEVICE, c.log, evs + [SYN]);
    ReplayAppend(DeviceOf(c), evs, [SYN]);
    var d := Replay(DeviceOf(c), evs);
    assert [SYN][1..] == [] && Replay(Absorb(d, SYN), []) == d;
  }

  lemma WriteOneEffect(c: ClientState, e: Evdev)
    ensures DeviceOf(WriteBatch(c, [e])) == Absorb(DeviceOf(c), e)
  {
    WriteEffect(c, [e]);
    assert [e][1..] == [];
  }

  lemma ReplayTwo(d: Device, e: Evdev, f: Evdev)
    ensures Replay(d, [e, f]) == Absorb(Absorb(d, e), f)
  {
    assert [e, f][1..] == [f] && [f][1..] == [];
    assert Replay(d, [e, f]) == Replay(Absorb(d, e), [f]);
    assert Replay(Absorb(d, e), [f]) == Replay(Absorb(Absorb(d, e), f), []);
  }

  lemma {:induction false} PressFlaggedEffect(c: ClientState, target: ModifierState, pairs: seq<(Modifier, KeyCode)>)
    requires forall p :: p in pairs ==> p.1 >= 224
    ensures var d := PressFlagged(c, target, pairs);
            && d.lastPos == c.lastPos
            && DeviceOf(d) == DeviceOf(c).(keys := DeviceOf(c).keys + set p | p in pairs && p.0 in target :: EvdevCode(p.1))
    decreases |pairs|
  {
    if pairs == [] {
      assert (set p | p in pairs && p.0 in target :: EvdevCode(p.1)) == {};
    } else {
      var (flag, code) := pairs[0];
      var all := set p | p in pairs && p.0 in target :: EvdevCode(p.1);
      var rest := set p | p in pairs[1..] && p.0 in target :: EvdevCode(p.1);
      assert pairs == [pairs[0]] + pairs[1..];
      if flag in target {
        WriteOneEffect(c, KeyRaw(EvdevCode(code), 1));
        PressFlaggedEffect(Inject(c, Key(KeyEvent(code, Pressed, target, None))), target, pairs[1..]);
        assert pairs[0] in pairs;
        assert all == {EvdevCode(code)} + rest;
      } else {
        PressFlaggedEffect(c, target, pairs[1..]);
        assert all == rest;
      }
    }
  }

  lemma PressedAreLeftVariants(target: ModifierState)
    ensures (set p | p in RESYNC_ORDER && p.0 in target :: EvdevCode(p.1)) == LeftVariants(target)
  {
    assert RESYNC_ORDER[0] in RESYNC_ORDER && RESYNC_ORDER[1] in RESYNC_ORDER
        && RESYNC_ORDER[2] in RESYNC_ORDER && RESYNC_ORDER[3] in RESYNC_ORDER;
  }

  lemma LeftVariantsAreModifiers(target: ModifierState)
    ensures LeftVariants(target) <= ModifierCodes()
  {
  }

  /** A resync leaves exactly the left variants of the flags held among the modifiers, whatever was
      held before, and touches neither other keys nor the pointer nor the wheels. */
  lemma ResyncEffect(c: ClientState, target: ModifierState)
    ensures HeldModifiers(Resync(c, target)) == LeftVariants(target)
    ensures DeviceOf(Resync(c, target)).keys - ModifierCodes() == DeviceOf(c).keys - ModifierCodes()
    ensures DeviceOf(Resync(c, target)) == DeviceOf(c).(keys := DeviceOf(Resync(c, target)).keys)
    ensures Resync(c, target).lastPos == c.lastPos
  {
    ReleaseAllEffect(c);
    PressFlaggedEffect(ReleaseAll(c), target, RESYNC_ORDER);
    PressedAreLeftVariants(target);
    LeftVariantsAreModifiers(target);
    var before, modifiers, left := DeviceOf(c).keys, ModifierCodes(), LeftVariants(target);
    assert DeviceOf(Resync(c, target)).keys == (before - modifiers) + left;
  }

  /** The pointer the injector believes in is where its motion events have put it. */
  predicate Tracks(c: ClientState) {
    DeviceOf(c).at == c.lastPos && Fits(c.lastPos.x) && Fits(c.lastPos.y)
  }

  lemma MotionEffect(c: ClientState, dx: int, dy: int)
    ensures var d := DeviceOf(c);
            DeviceOf(WriteBatch(c, [Rel(REL_X, dx), Rel(REL_Y, dy)])) == d.(at := Point(d.at.x + dx, d.at.y + dy))
  {
    WriteEffect(c, [Rel(REL_X, dx), Rel(REL_Y, dy)]);
    ReplayTwo(DeviceOf(c), Rel(REL_X, dx), Rel(REL_Y, dy));
  }

  /** Whatever the positions, an absolute move leads the injector there and moves the device by the difference
      in i32, and nothing else happens to it. */
  lemma MoveToMotion(c: ClientState, p: Point)
    ensures var d := DeviceOf(c);
            DeviceOf(MoveTo(c, p))
            == d.(at := Point(d.at.x + Wrap(p.x - c.lastPos.x), d.at.y + Wrap(p.y - c.lastPos.y)))
    ensures MoveTo(c, p).lastPos == p
  {
    MovedBy(c, p, Wrap(p.x - c.lastPos.x), Wrap(p.y - c.lastPos.y));
  }

  lemma MovedBy(c: ClientState, p: Point, dx: int, dy: int)
    requires dx == Wrap(p.x - c.lastPos.x) && dy == Wrap(p.y - c.lastPos.y)
    ensures var d := DeviceOf(c); DeviceOf(MoveTo(c, p)) == d.(at := Point(d.at.x + dx, d.at.y + dy))
    ensures MoveTo(c, p).lastPos == p
  {
    if dx == 0 && dy == 0 {
      assert MoveTo(c, p) == c.(lastPos := p);
    } else {
      MotionEffect(c.(lastPos := p), dx, dy);
    }
  }

  /** A relative move moves the device by exactly what was asked for, and the position the injector believes in
      to the nearest one that fits. */
  lemma MoveByMotion(c: ClientState, dx: int, dy: int)
    ensures var d := DeviceOf(c); DeviceOf(MoveBy(c, dx, dy)) == d.(at := Point(d.at.x + dx, d.at.y + dy))
    ensures MoveBy(c, dx, dy).lastPos == Point(Saturate(c.lastPos.x + dx), Saturate(c.lastPos.y + dy))
  {
    MotionEffect(c.(lastPos := MoveBy(c, dx, dy).lastPos), dx, dy);
  }

  /** Without overflow the device stays where the injector believes it is. */
  lemma MoveToEffect(c: ClientState, p: Point)
    requires Tracks(c) && Fits(p.x) && Fits(p.y) && Fits(p.x - c.lastPos.x) && Fits(p.y - c.lastPos.y)
    ensures MoveTo(c, p).lastPos == p && Tracks(MoveTo(c, p)) && DeviceOf(MoveTo(c, p)).keys == DeviceOf(c).keys
  {
    WrapFits(p.x - c.lastPos.x);
    WrapFits(p.y - c.lastPos.y);
    MoveToMotion(c, p);
  }

  lemma MoveByEffect(c: ClientState, dx: int, dy: int)
    requires Tracks(c) && Fits(c.lastPos.x + dx) && Fits(c.lastPos.y + dy)
    ensures var d := MoveBy(c, dx, dy);
            d.lastPos == Point(c.lastPos.x + dx, c.lastPos.y + dy) && Tracks(d) && DeviceOf(d).keys == DeviceOf(c).keys
  {
    SaturateIsNearest(c.lastPos.x + dx, 0);
    SaturateIsNearest(c.lastPos.y + dy, 0);
    MoveByMotion(c, dx, dy);
  }

  /** Scrolling turns each wheel by its own axis' notches, and by 120 times as many of the fine unit. */
  lemma ScrollEffect(c: ClientState, h: int, v: int)
    ensures var d := DeviceOf(c);
            DeviceOf(Inject(c, Mouse(Scroll(h, v))))
            == d.(vertical := Turned(d.vertical.notches + v, d.vertical.fine + 120 * v),
                  horizontal := Turned(d.horizontal.notches + h, d.horizontal.fine + 120 * h))
    ensures Inject(c, Mouse(Scroll(h, v))).lastPos == c.lastPos
  {
    var d := DeviceOf(c);
    var up := if v != 0 then [Rel(REL_WHEEL, v), Rel(REL_WHEEL_HI_RES, v * 120)] else [];
    var across := if h != 0 then [Rel(REL_HWHEEL, h), Rel(REL_HWHEEL_HI_RES, h * 120)] else [];
    var turned := Turned(d.vertical.notches + v, d.vertical.fine + 120 * v);
    assert Wheel(h, v) == up + across;
    WriteEffect(c, up + across);
    ReplayAppend(d, up, across);
    if v != 0 {
      ReplayTwo(d, up[0], up[1]);
    }
    assert Replay(d, up) == d.(vertical := turned);
    if h != 0 {
      ReplayTwo(d.(vertical := turned), across[0], across[1]);
    }
  }

  /** A press or release on the device. */
  function Set(d: Device, code: int, st: KeyState): Device {
    d.(keys := if st == Pressed then d.keys + {code} else d.keys - {code})
  }

  /** A button or key goes down or comes up by its own code, which for a key is its number plus 8. */
  lemma PressEffect(c: ClientState, b: Button, k: KeyEvent, st: KeyState)
    ensures var d := DeviceOf(Inject(c, Mouse(ButtonEvent(b, st))));
            match b
            case LeftButton => d == Set(DeviceOf(c), 0x110, st)
            case RightButton => d == Set(DeviceOf(c), 0x111, st)
            case MiddleButton => d == Set(DeviceOf(c), 0x112, st)
            case ForwardButton => d == Set(DeviceOf(c), 0x115, st)
            case BackButton => d == Set(DeviceOf(c), 0x116, st)
            case OtherButton(_) => d == DeviceOf(c)
    ensures DeviceOf(Inject(c, Key(k))) == if k.code == 0 then DeviceOf(c) else Set(DeviceOf(c), k.code + 8, k.state)
  {
    if ButtonToEvdev(b).Some? {
      WriteOneEffect(c, KeyRaw(ButtonToEvdev(b).value, StateValue(st)));
    }
    if k.code != 0 {
      WriteOneEffect(c, KeyRaw(k.code + 8, StateValue(k.state)));
    }
  }

  /** The kernel passes events on at a report: nothing handled is left without one. */
  predicate AllReported(c: ClientState) {
    c.log == [] || c.log[|c.log| - 1] == Evdev(0, 0, 0)
  }

  lemma InjectedIsReported(c: ClientState, ev: InputEvent)
    requires AllReported(c)
    ensures AllReported(Inject(c, ev))
  {
  }

  lemma {:induction false} PressesAreReported(c: ClientState, target: ModifierState, pairs: seq<(Modifier, KeyCode)>)
    requires AllReported(c)
    ensures AllReported(PressFlagged(c, target, pairs))
    decreases |pairs|
  {
    if pairs != [] {
      var press := Key(KeyEvent(pairs[0].1, Pressed, target, None));
      InjectedIsReported(c, press);
      PressesAreReported(if pairs[0].0 in target then Inject(c, press) else c, target, pairs[1..]);
    }
  }

  lemma MessageIsReported(c: ClientState, m: Message)
    requires AllReported(c)
    ensures AllReported(Handle(c, m))
  {
    match m
    case MouseMove(x, y) => InjectedIsReported(c, Mouse(Move(x, y)));
    case MouseMoveRelative(dx, dy) => InjectedIsReported(c, Mouse(MoveRelative(dx, dy)));
    case MouseButton(e) => InjectedIsReported(c, Mouse(e));
    case MouseScroll(e) => InjectedIsReported(c, Mouse(e));
    case KeyMessage(k) => InjectedIsReported(c, Key(k));
    case ScreenEnter(x, y, mods) => PressesAreReported(ReleaseAll(Inject(c, Mouse(Move(x, y)))), mods, RESYNC_ORDER);
    case ScreenLeave(_) =>
    case ModifierSync(mods) => PressesAreReported(ReleaseAll(c), mods, RESYNC_ORDER);
    case _ =>
  }

  lemma {:induction false} HandledIsReported(c: ClientState, ms: seq<Message>)
    requires AllReported(c)
    ensures AllReported(HandleAll(c, ms))
  {
    if ms != [] {
      HandledIsReported(c, ms[..|ms| - 1]);
      MessageIsReported(HandleAll(c, ms[..|ms| - 1]), ms[|ms| - 1]);
    }
  }
}
