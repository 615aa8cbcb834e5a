/** Which keys and buttons are down on the client, modifiers apart. */
module HeldKeys {
  import opened Wrappers
  import opened Input
  import opened Protocol
  import opened Edge
  import opened Server
  import opened Injector
  import opened Session

  /** The codes of the mouse buttons. */
  predicate IsButton(b: Button, code: int) {
    || (code == 0x110 && b.LeftButton?) || (code == 0x111 && b.RightButton?) || (code == 0x112 && b.MiddleButton?)
    || (code == 0x115 && b.ForwardButton?) || (code == 0x116 && b.BackButton?)
  }

  /** What handling a message does to one key or button. */
  function Sets(m: Message, code: int): Option<bool> {
    match m
    case KeyMessage(k) => if k.code != 0 && k.code + 8 == code then Some(k.state == Pressed) else None
    case MouseButton(ButtonEvent(b, st)) => if IsButton(b, code) then Some(st == Pressed) else None
    case MouseScroll(ButtonEvent(b, st)) => if IsButton(b, code) then Some(st == Pressed) else None
    case _ => None
  }

  /** Whether the key is down after the messages: as the last one that concerns it says. */
  function Down(ms: seq<Message>, code: int, before: bool): bool {
    if ms == [] then before
    else
      var last := Sets(ms[|ms| - 1], code);
      if last.Some? then last.value else Down(ms[..|ms| - 1], code, before)
  }

  lemma InjectMouse(c: ClientState, e: MouseEvent, code: int)
    ensures code in DeviceOf(Inject(c, Mouse(e))).keys
       <==> match e
            case ButtonEvent(b, st) =>
              if IsButton(b, code) then st == Pressed else code in DeviceOf(c).keys
            case _ => code in DeviceOf(c).keys
  {
    match e
    case Move(x, y) => MoveToMotion(c, Point(x, y));
    case MoveRelative(dx, dy) => MoveByMotion(c, dx, dy);
    case ButtonEvent(b, st) => PressEffect(c, b, KeyEvent(0, st, {}, None), st);
    case Scroll(h, v) => ScrollEffect(c, h, v);
  }

  lemma HandleSets(c: ClientState, m: Message, code: int)
    requires code !in ModifierCodes()
    ensures code in DeviceOf(Handle(c, m)).keys
       <==> if Sets(m, code).Some? then Sets(m, code).value else code in DeviceOf(c).keys
  {
    match m
    case MouseMove(x, y) => InjectMouse(c, Move(x, y), code);
    case MouseMoveRelative(dx, dy) => InjectMouse(c, MoveRelative(dx, dy), code);
    case MouseButton(e) => InjectMouse(c, e, code);
    case MouseScroll(e) => InjectMouse(c, e, code);
    case KeyMessage(k) => PressEffect(c, LeftButton, k, k.state);
    case ScreenEnter(x, y, mods) =>
      InjectMouse(c, Move(x, y), code);
      OutsideModifiers(Inject(c, Mouse(Move(x, y))), mods, code);
    case ScreenLeave(_) => ReleaseAllEffect(c);
    case ModifierSync(mods) => OutsideModifiers(c, mods, code);
    case _ =>
  }

  lemma OutsideModifiers(c: ClientState, mods: ModifierState, code: int)
    requires code !in ModifierCodes()
    ensures code in DeviceOf(Resync(c, mods)).keys <==> code in DeviceOf(c).keys
  {
    ResyncEffect(c, mods);
    assert code in DeviceOf(c).keys <==> code in DeviceOf(c).keys - ModifierCodes();
    assert code in DeviceOf(Resync(c, mods)).keys <==> code in DeviceOf(Resync(c, mods)).keys - ModifierCodes();
  }

  lemma {:induction false} KeysFollow(c: ClientState, ms: seq<Message>, code: int)
    requires code !in ModifierCodes()
    ensures code in DeviceOf(HandleAll(c, ms)).keys <==> Down(ms, code, code in DeviceOf(c).keys)
  {
    if ms != [] {
      KeysFollow(c, ms[..|ms| - 1], code);
      HandleSets(HandleAll(c, ms[..|ms| - 1]), ms[|ms| - 1], code);
    }
  }

  /** Only direct messages concern keys and buttons. */
  lemma {:induction false} DownByDirect(ms: seq<Message>, code: int, before: bool)
    ensures Down(ms, code, before) == Down(Direct(ms), code, before)
  {
    if ms != [] {
      var front, m := ms[..|ms| - 1], ms[|ms| - 1];
      DownByDirect(front, code, before);
      if IsDirect(m) {
        assert Direct(ms)[..|Direct(ms)| - 1] == Direct(front);
      } else {
        assert Direct(ms) == Direct(front);
      }
    }
  }

  /** In every run, once the client has caught up, a key or button that is no modifier is down exactly if the
      latest event for it taken while the route was remote is a press, or there is none and it was down
      from the start. */
  lemma KeyHeldExactly(cfg: Screen, p: PeerId, start: ServerState, c: ClientState, steps: seq<Step>, code: int)
    requires StartsWith(start, p) && ValidRun(p, steps) && code !in ModifierCodes()
    requires var y := SystemRun(cfg, p, System(start, 0, c), steps); y.delivered == |Outbox(y.server.sent, p)|
    ensures var y := SystemRun(cfg, p, System(start, 0, c), steps);
            code in DeviceOf(y.client).keys <==> Down(Carried(cfg, p, start, steps), code, code in DeviceOf(c).keys)
  {
    TypingArrives(cfg, p, start, c, steps);
    var y := SystemRun(cfg, p, System(start, 0, c), steps);
    var handled := Outbox(y.server.sent, p)[..y.delivered];
    KeysFollow(c, handled, code);
    DownByDirect(handled, code, code in DeviceOf(c).keys);
  }

  /** Each press of the key is followed by a release, and so is its being down before. */
  predicate Released(ms: seq<Message>, code: int, before: bool) {
    && (forall i :: 0 <= i < |ms| && Sets(ms[i], code) == Some(true) ==>
          exists j :: i < j < |ms| && Sets(ms[j], code) == Some(false))
    && (before ==> exists j :: 0 <= j < |ms| && Sets(ms[j], code) == Some(false))
  }

  lemma {:induction false} DownUnlessReleased(ms: seq<Message>, code: int, before: bool)
    ensures Down(ms, code, before) <==> !Released(ms, code, before)
  {
    if ms != [] {
      var front, n := ms[..|ms| - 1], |ms| - 1;
      DownUnlessReleased(front, code, before);
      match Sets(ms[n], code)
      case Some(true) =>
      case Some(false) => ReleasedLast(ms, code, before);
      case None => ReleasedFront(ms, code, before);
    }
  }

  lemma ReleasedLast(ms: seq<Message>, code: int, before: bool)
    requires ms != [] && Sets(ms[|ms| - 1], code) == Some(false)
    ensures Released(ms, code, before)
  {
    var n := |ms| - 1;
    forall i | 0 <= i < |ms| && Sets(ms[i], code) == Some(true)
      ensures exists j :: i < j < |ms| && Sets(ms[j], code) == Some(false)
    {
      assert i < n && Sets(ms[n], code) == Some(false);
    }
  }

  lemma ReleasedFront(ms: seq<Message>, code: int, before: bool)
    requires ms != [] && Sets(ms[|ms| - 1], code) == None
    ensures Released(ms, code, before) <==> Released(ms[..|ms| - 1], code, before)
  {
    var front, n := ms[..|ms| - 1], |ms| - 1;
    assert forall i :: 0 <= i < n ==> front[i] == ms[i];
    if Released(ms, code, before) {
      forall i | 0 <= i < n && Sets(front[i], code) == Some(true)
        ensures exists j :: i < j < n && Sets(front[j], code) == Some(false)
      {
        var j :| i < j < |ms| && Sets(ms[j], code) == Some(false);
        assert j < n && Sets(front[j], code) == Some(false);
      }
      if before {
        var j :| 0 <= j < |ms| && Sets(ms[j], code) == Some(false);
        assert j < n && Sets(front[j], code) == Some(false);
      }
    }
    if Released(front, code, before) {
      forall i | 0 <= i < |ms| && Sets(ms[i], code) == Some(true)
        ensures exists j :: i < j < |ms| && Sets(ms[j], code) == Some(false)
      {
        assert Sets(front[i], code) == Some(true);
        var j :| i < j < n && Sets(front[j], code) == Some(false);
        assert Sets(ms[j], code) == Some(false);
      }
      if before {
        var j :| 0 <= j < n && Sets(front[j], code) == Some(false);
        assert Sets(ms[j], code) == Some(false);
      }
    }
  }

  /** After a leave the modifiers are up, and the program releases nothing else. Once the client has caught up
      with a server whose route is Local, nothing at all is held exactly if every key and button that was
      pressed while the route was remote, or down from the start, was also released while it was, and any
      modifier down from the start has met a ScreenEnter or ScreenLeave. */
  lemma NothingHeldExactly(cfg: Screen, p: PeerId, start: ServerState, c: ClientState, steps: seq<Step>)
    requires StartsWith(start, p) && ValidRun(p, steps)
    requires var y := SystemRun(cfg, p, System(start, 0, c), steps);
             y.delivered == |Outbox(y.server.sent, p)| && y.server.edge.route.Local?
    ensures var y := SystemRun(cfg, p, System(start, 0, c), steps);
            DeviceOf(y.client).keys == {}
            <==> && (forall code :: code !in ModifierCodes() ==>
                       Released(Carried(cfg, p, start, steps), code, code in DeviceOf(c).keys))
                 && (PlaceOf(Outbox(y.server.sent, p)) == Before ==> HeldModifiers(c) == {})
  {
    var y := SystemRun(cfg, p, System(start, 0, c), steps);
    ModifiersHeldLocally(cfg, p, start, c, steps);
    forall code | code !in ModifierCodes()
      ensures code in DeviceOf(y.client).keys
         <==> !Released(Carried(cfg, p, start, steps), code, code in DeviceOf(c).keys)
    {
      KeyHeldExactly(cfg, p, start, c, steps, code);
      DownUnlessReleased(Carried(cfg, p, start, steps), code, code in DeviceOf(c).keys);
    }
    EmptyByParts(DeviceOf(y.client).keys, ModifierCodes());
  }

  lemma EmptyByParts(keys: set<int>, part: set<int>)
    ensures keys == {} <==> keys * part == {} && forall code :: code !in part ==> code !in keys
  {
    if keys * part == {} && forall code :: code !in part ==> code !in keys {
      forall code ensures code !in keys {
        assert code in part ==> code !in keys * part;
      }
    }
  }

  lemma ModifiersHeldLocally(cfg: Screen, p: PeerId, start: ServerState, c: ClientState, steps: seq<Step>)
    requires StartsWith(start, p) && ValidRun(p, steps)
    requires var y := SystemRun(cfg, p, System(start, 0, c), steps);
             y.delivered == |Outbox(y.server.sent, p)| && y.server.edge.route.Local?
    ensures var y := SystemRun(cfg, p, System(start, 0, c), steps);
            HeldModifiers(y.client) == if PlaceOf(Outbox(y.server.sent, p)) == Before then HeldModifiers(c) else {}
  {
    ClientHandlesPrefix(cfg, p, start, c, steps);
    SessionGrammar(cfg, p, start, steps);
    var y := SystemRun(cfg, p, System(start, 0, c), steps);
    var queue := Outbox(y.server.sent, p);
    assert queue[..y.delivered] == queue;
    OutsideNothingHeld(y.server.crossings, |start.crossings|, c, queue);
  }
}

/** How far the client's wheels have been turned. */
module Scrolling {
  import opened Wrappers
  import Seqs
  import opened Input
  import opened Protocol
  import opened Edge
  import opened Server
  import opened Injector
  import opened Session

  datatype Axis = Vertical | Horizontal

  function WheelOf(d: Device, axis: Axis): Turned {
    if axis.Vertical? then d.vertical else d.horizontal
  }

  function ScrollOf(e: MouseEvent, axis: Axis): int {
    match e
    case Scroll(h, v) => if axis.Vertical? then v else h
    case _ => 0
  }

  /** The notches of an axis scrolled while the route was remote. */
  function Scrolled(cfg: Screen, p: PeerId, start: ServerState, steps: seq<Step>, axis: Axis): int {
    if steps == [] then 0
    else
      var front, st := steps[..|steps| - 1], steps[|steps| - 1];
      Scrolled(cfg, p, start, front, axis)
      + if st.Input? && st.ev.Mouse? && ServerRun(cfg, p, start, front).edge.route.Remote? then ScrollOf(st.ev.mouse, axis)
        else 0
  }

  /** What a message asks for. */
  function Asks(m: Message, axis: Axis): int {
    match m
    case MouseButton(e) => ScrollOf(e, axis)
    case MouseScroll(e) => ScrollOf(e, axis)
    case _ => 0
  }

  function AsksAll(ms: seq<Message>, axis: Axis): int {
    if ms == [] then 0 else AsksAll(ms[..|ms| - 1], axis) + Asks(ms[|ms| - 1], axis)
  }

  predicate TurnedBy(d: Device, d': Device, axis: Axis, n: int) {
    WheelOf(d', axis) == Turned(WheelOf(d, axis).notches + n, WheelOf(d, axis).fine + 120 * n)
  }

  lemma InjectTurns(c: ClientState, e: MouseEvent, axis: Axis)
    ensures TurnedBy(DeviceOf(c), DeviceOf(Inject(c, Mouse(e))), axis, ScrollOf(e, axis))
  {
    match e
    case Move(x, y) => MoveToMotion(c, Point(x, y));
    case MoveRelative(dx, dy) => MoveByMotion(c, dx, dy);
    case ButtonEvent(b, st) => PressEffect(c, b, KeyEvent(0, st, {}, None), st);
    case Scroll(h, v) => ScrollEffect(c, h, v);
  }

  lemma HandleTurns(c: ClientState, m: Message, axis: Axis)
    ensures TurnedBy(DeviceOf(c), DeviceOf(Handle(c, m)), axis, Asks(m, axis))
  {
    match m
    case MouseMove(x, y) => InjectTurns(c, Move(x, y), axis);
    case MouseMoveRelative(dx, dy) => InjectTurns(c, MoveRelative(dx, dy), axis);
    case MouseButton(e) => InjectTurns(c, e, axis);
    case MouseScroll(e) => InjectTurns(c, e, axis);
    case KeyMessage(k) => PressEffect(c, LeftButton, k, k.state);
    case ScreenEnter(x, y, mods) =>
      InjectTurns(c, Move(x, y), axis);
      ResyncEffect(Inject(c, Mouse(Move(x, y))), mods);
    case ScreenLeave(_) => ReleaseAllEffect(c);
    case ModifierSync(mods) => ResyncEffect(c, mods);
    case _ =>
  }

  lemma {:induction false} WheelsFollow(c: ClientState, ms: seq<Message>, axis: Axis)
    ensures TurnedBy(DeviceOf(c), DeviceOf(HandleAll(c, ms)), axis, AsksAll(ms, axis))
  {
    if ms != [] {
      WheelsFollow(c, ms[..|ms| - 1], axis);
      HandleTurns(HandleAll(c, ms[..|ms| - 1]), ms[|ms| - 1], axis);
    }
  }

  lemma AsksPush(ms: seq<Message>, m: Message, axis: Axis)
    ensures AsksAll(ms + [m], axis) == AsksAll(ms, axis) + Asks(m, axis)
  {
    Seqs.Pushed(ms, m);
  }

  lemma {:induction false} AsksByDirect(ms: seq<Message>, axis: Axis)
    ensures AsksAll(ms, axis) == AsksAll(Direct(ms), axis)
  {
    if ms != [] {
      var front, m := ms[..|ms| - 1], ms[|ms| - 1];
      AsksByDirect(front, axis);
      AsksPush(Direct(front), m, axis);
      Seqs.Nothing(Direct(front));
    }
  }

  lemma ForwardAsks(ev: InputEvent, axis: Axis)
    requires Captured(ev)
    ensures Asks(FromInput(ev), axis) == if ev.Mouse? then ScrollOf(ev.mouse, axis) else 0
  {
  }

  lemma CarryAsks(s: ServerState, ev: InputEvent, axis: Axis)
    requires Captured(ev)
    ensures (if Carries(s, ev) then Asks(FromInput(ev), axis) else 0)
         == if ev.Mouse? && s.edge.route.Remote? then ScrollOf(ev.mouse, axis) else 0
  {
    ForwardAsks(ev, axis);
  }

  lemma {:induction false} CarriedAsks(cfg: Screen, p: PeerId, start: ServerState, steps: seq<Step>, axis: Axis)
    requires ValidRun(p, steps)
    ensures AsksAll(Carried(cfg, p, start, steps), axis) == Scrolled(cfg, p, start, steps, axis)
  {
    if steps != [] {
      var front, st := steps[..|steps| - 1], steps[|steps| - 1];
      CarriedAsks(cfg, p, start, front, axis);
      CarriedMore(Carried(cfg, p, start, front), ServerRun(cfg, p, start, front), st, axis);
      assert ValidStep(p, st);
      if st.Input? {
        CarryAsks(ServerRun(cfg, p, start, front), st.ev, axis);
      }
    }
  }

  lemma CarriedMore(before: seq<Message>, s: ServerState, st: Step, axis: Axis)
    ensures AsksAll(before + (if st.Input? && Carries(s, st.ev) then [FromInput(st.ev)] else []), axis)
         == AsksAll(before, axis) + if st.Input? && Carries(s, st.ev) then Asks(FromInput(st.ev), axis) else 0
  {
    if st.Input? && Carries(s, st.ev) {
      AsksPush(before, FromInput(st.ev), axis);
    } else {
      Seqs.Nothing(before);
    }
  }

  /** In every run, once the client has caught up, each wheel has been turned by exactly the scrolls of its axis
      that were taken while the route was remote, and the fine unit by 120 times as many. */
  lemma WheelsTurnExactly(cfg: Screen, p: PeerId, start: ServerState, c: ClientState, steps: seq<Step>, axis: Axis)
    requires StartsWith(start, p) && ValidRun(p, steps)
    requires var y := SystemRun(cfg, p, System(start, 0, c), steps); y.delivered == |Outbox(y.server.sent, p)|
    ensures var before, after := DeviceOf(c), DeviceOf(SystemRun(cfg, p, System(start, 0, c), steps).client);
            TurnedBy(before, after, axis, Scrolled(cfg, p, start, steps, axis))
  {
    TypingArrives(cfg, p, start, c, steps);
    var y := SystemRun(cfg, p, System(start, 0, c), steps);
    var handled := Outbox(y.server.sent, p)[..y.delivered];
    WheelsFollow(c, handled, axis);
    AsksByDirect(handled, axis);
    CarriedAsks(cfg, p, start, steps, axis);
  }
}
