/** The cursor across both machines: what the server's deltas do to the client's position. */
module CursorConservation {
  import opened Wrappers
  import opened I32
  import opened Input
  import opened Protocol
  import opened Edge
  import opened Server
  import opened Injector
  import opened Session

  /** Coordinates within this reach keep every i32 operation on the way clear of overflow. */
  const REACH := 0x1000_0000

  predicate Near(p: Point, r: int) {
    -r <= p.x <= r && -r <= p.y <= r
  }

  function Plus(a: Point, b: Point): Point {
    Point(a.x + b.x, a.y + b.y)
  }

  function Minus(a: Point, b: Point): Point {
    Point(a.x - b.x, a.y - b.y)
  }

  predicate IsMove(ev: InputEvent) {
    ev.Mouse? && ev.mouse.Move?
  }

  function Target(ev: InputEvent): Point
    requires IsMove(ev)
  {
    Point(ev.mouse.x, ev.mouse.y)
  }

  /** The screen's moves stay within reach. */
  ghost predicate MovesInReach(steps: seq<Step>) {
    forall i :: 0 <= i < |steps| && steps[i].Input? && IsMove(steps[i].ev) ==> Near(Target(steps[i].ev), REACH)
  }

  function NextPosition(last: Option<Point>, ev: InputEvent): Option<Point> {
    if PressesChord(ev) then None else if IsMove(ev) then Some(Target(ev)) else last
  }

  /** The user's last cursor position since the last emergency, read off the history alone. */
  function LastPosition(before: Option<Point>, steps: seq<Step>): Option<Point> {
    if steps == [] then before
    else
      var last := LastPosition(before, steps[..|steps| - 1]);
      match steps[|steps| - 1]
      case Input(ev) => NextPosition(last, ev)
      case _ => last
  }

  // Effects of the messages on the client's position

  predicate KeepsPointer(e: Evdev) {
    e.kind != EV_REL || (e.code != REL_X && e.code != REL_Y)
  }

  lemma {:induction false} ReplayKeepsPointer(d: Device, log: seq<Evdev>)
    requires forall e :: e in log ==> KeepsPointer(e)
    ensures Replay(d, log).at == d.at
    decreases |log|
  {
    if log != [] {
      assert log[0] in log;
      ReplayKeepsPointer(Absorb(d, log[0]), log[1..]);
    }
  }

  lemma WriteKeepsPointer(c: ClientState, evs: seq<Evdev>)
    requires forall e :: e in evs ==> KeepsPointer(e)
    ensures DeviceOf(WriteBatch(c, evs)).at == DeviceOf(c).at
  {
    ReplayAppend(IDLE_DEVICE, c.log, evs + [SYN]);
    ReplayKeepsPointer(DeviceOf(c), evs + [SYN]);
  }

  lemma OtherInputKeepsPointer(c: ClientState, ev: InputEvent)
    requires Captured(ev) && !IsMove(ev)
    ensures var d := Handle(c, FromInput(ev)); d.lastPos == c.lastPos && DeviceOf(d).at == DeviceOf(c).at
  {
    match ev
    case Key(k) =>
      if HidToEvdev(k.code).Some? {
        WriteKeepsPointer(c, [KeyRaw(HidToEvdev(k.code).value, StateValue(k.state))]);
      }
    case Mouse(ButtonEvent(b, st)) =>
      if ButtonToEvdev(b).Some? {
        WriteKeepsPointer(c, [KeyRaw(ButtonToEvdev(b).value, StateValue(st))]);
      }
    case Mouse(Scroll(h, v)) =>
      if Wheel(h, v) != [] {
        WriteKeepsPointer(c, Wheel(h, v));
      }
  }

  lemma {:induction false} HandleAllAppend(c: ClientState, a: seq<Message>, b: seq<Message>)
    ensures HandleAll(c, a + b) == HandleAll(HandleAll(c, a), b)
  {
    if b == [] {
      assert a + b == a;
    } else {
      HandleAllAppend(c, a, b[..|b| - 1]);
      assert (a + b)[..|a + b| - 1] == a + b[..|b| - 1];
    }
  }

  lemma HandleOne(c: ClientState, m: Message)
    ensures HandleAll(c, [m]) == Handle(c, m)
  {
    assert [m][..0] == [];
    assert HandleAll(c, [m][..0]) == c;
  }

  /** The client has followed the server: its position is what its device shows, and while the route is
      remote it is at a bounded offset from the server's last position. */
  predicate Following(s: ServerState, c: ClientState) {
    && Tracks(c) && Near(c.lastPos, 3 * REACH)
    && (s.lastMouse.Some? ==> Near(s.lastMouse.value, REACH))
    && (s.edge.route.Remote? ==> s.lastMouse.Some? && Near(Minus(c.lastPos, s.lastMouse.value), 2 * REACH))
  }

  lemma NearDelta(last: Option<Point>, p: Point)
    requires Near(p, REACH) && (last.Some? ==> Near(last.value, REACH))
    ensures Delta(last, p) == if last.Some? then (p.x - last.value.x, p.y - last.value.y) else (0, 0)
  {
    if last.Some? {
      WrapFits(p.x - last.value.x);
      WrapFits(p.y - last.value.y);
    }
  }

  lemma MovedByForwards(c: ClientState, dx: int, dy: int)
    requires Tracks(c) && Near(c.lastPos, 3 * REACH) && Near(Point(dx, dy), 2 * REACH)
    ensures var d := HandleAll(c, Session.MoveBy((dx, dy))); Tracks(d) && d.lastPos == Point(c.lastPos.x + dx, c.lastPos.y + dy)
  {
    if (dx, dy) != (0, 0) {
      HandleOne(c, MouseMoveRelative(dx, dy));
      MoveByEffect(c, dx, dy);
    }
  }

  lemma ForwardsMove(c: ClientState, last: Option<Point>, ev: InputEvent)
    requires Captured(ev) && Tracks(c) && Near(c.lastPos, 3 * REACH)
    requires last.Some? ==> Near(last.value, REACH)
    requires IsMove(ev) ==> Near(Target(ev), REACH)
    ensures var d := HandleAll(c, Forwards(last, ev));
            && Tracks(d)
            && d.lastPos == if IsMove(ev) && last.Some? then Plus(c.lastPos, Minus(Target(ev), last.value)) else c.lastPos
  {
    if IsMove(ev) {
      NearDelta(last, Target(ev));
      var (dx, dy) := Delta(last, Target(ev));
      MovedByForwards(c, dx, dy);
      assert Forwards(last, ev) == Session.MoveBy((dx, dy));
    } else {
      HandleOne(c, FromInput(ev));
      OtherInputKeepsPointer(c, ev);
    }
  }

  lemma EnterMoves(c: ClientState, m: Message)
    requires m.ScreenEnter? && Tracks(c) && Near(c.lastPos, 3 * REACH) && Near(Point(m.enterX, m.enterY), REACH)
    ensures Handle(c, m).lastPos == Point(m.enterX, m.enterY) && Tracks(Handle(c, m))
  {
    MoveToEffect(c, Point(m.enterX, m.enterY));
    ResyncEffect(MoveTo(c, Point(m.enterX, m.enterY)), m.modifiers);
  }

  lemma LeaveKeepsPointer(c: ClientState, screen: ScreenId)
    ensures var d := HandleAll(c, [ScreenLeave(screen), ModifierSync({})]);
            d.lastPos == c.lastPos && DeviceOf(d).at == DeviceOf(c).at
  {
    HandleAllAppend(c, [ScreenLeave(screen)], [ModifierSync({})]);
    HandleOne(c, ScreenLeave(screen));
    HandleOne(ReleaseAll(c), ModifierSync({}));
    assert [ScreenLeave(screen)] + [ModifierSync({})] == [ScreenLeave(screen), ModifierSync({})];
    ReleaseAllEffect(c);
    ResyncEffect(ReleaseAll(c), {});
  }

  /** Where a crossing at `p` puts the client's cursor, given the last local position before it. */
  function CrossedTo(cfg: Screen, last: Option<Point>, p: Point): Point {
    Plus(Arrival(cfg, p), Minus(p, if last.Some? then last.value else p))
  }

  lemma EventMovesClient(cfg: Screen, s: ServerState, c: ClientState, ev: InputEvent)
    requires s.peers != [] && Captured(ev) && Following(s, c)
    requires IsMove(ev) ==> Near(Target(ev), REACH)
    ensures var s' := DrainStep(cfg, s, ev);
            var c' := HandleAll(c, Emits(cfg, s, ev));
            && s'.lastMouse == NextPosition(s.lastMouse, ev)
            && Following(s', c')
            && (s.edge.route.Remote? && s'.edge.route.Remote? ==>
                  Minus(c'.lastPos, s'.lastMouse.value) == Minus(c.lastPos, s.lastMouse.value))
            && (s.edge.route.Local? && s'.edge.route.Remote? ==>
                  && IsMove(ev) && !StrictlyInside(cfg, Target(ev))
                  && c'.lastPos == CrossedTo(cfg, s.lastMouse, Target(ev)))
  {
    if IsEmergency(ev) {
      if s.edge.route.Remote? {
        LeaveKeepsPointer(c, s.edge.route.screen);
      }
    } else {
      ObserveRoute(cfg, s.edge, ev);
      var (e, d, f) := Observe(cfg, s.edge, ev);
      if IsMove(ev) {
        ArrivalIsEntry(cfg, Target(ev));
      }
      DispatchMovesClient(cfg, s, c, ev, e, d, f);
    }
  }

  lemma ForwardKeepsState(s: ServerState, ev: InputEvent)
    requires s.peers != []
    ensures Forward(s, ev).edge == s.edge
    ensures Forward(s, ev).lastMouse == if IsMove(ev) then Some(Target(ev)) else s.lastMouse
  {
  }

  lemma CrossingMovesClient(cfg: Screen, c: ClientState, last: Option<Point>, enter: Message, ev: InputEvent)
    requires enter.ScreenEnter? && IsMove(ev) && Point(enter.enterX, enter.enterY) == Arrival(cfg, Target(ev))
    requires Tracks(c) && Near(c.lastPos, 3 * REACH) && Near(Target(ev), REACH)
    requires last.Some? ==> Near(last.value, REACH)
    ensures var d := HandleAll(c, [enter] + Forwards(last, ev));
            && d.lastPos == CrossedTo(cfg, last, Target(ev)) && Tracks(d)
            && Near(Minus(d.lastPos, Target(ev)), 2 * REACH)
  {
    HandleAllAppend(c, [enter], Forwards(last, ev));
    HandleOne(c, enter);
    EnterMoves(c, enter);
    ForwardsMove(Handle(c, enter), last, ev);
  }

  lemma StayingMovesClient(s: ServerState, c: ClientState, ev: InputEvent)
    requires Captured(ev) && Following(s, c) && s.edge.route.Remote?
    requires IsMove(ev) ==> Near(Target(ev), REACH)
    ensures var d := HandleAll(c, Forwards(s.lastMouse, ev));
            var now := if IsMove(ev) then Target(ev) else s.lastMouse.value;
            && Tracks(d) && Near(d.lastPos, 3 * REACH)
            && Minus(d.lastPos, now) == Minus(c.lastPos, s.lastMouse.value)
  {
    ForwardsMove(c, s.lastMouse, ev);
  }

  lemma DispatchKeepsState(s: ServerState, e: EdgeState, d: RouteDecision, f: ForwardTo, ev: InputEvent)
    requires s.peers != []
    ensures var s' := Dispatch(ApplyDecision(s.(edge := e), d), f, ev);
            && s'.edge == e
            && s'.lastMouse == (if IsMove(ev) then Some(Target(ev)) else s.lastMouse)
  {
    var s1 := ApplyDecision(s.(edge := e), d);
    assert s1.edge == e && s1.lastMouse == s.lastMouse && s1.peers == s.peers;
    ForwardKeepsState(s1, ev);
  }

  lemma DispatchMovesClient(cfg: Screen, s: ServerState, c: ClientState, ev: InputEvent,
                            e: EdgeState, d: RouteDecision, f: ForwardTo)
    requires s.peers != [] && Captured(ev) && Following(s, c)
    requires IsMove(ev) ==> Near(Target(ev), REACH)
    requires f == ToRemote <==> e.route.Remote?
    requires d == Stay || d.EnterRemote?
    requires d == Stay ==> e.route == s.edge.route
    requires d.EnterRemote? ==>
               s.edge.route.Local? && e.route.Remote? && IsMove(ev) && d.entry == Arrival(cfg, Target(ev))
    ensures var s' := Dispatch(ApplyDecision(s.(edge := e), d), f, ev);
            var c' := HandleAll(c, Announces(d) + if f == ToRemote then Forwards(s.lastMouse, ev) else []);
            && s'.edge == e
            && s'.lastMouse == (if IsMove(ev) then Some(Target(ev)) else s.lastMouse)
            && Following(s', c')
            && (d == Stay && e.route.Remote? ==>
                  Minus(c'.lastPos, s'.lastMouse.value) == Minus(c.lastPos, s.lastMouse.value))
            && (d.EnterRemote? ==> c'.lastPos == CrossedTo(cfg, s.lastMouse, Target(ev)))
  {
    DispatchKeepsState(s, e, d, f, ev);
    var more := if f == ToRemote then Forwards(s.lastMouse, ev) else [];
    if d.EnterRemote? {
      var enter := ScreenEnter(d.entry.x, d.entry.y, d.modifiers);
      assert Announces(d) + more == [enter] + Forwards(s.lastMouse, ev);
      CrossingMovesClient(cfg, c, s.lastMouse, enter, ev);
    } else if f == ToRemote {
      assert Announces(d) + more == Forwards(s.lastMouse, ev);
      StayingMovesClient(s, c, ev);
    } else {
      assert Announces(d) + more == [];
    }
  }

  /** The client's state once everything sent so far is applied. */
  function Applied(s: ServerState, p: PeerId, c: ClientState): ClientState {
    HandleAll(c, Outbox(s.sent, p))
  }

  ghost predicate FollowStart(start: ServerState, p: PeerId, c: ClientState) {
    StartsWith(start, p) && Following(start, c)
  }

  /** The first session of a fresh pair of daemons starts so. */
  lemma FirstStartFollows(p: PeerId)
    ensures FollowStart(Connected(INITIAL_SERVER, p), p, INITIAL_CLIENT)
    ensures DeviceOf(INITIAL_CLIENT).keys == {} && AllReported(INITIAL_CLIENT)
  {
    assert [] + [p] == [p];
  }

  /** What a step does to the server's last position and to the client that has applied everything. */
  predicate Follows(cfg: Screen, s: ServerState, now: ClientState, s': ServerState, next: ClientState, st: Step) {
    && Following(s', next)
    && s'.lastMouse == (if st.Input? then NextPosition(s.lastMouse, st.ev) else s.lastMouse)
    && (s.edge.route.Remote? && s'.edge.route.Remote? ==>
          s.lastMouse.Some? && Minus(next.lastPos, s'.lastMouse.value) == Minus(now.lastPos, s.lastMouse.value))
    && (s.edge.route.Local? && s'.edge.route.Remote? ==>
          && st.Input? && IsMove(st.ev) && !StrictlyInside(cfg, Target(st.ev))
          && next.lastPos == CrossedTo(cfg, s.lastMouse, Target(st.ev)))
  }

  lemma InputFollows(cfg: Screen, p: PeerId, s: ServerState, c: ClientState, ev: InputEvent)
    requires s.peers != [] && s.peers[0] == p && Captured(ev) && Following(s, Applied(s, p, c))
    requires IsMove(ev) ==> Near(Target(ev), REACH)
    ensures Follows(cfg, s, Applied(s, p, c), DrainStep(cfg, s, ev), Applied(DrainStep(cfg, s, ev), p, c), Input(ev))
  {
    EmitsIsSent(cfg, s, p, ev);
    HandleAllAppend(c, Outbox(s.sent, p), Emits(cfg, s, ev));
    EventMovesClient(cfg, s, Applied(s, p, c), ev);
  }

  lemma OtherApplies(s: ServerState, p: PeerId, c: ClientState, m: Message)
    requires OffInputPath(m)
    ensures Applied(s.(sent := s.sent + [Sent(p, m)]), p, c) == Applied(s, p, c)
  {
    assert (s.sent + [Sent(p, m)])[..|s.sent|] == s.sent;
    HandleAllAppend(c, Outbox(s.sent, p), [m]);
    HandleOne(Applied(s, p, c), m);
  }

  lemma StepFollows(cfg: Screen, p: PeerId, s: ServerState, c: ClientState, st: Step)
    requires s.peers != [] && s.peers[0] == p && ValidStep(p, st)
    requires Following(s, Applied(s, p, c)) && MovesInReach([st])
    ensures var s' := ServerStep(cfg, p, s, st);
            Follows(cfg, s, Applied(s, p, c), s', Applied(s', p, c), st)
  {
    match st
    case Input(ev) =>
      assert [st][0] == st;
      InputFollows(cfg, p, s, c, ev);
    case Other(m) => OtherApplies(s, p, c, m);
    case _ =>
  }

  lemma {:induction false} RunFollows(cfg: Screen, p: PeerId, start: ServerState, c: ClientState, steps: seq<Step>)
    requires FollowStart(start, p, c) && ValidRun(p, steps) && MovesInReach(steps)
    ensures var s := ServerRun(cfg, p, start, steps);
            && s.peers != [] && s.peers[0] == p
            && s.lastMouse == LastPosition(start.lastMouse, steps)
            && Following(s, Applied(s, p, c))
  {
    if steps == [] {
    } else {
      var front, st := steps[..|steps| - 1], steps[|steps| - 1];
      RunFollows(cfg, p, start, c, front);
      var s := ServerRun(cfg, p, start, front);
      FirstPeerStays(cfg, p, s, st);
      assert MovesInReach([st]) by { assert steps[|steps| - 1] == st; }
      StepFollows(cfg, p, s, c, st);
    }
  }

  ghost predicate RemoteSince(cfg: Screen, p: PeerId, start: ServerState, steps: seq<Step>, i: nat)
    requires i < |steps|
  {
    && ServerRun(cfg, p, start, steps[..i]).edge.route.Local?
    && forall j :: i < j <= |steps| ==> ServerRun(cfg, p, start, steps[..j]).edge.route.Remote?
  }

  lemma RemoteSinceFront(cfg: Screen, p: PeerId, start: ServerState, steps: seq<Step>, i: nat)
    requires i < |steps| && RemoteSince(cfg, p, start, steps, i)
    ensures ServerRun(cfg, p, start, steps).edge.route.Remote?
    ensures var front := steps[..|steps| - 1];
            if i == |front| then steps[..i] == front && ServerRun(cfg, p, start, front).edge.route.Local?
            else
              && front[..i] == steps[..i] && RemoteSince(cfg, p, start, front, i)
              && ServerRun(cfg, p, start, front).edge.route.Remote?
  {
    var front := steps[..|steps| - 1];
    assert ServerRun(cfg, p, start, steps[..|steps|]).edge.route.Remote?;
    assert steps[..|steps|] == steps && front[..|front|] == front;
    forall j | 0 <= j <= |front| ensures front[..j] == steps[..j] {
    }
    if i < |front| {
      assert ServerRun(cfg, p, start, steps[..|front|]).edge.route.Remote?;
    }
  }

  /** While the route stays remote the offset between the two cursors stays what the crossing made it. */
  lemma {:induction false} OffsetIsKept(cfg: Screen, p: PeerId, start: ServerState, c: ClientState,
                                        steps: seq<Step>, i: nat)
    requires FollowStart(start, p, c) && ValidRun(p, steps) && MovesInReach(steps)
    requires i < |steps| && RemoteSince(cfg, p, start, steps, i)
    ensures steps[i].Input? && IsMove(steps[i].ev) && !StrictlyInside(cfg, Target(steps[i].ev))
    ensures var s := ServerRun(cfg, p, start, steps);
            && s.lastMouse.Some?
            && Minus(Applied(s, p, c).lastPos, s.lastMouse.value)
               == Minus(CrossedTo(cfg, ServerRun(cfg, p, start, steps[..i]).lastMouse, Target(steps[i].ev)),
                        Target(steps[i].ev))
    decreases |steps|
  {
    var front, st := steps[..|steps| - 1], steps[|steps| - 1];
    RemoteSinceFront(cfg, p, start, steps, i);
    RunFollows(cfg, p, start, c, front);
    assert MovesInReach([st]);
    StepFollows(cfg, p, ServerRun(cfg, p, start, front), c, st);
    if i < |front| {
      OffsetIsKept(cfg, p, start, c, front, i);
    }
  }

  /** End-to-end conservation. If the route crossed at step `i` and has been remote since, then once the
      queue is drained the client's cursor is at the entry point plus the server's last position minus
      the last local position before the crossing (the crossing point itself if there was none since the
      last emergency), and that is where its device's motion has put the pointer. */
  lemma CursorIsConserved(cfg: Screen, p: PeerId, start: ServerState, c: ClientState, steps: seq<Step>, i: nat)
    requires FollowStart(start, p, c) && ValidRun(p, steps) && MovesInReach(steps)
    requires i < |steps| && RemoteSince(cfg, p, start, steps, i)
    ensures steps[i].Input? && IsMove(steps[i].ev) && !StrictlyInside(cfg, Target(steps[i].ev))
    ensures LastPosition(start.lastMouse, steps).Some?
    ensures var crossing := Target(steps[i].ev);
            var before := LastPosition(start.lastMouse, steps[..i]);
            var entry := Arrival(cfg, crossing);
            var anchor := if before.Some? then before.value else crossing;
            var client := Applied(ServerRun(cfg, p, start, steps), p, c);
            && client.lastPos == Plus(entry, Minus(LastPosition(start.lastMouse, steps).value, anchor))
            && DeviceOf(client).at == client.lastPos
  {
    OffsetIsKept(cfg, p, start, c, steps, i);
    RunFollows(cfg, p, start, c, steps);
    RunFollows(cfg, p, start, c, steps[..i]);
  }

  /** The same for the running system: whenever the client has caught up with what the server sent. */
  lemma CaughtUpCursor(cfg: Screen, p: PeerId, start: ServerState, c: ClientState, steps: seq<Step>, i: nat)
    requires FollowStart(start, p, c) && ValidRun(p, steps) && MovesInReach(steps)
    requires i < |steps| && RemoteSince(cfg, p, start, steps, i)
    requires var y := SystemRun(cfg, p, System(start, 0, c), steps); y.delivered == |Outbox(y.server.sent, p)|
    ensures steps[i].Input? && IsMove(steps[i].ev) && !StrictlyInside(cfg, Target(steps[i].ev))
    ensures LastPosition(start.lastMouse, steps).Some?
    ensures var y := SystemRun(cfg, p, System(start, 0, c), steps);
            var shift := Minus(LastPosition(start.lastMouse, steps).value, Target(steps[i].ev));
            && y.client.lastPos == Plus(CrossedTo(cfg, LastPosition(start.lastMouse, steps[..i]), Target(steps[i].ev)), shift)
            && DeviceOf(y.client).at == y.client.lastPos
  {
    CursorIsConserved(cfg, p, start, c, steps, i);
    ClientHandlesPrefix(cfg, p, start, c, steps);
    var y := SystemRun(cfg, p, System(start, 0, c), steps);
    var queue := Outbox(y.server.sent, p);
    assert queue[..y.delivered] == queue;
  }
}
