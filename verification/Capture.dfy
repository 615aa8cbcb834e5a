/** The capture side (crates/platform/src/windows/capture.rs): raw hook events, modifier tracking, and
    the gate that decides which events reach the session. */
module Capture {
  import opened Wrappers
  import Seqs
  import opened Input
  import opened Protocol

  datatype RawEvent =
    | KeyDown(vk: nat)
    | KeyUp(vk: nat)
    | RawMove(x: int, y: int)
    | RawButton(button: Button, down: bool)
    | RawScroll(sideways: bool, delta: int)

  const VK_ESCAPE: u16 := 0x1B

  /** The virtual key a raw code stands for: the code is cut down to 16 bits. */
  function VirtualKey(vk: nat): u16 {
    vk % 0x1_0000
  }

  /** The flag a virtual key drives, both sides of a keyboard merged into one. */
  function FlagOf(vk: u16): Option<Modifier> {
    match vk
    case 0x10 => Some(SHIFT)
    case 0xA0 => Some(SHIFT)
    case 0xA1 => Some(SHIFT)
    case 0x11 => Some(CTRL)
    case 0xA2 => Some(CTRL)
    case 0xA3 => Some(CTRL)
    case 0x12 => Some(ALT)
    case 0xA4 => Some(ALT)
    case 0xA5 => Some(ALT)
    case 0x5B => Some(SUPER)
    case 0x5C => Some(SUPER)
    case 0x14 => Some(CAPS_LOCK)
    case 0x90 => Some(NUM_LOCK)
    case _ => None
  }

  predicate IsKey(r: RawEvent) {
    r.KeyDown? || r.KeyUp?
  }

  function UpdateModifiers(mods: ModifierState, vk: nat, down: bool): ModifierState {
    match FlagOf(VirtualKey(vk))
    case None => mods
    case Some(flag) => if down then mods + {flag} else mods - {flag}
  }

  function Track(mods: ModifierState, r: RawEvent): ModifierState {
    if IsKey(r) then UpdateModifiers(mods, r.vk, r.KeyDown?) else mods
  }

  function TrackAll(mods: ModifierState, raws: seq<RawEvent>): ModifierState {
    if raws == [] then mods else Track(TrackAll(mods, raws[..|raws| - 1]), raws[|raws| - 1])
  }

  function Translate(keymap: u16 -> KeyCode, mods: ModifierState, r: RawEvent): InputEvent {
    match r
    case KeyDown(vk) => Key(KeyEvent(keymap(VirtualKey(vk)), Pressed, mods, None))
    case KeyUp(vk) => Key(KeyEvent(keymap(VirtualKey(vk)), Released, mods, None))
    case RawMove(x, y) => Mouse(Move(x, y))
    case RawButton(b, down) => Mouse(ButtonEvent(b, if down then Pressed else Released))
    case RawScroll(sideways, delta) => Mouse(Scroll(if sideways then delta else 0, if sideways then 0 else delta))
  }

  /** What reaches the session: moves always, the rest only while capturing. */
  function Gate(keymap: u16 -> KeyCode, mods: ModifierState, r: RawEvent, capturing: bool): Option<InputEvent> {
    if capturing || r.RawMove? then Some(Translate(keymap, Track(mods, r), r)) else None
  }

  /** The events of a drain, each raw event paired with the capturing flag it met. */
  function GateAll(keymap: u16 -> KeyCode, mods: ModifierState, raws: seq<(RawEvent, bool)>): seq<InputEvent>
    decreases |raws|
  {
    if raws == [] then []
    else
      var (r, capturing) := raws[0];
      var ev := Gate(keymap, mods, r, capturing);
      (if ev.Some? then [ev.value] else []) + GateAll(keymap, Track(mods, r), raws[1..])
  }

  /** The session's runs are over exactly the kinds of event the drain lets out; without capture, moves only. */
  lemma {:induction false} DrainedEvents(keymap: u16 -> KeyCode, mods: ModifierState, raws: seq<(RawEvent, bool)>)
    ensures forall ev :: ev in GateAll(keymap, mods, raws) ==> Captured(ev)
    ensures (forall r :: r in raws ==> !r.1) ==>
              forall ev :: ev in GateAll(keymap, mods, raws) ==> ev.Mouse? && ev.mouse.Move?
    decreases |raws|
  {
    if raws != [] {
      assert raws[0] in raws && forall r :: r in raws[1..] ==> r in raws;
      DrainedEvents(keymap, Track(mods, raws[0].0), raws[1..]);
    }
  }

  lemma GateNext(keymap: u16 -> KeyCode, mods: ModifierState, raws: seq<(RawEvent, bool)>, i: nat, sink: seq<InputEvent>)
    requires i < |raws|
    ensures var ev := Gate(keymap, mods, raws[i].0, raws[i].1);
            sink + GateAll(keymap, mods, raws[i..])
            == (if ev.Some? then sink + [ev.value] else sink) + GateAll(keymap, Track(mods, raws[i].0), raws[i + 1..])
  {
    var ev := Gate(keymap, mods, raws[i].0, raws[i].1);
    var tail := GateAll(keymap, Track(mods, raws[i].0), raws[i + 1..]);
    Seqs.Rest(raws, i);
    Seqs.Nothing(tail);
    if ev.Some? {
      Seqs.Associative(sink, [ev.value], tail);
    }
  }

  class DrainThread {
    const keymap: u16 -> KeyCode
    var mods: ModifierState

    constructor (keymap: u16 -> KeyCode)
      ensures this.keymap == keymap && mods == {}
    {
      this.keymap := keymap;
      mods := {};
    }

    method Update(vk: nat, down: bool)
      modifies this
      ensures mods == UpdateModifiers(old(mods), vk, down)
    {
      var flag := FlagOf(VirtualKey(vk));
      if flag.None? {
        return;
      }
      if down {
        mods := mods + {flag.value};
      } else {
        mods := mods - {flag.value};
      }
    }

    /** One pass of `drain_thread_main`. */
    method Receive(raw: RawEvent, capturing: bool) returns (ev: Option<InputEvent>)
      modifies this
      ensures mods == Track(old(mods), raw)
      ensures ev == Gate(keymap, old(mods), raw, capturing)
    {
      if IsKey(raw) {
        Update(raw.vk, raw.KeyDown?);
      }
      if !capturing && !raw.RawMove? {
        return None;
      }
      return Some(Translate(keymap, mods, raw));
    }

    /** `drain_thread_main` over the raw events received while it runs. */
    method Run(raws: seq<(RawEvent, bool)>) returns (sink: seq<InputEvent>)
      modifies this
      ensures sink == GateAll(keymap, old(mods), raws)
    {
      sink := [];
      for i := 0 to |raws|
        invariant sink + GateAll(keymap, mods, raws[i..]) == GateAll(keymap, old(mods), raws)
      {
        GateNext(keymap, mods, raws, i, sink);
        var ev := Receive(raws[i].0, raws[i].1);
        if ev.Some? {
          sink := sink + [ev.value];
        }
      }
      Seqs.Nothing(sink);
    }
  }

  /** The virtual keys of a flag. */
  function KeysOf(flag: Modifier): set<int> {
    match flag
    case SHIFT => {0x10, 0xA0, 0xA1}
    case CTRL => {0x11, 0xA2, 0xA3}
    case ALT => {0x12, 0xA4, 0xA5}
    case SUPER => {0x5B, 0x5C}
    case CAPS_LOCK => {0x14}
    case NUM_LOCK => {0x90}
    case ALT_GR => {}
  }

  predicate Drives(r: RawEvent, flag: Modifier) {
    IsKey(r) && r.vk % 0x1_0000 in KeysOf(flag)
  }

  /** The latest event of the flag's keys, on either side, is a key-down. */
  ghost predicate LatestIsDown(raws: seq<RawEvent>, flag: Modifier) {
    exists i :: 0 <= i < |raws| && Drives(raws[i], flag) && raws[i].KeyDown?
                && forall j :: i < j < |raws| ==> !Drives(raws[j], flag)
  }

  lemma TrackOne(mods: ModifierState, r: RawEvent, flag: Modifier)
    ensures flag in Track(mods, r) <==> if Drives(r, flag) then r.KeyDown? else flag in mods
  {
  }

  lemma LatestIsDownPush(raws: seq<RawEvent>, r: RawEvent, flag: Modifier)
    ensures LatestIsDown(raws + [r], flag) <==> if Drives(r, flag) then r.KeyDown? else LatestIsDown(raws, flag)
  {
    var all := raws + [r];
    assert forall j :: 0 <= j < |raws| ==> all[j] == raws[j];
    if Drives(r, flag) {
      assert all[|raws|] == r;
    } else if LatestIsDown(raws, flag) {
      var i :| 0 <= i < |raws| && Drives(raws[i], flag) && raws[i].KeyDown?
               && forall j :: i < j < |raws| ==> !Drives(raws[j], flag);
      assert Drives(all[i], flag) && all[i].KeyDown?;
    }
  }

  /** A flag is tracked as held exactly if the latest event of its keys is a key-down. */
  lemma {:induction false} TrackingReflectsHistory(raws: seq<RawEvent>, flag: Modifier)
    ensures flag in TrackAll({}, raws) <==> LatestIsDown(raws, flag)
  {
    if raws == [] {
    } else {
      var front, last := raws[..|raws| - 1], raws[|raws| - 1];
      TrackingReflectsHistory(front, flag);
      TrackOne(TrackAll({}, front), last, flag);
      LatestIsDownPush(front, last, flag);
      assert raws == front + [last];
    }
  }
}

/** Routing and capture over whole runs of the session, one pass of its loop at a time. */
module Routing {
  import opened Wrappers
  import opened Input
  import opened Protocol
  import opened Edge
  import opened Server
  import opened Session

  /** What holds at every head of the server's loops. */
  predicate Consistent(s: ServerState) {
    && (s.capturing <==> s.edge.route.Remote?)
    && (s.edge.autoPeer.Some? <==> s.peers != [])
  }

  lemma ConsistentStep(cfg: Screen, p: PeerId, s: ServerState, st: Step)
    requires Consistent(s)
    ensures Consistent(ServerStep(cfg, p, s, st))
  {
    if st.Input? {
      DrainStepEdge(cfg, s, st.ev);
      if !IsEmergency(st.ev) {
        ObserveRoute(cfg, s.edge, st.ev);
      }
    }
  }

  /** Capture is on exactly while the route is remote, and the auto peer is set exactly while a peer is
      tracked, in every run of input, connections, disconnections and other traffic. */
  lemma {:induction false} CaptureAgreesWithRoute(cfg: Screen, p: PeerId, steps: seq<Step>)
    ensures Consistent(ServerRun(cfg, p, INITIAL_SERVER, steps))
  {
    if steps == [] {
    } else {
      CaptureAgreesWithRoute(cfg, p, steps[..|steps| - 1]);
      ConsistentStep(cfg, p, ServerRun(cfg, p, INITIAL_SERVER, steps[..|steps| - 1]), steps[|steps| - 1]);
    }
  }

  /** The peers tracked after a run, read off its connections alone. */
  function Tracked(steps: seq<Step>): seq<PeerId> {
    if steps == [] then []
    else
      var before := Tracked(steps[..|steps| - 1]);
      match steps[|steps| - 1]
      case Connect(q) => before + [q]
      case Disconnect(q) => Without(before, q)
      case _ => before
  }

  lemma {:induction false} PeersAreTracked(cfg: Screen, p: PeerId, steps: seq<Step>)
    ensures ServerRun(cfg, p, INITIAL_SERVER, steps).peers == Tracked(steps)
  {
    if steps != [] {
      var front, st := steps[..|steps| - 1], steps[|steps| - 1];
      PeersAreTracked(cfg, p, front);
      if st.Input? {
        DrainStepEdge(cfg, ServerRun(cfg, p, INITIAL_SERVER, front), st.ev);
      }
    }
  }

  /** A move to an edge that leads somewhere: to a configured neighbour, or to whoever is tracked. */
  predicate Crosses(cfg: Screen, tracked: seq<PeerId>, ev: InputEvent) {
    && ev.Mouse? && ev.mouse.Move?
    && exists side :: Touches(cfg, Point(ev.mouse.x, ev.mouse.y), side) && (HasEntry(cfg, side) || tracked != [])
  }

  lemma CrossesByEdge(cfg: Screen, s: ServerState, ev: InputEvent)
    requires Consistent(s) && ev.Mouse? && ev.mouse.Move?
    ensures var side := CrossLocalEdge(cfg, Point(ev.mouse.x, ev.mouse.y));
            Crosses(cfg, s.peers, ev) <==> side.Some? && Target(cfg, s.edge, side.value).Some?
  {
    var p := Point(ev.mouse.x, ev.mouse.y);
    forall side ensures Touches(cfg, p, side) <==> CrossLocalEdge(cfg, p) == Some(side) {
      TouchesExactly(cfg, p, side);
    }
    if CrossLocalEdge(cfg, p).Some? {
      LeadsToTarget(cfg, s.edge, CrossLocalEdge(cfg, p).value, 0);
    }
  }

  predicate IsChord(st: Step) {
    st.Input? && PressesChord(st.ev)
  }

  lemma RouteStep(cfg: Screen, p: PeerId, s: ServerState, st: Step)
    requires Consistent(s)
    ensures ServerStep(cfg, p, s, st).edge.route.Remote?
       <==> !IsChord(st) && (s.edge.route.Remote? || (st.Input? && Crosses(cfg, s.peers, st.ev)))
  {
    if st.Input? {
      DrainStepEdge(cfg, s, st.ev);
      if !IsEmergency(st.ev) {
        ObserveRoute(cfg, s.edge, st.ev);
        if st.ev.Mouse? && st.ev.mouse.Move? {
          CrossesByEdge(cfg, s, st.ev);
        }
      }
    }
  }

  /** Step i crosses and no emergency follows. */
  predicate CrossedAt(cfg: Screen, steps: seq<Step>, i: nat)
    requires i < |steps|
  {
    && steps[i].Input? && Crosses(cfg, Tracked(steps[..i]), steps[i].ev)
    && forall j :: i < j < |steps| ==> !IsChord(steps[j])
  }

  predicate Crossed(cfg: Screen, steps: seq<Step>) {
    exists i :: 0 <= i < |steps| && CrossedAt(cfg, steps, i)
  }

  lemma CrossedStep(cfg: Screen, steps: seq<Step>)
    requires steps != []
    ensures var front, st := steps[..|steps| - 1], steps[|steps| - 1];
            Crossed(cfg, steps)
            <==> !IsChord(st) && (Crossed(cfg, front) || (st.Input? && Crosses(cfg, Tracked(front), st.ev)))
  {
    var front, n := steps[..|steps| - 1], |steps| - 1;
    assert forall i :: 0 <= i < n ==> front[i] == steps[i] && front[..i] == steps[..i];
    if i: nat :| i < |steps| && CrossedAt(cfg, steps, i) {
      if i < n {
        assert CrossedAt(cfg, front, i) && !IsChord(steps[n]);
      }
    }
    if i: nat :| i < n && CrossedAt(cfg, front, i) && !IsChord(steps[n]) {
      assert CrossedAt(cfg, steps, i);
    }
    if !IsChord(steps[n]) && steps[n].Input? && Crosses(cfg, Tracked(front), steps[n].ev) {
      assert CrossedAt(cfg, steps, n);
    }
  }

  /** The route after a run, read off its history: remote exactly if some move crossed, to a configured
      neighbour or with some peer tracked at the time, and no emergency chord came after it. */
  lemma {:induction false} RemoteExactly(cfg: Screen, p: PeerId, steps: seq<Step>)
    ensures ServerRun(cfg, p, INITIAL_SERVER, steps).edge.route.Remote? <==> Crossed(cfg, steps)
  {
    if steps == [] {
    } else {
      var front, st := steps[..|steps| - 1], steps[|steps| - 1];
      RemoteExactly(cfg, p, front);
      PeersAreTracked(cfg, p, front);
      CaptureAgreesWithRoute(cfg, p, front);
      RouteStep(cfg, p, ServerRun(cfg, p, INITIAL_SERVER, front), st);
      CrossedStep(cfg, steps);
    }
  }

  /** The route leaves Local only for a configured neighbour or a tracked peer; without a layout, only
      while a peer is tracked. */
  lemma LeavesLocalOnlyForAPeer(cfg: Screen, p: PeerId, steps: seq<Step>, st: Step)
    requires ServerRun(cfg, p, INITIAL_SERVER, steps).edge.route.Local?
    requires ServerStep(cfg, p, ServerRun(cfg, p, INITIAL_SERVER, steps), st).edge.route.Remote?
    ensures st.Input? && Crosses(cfg, Tracked(steps), st.ev)
    ensures cfg.neighbours == [] ==> Tracked(steps) != []
  {
    CaptureAgreesWithRoute(cfg, p, steps);
    PeersAreTracked(cfg, p, steps);
    RouteStep(cfg, p, ServerRun(cfg, p, INITIAL_SERVER, steps), st);
  }

  /** Input goes nowhere, with capture on, exactly after runs in which a move crossed, no emergency
      followed, and no peer is left. All input is then lost. */
  lemma InputIsLostExactly(cfg: Screen, p: PeerId, steps: seq<Step>, ev: InputEvent)
    ensures var s := ServerRun(cfg, p, INITIAL_SERVER, steps);
            && (s.edge.route.Remote? && s.capturing && s.peers == [] <==> Crossed(cfg, steps) && Tracked(steps) == [])
            && (s.peers == [] ==> DrainStep(cfg, s, ev).sent == s.sent)
  {
    RemoteExactly(cfg, p, steps);
    CaptureAgreesWithRoute(cfg, p, steps);
    PeersAreTracked(cfg, p, steps);
  }

  /** It happens when the last peer leaves after a crossing, on every screen and layout. */
  lemma RouteMayOutliveItsPeer(cfg: Screen, p: PeerId)
    ensures exists steps :: var s := ServerRun(cfg, p, INITIAL_SERVER, steps);
                            s.edge.route.Remote? && s.capturing && s.peers == []
  {
    var cross := Input(Mouse(Move(0, 0)));
    var steps := [Connect(p), cross, Disconnect(p)];
    assert steps[..2][..1] == [Connect(p)] && [Connect(p)][..0] == [] && steps[..1] == [Connect(p)];
    assert Tracked([Connect(p)]) == [p];
    assert steps[..2][1] == cross && Tracked(steps[..2]) == Tracked(steps[..2][..1]);
    assert Without([p], p) == [];
    assert Touches(cfg, Point(0, 0), Left);
    assert CrossedAt(cfg, steps, 1);
    InputIsLostExactly(cfg, p, steps, cross.ev);
  }

  /** And with a configured neighbour it takes no peer at all: any move to its edge will do. */
  lemma RouteMayHaveNoPeer(cfg: Screen, p: PeerId, to: Point, side: EdgeSide)
    requires Touches(cfg, to, side) && HasEntry(cfg, side)
    ensures var s := ServerRun(cfg, p, INITIAL_SERVER, [Input(Mouse(Move(to.x, to.y)))]);
            s.edge.route.Remote? && s.capturing && s.peers == []
  {
    var steps := [Input(Mouse(Move(to.x, to.y)))];
    assert steps[..0] == [] && CrossedAt(cfg, steps, 0);
    InputIsLostExactly(cfg, p, steps, steps[0].ev);
  }

  predicate ParkedClear(cfg: Screen, s: ServerState) {
    s.cursor.Some? ==> StrictlyInside(cfg, s.cursor.value)
  }

  lemma {:induction false} ParkedStaysClear(cfg: Screen, p: PeerId, steps: seq<Step>)
    requires cfg.width >= 4 && cfg.height >= 4
    ensures ParkedClear(cfg, ServerRun(cfg, p, INITIAL_SERVER, steps))
  {
    if steps == [] {
    } else {
      ParkedStaysClear(cfg, p, steps[..|steps| - 1]);
      var s, st := ServerRun(cfg, p, INITIAL_SERVER, steps[..|steps| - 1]), steps[|steps| - 1];
      if st.Input? && !IsEmergency(st.ev) && Observe(cfg, s.edge, st.ev).1.EnterRemote? {
        ObserveRoute(cfg, s.edge, st.ev);
        ParkedCursorStaysLocal(cfg, s.edge, CrossLocalEdge(cfg, Point(st.ev.mouse.x, st.ev.mouse.y)).value);
      }
    }
  }

  /** No bounce: once the route is local again, the move the parked cursor produces keeps it local. */
  lemma ParkedCursorDoesNotBounce(cfg: Screen, p: PeerId, steps: seq<Step>)
    requires cfg.width >= 4 && cfg.height >= 4
    ensures var s := ServerRun(cfg, p, INITIAL_SERVER, steps);
            s.edge.route.Local? && s.cursor.Some? ==>
              DrainStep(cfg, s, Mouse(Move(s.cursor.value.x, s.cursor.value.y))).edge.route.Local?
  {
    ParkedStaysClear(cfg, p, steps);
    var s := ServerRun(cfg, p, INITIAL_SERVER, steps);
    if s.cursor.Some? {
      var ev := Mouse(Move(s.cursor.value.x, s.cursor.value.y));
      DrainStepEdge(cfg, s, ev);
      ObserveRoute(cfg, s.edge, ev);
    }
  }
}
