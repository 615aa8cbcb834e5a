/** Both machines of an input session: runs of the server's tasks, the FIFO channel to a fixed
    peer, and the client that handles what arrives on it. */
module Session {
  import opened Wrappers
  import Seqs
  import opened Input
  import opened Protocol
  import opened Edge
  import opened Server
  import opened Injector

  /** One step of the system. A pass of the drain loop is one step; `Passes` takes it apart into what
      the threads really interleave. `Other` is a message some other task of the daemon (heartbeat,
      clipboard, file transfer) puts on the peer's channel; `Deliver` makes the client handle the
      next message. */
  datatype Step =
    | Input(ev: InputEvent)
    | Connect(who: PeerId)
    | Disconnect(who: PeerId)
    | Other(msg: Message)
    | Deliver

  /** Messages that neither come from the server's input path nor reach the client's injector. */
  predicate OffInputPath(m: Message) {
    !(m.MouseMove? || m.MouseMoveRelative? || m.MouseButton? || m.MouseScroll? || m.KeyMessage?
      || m.ScreenEnter? || m.ScreenLeave? || m.ModifierSync?)
  }

  predicate ValidStep(p: PeerId, st: Step) {
    && (st.Input? ==> Captured(st.ev))
    && (st.Disconnect? ==> st.who != p)
    && (st.Other? ==> OffInputPath(st.msg))
  }

  /** Runs in which the peer stays connected. */
  ghost predicate ValidRun(p: PeerId, steps: seq<Step>) {
    forall i :: 0 <= i < |steps| ==> ValidStep(p, steps[i])
  }

  /** Where a session with peer `p` starts: the first in the list, input local, nothing sent to it yet. */
  predicate StartsWith(s: ServerState, p: PeerId) {
    && s.peers != [] && s.peers[0] == p
    && s.edge.route.Local?
    && Outbox(s.sent, p) == []
  }

  /** The messages addressed to `p`, in the order they were sent. */
  function Outbox(sent: seq<Sent>, p: PeerId): seq<Message> {
    if sent == [] then []
    else
      var last := sent[|sent| - 1];
      Outbox(sent[..|sent| - 1], p) + if last.to == p then [last.msg] else []
  }

  function ServerStep(cfg: Screen, p: PeerId, s: ServerState, st: Step): ServerState {
    match st
    case Input(ev) => DrainStep(cfg, s, ev)
    case Connect(q) => Connected(s, q)
    case Disconnect(q) => Disconnected(s, q)
    case Other(m) => s.(sent := s.sent + [Sent(p, m)])
    case Deliver => s
  }

  function ServerRun(cfg: Screen, p: PeerId, s: ServerState, steps: seq<Step>): ServerState {
    if steps == [] then s
    else ServerStep(cfg, p, ServerRun(cfg, p, s, steps[..|steps| - 1]), steps[|steps| - 1])
  }

  datatype System = System(server: ServerState, delivered: nat, client: ClientState)

  function SystemStep(cfg: Screen, p: PeerId, y: System, st: Step): System {
    if st.Deliver? then
      var queue := Outbox(y.server.sent, p);
      if y.delivered < |queue| then System(y.server, y.delivered + 1, Handle(y.client, queue[y.delivered])) else y
    else y.(server := ServerStep(cfg, p, y.server, st))
  }

  function SystemRun(cfg: Screen, p: PeerId, y: System, steps: seq<Step>): System {
    if steps == [] then y
    else SystemStep(cfg, p, SystemRun(cfg, p, y, steps[..|steps| - 1]), steps[|steps| - 1])
  }

  // What one server step sends

  function MoveBy(d: (int, int)): seq<Message> {
    if d == (0, 0) then [] else [MouseMoveRelative(d.0, d.1)]
  }

  function Announces(d: RouteDecision): seq<Message> {
    match d
    case Stay => []
    case EnterRemote(_, entry, _, mods) => [ScreenEnter(entry.x, entry.y, mods)]
    case LeaveRemote(screen) => [ScreenLeave(screen), ModifierSync({})]
  }

  function Forwards(last: Option<Point>, ev: InputEvent): seq<Message> {
    if ev.Mouse? && ev.mouse.Move? then MoveBy(Delta(last, Point(ev.mouse.x, ev.mouse.y))) else [FromInput(ev)]
  }

  /** The messages of one pass of the drain loop: the routing decision, then the event itself. */
  function Emits(cfg: Screen, s: ServerState, ev: InputEvent): seq<Message> {
    if IsEmergency(ev) then Announces(ForceLocal(s.edge).1)
    else
      var (e, d, f) := Observe(cfg, s.edge, ev);
      Announces(d) + if f == ToRemote then Forwards(s.lastMouse, ev) else []
  }

  lemma SendFirstOutbox(s: ServerState, p: PeerId, m: Message)
    requires s.peers != [] && s.peers[0] == p
    ensures Outbox(SendFirst(s, m).sent, p) == Outbox(s.sent, p) + [m]
  {
    assert (s.sent + [Sent(p, m)])[..|s.sent|] == s.sent;
  }

  lemma ForwardOutbox(s: ServerState, p: PeerId, ev: InputEvent)
    requires s.peers != [] && s.peers[0] == p
    ensures Outbox(Forward(s, ev).sent, p) == Outbox(s.sent, p) + Forwards(s.lastMouse, ev)
  {
    if ev.Mouse? && ev.mouse.Move? {
      var cur := Point(ev.mouse.x, ev.mouse.y);
      var d := Delta(s.lastMouse, cur);
      SendFirstOutbox(s.(lastMouse := Some(cur)), p, MouseMoveRelative(d.0, d.1));
    } else {
      SendFirstOutbox(s, p, FromInput(ev));
    }
  }

  lemma ApplyDecisionOutbox(s: ServerState, p: PeerId, d: RouteDecision)
    requires s.peers != [] && s.peers[0] == p
    ensures Outbox(ApplyDecision(s, d).sent, p) == Outbox(s.sent, p) + Announces(d)
    ensures ApplyDecision(s, d).peers == s.peers && ApplyDecision(s, d).lastMouse == s.lastMouse
  {
    match d
    case Stay =>
    case EnterRemote(_, entry, _, mods) => SendFirstOutbox(s, p, ScreenEnter(entry.x, entry.y, mods));
    case LeaveRemote(screen) =>
      SendFirstOutbox(s, p, ScreenLeave(screen));
      SendFirstOutbox(SendFirst(s, ScreenLeave(screen)), p, ModifierSync({}));
  }

  lemma DispatchSent(s: ServerState, p: PeerId, f: ForwardTo, ev: InputEvent)
    requires s.peers != [] && s.peers[0] == p
    ensures Outbox(Dispatch(s, f, ev).sent, p)
         == Outbox(s.sent, p) + if f == ToRemote then Forwards(s.lastMouse, ev) else []
  {
    if f == ToRemote {
      ForwardOutbox(s, p, ev);
    } else {
      Seqs.Nothing(Outbox(s.sent, p));
    }
  }

  lemma DispatchOutbox(s: ServerState, p: PeerId, d: RouteDecision, f: ForwardTo, ev: InputEvent)
    requires s.peers != [] && s.peers[0] == p
    ensures Outbox(Dispatch(ApplyDecision(s, d), f, ev).sent, p)
         == Outbox(s.sent, p) + (Announces(d) + if f == ToRemote then Forwards(s.lastMouse, ev) else [])
  {
    ApplyDecisionOutbox(s, p, d);
    DispatchSent(ApplyDecision(s, d), p, f, ev);
    Seqs.Associative(Outbox(s.sent, p), Announces(d), if f == ToRemote then Forwards(s.lastMouse, ev) else []);
  }

  lemma EmitsIsSent(cfg: Screen, s: ServerState, p: PeerId, ev: InputEvent)
    requires s.peers != [] && s.peers[0] == p
    ensures Outbox(DrainStep(cfg, s, ev).sent, p) == Outbox(s.sent, p) + Emits(cfg, s, ev)
  {
    if IsEmergency(ev) {
      var (e, d) := ForceLocal(s.edge);
      ApplyDecisionOutbox(s.(edge := e, lastMouse := None), p, d);
    } else {
      var (e, d, f) := Observe(cfg, s.edge, ev);
      DispatchOutbox(s.(edge := e), p, d, f, ev);
    }
  }

  lemma {:induction false} WithoutKeepsFirst(peers: seq<PeerId>, p: PeerId, q: PeerId)
    requires peers != [] && peers[0] == p && p != q
    ensures Without(peers, q) != [] && Without(peers, q)[0] == p
  {
  }

  lemma FirstPeerStays(cfg: Screen, p: PeerId, s: ServerState, st: Step)
    requires s.peers != [] && s.peers[0] == p && ValidStep(p, st)
    ensures var s' := ServerStep(cfg, p, s, st); s'.peers != [] && s'.peers[0] == p
  {
    if st.Disconnect? {
      WithoutKeepsFirst(s.peers, p, st.who);
    }
  }

  // Session grammar

  datatype Phase = Idle | Active | Leaving

  /** A reader of the server's messages: where it is in a round and how many rounds have begun. */
  datatype Reader = Reader(phase: Phase, rounds: nat)

  predicate IsInputMessage(m: Message) {
    m.MouseMoveRelative? || m.MouseButton? || m.MouseScroll? || m.KeyMessage?
  }

  /** Accepts (ScreenEnter input* ScreenLeave ModifierSync(empty))*, a ScreenLeave only if it names
      the screen of the EnterRemote decision that began its round. */
  function ReadMessage(crossings: seq<ScreenId>, r: Reader, m: Message): Option<Reader> {
    if OffInputPath(m) then Some(r)
    else
      match r.phase
      case Idle =>
        if m.ScreenEnter? && r.rounds < |crossings| then Some(Reader(Active, r.rounds + 1)) else None
      case Active =>
        if IsInputMessage(m) then Some(r)
        else if m.ScreenLeave? && 0 < r.rounds <= |crossings| && m.peerScreen == crossings[r.rounds - 1] then
          Some(Reader(Leaving, r.rounds))
        else None
      case Leaving =>
        if m == ModifierSync({}) then Some(Reader(Idle, r.rounds)) else None
  }

  function Read(crossings: seq<ScreenId>, begun: nat, ms: seq<Message>): Option<Reader> {
    if ms == [] then Some(Reader(Idle, begun))
    else
      match Read(crossings, begun, ms[..|ms| - 1])
      case None => None
      case Some(r) => ReadMessage(crossings, r, ms[|ms| - 1])
  }

  lemma ReadPush(crossings: seq<ScreenId>, begun: nat, ms: seq<Message>, m: Message)
    requires Read(crossings, begun, ms).Some?
    ensures Read(crossings, begun, ms + [m]) == ReadMessage(crossings, Read(crossings, begun, ms).value, m)
  {
    assert (ms + [m])[..|ms|] == ms;
  }

  lemma {:induction false} ReadMoreCrossings(crossings: seq<ScreenId>, x: ScreenId, begun: nat, ms: seq<Message>)
    requires Read(crossings, begun, ms).Some?
    ensures Read(crossings + [x], begun, ms) == Read(crossings, begun, ms)
  {
    if ms != [] {
      ReadMoreCrossings(crossings, x, begun, ms[..|ms| - 1]);
    }
  }

  /** The messages so far read as complete rounds, plus an open one exactly while the route is remote. */
  predicate Reads(crossings: seq<ScreenId>, begun: nat, ms: seq<Message>, route: Route) {
    && Read(crossings, begun, ms) == Some(Reader(if route.Remote? then Active else Idle, |crossings|))
    && (route.Remote? ==> crossings != [] && crossings[|crossings| - 1] == route.screen)
  }

  predicate InGrammar(s: ServerState, p: PeerId, begun: nat) {
    Reads(s.crossings, begun, Outbox(s.sent, p), s.edge.route)
  }

  lemma {:induction false} InputsStayActive(crossings: seq<ScreenId>, begun: nat, ms: seq<Message>, more: seq<Message>)
    requires Read(crossings, begun, ms).Some? && Read(crossings, begun, ms).value.phase == Active
    requires forall m :: m in more ==> IsInputMessage(m)
    ensures Read(crossings, begun, ms + more) == Read(crossings, begun, ms)
  {
    if more == [] {
      assert ms + more == ms;
    } else {
      InputsStayActive(crossings, begun, ms, more[..|more| - 1]);
      assert ms + more == (ms + more[..|more| - 1]) + [more[|more| - 1]];
      ReadPush(crossings, begun, ms + more[..|more| - 1], more[|more| - 1]);
    }
  }

  lemma ForwardsAreInputs(last: Option<Point>, ev: InputEvent)
    requires Captured(ev)
    ensures forall m :: m in Forwards(last, ev) ==> IsInputMessage(m)
  {
  }

  /** How a decision may move the route. */
  predicate Moves(d: RouteDecision, from: Route, to: Route) {
    match d
    case Stay => from == to
    case EnterRemote(screen, _, _, _) => from.Local? && to == Remote(screen)
    case LeaveRemote(screen) => from == Remote(screen) && to.Local?
  }

  function Journal(d: RouteDecision): seq<ScreenId> {
    if d.EnterRemote? then [d.screen] else []
  }

  lemma StayReads(crossings: seq<ScreenId>, begun: nat, ms: seq<Message>, route: Route, more: seq<Message>)
    requires Reads(crossings, begun, ms, route) && (forall m :: m in more ==> IsInputMessage(m))
    requires route.Local? ==> more == []
    ensures Reads(crossings, begun, ms + more, route)
  {
    if route.Local? {
      Seqs.Nothing(ms);
    } else {
      InputsStayActive(crossings, begun, ms, more);
    }
  }

  lemma EnterReads(crossings: seq<ScreenId>, begun: nat, ms: seq<Message>, screen: ScreenId, enter: Message, more: seq<Message>)
    requires Reads(crossings, begun, ms, Local) && enter.ScreenEnter?
    requires forall m :: m in more ==> IsInputMessage(m)
    ensures Reads(crossings + [screen], begun, ms + ([enter] + more), Remote(screen))
  {
    ReadMoreCrossings(crossings, screen, begun, ms);
    ReadPush(crossings + [screen], begun, ms, enter);
    InputsStayActive(crossings + [screen], begun, ms + [enter], more);
    Seqs.Associative(ms, [enter], more);
    Seqs.Pushed(crossings, screen);
  }

  lemma LeaveReads(crossings: seq<ScreenId>, begun: nat, ms: seq<Message>, screen: ScreenId)
    requires Reads(crossings, begun, ms, Remote(screen))
    ensures Reads(crossings, begun, ms + [ScreenLeave(screen), ModifierSync({})], Local)
  {
    ReadPush(crossings, begun, ms, ScreenLeave(screen));
    ReadPush(crossings, begun, ms + [ScreenLeave(screen)], ModifierSync({}));
    Seqs.Associative(ms, [ScreenLeave(screen)], [ModifierSync({})]);
    assert [ScreenLeave(screen)] + [ModifierSync({})] == [ScreenLeave(screen), ModifierSync({})];
  }

  lemma DecisionReads(crossings: seq<ScreenId>, begun: nat, ms: seq<Message>, d: RouteDecision, from: Route, to: Route,
                      more: seq<Message>)
    requires Reads(crossings, begun, ms, from) && Moves(d, from, to)
    requires forall m :: m in more ==> IsInputMessage(m)
    requires to.Local? ==> more == []
    ensures Reads(crossings + Journal(d), begun, ms + (Announces(d) + more), to)
  {
    Seqs.Nothing(crossings);
    match d
    case Stay =>
      Seqs.Nothing(more);
      StayReads(crossings, begun, ms, from, more);
    case EnterRemote(screen, entry, _, mods) =>
      EnterReads(crossings, begun, ms, screen, ScreenEnter(entry.x, entry.y, mods), more);
    case LeaveRemote(screen) =>
      Seqs.Nothing(Announces(d));
      LeaveReads(crossings, begun, ms, screen);
  }

  lemma DrainStepEdge(cfg: Screen, s: ServerState, ev: InputEvent)
    ensures var s' := DrainStep(cfg, s, ev);
            var d := if IsEmergency(ev) then ForceLocal(s.edge).1 else Observe(cfg, s.edge, ev).1;
            && s'.peers == s.peers
            && Moves(d, s.edge.route, s'.edge.route)
            && s'.crossings == s.crossings + Journal(d)
            && (s'.capturing == if d.Stay? then s.capturing else s'.edge.route.Remote?)
  {
    if !IsEmergency(ev) {
      ObserveRoute(cfg, s.edge, ev);
    }
  }

  lemma GrammarStep(cfg: Screen, p: PeerId, s: ServerState, begun: nat, ev: InputEvent)
    requires s.peers != [] && s.peers[0] == p && InGrammar(s, p, begun) && Captured(ev)
    ensures InGrammar(DrainStep(cfg, s, ev), p, begun)
  {
    var ms, route := Outbox(s.sent, p), s.edge.route;
    EmitsIsSent(cfg, s, p, ev);
    DrainStepEdge(cfg, s, ev);
    if IsEmergency(ev) {
      var d := ForceLocal(s.edge).1;
      DecisionReads(s.crossings, begun, ms, d, route, Local, []);
      assert Announces(d) + [] == Announces(d);
    } else {
      ObserveRoute(cfg, s.edge, ev);
      ForwardsAreInputs(s.lastMouse, ev);
      var (e, d, f) := Observe(cfg, s.edge, ev);
      DecisionReads(s.crossings, begun, ms, d, route, e.route, if f == ToRemote then Forwards(s.lastMouse, ev) else []);
    }
  }

  /** Whatever the user does and whatever else the daemon sends, the peer reads complete rounds and at
      most one open one: open exactly while the route is remote, and on the screen of that route. */
  lemma {:induction false} SessionGrammar(cfg: Screen, p: PeerId, start: ServerState, steps: seq<Step>)
    requires StartsWith(start, p) && ValidRun(p, steps)
    ensures var s := ServerRun(cfg, p, start, steps);
            s.peers != [] && s.peers[0] == p && InGrammar(s, p, |start.crossings|)
  {
    if steps == [] {
    } else {
      var front, st := steps[..|steps| - 1], steps[|steps| - 1];
      SessionGrammar(cfg, p, start, front);
      var s := ServerRun(cfg, p, start, front);
      FirstPeerStays(cfg, p, s, st);
      match st
      case Input(ev) => GrammarStep(cfg, p, s, |start.crossings|, ev);
      case Other(m) =>
        assert (s.sent + [Sent(p, m)])[..|s.sent|] == s.sent;
        ReadPush(s.crossings, |start.crossings|, Outbox(s.sent, p), m);
      case Connect(_) =>
      case Disconnect(_) =>
      case Deliver =>
    }
  }

  lemma ScrollBreaksGrammar(cfg: Screen, s: ServerState, p: PeerId) returns (steps: seq<Step>)
    requires s.peers != [] && s.peers[0] == p && Outbox(s.sent, p) == [] && s.edge.route.Remote?
    ensures ValidRun(p, steps)
    ensures var s' := ServerRun(cfg, p, s, steps); Read(s'.crossings, |s.crossings|, Outbox(s'.sent, p)).None?
  {
    var scroll := Mouse(Scroll(0, 1));
    steps := [Input(scroll)];
    assert steps[..0] == [];
    assert ServerRun(cfg, p, s, steps[..0]) == s;
    var s' := ServerRun(cfg, p, s, steps);
    assert s' == DrainStep(cfg, s, scroll);
    EmitsIsSent(cfg, s, p, scroll);
    assert Outbox(s'.sent, p) == [] + [FromInput(scroll)];
    ReadPush(s'.crossings, |s.crossings|, [], FromInput(scroll));
  }

  /** The start condition on the route is exact. A peer that becomes the first one while input is routed
      to a screen nobody drove, or when the peer that drove it leaves, gets input that no ScreenEnter
      precedes; otherwise the grammar always holds. */
  lemma LateJoinNeedsLocalRoute(cfg: Screen, s: ServerState, p: PeerId)
    requires s.peers != [] && s.peers[0] == p && Outbox(s.sent, p) == []
    ensures s.edge.route.Local? <==>
              forall steps :: ValidRun(p, steps) ==>
                var s' := ServerRun(cfg, p, s, steps);
                Read(s'.crossings, |s.crossings|, Outbox(s'.sent, p)).Some?
  {
    if s.edge.route.Local? {
      forall steps | ValidRun(p, steps)
        ensures var s' := ServerRun(cfg, p, s, steps);
                Read(s'.crossings, |s.crossings|, Outbox(s'.sent, p)).Some?
      {
        SessionGrammar(cfg, p, s, steps);
      }
    } else {
      var steps := ScrollBreaksGrammar(cfg, s, p);
      assert ValidRun(p, steps);
    }
  }

  // Nothing typed is lost, repeated or invented

  predicate IsDirect(m: Message) {
    m.MouseButton? || m.MouseScroll? || m.KeyMessage?
  }

  /** The key, button and scroll messages among the given ones. */
  function Direct(ms: seq<Message>): seq<Message> {
    if ms == [] then []
    else Direct(ms[..|ms| - 1]) + if IsDirect(ms[|ms| - 1]) then [ms[|ms| - 1]] else []
  }

  lemma {:induction false} DirectAppend(a: seq<Message>, b: seq<Message>)
    ensures Direct(a + b) == Direct(a) + Direct(b)
  {
    if b == [] {
      assert a + b == a;
    } else {
      DirectAppend(a, b[..|b| - 1]);
      assert (a + b)[..|a + b| - 1] == a + b[..|b| - 1];
    }
  }

  lemma {:induction false} DirectNone(ms: seq<Message>)
    requires forall m :: m in ms ==> !IsDirect(m)
    ensures Direct(ms) == []
  {
    if ms != [] {
      DirectNone(ms[..|ms| - 1]);
    }
  }

  /** Whether an event is to reach the peer as it is: a key, button or scroll event that the session takes
      while the route is remote, and not the emergency chord. */
  predicate Carries(s: ServerState, ev: InputEvent) {
    s.edge.route.Remote? && !PressesChord(ev) && !(ev.Mouse? && ev.mouse.Move?)
  }

  function Carried(cfg: Screen, p: PeerId, start: ServerState, steps: seq<Step>): seq<Message> {
    if steps == [] then []
    else
      var front, st := steps[..|steps| - 1], steps[|steps| - 1];
      Carried(cfg, p, start, front)
      + if st.Input? && Carries(ServerRun(cfg, p, start, front), st.ev) then [FromInput(st.ev)] else []
  }

  lemma AnnouncesNothingDirect(d: RouteDecision)
    ensures Direct(Announces(d)) == []
  {
    DirectNone(Announces(d));
  }

  lemma ForwardsDirect(last: Option<Point>, ev: InputEvent)
    requires Captured(ev)
    ensures Direct(Forwards(last, ev)) == if ev.Mouse? && ev.mouse.Move? then [] else [FromInput(ev)]
  {
    var ms := Forwards(last, ev);
    if ev.Mouse? && ev.mouse.Move? {
      DirectNone(ms);
    } else {
      assert ms[..0] == [] && IsDirect(FromInput(ev));
    }
  }

  lemma EmitsDirect(cfg: Screen, s: ServerState, ev: InputEvent)
    requires Captured(ev)
    ensures Direct(Emits(cfg, s, ev)) == if Carries(s, ev) then [FromInput(ev)] else []
  {
    if IsEmergency(ev) {
      AnnouncesNothingDirect(ForceLocal(s.edge).1);
    } else {
      var (e, d, f) := Observe(cfg, s.edge, ev);
      ObserveRoute(cfg, s.edge, ev);
      var more := if f == ToRemote then Forwards(s.lastMouse, ev) else [];
      DirectAppend(Announces(d), more);
      AnnouncesNothingDirect(d);
      ForwardsDirect(s.lastMouse, ev);
    }
  }

  /** In every run the key, button and scroll messages sent to the peer are exactly the events taken while
      the route was remote: unchanged, each once, in order, and nothing else. */
  lemma {:induction false} TypingIsCarried(cfg: Screen, p: PeerId, start: ServerState, steps: seq<Step>)
    requires StartsWith(start, p) && ValidRun(p, steps)
    ensures Direct(Outbox(ServerRun(cfg, p, start, steps).sent, p)) == Carried(cfg, p, start, steps)
  {
    if steps == [] {
    } else {
      var front, st := steps[..|steps| - 1], steps[|steps| - 1];
      TypingIsCarried(cfg, p, start, front);
      SessionGrammar(cfg, p, start, front);
      var s := ServerRun(cfg, p, start, front);
      match st
      case Input(ev) =>
        EmitsIsSent(cfg, s, p, ev);
        DirectAppend(Outbox(s.sent, p), Emits(cfg, s, ev));
        EmitsDirect(cfg, s, ev);
      case Other(m) =>
        assert (s.sent + [Sent(p, m)])[..|s.sent|] == s.sent;
        DirectAppend(Outbox(s.sent, p), [m]);
        DirectNone([m]);
      case _ =>
    }
  }

  // The client handles a prefix of what was sent

  lemma {:induction false} OutboxGrows(cfg: Screen, p: PeerId, s: ServerState, st: Step)
    requires s.peers != [] && s.peers[0] == p && ValidStep(p, st)
    ensures Outbox(s.sent, p) <= Outbox(ServerStep(cfg, p, s, st).sent, p)
  {
    match st
    case Input(ev) => EmitsIsSent(cfg, s, p, ev);
    case Other(m) => assert (s.sent + [Sent(p, m)])[..|s.sent|] == s.sent;
    case _ =>
  }

  lemma HandleNext(c: ClientState, queue: seq<Message>, n: nat)
    requires n < |queue|
    ensures HandleAll(c, queue[..n + 1]) == Handle(HandleAll(c, queue[..n]), queue[n])
  {
    assert queue[..n + 1][..n] == queue[..n];
  }

  lemma StepHandlesPrefix(cfg: Screen, p: PeerId, y: System, c: ClientState, st: Step)
    requires y.server.peers != [] && y.server.peers[0] == p && ValidStep(p, st)
    requires var queue := Outbox(y.server.sent, p);
             y.delivered <= |queue| && y.client == HandleAll(c, queue[..y.delivered])
    ensures var z := SystemStep(cfg, p, y, st);
            var queue := Outbox(z.server.sent, p);
            z.delivered <= |queue| && z.client == HandleAll(c, queue[..z.delivered])
  {
    var queue := Outbox(y.server.sent, p);
    if st.Deliver? {
      if y.delivered < |queue| {
        HandleNext(c, queue, y.delivered);
      }
    } else {
      OutboxGrows(cfg, p, y.server, st);
      assert Outbox(ServerStep(cfg, p, y.server, st).sent, p)[..y.delivered] == queue[..y.delivered];
    }
  }

  lemma {:induction false} ClientHandlesPrefix(cfg: Screen, p: PeerId, start: ServerState, c: ClientState, steps: seq<Step>)
    requires StartsWith(start, p) && ValidRun(p, steps)
    ensures var y := SystemRun(cfg, p, System(start, 0, c), steps);
            var queue := Outbox(y.server.sent, p);
            && y.server == ServerRun(cfg, p, start, steps)
            && y.delivered <= |queue| && y.client == HandleAll(c, queue[..y.delivered])
  {
    if steps == [] {
    } else {
      var front, st := steps[..|steps| - 1], steps[|steps| - 1];
      ClientHandlesPrefix(cfg, p, start, c, front);
      SessionGrammar(cfg, p, start, front);
      StepHandlesPrefix(cfg, p, SystemRun(cfg, p, System(start, 0, c), front), c, st);
    }
  }

  /** What the client has been given to inject of it is always a prefix, and all of it once it caught up. */
  lemma TypingArrives(cfg: Screen, p: PeerId, start: ServerState, c: ClientState, steps: seq<Step>)
    requires StartsWith(start, p) && ValidRun(p, steps)
    ensures var y := SystemRun(cfg, p, System(start, 0, c), steps);
            var queue := Outbox(y.server.sent, p);
            && y.delivered <= |queue| && y.client == HandleAll(c, queue[..y.delivered])
            && Direct(queue[..y.delivered]) <= Carried(cfg, p, start, steps)
            && (y.delivered == |queue| ==> Direct(queue[..y.delivered]) == Carried(cfg, p, start, steps))
  {
    ClientHandlesPrefix(cfg, p, start, c, steps);
    TypingIsCarried(cfg, p, start, steps);
    var y := SystemRun(cfg, p, System(start, 0, c), steps);
    DirectPrefix(Outbox(y.server.sent, p), y.delivered);
  }

  lemma DirectPrefix(ms: seq<Message>, n: nat)
    requires n <= |ms|
    ensures Direct(ms[..n]) <= Direct(ms)
    ensures n == |ms| ==> Direct(ms[..n]) == Direct(ms)
  {
    assert ms == ms[..n] + ms[n..];
    DirectAppend(ms[..n], ms[n..]);
    if n == |ms| {
      assert ms[..n] == ms;
    }
  }

  // No stuck modifiers

  /** What the last ScreenEnter or ScreenLeave handled was. */
  datatype Place = Before | Inside | Outside

  function PlaceOf(handled: seq<Message>): Place {
    if handled == [] then Before
    else
      var m := handled[|handled| - 1];
      if m.ScreenEnter? then Inside else if m.ScreenLeave? then Outside else PlaceOf(handled[..|handled| - 1])
  }

  lemma {:induction false} OutsideNothingHeld(crossings: seq<ScreenId>, begun: nat, c: ClientState, handled: seq<Message>)
    requires Read(crossings, begun, handled).Some?
    ensures Read(crossings, begun, handled).value.phase == Active <==> PlaceOf(handled) == Inside
    ensures PlaceOf(handled) == Before ==> Read(crossings, begun, handled).value.phase == Idle
                                           && HeldModifiers(HandleAll(c, handled)) == HeldModifiers(c)
    ensures PlaceOf(handled) == Outside ==> HeldModifiers(HandleAll(c, handled)) == {}
  {
    if handled == [] {
    } else {
      var front, m := handled[..|handled| - 1], handled[|handled| - 1];
      OutsideNothingHeld(crossings, begun, c, front);
      var before := HandleAll(c, front);
      ReleaseAllEffect(before);
      if m.ModifierSync? {
        ResyncEffect(before, m.held);
      }
    }
  }

  lemma {:induction false} ReadPrefix(crossings: seq<ScreenId>, begun: nat, ms: seq<Message>, n: nat)
    requires Read(crossings, begun, ms).Some? && n <= |ms|
    ensures Read(crossings, begun, ms[..n]).Some?
  {
    if n == |ms| {
      assert ms[..n] == ms;
    } else {
      ReadPrefix(crossings, begun, ms[..|ms| - 1], n);
      assert ms[..|ms| - 1][..n] == ms[..n];
    }
  }

  lemma EnterHolds(c: ClientState, m: Message)
    requires m.ScreenEnter?
    ensures HeldModifiers(Handle(c, m)) == LeftVariants(m.modifiers)
  {
    ResyncEffect(Inject(c, Mouse(Move(m.enterX, m.enterY))), m.modifiers);
  }

  /** In every interleaving of user input, peer traffic and deliveries, whatever the client held when the
      session began: from a handled ScreenLeave until the next ScreenEnter no modifier is held; right
      after a ScreenEnter the held modifiers are exactly the flags it carried; and until the first of
      either they are those held at the beginning. */
  lemma NoStuckModifiers(cfg: Screen, p: PeerId, start: ServerState, c: ClientState, steps: seq<Step>)
    requires StartsWith(start, p) && ValidRun(p, steps)
    ensures var y := SystemRun(cfg, p, System(start, 0, c), steps);
            var queue := Outbox(y.server.sent, p);
            && y.delivered <= |queue|
            && (PlaceOf(queue[..y.delivered]) == Outside ==> HeldModifiers(y.client) == {})
            && (PlaceOf(queue[..y.delivered]) == Before ==> HeldModifiers(y.client) == HeldModifiers(c))
            && (0 < y.delivered && queue[y.delivered - 1].ScreenEnter? ==>
                  HeldModifiers(y.client) == LeftVariants(queue[y.delivered - 1].modifiers))
  {
    ClientHandlesPrefix(cfg, p, start, c, steps);
    SessionGrammar(cfg, p, start, steps);
    var y := SystemRun(cfg, p, System(start, 0, c), steps);
    var queue := Outbox(y.server.sent, p);
    var handled := queue[..y.delivered];
    ReadPrefix(y.server.crossings, |start.crossings|, queue, y.delivered);
    OutsideNothingHeld(y.server.crossings, |start.crossings|, c, handled);
    if 0 < y.delivered && queue[y.delivered - 1].ScreenEnter? {
      var m := queue[y.delivered - 1];
      assert handled[|handled| - 1] == m;
      EnterHolds(HandleAll(c, handled[..|handled| - 1]), m);
    }
  }

  // Sends that other tasks come between

  /** The messages of the input path among the given ones. */
  function OnPath(ms: seq<Message>): seq<Message> {
    if ms == [] then []
    else OnPath(ms[..|ms| - 1]) + if OffInputPath(ms[|ms| - 1]) then [] else [ms[|ms| - 1]]
  }

  lemma {:induction false} ReadOnPath(crossings: seq<ScreenId>, begun: nat, ms: seq<Message>)
    ensures Read(crossings, begun, ms) == Read(crossings, begun, OnPath(ms))
  {
    if ms != [] {
      var front, m := ms[..|ms| - 1], ms[|ms| - 1];
      ReadOnPath(crossings, begun, front);
      if !OffInputPath(m) {
        assert OnPath(ms)[..|OnPath(ms)| - 1] == OnPath(front);
      } else {
        assert OnPath(ms) == OnPath(front);
      }
    }
  }

  lemma {:induction false} HandleOnPath(c: ClientState, ms: seq<Message>)
    ensures HandleAll(c, ms) == HandleAll(c, OnPath(ms))
  {
    if ms != [] {
      var front, m := ms[..|ms| - 1], ms[|ms| - 1];
      HandleOnPath(c, front);
      if !OffInputPath(m) {
        assert OnPath(ms)[..|OnPath(ms)| - 1] == OnPath(front);
      } else {
        assert OnPath(ms) == OnPath(front);
      }
    }
  }

  lemma {:induction false} OnPathGrows(ms: seq<Message>, n: nat)
    requires n <= |ms|
    ensures OnPath(ms[..n]) <= OnPath(ms)
  {
    if n == |ms| {
      assert ms[..n] == ms;
    } else {
      OnPathGrows(ms[..|ms| - 1], n);
      assert ms[..|ms| - 1][..n] == ms[..n];
    }
  }

  lemma {:induction false} OnPathReaches(ms: seq<Message>, k: nat) returns (n: nat)
    requires k <= |OnPath(ms)|
    ensures n <= |ms| && OnPath(ms[..n]) == OnPath(ms)[..k]
  {
    if k == |OnPath(ms)| {
      n := |ms|;
      assert ms[..n] == ms;
    } else {
      n := OnPathReaches(ms[..|ms| - 1], k);
      assert ms[..|ms| - 1][..n] == ms[..n];
    }
  }

  /** A queue that holds, of the input path, a part of what another holds reads and is handled as a part of
      that other, whatever else is in between. */
  lemma SendsMayBeParted(crossings: seq<ScreenId>, begun: nat, c: ClientState, queue: seq<Message>, parted: seq<Message>, n: nat)
      returns (m: nat)
    requires OnPath(parted) <= OnPath(queue) && n <= |parted|
    ensures m <= |queue| && HandleAll(c, parted[..n]) == HandleAll(c, queue[..m])
    ensures Read(crossings, begun, parted[..n]) == Read(crossings, begun, queue[..m])
    ensures OnPath(parted[..n]) == OnPath(queue[..m])
  {
    OnPathGrows(parted, n);
    m := OnPathReaches(queue, |OnPath(parted[..n])|);
    assert OnPath(queue[..m]) == OnPath(parted[..n]);
    HandleOnPath(c, parted[..n]);
    HandleOnPath(c, queue[..m]);
    ReadOnPath(crossings, begun, parted[..n]);
    ReadOnPath(crossings, begun, queue[..m]);
  }
}
