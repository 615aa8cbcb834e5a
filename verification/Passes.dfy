/** The server's input path as the threads really interleave: hook events go through the drain thread into a
    channel, and one pass of the session's loop is a route change followed by chores, between which hook
    events, peer events and other tasks' messages can come. */
module Passes {
  import opened Wrappers
  import Seqs
  import opened Input
  import opened Protocol
  import opened Edge
  import opened Server
  import opened Injector
  import opened Session
  import opened Capture

  /** What is fixed during a run. */
  datatype Rig = Rig(cfg: Screen, p: PeerId, keymap: u16 -> KeyCode)

  /** What a pass does after the route change: look up the first peer for some messages, await one send to
      it, warp the cursor, switch capture, forward the event. */
  datatype Chore =
    | Pick(msgs: seq<Message>)
    | SendTo(to: PeerId, msg: Message)
    | Park(at: Point)
    | Switch(on: bool)
    | Pass(f: ForwardTo, ev: InputEvent)

  datatype Pipeline = Pipeline(mods: ModifierState, channel: seq<InputEvent>, server: ServerState, todo: seq<Chore>)

  const START := Pipeline({}, [], INITIAL_SERVER, [])

  /** A hook event reaches the drain thread; the session, done with its chores, takes an event off the
      channel and changes the route; it does one chore; or another server task runs. */
  datatype Turn = Hook(raw: RawEvent) | Take | Work | Task(st: Step)

  function Chores(d: RouteDecision): seq<Chore> {
    match d
    case Stay => []
    case EnterRemote(_, entry, warp, mods) => [Pick([ScreenEnter(entry.x, entry.y, mods)]), Park(warp), Switch(true)]
    case LeaveRemote(screen) => [Pick([ScreenLeave(screen), ModifierSync({})]), Switch(false)]
  }

  function SendsTo(to: PeerId, msgs: seq<Message>): seq<Chore> {
    if msgs == [] then [] else [SendTo(to, msgs[0])] + SendsTo(to, msgs[1..])
  }

  function Perform(s: ServerState, c: Chore): (ServerState, seq<Chore>) {
    match c
    case Pick(msgs) => (s, if s.peers == [] then [] else SendsTo(s.peers[0], msgs))
    case SendTo(to, msg) => (s.(sent := s.sent + [Sent(to, msg)]), [])
    case Park(at) => (s.(cursor := Some(at)), [])
    case Switch(on) => (s.(capturing := on), [])
    case Pass(f, ev) => (Dispatch(s, f, ev), [])
  }

  /** The route change at the head of a pass, and the chores it leaves. */
  function Begin(cfg: Screen, s: ServerState, ev: InputEvent): (ServerState, seq<Chore>) {
    if IsEmergency(ev) then
      var (e, d) := ForceLocal(s.edge);
      (s.(edge := e, lastMouse := None), Chores(d))
    else
      var (e, d, f) := Observe(cfg, s.edge, ev);
      (s.(edge := e, crossings := s.crossings + Journal(d)), Chores(d) + [Pass(f, ev)])
  }

  /** The hook event goes on to the session. */
  predicate Goes(l: Pipeline, t: Turn) {
    t.Hook? && (l.server.capturing || t.raw.RawMove?)
  }

  predicate Takes(l: Pipeline, t: Turn) {
    t.Take? && l.todo == [] && l.channel != []
  }

  function Advance(g: Rig, l: Pipeline, t: Turn): Pipeline {
    match t
    case Hook(r) =>
      var ev := Gate(g.keymap, l.mods, r, l.server.capturing);
      l.(mods := Track(l.mods, r), channel := l.channel + if ev.Some? then [ev.value] else [])
    case Take =>
      if !Takes(l, t) then l
      else
        var (s, todo) := Begin(g.cfg, l.server, l.channel[0]);
        l.(channel := l.channel[1..], server := s, todo := todo)
    case Work =>
      if l.todo == [] then l
      else
        var (s, more) := Perform(l.server, l.todo[0]);
        l.(server := s, todo := more + l.todo[1..])
    case Task(st) =>
      if st.Input? then l else l.(server := ServerStep(g.cfg, g.p, l.server, st))
  }

  function AdvanceAll(g: Rig, l: Pipeline, ts: seq<Turn>): Pipeline {
    if ts == [] then l else Advance(g, AdvanceAll(g, l, ts[..|ts| - 1]), ts[|ts| - 1])
  }

  function Hooked(ts: seq<Turn>): seq<RawEvent> {
    if ts == [] then []
    else Hooked(ts[..|ts| - 1]) + if ts[|ts| - 1].Hook? then [ts[|ts| - 1].raw] else []
  }

  lemma {:induction false} PipelineTracks(g: Rig, l: Pipeline, ts: seq<Turn>)
    ensures AdvanceAll(g, l, ts).mods == TrackAll(l.mods, Hooked(ts))
  {
    if ts == [] {
    } else {
      var front, t := ts[..|ts| - 1], ts[|ts| - 1];
      PipelineTracks(g, l, front);
      if t.Hook? {
        Seqs.Pushed(Hooked(front), t.raw);
      } else {
        Seqs.Nothing(Hooked(front));
      }
    }
  }

  // The pass as one step

  function Weight(todo: seq<Chore>): nat {
    if todo == [] then 0 else (if todo[0].Pick? then 1 + |todo[0].msgs| else 1) + Weight(todo[1..])
  }

  lemma {:induction false} WeightOfSends(to: PeerId, msgs: seq<Message>, rest: seq<Chore>)
    ensures Weight(SendsTo(to, msgs) + rest) == |msgs| + Weight(rest)
  {
    if msgs == [] {
      Seqs.Nothing(rest);
    } else {
      assert (SendsTo(to, msgs) + rest)[1..] == SendsTo(to, msgs[1..]) + rest;
      WeightOfSends(to, msgs[1..], rest);
    }
  }

  /** All chores done with nothing in between. */
  function Finish(s: ServerState, todo: seq<Chore>): ServerState
    decreases Weight(todo)
  {
    if todo == [] then s
    else
      var (s', more) := Perform(s, todo[0]);
      Seqs.Nothing(todo[1..]);
      if todo[0].Pick? && s.peers != [] then
        WeightOfSends(s.peers[0], todo[0].msgs, todo[1..]);
        Finish(s', more + todo[1..])
      else
        Finish(s', more + todo[1..])
  }

  lemma FinishOne(s: ServerState, c: Chore, rest: seq<Chore>)
    requires !c.Pick?
    ensures Finish(s, [c] + rest) == Finish(Perform(s, c).0, rest)
  {
    assert ([c] + rest)[1..] == rest;
    Seqs.Nothing(rest);
  }

  lemma {:induction false} FinishSends(s: ServerState, to: PeerId, msgs: seq<Message>, rest: seq<Chore>)
    ensures Finish(s, SendsTo(to, msgs) + rest) == Finish(s.(sent := s.sent + Addressed(to, msgs)), rest)
    decreases |msgs|
  {
    if msgs == [] {
      Seqs.Nothing(rest);
      Seqs.Nothing(s.sent);
    } else {
      var s' := s.(sent := s.sent + [Sent(to, msgs[0])]);
      Seqs.Associative([SendTo(to, msgs[0])], SendsTo(to, msgs[1..]), rest);
      FinishOne(s, SendTo(to, msgs[0]), SendsTo(to, msgs[1..]) + rest);
      FinishSends(s', to, msgs[1..], rest);
      Seqs.Associative(s.sent, [Sent(to, msgs[0])], Addressed(to, msgs[1..]));
    }
  }

  function Addressed(to: PeerId, msgs: seq<Message>): seq<Sent> {
    if msgs == [] then [] else [Sent(to, msgs[0])] + Addressed(to, msgs[1..])
  }

  lemma FinishPick(s: ServerState, msgs: seq<Message>, rest: seq<Chore>)
    ensures Finish(s, [Pick(msgs)] + rest)
         == Finish(if s.peers == [] then s else s.(sent := s.sent + Addressed(s.peers[0], msgs)), rest)
  {
    assert ([Pick(msgs)] + rest)[1..] == rest;
    if s.peers == [] {
      Seqs.Nothing(rest);
    } else {
      FinishSends(s, s.peers[0], msgs, rest);
    }
  }

  lemma FinishDecision(s: ServerState, d: RouteDecision, rest: seq<Chore>)
    ensures Finish(s.(crossings := s.crossings + Journal(d)), Chores(d) + rest) == Finish(ApplyDecision(s, d), rest)
  {
    var s0 := s.(crossings := s.crossings + Journal(d));
    Seqs.Nothing(s.crossings);
    match d
    case Stay => Seqs.Nothing(rest);
    case EnterRemote(_, entry, warp, mods) =>
      var enter := ScreenEnter(entry.x, entry.y, mods);
      var tail := [Switch(true)] + rest;
      assert Chores(d) + rest == [Pick([enter])] + ([Park(warp)] + tail);
      FinishPick(s0, [enter], [Park(warp)] + tail);
      var s1 := if s0.peers == [] then s0 else s0.(sent := s0.sent + Addressed(s0.peers[0], [enter]));
      FinishOne(s1, Park(warp), tail);
      FinishOne(s1.(cursor := Some(warp)), Switch(true), rest);
      OneAddressed(s.sent, if s.peers == [] then 0 else s.peers[0], enter);
    case LeaveRemote(screen) =>
      var leave, sync := ScreenLeave(screen), ModifierSync({});
      assert Chores(d) + rest == [Pick([leave, sync])] + ([Switch(false)] + rest);
      FinishPick(s0, [leave, sync], [Switch(false)] + rest);
      var s1 := if s0.peers == [] then s0 else s0.(sent := s0.sent + Addressed(s0.peers[0], [leave, sync]));
      FinishOne(s1, Switch(false), rest);
      TwoAddressed(s.sent, if s.peers == [] then 0 else s.peers[0], leave, sync);
  }

  lemma OneAddressed(sent: seq<Sent>, to: PeerId, m: Message)
    ensures sent + Addressed(to, [m]) == sent + [Sent(to, m)]
  {
    assert [m][1..] == [];
  }

  lemma TwoAddressed(sent: seq<Sent>, to: PeerId, m: Message, n: Message)
    ensures sent + Addressed(to, [m, n]) == (sent + [Sent(to, m)]) + [Sent(to, n)]
  {
    assert [m, n][1..] == [n] && [n][1..] == [];
    assert Addressed(to, [n]) == [Sent(to, n)] + [];
    Seqs.Nothing([Sent(to, n)]);
    assert Addressed(to, [m, n]) == [Sent(to, m)] + [Sent(to, n)];
    Seqs.Associative(sent, [Sent(to, m)], [Sent(to, n)]);
  }

  /** A pass that nothing comes between is one pass of the drain loop. */
  lemma PassIsDrainStep(cfg: Screen, s: ServerState, ev: InputEvent)
    ensures var (s', todo) := Begin(cfg, s, ev); Finish(s', todo) == DrainStep(cfg, s, ev)
  {
    if IsEmergency(ev) {
      var (e, d) := ForceLocal(s.edge);
      var s1 := s.(edge := e, lastMouse := None);
      Seqs.Nothing(Chores(d));
      Seqs.Nothing(s1.crossings);
      FinishDecision(s1, d, []);
    } else {
      var (e, d, f) := Observe(cfg, s.edge, ev);
      FinishDecision(s.(edge := e), d, [Pass(f, ev)]);
      Seqs.Nothing([Pass(f, ev)]);
      FinishOne(ApplyDecision(s.(edge := e), d), Pass(f, ev), []);
    }
  }

  // Capture and route between the chores

  /** Whether capture is on once the chores are done. */
  function CaptureAfter(todo: seq<Chore>, capturing: bool): bool {
    if todo == [] then capturing
    else CaptureAfter(todo[1..], if todo[0].Switch? then todo[0].on else capturing)
  }

  lemma {:induction false} CaptureAfterSends(to: PeerId, msgs: seq<Message>, rest: seq<Chore>, capturing: bool)
    ensures CaptureAfter(SendsTo(to, msgs) + rest, capturing) == CaptureAfter(rest, capturing)
  {
    if msgs == [] {
      Seqs.Nothing(rest);
    } else {
      assert (SendsTo(to, msgs) + rest)[1..] == SendsTo(to, msgs[1..]) + rest;
      CaptureAfterSends(to, msgs[1..], rest, capturing);
    }
  }

  lemma {:induction false} NoSwitchNoChange(todo: seq<Chore>, capturing: bool)
    requires CaptureAfter(todo, capturing) != capturing
    ensures Switch(!capturing) in todo
  {
    if todo[0].Switch? && todo[0].on != capturing {
      assert todo[0] == Switch(!capturing);
    } else {
      NoSwitchNoChange(todo[1..], capturing);
    }
  }

  /** At every time of every run: capture agrees with the route once the chores are done, and the auto peer
      is set exactly while a peer is tracked. */
  predicate Settles(l: Pipeline) {
    && (CaptureAfter(l.todo, l.server.capturing) <==> l.server.edge.route.Remote?)
    && (l.server.edge.autoPeer.Some? <==> l.server.peers != [])
  }

  lemma CaptureAfterOne(c: Chore, rest: seq<Chore>, capturing: bool)
    ensures CaptureAfter([c] + rest, capturing) == CaptureAfter(rest, if c.Switch? then c.on else capturing)
  {
    assert ([c] + rest)[1..] == rest;
  }

  lemma CaptureAfterChores(d: RouteDecision, rest: seq<Chore>, capturing: bool)
    ensures CaptureAfter(Chores(d) + rest, capturing)
         == CaptureAfter(rest, if d.Stay? then capturing else d.EnterRemote?)
  {
    match d
    case Stay => Seqs.Nothing(rest);
    case EnterRemote(_, entry, warp, mods) =>
      var first := Pick([ScreenEnter(entry.x, entry.y, mods)]);
      assert Chores(d) + rest == [first] + ([Park(warp)] + ([Switch(true)] + rest));
      CaptureAfterOne(first, [Park(warp)] + ([Switch(true)] + rest), capturing);
      CaptureAfterOne(Park(warp), [Switch(true)] + rest, capturing);
      CaptureAfterOne(Switch(true), rest, capturing);
    case LeaveRemote(screen) =>
      var first := Pick([ScreenLeave(screen), ModifierSync({})]);
      assert Chores(d) + rest == [first] + ([Switch(false)] + rest);
      CaptureAfterOne(first, [Switch(false)] + rest, capturing);
      CaptureAfterOne(Switch(false), rest, capturing);
  }

  lemma CaptureAfterBegin(cfg: Screen, s: ServerState, ev: InputEvent)
    requires s.capturing <==> s.edge.route.Remote?
    ensures var (s', todo) := Begin(cfg, s, ev);
            && (CaptureAfter(todo, s'.capturing) <==> s'.edge.route.Remote?)
            && s'.peers == s.peers && s'.edge.autoPeer == s.edge.autoPeer && s'.capturing == s.capturing
  {
    if IsEmergency(ev) {
      var d := ForceLocal(s.edge).1;
      Seqs.Nothing(Chores(d));
      CaptureAfterChores(d, [], s.capturing);
    } else {
      ObserveRoute(cfg, s.edge, ev);
      var (e, d, f) := Observe(cfg, s.edge, ev);
      CaptureAfterChores(d, [Pass(f, ev)], s.capturing);
      Seqs.Nothing([Pass(f, ev)]);
      CaptureAfterOne(Pass(f, ev), [], if d.Stay? then s.capturing else d.EnterRemote?);
    }
  }

  lemma PerformKeepsEdge(s: ServerState, c: Chore)
    ensures var s' := Perform(s, c).0;
            && s'.edge == s.edge && s'.peers == s.peers && s'.crossings == s.crossings
            && s'.capturing == (if c.Switch? then c.on else s.capturing)
  {
  }

  lemma PerformKeeps(s: ServerState, todo: seq<Chore>)
    requires todo != []
    ensures var (s', more) := Perform(s, todo[0]);
            && s'.edge == s.edge && s'.peers == s.peers
            && CaptureAfter(more + todo[1..], s'.capturing) == CaptureAfter(todo, s.capturing)
  {
    PerformKeepsEdge(s, todo[0]);
    Seqs.Nothing(todo[1..]);
    if todo[0].Pick? && s.peers != [] {
      CaptureAfterSends(s.peers[0], todo[0].msgs, todo[1..], s.capturing);
    }
  }

  lemma TurnSettles(g: Rig, l: Pipeline, t: Turn)
    requires Settles(l)
    ensures Settles(Advance(g, l, t))
  {
    match t
    case Hook(_) =>
    case Take =>
      if Takes(l, t) {
        CaptureAfterBegin(g.cfg, l.server, l.channel[0]);
      }
    case Work =>
      if l.todo != [] {
        PerformKeeps(l.server, l.todo);
      }
    case Task(_) =>
  }

  lemma {:induction false} CaptureSettlesWithRoute(g: Rig, l: Pipeline, ts: seq<Turn>)
    requires Settles(l)
    ensures Settles(AdvanceAll(g, l, ts))
  {
    if ts == [] {
    } else {
      CaptureSettlesWithRoute(g, l, ts[..|ts| - 1]);
      TurnSettles(g, AdvanceAll(g, l, ts[..|ts| - 1]), ts[|ts| - 1]);
    }
  }

  /** Capture is on only while the route is remote or inside a leave that has yet to switch it off, and off
      only while the route is local or inside an entry that has yet to switch it on. */
  lemma CaptureOutsideRoute(g: Rig, ts: seq<Turn>)
    ensures var l := AdvanceAll(g, START, ts);
            && (l.server.capturing ==> l.server.edge.route.Remote? || Switch(false) in l.todo)
            && (!l.server.capturing ==> l.server.edge.route.Local? || Switch(true) in l.todo)
  {
    CaptureSettlesWithRoute(g, START, ts);
    var l := AdvanceAll(g, START, ts);
    if CaptureAfter(l.todo, l.server.capturing) != l.server.capturing {
      NoSwitchNoChange(l.todo, l.server.capturing);
    }
  }

  /** A pass first sends, then parks the cursor, then switches capture, then forwards. */
  function Rank(c: Chore): nat {
    match c
    case Pick(_) => 0
    case SendTo(_, _) => 0
    case Park(_) => 1
    case Switch(_) => 2
    case Pass(_, _) => 3
  }

  predicate InOrder(todo: seq<Chore>) {
    forall i, j :: 0 <= i < j < |todo| ==> Rank(todo[i]) <= Rank(todo[j])
  }

  lemma {:induction false} SendsAreFirst(to: PeerId, msgs: seq<Message>)
    ensures forall i :: 0 <= i < |SendsTo(to, msgs)| ==> Rank(SendsTo(to, msgs)[i]) == 0
  {
    if msgs != [] {
      SendsAreFirst(to, msgs[1..]);
    }
  }

  lemma BeginInOrder(cfg: Screen, s: ServerState, ev: InputEvent)
    ensures InOrder(Begin(cfg, s, ev).1)
  {
  }

  lemma SplicedInOrder(more: seq<Chore>, todo: seq<Chore>)
    requires todo != [] && InOrder(todo) && forall i :: 0 <= i < |more| ==> Rank(more[i]) == 0
    ensures InOrder(more + todo[1..])
  {
    var rest := todo[1..];
    assert forall i :: 0 <= i < |rest| ==> rest[i] == todo[i + 1];
    assert forall i :: 0 <= i < |more + rest| ==> (more + rest)[i] == if i < |more| then more[i] else rest[i - |more|];
  }

  lemma TurnInOrder(g: Rig, l: Pipeline, t: Turn)
    requires InOrder(l.todo)
    ensures InOrder(Advance(g, l, t).todo)
  {
    if Takes(l, t) {
      BeginInOrder(g.cfg, l.server, l.channel[0]);
    }
    if t.Work? && l.todo != [] {
      if l.todo[0].Pick? && l.server.peers != [] {
        SendsAreFirst(l.server.peers[0], l.todo[0].msgs);
      }
      SplicedInOrder(Perform(l.server, l.todo[0]).1, l.todo);
    }
  }

  /** In every run capture is switched only when everything the decision sends is sent and the cursor is parked, and
      events are forwarded after that. */
  lemma {:induction false} ChoresStayInOrder(g: Rig, l: Pipeline, ts: seq<Turn>)
    requires InOrder(l.todo)
    ensures InOrder(AdvanceAll(g, l, ts).todo)
  {
    if ts == [] {
    } else {
      ChoresStayInOrder(g, l, ts[..|ts| - 1]);
      TurnInOrder(g, AdvanceAll(g, l, ts[..|ts| - 1]), ts[|ts| - 1]);
    }
  }

  // Refinement: the client cannot tell the passes from the steps

  function LastOf(c: Chore, last: Option<Point>): Option<Point> {
    if c.Pass? && c.ev.Mouse? && c.ev.mouse.Move? then Some(Point(c.ev.mouse.x, c.ev.mouse.y)) else last
  }

  /** The last position and the parked cursor once the chores are done. */
  function PlacesAfter(todo: seq<Chore>, last: Option<Point>, cursor: Option<Point>): (Option<Point>, Option<Point>) {
    if todo == [] then (last, cursor)
    else PlacesAfter(todo[1..], LastOf(todo[0], last), if todo[0].Park? then Some(todo[0].at) else cursor)
  }

  /** What one chore has yet to send to `p`, as long as it is the first peer. */
  function Owes(c: Chore, last: Option<Point>, p: PeerId): seq<Message> {
    match c
    case Pick(msgs) => msgs
    case SendTo(to, msg) => if to == p then [msg] else []
    case Pass(f, ev) => if f == ToRemote then Forwards(last, ev) else []
    case _ => []
  }

  function Pending(todo: seq<Chore>, last: Option<Point>, p: PeerId): seq<Message> {
    if todo == [] then [] else Owes(todo[0], last, p) + Pending(todo[1..], LastOf(todo[0], last), p)
  }

  lemma {:induction false} SendsPending(to: PeerId, msgs: seq<Message>, rest: seq<Chore>, last: Option<Point>,
                                        cursor: Option<Point>, p: PeerId)
    ensures Pending(SendsTo(to, msgs) + rest, last, p) == (if to == p then msgs else []) + Pending(rest, last, p)
    ensures PlacesAfter(SendsTo(to, msgs) + rest, last, cursor) == PlacesAfter(rest, last, cursor)
    decreases |msgs|
  {
    if msgs == [] {
      Seqs.Nothing(rest);
      Seqs.Nothing(Pending(rest, last, p));
    } else {
      var tail := SendsTo(to, msgs[1..]) + rest;
      assert SendsTo(to, msgs) + rest == [SendTo(to, msgs[0])] + tail;
      assert ([SendTo(to, msgs[0])] + tail)[1..] == tail;
      SendsPending(to, msgs[1..], rest, last, cursor, p);
      Seqs.Nothing(Pending(rest, last, p));
      if to == p {
        Seqs.Associative([msgs[0]], msgs[1..], Pending(rest, last, p));
        assert [msgs[0]] + msgs[1..] == msgs;
      }
    }
  }

  lemma SendOutbox(sent: seq<Sent>, to: PeerId, msg: Message, p: PeerId)
    ensures Outbox(sent + [Sent(to, msg)], p) == Outbox(sent, p) + if to == p then [msg] else []
  {
    Seqs.Pushed(sent, Sent(to, msg));
  }

  /** A send that has been started goes through to its peer and to nobody else, tracked or not. */
  lemma StartedSendGoesOut(s: ServerState, to: PeerId, msg: Message, q: PeerId)
    ensures var s' := Perform(s, SendTo(to, msg)).0;
            && Outbox(s'.sent, q) == Outbox(s.sent, q) + (if to == q then [msg] else [])
            && s' == s.(sent := s'.sent)
  {
    SendOutbox(s.sent, to, msg, q);
  }

  lemma ForwardPlaces(s: ServerState, ev: InputEvent)
    requires s.peers != []
    ensures var s' := Forward(s, ev);
            && s'.lastMouse == (if ev.Mouse? && ev.mouse.Move? then Some(Point(ev.mouse.x, ev.mouse.y)) else s.lastMouse)
            && s'.cursor == s.cursor
  {
  }

  lemma PassPlaces(s: ServerState, f: ForwardTo, ev: InputEvent)
    requires s.peers != []
    ensures var s' := Dispatch(s, f, ev); s'.lastMouse == LastOf(Pass(f, ev), s.lastMouse) && s'.cursor == s.cursor
  {
    if f == ToRemote {
      ForwardPlaces(s, ev);
    }
  }

  lemma PassOutbox(s: ServerState, f: ForwardTo, ev: InputEvent, p: PeerId)
    requires s.peers != [] && s.peers[0] == p
    ensures var s' := Dispatch(s, f, ev);
            && Outbox(s'.sent, p) == Outbox(s.sent, p) + (if f == ToRemote then Forwards(s.lastMouse, ev) else [])
            && s'.lastMouse == LastOf(Pass(f, ev), s.lastMouse) && s'.cursor == s.cursor
  {
    DispatchSent(s, p, f, ev);
    PassPlaces(s, f, ev);
  }

  /** A chore sends what it owes and leaves the rest as it was owed. */
  lemma PerformAccounts(s: ServerState, todo: seq<Chore>, p: PeerId)
    requires s.peers != [] && s.peers[0] == p && todo != []
    ensures var (s', more) := Perform(s, todo[0]);
            && Outbox(s'.sent, p) + Pending(more + todo[1..], s'.lastMouse, p)
               == Outbox(s.sent, p) + Pending(todo, s.lastMouse, p)
            && PlacesAfter(more + todo[1..], s'.lastMouse, s'.cursor) == PlacesAfter(todo, s.lastMouse, s.cursor)
  {
    var c, rest := todo[0], todo[1..];
    var (s', more) := Perform(s, c);
    var owed, left := Owes(c, s.lastMouse, p), Pending(rest, LastOf(c, s.lastMouse), p);
    Seqs.Nothing(rest);
    Seqs.Nothing(left);
    Seqs.Nothing(Outbox(s.sent, p));
    match c
    case Pick(msgs) => SendsPending(p, msgs, rest, s.lastMouse, s.cursor, p);
    case SendTo(to, msg) =>
      SendOutbox(s.sent, to, msg, p);
      Seqs.Associative(Outbox(s.sent, p), owed, left);
    case Pass(f, ev) =>
      PassOutbox(s, f, ev, p);
      Seqs.Associative(Outbox(s.sent, p), owed, left);
    case _ =>
  }

  /** The state that finishing the chores uninterrupted leads to, field by field. */
  lemma {:induction false} FinishFields(s: ServerState, todo: seq<Chore>, p: PeerId)
    requires s.peers != [] && s.peers[0] == p
    ensures var z := Finish(s, todo);
            && z.edge == s.edge && z.peers == s.peers && z.crossings == s.crossings
            && z.capturing == CaptureAfter(todo, s.capturing)
            && (z.lastMouse, z.cursor) == PlacesAfter(todo, s.lastMouse, s.cursor)
            && Outbox(z.sent, p) == Outbox(s.sent, p) + Pending(todo, s.lastMouse, p)
    decreases Weight(todo)
  {
    if todo == [] {
      Seqs.Nothing(Outbox(s.sent, p));
    } else {
      var (s', more) := Perform(s, todo[0]);
      PerformKeepsEdge(s, todo[0]);
      PerformKeeps(s, todo);
      PerformAccounts(s, todo, p);
      Seqs.Nothing(todo[1..]);
      if todo[0].Pick? {
        WeightOfSends(p, todo[0].msgs, todo[1..]);
      }
      FinishFields(s', more + todo[1..], p);
    }
  }

  /** The coarse state that a pipeline stands for: its chores done, and of what its peer has been sent the
      input path only. */
  ghost predicate StandsFor(p: PeerId, l: Pipeline, b: ServerState) {
    && l.server.peers != [] && l.server.peers[0] == p
    && b.edge == l.server.edge && b.peers == l.server.peers && b.crossings == l.server.crossings
    && b.capturing == CaptureAfter(l.todo, l.server.capturing)
    && (b.lastMouse, b.cursor) == PlacesAfter(l.todo, l.server.lastMouse, l.server.cursor)
    && OnPath(Outbox(b.sent, p)) == OnPath(Outbox(l.server.sent, p) + Pending(l.todo, l.server.lastMouse, p))
  }

  lemma {:induction false} OnPathAppend(a: seq<Message>, b: seq<Message>)
    ensures OnPath(a + b) == OnPath(a) + OnPath(b)
  {
    if b == [] {
      Seqs.Nothing(a);
    } else {
      OnPathAppend(a, b[..|b| - 1]);
      assert (a + b)[..|a + b| - 1] == a + b[..|b| - 1];
      Seqs.Associative(OnPath(a), OnPath(b[..|b| - 1]), [b[|b| - 1]]);
    }
  }

  /** What has been sent so far does not influence a pass. */
  lemma SentIsInert(cfg: Screen, s: ServerState, sent: seq<Sent>, ev: InputEvent)
    ensures var (a, b) := (Begin(cfg, s, ev), Begin(cfg, s.(sent := sent), ev));
            b.0 == a.0.(sent := sent) && b.1 == a.1 && a.0.sent == s.sent
  {
  }

  lemma TakeStandsFor(g: Rig, l: Pipeline, b: ServerState)
    requires StandsFor(g.p, l, b) && Takes(l, Take)
    ensures StandsFor(g.p, Advance(g, l, Take), DrainStep(g.cfg, b, l.channel[0]))
  {
    var p, ev := g.p, l.channel[0];
    var (s, todo) := Begin(g.cfg, l.server, ev);
    assert b == l.server.(sent := b.sent);
    BeginKeepsPeers(g.cfg, l.server, ev);
    SentIsInert(g.cfg, l.server, b.sent, ev);
    PassIsDrainStep(g.cfg, b, ev);
    FinishFields(s.(sent := b.sent), todo, p);
    Seqs.Nothing(Outbox(l.server.sent, p));
    OnPathAppend(Outbox(l.server.sent, p), Pending(todo, s.lastMouse, p));
    OnPathAppend(Outbox(b.sent, p), Pending(todo, s.lastMouse, p));
  }

  lemma BeginKeepsPeers(cfg: Screen, s: ServerState, ev: InputEvent)
    ensures Begin(cfg, s, ev).0.peers == s.peers
  {
  }

  lemma WorkStandsFor(g: Rig, l: Pipeline, b: ServerState)
    requires StandsFor(g.p, l, b) && l.todo != []
    ensures StandsFor(g.p, Advance(g, l, Work), b)
  {
    PerformKeepsEdge(l.server, l.todo[0]);
    PerformKeeps(l.server, l.todo);
    PerformAccounts(l.server, l.todo, g.p);
  }

  lemma TaskStandsFor(g: Rig, l: Pipeline, b: ServerState, st: Step)
    requires StandsFor(g.p, l, b) && ValidStep(g.p, st) && !st.Input?
    ensures StandsFor(g.p, Advance(g, l, Task(st)), ServerStep(g.cfg, g.p, b, st))
  {
    FirstPeerStays(g.cfg, g.p, l.server, st);
    if st.Other? {
      var p, m := g.p, st.msg;
      var owed := Pending(l.todo, l.server.lastMouse, p);
      SendOutbox(l.server.sent, p, m, p);
      SendOutbox(b.sent, p, m, p);
      OnPathAppend(Outbox(b.sent, p), [m]);
      OnPathAppend(Outbox(l.server.sent, p), owed);
      OnPathAppend(Outbox(l.server.sent, p) + [m], owed);
      OnPathAppend(Outbox(l.server.sent, p), [m]);
      OffPathAlone(m);
      Seqs.Nothing(OnPath(Outbox(b.sent, p)));
      Seqs.Nothing(OnPath(Outbox(l.server.sent, p)));
    }
  }

  lemma OffPathAlone(m: Message)
    requires OffInputPath(m)
    ensures OnPath([m]) == []
  {
    assert [m][..0] == [];
  }

  predicate IsTask(t: Turn) {
    t.Task? && !t.st.Input? && !t.st.Deliver?
  }

  /** The steps that a run of turns stands for. */
  function StepsOf(g: Rig, l: Pipeline, ts: seq<Turn>): seq<Step> {
    if ts == [] then []
    else
      var front, t := ts[..|ts| - 1], ts[|ts| - 1];
      var m := AdvanceAll(g, l, front);
      StepsOf(g, l, front)
      + if Takes(m, t) then [Input(m.channel[0])] else if IsTask(t) then [t.st] else []
  }

  ghost predicate ValidTurns(p: PeerId, ts: seq<Turn>) {
    forall i :: 0 <= i < |ts| ==> (ts[i].Task? ==> ValidStep(p, ts[i].st))
  }

  predicate AllCaptured(channel: seq<InputEvent>) {
    forall ev :: ev in channel ==> Captured(ev)
  }

  lemma TurnCaptured(g: Rig, l: Pipeline, t: Turn)
    requires AllCaptured(l.channel)
    ensures AllCaptured(Advance(g, l, t).channel)
  {
  }

  /** Whatever comes between the chores of the passes, a run of turns stands for a run of steps: the same
      route, places and capture once the chores are done, and the same messages of the input path, in
      order, sent or still owed to the peer. */
  lemma {:induction false} TurnsStandForSteps(g: Rig, l: Pipeline, ts: seq<Turn>)
    requires l.todo == [] && l.server.peers != [] && l.server.peers[0] == g.p && AllCaptured(l.channel)
    requires ValidTurns(g.p, ts)
    ensures ValidRun(g.p, StepsOf(g, l, ts)) && AllCaptured(AdvanceAll(g, l, ts).channel)
    ensures forall st :: st in StepsOf(g, l, ts) ==> !st.Deliver?
    ensures StandsFor(g.p, AdvanceAll(g, l, ts), ServerRun(g.cfg, g.p, l.server, StepsOf(g, l, ts)))
  {
    if ts == [] {
      Seqs.Nothing(Outbox(l.server.sent, g.p));
    } else {
      var front, t := ts[..|ts| - 1], ts[|ts| - 1];
      TurnsStandForSteps(g, l, front);
      var m, steps := AdvanceAll(g, l, front), StepsOf(g, l, front);
      TurnCaptured(g, m, t);
      assert ValidTurns(g.p, ts) && ts[|ts| - 1] == t;
      TurnStandsFor(g, m, ServerRun(g.cfg, g.p, l.server, steps), t);
      Seqs.Nothing(steps);
      if Takes(m, t) {
        assert m.channel[0] in m.channel;
        RunPush(g, l.server, steps, Input(m.channel[0]));
      } else if IsTask(t) {
        RunPush(g, l.server, steps, t.st);
      }
    }
  }

  lemma RunPush(g: Rig, s: ServerState, steps: seq<Step>, st: Step)
    requires ValidRun(g.p, steps) && ValidStep(g.p, st)
    ensures ValidRun(g.p, steps + [st])
    ensures ServerRun(g.cfg, g.p, s, steps + [st]) == ServerStep(g.cfg, g.p, ServerRun(g.cfg, g.p, s, steps), st)
  {
    Seqs.Pushed(steps, st);
  }

  lemma TurnStandsFor(g: Rig, l: Pipeline, b: ServerState, t: Turn)
    requires StandsFor(g.p, l, b) && (t.Task? ==> ValidStep(g.p, t.st))
    ensures StandsFor(g.p, Advance(g, l, t),
                      if Takes(l, t) then DrainStep(g.cfg, b, l.channel[0])
                      else if IsTask(t) then ServerStep(g.cfg, g.p, b, t.st) else b)
  {
    match t
    case Hook(_) =>
    case Take =>
      if Takes(l, t) {
        TakeStandsFor(g, l, b);
      }
    case Work =>
      if l.todo != [] {
        WorkStandsFor(g, l, b);
      }
    case Task(st) =>
      if IsTask(t) {
        TaskStandsFor(g, l, b, st);
      }
  }

  lemma BeginEdge(cfg: Screen, s: ServerState, b: ServerState, ev: InputEvent)
    requires s.edge == b.edge && s.peers == b.peers
    ensures var (s', b') := (Begin(cfg, s, ev).0, DrainStep(cfg, b, ev));
            s'.edge == b'.edge && s'.peers == s.peers && b'.peers == b.peers
  {
    DrainStepEdge(cfg, b, ev);
    if !IsEmergency(ev) {
      var (e, d, f) := Observe(cfg, b.edge, ev);
      assert Dispatch(ApplyDecision(b.(edge := e), d), f, ev).edge == e;
    }
  }

  lemma TurnRoute(g: Rig, l: Pipeline, b: ServerState, t: Turn)
    requires b.edge == l.server.edge && b.peers == l.server.peers
    ensures var l' := Advance(g, l, t);
            var b' := if Takes(l, t) then DrainStep(g.cfg, b, l.channel[0])
                      else if IsTask(t) then ServerStep(g.cfg, g.p, b, t.st) else b;
            b'.edge == l'.server.edge && b'.peers == l'.server.peers
  {
    match t
    case Take =>
      if Takes(l, t) {
        BeginEdge(g.cfg, l.server, b, l.channel[0]);
      }
    case Work =>
      if l.todo != [] {
        PerformKeepsEdge(l.server, l.todo[0]);
      }
    case _ =>
  }

  /** The route, the detector and the tracked peers are at all times, connected peer or not, those of the steps
      that the turns stand for. What `Routing` proves of the route holds here. */
  lemma {:induction false} RouteSeesOnlySteps(g: Rig, l: Pipeline, ts: seq<Turn>)
    ensures var b := ServerRun(g.cfg, g.p, l.server, StepsOf(g, l, ts));
            b.edge == AdvanceAll(g, l, ts).server.edge && b.peers == AdvanceAll(g, l, ts).server.peers
  {
    if ts == [] {
    } else {
      var front, t := ts[..|ts| - 1], ts[|ts| - 1];
      RouteSeesOnlySteps(g, l, front);
      var m, steps := AdvanceAll(g, l, front), StepsOf(g, l, front);
      TurnRoute(g, m, ServerRun(g.cfg, g.p, l.server, steps), t);
      Seqs.Nothing(steps);
      if Takes(m, t) {
        Seqs.Pushed(steps, Input(m.channel[0]));
      } else if IsTask(t) {
        Seqs.Pushed(steps, t.st);
      }
    }
  }

  function Deliveries(n: nat): seq<Step> {
    seq(n, _ => Deliver)
  }

  lemma {:induction false} DeliversAll(cfg: Screen, p: PeerId, start: ServerState, c: ClientState, steps: seq<Step>, n: nat)
    requires ValidRun(p, steps) && (forall st :: st in steps ==> !st.Deliver?)
    requires n <= |Outbox(ServerRun(cfg, p, start, steps).sent, p)|
    ensures ValidRun(p, steps + Deliveries(n))
    ensures var y := SystemRun(cfg, p, System(start, 0, c), steps + Deliveries(n));
            y.server == ServerRun(cfg, p, start, steps) && y.delivered == n
  {
    if n == 0 {
      Seqs.Nothing(steps);
      DeliversNone(cfg, p, System(start, 0, c), steps);
    } else {
      DeliversAll(cfg, p, start, c, steps, n - 1);
      assert steps + Deliveries(n) == (steps + Deliveries(n - 1)) + [Deliver];
      DeliversOne(cfg, p, System(start, 0, c), steps + Deliveries(n - 1));
    }
  }

  lemma DeliversOne(cfg: Screen, p: PeerId, y: System, steps: seq<Step>)
    requires ValidRun(p, steps)
    ensures ValidRun(p, steps + [Deliver])
    ensures SystemRun(cfg, p, y, steps + [Deliver]) == SystemStep(cfg, p, SystemRun(cfg, p, y, steps), Deliver)
  {
    Seqs.Pushed(steps, Deliver);
  }

  lemma {:induction false} DeliversNone(cfg: Screen, p: PeerId, y: System, steps: seq<Step>)
    requires forall st :: st in steps ==> !st.Deliver?
    ensures var z := SystemRun(cfg, p, y, steps);
            z.server == ServerRun(cfg, p, y.server, steps) && z.delivered == y.delivered
  {
    if steps != [] {
      DeliversNone(cfg, p, y, steps[..|steps| - 1]);
      assert steps[|steps| - 1] in steps;
    }
  }

  /** Every state a client can be in while the threads interleave freely, having handled any part of what was
      sent to it, is one that the system of `Session` puts it in, reading the same messages. What is
      proved there of clients, modifiers, keys, typed input, grammar and cursor holds here. */
  lemma ClientSeesOnlySteps(g: Rig, l: Pipeline, ts: seq<Turn>, c: ClientState, n: nat) returns (steps: seq<Step>)
    requires StartsWith(l.server, g.p) && l.todo == [] && AllCaptured(l.channel) && ValidTurns(g.p, ts)
    requires n <= |Outbox(AdvanceAll(g, l, ts).server.sent, g.p)|
    ensures ValidRun(g.p, steps)
    ensures var handled := Outbox(AdvanceAll(g, l, ts).server.sent, g.p)[..n];
            var y := SystemRun(g.cfg, g.p, System(l.server, 0, c), steps);
            var queue := Outbox(y.server.sent, g.p);
            && y.client == HandleAll(c, handled) && y.server == ServerRun(g.cfg, g.p, l.server, StepsOf(g, l, ts))
            && y.delivered <= |queue| && OnPath(queue[..y.delivered]) == OnPath(handled)
  {
    var p, front := g.p, StepsOf(g, l, ts);
    var parted := Outbox(AdvanceAll(g, l, ts).server.sent, p);
    var queue := Outbox(ServerRun(g.cfg, p, l.server, front).sent, p);
    TurnsStandForSteps(g, l, ts);
    var m := AdvanceAll(g, l, ts);
    OnPathAppend(parted, Pending(m.todo, m.server.lastMouse, p));
    var k := SendsMayBeParted(l.server.crossings, 0, c, queue, parted, n);
    DeliversAll(g.cfg, p, l.server, c, front, k);
    steps := front + Deliveries(k);
    ClientHandlesPrefix(g.cfg, p, l.server, c, steps);
  }

  lemma {:induction false} PlaceOnPath(ms: seq<Message>)
    ensures PlaceOf(ms) == PlaceOf(OnPath(ms))
  {
    if ms == [] {
    } else {
      var front, m := ms[..|ms| - 1], ms[|ms| - 1];
      PlaceOnPath(front);
      if OffInputPath(m) {
        Seqs.Nothing(OnPath(front));
        assert OnPath(ms) == OnPath(front);
      } else {
        Seqs.Pushed(OnPath(front), m);
        assert OnPath(ms) == OnPath(front) + [m];
      }
    }
  }

  /** No stuck modifiers, whatever comes between the chores of the passes. */
  lemma NoneStuckBetweenChores(g: Rig, l: Pipeline, ts: seq<Turn>, c: ClientState, n: nat)
    requires StartsWith(l.server, g.p) && l.todo == [] && AllCaptured(l.channel) && ValidTurns(g.p, ts)
    requires n <= |Outbox(AdvanceAll(g, l, ts).server.sent, g.p)|
    ensures var handled := Outbox(AdvanceAll(g, l, ts).server.sent, g.p)[..n];
            && (PlaceOf(handled) == Outside ==> HeldModifiers(HandleAll(c, handled)) == {})
            && (PlaceOf(handled) == Before ==> HeldModifiers(HandleAll(c, handled)) == HeldModifiers(c))
  {
    var handled := Outbox(AdvanceAll(g, l, ts).server.sent, g.p)[..n];
    var steps := ClientSeesOnlySteps(g, l, ts, c, n);
    var y := SystemRun(g.cfg, g.p, System(l.server, 0, c), steps);
    NoStuckModifiers(g.cfg, g.p, l.server, c, steps);
    PlaceOnPath(handled);
    PlaceOnPath(Outbox(y.server.sent, g.p)[..y.delivered]);
  }
}
