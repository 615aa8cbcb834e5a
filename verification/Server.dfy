/** The server's input path (crates/daemon/src/session.rs): the capture drain, routing
    decisions, and tracking of connected peers. */
module Server {
  import opened Wrappers
  import Seqs
  import opened I32
  import opened Input
  import opened Protocol
  import opened Edge

  /** A message put on the outbound channel of a peer. */
  datatype Sent = Sent(to: PeerId, msg: Message)

  /** `crossings` is the journal of EnterRemote decisions the program logs; `cursor` is the last
      position the local cursor was warped to. */
  datatype ServerState = ServerState(
    edge: EdgeState, lastMouse: Option<Point>, capturing: bool, cursor: Option<Point>,
    peers: seq<PeerId>, sent: seq<Sent>, crossings: seq<ScreenId>)

  const INITIAL_SERVER := ServerState(INITIAL_EDGE, None, false, None, [], [], [])

  predicate IsEmergency(ev: InputEvent) {
    ev.Key? && ev.key.state == Pressed && ev.key.code == ESCAPE
    && CTRL in ev.key.modifiers && ALT in ev.key.modifiers && SHIFT in ev.key.modifiers
  }

  lemma EmergencyExactly(ev: InputEvent)
    ensures IsEmergency(ev) <==> PressesChord(ev)
  {
  }

  /** Send to the first peer in the list; without one the message is dropped. */
  function SendFirst(s: ServerState, msg: Message): ServerState {
    if s.peers == [] then s else s.(sent := s.sent + [Sent(s.peers[0], msg)])
  }

  function ApplyDecision(s: ServerState, d: RouteDecision): ServerState {
    match d
    case Stay => s
    case EnterRemote(screen, entry, warp, mods) =>
      SendFirst(s, ScreenEnter(entry.x, entry.y, mods))
        .(cursor := Some(warp), capturing := true, crossings := s.crossings + [screen])
    case LeaveRemote(screen) =>
      SendFirst(SendFirst(s, ScreenLeave(screen)), ModifierSync({})).(capturing := false)
  }

  /** Movement since the last known position, computed in i32. */
  function Delta(last: Option<Point>, cur: Point): (int, int) {
    if last.None? then (0, 0) else (Wrap(cur.x - last.value.x), Wrap(cur.y - last.value.y))
  }

  /** Forward one event to the first peer: moves become non-zero deltas, the rest goes as it is. */
  function Forward(s: ServerState, ev: InputEvent): ServerState {
    if s.peers == [] then s
    else
      match ev
      case Mouse(Move(x, y)) =>
        var (dx, dy) := Delta(s.lastMouse, Point(x, y));
        var s := s.(lastMouse := Some(Point(x, y)));
        if dx == 0 && dy == 0 then s else SendFirst(s, MouseMoveRelative(dx, dy))
      case _ => SendFirst(s, FromInput(ev))
  }

  /** What becomes of an event once its routing decision is applied. */
  function Dispatch(s: ServerState, f: ForwardTo, ev: InputEvent): ServerState {
    if f == ToRemote then Forward(s, ev)
    else if ev.Mouse? && ev.mouse.Move? then s.(lastMouse := Some(Point(ev.mouse.x, ev.mouse.y)))
    else s
  }

  /** One pass of the drain loop. */
  function DrainStep(cfg: Screen, s: ServerState, ev: InputEvent): ServerState {
    if IsEmergency(ev) then
      var (e, d) := ForceLocal(s.edge);
      ApplyDecision(s.(edge := e, lastMouse := None), d)
    else
      var (e, d, f) := Observe(cfg, s.edge, ev);
      Dispatch(ApplyDecision(s.(edge := e), d), f, ev)
  }

  function DrainAll(cfg: Screen, s: ServerState, evs: seq<InputEvent>): ServerState {
    if evs == [] then s else DrainStep(cfg, DrainAll(cfg, s, evs[..|evs| - 1]), evs[|evs| - 1])
  }

  /** The screen the server assigns to every client. */
  const CLIENT_SCREEN: ScreenId := 1

  function Connected(s: ServerState, p: PeerId): ServerState {
    s.(peers := s.peers + [p], edge := s.edge.(autoPeer := Some(CLIENT_SCREEN)))
  }

  function Without(peers: seq<PeerId>, p: PeerId): seq<PeerId> {
    if peers == [] then []
    else (if peers[0] == p then [] else [peers[0]]) + Without(peers[1..], p)
  }

  lemma WithoutNext(peers: seq<PeerId>, p: PeerId, i: nat, kept: seq<PeerId>)
    requires i < |peers|
    ensures kept + Without(peers[i..], p)
         == (if peers[i] == p then kept else kept + [peers[i]]) + Without(peers[i + 1..], p)
  {
    Seqs.Rest(peers, i);
    Seqs.Nothing(Without(peers[i + 1..], p));
    Seqs.Associative(kept, [peers[i]], Without(peers[i + 1..], p));
  }

  /** Exactly the entries of `p` go. */
  lemma {:induction false} WithoutExact(peers: seq<PeerId>, p: PeerId, q: PeerId)
    ensures multiset(Without(peers, p))[q] == if q == p then 0 else multiset(peers)[q]
  {
    if peers != [] {
      WithoutExact(peers[1..], p, q);
      assert peers == [peers[0]] + peers[1..];
    }
  }

  function Disconnected(s: ServerState, p: PeerId): ServerState {
    var s := s.(peers := Without(s.peers, p));
    if s.peers == [] then s.(edge := s.edge.(autoPeer := None)) else s
  }

  /** The shared state of the drain task and the peer-event task. */
  class ServerSession {
    const edge: EdgeDetector
    var lastMouse: Option<Point>
    var capturing: bool
    var cursor: Option<Point>
    var peers: seq<PeerId>
    var sent: seq<Sent>
    ghost var crossings: seq<ScreenId>

    ghost function State(): ServerState
      reads this, edge
    {
      ServerState(edge.State(), lastMouse, capturing, cursor, peers, sent, crossings)
    }

    constructor (local: ScreenId, width: Extent, height: Extent, layout: seq<Neighbour>)
      ensures fresh(edge) && State() == INITIAL_SERVER
      ensures edge.Config() == Screen(local, width, height, layout)
    {
      edge := new EdgeDetector(local, width, height, layout);
      lastMouse, capturing, cursor := None, false, None;
      peers, sent, crossings := [], [], [];
    }

    method Send(msg: Message)
      modifies this
      ensures State() == SendFirst(old(State()), msg)
    {
      if peers != [] {
        sent := sent + [Sent(peers[0], msg)];
      }
    }

    method Apply(d: RouteDecision)
      modifies this
      ensures State() == ApplyDecision(old(State()), d)
    {
      match d
      case Stay =>
      case EnterRemote(screen, entry, warp, mods) =>
        crossings := crossings + [screen];
        Send(ScreenEnter(entry.x, entry.y, mods));
        cursor := Some(warp);
        capturing := true;
      case LeaveRemote(screen) =>
        Send(ScreenLeave(screen));
        Send(ModifierSync({}));
        capturing := false;
    }

    method HandleEvent(ev: InputEvent)
      modifies this, edge
      ensures State() == DrainStep(edge.Config(), old(State()), ev)
    {
      if IsEmergency(ev) {
        lastMouse := None;
        var decision := edge.ForceToLocal();
        Apply(decision);
        return;
      }
      var decision, forward := edge.ObserveEvent(ev);
      Apply(decision);
      if forward == ToRemote {
        if peers != [] {
          var msg := FromInput(ev);
          if ev.Mouse? && ev.mouse.Move? {
            var cur := Point(ev.mouse.x, ev.mouse.y);
            var (dx, dy) := Delta(lastMouse, cur);
            lastMouse := Some(cur);
            if dx == 0 && dy == 0 {
              return;
            }
            msg := FromInput(Mouse(MoveRelative(dx, dy)));
          }
          Send(msg);
        }
      } else if ev.Mouse? && ev.mouse.Move? {
        lastMouse := Some(Point(ev.mouse.x, ev.mouse.y));
      }
    }

    /** `drain_capture` on the events received so far. */
    method DrainCapture(evs: seq<InputEvent>)
      modifies this, edge
      ensures State() == DrainAll(edge.Config(), old(State()), evs)
    {
      for i := 0 to |evs|
        invariant State() == DrainAll(edge.Config(), old(State()), evs[..i])
      {
        HandleEvent(evs[i]);
        assert evs[..i + 1][..i] == evs[..i];
      }
      assert evs[..|evs|] == evs;
    }

    method PeerConnected(p: PeerId)
      modifies this, edge
      ensures State() == Connected(old(State()), p)
    {
      peers := peers + [p];
      edge.SetAutoPeer(Some(CLIENT_SCREEN));
    }

    method PeerDisconnected(p: PeerId)
      modifies this, edge
      ensures State() == Disconnected(old(State()), p)
    {
      var kept: seq<PeerId> := [];
      var tracked := peers;
      for i := 0 to |tracked|
        invariant kept + Without(tracked[i..], p) == Without(tracked, p)
        invariant State() == old(State())
      {
        WithoutNext(tracked, p, i, kept);
        if tracked[i] != p {
          kept := kept + [tracked[i]];
        }
      }
      Seqs.Nothing(kept);
      peers := kept;
      if peers == [] {
        edge.SetAutoPeer(None);
      }
    }
  }
}
