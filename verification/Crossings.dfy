/** Crossings in coordinates, and what the server's state is after a run, read off its history. */
module Crossings {
  import opened Wrappers
  import Seqs
  import opened I32
  import opened Input
  import opened Protocol
  import opened Edge
  import opened Server
  import opened Session
  import opened Routing

  /** One move across a side that leads somewhere: the route, the place of the local cursor, capture, and what the
      first peer is sent. */
  lemma CrossingExactly(cfg: Screen, s: ServerState, p: Point, side: EdgeSide, screen: ScreenId)
    requires s.edge.route.Local? && Touches(cfg, p, side) && LeadsTo(cfg, s.edge.autoPeer, side, screen)
    ensures var s' := DrainStep(cfg, s, Mouse(Move(p.x, p.y)));
            && s'.edge == s.edge.(lastPoint := p, route := Remote(screen))
            && s'.capturing && s'.cursor == Some(Parking(cfg, p)) && s'.crossings == s.crossings + [screen]
            && (s.peers == [] ==> s'.sent == s.sent)
            && (s.peers != [] ==>
                  Outbox(s'.sent, s.peers[0])
                  == Outbox(s.sent, s.peers[0])
                     + ([ScreenEnter(Arrival(cfg, p).x, Arrival(cfg, p).y, s.edge.modifiers)]
                        + Forwards(s.lastMouse, Mouse(Move(p.x, p.y)))))
  {
    var ev := Mouse(Move(p.x, p.y));
    CrossesExactly(cfg, s.edge, p, side, screen);
    if s.peers != [] {
      EmitsIsSent(cfg, s, s.peers[0], ev);
    }
  }

  /** Any other event that finds the route local leaves it local, sends nothing and moves nothing. */
  lemma NothingCrosses(cfg: Screen, s: ServerState, ev: InputEvent)
    requires s.edge.route.Local?
    requires ev.Mouse? && ev.mouse.Move? ==>
               forall side :: Touches(cfg, Point(ev.mouse.x, ev.mouse.y), side) ==>
                 !HasEntry(cfg, side) && s.edge.autoPeer == None
    ensures var s' := DrainStep(cfg, s, ev);
            && s'.edge.route.Local? && s'.sent == s.sent && s'.capturing == s.capturing && s'.cursor == s.cursor
            && s'.crossings == s.crossings && s'.peers == s.peers
  {
    if ev.Mouse? && ev.mouse.Move? {
      var p := Point(ev.mouse.x, ev.mouse.y);
      forall side ensures Observe(cfg, s.edge, ev).1 == Stay || !Touches(cfg, p, side) {
        CrossesExactly(cfg, s.edge, p, side, 0);
      }
      if StrictlyInside(cfg, p) {
        CrossesExactly(cfg, s.edge, p, Left, 0);
      } else {
        assert Touches(cfg, p, Left) || Touches(cfg, p, Right) || Touches(cfg, p, Top) || Touches(cfg, p, Bottom);
      }
      ObserveRoute(cfg, s.edge, ev);
    }
  }

  /** A movement is the way from the last position, in i32; without one there is none. */
  lemma DeltaExactly(last: Option<Point>, p: Point)
    ensures last.None? ==> Delta(last, p) == (0, 0)
    ensures last.Some? ==>
              var (dx, dy) := Delta(last, p);
              && Fits(dx) && (dx - (p.x - last.value.x)) % 0x1_0000_0000 == 0
              && Fits(dy) && (dy - (p.y - last.value.y)) % 0x1_0000_0000 == 0
  {
    if last.Some? {
      var (dx, dy) := Delta(last, p);
      WrapExactly(p.x - last.value.x, dx);
      WrapExactly(p.y - last.value.y, dy);
    }
  }

  lemma SendFirstToOthers(s: ServerState, m: Message, q: PeerId)
    requires s.peers == [] || s.peers[0] != q
    ensures Outbox(SendFirst(s, m).sent, q) == Outbox(s.sent, q) && SendFirst(s, m).peers == s.peers
  {
    if s.peers != [] {
      Seqs.Pushed(s.sent, Sent(s.peers[0], m));
    }
  }

  lemma DecisionToOthers(s: ServerState, d: RouteDecision, q: PeerId)
    requires s.peers == [] || s.peers[0] != q
    ensures Outbox(ApplyDecision(s, d).sent, q) == Outbox(s.sent, q) && ApplyDecision(s, d).peers == s.peers
  {
    match d
    case Stay =>
    case EnterRemote(_, entry, _, mods) => SendFirstToOthers(s, ScreenEnter(entry.x, entry.y, mods), q);
    case LeaveRemote(screen) =>
      SendFirstToOthers(s, ScreenLeave(screen), q);
      SendFirstToOthers(SendFirst(s, ScreenLeave(screen)), ModifierSync({}), q);
  }

  lemma ForwardToOthers(s: ServerState, ev: InputEvent, q: PeerId)
    requires s.peers == [] || s.peers[0] != q
    ensures Outbox(Forward(s, ev).sent, q) == Outbox(s.sent, q)
  {
    if s.peers != [] {
      if ev.Mouse? && ev.mouse.Move? {
        var p := Point(ev.mouse.x, ev.mouse.y);
        var d := Delta(s.lastMouse, p);
        SendFirstToOthers(s.(lastMouse := Some(p)), MouseMoveRelative(d.0, d.1), q);
      } else {
        SendFirstToOthers(s, FromInput(ev), q);
      }
    }
  }

  /** The input of the server goes to the first peer and to nobody else. */
  lemma OthersGetNothing(cfg: Screen, s: ServerState, ev: InputEvent, q: PeerId)
    requires s.peers == [] || s.peers[0] != q
    ensures Outbox(DrainStep(cfg, s, ev).sent, q) == Outbox(s.sent, q)
  {
    if IsEmergency(ev) {
      var (e, d) := ForceLocal(s.edge);
      DecisionToOthers(s.(edge := e, lastMouse := None), d, q);
    } else {
      var (e, d, f) := Observe(cfg, s.edge, ev);
      DecisionToOthers(s.(edge := e), d, q);
      ForwardToOthers(ApplyDecision(s.(edge := e), d), ev, q);
    }
  }

  // Over runs

  /** Whoever is tracked stands on screen 1, the one every client is given. */
  function AutoScreen(steps: seq<Step>): Option<ScreenId> {
    if Tracked(steps) == [] then None else Some(1)
  }

  lemma DrainStepKeepsAutoPeer(cfg: Screen, s: ServerState, ev: InputEvent)
    ensures DrainStep(cfg, s, ev).edge.autoPeer == s.edge.autoPeer
  {
    if !IsEmergency(ev) {
      var (e, d, f) := Observe(cfg, s.edge, ev);
      assert Dispatch(ApplyDecision(s.(edge := e), d), f, ev).edge == e;
    }
  }

  lemma {:induction false} AutoPeerExactly(cfg: Screen, p: PeerId, steps: seq<Step>)
    ensures ServerRun(cfg, p, INITIAL_SERVER, steps).edge.autoPeer == AutoScreen(steps)
  {
    if steps == [] {
    } else {
      var front, st := steps[..|steps| - 1], steps[|steps| - 1];
      AutoPeerExactly(cfg, p, front);
      PeersAreTracked(cfg, p, front);
      PeersAreTracked(cfg, p, steps);
      if st.Input? {
        DrainStepKeepsAutoPeer(cfg, ServerRun(cfg, p, INITIAL_SERVER, front), st.ev);
      }
    }
  }

  /** Where a run's next move leads: to the screen of the first layout entry for the side it touches, without an
      entry to screen 1 if a peer is tracked, and else nowhere. */
  lemma MoveLeadsExactly(cfg: Screen, p: PeerId, steps: seq<Step>, to: Point, screen: ScreenId)
    requires ServerRun(cfg, p, INITIAL_SERVER, steps).edge.route.Local?
    ensures DrainStep(cfg, ServerRun(cfg, p, INITIAL_SERVER, steps), Mouse(Move(to.x, to.y))).edge.route == Remote(screen)
       <==> exists side :: Touches(cfg, to, side) && LeadsTo(cfg, AutoScreen(steps), side, screen)
  {
    var s, ev := ServerRun(cfg, p, INITIAL_SERVER, steps), Mouse(Move(to.x, to.y));
    AutoPeerExactly(cfg, p, steps);
    DrainStepEdge(cfg, s, ev);
    ObserveRoute(cfg, s.edge, ev);
    forall side
      ensures Touches(cfg, to, side) <==> CrossLocalEdge(cfg, to) == Some(side)
      ensures LeadsTo(cfg, s.edge.autoPeer, side, screen) <==> Edge.Target(cfg, s.edge, side) == Some(screen)
    {
      TouchesExactly(cfg, to, side);
      LeadsToTarget(cfg, s.edge, side, screen);
    }
  }

  /** The position that the next movement is measured from: that of the last move since the last chord, those apart
      that found input routed to nobody. */
  function Remembered(cfg: Screen, steps: seq<Step>): Option<Point> {
    if steps == [] then None
    else
      var front := steps[..|steps| - 1];
      match steps[|steps| - 1]
      case Input(ev) =>
        if PressesChord(ev) then None
        else if ev.Mouse? && ev.mouse.Move? && !(Crossed(cfg, steps) && Tracked(front) == []) then
          Some(Point(ev.mouse.x, ev.mouse.y))
        else Remembered(cfg, front)
      case _ => Remembered(cfg, front)
  }

  lemma DispatchRemembers(s: ServerState, f: ForwardTo, ev: InputEvent)
    ensures Dispatch(s, f, ev).lastMouse
         == if ev.Mouse? && ev.mouse.Move? && !(f == ToRemote && s.peers == []) then Some(Point(ev.mouse.x, ev.mouse.y))
            else s.lastMouse
  {
  }

  lemma DrainStepRemembers(cfg: Screen, s: ServerState, ev: InputEvent)
    ensures var s' := DrainStep(cfg, s, ev);
            s'.lastMouse
            == if PressesChord(ev) then None
               else if ev.Mouse? && ev.mouse.Move? && !(s'.edge.route.Remote? && s.peers == []) then
                 Some(Point(ev.mouse.x, ev.mouse.y))
               else s.lastMouse
  {
    if !IsEmergency(ev) {
      ObserveRoute(cfg, s.edge, ev);
      var (e, d, f) := Observe(cfg, s.edge, ev);
      var s1 := ApplyDecision(s.(edge := e), d);
      assert s1.lastMouse == s.lastMouse && s1.peers == s.peers && s1.edge == e;
      DispatchRemembers(s1, f, ev);
      assert Dispatch(s1, f, ev).edge == e;
    }
  }

  lemma {:induction false} LastMouseExactly(cfg: Screen, p: PeerId, steps: seq<Step>)
    ensures ServerRun(cfg, p, INITIAL_SERVER, steps).lastMouse == Remembered(cfg, steps)
  {
    if steps == [] {
    } else {
      var front, st := steps[..|steps| - 1], steps[|steps| - 1];
      LastMouseExactly(cfg, p, front);
      PeersAreTracked(cfg, p, front);
      RemoteExactly(cfg, p, steps);
      if st.Input? {
        DrainStepRemembers(cfg, ServerRun(cfg, p, INITIAL_SERVER, front), st.ev);
      }
    }
  }
}
