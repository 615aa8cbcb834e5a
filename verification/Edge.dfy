/** Edge detection and the routing state machine (crates/daemon/src/edge.rs). */
module Edge {
  import opened Wrappers
  import opened Input

  type ScreenId = nat

  datatype EdgeSide = Top | Bottom | Left | Right

  datatype Neighbour = Neighbour(from: ScreenId, side: EdgeSide, to: ScreenId)

  datatype Route = Local | Remote(screen: ScreenId)

  datatype RouteDecision =
    | Stay
    | EnterRemote(screen: ScreenId, entry: Point, localWarp: Point, modifiers: ModifierState)
    | LeaveRemote(screen: ScreenId)

  datatype ForwardTo = ToLocal | ToRemote

  const EDGE_THRESHOLD := 1

  type Extent = n: int | n >= 1 witness 1

  /** What is fixed once the detector is built. */
  datatype Screen = Screen(local: ScreenId, width: Extent, height: Extent, neighbours: seq<Neighbour>)

  /** What changes from event to event. */
  datatype EdgeState = EdgeState(route: Route, lastPoint: Point, modifiers: ModifierState, autoPeer: Option<ScreenId>)

  const INITIAL_EDGE := EdgeState(Local, Point(0, 0), {}, None)

  /** `ScreenLayout::neighbour_of`. */
  function NeighbourOf(ns: seq<Neighbour>, from: ScreenId, side: EdgeSide): Option<ScreenId> {
    if ns == [] then None
    else if ns[0].from == from && ns[0].side == side then Some(ns[0].to)
    else NeighbourOf(ns[1..], from, side)
  }

  /** The earliest entry for this screen and side wins; there is no answer only without an entry. */
  lemma {:induction false} NeighbourOfIsFirst(ns: seq<Neighbour>, from: ScreenId, side: EdgeSide, i: nat)
    requires i < |ns| && ns[i].from == from && ns[i].side == side
    requires forall j :: 0 <= j < i ==> ns[j].from != from || ns[j].side != side
    ensures NeighbourOf(ns, from, side) == Some(ns[i].to)
  {
    if i > 0 {
      assert ns[0].from != from || ns[0].side != side;
      NeighbourOfIsFirst(ns[1..], from, side, i - 1);
    }
  }

  function CrossLocalEdge(s: Screen, p: Point): Option<EdgeSide> {
    if p.x <= EDGE_THRESHOLD then Some(Left)
    else if p.x >= s.width - EDGE_THRESHOLD then Some(Right)
    else if p.y <= EDGE_THRESHOLD then Some(Top)
    else if p.y >= s.height - EDGE_THRESHOLD then Some(Bottom)
    else None
  }

  /** Where the cursor appears on the far screen. */
  function EntryPoint(crossed: EdgeSide, p: Point): Point {
    match crossed
    case Left => Point(32_000, p.y)
    case Right => Point(0, p.y)
    case Top => Point(p.x, 32_000)
    case Bottom => Point(p.x, 0)
  }

  /** Where the local cursor is parked after a crossing. */
  function WarpBackInside(crossed: EdgeSide, w: Extent, h: Extent): Point {
    match crossed
    case Left => Point(2, h / 2)
    case Right => Point(w - 2, h / 2)
    case Top => Point(w / 2, 2)
    case Bottom => Point(w / 2, h - 2)
  }

  /** An explicit neighbour first, then the auto peer. */
  function Target(s: Screen, e: EdgeState, side: EdgeSide): Option<ScreenId> {
    var explicit := NeighbourOf(s.neighbours, s.local, side);
    if explicit.Some? then explicit else e.autoPeer
  }

  function ForceLocal(e: EdgeState): (EdgeState, RouteDecision) {
    match e.route
    case Local => (e, Stay)
    case Remote(screen) => (e.(route := Local), LeaveRemote(screen))
  }

  function NoteModifiers(e: EdgeState, ev: InputEvent): EdgeState {
    match ev
    case Key(k) => e.(modifiers := k.modifiers)
    case SyncEvent(m) => e.(modifiers := m)
    case _ => e
  }

  function Observe(s: Screen, e: EdgeState, ev: InputEvent): (EdgeState, RouteDecision, ForwardTo) {
    var e := NoteModifiers(e, ev);
    var forward := if e.route.Local? then ToLocal else ToRemote;
    match ev
    case Mouse(Move(x, y)) =>
      var p := Point(x, y);
      var e := e.(lastPoint := p);
      var side := CrossLocalEdge(s, p);
      if e.route.Local? && side.Some? && Target(s, e, side.value).Some? then
        var screen := Target(s, e, side.value).value;
        (e.(route := Remote(screen)),
         EnterRemote(screen, EntryPoint(side.value, p), WarpBackInside(side.value, s.width, s.height), e.modifiers),
         ToRemote)
      else (e, Stay, forward)
    case _ => (e, Stay, forward)
  }

  class EdgeDetector {
    const local: ScreenId
    const localWidth: Extent
    const localHeight: Extent
    const layout: seq<Neighbour>
    var route: Route
    var lastPoint: Point
    var modifiers: ModifierState
    const edgeThreshold: int := EDGE_THRESHOLD
    var autoPeer: Option<ScreenId>

    ghost function Config(): Screen {
      Screen(local, localWidth, localHeight, layout)
    }

    ghost function State(): EdgeState
      reads this
    {
      EdgeState(route, lastPoint, modifiers, autoPeer)
    }

    constructor (local: ScreenId, localWidth: Extent, localHeight: Extent, layout: seq<Neighbour>)
      ensures State() == INITIAL_EDGE
      ensures Config() == Screen(local, localWidth, localHeight, layout)
    {
      this.local, this.localWidth, this.localHeight, this.layout := local, localWidth, localHeight, layout;
      route, lastPoint, modifiers, autoPeer := Local, Point(0, 0), {}, None;
    }

    method SetAutoPeer(peer: Option<ScreenId>)
      modifies this
      ensures State() == old(State()).(autoPeer := peer)
    {
      autoPeer := peer;
    }

    method ForceToLocal() returns (d: RouteDecision)
      modifies this
      ensures (State(), d) == ForceLocal(old(State()))
    {
      match route
      case Local => d := Stay;
      case Remote(screen) =>
        route := Local;
        d := LeaveRemote(screen);
    }

    method ObserveEvent(ev: InputEvent) returns (d: RouteDecision, f: ForwardTo)
      modifies this
      ensures (State(), d, f) == Observe(Config(), old(State()), ev)
    {
      match ev {
        case Key(k) => modifiers := k.modifiers;
        case SyncEvent(m) => modifiers := m;
        case _ =>
      }
      match ev {
        case Mouse(Move(x, y)) =>
          lastPoint := Point(x, y);
          if route.Remote? {
            return Stay, ToRemote;
          }
          var side := CrossLocalEdge(Screen(local, localWidth, localHeight, layout), lastPoint);
          if side.Some? {
            var remote := NeighbourOf(layout, local, side.value);
            if remote.None? {
              remote := autoPeer;
            }
            if remote.Some? {
              var entry := EntryPoint(side.value, lastPoint);
              var warp := WarpBackInside(side.value, localWidth, localHeight);
              route := Remote(remote.value);
              return EnterRemote(remote.value, entry, warp, modifiers), ToRemote;
            }
          }
          return Stay, ToLocal;
        case _ =>
          if route.Remote? {
            return Stay, ToRemote;
          }
          return Stay, ToLocal;
      }
    }
  }

  predicate StrictlyInside(s: Screen, p: Point) {
    1 < p.x < s.width - 1 && 1 < p.y < s.height - 1
  }

  // Crossings in coordinates

  /** A position at a side of the screen; in a corner the first in this order counts. */
  predicate Touches(s: Screen, p: Point, side: EdgeSide) {
    match side
    case Left => p.x <= 1
    case Right => 1 < p.x && s.width - 1 <= p.x
    case Top => 1 < p.x < s.width - 1 && p.y <= 1
    case Bottom => 1 < p.x < s.width - 1 && 1 < p.y && s.height - 1 <= p.y
  }

  /** Where the cursor enters when it crosses at `p`: at the far end of the next screen. */
  function Arrival(s: Screen, p: Point): Point {
    if p.x <= 1 then Point(32000, p.y)
    else if s.width - 1 <= p.x then Point(0, p.y)
    else if p.y <= 1 then Point(p.x, 32000)
    else Point(p.x, 0)
  }

  /** Where the local cursor is parked then: in the middle of the crossed side, two pixels inside. */
  function Parking(s: Screen, p: Point): Point {
    if p.x <= 1 then Point(2, s.height / 2)
    else if s.width - 1 <= p.x then Point(s.width - 2, s.height / 2)
    else if p.y <= 1 then Point(s.width / 2, 2)
    else Point(s.width / 2, s.height - 2)
  }

  lemma ArrivalIsEntry(s: Screen, p: Point)
    ensures CrossLocalEdge(s, p).Some? <==> !StrictlyInside(s, p)
    ensures CrossLocalEdge(s, p).Some? ==> EntryPoint(CrossLocalEdge(s, p).value, p) == Arrival(s, p)
  {
  }

  predicate IsEntry(s: Screen, i: nat, side: EdgeSide)
    requires i < |s.neighbours|
  {
    s.neighbours[i].from == s.local && s.neighbours[i].side == side
  }

  /** The layout has an entry for the side. */
  predicate HasEntry(s: Screen, side: EdgeSide) {
    exists i :: 0 <= i < |s.neighbours| && IsEntry(s, i, side)
  }

  /** The side leads to a screen: its first entry names it, or there is none and the auto peer has it. */
  ghost predicate LeadsTo(s: Screen, autoPeer: Option<ScreenId>, side: EdgeSide, screen: ScreenId) {
    if HasEntry(s, side) then
      exists i :: 0 <= i < |s.neighbours| && IsEntry(s, i, side) && s.neighbours[i].to == screen
                  && forall j :: 0 <= j < i ==> !IsEntry(s, j, side)
    else
      autoPeer == Some(screen)
  }

  lemma {:induction false} NoEntryNoNeighbour(ns: seq<Neighbour>, from: ScreenId, side: EdgeSide)
    requires forall i :: 0 <= i < |ns| ==> ns[i].from != from || ns[i].side != side
    ensures NeighbourOf(ns, from, side) == None
  {
    if ns != [] {
      assert ns[0].from != from || ns[0].side != side;
      NoEntryNoNeighbour(ns[1..], from, side);
    }
  }

  /** The first of the indices with a property that some index up to n has. */
  lemma {:induction false} FirstEntry(s: Screen, side: EdgeSide, n: nat) returns (i: nat)
    requires n < |s.neighbours| && IsEntry(s, n, side)
    ensures i <= n && IsEntry(s, i, side) && forall j :: 0 <= j < i ==> !IsEntry(s, j, side)
  {
    if j: nat :| j < n && IsEntry(s, j, side) {
      i := FirstEntry(s, side, j);
    } else {
      i := n;
    }
  }

  lemma LeadsToTarget(s: Screen, e: EdgeState, side: EdgeSide, screen: ScreenId)
    ensures LeadsTo(s, e.autoPeer, side, screen) <==> Target(s, e, side) == Some(screen)
    ensures HasEntry(s, side) <==> NeighbourOf(s.neighbours, s.local, side).Some?
  {
    if HasEntry(s, side) {
      var n: nat :| n < |s.neighbours| && IsEntry(s, n, side);
      var i := FirstEntry(s, side, n);
      forall j | 0 <= j < i ensures s.neighbours[j].from != s.local || s.neighbours[j].side != side {
        assert !IsEntry(s, j, side);
      }
      NeighbourOfIsFirst(s.neighbours, s.local, side, i);
      forall k: nat | k < |s.neighbours| && IsEntry(s, k, side) && forall j :: 0 <= j < k ==> !IsEntry(s, j, side)
        ensures k == i
      {
        assert !(k < i) && !(i < k);
      }
    } else {
      forall j | 0 <= j < |s.neighbours| ensures s.neighbours[j].from != s.local || s.neighbours[j].side != side {
        assert !IsEntry(s, j, side);
      }
      NoEntryNoNeighbour(s.neighbours, s.local, side);
    }
  }

  lemma TouchesExactly(s: Screen, p: Point, side: EdgeSide)
    ensures Touches(s, p, side) <==> CrossLocalEdge(s, p) == Some(side)
    ensures Touches(s, p, side) ==> !StrictlyInside(s, p)
  {
  }

  /** A local move crosses exactly at a side that leads somewhere: to its first layout entry, or else to the auto
      peer. Everything else about the detector stays as it was. */
  lemma CrossesExactly(s: Screen, e: EdgeState, p: Point, side: EdgeSide, screen: ScreenId)
    requires e.route.Local?
    ensures var d := Observe(s, e, Mouse(Move(p.x, p.y))).1;
            && (Touches(s, p, side) && LeadsTo(s, e.autoPeer, side, screen) ==>
                  d == EnterRemote(screen, Arrival(s, p), Parking(s, p), e.modifiers))
            && (StrictlyInside(s, p) ==> d == Stay)
            && (Touches(s, p, side) && !HasEntry(s, side) && e.autoPeer == None ==> d == Stay)
    ensures var (e', d, f) := Observe(s, e, Mouse(Move(p.x, p.y)));
            && e' == e.(lastPoint := p, route := if d.EnterRemote? then Remote(d.screen) else Local)
            && (f == ToRemote <==> d.EnterRemote?)
  {
    TouchesExactly(s, p, side);
    LeadsToTarget(s, e, side, screen);
  }

  /** Other events decide nothing; a key event or a sync sets the flags. */
  lemma OthersOnlyNote(s: Screen, e: EdgeState, ev: InputEvent)
    requires !(ev.Mouse? && ev.mouse.Move?)
    ensures var (e', d, f) := Observe(s, e, ev);
            && d == Stay && (f == ToRemote <==> e.route.Remote?) && e' == e.(modifiers := e'.modifiers)
            && match ev
               case Key(k) => e'.modifiers == k.modifiers
               case SyncEvent(mods) => e'.modifiers == mods
               case _ => e'.modifiers == e.modifiers
  {
  }

  /** The route leaves Local exactly on a move that is not strictly inside the screen while some
      target exists; it never changes on any other event, and never goes back to Local. */
  lemma ObserveRoute(s: Screen, e: EdgeState, ev: InputEvent)
    ensures var (e', d, f) := Observe(s, e, ev);
            && (e.route.Remote? ==> e'.route == e.route && d == Stay)
            && (e.route.Local? ==>
                  (e'.route.Remote? <==>
                     && ev.Mouse? && ev.mouse.Move?
                     && !StrictlyInside(s, Point(ev.mouse.x, ev.mouse.y))
                     && Target(s, e, CrossLocalEdge(s, Point(ev.mouse.x, ev.mouse.y)).value).Some?))
            && (f == ToRemote <==> e'.route.Remote?)
            && (d.EnterRemote? <==> e.route.Local? && e'.route.Remote?)
            && (d.EnterRemote? ==> e'.route == Remote(d.screen))
  {
  }

  /** The parking position is clear of every edge exactly on screens of at least 4x4, so
      that a move to it after `force_local` does not bounce the route back. */
  lemma ParkedCursorStaysLocal(s: Screen, e: EdgeState, side: EdgeSide)
    ensures var w := WarpBackInside(side, s.width, s.height);
            StrictlyInside(s, w) <==> s.width >= 4 && s.height >= 4
    ensures var w := WarpBackInside(side, s.width, s.height);
            s.width >= 4 && s.height >= 4 ==>
              Observe(s, ForceLocal(e).0, Mouse(Move(w.x, w.y))).0.route == Local
  {
    ObserveRoute(s, ForceLocal(e).0, Mouse(Move(WarpBackInside(side, s.width, s.height).x,
                                                WarpBackInside(side, s.width, s.height).y)));
  }
}
