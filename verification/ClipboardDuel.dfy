/** Two machines that copy different contents at the same time: who wins, and when they swap. */
module ClipboardDuel {
  import opened Wrappers
  import opened Protocol
  import opened Clipboard
  import opened ClipboardNetwork
  import opened ClipboardConvergence

  // Fair runs of two machines come to rest

  /** Two numbered machines with finitely many contents about. */
  ghost predicate Ready(h: HashFn, s: Net, hashes: set<Digest>) {
    |s.nodes| == 2 && s.nodes[0].id == 0 && s.nodes[1].id == 1 && AllRecorded(s) && Within(h, s, hashes)
  }

  predicate Undisturbing(act: Action) {
    act == PollNode(0, [1]) || act == PollNode(1, [0]) || act.Deliver?
  }

  lemma ReadyStep(h: HashFn, s: Net, hashes: set<Digest>, act: Action)
    requires Ready(h, s, hashes) && Undisturbing(act)
    ensures Ready(h, Act(h, s, act), hashes)
    ensures Measure(Act(h, s, act), hashes, 1) + (if IsTraffic(h, s, act) then 1 else 0) <= Measure(s, hashes, 1)
  {
    MeasureFalls(h, s, act, hashes, 1);
    StaysNumbered(h, s, act);
  }

  lemma StaysNumbered(h: HashFn, s: Net, act: Action)
    requires |s.nodes| == 2 && s.nodes[0].id == 0 && s.nodes[1].id == 1 && AllRecorded(s) && Undisturbing(act)
    ensures var s' := Act(h, s, act);
            |s'.nodes| == 2 && s'.nodes[0].id == 0 && s'.nodes[1].id == 1 && AllRecorded(s')
  {
    if act.PollNode? {
      PollAdvertisesUnrecorded(h, s.nodes[act.who], act.peers);
    } else if act.at < |s.wire| && s.wire[act.at].to < 2 {
      var p := s.wire[act.at];
      HandlingRecords(h, s.nodes[p.to], p.from, p.msg);
    }
  }

  /** An action is due when it would put a message on the wire or take one off it. */
  predicate IsDue(h: HashFn, s: Net, act: Action)
    requires |s.nodes| == 2
  {
    match act
    case PollNode(who, peers) => who < 2 && peers == [1 - who] && Advertises(h, s.nodes[who])
    case Deliver(at) => at == 0 && s.wire != []
    case _ => false
  }

  lemma DueIsTraffic(h: HashFn, s: Net, hashes: set<Digest>, act: Action)
    requires Ready(h, s, hashes) && IsDue(h, s, act)
    ensures IsTraffic(h, s, act)
  {
    if act.PollNode? {
      PollAdvertisesUnrecorded(h, s.nodes[act.who], act.peers);
      var n := s.nodes[act.who];
      assert Shown(h, n).value in Poll(h, n, act.peers).0.originators;
    }
  }

  /** What is due stays due until there is traffic. */
  lemma DueStays(h: HashFn, s: Net, hashes: set<Digest>, act: Action, due: Action)
    requires Ready(h, s, hashes) && Undisturbing(act) && !IsTraffic(h, s, act) && IsDue(h, s, due)
    ensures |Act(h, s, act).nodes| == 2 && IsDue(h, Act(h, s, act), due)
  {
    if act.PollNode? {
      PollEffect(h, s.nodes[act.who], act.peers, hashes);
      PollAdvertisesUnrecorded(h, s.nodes[act.who], act.peers);
      assert s.wire + [] == s.wire;
    }
  }

  lemma {:induction false} Rests(h: HashFn, net: Net, run: Schedule, hashes: set<Digest>, n: nat) returns (t: nat)
    requires Undisturbed(run) && Fair(run) && Ready(h, StateAt(h, net, run, n), hashes)
    ensures n <= t && Quiescent(h, StateAt(h, net, run, t)) && Ready(h, StateAt(h, net, run, t), hashes)
    decreases Measure(StateAt(h, net, run, n), hashes, 1), 1, 0
  {
    var s := StateAt(h, net, run, n);
    if Quiescent(h, s) {
      t := n;
    } else {
      var due := if s.wire != [] then Deliver(0) else if Advertises(h, s.nodes[0]) then PollNode(0, [1]) else PollNode(1, [0]);
      assert Happens(run, n, PollNode(0, [1])) && Happens(run, n, PollNode(1, [0])) && Happens(run, n, Deliver(0));
      assert Happens(run, n, due);
      var m: nat :| n <= m && run(m) == due;
      t := RestsAfter(h, net, run, hashes, n, m);
    }
  }

  lemma {:induction false} RestsAfter(h: HashFn, net: Net, run: Schedule, hashes: set<Digest>, n: nat, m: nat) returns (t: nat)
    requires Undisturbed(run) && Fair(run) && Ready(h, StateAt(h, net, run, n), hashes)
    requires n <= m && IsDue(h, StateAt(h, net, run, n), run(m))
    ensures n <= t && Quiescent(h, StateAt(h, net, run, t)) && Ready(h, StateAt(h, net, run, t), hashes)
    decreases Measure(StateAt(h, net, run, n), hashes, 1), 0, m - n
  {
    var s := StateAt(h, net, run, n);
    assert Undisturbing(run(n));
    ReadyStep(h, s, hashes, run(n));
    if IsTraffic(h, s, run(n)) {
      t := Rests(h, net, run, hashes, n + 1);
    } else {
      if n == m {
        DueIsTraffic(h, s, hashes, run(m));
      }
      DueStays(h, s, hashes, run(n), run(m));
      t := RestsAfter(h, net, run, hashes, n + 1, m);
    }
  }

  ghost predicate RestsFrom(h: HashFn, net: Net, run: Schedule, t: nat) {
    forall n: nat :: t <= n ==> Quiescent(h, StateAt(h, net, run, n))
  }

  /** From any state, with any messages in flight, every fair run of two machines ends quiescent unless
      somebody copies again. */
  lemma FairRunsComeToRest(h: HashFn, net: Net, run: Schedule, hashes: set<Digest>)
    requires Undisturbed(run) && Fair(run) && Ready(h, net, hashes)
    ensures exists t: nat :: RestsFrom(h, net, run, t)
  {
    assert StateAt(h, net, run, 0) == net;
    var t := Rests(h, net, run, hashes, 0);
    forall n: nat | t <= n ensures Quiescent(h, StateAt(h, net, run, n)) {
      StaysAtRest(h, net, run, t, n);
    }
    assert RestsFrom(h, net, run, t);
  }

  lemma RestStep(h: HashFn, s: Net, act: Action)
    requires Quiescent(h, s) && Undisturbing(act)
    ensures var s' := Act(h, s, act);
            Quiescent(h, s') && s'.nodes[0].clip == s.nodes[0].clip && s'.nodes[1].clip == s.nodes[1].clip
  {
    if act.PollNode? {
      PollAdvertisesUnrecorded(h, s.nodes[act.who], act.peers);
      assert s.wire + [] == s.wire;
    }
  }

  lemma {:induction false} StaysAtRest(h: HashFn, net: Net, run: Schedule, t: nat, n: nat)
    requires Undisturbed(run) && t <= n && Quiescent(h, StateAt(h, net, run, t))
    ensures var (s, r) := (StateAt(h, net, run, n), StateAt(h, net, run, t));
            Quiescent(h, s) && s.nodes[0].clip == r.nodes[0].clip && s.nodes[1].clip == r.nodes[1].clip
    decreases n - t
  {
    if t < n {
      StaysAtRest(h, net, run, t, n - 1);
      assert Undisturbing(run(n - 1));
      RestStep(h, StateAt(h, net, run, n - 1), run(n - 1));
    }
  }

  // The two exchanges

  /** How far the announcement of a machine's own copy has come; what is carried is whose content. */
  datatype Leg = Idle | Offered | Asked | Carrying(whose: Machine) | Over

  /** A machine's announcement; whether it has written the other's data; whether it had answered the
      other's request before. */
  datatype Side = Side(leg: Leg, wrote: bool, answered: bool)

  datatype Duel = Duel(x: Content, y: Content, zero: Side, one: Side)

  function Own(d: Duel, a: Machine): Content {
    if a == 0 then d.x else d.y
  }

  function At(d: Duel, a: Machine): Side {
    if a == 0 then d.zero else d.one
  }

  function With(d: Duel, a: Machine, s: Side): Duel {
    if a == 0 then d.(zero := s) else d.(one := s)
  }

  /** Whose content a machine holds. */
  function Holds(d: Duel, a: Machine): Machine {
    if At(d, a).wrote && At(d, Other(a)).answered then Other(a) else a
  }

  predicate RulesOf(d: Duel, a: Machine) {
    var (me, you) := (At(d, a), At(d, Other(a)));
    && (me.answered ==> me.leg == Carrying(a) || me.leg == Over)
    && (me.leg == Carrying(a) ==> me.answered)
    && (me.leg == Carrying(Other(a)) ==> !me.answered && me.wrote && you.answered && Own(d, a).format == Own(d, Other(a)).format)
    && (me.wrote ==> you.leg == Over)
    && (me.answered && me.leg == Over ==> you.wrote)
    && (me.leg == Over && !me.answered ==> me.wrote && you.answered)
  }

  function Packets(h: HashFn, d: Duel, a: Machine): seq<Packet> {
    match At(d, a).leg
    case Idle => []
    case Offered => [Offer(h, a, Own(d, a))]
    case Asked => [Ask(a, Own(d, a))]
    case Carrying(w) => [Answer(h, a, Own(d, w))]
    case Over => []
  }

  predicate MachineOf(h: HashFn, s: Net, d: Duel, a: Machine)
    requires |s.nodes| == 2
  {
    var n := s.nodes[a];
    && n.id == a && Recorded(n) && n.clip == Some(Own(d, Holds(d, a)))
    && (h(Own(d, a).bytes) in n.originators <==> At(d, a).leg != Idle)
    && (Holds(d, a) == Other(a) ==> h(Own(d, Other(a)).bytes) in n.originators)
  }

  predicate WireOf(h: HashFn, wire: seq<Packet>, d: Duel) {
    wire == Packets(h, d, 0) + Packets(h, d, 1) || wire == Packets(h, d, 1) + Packets(h, d, 0)
  }

  predicate Dueling(h: HashFn, s: Net, d: Duel) {
    && Announceable(d.x) && Announceable(d.y) && h(d.x.bytes) != h(d.y.bytes)
    && RulesOf(d, 0) && RulesOf(d, 1)
    && |s.nodes| == 2 && MachineOf(h, s, d, 0) && MachineOf(h, s, d, 1)
    && WireOf(h, s.wire, d)
  }

  /** Whose announcement a message belongs to. */
  function LegOf(p: Packet): nat {
    if p.msg.ClipboardRequest? then p.to else p.from
  }

  /** What handling the message of leg `a` does to the duel. */
  function Moved(d: Duel, a: Machine): Duel {
    var me := At(d, a);
    match me.leg
    case Offered => With(d, a, me.(leg := Asked))
    case Asked =>
      if !me.wrote then With(d, a, me.(leg := Carrying(a), answered := true))
      else With(d, a, me.(leg := if Own(d, a).format == Own(d, Other(a)).format then Carrying(Other(a)) else Over))
    case Carrying(_) => With(With(d, a, me.(leg := Over)), Other(a), At(d, Other(a)).(wrote := true))
    case _ => d
  }

  function Next(d: Duel, s: Net, act: Action): Duel {
    match act
    case PollNode(who, _) =>
      if who < 2 && At(d, who).leg == Idle && Holds(d, who) == who then With(d, who, At(d, who).(leg := Offered)) else d
    case Deliver(at) =>
      if at < |s.wire| && LegOf(s.wire[at]) < 2 then Moved(d, LegOf(s.wire[at])) else d
    case _ => d
  }

  lemma MovedKeepsRules(d: Duel, a: Machine)
    requires RulesOf(d, 0) && RulesOf(d, 1)
    ensures RulesOf(Moved(d, a), 0) && RulesOf(Moved(d, a), 1)
    ensures Moved(d, a).x == d.x && Moved(d, a).y == d.y
  {
  }

  lemma PollDuels(h: HashFn, s: Net, d: Duel, a: Machine)
    requires Dueling(h, s, d)
    ensures Dueling(h, Act(h, s, PollNode(a, [Other(a)])), Next(d, s, PollNode(a, [Other(a)])))
  {
    var act := PollNode(a, [Other(a)]);
    PollAdvertisesUnrecorded(h, s.nodes[a], [Other(a)]);
    ViewOf(h, s.nodes[a], Own(d, Holds(d, a)));
    var out := Poll(h, s.nodes[a], [Other(a)]).1;
    if At(d, a).leg == Idle && Holds(d, a) == a {
      BroadcastShape(a, [Other(a)], Offer(h, a, Own(d, a)).msg);
      assert out == [Offer(h, a, Own(d, a))];
      assert Packets(h, d, a) == [] && s.wire == Packets(h, d, Other(a));
    } else {
      assert out == [] && s.wire + [] == s.wire;
    }
  }

  lemma WireSplits(h: HashFn, s: Net, d: Duel, at: nat)
    requires Dueling(h, s, d) && at < |s.wire|
    ensures var p := s.wire[at];
            && LegOf(p) < 2 && Packets(h, d, LegOf(p)) == [p]
            && Remove(s.wire, at) == Packets(h, d, Other(LegOf(p)))
  {
    var one, two := Packets(h, d, 0), Packets(h, d, 1);
    if s.wire == one + two {
      assert s.wire[at] == if at < |one| then one[at] else two[at - |one|];
    } else {
      assert s.wire[at] == if at < |two| then two[at] else one[at - |two|];
    }
  }

  lemma OtherLegStays(h: HashFn, d: Duel, a: Machine)
    ensures Packets(h, Moved(d, a), Other(a)) == Packets(h, d, Other(a))
  {
  }

  /** The new message of leg a follows what is left on the wire. */
  lemma WireMoves(h: HashFn, d: Duel, a: Machine, left: seq<Packet>)
    requires left == Packets(h, d, Other(a))
    ensures WireOf(h, left + Packets(h, Moved(d, a), a), Moved(d, a))
  {
    OtherLegStays(h, d, a);
    if a == 0 {
      assert left == Packets(h, Moved(d, a), 1);
    } else {
      assert left == Packets(h, Moved(d, a), 0);
    }
  }

  /** A machine that the action leaves alone. */
  lemma MachineStays(h: HashFn, s: Net, d: Duel, s': Net, d': Duel, a: Machine)
    requires |s.nodes| == 2 && |s'.nodes| == 2 && MachineOf(h, s, d, a) && s'.nodes[a] == s.nodes[a]
    requires d'.x == d.x && d'.y == d.y && Holds(d', a) == Holds(d, a) && (At(d', a).leg == Idle <==> At(d, a).leg == Idle)
    ensures MachineOf(h, s', d', a)
  {
  }

  /** What is left to show when the message of leg a has been handled. */
  lemma Advanced(h: HashFn, s: Net, d: Duel, at: nat, a: Machine, to: Machine, n: Node, out: seq<Packet>)
    requires Dueling(h, s, d) && at < |s.wire| && s.wire[at].to == to && Remove(s.wire, at) == Packets(h, d, Other(a))
    requires (n, out) == HandleMessage(h, s.nodes[to], s.wire[at].from, s.wire[at].msg) && out == Packets(h, Moved(d, a), a)
    requires At(d, a).leg != Idle
    requires Holds(Moved(d, a), Other(to)) == Holds(d, Other(to))
    requires var s' := s.(nodes := s.nodes[to := n]); MachineOf(h, s', Moved(d, a), to)
    ensures Dueling(h, Act(h, s, Deliver(at)), Moved(d, a))
  {
    MovedKeepsRules(d, a);
    WireMoves(h, d, a, Remove(s.wire, at));
    var s' := Act(h, s, Deliver(at));
    assert s'.nodes == s.nodes[to := n] && s'.wire == Remove(s.wire, at) + out;
    MovedIdle(d, a, Other(to));
    MachineStays(h, s, d, s', Moved(d, a), Other(to));
    assert MachineOf(h, s', Moved(d, a), to);
  }

  lemma MovedIdle(d: Duel, a: Machine, b: Machine)
    requires At(d, a).leg != Idle
    ensures At(Moved(d, a), b).leg == Idle <==> At(d, b).leg == Idle
  {
  }

  lemma OfferDuels(h: HashFn, s: Net, d: Duel, at: nat, a: Machine)
    requires Dueling(h, s, d) && at < |s.wire| && s.wire[at] == Offer(h, a, Own(d, a)) && At(d, a).leg == Offered
    requires Remove(s.wire, at) == Packets(h, d, Other(a))
    ensures Dueling(h, Act(h, s, Deliver(at)), Moved(d, a))
  {
    var p := s.wire[at];
    HandlingRecords(h, s.nodes[p.to], p.from, p.msg);
    var (n, out) := HandleMessage(h, s.nodes[p.to], p.from, p.msg);
    assert Requests(a, Other(a), [Own(d, a).format]) == [Ask(a, Own(d, a))] + Requests(a, Other(a), []);
    Advanced(h, s, d, at, a, Other(a), n, out);
  }

  lemma AskAnswered(h: HashFn, s: Net, d: Duel, a: Machine)
    requires Dueling(h, s, d) && At(d, a).leg == Asked
    ensures HandleMessage(h, s.nodes[a], Other(a), Ask(a, Own(d, a)).msg) == (s.nodes[a], Packets(h, Moved(d, a), a))
  {
    assert s.nodes[a].clip == Some(Own(d, Holds(d, a)));
  }

  lemma KeepsHolding(d: Duel, a: Machine)
    requires RulesOf(d, 0) && RulesOf(d, 1) && At(d, a).leg == Asked
    ensures Holds(Moved(d, a), a) == Holds(d, a) && Holds(Moved(d, a), Other(a)) == Holds(d, Other(a))
    ensures At(Moved(d, a), a).leg != Idle && Moved(d, a).x == d.x && Moved(d, a).y == d.y
  {
  }

  lemma AskDuels(h: HashFn, s: Net, d: Duel, at: nat, a: Machine)
    requires Dueling(h, s, d) && at < |s.wire| && s.wire[at] == Ask(a, Own(d, a)) && At(d, a).leg == Asked
    requires Remove(s.wire, at) == Packets(h, d, Other(a))
    ensures Dueling(h, Act(h, s, Deliver(at)), Moved(d, a))
  {
    AskAnswered(h, s, d, a);
    var p := s.wire[at];
    var (n, out) := HandleMessage(h, s.nodes[p.to], p.from, p.msg);
    KeepsHolding(d, a);
    MachineStays(h, s, d, s.(nodes := s.nodes[a := n]), Moved(d, a), a);
    Advanced(h, s, d, at, a, a, n, out);
  }

  lemma AnswerDuels(h: HashFn, s: Net, d: Duel, at: nat, a: Machine, w: Machine)
    requires Dueling(h, s, d) && at < |s.wire| && s.wire[at] == Answer(h, a, Own(d, w)) && At(d, a).leg == Carrying(w)
    requires Remove(s.wire, at) == Packets(h, d, Other(a))
    ensures Dueling(h, Act(h, s, Deliver(at)), Moved(d, a))
  {
    var p := s.wire[at];
    HandlingRecords(h, s.nodes[p.to], p.from, p.msg);
    var (n, out) := HandleMessage(h, s.nodes[p.to], p.from, p.msg);
    WriterOf(h, s, d, a, w, n, s.(nodes := s.nodes[Other(a) := n]));
    Advanced(h, s, d, at, a, Other(a), n, out);
  }

  lemma WriterOf(h: HashFn, s: Net, d: Duel, a: Machine, w: Machine, n: Node, s': Net)
    requires |s.nodes| == 2 && |s'.nodes| == 2 && MachineOf(h, s, d, Other(a)) && s'.nodes[Other(a)] == n
    requires At(d, a).leg == Carrying(w)
    requires RulesOf(d, a) && RulesOf(d, Other(a)) && h(Own(d, a).bytes) != h(Own(d, Other(a)).bytes)
    requires n == HandleMessage(h, s.nodes[Other(a)], a, Answer(h, a, Own(d, w)).msg).0
    requires Announceable(Own(d, w))
    ensures Holds(Moved(d, a), Other(a)) == w && MachineOf(h, s', Moved(d, a), Other(a))
  {
    assert Holds(Moved(d, a), Other(a)) == w;
  }

  lemma DuelStep(h: HashFn, s: Net, d: Duel, act: Action)
    requires Dueling(h, s, d) && Undisturbing(act)
    ensures Dueling(h, Act(h, s, act), Next(d, s, act))
  {
    match act
    case PollNode(who, _) => PollDuels(h, s, d, who);
    case Deliver(at) =>
      if at < |s.wire| {
        WireSplits(h, s, d, at);
        var a: Machine := LegOf(s.wire[at]);
        match At(d, a).leg
        case Offered => OfferDuels(h, s, d, at, a);
        case Asked => AskDuels(h, s, d, at, a);
        case Carrying(w) => AnswerDuels(h, s, d, at, a, w);
      }
  }

  // The whole run

  /** This action makes machine `a` handle a message of the given kind. */
  predicate Handles(s: Net, act: Action, a: Machine) {
    act.Deliver? && act.at < |s.wire| && s.wire[act.at].to == a
  }

  predicate Writes(s: Net, act: Action, a: Machine) {
    Handles(s, act, a) && s.wire[act.at].msg.ClipboardData?
  }

  predicate Answers(s: Net, act: Action, a: Machine) {
    Handles(s, act, a) && s.wire[act.at].msg.ClipboardRequest?
  }

  /** By time n the machine has written data of the other's. */
  predicate WroteBy(h: HashFn, net: Net, run: Schedule, a: Machine, n: nat) {
    n > 0 && (WroteBy(h, net, run, a, n - 1) || Writes(StateAt(h, net, run, n - 1), run(n - 1), a))
  }

  /** By time n it has answered the other's request, and had written none of its data before that. */
  predicate AnsweredBy(h: HashFn, net: Net, run: Schedule, a: Machine, n: nat) {
    n > 0 && (AnsweredBy(h, net, run, a, n - 1)
              || (Answers(StateAt(h, net, run, n - 1), run(n - 1), a) && !WroteBy(h, net, run, a, n - 1)))
  }

  /** The machine answers the other's request, and so has polled, before it writes the other's data. */
  ghost predicate AnswersFirst(h: HashFn, net: Net, run: Schedule, a: Machine) {
    exists n: nat :: AnsweredBy(h, net, run, a, n)
  }

  lemma NextHistory(h: HashFn, s: Net, d: Duel, act: Action, a: Machine)
    requires Dueling(h, s, d) && Undisturbing(act)
    ensures At(Next(d, s, act), a).wrote <==> At(d, a).wrote || Writes(s, act, a)
    ensures At(Next(d, s, act), a).answered <==> At(d, a).answered || (Answers(s, act, a) && !At(d, a).wrote)
  {
    if act.Deliver? && act.at < |s.wire| {
      WireSplits(h, s, d, act.at);
      MovedHistory(h, d, LegOf(s.wire[act.at]), s.wire[act.at], a);
    }
  }

  lemma MovedHistory(h: HashFn, d: Duel, b: Machine, p: Packet, a: Machine)
    requires Packets(h, d, b) == [p]
    ensures At(Moved(d, b), a).wrote <==> At(d, a).wrote || (p.to == a && p.msg.ClipboardData?)
    ensures At(Moved(d, b), a).answered <==> At(d, a).answered || (p.to == a && p.msg.ClipboardRequest? && !At(d, a).wrote)
  {
    assert p == Packets(h, d, b)[0];
  }

  /** The duel's record of a machine is the run's history. */
  ghost predicate Records(h: HashFn, net: Net, run: Schedule, n: nat, a: Machine, side: Side) {
    && (side.wrote <==> WroteBy(h, net, run, a, n))
    && (side.answered <==> AnsweredBy(h, net, run, a, n))
  }

  lemma HistoryStep(h: HashFn, net: Net, run: Schedule, n: nat, d: Duel, a: Machine)
    requires n > 0 && Dueling(h, StateAt(h, net, run, n - 1), d) && Undisturbing(run(n - 1))
    requires Records(h, net, run, n - 1, a, At(d, a))
    ensures Records(h, net, run, n, a, At(Next(d, StateAt(h, net, run, n - 1), run(n - 1)), a))
  {
    NextHistory(h, StateAt(h, net, run, n - 1), d, run(n - 1), a);
  }

  lemma DuelGoesOn(h: HashFn, net: Net, run: Schedule, n: nat, d: Duel)
    requires n > 0 && Dueling(h, StateAt(h, net, run, n - 1), d) && Undisturbing(run(n - 1))
    ensures Dueling(h, StateAt(h, net, run, n), Next(d, StateAt(h, net, run, n - 1), run(n - 1)))
  {
    DuelStep(h, StateAt(h, net, run, n - 1), d, run(n - 1));
  }

  /** The duel describes the state at time n and records the history up to it. */
  ghost predicate Describes(h: HashFn, net: Net, run: Schedule, n: nat, d: Duel) {
    && Dueling(h, StateAt(h, net, run, n), d)
    && Records(h, net, run, n, 0, d.zero) && Records(h, net, run, n, 1, d.one)
  }

  /** At every time of a run there is such a duel. */
  lemma {:induction false} DuelRuns(h: HashFn, net: Net, d: Duel, run: Schedule, n: nat) returns (e: Duel)
    requires Dueling(h, net, d) && Undisturbed(run)
    requires !d.zero.wrote && !d.zero.answered && !d.one.wrote && !d.one.answered
    ensures Describes(h, net, run, n, e) && e.x == d.x && e.y == d.y
  {
    if n == 0 {
      DuelStarts(h, net, d, run);
      e := d;
    } else {
      var before := DuelRuns(h, net, d, run, n - 1);
      e := DuelTurn(h, net, run, n, before);
    }
  }

  lemma DuelStarts(h: HashFn, net: Net, d: Duel, run: Schedule)
    requires Dueling(h, net, d) && !d.zero.wrote && !d.zero.answered && !d.one.wrote && !d.one.answered
    ensures Describes(h, net, run, 0, d)
  {
  }

  lemma DuelTurn(h: HashFn, net: Net, run: Schedule, n: nat, d: Duel) returns (e: Duel)
    requires n > 0 && Describes(h, net, run, n - 1, d) && Undisturbed(run)
    ensures Describes(h, net, run, n, e) && e.x == d.x && e.y == d.y
  {
    assert Undisturbing(run(n - 1));
    DuelGoesOn(h, net, run, n, d);
    HistoryStep(h, net, run, n, d, 0);
    HistoryStep(h, net, run, n, d, 1);
    NextKeepsContents(d, StateAt(h, net, run, n - 1), run(n - 1));
    e := Next(d, StateAt(h, net, run, n - 1), run(n - 1));
  }

  lemma NextKeepsContents(d: Duel, s: Net, act: Action)
    ensures Next(d, s, act).x == d.x && Next(d, s, act).y == d.y
  {
  }

  /** Once nothing is in flight and nothing to announce, one machine at least has answered first; the
      other holds its content, and it holds the other's exactly if both have. */
  lemma RestingDuel(h: HashFn, s: Net, d: Duel)
    requires Dueling(h, s, d) && Quiescent(h, s)
    ensures d.zero.answered || d.one.answered
    ensures s.nodes[0].clip == Some(if d.one.answered then d.y else d.x)
    ensures s.nodes[1].clip == Some(if d.zero.answered then d.x else d.y)
  {
    assert Packets(h, d, 0) == [] && Packets(h, d, 1) == [];
    ViewOf(h, s.nodes[0], Own(d, Holds(d, 0)));
    ViewOf(h, s.nodes[1], Own(d, Holds(d, 1)));
  }

  ghost predicate EndsWith(h: HashFn, net: Net, run: Schedule, zero: Content, one: Content, t: nat) {
    forall n: nat :: t <= n ==>
      var s := StateAt(h, net, run, n);
      Quiescent(h, s) && s.nodes[0].clip == Some(zero) && s.nodes[1].clip == Some(one)
  }

  ghost predicate EndsUp(h: HashFn, net: Net, run: Schedule, zero: Content, one: Content) {
    exists t: nat :: EndsWith(h, net, run, zero, one, t)
  }

  /** Two copies of different contents, each new to its own machine, made while the system is quiescent: in
      every fair run it comes to rest again. The contents are swapped exactly if each machine answers the
      other's request before it writes the other's data; otherwise the machines agree, on the content
      of the one that does. */
  lemma TwoCopiesExactly(h: HashFn, net: Net, x: Content, y: Content, run: Schedule)
    requires Quiescent(h, net) && Announceable(x) && Announceable(y) && h(x.bytes) != h(y.bytes)
    requires h(x.bytes) !in net.nodes[0].originators && h(y.bytes) !in net.nodes[1].originators
    requires Undisturbed(run) && Fair(run)
    ensures var copied := Act(h, Act(h, net, Copy(0, x)), Copy(1, y));
            var (zero, one) := (AnswersFirst(h, copied, run, 0), AnswersFirst(h, copied, run, 1));
            && (zero || one)
            && EndsUp(h, copied, run, if one then y else x, if zero then x else y)
  {
    var copied := Act(h, Act(h, net, Copy(0, x)), Copy(1, y));
    var d := Duel(x, y, Side(Idle, false, false), Side(Idle, false, false));
    assert Dueling(h, copied, d);
    FairRunsComeToRest(h, copied, run, {h(x.bytes), h(y.bytes)});
    var t: nat :| RestsFrom(h, copied, run, t);
    forall a: Machine ensures AnsweredBy(h, copied, run, a, t) <==> AnswersFirst(h, copied, run, a) {
      AnsweredInTime(h, copied, run, t, a);
    }
    var e := DuelRuns(h, copied, d, run, t);
    RestingDuel(h, StateAt(h, copied, run, t), e);
    var zero, one := if AnswersFirst(h, copied, run, 1) then y else x, if AnswersFirst(h, copied, run, 0) then x else y;
    forall n: nat | t <= n
      ensures var s := StateAt(h, copied, run, n);
              Quiescent(h, s) && s.nodes[0].clip == Some(zero) && s.nodes[1].clip == Some(one)
    {
      StaysAtRest(h, copied, run, t, n);
    }
    assert EndsWith(h, copied, run, zero, one, t);
  }

  /** At rest nothing is in flight, so no later action is an answer. */
  lemma AnsweredInTime(h: HashFn, net: Net, run: Schedule, t: nat, a: Machine)
    requires RestsFrom(h, net, run, t)
    ensures AnsweredBy(h, net, run, a, t) <==> AnswersFirst(h, net, run, a)
  {
    if n: nat :| AnsweredBy(h, net, run, a, n) {
      AnsweredBefore(h, net, run, t, a, n);
    }
  }

  lemma {:induction false} AnsweredBefore(h: HashFn, net: Net, run: Schedule, t: nat, a: Machine, n: nat)
    requires RestsFrom(h, net, run, t) && AnsweredBy(h, net, run, a, n)
    ensures AnsweredBy(h, net, run, a, t)
    decreases n + t - (if n < t then 2 * n else 2 * t)
  {
    if n < t {
      AnsweredBefore(h, net, run, t, a, n + 1);
    } else if n > t {
      assert Quiescent(h, StateAt(h, net, run, n - 1));
      AnsweredBefore(h, net, run, t, a, n - 1);
    }
  }
}
