/** Two machines, one copy: when, how, and at what cost both clipboards come to agree. */
module ClipboardConvergence {
  import opened Wrappers
  import opened Protocol
  import opened Clipboard
  import opened ClipboardNetwork

  /** The actions of an infinite run. */
  type Schedule = nat -> Action

  function StateAt(h: HashFn, net: Net, run: Schedule, n: nat): Net {
    if n == 0 then net else Act(h, StateAt(h, net, run, n - 1), run(n - 1))
  }

  /** No copies and no losses: each machine polls with the other as its peer, and messages are delivered. */
  ghost predicate Undisturbed(run: Schedule) {
    forall n: nat :: run(n) == PollNode(0, [1]) || run(n) == PollNode(1, [0]) || run(n).Deliver?
  }

  ghost predicate Happens(run: Schedule, from: nat, act: Action) {
    exists m: nat :: from <= m && run(m) == act
  }

  /** Both machines keep polling, and what is in flight is delivered eventually. */
  ghost predicate Fair(run: Schedule) {
    forall n: nat ::
      Happens(run, n, PollNode(0, [1])) && Happens(run, n, PollNode(1, [0])) && Happens(run, n, Deliver(0))
  }

  type Machine = a: nat | a < 2

  function Other(a: Machine): Machine {
    1 - a
  }

  /** A poll of this node announces nothing. */
  predicate Settled(h: HashFn, n: Node) {
    Recorded(n) && !Advertises(h, n)
  }

  /** Two numbered nodes, nothing in flight, nothing to announce. */
  predicate Quiescent(h: HashFn, net: Net) {
    && |net.nodes| == 2 && net.nodes[0].id == 0 && net.nodes[1].id == 1
    && net.wire == []
    && Settled(h, net.nodes[0]) && Settled(h, net.nodes[1])
  }

  /** Content the poll loop can announce at all. */
  predicate Announceable(c: Content) {
    Transferable(c.format) && c.bytes != []
  }

  // The three messages of a successful exchange

  function Offer(h: HashFn, a: Machine, c: Content): Packet {
    Packet(a, Other(a), ClipboardFormats([c.format], h(c.bytes)))
  }

  function Ask(a: Machine, c: Content): Packet {
    Packet(Other(a), a, ClipboardRequest(c.format))
  }

  function Answer(h: HashFn, a: Machine, c: Content): Packet {
    Packet(a, Other(a), ClipboardData(ClipboardPayload(c.format, c.bytes, a, h(c.bytes))))
  }

  function Exchange(h: HashFn, a: Machine, c: Content): seq<Packet> {
    [Offer(h, a, c), Ask(a, c), Answer(h, a, c)]
  }

  /** Stage k of the exchange: k of its messages have been sent, the k-th is in flight unless handled;
      stage 4 is after the last one is handled. */
  predicate Stage(h: HashFn, net: Net, a: Machine, c: Content, base: seq<Packet>, k: nat)
    requires k <= 4
  {
    && |net.nodes| == 2 && net.nodes[0].id == 0 && net.nodes[1].id == 1
    && Recorded(net.nodes[a]) && Settled(h, net.nodes[Other(a)])
    && net.nodes[a].clip == Some(c)
    && (h(c.bytes) in net.nodes[a].originators <==> k > 0)
    && net.sent == base + Exchange(h, a, c)[..if k < 4 then k else 3]
    && net.wire == (if k == 0 || k == 4 then [] else [Exchange(h, a, c)[k - 1]])
    && (k == 4 ==> net.nodes[Other(a)].clip == Some(c))
  }

  lemma ViewOf(h: HashFn, n: Node, c: Content)
    requires n.clip == Some(c)
    ensures Announceable(c) ==> PollView(n.clip) == Some(c)
    ensures !Announceable(c) ==> PollView(n.clip).None?
  {
  }

  lemma PollStage(h: HashFn, net: Net, a: Machine, c: Content, base: seq<Packet>, k: nat, who: Machine)
    requires k <= 4 && Announceable(c) && Stage(h, net, a, c, base, k)
    ensures Stage(h, Act(h, net, PollNode(who, [Other(who)])), a, c, base, if k == 0 && who == a then 1 else k)
  {
    PollAdvertisesUnrecorded(h, net.nodes[who], [Other(who)]);
    ViewOf(h, net.nodes[a], c);
    var out := Poll(h, net.nodes[who], [Other(who)]).1;
    if k == 0 && who == a {
      BroadcastShape(a, [Other(a)], Offer(h, a, c).msg);
      assert out == [Offer(h, a, c)];
      assert net.wire + out == [Exchange(h, a, c)[0]];
      assert base + Exchange(h, a, c)[..0] + out == base + Exchange(h, a, c)[..1];
    } else {
      assert out == [];
      assert net.wire + out == net.wire && net.sent + out == net.sent;
    }
  }

  lemma DeliverOffer(h: HashFn, net: Net, a: Machine, c: Content, base: seq<Packet>)
    requires Announceable(c) && Stage(h, net, a, c, base, 1)
    ensures Stage(h, Act(h, net, Deliver(0)), a, c, base, 2)
  {
    var p := Offer(h, a, c);
    HandlingRecords(h, net.nodes[p.to], p.from, p.msg);
    var out := HandleMessage(h, net.nodes[p.to], p.from, p.msg).1;
    assert Requests(a, Other(a), [c.format]) == [Ask(a, c)] + Requests(a, Other(a), []);
    assert Remove(net.wire, 0) + out == [Ask(a, c)];
    assert base + Exchange(h, a, c)[..1] + out == base + Exchange(h, a, c)[..2];
  }

  lemma DeliverAsk(h: HashFn, net: Net, a: Machine, c: Content, base: seq<Packet>)
    requires Announceable(c) && Stage(h, net, a, c, base, 2)
    ensures Stage(h, Act(h, net, Deliver(0)), a, c, base, 3)
  {
    var p := Ask(a, c);
    var out := HandleMessage(h, net.nodes[p.to], p.from, p.msg).1;
    assert out == [Answer(h, a, c)];
    assert Remove(net.wire, 0) + out == out;
    assert base + Exchange(h, a, c)[..2] + out == base + Exchange(h, a, c)[..3];
  }

  lemma DeliverAnswer(h: HashFn, net: Net, a: Machine, c: Content, base: seq<Packet>)
    requires Announceable(c) && Stage(h, net, a, c, base, 3)
    ensures Stage(h, Act(h, net, Deliver(0)), a, c, base, 4)
  {
    var p := Answer(h, a, c);
    HandlingRecords(h, net.nodes[p.to], p.from, p.msg);
    var (n, out) := HandleMessage(h, net.nodes[p.to], p.from, p.msg);
    ViewOf(h, n, c);
    assert Remove(net.wire, 0) + out == [];
    assert net.sent + out == net.sent;
  }

  lemma DeliverStage(h: HashFn, net: Net, a: Machine, c: Content, base: seq<Packet>, k: nat, at: nat)
    requires k <= 4 && Announceable(c) && Stage(h, net, a, c, base, k)
    ensures Stage(h, Act(h, net, Deliver(at)), a, c, base, if at == 0 && 0 < k < 4 then k + 1 else k)
  {
    if at == 0 && 0 < k < 4 {
      match k
      case 1 => DeliverOffer(h, net, a, c, base);
      case 2 => DeliverAsk(h, net, a, c, base);
      case 3 => DeliverAnswer(h, net, a, c, base);
    }
  }

  /** The action that moves the exchange on from stage k. */
  function Due(a: Machine, k: nat): Action {
    if k == 0 then PollNode(a, [Other(a)]) else Deliver(0)
  }

  lemma StageStep(h: HashFn, net: Net, a: Machine, c: Content, base: seq<Packet>, k: nat, act: Action)
    requires k <= 4 && Announceable(c) && Stage(h, net, a, c, base, k)
    requires act == PollNode(0, [1]) || act == PollNode(1, [0]) || act.Deliver?
    ensures Stage(h, Act(h, net, act), a, c, base, if k < 4 && act == Due(a, k) then k + 1 else k)
  {
    if act.Deliver? {
      DeliverStage(h, net, a, c, base, k, act.at);
    } else {
      PollStage(h, net, a, c, base, k, act.who);
    }
  }

  ghost predicate AtStage(h: HashFn, net: Net, run: Schedule, a: Machine, c: Content, base: seq<Packet>, k: nat, n: nat) {
    k <= 4 && Stage(h, StateAt(h, net, run, n), a, c, base, k)
  }

  lemma NextAtStage(h: HashFn, net: Net, run: Schedule, a: Machine, c: Content, base: seq<Packet>, k: nat, n: nat)
    requires Announceable(c) && Undisturbed(run) && AtStage(h, net, run, a, c, base, k, n)
    ensures AtStage(h, net, run, a, c, base, if k < 4 && run(n) == Due(a, k) then k + 1 else k, n + 1)
  {
    StageStep(h, StateAt(h, net, run, n), a, c, base, k, run(n));
  }

  /** A condition that every action keeps, except one that turns it into another condition, gives way to
      that other condition if the action happens. */
  lemma {:induction false} LeadsTo(run: Schedule, act: Action, P: nat -> bool, Q: nat -> bool, n: nat, m: nat)
      returns (t: nat)
    requires n <= m && run(m) == act && P(n)
    requires forall i: nat :: P(i) ==> if run(i) == act then Q(i + 1) else P(i + 1)
    ensures n < t && Q(t)
    decreases m - n
  {
    t := n + 1;
    if run(n) != act {
      t := LeadsTo(run, act, P, Q, n + 1, m);
    }
  }

  lemma {:induction false} Always(P: nat -> bool, n: nat, m: nat)
    requires n <= m && P(n)
    requires forall i: nat :: P(i) ==> P(i + 1)
    ensures P(m)
    decreases m - n
  {
    if n < m {
      Always(P, n + 1, m);
    }
  }

  lemma NextStage(h: HashFn, net: Net, run: Schedule, a: Machine, c: Content, base: seq<Packet>, k: nat, n: nat)
      returns (t: nat)
    requires k < 4 && Announceable(c) && Undisturbed(run) && Fair(run)
    requires AtStage(h, net, run, a, c, base, k, n)
    ensures AtStage(h, net, run, a, c, base, k + 1, t)
  {
    ghost var P := (i: nat) => AtStage(h, net, run, a, c, base, k, i);
    ghost var Q := (i: nat) => AtStage(h, net, run, a, c, base, k + 1, i);
    forall i: nat | P(i) ensures if run(i) == Due(a, k) then Q(i + 1) else P(i + 1) {
      NextAtStage(h, net, run, a, c, base, k, i);
    }
    var m := DueHappens(run, a, k, n);
    t := LeadsTo(run, Due(a, k), P, Q, n, m);
  }

  lemma DueHappens(run: Schedule, a: Machine, k: nat, n: nat) returns (m: nat)
    requires Fair(run)
    ensures n <= m && run(m) == Due(a, k)
  {
    assert Happens(run, n, PollNode(0, [1])) && Happens(run, n, PollNode(1, [0])) && Happens(run, n, Deliver(0));
    assert Happens(run, n, Due(a, k));
    m :| n <= m && run(m) == Due(a, k);
  }

  lemma LastStageStays(h: HashFn, net: Net, run: Schedule, a: Machine, c: Content, base: seq<Packet>, n: nat, m: nat)
    requires Announceable(c) && Undisturbed(run) && n <= m && AtStage(h, net, run, a, c, base, 4, n)
    ensures AtStage(h, net, run, a, c, base, 4, m)
  {
    ghost var P := (i: nat) => AtStage(h, net, run, a, c, base, 4, i);
    forall i: nat | P(i) ensures P(i + 1) {
      NextAtStage(h, net, run, a, c, base, 4, i);
    }
    Always(P, n, m);
  }

  ghost predicate AgreesFrom(h: HashFn, net: Net, run: Schedule, c: Content, t: nat) {
    forall n: nat :: t <= n ==>
      var s := StateAt(h, net, run, n); |s.nodes| == 2 && s.nodes[0].clip == Some(c) && s.nodes[1].clip == Some(c)
  }

  /** Convergence: one copy of content its machine has not recorded ends, in every fair run, with both
      clipboards holding it for good, after exactly one Formats, one Request and one Data, and with the
      system quiescent again. */
  lemma OneCopyConverges(h: HashFn, net: Net, a: Machine, c: Content, run: Schedule)
    requires Quiescent(h, net) && Announceable(c) && h(c.bytes) !in net.nodes[a].originators
    requires Undisturbed(run) && Fair(run)
    ensures var copied := Act(h, net, Copy(a, c));
            exists t: nat ::
              && AgreesFrom(h, copied, run, c, t)
              && forall n: nat :: t <= n ==>
                   var s := StateAt(h, copied, run, n);
                   Quiescent(h, s) && s.sent == net.sent + Exchange(h, a, c)
  {
    var copied := Act(h, net, Copy(a, c));
    var base := net.sent;
    assert copied.sent == base + Exchange(h, a, c)[..0];
    assert AtStage(h, copied, run, a, c, base, 0, 0);
    var t1 := NextStage(h, copied, run, a, c, base, 0, 0);
    var t2 := NextStage(h, copied, run, a, c, base, 1, t1);
    var t3 := NextStage(h, copied, run, a, c, base, 2, t2);
    var t4 := NextStage(h, copied, run, a, c, base, 3, t3);
    forall n: nat | t4 <= n
      ensures var s := StateAt(h, copied, run, n);
              && |s.nodes| == 2 && s.nodes[0].clip == Some(c) && s.nodes[1].clip == Some(c)
              && Quiescent(h, s) && s.sent == base + Exchange(h, a, c)
    {
      LastStageStays(h, copied, run, a, c, base, t4, n);
      ViewOf(h, StateAt(h, copied, run, n).nodes[a], c);
      assert Exchange(h, a, c)[..3] == Exchange(h, a, c);
    }
    assert AgreesFrom(h, copied, run, c, t4);
  }

  /** Nothing to announce and nothing in flight: every undisturbed run leaves both clipboards alone. */
  lemma {:induction false} QuiescentStays(h: HashFn, net: Net, run: Schedule, n: nat)
    requires Quiescent(h, net) && Undisturbed(run)
    ensures var s := StateAt(h, net, run, n);
            && Quiescent(h, s) && s.sent == net.sent
            && s.nodes[0].clip == net.nodes[0].clip && s.nodes[1].clip == net.nodes[1].clip
  {
    if n > 0 {
      QuiescentStays(h, net, run, n - 1);
      var s, act := StateAt(h, net, run, n - 1), run(n - 1);
      if act.PollNode? {
        PollAdvertisesUnrecorded(h, s.nodes[act.who], act.peers);
        assert s.wire + [] == s.wire && s.sent + [] == s.sent;
      }
    }
  }

  /** Exactly when a copy reaches the other machine: the poll loop must be able to announce the content
      and its machine must not have recorded the hash before, unless the other clipboard held it anyway. */
  lemma CopyConvergesExactly(h: HashFn, net: Net, a: Machine, c: Content, run: Schedule)
    requires Quiescent(h, net) && Undisturbed(run) && Fair(run)
    ensures (exists t: nat :: AgreesFrom(h, Act(h, net, Copy(a, c)), run, c, t))
       <==> (Announceable(c) && h(c.bytes) !in net.nodes[a].originators) || net.nodes[Other(a)].clip == Some(c)
  {
    var copied := Act(h, net, Copy(a, c));
    ViewOf(h, copied.nodes[a], c);
    if Announceable(c) && h(c.bytes) !in net.nodes[a].originators {
      OneCopyConverges(h, net, a, c, run);
    } else {
      assert Quiescent(h, copied);
      forall n: nat
        ensures var s := StateAt(h, copied, run, n);
                |s.nodes| == 2 && s.nodes[a].clip == Some(c) && s.nodes[Other(a)].clip == net.nodes[Other(a)].clip
      {
        QuiescentStays(h, copied, run, n);
      }
      if net.nodes[Other(a)].clip == Some(c) {
        assert AgreesFrom(h, copied, run, c, 0);
      } else {
        forall t: nat ensures !AgreesFrom(h, copied, run, c, t) {
          var s := StateAt(h, copied, run, t);
          assert s.nodes[Other(a)].clip == net.nodes[Other(a)].clip;
        }
      }
    }
  }

  /** Two machines that have just copied different texts, nothing recorded yet. */
  function BothCopied(x: Content, y: Content): Net {
    Net([Node(0, Some(x), map[], None), Node(1, Some(y), map[], None)], [], [])
  }

  /** Both poll, and the six messages are handled in the order they were sent. */
  function Swapped(h: HashFn, x: Content, y: Content): Net {
    var s := Act(h, Act(h, BothCopied(x, y), PollNode(0, [1])), PollNode(1, [0]));
    var s := Act(h, Act(h, s, Deliver(0)), Deliver(0));
    var s := Act(h, Act(h, s, Deliver(0)), Deliver(0));
    Act(h, Act(h, s, Deliver(0)), Deliver(0))
  }

  lemma BothAnnounce(h: HashFn, x: Content, y: Content)
    requires Announceable(x) && Announceable(y)
    ensures var s := Act(h, Act(h, BothCopied(x, y), PollNode(0, [1])), PollNode(1, [0]));
            && s.nodes == [Node(0, Some(x), map[h(x.bytes) := 0], Some(h(x.bytes))),
                           Node(1, Some(y), map[h(y.bytes) := 1], Some(h(y.bytes)))]
            && s.wire == [Offer(h, 0, x), Offer(h, 1, y)]
  {
    var s := BothCopied(x, y);
    BroadcastShape(0, [1], Offer(h, 0, x).msg);
    BroadcastShape(1, [0], Offer(h, 1, y).msg);
    assert Broadcast(0, [1], Offer(h, 0, x).msg) == [Offer(h, 0, x)];
    assert Broadcast(1, [0], Offer(h, 1, y).msg) == [Offer(h, 1, y)];
    var s1 := Act(h, s, PollNode(0, [1]));
    assert s1.wire == [Offer(h, 0, x)];
    assert s1.wire + [Offer(h, 1, y)] == [Offer(h, 0, x), Offer(h, 1, y)];
  }

  lemma BothAsk(h: HashFn, s: Net, x: Content, y: Content)
    requires h(x.bytes) != h(y.bytes)
    requires s.nodes == [Node(0, Some(x), map[h(x.bytes) := 0], Some(h(x.bytes))),
                         Node(1, Some(y), map[h(y.bytes) := 1], Some(h(y.bytes)))]
    requires s.wire == [Offer(h, 0, x), Offer(h, 1, y)]
    ensures var t := Act(h, Act(h, s, Deliver(0)), Deliver(0));
            && t.nodes == [Node(0, Some(x), map[h(x.bytes) := 0, h(y.bytes) := 1], Some(h(x.bytes))),
                           Node(1, Some(y), map[h(y.bytes) := 1, h(x.bytes) := 0], Some(h(y.bytes)))]
            && t.wire == [Ask(0, x), Ask(1, y)]
  {
    var s1 := Act(h, s, Deliver(0));
    assert Requests(0, 1, [x.format]) == [Ask(0, x)] + Requests(0, 1, []);
    assert s1.wire == [Offer(h, 1, y), Ask(0, x)];
    assert Requests(1, 0, [y.format]) == [Ask(1, y)] + Requests(1, 0, []);
    assert Remove(s1.wire, 0) + [Ask(1, y)] == [Ask(0, x), Ask(1, y)];
  }

  lemma BothAnswer(h: HashFn, s: Net, x: Content, y: Content)
    requires Announceable(x) && Announceable(y) && |s.nodes| == 2
    requires s.nodes[0].id == 0 && s.nodes[0].clip == Some(x) && s.nodes[1].id == 1 && s.nodes[1].clip == Some(y)
    requires s.wire == [Ask(0, x), Ask(1, y)]
    ensures var t := Act(h, Act(h, s, Deliver(0)), Deliver(0));
            t.nodes == s.nodes && t.wire == [Answer(h, 0, x), Answer(h, 1, y)]
  {
    var s1 := Act(h, s, Deliver(0));
    assert s1.nodes == s.nodes;
    assert s1.wire == [Ask(1, y), Answer(h, 0, x)];
    assert Remove(s1.wire, 0) + [Answer(h, 1, y)] == [Answer(h, 0, x), Answer(h, 1, y)];
  }

  lemma BothWrite(h: HashFn, s: Net, x: Content, y: Content)
    requires Announceable(x) && Announceable(y)
    requires s.nodes == [Node(0, Some(x), map[h(x.bytes) := 0, h(y.bytes) := 1], Some(h(x.bytes))),
                         Node(1, Some(y), map[h(y.bytes) := 1, h(x.bytes) := 0], Some(h(y.bytes)))]
    requires s.wire == [Answer(h, 0, x), Answer(h, 1, y)]
    ensures var t := Act(h, Act(h, s, Deliver(0)), Deliver(0));
            Quiescent(h, t) && t.nodes[0].clip == Some(y) && t.nodes[1].clip == Some(x)
  {
    var s1 := Act(h, s, Deliver(0));
    assert s1.wire == [Answer(h, 1, y)];
    HandlingRecords(h, s.nodes[1], 0, Answer(h, 0, x).msg);
    ViewOf(h, s1.nodes[1], x);
    var s2 := Act(h, s1, Deliver(0));
    assert s2.nodes[1] == s1.nodes[1];
    HandlingRecords(h, s1.nodes[0], 1, Answer(h, 1, y).msg);
    ViewOf(h, s2.nodes[0], y);
    assert s2.wire == [];
  }

  /** A single copy is needed: here is a run in which two machines that copy different contents at the same
      time swap them, and then rest. `ClipboardDuel.TwoCopiesExactly` says when that happens. */
  lemma SimultaneousCopiesSwap(h: HashFn, x: Content, y: Content)
    requires Announceable(x) && Announceable(y) && h(x.bytes) != h(y.bytes)
    ensures var s := Swapped(h, x, y);
            Quiescent(h, s) && s.nodes[0].clip == Some(y) && s.nodes[1].clip == Some(x)
  {
    var s2 := Act(h, Act(h, BothCopied(x, y), PollNode(0, [1])), PollNode(1, [0]));
    BothAnnounce(h, x, y);
    var s4 := Act(h, Act(h, s2, Deliver(0)), Deliver(0));
    BothAsk(h, s2, x, y);
    var s6 := Act(h, Act(h, s4, Deliver(0)), Deliver(0));
    BothAnswer(h, s4, x, y);
    BothWrite(h, s6, x, y);
  }
}
