/** Any number of machines, one copy: which of them it reaches. */
module ClipboardReach {
  import opened Wrappers
  import Seqs
  import opened Protocol
  import opened Clipboard
  import opened ClipboardNetwork
  import opened ClipboardConvergence

  predicate Numbered(net: Net) {
    forall i :: 0 <= i < |net.nodes| ==> net.nodes[i].id == i
  }

  /** Nothing is in flight and nobody has anything to announce. */
  predicate AtRest(h: HashFn, net: Net) {
    Numbered(net) && net.wire == [] && forall i :: 0 <= i < |net.nodes| ==> Settled(h, net.nodes[i])
  }

  predicate NoCopies(actions: seq<Action>) {
    forall i :: 0 <= i < |actions| ==> !actions[i].Copy?
  }

  predicate NothingLost(actions: seq<Action>) {
    forall i :: 0 <= i < |actions| ==> !actions[i].Lose?
  }

  /** The peers that the machine has at its first poll. */
  function FirstPeers(actions: seq<Action>, who: nat): Option<seq<PeerId>> {
    if actions == [] then None
    else
      var first, a := FirstPeers(actions[..|actions| - 1], who), actions[|actions| - 1];
      if first.None? && a.PollNode? && a.who == who then Some(a.peers) else first
  }

  /** Those that a copy reaches: the peers its machine has at its next poll, provided that the poll loop can
      announce the content and has no record of its hash. */
  function Reached(h: HashFn, net: Net, who: nat, c: Content, actions: seq<Action>): seq<PeerId>
    requires who < |net.nodes|
  {
    var first := FirstPeers(actions, who);
    if Announceable(c) && h(c.bytes) !in net.nodes[who].originators && first.Some? then first.value else []
  }

  /** The machine holds the copy, and knows whose it is. */
  predicate Holds(h: HashFn, who: nat, c: Content, n: Node) {
    n.clip == Some(c) && h(c.bytes) in n.originators && n.originators[h(c.bytes)] == who
  }

  /** The messages that carry the copy to its machine's peers. */
  predicate Carries(h: HashFn, who: nat, c: Content, peers: seq<PeerId>, p: Packet) {
    match p.msg
    case ClipboardFormats(formats, hash) =>
      p.from == who && p.to in peers && formats == [c.format] && hash == h(c.bytes)
    case ClipboardRequest(format) =>
      p.to == who && p.from in peers && format == c.format
    case ClipboardData(payload) =>
      p.from == who && p.to in peers && payload == ClipboardPayload(c.format, c.bytes, who, h(c.bytes))
    case _ => false
  }

  /** The peer that such a message is for, or from. */
  function PeerOf(p: Packet): PeerId {
    if p.msg.ClipboardRequest? then p.from else p.to
  }

  ghost predicate OnTheWay(wire: seq<Packet>, j: PeerId) {
    exists k :: 0 <= k < |wire| && PeerOf(wire[k]) == j
  }

  /** The announcement has gone out to `peers`: all there is in flight carries the copy to them, and clipboards
      other than theirs are as at the start. */
  predicate Spreads(h: HashFn, net: Net, who: nat, c: Content, peers: seq<PeerId>, s: Net)
    requires who < |net.nodes|
  {
    && |s.nodes| == |net.nodes| && Numbered(s) && Holds(h, who, c, s.nodes[who])
    && (forall i :: 0 <= i < |s.nodes| ==> Settled(h, s.nodes[i]))
    && (forall i :: 0 <= i < |s.nodes| && i != who ==>
          s.nodes[i].clip == net.nodes[i].clip || (i in peers && Holds(h, who, c, s.nodes[i])))
    && (forall k :: 0 <= k < |s.wire| ==> Carries(h, who, c, peers, s.wire[k]))
  }

  /** Each of the peers holds the copy or some message on its behalf is in flight. */
  ghost predicate NoneForgotten(h: HashFn, who: nat, c: Content, peers: seq<PeerId>, s: Net) {
    forall j :: j in peers && j < |s.nodes| ==> Holds(h, who, c, s.nodes[j]) || OnTheWay(s.wire, j)
  }

  lemma StaysOnTheWay(wire: seq<Packet>, at: nat, out: seq<Packet>, j: PeerId)
    requires at < |wire| && OnTheWay(wire, j)
    ensures PeerOf(wire[at]) != j || OnTheWay(out, j) ==> OnTheWay(Remove(wire, at) + out, j)
  {
    var rest := Remove(wire, at) + out;
    if OnTheWay(out, j) {
      var k :| 0 <= k < |out| && PeerOf(out[k]) == j;
      assert rest[|wire| - 1 + k] == out[k];
    } else if PeerOf(wire[at]) != j {
      var k :| 0 <= k < |wire| && PeerOf(wire[k]) == j;
      assert rest[if k < at then k else k - 1] == wire[k];
    }
  }

  /** What handling such a message does: the copier answers and stays as it is, a peer asks or holds the copy. */
  lemma Carried(h: HashFn, net: Net, who: nat, c: Content, peers: seq<PeerId>, s: Net, p: Packet)
    requires who < |net.nodes| && Spreads(h, net, who, c, peers, s) && Announceable(c)
    requires Carries(h, who, c, peers, p) && p.to < |s.nodes|
    ensures var (n, out) := HandleMessage(h, s.nodes[p.to], p.from, p.msg);
            && Settled(h, n) && n.id == p.to
            && (if p.msg.ClipboardData? then Holds(h, who, c, n) && out == [] else n.clip == s.nodes[p.to].clip && |out| == 1)
            && (Holds(h, who, c, s.nodes[p.to]) ==> Holds(h, who, c, n))
            && (out != [] ==> Carries(h, who, c, peers, out[0]) && PeerOf(out[0]) == PeerOf(p))
  {
    var n := s.nodes[p.to];
    HandlingRecords(h, n, p.from, p.msg);
    ViewOf(h, Node(0, Some(c), map[], None), c);
    if p.msg.ClipboardFormats? {
      assert Requests(p.from, n.id, [c.format]) == [Packet(n.id, p.from, ClipboardRequest(c.format))] + Requests(p.from, n.id, []);
    }
  }

  lemma DeliverSpreads(h: HashFn, net: Net, who: nat, c: Content, peers: seq<PeerId>, s: Net, at: nat)
    requires who < |net.nodes| && Spreads(h, net, who, c, peers, s) && Announceable(c) && at < |s.wire|
    ensures Spreads(h, net, who, c, peers, Act(h, s, Deliver(at)))
  {
    var p, rest := s.wire[at], Remove(s.wire, at);
    assert Carries(h, who, c, peers, p);
    assert forall k :: 0 <= k < |rest| ==> rest[k] == s.wire[if k < at then k else k + 1];
    if p.to < |s.nodes| {
      Carried(h, net, who, c, peers, s, p);
      var out := HandleMessage(h, s.nodes[p.to], p.from, p.msg).1;
      assert forall k :: 0 <= k < |rest + out| ==> (rest + out)[k] == if k < |rest| then rest[k] else out[k - |rest|];
    }
  }

  lemma DeliverForgetsNone(h: HashFn, net: Net, who: nat, c: Content, peers: seq<PeerId>, s: Net, at: nat)
    requires who < |net.nodes| && Spreads(h, net, who, c, peers, s) && Announceable(c) && at < |s.wire|
    requires NoneForgotten(h, who, c, peers, s)
    ensures NoneForgotten(h, who, c, peers, Act(h, s, Deliver(at)))
  {
    var p, z := s.wire[at], Act(h, s, Deliver(at));
    assert Carries(h, who, c, peers, p);
    var out := if p.to < |s.nodes| then HandleMessage(h, s.nodes[p.to], p.from, p.msg).1 else [];
    if p.to < |s.nodes| {
      Carried(h, net, who, c, peers, s, p);
    } else {
      Seqs.Nothing(Remove(s.wire, at));
    }
    forall j | j in peers && j < |z.nodes| ensures Holds(h, who, c, z.nodes[j]) || OnTheWay(z.wire, j) {
      if OnTheWay(s.wire, j) {
        StaysOnTheWay(s.wire, at, out, j);
        if out != [] {
          assert PeerOf(out[0]) == PeerOf(p);
        }
      }
    }
  }

  lemma LoseSpreads(h: HashFn, net: Net, who: nat, c: Content, peers: seq<PeerId>, s: Net, at: nat)
    requires who < |net.nodes| && Spreads(h, net, who, c, peers, s) && at < |s.wire|
    ensures Spreads(h, net, who, c, peers, Act(h, s, Lose(at)))
  {
    var rest := Remove(s.wire, at);
    assert forall k :: 0 <= k < |rest| ==> rest[k] == s.wire[if k < at then k else k + 1];
  }

  /** A poll of a machine with nothing to announce. */
  lemma IdlePoll(h: HashFn, s: Net, who: nat, peers: seq<PeerId>)
    requires who < |s.nodes| && Settled(h, s.nodes[who])
    ensures var z := Act(h, s, PollNode(who, peers));
            && z.wire == s.wire && |z.nodes| == |s.nodes|
            && (forall i :: 0 <= i < |s.nodes| && i != who ==> z.nodes[i] == s.nodes[i])
            && Settled(h, z.nodes[who]) && z.nodes[who].clip == s.nodes[who].clip && z.nodes[who].id == s.nodes[who].id
            && z.nodes[who].originators == s.nodes[who].originators
  {
    PollAdvertisesUnrecorded(h, s.nodes[who], peers);
  }

  lemma SpreadsOn(h: HashFn, net: Net, who: nat, c: Content, peers: seq<PeerId>, s: Net, a: Action)
    requires who < |net.nodes| && Spreads(h, net, who, c, peers, s) && Announceable(c) && !a.Copy?
    ensures Spreads(h, net, who, c, peers, Act(h, s, a))
    ensures NoneForgotten(h, who, c, peers, s) && !a.Lose? ==> NoneForgotten(h, who, c, peers, Act(h, s, a))
  {
    match a
    case PollNode(i, ps) =>
      if i < |s.nodes| {
        IdlePoll(h, s, i, ps);
      }
    case Deliver(at) =>
      if at < |s.wire| {
        DeliverSpreads(h, net, who, c, peers, s, at);
        if NoneForgotten(h, who, c, peers, s) {
          DeliverForgetsNone(h, net, who, c, peers, s, at);
        }
      }
    case Lose(at) =>
      if at < |s.wire| {
        LoseSpreads(h, net, who, c, peers, s, at);
      }
    case _ =>
  }

  /** The copy waits for the next poll of its machine. */
  predicate Waits(h: HashFn, net: Net, who: nat, c: Content, s: Net)
    requires who < |net.nodes|
  {
    && |s.nodes| == |net.nodes| && Numbered(s) && s.wire == []
    && (forall i :: 0 <= i < |s.nodes| && i != who ==> Settled(h, s.nodes[i]) && s.nodes[i].clip == net.nodes[i].clip)
    && Recorded(s.nodes[who]) && s.nodes[who].clip == Some(c) && h(c.bytes) !in s.nodes[who].originators
  }

  lemma Announced(h: HashFn, net: Net, who: nat, c: Content, s: Net, peers: seq<PeerId>)
    requires who < |net.nodes| && Waits(h, net, who, c, s) && Announceable(c)
    ensures Spreads(h, net, who, c, peers, Act(h, s, PollNode(who, peers)))
    ensures NoneForgotten(h, who, c, peers, Act(h, s, PollNode(who, peers)))
  {
    var z := Act(h, s, PollNode(who, peers));
    ViewOf(h, s.nodes[who], c);
    PollAdvertisesUnrecorded(h, s.nodes[who], peers);
    BroadcastShape(who, peers, ClipboardFormats([c.format], h(c.bytes)));
    assert z.wire == Broadcast(who, peers, ClipboardFormats([c.format], h(c.bytes)));
    forall j | j in peers && j < |z.nodes| ensures OnTheWay(z.wire, j) {
      var k :| 0 <= k < |peers| && peers[k] == j;
      assert PeerOf(z.wire[k]) == j;
    }
  }

  lemma WaitsOn(h: HashFn, net: Net, who: nat, c: Content, s: Net, a: Action)
    requires who < |net.nodes| && Waits(h, net, who, c, s) && !a.Copy? && !(a.PollNode? && a.who == who)
    ensures Waits(h, net, who, c, Act(h, s, a))
  {
    if a.PollNode? && a.who < |s.nodes| {
      IdlePoll(h, s, a.who, a.peers);
    }
  }

  lemma {:induction false} WaitsOrSpreads(h: HashFn, net: Net, who: nat, c: Content, s: Net, actions: seq<Action>)
    requires who < |net.nodes| && Waits(h, net, who, c, s) && Announceable(c) && NoCopies(actions)
    ensures var z, first := Run(h, s, actions), FirstPeers(actions, who);
            if first.None? then Waits(h, net, who, c, z)
            else
              && Spreads(h, net, who, c, first.value, z)
              && (NothingLost(actions) ==> NoneForgotten(h, who, c, first.value, z))
  {
    if actions == [] {
    } else {
      var front, a := actions[..|actions| - 1], actions[|actions| - 1];
      WaitsOrSpreads(h, net, who, c, s, front);
      var m, first := Run(h, s, front), FirstPeers(front, who);
      if first.Some? {
        SpreadsOn(h, net, who, c, first.value, m, a);
      } else if a.PollNode? && a.who == who {
        Announced(h, net, who, c, m, a.peers);
      } else {
        WaitsOn(h, net, who, c, m, a);
      }
    }
  }

  /** Without copies nothing happens in a net at rest. */
  lemma {:induction false} RestGoesOn(h: HashFn, s: Net, actions: seq<Action>)
    requires AtRest(h, s) && NoCopies(actions)
    ensures var z := Run(h, s, actions);
            AtRest(h, z) && |z.nodes| == |s.nodes| && forall i :: 0 <= i < |s.nodes| ==> z.nodes[i].clip == s.nodes[i].clip
  {
    if actions == [] {
    } else {
      var front, a := actions[..|actions| - 1], actions[|actions| - 1];
      RestGoesOn(h, s, front);
      var m := Run(h, s, front);
      if a.PollNode? && a.who < |m.nodes| {
        IdlePoll(h, m, a.who, a.peers);
      }
    }
  }

  lemma CopyStarts(h: HashFn, net: Net, who: nat, c: Content)
    requires AtRest(h, net) && who < |net.nodes|
    ensures var s := Act(h, net, Copy(who, c));
            if Announceable(c) && h(c.bytes) !in net.nodes[who].originators then Waits(h, net, who, c, s)
            else AtRest(h, s)
  {
    ViewOf(h, Act(h, net, Copy(who, c)).nodes[who], c);
  }

  /** One copy in a net at rest, of any number of machines, any of whom poll with any peers while messages
      are lost and overtake each other: it reaches no machine but the peers of its own machine at the poll
      that announces it, and no other clipboard changes. If nothing was lost and nothing is in flight any
      more, it has reached exactly those, and they know whose it is. A machine that has the copy from a peer passes it
      on to nobody. */
  lemma CopyReachesExactly(h: HashFn, net: Net, who: nat, c: Content, actions: seq<Action>)
    requires AtRest(h, net) && who < |net.nodes| && NoCopies(actions)
    ensures var z, reached := Run(h, Act(h, net, Copy(who, c)), actions), Reached(h, net, who, c, actions);
            && |z.nodes| == |net.nodes| && z.nodes[who].clip == Some(c)
            && (forall i :: 0 <= i < |z.nodes| && i != who ==>
                  z.nodes[i].clip == net.nodes[i].clip || (i in reached && Holds(h, who, c, z.nodes[i])))
            && (NothingLost(actions) && z.wire == [] ==> forall i :: 0 <= i < |z.nodes| && i != who ==>
                  if i in reached then Holds(h, who, c, z.nodes[i]) else z.nodes[i].clip == net.nodes[i].clip)
  {
    var s := Act(h, net, Copy(who, c));
    CopyStarts(h, net, who, c);
    if Announceable(c) && h(c.bytes) !in net.nodes[who].originators {
      WaitsOrSpreads(h, net, who, c, s, actions);
      if NothingLost(actions) && Run(h, s, actions).wire == [] {
        assert forall j :: !OnTheWay([], j);
      }
    } else {
      RestGoesOn(h, s, actions);
    }
  }
}
