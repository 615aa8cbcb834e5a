/** Any number of machines syncing their clipboards over channels that may lose or reorder messages. */
module ClipboardNetwork {
  import opened Wrappers
  import opened Protocol
  import opened Clipboard

  /** Machine `i` is `nodes[i]`; `wire` holds the messages in flight and `sent` all that were ever sent. */
  datatype Net = Net(nodes: seq<Node>, wire: seq<Packet>, sent: seq<Packet>)

  /** The user copies; a machine polls with the peers it then has; the message at a position in flight
      is handled by its addressee, or lost with its connection. */
  datatype Action =
    | Copy(who: nat, content: Content)
    | PollNode(who: nat, peers: seq<PeerId>)
    | Deliver(at: nat)
    | Lose(at: nat)

  function Remove<T>(s: seq<T>, at: nat): seq<T>
    requires at < |s|
  {
    s[..at] + s[at + 1..]
  }

  function Act(h: HashFn, net: Net, a: Action): Net {
    match a
    case Copy(who, content) =>
      if who < |net.nodes| then net.(nodes := net.nodes[who := net.nodes[who].(clip := Some(content))]) else net
    case PollNode(who, peers) =>
      if who < |net.nodes| then
        var (n, out) := Poll(h, net.nodes[who], peers);
        Net(net.nodes[who := n], net.wire + out, net.sent + out)
      else net
    case Deliver(at) =>
      if at < |net.wire| then
        var p := net.wire[at];
        if p.to < |net.nodes| then
          var (n, out) := HandleMessage(h, net.nodes[p.to], p.from, p.msg);
          Net(net.nodes[p.to := n], Remove(net.wire, at) + out, net.sent + out)
        else net.(wire := Remove(net.wire, at))
      else net
    case Lose(at) =>
      if at < |net.wire| then net.(wire := Remove(net.wire, at)) else net
  }

  function Run(h: HashFn, net: Net, actions: seq<Action>): Net {
    if actions == [] then net else Act(h, Run(h, net, actions[..|actions| - 1]), actions[|actions| - 1])
  }

  // Traffic always dies out

  function Weight(m: Message): nat {
    match m
    case ClipboardFormats(formats, _) => 1 + 2 * |formats|
    case ClipboardRequest(_) => 2
    case _ => 1
  }

  function Load(wire: seq<Packet>): nat {
    if wire == [] then 0 else Weight(wire[0].msg) + Load(wire[1..])
  }

  lemma {:induction false} LoadAppend(a: seq<Packet>, b: seq<Packet>)
    ensures Load(a + b) == Load(a) + Load(b)
  {
    if a == [] {
      assert a + b == b;
    } else {
      assert (a + b)[1..] == a[1..] + b;
      LoadAppend(a[1..], b);
    }
  }

  lemma LoadRemove(wire: seq<Packet>, at: nat)
    requires at < |wire|
    ensures Load(Remove(wire, at)) == Load(wire) - Weight(wire[at].msg)
  {
    assert wire == wire[..at] + ([wire[at]] + wire[at + 1..]);
    LoadAppend(wire[..at], [wire[at]] + wire[at + 1..]);
    LoadAppend(wire[..at], wire[at + 1..]);
    assert ([wire[at]] + wire[at + 1..])[1..] == wire[at + 1..];
  }

  /** Multiplication as repeated addition. */
  function Times(k: nat, n: nat): nat {
    if n == 0 then 0 else Times(k, n - 1) + k
  }

  lemma {:induction false} TimesMonotone(k: nat, m: nat, n: nat)
    requires m <= n
    ensures Times(k, m) <= Times(k, n)
    ensures m + 1 <= n ==> Times(k, m) + k <= Times(k, n)
  {
    if m < n {
      TimesMonotone(k, m, n - 1);
    }
  }

  lemma {:induction false} TimesThree(n: nat)
    ensures Times(3, n) == 3 * n
  {
    if n > 0 {
      TimesThree(n - 1);
    }
  }

  lemma {:induction false} LoadOfBroadcast(from: PeerId, peers: seq<PeerId>, m: Message)
    ensures Load(Broadcast(from, peers, m)) == Times(Weight(m), |peers|)
  {
    if peers != [] {
      var head := Packet(from, peers[0], m);
      assert ([head] + Broadcast(from, peers[1..], m))[1..] == Broadcast(from, peers[1..], m);
      LoadOfBroadcast(from, peers[1..], m);
    }
  }

  lemma {:induction false} LoadOfRequests(to: PeerId, from: PeerId, formats: seq<ClipboardFormat>)
    ensures Load(Requests(to, from, formats)) == 2 * |formats|
  {
    if formats != [] {
      var head := Packet(from, to, ClipboardRequest(formats[0]));
      assert ([head] + Requests(to, from, formats[1..]))[1..] == Requests(to, from, formats[1..]);
      LoadOfRequests(to, from, formats[1..]);
    }
  }

  /** How many hashes out of `hashes` the nodes have yet to record. */
  function Unrecorded(nodes: seq<Node>, hashes: set<Digest>): nat {
    if nodes == [] then 0 else |hashes - nodes[0].originators.Keys| + Unrecorded(nodes[1..], hashes)
  }

  lemma {:induction false} UnrecordedUpdate(nodes: seq<Node>, hashes: set<Digest>, i: nat, n: Node)
    requires i < |nodes|
    ensures Unrecorded(nodes[i := n], hashes) + |hashes - nodes[i].originators.Keys|
         == Unrecorded(nodes, hashes) + |hashes - n.originators.Keys|
  {
    if i > 0 {
      assert nodes[i := n][1..] == nodes[1..][i - 1 := n];
      UnrecordedUpdate(nodes[1..], hashes, i - 1, n);
    } else {
      assert nodes[0 := n][1..] == nodes[1..];
    }
  }

  predicate Transferable(f: ClipboardFormat) {
    f == PlainText || f == Png
  }

  /** Every content on a clipboard or on its way to one hashes into `hashes`. */
  ghost predicate Within(h: HashFn, net: Net, hashes: set<Digest>) {
    && (forall i :: 0 <= i < |net.nodes| ==> net.nodes[i].clip.Some? ==> h(net.nodes[i].clip.value.bytes) in hashes)
    && (forall i :: 0 <= i < |net.wire| ==>
          net.wire[i].msg.ClipboardData? && Transferable(net.wire[i].msg.payload.format) ==>
            h(net.wire[i].msg.payload.bytes) in hashes)
  }

  /** At most `degree` peers at a time, and copied contents out of a finite set. */
  ghost predicate Allowed(h: HashFn, a: Action, hashes: set<Digest>, degree: nat) {
    && (a.PollNode? ==> |a.peers| <= degree)
    && (a.Copy? ==> h(a.content.bytes) in hashes)
  }

  function Measure(net: Net, hashes: set<Digest>, degree: nat): nat {
    Times(3 * degree + 1, Unrecorded(net.nodes, hashes)) + Load(net.wire)
  }

  /** The actions that put messages on the wire or take one off it. */
  predicate IsTraffic(h: HashFn, net: Net, a: Action) {
    match a
    case Copy(_, _) => false
    case PollNode(who, peers) =>
      who < |net.nodes| && Poll(h, net.nodes[who], peers).0.originators != net.nodes[who].originators
    case Deliver(at) => at < |net.wire|
    case Lose(at) => at < |net.wire|
  }

  function Traffic(h: HashFn, net: Net, actions: seq<Action>): nat {
    if actions == [] then 0
    else
      var front := actions[..|actions| - 1];
      Traffic(h, net, front) + if IsTraffic(h, Run(h, net, front), actions[|actions| - 1]) then 1 else 0
  }

  lemma MoreRecorded(nodes: seq<Node>, hashes: set<Digest>, i: nat, n: Node)
    requires i < |nodes| && nodes[i].originators.Keys <= n.originators.Keys
    ensures Unrecorded(nodes[i := n], hashes) <= Unrecorded(nodes, hashes)
    ensures (exists d :: d in hashes && d in n.originators && d !in nodes[i].originators) ==>
              Unrecorded(nodes[i := n], hashes) + 1 <= Unrecorded(nodes, hashes)
  {
    UnrecordedUpdate(nodes, hashes, i, n);
    var before, after := hashes - nodes[i].originators.Keys, hashes - n.originators.Keys;
    assert after <= before;
    Smaller(after, before);
    if d :| d in hashes && d in n.originators && d !in nodes[i].originators {
      Smaller(after, before - {d});
    }
  }

  lemma Smaller<T>(a: set<T>, b: set<T>)
    requires a <= b
    ensures |a| <= |b|
  {
    assert b == a + (b - a);
  }

  /** A poll either records nothing and sends nothing, or records what the clipboard shows and sends one
      advertisement of weight 3 to each peer. */
  lemma PollEffect(h: HashFn, n: Node, peers: seq<PeerId>, hashes: set<Digest>)
    requires n.clip.Some? ==> h(n.clip.value.bytes) in hashes
    ensures var (n', out) := Poll(h, n, peers);
            && n'.clip == n.clip && n.originators.Keys <= n'.originators.Keys
            && (n'.originators == n.originators ==> out == [])
            && (n'.originators != n.originators ==>
                  && Load(out) == 3 * |peers|
                  && exists d :: d in hashes && d in n'.originators && d !in n.originators)
            && forall p :: p in out ==> p.msg.ClipboardFormats?
  {
    var (n', out) := Poll(h, n, peers);
    if n'.originators != n.originators {
      var view := PollView(n.clip).value;
      var m := ClipboardFormats([view.format], h(view.bytes));
      LoadOfBroadcast(n.id, peers, m);
      TimesThree(|peers|);
      BroadcastShape(n.id, peers, m);
      assert h(view.bytes) in n'.originators && h(view.bytes) !in n.originators;
    }
  }

  /** Handling a message sends less than it takes off the wire. */
  lemma HandleEffect(h: HashFn, n: Node, from: PeerId, m: Message, hashes: set<Digest>)
    requires n.clip.Some? ==> h(n.clip.value.bytes) in hashes
    requires m.ClipboardData? && Transferable(m.payload.format) ==> h(m.payload.bytes) in hashes
    ensures var (n', out) := HandleMessage(h, n, from, m);
            && (n'.clip.Some? ==> h(n'.clip.value.bytes) in hashes)
            && n.originators.Keys <= n'.originators.Keys
            && Load(out) < Weight(m)
            && (forall p :: p in out ==> p.msg.ClipboardData? && Transferable(p.msg.payload.format) ==>
                  h(p.msg.payload.bytes) in hashes)
  {
    var (n', out) := HandleMessage(h, n, from, m);
    if m.ClipboardFormats? {
      LoadOfRequests(from, n.id, m.formats);
      RequestsOnly(from, n.id, m.formats);
    } else if out != [] {
      assert out[1..] == [];
    }
  }

  lemma {:induction false} RequestsOnly(to: PeerId, from: PeerId, formats: seq<ClipboardFormat>)
    ensures forall p :: p in Requests(to, from, formats) ==> p.msg.ClipboardRequest?
  {
    if formats != [] {
      RequestsOnly(to, from, formats[1..]);
    }
  }

  lemma MeasureStays(net: Net, next: Net, hashes: set<Digest>, degree: nat)
    requires Unrecorded(next.nodes, hashes) <= Unrecorded(net.nodes, hashes)
    ensures Load(next.wire) <= Load(net.wire) ==> Measure(next, hashes, degree) <= Measure(net, hashes, degree)
    ensures Load(next.wire) < Load(net.wire) ==> Measure(next, hashes, degree) < Measure(net, hashes, degree)
  {
    TimesMonotone(3 * degree + 1, Unrecorded(next.nodes, hashes), Unrecorded(net.nodes, hashes));
  }

  lemma MeasureDrops(net: Net, next: Net, hashes: set<Digest>, degree: nat)
    requires Unrecorded(next.nodes, hashes) + 1 <= Unrecorded(net.nodes, hashes)
    requires Load(next.wire) <= Load(net.wire) + 3 * degree
    ensures Measure(next, hashes, degree) < Measure(net, hashes, degree)
  {
    TimesMonotone(3 * degree + 1, Unrecorded(next.nodes, hashes), Unrecorded(net.nodes, hashes));
  }

  lemma PollFalls(h: HashFn, net: Net, who: nat, peers: seq<PeerId>, hashes: set<Digest>, degree: nat)
    requires who < |net.nodes| && |peers| <= degree
    requires net.nodes[who].clip.Some? ==> h(net.nodes[who].clip.value.bytes) in hashes
    ensures var next := Measure(Act(h, net, PollNode(who, peers)), hashes, degree);
            if IsTraffic(h, net, PollNode(who, peers)) then next < Measure(net, hashes, degree)
            else next <= Measure(net, hashes, degree)
  {
    PollLoads(h, net, who, peers, hashes);
    if IsTraffic(h, net, PollNode(who, peers)) {
      MeasureDrops(net, Act(h, net, PollNode(who, peers)), hashes, degree);
    } else {
      MeasureStays(net, Act(h, net, PollNode(who, peers)), hashes, degree);
    }
  }

  lemma PollLoads(h: HashFn, net: Net, who: nat, peers: seq<PeerId>, hashes: set<Digest>)
    requires who < |net.nodes|
    requires net.nodes[who].clip.Some? ==> h(net.nodes[who].clip.value.bytes) in hashes
    ensures var next := Act(h, net, PollNode(who, peers));
            if IsTraffic(h, net, PollNode(who, peers)) then
              Unrecorded(next.nodes, hashes) + 1 <= Unrecorded(net.nodes, hashes) && Load(next.wire) == Load(net.wire) + 3 * |peers|
            else
              Unrecorded(next.nodes, hashes) <= Unrecorded(net.nodes, hashes) && Load(next.wire) == Load(net.wire)
  {
    var (n', out) := Poll(h, net.nodes[who], peers);
    PollEffect(h, net.nodes[who], peers, hashes);
    LoadAppend(net.wire, out);
    MoreRecorded(net.nodes, hashes, who, n');
  }

  lemma DeliverFalls(h: HashFn, net: Net, at: nat, hashes: set<Digest>, degree: nat)
    requires at < |net.wire| && Within(h, net, hashes)
    ensures Measure(Act(h, net, Deliver(at)), hashes, degree) < Measure(net, hashes, degree)
  {
    var p := net.wire[at];
    var next := Act(h, net, Deliver(at));
    LoadRemove(net.wire, at);
    if p.to < |net.nodes| {
      var (n', out) := HandleMessage(h, net.nodes[p.to], p.from, p.msg);
      HandleEffect(h, net.nodes[p.to], p.from, p.msg, hashes);
      LoadAppend(Remove(net.wire, at), out);
      MoreRecorded(net.nodes, hashes, p.to, n');
    }
    MeasureStays(net, next, hashes, degree);
  }

  lemma StaysWithin(h: HashFn, net: Net, a: Action, hashes: set<Digest>)
    requires Within(h, net, hashes) && (a.Copy? ==> h(a.content.bytes) in hashes)
    ensures Within(h, Act(h, net, a), hashes)
  {
    match a
    case Copy(who, content) =>
    case PollNode(who, peers) =>
      if who < |net.nodes| {
        PollEffect(h, net.nodes[who], peers, hashes);
      }
    case Deliver(at) =>
      if at < |net.wire| && net.wire[at].to < |net.nodes| {
        var p := net.wire[at];
        HandleEffect(h, net.nodes[p.to], p.from, p.msg, hashes);
      }
    case Lose(at) =>
  }

  /** One action never raises the measure, and every send or delivery lowers it. */
  lemma MeasureFalls(h: HashFn, net: Net, a: Action, hashes: set<Digest>, degree: nat)
    requires Within(h, net, hashes) && Allowed(h, a, hashes, degree)
    ensures Within(h, Act(h, net, a), hashes)
    ensures Measure(Act(h, net, a), hashes, degree) + (if IsTraffic(h, net, a) then 1 else 0)
         <= Measure(net, hashes, degree)
  {
    StaysWithin(h, net, a, hashes);
    match a
    case Copy(who, content) => CopyKeeps(h, net, who, content, hashes, degree);
    case PollNode(who, peers) =>
      if who < |net.nodes| {
        PollFalls(h, net, who, peers, hashes, degree);
      }
    case Deliver(at) =>
      if at < |net.wire| {
        DeliverFalls(h, net, at, hashes, degree);
      }
    case Lose(at) => LoseFalls(h, net, at, hashes, degree);
  }

  lemma SameRecorded(nodes: seq<Node>, hashes: set<Digest>, i: nat, n: Node)
    requires i < |nodes| && n.originators == nodes[i].originators
    ensures Unrecorded(nodes[i := n], hashes) == Unrecorded(nodes, hashes)
  {
    UnrecordedUpdate(nodes, hashes, i, n);
  }

  lemma CopyKeeps(h: HashFn, net: Net, who: nat, content: Content, hashes: set<Digest>, degree: nat)
    ensures Measure(Act(h, net, Copy(who, content)), hashes, degree) == Measure(net, hashes, degree)
  {
    if who < |net.nodes| {
      SameRecorded(net.nodes, hashes, who, net.nodes[who].(clip := Some(content)));
    }
  }

  lemma LoseFalls(h: HashFn, net: Net, at: nat, hashes: set<Digest>, degree: nat)
    ensures Measure(Act(h, net, Lose(at)), hashes, degree) + (if at < |net.wire| then 1 else 0)
         <= Measure(net, hashes, degree)
  {
    if at < |net.wire| {
      LoadRemove(net.wire, at);
    }
  }

  /** However polls, copies out of a finite set, deliveries and losses interleave, on any topology of
      bounded degree: the number of sends and deliveries never exceeds the initial measure. */
  lemma {:induction false} TrafficDiesOut(h: HashFn, net: Net, actions: seq<Action>, hashes: set<Digest>, degree: nat)
    requires Within(h, net, hashes)
    requires forall i :: 0 <= i < |actions| ==> Allowed(h, actions[i], hashes, degree)
    ensures Within(h, Run(h, net, actions), hashes)
    ensures Traffic(h, net, actions) + Measure(Run(h, net, actions), hashes, degree) <= Measure(net, hashes, degree)
  {
    if actions == [] {
    } else {
      var front := actions[..|actions| - 1];
      TrafficDiesOut(h, net, front, hashes, degree);
      MeasureFalls(h, Run(h, net, front), actions[|actions| - 1], hashes, degree);
    }
  }

  // No echo

  /** The advertisements of a run: who announced which hash. */
  function Adverts(h: HashFn, net: Net, actions: seq<Action>): seq<(nat, Digest)> {
    if actions == [] then []
    else
      var front, a := actions[..|actions| - 1], actions[|actions| - 1];
      Adverts(h, net, front) + Advert(h, Run(h, net, front), a)
  }

  /** What one action announces, read off the messages it puts on the wire. */
  function Advert(h: HashFn, net: Net, a: Action): seq<(nat, Digest)> {
    if a.PollNode? && a.who < |net.nodes| then
      var out := Poll(h, net.nodes[a.who], a.peers).1;
      if out != [] && out[0].msg.ClipboardFormats? then [(a.who, out[0].msg.hash)] else []
    else []
  }

  lemma ActKeepsRecords(h: HashFn, net: Net, a: Action, i: nat)
    requires i < |net.nodes|
    ensures |Act(h, net, a).nodes| == |net.nodes|
    ensures net.nodes[i].originators.Keys <= Act(h, net, a).nodes[i].originators.Keys
    ensures forall d :: (i, d) in Advert(h, net, a) ==>
              d !in net.nodes[i].originators && d in Act(h, net, a).nodes[i].originators
  {
    if a.PollNode? && a.who < |net.nodes| {
      var view := PollView(net.nodes[a.who].clip);
      if view.Some? {
        BroadcastShape(net.nodes[a.who].id, a.peers, ClipboardFormats([view.value.format], h(view.value.bytes)));
      }
    }
  }

  lemma {:induction false} RunKeepsRecords(h: HashFn, net: Net, actions: seq<Action>, i: nat)
    requires i < |net.nodes|
    ensures |Run(h, net, actions).nodes| == |net.nodes|
    ensures net.nodes[i].originators.Keys <= Run(h, net, actions).nodes[i].originators.Keys
  {
    if actions != [] {
      RunKeepsRecords(h, net, actions[..|actions| - 1], i);
      ActKeepsRecords(h, Run(h, net, actions[..|actions| - 1]), actions[|actions| - 1], i);
    }
  }

  /** No node announces a hash twice, nor one it has ever recorded: its own, or one it met in handled
      Formats or Data (`HandlingRecords`). */
  lemma {:induction false} NoEcho(h: HashFn, net: Net, actions: seq<Action>, i: nat, d: Digest)
    requires i < |net.nodes|
    ensures d in net.nodes[i].originators ==> (i, d) !in Adverts(h, net, actions)
    ensures multiset(Adverts(h, net, actions))[(i, d)] <= 1
    ensures |Run(h, net, actions).nodes| == |net.nodes|
    ensures (i, d) in Adverts(h, net, actions) ==> d in Run(h, net, actions).nodes[i].originators
  {
    if actions == [] {
    } else {
      var front, a := actions[..|actions| - 1], actions[|actions| - 1];
      NoEcho(h, net, front, i, d);
      RunKeepsRecords(h, net, front, i);
      var m := Run(h, net, front);
      ActKeepsRecords(h, m, a, i);
      assert |Advert(h, m, a)| <= 1;
      if Advert(h, m, a) != [] {
        assert Advert(h, m, a) == [Advert(h, m, a)[0]];
      }
    }
  }

  /** After a node has handled an announcement or the data of a hash it never announces that hash. */
  lemma NoEchoAfterHandling(h: HashFn, net: Net, at: nat, after: seq<Action>, d: Digest)
    requires at < |net.wire| && net.wire[at].to < |net.nodes|
    requires var m := net.wire[at].msg;
             (m.ClipboardFormats? && m.formats != [] && m.hash == d) || (m.ClipboardData? && m.payload.hash == d)
    ensures (net.wire[at].to, d) !in Adverts(h, Act(h, net, Deliver(at)), after)
  {
    var p := net.wire[at];
    var next := Act(h, net, Deliver(at));
    assert next.nodes[p.to] == HandleMessage(h, net.nodes[p.to], p.from, p.msg).0;
    NoEcho(h, next, after, p.to, d);
  }

  ghost predicate AllRecorded(net: Net) {
    forall i :: 0 <= i < |net.nodes| ==> Recorded(net.nodes[i])
  }

  /** In every run each node's remembered last hash is a recorded one. */
  lemma {:induction false} LastHashIsRecorded(h: HashFn, net: Net, actions: seq<Action>)
    requires AllRecorded(net)
    ensures AllRecorded(Run(h, net, actions))
  {
    if actions != [] {
      LastHashIsRecorded(h, net, actions[..|actions| - 1]);
    }
  }
}
