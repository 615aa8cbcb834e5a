/** The modifier flags a ScreenEnter carries, read off the history of hook events. */
module EnterFlags {
  import opened Wrappers
  import Seqs
  import opened Input
  import opened Protocol
  import opened Edge
  import opened Server
  import opened Injector
  import opened Session
  import opened Capture
  import opened Passes

  function At(g: Rig, ts: seq<Turn>): Pipeline {
    AdvanceAll(g, START, ts)
  }

  // Which events the session has taken

  /** The turns whose hook event passed the gate. */
  function Passed(g: Rig, ts: seq<Turn>): seq<nat> {
    if ts == [] then []
    else
      var front, t := ts[..|ts| - 1], ts[|ts| - 1];
      Passed(g, front) + if Goes(At(g, front), t) then [|front|] else []
  }

  /** How many of them the session has taken off the channel. */
  function TakenCount(g: Rig, ts: seq<Turn>): nat {
    if ts == [] then 0
    else
      var front, t := ts[..|ts| - 1], ts[|ts| - 1];
      TakenCount(g, front) + if Takes(At(g, front), t) then 1 else 0
  }

  /** The modifiers tracked when the hook event of turn i had been seen. */
  function TrackedAt(ts: seq<Turn>, i: nat): ModifierState
    requires i < |ts|
  {
    TrackAll({}, Hooked(ts[..i + 1]))
  }

  lemma TrackedBefore(front: seq<Turn>, t: Turn, i: nat)
    requires i < |front|
    ensures TrackedAt(front + [t], i) == TrackedAt(front, i)
  {
    assert (front + [t])[..i + 1] == front[..i + 1];
  }

  function EventOf(g: Rig, ts: seq<Turn>, i: nat): InputEvent
    requires i < |ts| && ts[i].Hook?
  {
    Translate(g.keymap, TrackedAt(ts, i), ts[i].raw)
  }

  predicate Hooks(ts: seq<Turn>, turns: seq<nat>) {
    forall k :: 0 <= k < |turns| ==> turns[k] < |ts| && ts[turns[k]].Hook?
  }

  /** The channel holds the events that passed the gate from the n-th on, each with the modifiers tracked
      when its hook event came. */
  predicate Queued(g: Rig, ts: seq<Turn>, passed: seq<nat>, n: nat, channel: seq<InputEvent>) {
    && Hooks(ts, passed) && n <= |passed| && |channel| == |passed| - n
    && forall k :: 0 <= k < |channel| ==> channel[k] == EventOf(g, ts, passed[n + k])
  }

  lemma QueuedLater(g: Rig, front: seq<Turn>, t: Turn, passed: seq<nat>, n: nat, channel: seq<InputEvent>)
    requires Queued(g, front, passed, n, channel)
    ensures Queued(g, front + [t], passed, n, channel)
    ensures channel != [] ==> Queued(g, front + [t], passed, n + 1, channel[1..])
  {
    forall k | 0 <= k < |channel| ensures channel[k] == EventOf(g, front + [t], passed[n + k]) {
      TrackedBefore(front, t, passed[n + k]);
    }
  }

  lemma QueuedMore(g: Rig, front: seq<Turn>, t: Turn, passed: seq<nat>, n: nat, channel: seq<InputEvent>)
    requires Queued(g, front, passed, n, channel) && t.Hook?
    ensures Queued(g, front + [t], passed + [|front|], n, channel + [EventOf(g, front + [t], |front|)])
  {
    QueuedLater(g, front, t, passed, n, channel);
  }

  function NextChannel(g: Rig, l: Pipeline, t: Turn): seq<InputEvent> {
    if Goes(l, t) then l.channel + [Translate(g.keymap, Track(l.mods, t.raw), t.raw)]
    else if Takes(l, t) then l.channel[1..]
    else l.channel
  }

  lemma TurnChannel(g: Rig, l: Pipeline, t: Turn)
    ensures Advance(g, l, t).channel == NextChannel(g, l, t)
  {
    Seqs.Nothing(l.channel);
  }

  lemma TurnHistory(g: Rig, ts: seq<Turn>)
    requires ts != []
    ensures var front, t := ts[..|ts| - 1], ts[|ts| - 1];
            var m := At(g, front);
            && Passed(g, ts) == (if Goes(m, t) then Passed(g, front) + [|front|] else Passed(g, front))
            && TakenCount(g, ts) == (if Takes(m, t) then TakenCount(g, front) + 1 else TakenCount(g, front))
            && At(g, ts).channel == NextChannel(g, m, t)
            && m.mods == TrackAll({}, Hooked(front))
  {
    var front := ts[..|ts| - 1];
    Seqs.Nothing(Passed(g, front));
    TurnChannel(g, At(g, front), ts[|ts| - 1]);
    PipelineTracks(g, START, front);
  }

  lemma {:induction false} ChannelHistory(g: Rig, ts: seq<Turn>)
    ensures Queued(g, ts, Passed(g, ts), TakenCount(g, ts), At(g, ts).channel)
  {
    if ts == [] {
    } else {
      var front, t := ts[..|ts| - 1], ts[|ts| - 1];
      ChannelHistory(g, front);
      TurnHistory(g, ts);
      QueuedTurn(g, ts, front, t, At(g, front), Passed(g, front), TakenCount(g, front),
                 Passed(g, ts), TakenCount(g, ts), At(g, ts).channel);
    }
  }

  lemma QueuedTurn(g: Rig, ts: seq<Turn>, front: seq<Turn>, t: Turn, l: Pipeline, passed: seq<nat>, n: nat,
                   passed': seq<nat>, n': nat, channel': seq<InputEvent>)
    requires ts != [] && front == ts[..|ts| - 1] && t == ts[|ts| - 1]
    requires l.mods == TrackAll({}, Hooked(front)) && Queued(g, front, passed, n, l.channel)
    requires passed' == if Goes(l, t) then passed + [|front|] else passed
    requires n' == if Takes(l, t) then n + 1 else n
    requires channel' == NextChannel(g, l, t)
    ensures Queued(g, ts, passed', n', channel')
  {
    assert ts == front + [t];
    if Goes(l, t) {
      GoneTurn(g, front, t, l, passed, n);
      assert passed' == passed + [|front|] && n' == n;
    } else {
      QueuedLater(g, front, t, passed, n, l.channel);
      assert passed' == passed;
      assert channel' == if Takes(l, t) then l.channel[1..] else l.channel;
    }
  }

  lemma GoneTurn(g: Rig, front: seq<Turn>, t: Turn, l: Pipeline, passed: seq<nat>, n: nat)
    requires l.mods == TrackAll({}, Hooked(front)) && Queued(g, front, passed, n, l.channel) && Goes(l, t)
    ensures Queued(g, front + [t], passed + [|front|], n, NextChannel(g, l, t))
  {
    HookEvent(g, front, t);
    QueuedMore(g, front, t, passed, n, l.channel);
    assert NextChannel(g, l, t) == l.channel + [EventOf(g, front + [t], |front|)];
  }

  lemma HookEvent(g: Rig, front: seq<Turn>, t: Turn)
    requires t.Hook?
    ensures |front + [t]| == |front| + 1 && (front + [t])[|front|] == t
    ensures EventOf(g, front + [t], |front|) == Translate(g.keymap, Track(TrackAll({}, Hooked(front)), t.raw), t.raw)
  {
    HookTracked(front, t);
    Seqs.Pushed(front, t);
  }

  lemma HookTracked(front: seq<Turn>, t: Turn)
    requires t.Hook?
    ensures TrackedAt(front + [t], |front|) == Track(TrackAll({}, Hooked(front)), t.raw)
  {
    var all := front + [t];
    Seqs.Pushed(front, t);
    assert all[..|front| + 1] == all;
    HookedPush(front, t);
    TrackPush(Hooked(front), t.raw);
  }

  lemma HookedPush(front: seq<Turn>, t: Turn)
    ensures Hooked(front + [t]) == Hooked(front) + if t.Hook? then [t.raw] else []
  {
    Seqs.Pushed(front, t);
  }

  lemma TrackPush(raws: seq<RawEvent>, r: RawEvent)
    ensures TrackAll({}, raws + [r]) == Track(TrackAll({}, raws), r)
  {
    Seqs.Pushed(raws, r);
  }

  /** The last key event among those taken that is not the emergency chord. */
  function LastKey(g: Rig, ts: seq<Turn>, taken: seq<nat>): Option<nat>
    requires Hooks(ts, taken)
  {
    if taken == [] then None
    else
      var i := taken[|taken| - 1];
      var ev := EventOf(g, ts, i);
      if ev.Key? && !PressesChord(ev) then Some(i) else LastKey(g, ts, taken[..|taken| - 1])
  }

  lemma {:induction false} LastKeyOf(g: Rig, ts: seq<Turn>, t: Turn, taken: seq<nat>)
    requires Hooks(ts, taken)
    ensures Hooks(ts + [t], taken) && LastKey(g, ts + [t], taken) == LastKey(g, ts, taken)
    ensures LastKey(g, ts, taken).Some? ==> LastKey(g, ts, taken).value < |ts|
  {
    if taken != [] {
      TrackedBefore(ts, t, taken[|taken| - 1]);
      LastKeyOf(g, ts, t, taken[..|taken| - 1]);
    }
  }

  /** The turns whose events the session has taken. */
  function Taken(g: Rig, ts: seq<Turn>): (taken: seq<nat>)
    ensures Hooks(ts, taken)
  {
    ChannelHistory(g, ts);
    Passed(g, ts)[..TakenCount(g, ts)]
  }

  /** The turn of the key event the edge detector took last. */
  function LastSeen(g: Rig, ts: seq<Turn>): (last: Option<nat>)
    ensures last.Some? ==> last.value < |ts|
  {
    LastKeyOf(g, ts, Take, Taken(g, ts));
    LastKey(g, ts, Taken(g, ts))
  }

  /** The modifiers a key event came with, none if there is none. */
  function FlagsOf(ts: seq<Turn>, last: Option<nat>): ModifierState
    requires last.Some? ==> last.value < |ts|
  {
    if last.None? then {} else TrackedAt(ts, last.value)
  }

  function SeenFlags(g: Rig, ts: seq<Turn>): ModifierState {
    FlagsOf(ts, LastSeen(g, ts))
  }

  lemma TakenStep(g: Rig, ts: seq<Turn>)
    requires ts != []
    ensures var front, t := ts[..|ts| - 1], ts[|ts| - 1];
            if Takes(At(g, front), t) then
              && TakenCount(g, front) < |Passed(g, front)|
              && Taken(g, ts) == Taken(g, front) + [Passed(g, front)[TakenCount(g, front)]]
              && At(g, front).channel[0] == EventOf(g, front, Passed(g, front)[TakenCount(g, front)])
            else
              Taken(g, ts) == Taken(g, front)
  {
    var front, t := ts[..|ts| - 1], ts[|ts| - 1];
    ChannelHistory(g, front);
    TakenTurn(g, ts, front, t, At(g, front));
  }

  lemma TakenTurn(g: Rig, ts: seq<Turn>, front: seq<Turn>, t: Turn, m: Pipeline)
    requires ts != [] && front == ts[..|ts| - 1] && t == ts[|ts| - 1] && m == At(g, front)
    requires Queued(g, front, Passed(g, front), TakenCount(g, front), m.channel)
    ensures Taken(g, ts)
         == if Takes(m, t) then Taken(g, front) + [Passed(g, front)[TakenCount(g, front)]] else Taken(g, front)
  {
    var more := if Goes(m, t) then [|front|] else [];
    assert Passed(g, ts) == Passed(g, front) + more;
    Seqs.TakeMore(Passed(g, front), more, TakenCount(g, front));
  }

  /** The flags the detector would hold if it knew of the next event. */
  function FlagsAfter(flags: ModifierState, ev: InputEvent): ModifierState {
    if ev.Key? && !PressesChord(ev) then ev.key.modifiers else flags
  }

  lemma LastKeyPush(g: Rig, ts: seq<Turn>, taken: seq<nat>, i: nat)
    requires Hooks(ts, taken) && i < |ts| && ts[i].Hook?
    ensures Hooks(ts, taken + [i])
    ensures var ev := EventOf(g, ts, i);
            LastKey(g, ts, taken + [i]) == if ev.Key? && !PressesChord(ev) then Some(i) else LastKey(g, ts, taken)
  {
    Seqs.Pushed(taken, i);
  }

  lemma FlagsKept(g: Rig, ts: seq<Turn>, t: Turn, taken: seq<nat>)
    requires Hooks(ts, taken)
    ensures Hooks(ts + [t], taken)
    ensures var last := LastKey(g, ts, taken);
            && LastKey(g, ts + [t], taken) == last && (last.Some? ==> last.value < |ts|)
            && FlagsOf(ts + [t], last) == FlagsOf(ts, last)
  {
    LastKeyOf(g, ts, t, taken);
    var last := LastKey(g, ts, taken);
    if last.Some? {
      TrackedBefore(ts, t, last.value);
    }
  }

  lemma FlagsPush(g: Rig, ts: seq<Turn>, t: Turn, taken: seq<nat>, i: nat)
    requires Hooks(ts, taken) && i < |ts| && ts[i].Hook?
    ensures Hooks(ts + [t], taken) && Hooks(ts + [t], taken + [i])
    ensures var before, after := LastKey(g, ts, taken), LastKey(g, ts + [t], taken + [i]);
            && (before.Some? ==> before.value < |ts|) && (after.Some? ==> after.value < |ts|)
            && FlagsOf(ts + [t], after) == FlagsAfter(FlagsOf(ts, before), EventOf(g, ts, i))
  {
    FlagsKept(g, ts, t, taken);
    TrackedBefore(ts, t, i);
    LastKeyPush(g, ts + [t], taken, i);
  }

  lemma SeenFlagsStep(g: Rig, ts: seq<Turn>)
    requires ts != []
    ensures var front, t := ts[..|ts| - 1], ts[|ts| - 1];
            var channel := At(g, front).channel;
            SeenFlags(g, ts) == if Takes(At(g, front), t) then FlagsAfter(SeenFlags(g, front), channel[0]) else SeenFlags(g, front)
  {
    var front, t := ts[..|ts| - 1], ts[|ts| - 1];
    assert ts == front + [t];
    TakenStep(g, ts);
    if Takes(At(g, front), t) {
      ChannelHistory(g, front);
      FlagsPush(g, front, t, Taken(g, front), Passed(g, front)[TakenCount(g, front)]);
    } else {
      LastKeyOf(g, front, t, Taken(g, front));
      if LastSeen(g, front).Some? {
        TrackedBefore(front, t, LastSeen(g, front).value);
      }
    }
  }

  lemma BeginModifiers(cfg: Screen, s: ServerState, ev: InputEvent)
    requires !ev.SyncEvent?
    ensures Begin(cfg, s, ev).0.edge.modifiers == FlagsAfter(s.edge.modifiers, ev)
  {
  }

  lemma TurnModifiers(g: Rig, l: Pipeline, t: Turn)
    requires Takes(l, t) ==> !l.channel[0].SyncEvent?
    ensures Advance(g, l, t).server.edge.modifiers
         == if Takes(l, t) then FlagsAfter(l.server.edge.modifiers, l.channel[0]) else l.server.edge.modifiers
  {
    if Takes(l, t) {
      BeginModifiers(g.cfg, l.server, l.channel[0]);
    } else if t.Work? && l.todo != [] {
      PerformKeepsEdge(l.server, l.todo[0]);
    }
  }

  /** In every run the detector's flags are those of the last key event it took, as they were tracked when
      that key was hooked. The emergency chord does not count. */
  lemma {:induction false} DetectorHoldsSeenFlags(g: Rig, ts: seq<Turn>)
    ensures At(g, ts).server.edge.modifiers == SeenFlags(g, ts)
  {
    if ts == [] {
    } else {
      var front, t := ts[..|ts| - 1], ts[|ts| - 1];
      DetectorHoldsSeenFlags(g, front);
      SeenFlagsStep(g, ts);
      TakenStep(g, ts);
      TurnModifiers(g, At(g, front), t);
    }
  }

  /** A key event goes on to the session only if it is hooked while capture is on, and capture is on only
      while the route is remote or inside a leave that has yet to switch it off. */
  lemma {:induction false} LocalKeysAreNotSeen(g: Rig, ts: seq<Turn>, k: nat)
    requires k < |Passed(g, ts)|
    ensures var i := Passed(g, ts)[k];
            && i < |ts| && ts[i].Hook?
            && (IsKey(ts[i].raw) ==>
                  var l := At(g, ts[..i]);
                  l.server.capturing && (l.server.edge.route.Remote? || Switch(false) in l.todo))
  {
    var front, t := ts[..|ts| - 1], ts[|ts| - 1];
    if k < |Passed(g, front)| {
      LocalKeysAreNotSeen(g, front, k);
      assert front[..Passed(g, front)[k]] == ts[..Passed(g, front)[k]];
    } else {
      CaptureOutsideRoute(g, front);
    }
  }

  lemma LeaveBegins(g: Rig, l: Pipeline)
    requires MapsChord(g.keymap) && l.todo == [] && l.channel == []
    requires l.server.capturing && l.server.edge.route.Remote? && l.mods == {CTRL, ALT, SHIFT}
    ensures var m := Advance(g, Advance(g, l, Hook(KeyDown(0x1B))), Take);
            && m.channel == [] && m.mods == l.mods
            && m.server.edge.route.Local? && m.server.edge.modifiers == l.server.edge.modifiers
            && m.server.capturing && m.server.peers == l.server.peers
            && |m.todo| == 2 && m.todo[0].Pick? && m.todo[1] == Switch(false)
  {
    var escape := Translate(g.keymap, l.mods, KeyDown(0x1B));
    assert Track(l.mods, KeyDown(0x1B)) == l.mods;
    Seqs.Nothing([escape]);
    assert [escape][1..] == [];
  }

  lemma LeaveEnds(g: Rig, m: Pipeline)
    requires |m.todo| == 2 && m.todo[0].Pick? && m.todo[1] == Switch(false) && m.server.peers == []
    ensures Advance(g, Advance(g, m, Work), Work) == m.(server := m.server.(capturing := false), todo := [])
  {
    var l1 := Advance(g, m, Work);
    assert m.todo[1..] == [Switch(false)];
    Seqs.Nothing([Switch(false)]);
    assert l1 == m.(todo := [Switch(false)]) && l1.todo[1..] == [];
  }

  lemma KeyUpIsTaken(g: Rig, m: Pipeline, up: InputEvent)
    requires m.todo == [] && m.channel == [up] && up.Key? && !PressesChord(up)
    requires m.server.edge.route.Local? && !m.server.capturing
    ensures var z := Advance(g, m, Take);
            z.server.edge.route.Local? && !z.server.capturing && z.server.edge.modifiers == up.key.modifiers
  {
    BeginModifiers(g.cfg, m.server, up);
    ObserveRoute(g.cfg, m.server.edge, up);
  }

  /** Such a leave is real: the detector's flags can change while the route is local. A key-up of Ctrl that is
      hooked between the route change of the emergency chord and the switch of capture is taken after it. */
  lemma LeaveLetsKeysThrough(g: Rig, l: Pipeline)
    requires MapsChord(g.keymap) && l.todo == [] && l.channel == []
    requires l.server.capturing && l.server.edge.route.Remote? && l.server.peers == []
    requires l.mods == {CTRL, ALT, SHIFT} == l.server.edge.modifiers
    ensures var left := Advance(g, Advance(g, l, Hook(KeyDown(0x1B))), Take);
            var late := Advance(g, Advance(g, Advance(g, left, Hook(KeyUp(0xA2))), Work), Work);
            var z := Advance(g, late, Take);
            && left.server.edge.route.Local? && left.server.edge.modifiers == {CTRL, ALT, SHIFT}
            && z.server.edge.route.Local? && !z.server.capturing && z.server.edge.modifiers == {ALT, SHIFT}
  {
    LeaveBegins(g, l);
    var left := Advance(g, Advance(g, l, Hook(KeyDown(0x1B))), Take);
    var up := Translate(g.keymap, {ALT, SHIFT}, KeyUp(0xA2));
    assert UpdateModifiers({CTRL, ALT, SHIFT}, 0xA2, false) == {ALT, SHIFT};
    Seqs.Nothing([up]);
    var hooked := Advance(g, left, Hook(KeyUp(0xA2)));
    assert hooked == left.(mods := {ALT, SHIFT}, channel := [up]);
    LeaveEnds(g, hooked);
    KeyUpIsTaken(g, Advance(g, Advance(g, hooked, Work), Work), up);
  }

  // When those flags are right

  /** Some key of the flag went up or down. */
  ghost predicate Driven(raws: seq<RawEvent>, flag: Modifier) {
    exists i :: 0 <= i < |raws| && Drives(raws[i], flag)
  }

  lemma {:induction false} LatestOfBoth(a: seq<RawEvent>, b: seq<RawEvent>, flag: Modifier)
    ensures LatestIsDown(a + b, flag) <==> if Driven(b, flag) then LatestIsDown(b, flag) else LatestIsDown(a, flag)
  {
    if b == [] {
      assert a + b == a;
    } else {
      var front, r := b[..|b| - 1], b[|b| - 1];
      LatestOfBoth(a, front, flag);
      assert a + b == (a + front) + [r] && b == front + [r];
      LatestIsDownPush(a + front, r, flag);
      LatestIsDownPush(front, r, flag);
      DrivenPush(front, r, flag);
    }
  }

  lemma DrivenPush(raws: seq<RawEvent>, r: RawEvent, flag: Modifier)
    ensures Driven(raws + [r], flag) <==> Driven(raws, flag) || Drives(r, flag)
  {
    var all := raws + [r];
    assert all[|raws|] == r && forall i :: 0 <= i < |raws| ==> all[i] == raws[i];
    if i :| 0 <= i < |raws| && Drives(raws[i], flag) {
      assert Drives(all[i], flag);
    }
  }

  lemma {:induction false} HookedAppend(a: seq<Turn>, b: seq<Turn>)
    ensures Hooked(a + b) == Hooked(a) + Hooked(b)
  {
    if b == [] {
      assert a + b == a;
    } else {
      HookedAppend(a, b[..|b| - 1]);
      assert (a + b)[..|a + b| - 1] == a + b[..|b| - 1];
    }
  }

  /** The hook history up to the key event seen last, and the one after it. */
  function SeenPart(g: Rig, ts: seq<Turn>): seq<RawEvent> {
    var last := LastSeen(g, ts);
    if last.None? then [] else Hooked(ts[..last.value + 1])
  }

  function UnseenPart(g: Rig, ts: seq<Turn>): seq<RawEvent> {
    var last := LastSeen(g, ts);
    if last.None? then Hooked(ts) else Hooked(ts[last.value + 1..])
  }

  /** What happened to a flag's keys since leaves the flag as it was seen. */
  ghost predicate Unchanged(g: Rig, ts: seq<Turn>, flag: Modifier) {
    Driven(UnseenPart(g, ts), flag) ==> (LatestIsDown(UnseenPart(g, ts), flag) <==> LatestIsDown(SeenPart(g, ts), flag))
  }

  lemma FlagIsRight(g: Rig, ts: seq<Turn>, flag: Modifier)
    ensures (flag in SeenFlags(g, ts) <==> flag in At(g, ts).mods) <==> Unchanged(g, ts, flag)
  {
    PipelineTracks(g, START, ts);
    HistoryParts(g, ts);
    LatestOfBoth(SeenPart(g, ts), UnseenPart(g, ts), flag);
    TrackingReflectsHistory(Hooked(ts), flag);
    TrackingReflectsHistory(SeenPart(g, ts), flag);
  }

  lemma HistoryParts(g: Rig, ts: seq<Turn>)
    ensures Hooked(ts) == SeenPart(g, ts) + UnseenPart(g, ts)
    ensures SeenFlags(g, ts) == TrackAll({}, SeenPart(g, ts))
  {
    var last := LastSeen(g, ts);
    Seqs.Nothing(Hooked(ts));
    if last.Some? {
      assert ts == ts[..last.value + 1] + ts[last.value + 1..];
      HookedAppend(ts[..last.value + 1], ts[last.value + 1..]);
    }
  }

  /** The session takes a move that crosses. */
  predicate Enters(g: Rig, ts: seq<Turn>) {
    && ts != [] && ts[|ts| - 1] == Take
    && At(g, ts[..|ts| - 1]).server.edge.route.Local? && At(g, ts).server.edge.route.Remote?
  }

  /** The ScreenEnter that the session is about to send to whoever is the first peer then. */
  function EnterOf(l: Pipeline): Option<Message> {
    if l.todo != [] && l.todo[0].Pick? && |l.todo[0].msgs| == 1 then Some(l.todo[0].msgs[0]) else None
  }

  lemma BeginEnters(cfg: Screen, s: ServerState, ev: InputEvent)
    requires s.edge.route.Local? && Begin(cfg, s, ev).0.edge.route.Remote?
    ensures ev.Mouse? && ev.mouse.Move? && !IsEmergency(ev)
    ensures var todo := Begin(cfg, s, ev).1;
            exists entry: Point :: todo[..1] == [Pick([ScreenEnter(entry.x, entry.y, s.edge.modifiers)])]
  {
    ObserveRoute(cfg, s.edge, ev);
    var (e, d, f) := Observe(cfg, s.edge, ev);
    assert Begin(cfg, s, ev).1[..1] == [Pick([ScreenEnter(d.entry.x, d.entry.y, s.edge.modifiers)])];
  }

  lemma TurnEnters(g: Rig, m: Pipeline)
    requires m.server.edge.route.Local? && Advance(g, m, Take).server.edge.route.Remote?
    ensures Takes(m, Take) && m.channel[0].Mouse? && m.channel[0].mouse.Move?
    ensures var enter := EnterOf(Advance(g, m, Take));
            enter.Some? && enter.value.ScreenEnter? && enter.value.modifiers == m.server.edge.modifiers
  {
    BeginEnters(g.cfg, m.server, m.channel[0]);
    var todo := Begin(g.cfg, m.server, m.channel[0]).1;
    assert todo[..1][0] == todo[0];
  }

  /** The chore sends it: two turns of work later the first peer has been sent it. */
  lemma EnterIsSent(g: Rig, l: Pipeline)
    requires EnterOf(l).Some? && l.server.peers != []
    ensures Advance(g, Advance(g, l, Work), Work).server.sent == l.server.sent + [Sent(l.server.peers[0], EnterOf(l).value)]
  {
    var msgs := l.todo[0].msgs;
    assert msgs[1..] == [];
    var l1 := Advance(g, l, Work);
    var to := l.server.peers[0];
    Seqs.Nothing([SendTo(to, msgs[0])]);
    assert SendsTo(to, msgs) == [SendTo(to, msgs[0])] + SendsTo(to, []);
    assert l1.todo == [SendTo(to, msgs[0])] + l.todo[1..];
  }

  /** What a crossing sends, with the flags of the key event seen last; a client that handles it holds
      exactly their left-hand keys. */
  lemma EnterCarriesSeenFlags(g: Rig, ts: seq<Turn>, c: ClientState)
    requires Enters(g, ts)
    ensures EnterOf(At(g, ts)).Some?
    ensures var enter := EnterOf(At(g, ts)).value;
            && enter.ScreenEnter? && enter.modifiers == SeenFlags(g, ts)
            && HeldModifiers(Handle(c, enter)) == LeftVariants(SeenFlags(g, ts))
  {
    var front := ts[..|ts| - 1];
    TurnEnters(g, At(g, front));
    DetectorHoldsSeenFlags(g, front);
    SeenFlagsStep(g, ts);
    EnterHolds(c, EnterOf(At(g, ts)).value);
  }

  lemma LeftVariantsExactly(a: ModifierState, b: ModifierState)
    ensures LeftVariants(a) == LeftVariants(b)
       <==> forall flag :: flag in {SHIFT, CTRL, ALT, SUPER} ==> (flag in a <==> flag in b)
  {
    assert forall flag :: flag in {SHIFT, CTRL, ALT, SUPER} ==>
      (flag in a <==> LeftOf(flag) in LeftVariants(a)) && (flag in b <==> LeftOf(flag) in LeftVariants(b));
  }

  function LeftOf(flag: Modifier): int {
    if flag == SHIFT then 233 else if flag == CTRL then 232 else if flag == ALT then 234 else 235
  }

  /** The documents promise that modifiers held while crossing are held on the far side. For every run
      that ends in a crossing: the client then holds the left-hand keys of the modifiers held on the server
      exactly if, for each of the four, the key events that the detector has not seen leave it as it was. */
  lemma EnterFlagsAreRightExactly(g: Rig, ts: seq<Turn>, c: ClientState)
    requires Enters(g, ts)
    ensures EnterOf(At(g, ts)).Some?
    ensures HeldModifiers(Handle(c, EnterOf(At(g, ts)).value)) == LeftVariants(At(g, ts).mods)
       <==> forall flag :: flag in {SHIFT, CTRL, ALT, SUPER} ==> Unchanged(g, ts, flag)
  {
    EnterCarriesSeenFlags(g, ts, c);
    forall flag ensures (flag in SeenFlags(g, ts) <==> flag in At(g, ts).mods) <==> Unchanged(g, ts, flag) {
      FlagIsRight(g, ts, flag);
    }
    LeftVariantsExactly(SeenFlags(g, ts), At(g, ts).mods);
  }

  // The emergency chord

  /** The emergency chord always works. If the latest Shift, Ctrl and Alt events of the whole hook history
      are key-downs when an Escape key-down meets capture on, wherever capture was switched on before, then
      the turn in which the session takes that Escape routes to Local, and capture is off once its chores
      are done, whatever comes in between. */
  lemma EmergencyAlwaysWorks(g: Rig, ts: seq<Turn>, n: nat, escape: nat)
    requires g.keymap(VK_ESCAPE) == ESCAPE && VirtualKey(escape) == VK_ESCAPE
    requires n < |ts| && ts[n] == Hook(KeyDown(escape)) && At(g, ts[..n]).server.capturing
    requires forall flag :: flag in {SHIFT, CTRL, ALT} ==> LatestIsDown(Hooked(ts[..n]), flag)
    requires Taken(g, ts) == Taken(g, ts[..|ts| - 1]) + [n]
    ensures At(g, ts).server.edge.route.Local? && !CaptureAfter(At(g, ts).todo, At(g, ts).server.capturing)
  {
    EscapeIsTaken(g, ts, n, escape);
    ChordTurn(g, At(g, ts[..|ts| - 1]), ts[|ts| - 1]);
    CaptureSettlesWithRoute(g, START, ts);
  }

  lemma ChordTurn(g: Rig, l: Pipeline, t: Turn)
    requires Takes(l, t) && PressesChord(l.channel[0])
    ensures Advance(g, l, t).server.edge.route.Local?
  {
  }

  lemma EscapeIsTaken(g: Rig, ts: seq<Turn>, n: nat, escape: nat)
    requires g.keymap(VK_ESCAPE) == ESCAPE && VirtualKey(escape) == VK_ESCAPE
    requires n < |ts| && ts[n] == Hook(KeyDown(escape))
    requires forall flag :: flag in {SHIFT, CTRL, ALT} ==> LatestIsDown(Hooked(ts[..n]), flag)
    requires Taken(g, ts) == Taken(g, ts[..|ts| - 1]) + [n]
    ensures var l := At(g, ts[..|ts| - 1]); Takes(l, ts[|ts| - 1]) && PressesChord(l.channel[0])
  {
    var front, t := ts[..|ts| - 1], ts[|ts| - 1];
    assert ts == front + [t];
    TakenStep(g, ts);
    assert |Taken(g, ts)| == |Taken(g, front)| + 1;
    assert Taken(g, ts)[|Taken(g, front)|] == n == Passed(g, front)[TakenCount(g, front)];
    ChannelHistory(g, front);
    TrackedBefore(front, t, n);
    assert front[..n] == ts[..n];
    EscapeIsChord(g, front, n, escape);
  }

  lemma EscapeIsChord(g: Rig, ts: seq<Turn>, n: nat, escape: nat)
    requires g.keymap(VK_ESCAPE) == ESCAPE && VirtualKey(escape) == VK_ESCAPE
    requires n < |ts| && ts[n] == Hook(KeyDown(escape))
    requires forall flag :: flag in {SHIFT, CTRL, ALT} ==> LatestIsDown(Hooked(ts[..n]), flag)
    ensures PressesChord(EventOf(g, ts, n))
  {
    TrackingReflectsHistory(Hooked(ts[..n]), SHIFT);
    TrackingReflectsHistory(Hooked(ts[..n]), CTRL);
    TrackingReflectsHistory(Hooked(ts[..n]), ALT);
    HookTracked(ts[..n], ts[n]);
    assert (ts[..n] + [ts[n]])[..n + 1] == ts[..n + 1];
  }

  /** Turn n hooked the emergency chord while capture was on: a key-down of a key that means Escape, with the
      latest events of Shift, Ctrl and Alt key-downs in the whole hook history. */
  ghost predicate HooksChord(g: Rig, ts: seq<Turn>, n: nat)
    requires n < |ts|
  {
    && ts[n].Hook? && ts[n].raw.KeyDown? && g.keymap(ts[n].raw.vk % 0x1_0000) == 41
    && At(g, ts[..n]).server.capturing
    && ChordHeld(Hooked(ts[..n + 1]))
  }

  ghost predicate ChordHeld(raws: seq<RawEvent>) {
    LatestIsDown(raws, SHIFT) && LatestIsDown(raws, CTRL) && LatestIsDown(raws, ALT)
  }

  lemma ChordHeldExactly(raws: seq<RawEvent>)
    ensures ChordHeld(raws) <==> {CTRL, ALT, SHIFT} <= TrackAll({}, raws)
  {
    TrackingReflectsHistory(raws, SHIFT);
    TrackingReflectsHistory(raws, CTRL);
    TrackingReflectsHistory(raws, ALT);
  }

  /** The turn takes the event hooked at turn n. */
  predicate TakesFrom(g: Rig, ts: seq<Turn>, n: nat)
    requires ts != []
  {
    Taken(g, ts) == Taken(g, ts[..|ts| - 1]) + [n]
  }

  lemma ChordIsHooked(g: Rig, ts: seq<Turn>, n: nat)
    requires n < |ts| && ts[n].Hook? && (IsKey(ts[n].raw) ==> At(g, ts[..n]).server.capturing)
    ensures PressesChord(EventOf(g, ts, n)) <==> HooksChord(g, ts, n)
  {
    ChordHeldExactly(Hooked(ts[..n + 1]));
    assert EventOf(g, ts, n).Key? ==> EventOf(g, ts, n).key.modifiers == TrackAll({}, Hooked(ts[..n + 1]));
  }

  lemma TakesFromPassed(g: Rig, ts: seq<Turn>, n: nat)
    requires ts != [] && TakesFrom(g, ts, n)
    ensures var l := At(g, ts[..|ts| - 1]);
            && Takes(l, ts[|ts| - 1]) && n < |ts| && ts[n].Hook? && l.channel[0] == EventOf(g, ts, n)
            && (IsKey(ts[n].raw) ==> At(g, ts[..n]).server.capturing)
  {
    var front, t := ts[..|ts| - 1], ts[|ts| - 1];
    assert ts == front + [t];
    TakenStep(g, ts);
    assert |Taken(g, ts)| == |Taken(g, front)| + 1;
    assert Taken(g, ts)[|Taken(g, front)|] == n == Passed(g, front)[TakenCount(g, front)];
    ChannelHistory(g, front);
    TrackedBefore(front, t, n);
    LocalKeysAreNotSeen(g, front, TakenCount(g, front));
    assert front[..n] == ts[..n];
  }

  lemma RemoteTurn(g: Rig, l: Pipeline, t: Turn)
    requires l.server.edge.route.Remote?
    ensures Advance(g, l, t).server.edge.route.Local? <==> Takes(l, t) && PressesChord(l.channel[0])
    ensures !Advance(g, l, t).server.edge.route.Local? ==> Advance(g, l, t).server.edge.route == l.server.edge.route
  {
    match t
    case Take =>
      if Takes(l, t) {
        ObserveRoute(g.cfg, l.server.edge, l.channel[0]);
      }
    case Work =>
      if l.todo != [] {
        PerformKeepsEdge(l.server, l.todo[0]);
      }
    case _ =>
  }

  /** Nothing but the emergency chord ends a remote route, and the chord always does: a turn leads from Remote to
      Local exactly if it takes an event that hooked the chord while capture was on. */
  lemma OnlyTheChordLeaves(g: Rig, ts: seq<Turn>)
    requires ts != [] && At(g, ts[..|ts| - 1]).server.edge.route.Remote?
    ensures At(g, ts).server.edge.route.Local? <==> exists n: nat :: n < |ts| && TakesFrom(g, ts, n) && HooksChord(g, ts, n)
    ensures At(g, ts).server.edge.route.Remote? ==> At(g, ts).server.edge.route == At(g, ts[..|ts| - 1]).server.edge.route
  {
    var front, t := ts[..|ts| - 1], ts[|ts| - 1];
    RemoteTurn(g, At(g, front), t);
    TakenStep(g, ts);
    if Takes(At(g, front), t) {
      var i := Passed(g, front)[TakenCount(g, front)];
      assert TakesFrom(g, ts, i);
      TakesFromPassed(g, ts, i);
      ChordIsHooked(g, ts, i);
      forall n: nat | n < |ts| && TakesFrom(g, ts, n) ensures n == i {
        assert (Taken(g, front) + [n])[|Taken(g, front)|] == n;
      }
    } else {
      forall n: nat ensures !TakesFrom(g, ts, n) {
        assert |Taken(g, front) + [n]| == |Taken(g, front)| + 1;
      }
    }
  }

  /** Every other key that is taken while the route is remote is all that its pass has to do: whoever is the first
      peer gets it, by the meaning of its key, its state and the modifiers tracked when it was hooked. */
  lemma OtherKeysAreForwarded(g: Rig, ts: seq<Turn>, n: nat, s: ServerState)
    requires ts != [] && At(g, ts[..|ts| - 1]).server.edge.route.Remote? && TakesFrom(g, ts, n)
    requires n < |ts| && ts[n].Hook? && IsKey(ts[n].raw) && !HooksChord(g, ts, n)
    requires s.peers != []
    ensures var r := ts[n].raw;
            var key := KeyEvent(g.keymap(r.vk % 0x1_0000), if r.KeyDown? then Pressed else Released, TrackedAt(ts, n), None);
            && At(g, ts).server.edge.route == At(g, ts[..|ts| - 1]).server.edge.route
            && |At(g, ts).todo| == 1
            && Perform(s, At(g, ts).todo[0]) == (s.(sent := s.sent + [Sent(s.peers[0], KeyMessage(key))]), [])
  {
    TakesFromPassed(g, ts, n);
    ChordIsHooked(g, ts, n);
    var m, t := At(g, ts[..|ts| - 1]), ts[|ts| - 1];
    RemoteTurn(g, m, t);
    KeyOnlyPasses(g.cfg, m.server, m.channel[0]);
    PassSendsKey(s, m.channel[0]);
  }

  lemma KeyOnlyPasses(cfg: Screen, s: ServerState, ev: InputEvent)
    requires s.edge.route.Remote? && ev.Key? && !PressesChord(ev)
    ensures Begin(cfg, s, ev).1 == [Pass(ToRemote, ev)]
  {
    assert Chores(Stay) + [Pass(ToRemote, ev)] == [Pass(ToRemote, ev)];
  }

  lemma PassSendsKey(s: ServerState, ev: InputEvent)
    requires ev.Key? && s.peers != []
    ensures Perform(s, Pass(ToRemote, ev)) == (s.(sent := s.sent + [Sent(s.peers[0], KeyMessage(ev.key))]), [])
  {
  }

  /** An Escape that met capture on is in the channel or has been taken, in every later state. */
  lemma {:induction false} EscapeIsQueued(g: Rig, ts: seq<Turn>, n: nat)
    requires n < |ts| && Goes(At(g, ts[..n]), ts[n])
    ensures n in Passed(g, ts)
  {
    var front := ts[..|ts| - 1];
    if n == |front| {
      assert ts[..n] == front;
      assert Passed(g, ts)[|Passed(g, ts)| - 1] == n;
    } else {
      assert front[..n] == ts[..n];
      EscapeIsQueued(g, front, n);
    }
  }

  /** A hook event that the session handles to the end before the next one arrives. */
  function Promptly(g: Rig, l: Pipeline, r: RawEvent): Pipeline {
    var m := Advance(g, Advance(g, l, Hook(r)), Take);
    m.(server := Finish(m.server, m.todo), todo := [])
  }

  lemma PromptlyHandled(g: Rig, l: Pipeline, r: RawEvent)
    requires l.channel == [] && l.todo == [] && (l.server.capturing || r.RawMove?)
    ensures Promptly(g, l, r)
         == Pipeline(Track(l.mods, r), [], DrainStep(g.cfg, l.server, Translate(g.keymap, Track(l.mods, r), r)), [])
  {
    var ev := Translate(g.keymap, Track(l.mods, r), r);
    assert [] + [ev] == [ev] && [ev][1..] == [];
    PassIsDrainStep(g.cfg, l.server, ev);
  }

  predicate RemoteAndIdle(l: Pipeline) {
    Settles(l) && l.server.edge.route.Remote? && l.channel == [] && l.todo == []
  }

  lemma DrainStepModifiers(cfg: Screen, s: ServerState, ev: InputEvent)
    requires !ev.SyncEvent?
    ensures DrainStep(cfg, s, ev).edge.modifiers == FlagsAfter(s.edge.modifiers, ev)
  {
    if !IsEmergency(ev) {
      var (e, d, f) := Observe(cfg, s.edge, ev);
      assert Dispatch(ApplyDecision(s.(edge := e), d), f, ev).edge == e;
    }
  }

  lemma DrainStepSettles(cfg: Screen, s: ServerState, ev: InputEvent)
    requires (s.capturing <==> s.edge.route.Remote?) && (s.edge.autoPeer.Some? <==> s.peers != [])
    ensures var s' := DrainStep(cfg, s, ev);
            (s'.capturing <==> s'.edge.route.Remote?) && (s'.edge.autoPeer.Some? <==> s'.peers != [])
  {
    DrainStepEdge(cfg, s, ev);
    if !IsEmergency(ev) {
      ObserveRoute(cfg, s.edge, ev);
      var (e, d, f) := Observe(cfg, s.edge, ev);
      assert Dispatch(ApplyDecision(s.(edge := e), d), f, ev).edge == e;
    }
  }

  lemma PressWhileRemote(g: Rig, l: Pipeline, vk: nat)
    requires RemoteAndIdle(l) && g.keymap(VirtualKey(vk)) != ESCAPE
    ensures var l' := Promptly(g, l, KeyDown(vk));
            && RemoteAndIdle(l')
            && l'.mods == UpdateModifiers(l.mods, vk, true) && l'.server.edge.modifiers == l'.mods
  {
    PromptlyHandled(g, l, KeyDown(vk));
    var ev := Translate(g.keymap, Track(l.mods, KeyDown(vk)), KeyDown(vk));
    DrainStepSettles(g.cfg, l.server, ev);
    DrainStepEdge(g.cfg, l.server, ev);
    ObserveRoute(g.cfg, l.server.edge, ev);
    DrainStepModifiers(g.cfg, l.server, ev);
  }

  lemma EscapeWhileRemote(g: Rig, l: Pipeline)
    requires RemoteAndIdle(l) && l.mods >= {CTRL, ALT, SHIFT} && g.keymap(VK_ESCAPE) == ESCAPE
    ensures var l' := Promptly(g, l, KeyDown(0x1B));
            && Settles(l') && l'.server.edge.route.Local? && l'.channel == [] && l'.todo == []
            && l'.mods == l.mods && l'.server.edge.modifiers == l.server.edge.modifiers
  {
    PromptlyHandled(g, l, KeyDown(0x1B));
    var ev := Translate(g.keymap, l.mods, KeyDown(0x1B));
    DrainStepSettles(g.cfg, l.server, ev);
    DrainStepEdge(g.cfg, l.server, ev);
    DrainStepModifiers(g.cfg, l.server, ev);
  }

  lemma ReleaseWhileLocal(g: Rig, l: Pipeline, vk: nat)
    requires !l.server.capturing
    ensures Advance(g, l, Hook(KeyUp(vk))) == l.(mods := UpdateModifiers(l.mods, vk, false))
  {
    Seqs.Nothing(l.channel);
  }

  /** Input is local and stays so unless a move crosses: nothing but moves is under way, and no chore is about
      to switch capture on. */
  predicate Quiet(l: Pipeline) {
    && !l.server.capturing && l.server.edge.route.Local?
    && (forall ev :: ev in l.channel ==> ev.Mouse? && ev.mouse.Move?)
    && (forall c :: c in l.todo ==> !c.Switch? && !c.Pick?)
  }

  lemma QuietTurn(g: Rig, l: Pipeline, t: Turn)
    requires Quiet(l) && Advance(g, l, t).server.edge.route.Local?
    ensures Quiet(Advance(g, l, t)) && Advance(g, l, t).server.edge.modifiers == l.server.edge.modifiers
  {
    match t
    case Hook(r) =>
    case Take =>
      if Takes(l, t) {
        var ev := l.channel[0];
        assert ev in l.channel;
        ObserveRoute(g.cfg, l.server.edge, ev);
        var (e, d, f) := Observe(g.cfg, l.server.edge, ev);
        assert Begin(g.cfg, l.server, ev).1 == [Pass(f, ev)];
      }
    case Work =>
      if l.todo != [] {
        assert l.todo[0] in l.todo;
        PerformKeepsEdge(l.server, l.todo[0]);
        Seqs.Nothing(l.todo[1..]);
      }
    case Task(st) =>
  }

  /** As long as input stays local, the detector's flags stay. */
  lemma {:induction false} FlagsStayWhileLocal(g: Rig, l: Pipeline, us: seq<Turn>)
    requires Quiet(l)
    requires forall j :: 0 <= j <= |us| ==> AdvanceAll(g, l, us[..j]).server.edge.route.Local?
    ensures var z := AdvanceAll(g, l, us); Quiet(z) && z.server.edge.modifiers == l.server.edge.modifiers
  {
    if us != [] {
      var front, t := us[..|us| - 1], us[|us| - 1];
      forall j | 0 <= j <= |front| ensures AdvanceAll(g, l, front[..j]).server.edge.route.Local? {
        assert front[..j] == us[..j];
      }
      FlagsStayWhileLocal(g, l, front);
      assert AdvanceAll(g, l, us[..|us|]).server.edge.route.Local? && us[..|us|] == us;
      QuietTurn(g, AdvanceAll(g, l, front), t);
    }
  }

  predicate MapsChord(keymap: u16 -> KeyCode) {
    keymap(VK_ESCAPE) == ESCAPE && keymap(0xA2) != ESCAPE && keymap(0xA4) != ESCAPE && keymap(0xA0) != ESCAPE
  }

  function AfterPresses(g: Rig, l: Pipeline): Pipeline {
    Promptly(g, Promptly(g, Promptly(g, l, KeyDown(0xA2)), KeyDown(0xA4)), KeyDown(0xA0))
  }

  /** Ctrl, Alt, Shift and Escape (left-hand keys) pressed one by one, then the three modifiers released. */
  function AfterChord(g: Rig, l: Pipeline): Pipeline {
    var l4 := Promptly(g, AfterPresses(g, l), KeyDown(0x1B));
    Advance(g, Advance(g, Advance(g, l4, Hook(KeyUp(0xA2))), Hook(KeyUp(0xA4))), Hook(KeyUp(0xA0)))
  }

  lemma PressesAreSeen(g: Rig, l: Pipeline)
    requires RemoteAndIdle(l) && MapsChord(g.keymap)
    ensures var z := AfterPresses(g, l);
            RemoteAndIdle(z) && z.mods == l.mods + {CTRL, ALT, SHIFT} && z.server.edge.modifiers == z.mods
  {
    PressWhileRemote(g, l, 0xA2);
    var l1 := Promptly(g, l, KeyDown(0xA2));
    PressWhileRemote(g, l1, 0xA4);
    PressWhileRemote(g, Promptly(g, l1, KeyDown(0xA4)), 0xA0);
    assert l.mods + {CTRL} + {ALT} + {SHIFT} == l.mods + {CTRL, ALT, SHIFT};
  }

  lemma ReleasesAreNotSeen(g: Rig, l: Pipeline)
    requires !l.server.capturing
    ensures Advance(g, Advance(g, Advance(g, l, Hook(KeyUp(0xA2))), Hook(KeyUp(0xA4))), Hook(KeyUp(0xA0)))
         == l.(mods := l.mods - {CTRL, ALT, SHIFT})
  {
    ReleaseWhileLocal(g, l, 0xA2);
    var l1 := l.(mods := UpdateModifiers(l.mods, 0xA2, false));
    ReleaseWhileLocal(g, l1, 0xA4);
    var l2 := l1.(mods := UpdateModifiers(l1.mods, 0xA4, false));
    ReleaseWhileLocal(g, l2, 0xA0);
    assert l.mods - {CTRL} - {ALT} - {SHIFT} == l.mods - {CTRL, ALT, SHIFT};
  }

  lemma ChordIsRemembered(g: Rig, l: Pipeline)
    requires RemoteAndIdle(l) && MapsChord(g.keymap)
    ensures var z := AfterChord(g, l);
            && Quiet(z) && z.mods == l.mods - {CTRL, ALT, SHIFT}
            && z.server.edge.modifiers == l.mods + {CTRL, ALT, SHIFT}
  {
    PressesAreSeen(g, l);
    EscapeWhileRemote(g, AfterPresses(g, l));
    ReleasesAreNotSeen(g, Promptly(g, AfterPresses(g, l), KeyDown(0x1B)));
    assert l.mods + {CTRL, ALT, SHIFT} - {CTRL, ALT, SHIFT} == l.mods - {CTRL, ALT, SHIFT};
  }

  /** The first crossing after a time of local input carries the flags the detector had before it. */
  lemma FirstCrossingCarries(g: Rig, z: Pipeline, us: seq<Turn>, c: ClientState)
    requires Quiet(z) && us != [] && us[|us| - 1] == Take
    requires forall j :: 0 <= j < |us| ==> AdvanceAll(g, z, us[..j]).server.edge.route.Local?
    requires AdvanceAll(g, z, us).server.edge.route.Remote?
    ensures var enter := EnterOf(AdvanceAll(g, z, us));
            && enter.Some? && enter.value.ScreenEnter? && enter.value.modifiers == z.server.edge.modifiers
            && HeldModifiers(Handle(c, enter.value)) == LeftVariants(z.server.edge.modifiers)
  {
    var front := us[..|us| - 1];
    forall j | 0 <= j <= |front| ensures AdvanceAll(g, z, front[..j]).server.edge.route.Local? {
      assert front[..j] == us[..j];
    }
    FlagsStayWhileLocal(g, z, front);
    TurnEnters(g, AdvanceAll(g, z, front));
    EnterHolds(c, EnterOf(AdvanceAll(g, z, us)).value);
  }

  lemma CrossingCarriesChord(g: Rig, z: Pipeline, us: seq<Turn>, c: ClientState)
    requires Quiet(z) && us != [] && us[|us| - 1] == Take
    requires z.server.edge.modifiers >= {CTRL, ALT, SHIFT}
    requires forall j :: 0 <= j < |us| ==> AdvanceAll(g, z, us[..j]).server.edge.route.Local?
    requires AdvanceAll(g, z, us).server.edge.route.Remote?
    ensures var enter := EnterOf(AdvanceAll(g, z, us));
            && enter.Some? && enter.value.ScreenEnter? && enter.value.modifiers == z.server.edge.modifiers
            && HeldModifiers(Handle(c, enter.value)) >= LeftVariants({CTRL, ALT, SHIFT})
  {
    FirstCrossingCarries(g, z, us, c);
  }

  /** The emergency chord breaks the promise by itself. The detector saw its three modifiers go down, and
      neither the Escape nor their release; so the next crossing, whenever it comes and whatever keys are
      used locally before it, makes the client press all three. */
  lemma ChordIsReplayedOnReentry(g: Rig, l: Pipeline, us: seq<Turn>, c: ClientState)
    requires RemoteAndIdle(l) && MapsChord(g.keymap)
    requires us != [] && us[|us| - 1] == Take
    requires forall j :: 0 <= j < |us| ==> AdvanceAll(g, AfterChord(g, l), us[..j]).server.edge.route.Local?
    requires AdvanceAll(g, AfterChord(g, l), us).server.edge.route.Remote?
    ensures var enter := EnterOf(AdvanceAll(g, AfterChord(g, l), us));
            && enter.Some? && enter.value.ScreenEnter? && enter.value.modifiers == l.mods + {CTRL, ALT, SHIFT}
            && HeldModifiers(Handle(c, enter.value)) >= LeftVariants({CTRL, ALT, SHIFT})
  {
    var z := AfterChord(g, l);
    ChordIsRemembered(g, l);
    CrossingCarriesChord(g, z, us, c);
  }
}
