/** One machine's side of clipboard sync (crates/daemon/src/clipboard_mgr.rs, crates/clipboard/src/lib.rs). */
module Clipboard {
  import opened Wrappers
  import Seqs
  import opened Protocol

  /** The OS clipboard: one value in one format. */
  datatype Content = Content(format: ClipboardFormat, bytes: Bytes)

  type HashFn = Bytes -> Digest

  datatype Node = Node(id: PeerId, clip: Option<Content>, originators: map<Digest, PeerId>, lastHash: Option<Digest>)

  datatype Packet = Packet(from: PeerId, to: PeerId, msg: Message)

  /** The backend's read: text and images when that is what is there, other formats as empty. */
  function ReadClip(clip: Option<Content>, format: ClipboardFormat): Option<Bytes> {
    if format == PlainText || format == Png then
      if clip.Some? && clip.value.format == format then Some(clip.value.bytes) else None
    else Some([])
  }

  function WriteClip(clip: Option<Content>, payload: ClipboardPayload): Option<Content> {
    if payload.format == PlainText || payload.format == Png then Some(Content(payload.format, payload.bytes)) else clip
  }

  function NonEmpty(read: Option<Bytes>): bool {
    read.Some? && read.value != []
  }

  /** What a poll sees: text first, then an image, nothing if both are empty or unreadable. */
  function PollView(clip: Option<Content>): Option<Content> {
    var text := ReadClip(clip, PlainText);
    var image := ReadClip(clip, Png);
    if NonEmpty(text) then Some(Content(PlainText, text.value))
    else if NonEmpty(image) then Some(Content(Png, image.value))
    else None
  }

  function Broadcast(from: PeerId, peers: seq<PeerId>, m: Message): seq<Packet> {
    if peers == [] then [] else [Packet(from, peers[0], m)] + Broadcast(from, peers[1..], m)
  }

  /** One pass of the poll loop with the peers connected at that time. */
  function Poll(h: HashFn, n: Node, peers: seq<PeerId>): (Node, seq<Packet>) {
    var view := PollView(n.clip);
    if view.None? then (n, [])
    else
      var hash := h(view.value.bytes);
      if n.lastHash == Some(hash) then (n, [])
      else if hash in n.originators && n.originators[hash] == n.id then (n, [])
      else if hash in n.originators then (n.(lastHash := Some(hash)), [])
      else
        (n.(lastHash := Some(hash), originators := n.originators[hash := n.id]),
         Broadcast(n.id, peers, ClipboardFormats([view.value.format], hash)))
  }

  function Requests(to: PeerId, from: PeerId, formats: seq<ClipboardFormat>): seq<Packet> {
    if formats == [] then [] else [Packet(from, to, ClipboardRequest(formats[0]))] + Requests(to, from, formats[1..])
  }

  /** `handle_inbound`: the new state and the replies. */
  function HandleMessage(h: HashFn, n: Node, from: PeerId, m: Message): (Node, seq<Packet>) {
    match m
    case ClipboardFormats(formats, hash) =>
      (if formats == [] then n else n.(originators := n.originators[hash := from]), Requests(from, n.id, formats))
    case ClipboardRequest(format) =>
      var read := ReadClip(n.clip, format);
      if read.None? then (n, [])
      else (n, [Packet(n.id, from, ClipboardData(ClipboardPayload(format, read.value, n.id, h(read.value))))])
    case ClipboardData(payload) =>
      (n.(originators := n.originators[payload.hash := payload.originator],
          lastHash := Some(payload.hash),
          clip := WriteClip(n.clip, payload)),
       [])
    case _ => (n, [])
  }

  class ClipboardManager {
    const hash: HashFn
    const localPeerId: PeerId
    var clip: Option<Content>
    var originators: map<Digest, PeerId>
    var lastHash: Option<Digest>

    ghost function State(): Node
      reads this
    {
      Node(localPeerId, clip, originators, lastHash)
    }

    constructor (hash: HashFn, localPeerId: PeerId, clip: Option<Content>)
      ensures this.hash == hash && State() == Node(localPeerId, clip, map[], None)
    {
      this.hash, this.localPeerId, this.clip := hash, localPeerId, clip;
      originators, lastHash := map[], None;
    }

    method PollOnce(peers: seq<PeerId>) returns (sent: seq<Packet>)
      modifies this
      ensures (State(), sent) == Poll(hash, old(State()), peers)
    {
      var format := PlainText;
      var read := ReadClip(clip, PlainText);
      if !NonEmpty(read) {
        format := Png;
        read := ReadClip(clip, Png);
        if !NonEmpty(read) {
          return [];
        }
      }
      var digest := hash(read.value);
      if lastHash == Some(digest) {
        return [];
      }
      if digest in originators && originators[digest] == localPeerId {
        return [];
      }
      if digest in originators {
        lastHash := Some(digest);
        return [];
      }
      lastHash := Some(digest);
      originators := originators[digest := localPeerId];
      ghost var m := ClipboardFormats([format], digest);
      sent := [];
      for i := 0 to |peers|
        invariant State() == Poll(hash, old(State()), peers).0
        invariant sent + Broadcast(localPeerId, peers[i..], m) == Broadcast(localPeerId, peers, m)
      {
        var packet := Packet(localPeerId, peers[i], ClipboardFormats([format], digest));
        Seqs.Rest(peers, i);
        Seqs.Associative(sent, [packet], Broadcast(localPeerId, peers[i + 1..], m));
        sent := sent + [packet];
      }
      Seqs.Nothing(sent);
    }

    /** Note the announced hash and ask for each announced format. */
    method Pull(from: PeerId, formats: seq<ClipboardFormat>, digest: Digest) returns (replies: seq<Packet>)
      modifies this
      ensures State() == if formats == [] then old(State())
                         else old(State()).(originators := old(originators)[digest := from])
      ensures replies == Requests(from, localPeerId, formats)
    {
      replies := [];
      for i := 0 to |formats|
        invariant replies + Requests(from, localPeerId, formats[i..]) == Requests(from, localPeerId, formats)
        invariant State() == if i == 0 then old(State())
                             else old(State()).(originators := old(originators)[digest := from])
      {
        originators := originators[digest := from];
        var packet := Packet(localPeerId, from, ClipboardRequest(formats[i]));
        Seqs.Rest(formats, i);
        Seqs.Associative(replies, [packet], Requests(from, localPeerId, formats[i + 1..]));
        replies := replies + [packet];
      }
      Seqs.Nothing(replies);
    }

    method HandleInbound(from: PeerId, m: Message) returns (replies: seq<Packet>)
      modifies this
      ensures (State(), replies) == HandleMessage(hash, old(State()), from, m)
    {
      replies := [];
      match m
      case ClipboardFormats(formats, digest) =>
        replies := Pull(from, formats, digest);
      case ClipboardRequest(format) =>
        var read := ReadClip(clip, format);
        if read.Some? {
          var payload := ClipboardPayload(format, read.value, localPeerId, hash(read.value));
          replies := [Packet(localPeerId, from, ClipboardData(payload))];
        }
      case ClipboardData(payload) =>
        originators := originators[payload.hash := payload.originator];
        lastHash := Some(payload.hash);
        clip := WriteClip(clip, payload);
      case _ =>
    }
  }

  /** The hash a poll would look at. */
  function Shown(h: HashFn, n: Node): Option<Digest> {
    var view := PollView(n.clip);
    if view.None? then None else Some(h(view.value.bytes))
  }

  /** A remembered last hash is always a recorded one. */
  predicate Recorded(n: Node) {
    n.lastHash.Some? ==> n.lastHash.value in n.originators
  }

  predicate Advertises(h: HashFn, n: Node) {
    Shown(h, n).Some? && Shown(h, n).value !in n.originators
  }

  lemma {:induction false} BroadcastShape(from: PeerId, peers: seq<PeerId>, m: Message)
    ensures |Broadcast(from, peers, m)| == |peers|
    ensures forall i :: 0 <= i < |peers| ==> Broadcast(from, peers, m)[i] == Packet(from, peers[i], m)
  {
    if peers != [] {
      BroadcastShape(from, peers[1..], m);
    }
  }

  /** The hash is recorded as this machine's own. */
  predicate Owns(n: Node, hash: Digest) {
    hash in n.originators && n.originators[hash] == n.id
  }

  /** The three tests of the poll loop come down to one: a poll advertises exactly content whose hash the
      registry does not hold, to every peer once, and records it; otherwise only `last_hash` may change. */
  lemma PollAdvertisesUnrecorded(h: HashFn, n: Node, peers: seq<PeerId>)
    requires Recorded(n)
    ensures var (n', sent) := Poll(h, n, peers);
            && Recorded(n') && n'.clip == n.clip && n'.id == n.id
            && (Advertises(h, n) ==>
                  && n'.originators == n.originators[Shown(h, n).value := n.id]
                  && sent == Broadcast(n.id, peers, ClipboardFormats([n.clip.value.format], Shown(h, n).value)))
            && (!Advertises(h, n) ==> sent == [] && n'.originators == n.originators)
  {
  }

  /** The hash that is remembered as the last one is any hash shown that is not recorded as the machine's own. */
  lemma PollRemembers(h: HashFn, n: Node, peers: seq<PeerId>)
    ensures Poll(h, n, peers).0.lastHash
         == if Shown(h, n).Some? && !Owns(n, Shown(h, n).value) then Shown(h, n) else n.lastHash
  {
  }

  lemma {:induction false} RequestsShape(to: PeerId, from: PeerId, formats: seq<ClipboardFormat>)
    ensures |Requests(to, from, formats)| == |formats|
    ensures forall k :: 0 <= k < |formats| ==> Requests(to, from, formats)[k] == Packet(from, to, ClipboardRequest(formats[k]))
  {
    if formats != [] {
      RequestsShape(to, from, formats[1..]);
    }
  }

  /** One hash is recorded under a machine's id, the rest of the registry stays. */
  predicate Records(before: map<Digest, PeerId>, after: map<Digest, PeerId>, hash: Digest, whose: PeerId) {
    && after.Keys == before.Keys + {hash} && after[hash] == whose
    && forall d :: d in before && d != hash ==> after[d] == before[d]
  }

  /** Who is recorded and who is answered. An announcement is recorded under the machine it came from, which is asked
      for each format; a request is answered with what the clipboard holds in that format, under this machine's
      id, with nothing in a format that clipboards are not read in, and not at all otherwise; data is recorded under the
      originator it names, and goes to the clipboard if it is text or an image. */
  lemma HandlingExactly(h: HashFn, n: Node, from: PeerId, m: Message)
    ensures var (n', out) := HandleMessage(h, n, from, m);
            match m
            case ClipboardFormats(formats, hash) =>
              && (formats == [] ==> n' == n)
              && (formats != [] ==> Records(n.originators, n'.originators, hash, from)
                                    && n' == n.(originators := n'.originators))
              && |out| == |formats| && forall k :: 0 <= k < |out| ==> out[k] == Packet(n.id, from, ClipboardRequest(formats[k]))
            case ClipboardRequest(format) =>
              && n' == n
              && (n.clip.Some? && n.clip.value.format == format && format in {PlainText, Png} ==>
                    var bytes := n.clip.value.bytes;
                    out == [Packet(n.id, from, ClipboardData(ClipboardPayload(format, bytes, n.id, h(bytes))))])
              && (format !in {PlainText, Png} ==>
                    out == [Packet(n.id, from, ClipboardData(ClipboardPayload(format, [], n.id, h([]))))])
              && (format in {PlainText, Png} && (n.clip.None? || n.clip.value.format != format) ==> out == [])
            case ClipboardData(payload) =>
              && out == [] && n'.id == n.id && n'.lastHash == Some(payload.hash)
              && Records(n.originators, n'.originators, payload.hash, payload.originator)
              && n'.clip == if payload.format in {PlainText, Png} then Some(Content(payload.format, payload.bytes)) else n.clip
            case _ => n' == n && out == []
  {
    if m.ClipboardFormats? {
      RequestsShape(from, n.id, m.formats);
    }
  }

  /** Handling a message keeps the invariant, forgets no record, and records the hash it carries. */
  lemma HandlingRecords(h: HashFn, n: Node, from: PeerId, m: Message)
    requires Recorded(n)
    ensures var n' := HandleMessage(h, n, from, m).0;
            && Recorded(n') && n'.id == n.id && n.originators.Keys <= n'.originators.Keys
            && (m.ClipboardFormats? && m.formats != [] ==> m.hash in n'.originators)
            && (m.ClipboardData? ==> m.payload.hash in n'.originators)
            && (!m.ClipboardData? ==> n'.clip == n.clip)
  {
  }
}
