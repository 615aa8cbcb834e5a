/** The 12-byte big-endian frame header (crates/protocol/src/header.rs). */
module FrameHeader {
  import opened Protocol

  const HEADER_SIZE := 12
  const MAGIC: Bytes := [0x49, 0x53, 0x59, 0x4E]
  const PROTOCOL_VERSION: u16 := 1

  type Magic = m: Bytes | |m| == 4 witness [0, 0, 0, 0]

  datatype Header = Header(magic: Magic, version: u16, messageType: u16, length: u32)

  function NewHeader(t: MessageType, length: u32): Header {
    Header(MAGIC, PROTOCOL_VERSION, TypeId(t), length)
  }

  function U16Bytes(v: u16): Bytes {
    [v / 0x100, v % 0x100]
  }

  function U32Bytes(v: u32): Bytes {
    [v / 0x100_0000, v / 0x1_0000 % 0x100, v / 0x100 % 0x100, v % 0x100]
  }

  function U16Of(hi: byte, lo: byte): u16 {
    hi * 0x100 + lo
  }

  function U32Of(b0: byte, b1: byte, b2: byte, b3: byte): u32 {
    b0 * 0x100_0000 + b1 * 0x1_0000 + b2 * 0x100 + b3
  }

  function HeaderBytes(h: Header): Bytes {
    h.magic + U16Bytes(h.version) + U16Bytes(h.messageType) + U32Bytes(h.length)
  }

  function DecodeHeader(b: Bytes): Header
    requires |b| == HEADER_SIZE
  {
    Header(b[..4], U16Of(b[4], b[5]), U16Of(b[6], b[7]), U32Of(b[8], b[9], b[10], b[11]))
  }

  /** `Header::encode`: the array is filled slice by slice. */
  method EncodeHeader(h: Header) returns (out: array<byte>)
    ensures fresh(out) && out[..] == HeaderBytes(h)
  {
    out := new byte[HEADER_SIZE](_ => 0);
    CopyInto(out, 0, h.magic);
    CopyInto(out, 4, U16Bytes(h.version));
    CopyInto(out, 6, U16Bytes(h.messageType));
    CopyInto(out, 8, U32Bytes(h.length));
    assert out[..] == out[..4] + out[4..6] + out[6..8] + out[8..12];
  }

  /** `copy_from_slice` into the part of `a` that starts at `at`. */
  method CopyInto(a: array<byte>, at: nat, src: Bytes)
    requires at + |src| <= a.Length
    modifies a
    ensures a[..at] == old(a[..at])
    ensures a[at..at + |src|] == src
    ensures a[at + |src|..] == old(a[at + |src|..])
  {
    for i := 0 to |src|
      invariant a[..at] == old(a[..at])
      invariant a[at..at + i] == src[..i]
      invariant a[at + |src|..] == old(a[at + |src|..])
    {
      a[at + i] := src[i];
      assert a[at..at + i + 1] == a[at..at + i] + [src[i]];
    }
  }

  lemma U16RoundTrip(v: u16, hi: byte, lo: byte)
    ensures U16Of(U16Bytes(v)[0], U16Bytes(v)[1]) == v
    ensures U16Bytes(U16Of(hi, lo)) == [hi, lo]
  {
  }

  lemma U32RoundTrip(w: u32, b0: byte, b1: byte, b2: byte, b3: byte)
    ensures var e := U32Bytes(w); U32Of(e[0], e[1], e[2], e[3]) == w
    ensures U32Bytes(U32Of(b0, b1, b2, b3)) == [b0, b1, b2, b3]
  {
    var n := U32Of(b0, b1, b2, b3);
    var x0: int, x1: int, x2: int := b0, b1, b2;
    assert n / 0x100 == x0 * 0x1_0000 + x1 * 0x100 + x2;
    assert n / 0x1_0000 == x0 * 0x100 + x1;
    assert n / 0x100_0000 == x0;
    assert w / 0x1_0000 == w / 0x100 / 0x100 && w / 0x100_0000 == w / 0x1_0000 / 0x100;
  }

  lemma DecodeOfEncoded(h: Header)
    ensures |HeaderBytes(h)| == HEADER_SIZE && DecodeHeader(HeaderBytes(h)) == h
  {
    var e := HeaderBytes(h);
    var v, t, n := U16Bytes(h.version), U16Bytes(h.messageType), U32Bytes(h.length);
    assert e[..4] == h.magic;
    assert e[4] == v[0] && e[5] == v[1] && e[6] == t[0] && e[7] == t[1];
    assert e[8] == n[0] && e[9] == n[1] && e[10] == n[2] && e[11] == n[3];
    U16RoundTrip(h.version, 0, 0);
    U16RoundTrip(h.messageType, 0, 0);
    U32RoundTrip(h.length, 0, 0, 0, 0);
  }

  lemma EncodeOfDecoded(b: Bytes)
    requires |b| == HEADER_SIZE
    ensures HeaderBytes(DecodeHeader(b)) == b
  {
    U16RoundTrip(0, b[4], b[5]);
    U16RoundTrip(0, b[6], b[7]);
    U32RoundTrip(0, b[8], b[9], b[10], b[11]);
    var h := DecodeHeader(b);
    GlueBytes(b, U16Bytes(h.version), U16Bytes(h.messageType), U32Bytes(h.length));
  }

  lemma GlueBytes(b: Bytes, version: Bytes, messageType: Bytes, length: Bytes)
    requires |b| == HEADER_SIZE
    requires version == [b[4], b[5]] && messageType == [b[6], b[7]] && length == [b[8], b[9], b[10], b[11]]
    ensures b[..4] + version + messageType + length == b
  {
  }

  /** Headers and 12-byte strings correspond one to one. */
  lemma HeaderRoundTrip(h: Header, b: Bytes)
    requires |b| == HEADER_SIZE
    ensures |HeaderBytes(h)| == HEADER_SIZE
    ensures DecodeHeader(b) == h <==> HeaderBytes(h) == b
  {
    DecodeOfEncoded(h);
    EncodeOfDecoded(b);
  }
}

/** Frames: a header followed by a serialized message (crates/protocol/src/codec.rs). */
module Codec {
  import opened Wrappers
  import opened Protocol
  import opened FrameHeader

  const MAX_PAYLOAD_SIZE: nat := 64 * 1024 * 1024

  datatype FrameError =
    | BadMagic(magic: Bytes)
    | UnsupportedVersion(local: u16, remote: u16)
    | UnknownMessageType(id: u16)
    | PayloadTooLarge(size: u32)
    | SerializerError

  /** The serializer, taken as a pair of abstract functions. */
  datatype Bincode = Bincode(ser: Message -> Option<Bytes>, deser: Bytes -> Option<Message>)

  ghost predicate Lawful(bc: Bincode) {
    forall m: Message :: bc.ser(m).Some? ==> bc.deser(bc.ser(m).value) == Some(m)
  }

  /** The bytes `encode_frame` and `write_frame` produce. */
  function Frame(bc: Bincode, m: Message): Result<Bytes, FrameError> {
    match bc.ser(m)
    case None => Err(SerializerError)
    case Some(payload) =>
      if |payload| > MAX_PAYLOAD_SIZE then Err(PayloadTooLarge(|payload| % 0x1_0000_0000))
      else Ok(HeaderBytes(NewHeader(MessageTypeOf(m), |payload|)) + payload)
  }

  method EncodeFrame(bc: Bincode, m: Message) returns (r: Result<Bytes, FrameError>)
    ensures r == Frame(bc, m)
  {
    var serialized := bc.ser(m);
    if serialized.None? {
      return Err(SerializerError);
    }
    var payload := serialized.value;
    if |payload| > MAX_PAYLOAD_SIZE {
      return Err(PayloadTooLarge(|payload| % 0x1_0000_0000));
    }
    var header := EncodeHeader(NewHeader(MessageTypeOf(m), |payload|));
    var out: Bytes := [];
    out := out + header[..];
    out := out + payload;
    assert out == header[..] + payload;
    return Ok(out);
  }

  /** A caller's growing buffer. */
  class ByteBuffer {
    var data: Bytes

    constructor ()
      ensures data == []
    {
      data := [];
    }
  }

  /** `write_frame`: what was in the buffer stays, the frame follows it, an error adds nothing. */
  method WriteFrame(bc: Bincode, buf: ByteBuffer, m: Message) returns (r: Result<(), FrameError>)
    modifies buf
    ensures r.Ok? <==> Frame(bc, m).Ok?
    ensures r.Ok? ==> buf.data == old(buf.data) + Frame(bc, m).value
    ensures r.Err? ==> buf.data == old(buf.data) && r.error == Frame(bc, m).error
  {
    var serialized := bc.ser(m);
    if serialized.None? {
      return Err(SerializerError);
    }
    var payload := serialized.value;
    if |payload| > MAX_PAYLOAD_SIZE {
      return Err(PayloadTooLarge(|payload| % 0x1_0000_0000));
    }
    var header := EncodeHeader(NewHeader(MessageTypeOf(m), |payload|));
    buf.data := buf.data + header[..];
    buf.data := buf.data + payload;
    return Ok(());
  }

  /** `decode_frame`: a message and the bytes it used, None while the frame is incomplete. */
  function DecodeFrame(bc: Bincode, buf: Bytes): Result<Option<(Message, nat)>, FrameError> {
    if |buf| < HEADER_SIZE then Ok(None)
    else
      var header := DecodeHeader(buf[..HEADER_SIZE]);
      if header.magic != MAGIC then Err(BadMagic(header.magic))
      else if header.version != PROTOCOL_VERSION then Err(UnsupportedVersion(PROTOCOL_VERSION, header.version))
      else if header.length > MAX_PAYLOAD_SIZE then Err(PayloadTooLarge(header.length))
      else
        var total := HEADER_SIZE + header.length;
        if |buf| < total then Ok(None)
        else if FromU16(header.messageType).None? then Err(UnknownMessageType(header.messageType))
        else
          match bc.deser(buf[HEADER_SIZE..total])
          case None => Err(SerializerError)
          case Some(msg) => Ok(Some((msg, total)))
  }

  // Which bytes are frames, in numbers

  /** The four letters ISYN and version 1. */
  predicate HasPreamble(buf: Bytes)
    requires |buf| >= 12
  {
    && buf[0] == 0x49 && buf[1] == 0x53 && buf[2] == 0x59 && buf[3] == 0x4E
    && buf[4] == 0 && buf[5] == 1
  }

  /** The number that bytes spell, the most significant first. */
  function Spells(high: nat, low: nat): nat {
    high * 0x100 + low
  }

  function AnnouncedType(buf: Bytes): nat
    requires |buf| >= 12
  {
    Spells(buf[6], buf[7])
  }

  function AnnouncedLength(buf: Bytes): nat
    requires |buf| >= 12
  {
    Spells(Spells(Spells(buf[8], buf[9]), buf[10]), buf[11])
  }

  /** The identifiers in use: session, input, clipboard, files and control. */
  predicate IsTypeId(id: int) {
    || 1 <= id <= 3 || 0x100 <= id <= 0x104 || 0x110 <= id <= 0x112 || 0x200 <= id <= 0x202
    || 0x300 <= id <= 0x303 || 0xF00 <= id <= 0xF02
  }

  /** The buffer starts with a frame of n bytes whose payload reads as m. */
  predicate HoldsFrame(bc: Bincode, buf: Bytes, m: Message, n: nat) {
    && |buf| >= 12 && HasPreamble(buf) && IsTypeId(AnnouncedType(buf))
    && AnnouncedLength(buf) <= 0x400_0000 && n == 12 + AnnouncedLength(buf) <= |buf|
    && bc.deser(buf[12..n]) == Some(m)
  }

  lemma TypeIdsExactly(id: u16)
    ensures FromU16(id).Some? <==> IsTypeId(id)
  {
  }

  /** Exactly such frames are decoded, and a buffer is called incomplete exactly if it is shorter than a header
      or starts with a preamble and an announced length within the limit that it does not hold yet. */
  lemma DecodesExactly(bc: Bincode, buf: Bytes, m: Message, n: nat)
    ensures DecodeFrame(bc, buf) == Ok(Some((m, n))) <==> HoldsFrame(bc, buf, m, n)
    ensures DecodeFrame(bc, buf) == Ok(None)
       <==> |buf| < 12 || (HasPreamble(buf) && AnnouncedLength(buf) <= 0x400_0000 && |buf| < 12 + AnnouncedLength(buf))
  {
    if |buf| >= 12 {
      HeaderInNumbers(buf);
      TypeIdsExactly(AnnouncedType(buf));
    }
  }

  /** No message is decoded exactly if the buffer holds no frame. */
  lemma NoFrame(bc: Bincode, buf: Bytes)
    ensures DecodeFrame(bc, buf).Err? || DecodeFrame(bc, buf) == Ok(None) ==> forall m, n :: !HoldsFrame(bc, buf, m, n)
  {
    forall m, n: nat ensures HoldsFrame(bc, buf, m, n) ==> DecodeFrame(bc, buf) == Ok(Some((m, n))) {
      DecodesExactly(bc, buf, m, n);
    }
  }

  lemma HeaderInNumbers(buf: Bytes)
    requires |buf| >= 12
    ensures var h := DecodeHeader(buf[..12]);
            && h.magic == buf[..4] && h.version == Spells(buf[4], buf[5])
            && h.messageType == AnnouncedType(buf) && h.length == AnnouncedLength(buf)
            && (HasPreamble(buf) <==> h.magic == MAGIC && h.version == 1)
  {
    assert buf[..12][..4] == buf[..4];
    if buf[0] == 0x49 && buf[1] == 0x53 && buf[2] == 0x59 && buf[3] == 0x4E {
      assert buf[..4] == MAGIC;
    } else {
      assert buf[..4][0] == buf[0] && buf[..4][1] == buf[1] && buf[..4][2] == buf[2] && buf[..4][3] == buf[3];
    }
  }

  /** What is refused, and why: the first thing that is wrong. */
  lemma RefusesExactly(bc: Bincode, buf: Bytes, e: FrameError)
    ensures DecodeFrame(bc, buf) == Err(e)
       <==> |buf| >= 12 &&
              match e
              case BadMagic(magic) => magic == buf[..4] && magic != [0x49, 0x53, 0x59, 0x4E]
              case UnsupportedVersion(local, remote) =>
                && buf[..4] == [0x49, 0x53, 0x59, 0x4E] && remote == Spells(buf[4], buf[5]) != 1 && local == 1
              case PayloadTooLarge(size) => HasPreamble(buf) && size == AnnouncedLength(buf) > 0x400_0000
              case UnknownMessageType(id) =>
                && HasPreamble(buf) && AnnouncedLength(buf) <= 0x400_0000 && 12 + AnnouncedLength(buf) <= |buf|
                && id == AnnouncedType(buf) && !IsTypeId(id)
              case SerializerError =>
                && HasPreamble(buf) && AnnouncedLength(buf) <= 0x400_0000 && 12 + AnnouncedLength(buf) <= |buf|
                && IsTypeId(AnnouncedType(buf)) && bc.deser(buf[12..12 + AnnouncedLength(buf)]).None?
  {
    if |buf| >= 12 {
      HeaderInNumbers(buf);
      TypeIdsExactly(AnnouncedType(buf));
    }
  }

  /** A whole frame of some message type. */
  predicate IsFrame(frame: Bytes, t: MessageType, payload: Bytes) {
    |payload| <= MAX_PAYLOAD_SIZE && frame == HeaderBytes(NewHeader(t, |payload|)) + payload
  }

  /** What is decoded is a header that the encoder writes for some message type, and the payload it announces. */
  lemma DecodesOnlyFrames(bc: Bincode, buf: Bytes, m: Message, n: nat)
    ensures DecodeFrame(bc, buf) == Ok(Some((m, n)))
       <==> n <= |buf| && exists t, payload :: IsFrame(buf[..n], t, payload) && bc.deser(payload) == Some(m)
  {
    if DecodeFrame(bc, buf) == Ok(Some((m, n))) {
      FrameIsHeaded(bc, buf, m, n);
    }
    if n <= |buf| {
      forall t, payload | IsFrame(buf[..n], t, payload) && bc.deser(payload) == Some(m)
        ensures DecodeFrame(bc, buf) == Ok(Some((m, n)))
      {
        FrameIsDecoded(bc, buf, m, n, t, payload);
      }
    }
  }

  lemma FrameIsDecoded(bc: Bincode, buf: Bytes, m: Message, n: nat, t: MessageType, payload: Bytes)
    requires n <= |buf| && IsFrame(buf[..n], t, payload) && bc.deser(payload) == Some(m)
    ensures DecodeFrame(bc, buf) == Ok(Some((m, n)))
  {
    var h := NewHeader(t, |payload|);
    DecodeOfEncoded(h);
    DecodeHeaded(bc, h, payload, buf[n..]);
    assert buf == buf[..n] + buf[n..];
  }

  lemma FrameIsHeaded(bc: Bincode, buf: Bytes, m: Message, n: nat)
    requires DecodeFrame(bc, buf) == Ok(Some((m, n)))
    ensures n <= |buf| && exists t, payload :: IsFrame(buf[..n], t, payload) && bc.deser(payload) == Some(m)
  {
    var h := DecodeHeader(buf[..12]);
    EncodeOfDecoded(buf[..12]);
    var t, payload := FromU16(h.messageType).value, buf[12..n];
    assert h == NewHeader(t, |payload|);
    assert buf[..n] == buf[..12] + payload;
    assert IsFrame(buf[..n], t, payload);
  }

  /** The identifier that is to announce a message. */
  predicate Announces(m: Message, id: int) {
    match m
    case Hello(_, _, _, _) => id == 0x0001
    case Welcome(_, _, _, _) => id == 0x0002
    case Goodbye(_) => id == 0x0003
    case MouseMove(_, _) => id == 0x0100
    case MouseButton(_) => id == 0x0101
    case MouseScroll(_) => id == 0x0102
    case KeyMessage(_) => id == 0x0103
    case MouseMoveRelative(_, _) => id == 0x0104
    case ScreenEnter(_, _, _) => id == 0x0110
    case ScreenLeave(_) => id == 0x0111
    case ModifierSync(_) => id == 0x0112
    case ClipboardFormats(_, _) => id == 0x0200
    case ClipboardRequest(_) => id == 0x0201
    case ClipboardData(_) => id == 0x0202
    case FileOfferStart(_, _, _) => id == 0x0300
    case FileChunkMessage(_) => id == 0x0301
    case FileAck(_, _) => id == 0x0302
    case FileTransferCancel(_, _) => id == 0x0303
    case Ping(_, _) => id == 0x0F00
    case Pong(_, _) => id == 0x0F01
    case ErrorMessage(_, _) => id == 0x0F02
  }

  /** A message is encoded exactly if it serializes to at most 64 MiB. Its frame is then a preamble, the
      identifier of its own type, the payload's length and the payload. */
  lemma EncodesExactly(bc: Bincode, m: Message)
    ensures Frame(bc, m).Ok? <==> bc.ser(m).Some? && |bc.ser(m).value| <= 0x400_0000
    ensures bc.ser(m).None? ==> Frame(bc, m) == Err(SerializerError)
    ensures bc.ser(m).Some? && |bc.ser(m).value| > 0x400_0000 ==>
              Frame(bc, m) == Err(PayloadTooLarge(|bc.ser(m).value| % 0x1_0000_0000))
    ensures Frame(bc, m).Ok? ==>
              var frame, payload := Frame(bc, m).value, bc.ser(m).value;
              && |frame| == 12 + |payload| && HasPreamble(frame) && Announces(m, AnnouncedType(frame))
              && AnnouncedLength(frame) == |payload| && frame[12..] == payload
  {
    if Frame(bc, m).Ok? {
      FrameInNumbers(MessageTypeOf(m), bc.ser(m).value);
    }
  }

  lemma FrameInNumbers(t: MessageType, payload: Bytes)
    requires |payload| <= MAX_PAYLOAD_SIZE
    ensures var frame := HeaderBytes(NewHeader(t, |payload|)) + payload;
            && |frame| == 12 + |payload| && HasPreamble(frame) && AnnouncedType(frame) == TypeId(t)
            && AnnouncedLength(frame) == |payload| && frame[12..] == payload
  {
    var h := NewHeader(t, |payload|);
    var frame := HeaderBytes(h) + payload;
    DecodeOfEncoded(h);
    HeaderInNumbers(frame);
    assert frame[..12] == HeaderBytes(h);
  }

  /** An answer other than "incomplete" is final: more bytes do not change it. */
  lemma DecodeStable(bc: Bincode, buf: Bytes, more: Bytes)
    requires DecodeFrame(bc, buf) != Ok(None)
    ensures DecodeFrame(bc, buf + more) == DecodeFrame(bc, buf)
  {
    var all := buf + more;
    assert all[..HEADER_SIZE] == buf[..HEADER_SIZE];
    var total := HEADER_SIZE + DecodeHeader(buf[..HEADER_SIZE]).length;
    if total <= |buf| {
      assert all[HEADER_SIZE..total] == buf[HEADER_SIZE..total];
    }
  }

  /** A decoded message used a whole frame, and those bytes alone decode to it. */
  lemma DecodeUses(bc: Bincode, buf: Bytes, m: Message, n: nat)
    requires DecodeFrame(bc, buf) == Ok(Some((m, n)))
    ensures n == HEADER_SIZE + DecodeHeader(buf[..HEADER_SIZE]).length <= |buf|
    ensures DecodeFrame(bc, buf[..n]) == Ok(Some((m, n)))
  {
    var used := buf[..n];
    assert used[..HEADER_SIZE] == buf[..HEADER_SIZE];
    assert used[HEADER_SIZE..n] == buf[HEADER_SIZE..n];
  }

  lemma DecodeHeaded(bc: Bincode, h: Header, payload: Bytes, rest: Bytes)
    requires |HeaderBytes(h)| == HEADER_SIZE && DecodeHeader(HeaderBytes(h)) == h
    requires h.magic == MAGIC && h.version == PROTOCOL_VERSION && h.length == |payload| <= MAX_PAYLOAD_SIZE
    requires FromU16(h.messageType).Some? && bc.deser(payload).Some?
    ensures DecodeFrame(bc, HeaderBytes(h) + payload + rest)
         == Ok(Some((bc.deser(payload).value, HEADER_SIZE + |payload|)))
  {
    var head := HeaderBytes(h);
    var all := head + payload + rest;
    assert all[..HEADER_SIZE] == head;
    assert all[HEADER_SIZE..HEADER_SIZE + |payload|] == payload;
  }

  /** Decoding inverts encoding, whatever follows the frame. */
  lemma DecodeEncoded(bc: Bincode, m: Message, rest: Bytes)
    requires Lawful(bc) && Frame(bc, m).Ok?
    ensures DecodeFrame(bc, Frame(bc, m).value + rest) == Ok(Some((m, |Frame(bc, m).value|)))
  {
    var payload := bc.ser(m).value;
    var h := NewHeader(MessageTypeOf(m), |payload|);
    DecodeOfEncoded(h);
    DecodeHeaded(bc, h, payload, rest);
  }

  /** Every strict prefix of a frame is reported incomplete. */
  lemma StrictPrefixIncomplete(bc: Bincode, m: Message, k: nat)
    requires Frame(bc, m).Ok? && k < |Frame(bc, m).value|
    ensures DecodeFrame(bc, Frame(bc, m).value[..k]) == Ok(None)
  {
    var payload := bc.ser(m).value;
    var h := NewHeader(MessageTypeOf(m), |payload|);
    DecodeOfEncoded(h);
    if HEADER_SIZE <= k {
      assert Frame(bc, m).value[..k][..HEADER_SIZE] == HeaderBytes(h);
    }
  }

  /** What a reader holds: the messages decoded so far, the undecoded bytes, and the error that stopped it. */
  datatype Decoded = Decoded(messages: seq<Message>, rest: Bytes, error: Option<FrameError>)

  /** Decode frames off the head of the buffer for as long as it goes. */
  function Drain(bc: Bincode, buf: Bytes): Decoded
    decreases |buf|
  {
    match DecodeFrame(bc, buf)
    case Err(e) => Decoded([], buf, Some(e))
    case Ok(None) => Decoded([], buf, None)
    case Ok(Some((m, n))) =>
      var tail := Drain(bc, buf[n..]);
      tail.(messages := [m] + tail.messages)
  }

  /** It goes on until the head of the rest is no whole frame, or none at all. */
  lemma {:induction false} DrainStops(bc: Bincode, buf: Bytes)
    ensures var d := Drain(bc, buf);
            && |d.rest| <= |buf| && d.rest == buf[|buf| - |d.rest|..]
            && DecodeFrame(bc, d.rest) == if d.error.Some? then Err(d.error.value) else Ok(None)
    decreases |buf|
  {
    if DecodeFrame(bc, buf).Ok? && DecodeFrame(bc, buf).value.Some? {
      var n := DecodeFrame(bc, buf).value.value.1;
      DrainStops(bc, buf[n..]);
      var rest := Drain(bc, buf).rest;
      assert buf[n..][|buf| - n - |rest|..] == buf[|buf| - |rest|..];
    }
  }

  /** One read: append the new bytes to what is left and retry. An error is final. */
  function Feed(bc: Bincode, d: Decoded, piece: Bytes): Decoded {
    if d.error.Some? then d.(rest := d.rest + piece)
    else
      var t := Drain(bc, d.rest + piece);
      Decoded(d.messages + t.messages, t.rest, t.error)
  }

  function FeedAll(bc: Bincode, pieces: seq<Bytes>): Decoded {
    if pieces == [] then Decoded([], [], None)
    else Feed(bc, FeedAll(bc, pieces[..|pieces| - 1]), pieces[|pieces| - 1])
  }

  function Concat(pieces: seq<Bytes>): Bytes {
    if pieces == [] then [] else Concat(pieces[..|pieces| - 1]) + pieces[|pieces| - 1]
  }

  lemma {:induction false} DrainAppend(bc: Bincode, buf: Bytes, more: Bytes)
    ensures Drain(bc, buf + more) == Feed(bc, Drain(bc, buf), more)
    decreases |buf|
  {
    var d := DecodeFrame(bc, buf);
    if d == Ok(None) {
    } else {
      DecodeStable(bc, buf, more);
      if d.Ok? {
        var (m, n) := d.value.value;
        assert (buf + more)[n..] == buf[n..] + more;
        DrainAppend(bc, buf[n..], more);
        FeedAfter(bc, m, Drain(bc, buf[n..]), more);
      }
    }
  }

  lemma FeedAfter(bc: Bincode, m: Message, t: Decoded, more: Bytes)
    ensures Feed(bc, t.(messages := [m] + t.messages), more)
         == Feed(bc, t, more).(messages := [m] + Feed(bc, t, more).messages)
  {
    var u := Drain(bc, t.rest + more);
    assert [m] + (t.messages + u.messages) == ([m] + t.messages) + u.messages;
  }

  /** Cutting a byte stream into pieces never changes what is decoded from it, errors included. */
  lemma {:induction false} IncrementalIsBatch(bc: Bincode, pieces: seq<Bytes>)
    ensures FeedAll(bc, pieces) == Drain(bc, Concat(pieces))
  {
    if pieces == [] {
    } else {
      var front := pieces[..|pieces| - 1];
      IncrementalIsBatch(bc, front);
      DrainAppend(bc, Concat(front), pieces[|pieces| - 1]);
    }
  }

  predicate AllEncodable(bc: Bincode, ms: seq<Message>) {
    forall i :: 0 <= i < |ms| ==> Frame(bc, ms[i]).Ok?
  }

  function Frames(bc: Bincode, ms: seq<Message>): Bytes
    requires AllEncodable(bc, ms)
  {
    if ms == [] then [] else Frame(bc, ms[0]).value + Frames(bc, ms[1..])
  }

  lemma {:induction false} DrainFrames(bc: Bincode, ms: seq<Message>)
    requires Lawful(bc) && AllEncodable(bc, ms)
    ensures Drain(bc, Frames(bc, ms)) == Decoded(ms, [], None)
  {
    if ms == [] {
    } else {
      var f := Frame(bc, ms[0]).value;
      var tail := Frames(bc, ms[1..]);
      DecodeEncoded(bc, ms[0], tail);
      assert (f + tail)[|f|..] == tail;
      DrainFrames(bc, ms[1..]);
      assert [ms[0]] + ms[1..] == ms;
    }
  }

  /** Messages written as frames and delivered in arbitrary pieces arrive complete and in order. */
  lemma PiecesRecoverMessages(bc: Bincode, ms: seq<Message>, pieces: seq<Bytes>)
    requires Lawful(bc) && AllEncodable(bc, ms) && Concat(pieces) == Frames(bc, ms)
    ensures FeedAll(bc, pieces) == Decoded(ms, [], None)
  {
    IncrementalIsBatch(bc, pieces);
    DrainFrames(bc, ms);
  }

  lemma {:induction false} FramesSnoc(bc: Bincode, ms: seq<Message>, m: Message)
    requires AllEncodable(bc, ms + [m])
    ensures AllEncodable(bc, ms) && Frame(bc, m).Ok?
    ensures Frames(bc, ms + [m]) == Frames(bc, ms) + Frame(bc, m).value
  {
    assert (ms + [m])[|ms|] == m;
    forall i | 0 <= i < |ms| ensures Frame(bc, ms[i]).Ok? {
      assert (ms + [m])[i] == ms[i];
    }
    if ms == [] {
      assert ms + [m] == [m];
      assert Frames(bc, [m]) == Frame(bc, m).value + Frames(bc, []);
    } else {
      assert (ms + [m])[1..] == ms[1..] + [m];
      FramesSnoc(bc, ms[1..], m);
    }
  }
}

/** Reading and writing messages on a stream (crates/network/src/stream.rs, peer_loop.rs). */
module MessageStream {
  import opened Wrappers
  import opened Protocol
  import opened FrameHeader
  import opened Codec

  datatype NetError = NetworkError | ProtocolError

  /** One direction of an ordered, reliable stream: the bytes written and not yet read. */
  class ByteStream {
    var data: Bytes

    constructor ()
      ensures data == []
    {
      data := [];
    }

    method WriteAll(bytes: Bytes)
      modifies this
      ensures data == old(data) + bytes
    {
      data := data + bytes;
    }

    /** `read_exact`: all of `n` bytes, or an error after the stream has run dry. */
    method ReadExact(n: nat) returns (r: Option<Bytes>)
      modifies this
      ensures r.Some? <==> n <= |old(data)|
      ensures r.Some? ==> r.value == old(data)[..n] && data == old(data)[n..]
      ensures r.None? ==> data == []
    {
      if n <= |data| {
        r := Some(data[..n]);
        data := data[n..];
      } else {
        r := None;
        data := [];
      }
    }
  }

  method WriteMessage(bc: Bincode, w: ByteStream, m: Message) returns (r: Result<(), NetError>)
    modifies w
    ensures r.Ok? <==> Frame(bc, m).Ok?
    ensures r.Ok? ==> w.data == old(w.data) + Frame(bc, m).value
    ensures r.Err? ==> w.data == old(w.data) && r.error == ProtocolError
  {
    var bytes := EncodeFrame(bc, m);
    if bytes.Err? {
      return Err(ProtocolError);
    }
    w.WriteAll(bytes.value);
    return Ok(());
  }

  /** The header and as many payload bytes as it announces, None when the stream ends first. */
  method ReadFramed(r: ByteStream) returns (framed: Option<Bytes>)
    modifies r
    ensures framed.Some? <==>
              && HEADER_SIZE <= |old(r.data)|
              && FrameSize(old(r.data)) <= |old(r.data)|
    ensures framed.Some? ==>
              && framed.value == old(r.data)[..FrameSize(old(r.data))]
              && r.data == old(r.data)[FrameSize(old(r.data))..]
    ensures framed.None? ==> r.data == []
  {
    var first := r.ReadExact(HEADER_SIZE);
    if first.None? {
      return None;
    }
    var header := DecodeHeader(first.value);
    var payload: Bytes := [];
    if header.length > 0 {
      var second := r.ReadExact(header.length);
      if second.None? {
        return None;
      }
      payload := second.value;
    }
    return Some(first.value + payload);
  }

  function FrameSize(data: Bytes): nat
    requires HEADER_SIZE <= |data|
  {
    HEADER_SIZE + DecodeHeader(data[..HEADER_SIZE]).length
  }

  /** The stream ends before the header or the payload it announces. */
  predicate IsShort(data: Bytes) {
    |data| < HEADER_SIZE || |data| < FrameSize(data)
  }

  /** `read_message` pulls exactly what `decode_frame` on the whole stream would use, and
      succeeds exactly when it does. A stream that ends inside a frame is a network error, whatever else
      is wrong with the frame, and every other failure a protocol error. */
  method ReadMessage(bc: Bincode, r: ByteStream) returns (res: Result<Message, NetError>)
    modifies r
    ensures res.Ok? <==> DecodeFrame(bc, old(r.data)).Ok? && DecodeFrame(bc, old(r.data)).value.Some?
    ensures res.Ok? ==>
              var (m, n) := DecodeFrame(bc, old(r.data)).value.value;
              res.value == m && n <= |old(r.data)| && r.data == old(r.data)[n..]
    ensures res.Ok? ==> HoldsFrame(bc, old(r.data), res.value, |old(r.data)| - |r.data|)
    ensures res.Err? ==> forall m, n :: !HoldsFrame(bc, old(r.data), m, n)
    ensures res.Err? ==> (res.error == NetworkError <==> IsShort(old(r.data)))
    ensures res.Err? && IsShort(old(r.data)) ==> r.data == []
    ensures DecodeFrame(bc, old(r.data)) == Ok(None) ==> res == Err(NetworkError)
  {
    FirstFrameDecides(bc, r.data);
    NoFrame(bc, r.data);
    ghost var whole := r.data;
    var framed := ReadFramed(r);
    if framed.None? {
      return Err(NetworkError);
    }
    var decoded := DecodeFrame(bc, framed.value);
    if decoded.Err? || decoded.value.None? {
      return Err(ProtocolError);
    }
    DecodesExactly(bc, whole, decoded.value.value.0, decoded.value.value.1);
    return Ok(decoded.value.value.0);
  }

  /** The decoder's answer on a stream depends only on the first frame's worth of bytes. */
  lemma FirstFrameDecides(bc: Bincode, whole: Bytes)
    ensures HEADER_SIZE <= |whole| && FrameSize(whole) <= |whole| ==>
              && DecodeFrame(bc, whole) == DecodeFrame(bc, whole[..FrameSize(whole)])
              && DecodeFrame(bc, whole) != Ok(None)
              && (DecodeFrame(bc, whole).Ok? ==> DecodeFrame(bc, whole).value.value.1 == FrameSize(whole))
    ensures |whole| < HEADER_SIZE || |whole| < FrameSize(whole) ==>
              DecodeFrame(bc, whole).Err? || DecodeFrame(bc, whole) == Ok(None)
  {
    if HEADER_SIZE <= |whole| && FrameSize(whole) <= |whole| {
      var framed := whole[..FrameSize(whole)];
      assert framed[..HEADER_SIZE] == whole[..HEADER_SIZE];
      assert framed + whole[FrameSize(whole)..] == whole;
      DecodeStable(bc, framed, whole[FrameSize(whole)..]);
    }
  }

  /** `read_loop`: read until the first error, handing on each message. */
  method ReadLoop(bc: Bincode, r: ByteStream) returns (inbound: seq<Message>)
    modifies r
    ensures inbound == Drain(bc, old(r.data)).messages
  {
    inbound := [];
    while true
      invariant Drain(bc, old(r.data)).messages == inbound + Drain(bc, r.data).messages
      decreases |r.data|
    {
      ghost var before := r.data;
      var res := ReadMessage(bc, r);
      if res.Err? {
        break;
      }
      ghost var tail := Drain(bc, r.data);
      assert Drain(bc, before).messages == [res.value] + tail.messages;
      assert inbound + ([res.value] + tail.messages) == (inbound + [res.value]) + tail.messages;
      inbound := inbound + [res.value];
    }
  }

  /** `write_loop`: write until the first message that does not encode. */
  method WriteLoop(bc: Bincode, w: ByteStream, outbound: seq<Message>) returns (sent: nat)
    modifies w
    ensures sent <= |outbound| && AllEncodable(bc, outbound[..sent])
    ensures sent < |outbound| ==> Frame(bc, outbound[sent]).Err?
    ensures w.data == old(w.data) + Frames(bc, outbound[..sent])
  {
    sent := 0;
    while sent < |outbound|
      invariant sent <= |outbound| && AllEncodable(bc, outbound[..sent])
      invariant w.data == old(w.data) + Frames(bc, outbound[..sent])
    {
      var res := WriteMessage(bc, w, outbound[sent]);
      if res.Err? {
        break;
      }
      assert outbound[..sent + 1] == outbound[..sent] + [outbound[sent]];
      FramesSnoc(bc, outbound[..sent], outbound[sent]);
      sent := sent + 1;
    }
  }

  /** Both ends of a stream: what was written is read back, in order, up to the first message
      that does not encode. */
  method WriteThenRead(bc: Bincode, s: ByteStream, outbound: seq<Message>) returns (inbound: seq<Message>)
    requires Lawful(bc) && s.data == []
    modifies s
    ensures inbound <= outbound && AllEncodable(bc, inbound)
    ensures |inbound| < |outbound| ==> Frame(bc, outbound[|inbound|]).Err?
  {
    var sent := WriteLoop(bc, s, outbound);
    assert s.data == Frames(bc, outbound[..sent]);
    DrainFrames(bc, outbound[..sent]);
    inbound := ReadLoop(bc, s);
  }
}
