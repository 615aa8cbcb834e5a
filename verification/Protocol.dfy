/** 32-bit signed arithmetic as a release build performs it. */
module I32 {
  /** Two's-complement wrap-around, the result of `-` on i32. */
  function Wrap(n: int): int {
    (n + 0x8000_0000) % 0x1_0000_0000 - 0x8000_0000
  }

  predicate Fits(n: int) {
    -0x8000_0000 <= n <= 0x7FFF_FFFF
  }

  lemma WrapFits(n: int)
    ensures Fits(Wrap(n))
    ensures Fits(n) ==> Wrap(n) == n
  {
  }

  /** It is the only number that fits and is the same modulo 2^32. */
  lemma WrapExactly(n: int, m: int)
    ensures Fits(m) && (m - n) % 0x1_0000_0000 == 0 <==> m == Wrap(n)
  {
  }

  /** `saturating_add`. */
  function Saturate(n: int): int {
    if n < -0x8000_0000 then -0x8000_0000 else if n > 0x7FFF_FFFF then 0x7FFF_FFFF else n
  }

  /** It is the nearest number that fits. */
  lemma SaturateIsNearest(n: int, m: int)
    ensures Fits(Saturate(n)) && (Fits(n) ==> Saturate(n) == n)
    ensures Fits(m) && m <= n ==> m <= Saturate(n) <= n
    ensures Fits(m) && n <= m ==> n <= Saturate(n) <= m
  {
  }
}

/** Input events as the capture and injection layers see them (crates/core/src/event.rs). */
module Input {
  import opened Wrappers

  datatype Point = Point(x: int, y: int)

  datatype KeyState = Pressed | Released

  datatype Modifier = SHIFT | CTRL | ALT | SUPER | CAPS_LOCK | NUM_LOCK | ALT_GR

  /** The bit set `ModifierState`, as the set of its flags. */
  type ModifierState = set<Modifier>

  /** The discriminants of `KeyCode`: 0 is Unknown, the rest are USB HID usages. */
  type KeyCode = k: int | k == 0 || 4 <= k <= 49 || 51 <= k <= 82 || 224 <= k <= 231

  const ESCAPE: KeyCode := 41
  const LEFT_CTRL: KeyCode := 224
  const LEFT_SHIFT: KeyCode := 225
  const LEFT_ALT: KeyCode := 226
  const LEFT_SUPER: KeyCode := 227
  const RIGHT_CTRL: KeyCode := 228
  const RIGHT_SHIFT: KeyCode := 229
  const RIGHT_ALT: KeyCode := 230
  const RIGHT_SUPER: KeyCode := 231

  datatype Button = LeftButton | RightButton | MiddleButton | BackButton | ForwardButton | OtherButton(id: int)

  datatype MouseEvent =
    | Move(x: int, y: int)
    | MoveRelative(dx: int, dy: int)
    | ButtonEvent(button: Button, buttonState: KeyState)
    | Scroll(horizontal: int, vertical: int)

  datatype KeyEvent = KeyEvent(code: KeyCode, state: KeyState, modifiers: ModifierState, character: Option<int>)

  datatype InputEvent =
    | Mouse(mouse: MouseEvent)
    | Key(key: KeyEvent)
    | EnterEvent(ex: int, ey: int, emods: ModifierState)
    | LeaveEvent(peerScreen: int)
    | SyncEvent(smods: ModifierState)

  /** Ctrl+Alt+Shift+Escape: Escape, which is key 41, goes down while the three flags are set. */
  predicate PressesChord(e: InputEvent) {
    e.Key? && e.key.code == 41 && e.key.state == Pressed && {CTRL, ALT, SHIFT} <= e.key.modifiers
  }

  /** The kinds of event the capture drain produces. */
  predicate Captured(e: InputEvent) {
    e.Key? || (e.Mouse? && !e.mouse.MoveRelative?)
  }
}

/** Wire messages and their type identifiers
    (crates/protocol/src/message.rs, crates/protocol/src/header.rs). */
module Protocol {
  import opened Wrappers
  import opened Input

  type PeerId = nat
  type Bytes = seq<byte>
  type byte = b: int | 0 <= b < 0x100
  type u16 = n: int | 0 <= n < 0x1_0000
  type u32 = n: int | 0 <= n < 0x1_0000_0000

  /** A 32-byte content hash; the program only stores and compares it. */
  type Digest = nat

  datatype ClipboardFormat = PlainText | Html | Rtf | Png | UriList

  datatype Capabilities = Capabilities(
    clipboardText: bool, clipboardHtml: bool, clipboardImage: bool,
    clipboardFiles: bool, fileTransfer: bool, zstdCompression: bool)

  datatype ClipboardPayload = ClipboardPayload(format: ClipboardFormat, bytes: Bytes, originator: PeerId, hash: Digest)

  datatype FileEntry = FileEntry(relativePath: string, size: nat, blake3: Digest)

  datatype FileManifest = FileManifest(files: seq<FileEntry>, totalBytes: nat)

  datatype FileChunk = FileChunk(transferId: nat, fileIndex: nat, offset: nat, data: Bytes, isLast: bool)

  datatype Message =
    | Hello(helloId: PeerId, helloName: string, helloVersion: int, helloCaps: Capabilities)
    | Welcome(welcomeId: PeerId, welcomeName: string, accepted: Capabilities, assignedScreen: int)
    | Goodbye(reason: string)
    | MouseMove(x: int, y: int)
    | MouseMoveRelative(dx: int, dy: int)
    | MouseButton(buttonEvent: MouseEvent)
    | MouseScroll(scrollEvent: MouseEvent)
    | KeyMessage(key: KeyEvent)
    | ScreenEnter(enterX: int, enterY: int, modifiers: ModifierState)
    | ScreenLeave(peerScreen: int)
    | ModifierSync(held: ModifierState)
    | ClipboardFormats(formats: seq<ClipboardFormat>, hash: Digest)
    | ClipboardRequest(format: ClipboardFormat)
    | ClipboardData(payload: ClipboardPayload)
    | FileOfferStart(offerId: nat, manifest: FileManifest, compressed: bool)
    | FileChunkMessage(chunk: FileChunk)
    | FileAck(ackId: nat, receivedThrough: nat)
    | FileTransferCancel(cancelId: nat, cancelReason: string)
    | Ping(pingNonce: nat, pingTime: nat)
    | Pong(pongNonce: nat, pongTime: nat)
    | ErrorMessage(code: int, text: string)

  datatype MessageType =
    | HelloType | WelcomeType | GoodbyeType
    | MouseMoveType | MouseMoveRelativeType | MouseButtonType | MouseScrollType | KeyEventType
    | ScreenEnterType | ScreenLeaveType | ModifierSyncType
    | ClipboardFormatsType | ClipboardRequestType | ClipboardDataType
    | FileOfferStartType | FileChunkType | FileAckType | FileTransferCancelType
    | PingType | PongType | ErrorType

  function MessageTypeOf(m: Message): MessageType {
    match m
    case Hello(_, _, _, _) => HelloType
    case Welcome(_, _, _, _) => WelcomeType
    case Goodbye(_) => GoodbyeType
    case MouseMove(_, _) => MouseMoveType
    case MouseMoveRelative(_, _) => MouseMoveRelativeType
    case MouseButton(_) => MouseButtonType
    case MouseScroll(_) => MouseScrollType
    case KeyMessage(_) => KeyEventType
    case ScreenEnter(_, _, _) => ScreenEnterType
    case ScreenLeave(_) => ScreenLeaveType
    case ModifierSync(_) => ModifierSyncType
    case ClipboardFormats(_, _) => ClipboardFormatsType
    case ClipboardRequest(_) => ClipboardRequestType
    case ClipboardData(_) => ClipboardDataType
    case FileOfferStart(_, _, _) => FileOfferStartType
    case FileChunkMessage(_) => FileChunkType
    case FileAck(_, _) => FileAckType
    case FileTransferCancel(_, _) => FileTransferCancelType
    case Ping(_, _) => PingType
    case Pong(_, _) => PongType
    case ErrorMessage(_, _) => ErrorType
  }

  function TypeId(t: MessageType): u16 {
    match t
    case HelloType => 0x0001
    case WelcomeType => 0x0002
    case GoodbyeType => 0x0003
    case MouseMoveType => 0x0100
    case MouseMoveRelativeType => 0x0104
    case MouseButtonType => 0x0101
    case MouseScrollType => 0x0102
    case KeyEventType => 0x0103
    case ScreenEnterType => 0x0110
    case ScreenLeaveType => 0x0111
    case ModifierSyncType => 0x0112
    case ClipboardFormatsType => 0x0200
    case ClipboardRequestType => 0x0201
    case ClipboardDataType => 0x0202
    case FileOfferStartType => 0x0300
    case FileChunkType => 0x0301
    case FileAckType => 0x0302
    case FileTransferCancelType => 0x0303
    case PingType => 0x0F00
    case PongType => 0x0F01
    case ErrorType => 0x0F02
  }

  /** `MessageType::from_u16`: the left inverse of `TypeId`, and undefined exactly off its range. */
  function FromU16(v: u16): (t: Option<MessageType>)
    ensures t.Some? ==> TypeId(t.value) == v
    ensures t.None? ==> forall u: MessageType :: TypeId(u) != v
  {
    match v
    case 0x0001 => Some(HelloType)
    case 0x0002 => Some(WelcomeType)
    case 0x0003 => Some(GoodbyeType)
    case 0x0100 => Some(MouseMoveType)
    case 0x0104 => Some(MouseMoveRelativeType)
    case 0x0101 => Some(MouseButtonType)
    case 0x0102 => Some(MouseScrollType)
    case 0x0103 => Some(KeyEventType)
    case 0x0110 => Some(ScreenEnterType)
    case 0x0111 => Some(ScreenLeaveType)
    case 0x0112 => Some(ModifierSyncType)
    case 0x0200 => Some(ClipboardFormatsType)
    case 0x0201 => Some(ClipboardRequestType)
    case 0x0202 => Some(ClipboardDataType)
    case 0x0300 => Some(FileOfferStartType)
    case 0x0301 => Some(FileChunkType)
    case 0x0302 => Some(FileAckType)
    case 0x0303 => Some(FileTransferCancelType)
    case 0x0F00 => Some(PingType)
    case 0x0F01 => Some(PongType)
    case 0x0F02 => Some(ErrorType)
    case _ => None
  }

  /** `Message::from_input`. */
  function FromInput(e: InputEvent): Message {
    match e
    case Mouse(Move(x, y)) => MouseMove(x, y)
    case Mouse(MoveRelative(dx, dy)) => MouseMoveRelative(dx, dy)
    case Mouse(ButtonEvent(_, _)) => MouseButton(e.mouse)
    case Mouse(Scroll(_, _)) => MouseScroll(e.mouse)
    case Key(k) => KeyMessage(k)
    case EnterEvent(x, y, m) => ScreenEnter(x, y, m)
    case LeaveEvent(s) => ScreenLeave(s)
    case SyncEvent(m) => ModifierSync(m)
  }
}
