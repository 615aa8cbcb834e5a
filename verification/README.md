# InputSync, modelled and proved in Dafny

InputSync shares one keyboard, mouse, clipboard and set of files between machines. This project models
its four stateful cores and proves what they keep over whole runs. `dafny verify dfyconfig.toml` checks
everything.

| files | what they model |
|---|---|
| `Protocol.dfy`, `Codec.dfy` | i32 arithmetic, input events, wire messages; header, frame codec, stream reader and the peer loops |
| `Edge.dfy`, `Server.dfy` | the routing state machine; the server's drain loop, decisions and peer tracking |
| `Injector.dfy` | the Linux injector, `resync_modifiers` and the client's inbound loop, with a log of device events |
| `Session.dfy`, `Cursor.dfy`, `HeldKeys.dfy` | both machines and the queue between them: message grammar, typed input, held modifiers and keys, wheels, cursor conservation |
| `Crossings.dfy`, `HookToDevice.dfy` | crossings in coordinates and over runs; from a hook event on the server to the device on the client |
| `Capture.dfy`, `Passes.dfy` | the capture drain thread and the route; the input path as its threads interleave, one pass taken apart into a route change and chores |
| `EnterFlags.dfy` | runs from raw hook events to the session; the emergency chord and the flags of a ScreenEnter read off their history |
| `Clipboard.dfy`, `ClipboardNetwork.dfy`, `ClipboardReach.dfy` | one machine's clipboard sync; any number of machines; which of them one copy reaches |
| `ClipboardConvergence.dfy`, `ClipboardDuel.dfy` | two machines and one copy; two machines and two copies |
| `FileReceiver.dfy`, `FileSender.dfy` | path check, disk, receiver table and `write_chunk`; manifest and chunk stream |
| `FileInterleaving.dfy`, `FileOffers.dfy` | concurrent writes; which offers are accepted, and offers during other transfers |
| `FileTransfer.dfy`, `FileEndToEnd.dfy` | hash and prefix safety, resumption, short reads, whole transfers |

What the source updates in place is a class (`EdgeDetector`, `ServerSession`, `LinuxInject`,
`DrainThread`, `ClipboardManager`, `Receiver`, `ByteStream`), and what it does in loops is a loop. Each
such method is proved equal to a specification function on values; the theorems about runs are lemmas
about these functions.

## Reading the theorems

- A run is any sequence of steps. Tasks interleave freely; queues are first-in first-out, except that the
  clipboard network delivers in any order and may lose messages, which includes every ordered channel.
- In `Session`, `Cursor`, `HeldKeys` and `Routing` one pass of the drain loop is one step. `Passes` takes it
  apart: hook events, connections and other tasks' messages may come between the route change, each awaited
  send, the warp, the switch of capture and the forwarding. `ClientSeesOnlySteps` and `RouteSeesOnlySteps` prove
  that neither the client nor the route can tell the difference; capture can (`CaptureOutsideRoute`).
- Input theorems follow one peer that is first in the list and stays connected, while others come and go.
  Nothing is dropped by `try_send`, and writes to the device succeed. `I32` states wrap-around and
  saturation explicitly; cursor conservation assumes moves within 2^28 of the origin, which keeps both
  out of play.
- `bincode` is a pair of functions of which only deserialize(serialize(m)) = m is assumed. The hasher is a
  state machine of which only update(s, []) = s and update(update(s, a), b) = update(s, a + b) are assumed.
  The clipboard hash is an arbitrary function; no theorem needs it to be collision-free.
- File writes follow the source's locking: check, store and commit are separate steps, with at most one
  write per file in flight. Offers are handled before their own chunks, at any point of other transfers. The
  receiver never drops a table entry; theorems about concurrent writes ask only of the transfers still being
  written (`live`) that their files are at different places and on disk, nothing of the finished ones.
- The receiver's disk has regular files and directories, so that a file in the place of a directory, a
  directory in the place of a file, or a path that can only name a directory makes an offer fail as it
  does in the program. Reads of the sender may deliver any number of bytes; the end-to-end theorem
  is for reads that fill the buffer until the file ends, and `ShortReadIsCaught` for the others.

## Where code and documents disagree

The model follows the code. Each of these is a theorem.

- The documents promise that modifiers held while crossing are held on the far side (summary.md:95,
  docs/TESTING.md:411, and the comment at crates/platform/src/windows/capture.rs:204-205). The flags of a
  ScreenEnter are those of the last key event the edge detector took, as tracked when that key was hooked
  (`DetectorHoldsSeenFlags`). A key gets there only if it was hooked while capture was on, that is while the
  route was remote or a leave had yet to switch capture off (`LocalKeysAreNotSeen`, `LeaveLetsKeysThrough`).
  `EnterFlagsAreRightExactly` says for every run when the client then holds the right keys, and
  `ChordIsReplayedOnReentry` that the emergency chord is pressed again on the next entry.
- Two machines that copy different contents at the same time may swap them or agree on either
  (`TwoCopiesExactly`). Copying content whose hash was recorded before is not announced
  (`CopyConvergesExactly`). Nobody passes a copy on, so between two clients of one server it goes nowhere
  (`CopyReachesExactly`).
- A file whose size is a multiple of 65536 has no chunk marked last, so its digest is never compared
  (`LastIsMarked`, `ChangedFileIsCaughtExactly`).
- A file of an offer is not created or opened, as the comment at crates/filetransfer/src/lib.rs:136 has it, but
  emptied, and it stays so when a later file makes the offer fail (`RefusedOffer`).
- The code takes a short read for the end of the file (`ShortReadEndsFile`, `ShortReadIsCaught`).
- The route can be remote with no peer to send to: after the last peer has left, or with a configured
  neighbour from the start (`InputIsLostExactly`). A peer that then joins gets input that no ScreenEnter
  precedes, as does one that becomes the first when the peer before it leaves (`LateJoinNeedsLocalRoute`).
- Keys and buttons other than modifiers are not released when the cursor leaves (`NothingHeldExactly`).
- Parking the cursor inside the screen prevents a bounce exactly from 4x4 on (`ParkedCursorStaysLocal`).
- `sanitize` is documented to reject drive letters, and does so on Windows only (`DriveLettersPassOnUnix`).

## Model

| member | source | states |
|---|---|---|
| FrameHeader.EncodeHeader | crates/protocol/src/header.rs:30-37 | filling the 12-byte array slice by slice gives magic, version, type and length in big-endian order |
| FrameHeader.DecodeOfEncoded | crates/protocol/src/header.rs:30-48 | decoding an encoded header gives the header back, for every header |
| FrameHeader.EncodeOfDecoded | crates/protocol/src/header.rs:39-48 | every 12-byte string is the encoding of what it decodes to, so no two strings decode alike |
| FrameHeader.HeaderRoundTrip | crates/protocol/src/header.rs:30-48 | headers and 12-byte strings correspond one to one: decode(b) is h exactly if encode(h) is b |
| Protocol.FromU16 | crates/protocol/src/header.rs:89-114 | from_u16 is the left inverse of the type identifiers and answers None exactly for numbers that identify nothing |
| I32.WrapExactly | crates/daemon/src/session.rs:229-232 | i32 subtraction gives the one number in range that is the same modulo 2^32 |
| I32.SaturateIsNearest | crates/platform/src/linux/inject.rs:170-174 | `saturating_add` gives the number in range nearest to the sum |
| Codec.EncodeFrame | crates/protocol/src/codec.rs:33-44 | the frame is the header announcing the payload's type and size, then the payload; an unserializable or oversized message gives the matching error |
| Codec.WriteFrame | crates/protocol/src/codec.rs:47-57 | appends exactly the bytes `encode_frame` gives, keeps what the buffer held, and adds nothing on an error |
| Codec.EncodesExactly | crates/protocol/src/codec.rs:33-44 | a message is encoded exactly if it serializes to at most 64 MiB; its frame is ISYN, version 1, the identifier of its own type, the payload's length, the payload |
| Codec.DecodesExactly | crates/protocol/src/codec.rs:67-99 | acceptance in numbers: a message is decoded exactly from ISYN, version 1, an identifier in use, and a whole payload of the announced length up to 64 MiB that reads as it; "incomplete" exactly for less than a header or a payload not there yet |
| Codec.RefusesExactly | crates/protocol/src/codec.rs:74-96 | each error exactly for its cause, the first thing that is wrong |
| Codec.DecodesOnlyFrames | crates/protocol/src/codec.rs:67-99 | what is decoded is exactly a header the encoder writes for some message type, followed by a payload that reads as the message |
| Codec.DecodeStable | crates/protocol/src/codec.rs:59-99 | any answer but "incomplete", errors included, is unchanged by appending bytes |
| Codec.DecodeUses | crates/protocol/src/codec.rs:59-99 | a decoded message used exactly the frame its header announces, and those bytes alone decode to it |
| Codec.DecodeEncoded | crates/protocol/src/codec.rs:33-99 | decoding an encoded message followed by anything gives the message and the frame's length |
| Codec.StrictPrefixIncomplete | crates/protocol/src/codec.rs:59-99 | every strict prefix of an encoded frame is reported incomplete |
| Codec.DrainAppend | crates/protocol/src/codec.rs:59-99 | decoding all frames of a buffer and then more bytes is decoding them together |
| Codec.IncrementalIsBatch | crates/protocol/src/codec.rs:59-99 | however a byte stream is cut into pieces, feeding them with a retry after each gives what decoding the whole gives: messages, rest and error |
| Codec.DrainFrames | crates/protocol/src/codec.rs:33-99 | a concatenation of frames decodes to exactly its messages with nothing left over |
| Codec.PiecesRecoverMessages | crates/protocol/src/codec.rs:33-99 | messages written as frames and delivered in arbitrary pieces arrive complete and in order |
| MessageStream.WriteMessage | crates/network/src/stream.rs:7-13 | puts the message's frame on the stream, or nothing and an error |
| MessageStream.FirstFrameDecides | crates/protocol/src/codec.rs:71-99 | `decode_frame` on a whole stream depends only on the first frame's worth of bytes, and never calls a complete frame incomplete |
| MessageStream.ReadFramed | crates/network/src/stream.rs:15-33 | pulls the header and the announced payload, exactly that many bytes, or fails when the stream ends first |
| MessageStream.ReadMessage | crates/network/src/stream.rs:15-38 | refinement: returns m and consumes n bytes exactly when `decode_frame` on the stream's content returns (m, n), so only ever a frame by the numbers of `DecodesExactly`; fails with a network error exactly when the header or the payload it announces is cut short, and with a protocol error otherwise |
| MessageStream.ReadLoop | crates/network/src/peer_loop.rs:37-48 | hands on exactly the messages that decoding the whole stream gives, up to the first error |
| MessageStream.WriteLoop | crates/network/src/peer_loop.rs:27-35 | writes the frames of the longest run of messages that encode |
| MessageStream.WriteThenRead | crates/network/src/peer_loop.rs:27-48 | round trip of both loops: what is read is what was written, in order, up to the first message that does not encode |
| Edge.NeighbourOfIsFirst | crates/core/src/screen.rs:55-61 | the earliest matching layout entry decides |
| Edge.EdgeDetector.constructor | crates/daemon/src/edge.rs:63-75 | starts local, at the origin, without flags or auto peer |
| Edge.EdgeDetector.SetAutoPeer | crates/daemon/src/edge.rs:80-82 | changes the auto peer and nothing else |
| Edge.EdgeDetector.ForceToLocal | crates/daemon/src/edge.rs:94-102 | routes to Local and reports the screen left, if any |
| Edge.EdgeDetector.ObserveEvent | crates/daemon/src/edge.rs:107-157 | the new state, the decision and the forwarding mark are those of the specification function `Observe`, whose properties the lemmas prove |
| Edge.ObserveRoute | crates/daemon/src/edge.rs:107-173 | the route leaves Local exactly on a move not strictly inside the screen with a target for the crossed side; it never returns to Local here; an event is marked for forwarding exactly if the resulting route is Remote |
| Edge.CrossesExactly | crates/daemon/src/edge.rs:116-214 | in coordinates, left (x <= 1), right, top, bottom in this order: a local move there goes to the side's first layout entry, else to the auto peer, with the entry at the far end (x or y 32000 or 0) and the parking place in the middle of the side, two pixels inside; elsewhere it stays |
| Edge.OthersOnlyNote | crates/daemon/src/edge.rs:107-113 | any other event decides nothing, and only a key event or a sync sets the flags |
| Edge.ParkedCursorStaysLocal | crates/daemon/src/edge.rs:204-214 | the parking point is clear of all edges exactly on screens of at least 4x4, and there a move to it after `force_local` stays Local |
| Server.ServerSession.Apply | crates/daemon/src/session.rs:256-304 | a decision's messages go to the first peer in the stated order, the cursor is parked and capture is switched |
| Server.ServerSession.HandleEvent | crates/daemon/src/session.rs:210-252 | one pass of the drain loop: emergency, routing, delta computation and forwarding, as the specification function `DrainStep` |
| Server.ServerSession.DrainCapture | crates/daemon/src/session.rs:197-254 | the loop over any events is the fold of `DrainStep` |
| Server.ServerSession.PeerConnected | crates/daemon/src/session.rs:331-337 | the peer is appended and the auto peer set |
| Server.ServerSession.PeerDisconnected | crates/daemon/src/session.rs:346-354 | exactly the entries of that peer go, in order; the auto peer is cleared only if none remains |
| Server.WithoutExact | crates/daemon/src/session.rs:346-348 | `retain` removes all entries of the peer and no other |
| Injector.LinuxInject.InjectEvent | crates/platform/src/linux/inject.rs:153-215 | the events written and the position kept are those of the specification function `Inject` |
| Injector.LinuxInject.ReleaseAllModifiers | crates/platform/src/linux/inject.rs:217-236 | one batch releasing all eight modifier keys |
| Injector.ResyncModifiers | crates/daemon/src/session.rs:477-496 | release, then press the flagged left keys in the table's order |
| Injector.HandleInbound | crates/daemon/src/session.rs:399-475 | what each message makes the client inject |
| Injector.InboundLoop | crates/daemon/src/session.rs:390-475 | the loop over any messages is the fold of `Handle` |
| Injector.ReleaseAllEffect | crates/platform/src/linux/inject.rs:217-236 | on the device, exactly the modifier keys come up; other keys and the pointer stay |
| Injector.ResyncEffect | crates/daemon/src/session.rs:477-496 | whatever was held before, the modifiers held afterwards are exactly the left variants of the Shift, Ctrl, Alt and Super flags; other keys and the pointer stay |
| Injector.ForwardedIsInjected | crates/protocol/src/message.rs:98-111 | a captured event that is translated to a message and handled by the client is injected as it was |
| Injector.CodesAreDistinct | crates/platform/src/linux/inject.rs:217-244 | different known keys get different codes, those `release_all_modifiers` uses, and no button shares one |
| Injector.PressEffect | crates/platform/src/linux/inject.rs:180-185 | on the device a button sets or clears its own code, a key its usage plus 8, and nothing else changes |
| Injector.ScrollEffect | crates/platform/src/linux/inject.rs:186-209 | scrolling turns each wheel by its own axis' notches and its fine unit by 120 times as many, and nothing else changes |
| Injector.MoveToMotion | crates/platform/src/linux/inject.rs:155-169 | an absolute move leads to its point and moves the device by the difference in i32, for all positions |
| Injector.MoveByMotion | crates/platform/src/linux/inject.rs:170-179 | a relative move moves the device by exactly what was asked for, and the remembered position with saturation |
| Injector.HandledIsReported | crates/platform/src/linux/inject.rs:135-138 | whatever messages are handled, the last thing written to the device is a report |
| Injector.MoveToEffect | crates/platform/src/linux/inject.rs:155-169 | an absolute move puts the device's accumulated motion at that position, if i32 does not overflow |
| Injector.MoveByEffect | crates/platform/src/linux/inject.rs:170-179 | a relative move shifts position and device alike, if i32 does not saturate |
| Session.EmitsIsSent | crates/daemon/src/session.rs:209-303 | one pass of the drain loop sends the first peer exactly the decision's messages followed by the forwarded event |
| Session.SessionGrammar | crates/daemon/src/session.rs:209-303 | in every run the peer gets (ScreenEnter input* ScreenLeave ModifierSync(empty))* with at most one open round, open exactly while the route is Remote, each ScreenLeave naming the screen of the EnterRemote that opened its round |
| Session.LateJoinNeedsLocalRoute | crates/daemon/src/session.rs:331-354 | for a peer that becomes the first in the list with nothing sent to it, by joining an empty list or because its predecessor left, the grammar holds in all runs exactly if the route is Local then |
| Session.TypingIsCarried | crates/daemon/src/session.rs:221-245 | in every run the key, button and scroll messages sent to the peer are exactly the events taken while the route was Remote, except the emergency chord: unchanged, once each, in order |
| Session.TypingArrives | crates/daemon/src/session.rs:413-432 | in every interleaving the client has handled a prefix of that sequence, and all of it once it has caught up |
| Session.ClientHandlesPrefix | crates/daemon/src/session.rs:390-475 | in every interleaving the client's state is that of handling a prefix of what the server sent |
| HeldKeys.KeyHeldExactly | crates/daemon/src/session.rs:427-432 | in every run, once the client has caught up, a key or button other than a modifier is down exactly if the latest event for it taken while Remote is a press, or there is none and it was down before |
| HeldKeys.NothingHeldExactly | crates/daemon/src/session.rs:439-441 | with the route Local and the client caught up, nothing is held on the client exactly if every key and button pressed while Remote, or held from the start, was also released while Remote, and a modifier held from the start has met a ScreenEnter or ScreenLeave |
| Scrolling.WheelsTurnExactly | crates/daemon/src/session.rs:427-432 | in every run, once the client has caught up, each wheel has been turned by exactly the sum of the scrolls of its axis taken while Remote |
| HookToDevice.HookReachesDevice | crates/platform/src/windows/capture.rs:219-263 | a hook event that meets capture on, forwarded and handled, sets on the client's device the code of what its virtual key means, its own button, or the wheel of its own axis; a move keeps its coordinates |
| Session.NoStuckModifiers | crates/daemon/src/session.rs:433-444 | in every interleaving, whatever the client held when the session began: from a handled ScreenLeave to the next ScreenEnter no modifier is held, right after an Enter exactly its flags' left keys are, and before the first of either those of the start |
| CursorConservation.OffsetIsKept | crates/daemon/src/session.rs:221-252 | while the route stays Remote the offset between the two cursors stays what the crossing made it |
| CursorConservation.CursorIsConserved | crates/daemon/src/session.rs:207-252 | with all sent messages applied, the client's position is entry point plus the server's last position minus the last local position before the crossing (the crossing point if none since the last emergency), and its device is there too |
| CursorConservation.CaughtUpCursor | crates/daemon/src/session.rs:413-437 | the same for the running two-machine system whenever the client has caught up |
| Capture.DrainThread.Update | crates/platform/src/windows/capture.rs:267-282 | inserts or removes the key's flag, after cutting the code to 16 bits |
| Capture.DrainThread.Receive | crates/platform/src/windows/capture.rs:204-259 | modifiers are tracked even without capture; moves always pass, other events only while capturing |
| Capture.DrainThread.Run | crates/platform/src/windows/capture.rs:194-265 | the loop hands on exactly the gated events, in order |
| Capture.DrainedEvents | crates/platform/src/windows/capture.rs:211-259 | only keys, absolute moves, buttons and scrolls come out; without capture only moves |
| Capture.TrackingReflectsHistory | crates/platform/src/windows/capture.rs:204-209 | a flag is tracked as held exactly if the latest event of its keys is a key-down |
| Routing.CaptureAgreesWithRoute | crates/daemon/src/session.rs:286-301 | in every run from the start, between passes, capture is on exactly while the route is Remote and the auto peer is set exactly while a peer is tracked |
| Routing.RemoteExactly | crates/daemon/src/edge.rs:94-147 | in every run from the start the route is Remote exactly if some move touched an edge with a configured neighbour or while a peer was tracked, and no emergency chord came later |
| Routing.LeavesLocalOnlyForAPeer | crates/daemon/src/edge.rs:120-147 | the route leaves Local only on a move to an edge with a configured neighbour or while a peer is tracked; without a layout, only while a peer is tracked |
| Routing.InputIsLostExactly | crates/daemon/src/session.rs:346-354 | for any layout the route is Remote, with capture on and no peer, exactly after runs with such a crossing, no later chord and nobody left; then no event is sent to anyone |
| Routing.RouteMayOutliveItsPeer | crates/daemon/src/session.rs:346-354 | on every screen and layout there is such a run: crossing, then the last peer leaves |
| Routing.RouteMayHaveNoPeer | crates/daemon/src/edge.rs:125-135 | with a configured neighbour one move to its edge is enough, no peer ever having connected |
| Routing.ParkedCursorDoesNotBounce | crates/daemon/src/edge.rs:204-214 | on screens of at least 4x4, in every run, a move to the parked position keeps a Local route Local |
| Crossings.CrossingExactly | crates/daemon/src/session.rs:256-286 | one crossing move: the route, the parked cursor, capture, and the ScreenEnter and first movement sent to the first peer, in coordinates |
| Crossings.NothingCrosses | crates/daemon/src/session.rs:218-252 | any other event that finds the route Local leaves it so, sends nothing and moves nothing |
| Crossings.OthersGetNothing | crates/daemon/src/session.rs:221-245 | input goes to the first peer and to nobody else |
| Crossings.DeltaExactly | crates/daemon/src/session.rs:229-234 | a movement is the way from the last position in i32, and none without a last position |
| Crossings.AutoPeerExactly | crates/daemon/src/session.rs:331-354 | after every run the auto peer is screen 1 if a peer is tracked, and else none |
| Crossings.MoveLeadsExactly | crates/daemon/src/edge.rs:120-146 | after every run, the screen a move leads to, read off the layout and the connections |
| Crossings.LastMouseExactly | crates/daemon/src/session.rs:207-252 | after every run, the position the next movement is measured from, read off the history |
| Passes.PassIsDrainStep | crates/daemon/src/session.rs:209-303 | the route change and all chores of a pass, done with nothing in between, are one step of the drain loop |
| Passes.ChoresStayInOrder | crates/daemon/src/session.rs:256-303 | in every run a pass sends first, then parks the cursor, then switches capture, then forwards |
| Passes.StartedSendGoesOut | crates/daemon/src/session.rs:272-300 | a send that has been started goes to its peer and to nobody else, even if the peer has left the list meanwhile |
| Passes.CaptureSettlesWithRoute | crates/daemon/src/session.rs:286-301 | at every time of every run of the threads, capture agrees with the route once the chores under way are done |
| Passes.CaptureOutsideRoute | crates/daemon/src/session.rs:286-301 | capture is on only while the route is Remote or inside a leave that has yet to switch it off, and off only while Local or inside an entry that has yet to switch it on |
| Passes.TurnsStandForSteps | crates/daemon/src/session.rs:209-303 | refinement: every run of the threads stands for a run whose steps are whole passes, with the same detector, peers, parked cursor and last position once the chores are done, and the same input messages sent or still owed |
| Passes.RouteSeesOnlySteps | crates/daemon/src/session.rs:209-223 | detector and tracked peers are at all times those of that run, whether or not anyone is connected |
| Passes.ClientSeesOnlySteps | crates/daemon/src/session.rs:209-303 | having handled any part of what it was sent, the client is in a state that the system of whole passes puts it in after the same input messages |
| Passes.NoneStuckBetweenChores | crates/daemon/src/session.rs:286-301 | no stuck modifiers, wherever hook events, connections and other messages fall between the sends of a pass |
| EnterFlags.ChannelHistory | crates/platform/src/windows/capture.rs:204-263 | in every run the channel holds the events that passed the gate and were not yet taken, in order, each with the modifiers tracked when its hook event came |
| EnterFlags.DetectorHoldsSeenFlags | crates/daemon/src/edge.rs:107-113 | in every run the detector's flags are those of the last key event the session took, the emergency chord apart, as tracked at that key's hook event |
| EnterFlags.LocalKeysAreNotSeen | crates/platform/src/windows/capture.rs:219-223 | every key event that ever passes the gate was hooked with capture on, and the route was then Remote or in a leave that had yet to switch capture off |
| EnterFlags.LeaveLetsKeysThrough | crates/daemon/src/session.rs:210-216 | such a leave matters: a Ctrl key-up hooked between the emergency chord's route change and its switch of capture changes the detector's flags while the route is Local |
| EnterFlags.EnterCarriesSeenFlags | crates/daemon/src/edge.rs:120-146 | whenever the session takes a crossing move, the ScreenEnter it goes on to send carries those flags, and a client that handles it holds exactly their left-hand keys |
| EnterFlags.EnterIsSent | crates/daemon/src/session.rs:273-284 | whoever is the first peer then has been sent it two chores later |
| EnterFlags.EnterFlagsAreRightExactly | crates/daemon/src/session.rs:433-438 | the client then holds the left-hand keys of the modifiers held on the server exactly if, for each of the four, the key events hooked since leave it as it was seen |
| EnterFlags.ChordIsReplayedOnReentry | crates/daemon/src/session.rs:210-216 | after the emergency chord and any amount of local input the next crossing sends a ScreenEnter with Ctrl, Alt and Shift, and the client holds all three |
| EnterFlags.EmergencyAlwaysWorks | crates/platform/src/windows/capture.rs:194-282 | if the latest Shift, Ctrl and Alt events of the whole hook history are key-downs, an Escape key-down met by capture routes the session to Local when it is taken off the channel, and capture is off once that pass is done, whatever happens in between |
| EnterFlags.OnlyTheChordLeaves | crates/daemon/src/session.rs:306-318 | the converse and more: in every run of the threads a turn leads from Remote to Local exactly if it takes a key-down that means Escape, hooked with capture on when the latest Shift, Ctrl and Alt events of the whole hook history were key-downs |
| EnterFlags.OtherKeysAreForwarded | crates/daemon/src/session.rs:218-245 | every other key taken while Remote leaves the route as it is and goes to whoever is the first peer, with its meaning, its state and the modifiers tracked when it was hooked |
| Clipboard.ClipboardManager.PollOnce | crates/daemon/src/clipboard_mgr.rs:51-92 | one pass of the poll loop, as the specification function `Poll` |
| Clipboard.ClipboardManager.HandleInbound | crates/daemon/src/clipboard_mgr.rs:98-128 | new state and replies for each message, as the specification function `HandleMessage` |
| Clipboard.PollAdvertisesUnrecorded | crates/daemon/src/clipboard_mgr.rs:53-92 | the poll's three tests come down to one: it advertises exactly content whose hash the registry does not hold, once to every peer, and records it |
| Clipboard.HandlingRecords | crates/daemon/src/clipboard_mgr.rs:98-126 | handling keeps "last hash is recorded", forgets no record, and records the hash a Formats or Data carries |
| Clipboard.HandlingExactly | crates/daemon/src/clipboard_mgr.rs:98-128 | whose id each message makes the registry record, who is asked or answered and with what, and what goes to the clipboard |
| Clipboard.PollRemembers | crates/daemon/src/clipboard_mgr.rs:70-82 | the last hash becomes any hash shown that is not recorded as the machine's own |
| ClipboardNetwork.MeasureFalls | crates/daemon/src/clipboard_mgr.rs:70-127 | one action never raises the measure, and every send, delivery or loss lowers it |
| ClipboardNetwork.TrafficDiesOut | crates/daemon/src/clipboard_mgr.rs:70-127 | for any number of machines, any bounded degree, contents out of a finite set and any interleaving, the number of sends and deliveries never exceeds the initial measure |
| ClipboardNetwork.NoEcho | crates/daemon/src/clipboard_mgr.rs:73-92 | each machine advertises each hash at most once in a run and never one it had recorded |
| ClipboardNetwork.NoEchoAfterHandling | crates/daemon/src/clipboard_mgr.rs:98-124 | a machine never advertises a hash after handling Formats or Data for it |
| ClipboardNetwork.LastHashIsRecorded | crates/daemon/src/clipboard_mgr.rs:78-82 | in every run each machine's last hash is in its registry |
| ClipboardReach.CopyReachesExactly | crates/daemon/src/clipboard_mgr.rs:51-127 | any number of machines at rest, one copy, polls with any peers, losses and reordering: no clipboard changes but those of the peers its machine has at the poll that announces it; with nothing lost and nothing left in flight exactly those hold it, recorded under its machine's id |
| ClipboardConvergence.OneCopyConverges | crates/daemon/src/clipboard_mgr.rs:53-127 | from a quiescent two-machine state one copy of unrecorded content ends, in every fair run, with both clipboards equal to it for good, after exactly one Formats, one Request and one Data |
| ClipboardConvergence.CopyConvergesExactly | crates/daemon/src/clipboard_mgr.rs:70-80 | a copy reaches the other machine exactly if the poll can announce the content and its machine has not recorded the hash, or the other clipboard held it anyway |
| ClipboardConvergence.QuiescentStays | crates/daemon/src/clipboard_mgr.rs:51-92 | nothing in flight and nothing to announce: no undisturbed run sends a message or changes a clipboard |
| ClipboardConvergence.SimultaneousCopiesSwap | crates/daemon/src/clipboard_mgr.rs:98-127 | a run of two different copies, both polled and all messages handled in the order sent, that ends quiescent with the contents swapped |
| ClipboardDuel.FairRunsComeToRest | crates/daemon/src/clipboard_mgr.rs:70-127 | from any state with any messages in flight every fair run of two machines becomes and stays quiescent unless somebody copies |
| ClipboardDuel.TwoCopiesExactly | crates/daemon/src/clipboard_mgr.rs:53-127 | two copies of different unrecorded contents on two quiescent machines: every fair run ends quiescent, swapped exactly if each machine answers the other's request before it writes the other's data, and otherwise agreed on the content of the one that does |
| FilePath.SanitizeStaysBeneath | crates/filetransfer/src/lib.rs:236-249 | by the path rules of Unix and of Windows: a path is accepted exactly if, with either slash, it is not rooted, does not start with a dot part, has no double-dot part and on Windows names no drive; it then leads from any directory to the place beneath it that its remaining parts name |
| FilePath.WithSlashesExactly | crates/filetransfer/src/lib.rs:237 | backslashes become slashes and nothing else changes |
| FilePath.PartsExactly | crates/filetransfer/src/lib.rs:242 | the parts of a path hold no slash and make it up when joined by slashes |
| FilePath.RefusalReason | crates/filetransfer/src/lib.rs:239-247 | which of the two errors a refused path gives |
| FilePath.DriveLettersPassOnUnix | crates/filetransfer/src/lib.rs:233-249 | a path with a drive letter is rejected on Windows, and on Unix only for a double-dot part |
| FileReceiver.Receiver.CreateOne | crates/filetransfer/src/lib.rs:131-138 | one file of an offer: check, make the parent directories, create or truncate |
| FileReceiver.Receiver.BeginTransfer | crates/filetransfer/src/lib.rs:125-155 | the drop directory is made and the files are checked and created in order, with early exit on the first that fails; then the transfer is entered with zero counters and fresh hashers |
| FileReceiver.Receiver.CheckChunk | crates/filetransfer/src/lib.rs:158-178 | unknown transfer, index, or offset other than the counter is refused; otherwise path and hasher are handed out |
| FileReceiver.Receiver.CommitChunk | crates/filetransfer/src/lib.rs:191-217 | counter and hasher are advanced before a last chunk's digest is compared; the result is the sum of all counters |
| FileReceiver.Receiver.Write | crates/filetransfer/src/lib.rs:157-220 | the whole `write_chunk`: check, store, commit |
| FileReceiver.ChunkExactly | crates/filetransfer/src/lib.rs:157-220 | each refusal exactly for its cause, in order, with nothing changed; an accepted chunk changes its own file, counter and hasher and nothing else, and its one error is a wrong digest on a last chunk |
| FileReceiver.WriteAtExactly | crates/filetransfer/src/lib.rs:182-189 | a write puts its bytes at its offset, keeps all others and fills a gap with zeros |
| FileReceiver.Receiver.Resume | crates/filetransfer/src/lib.rs:224-230 | the counters of a known transfer, and nothing for an unknown one |
| FileReceiver.Total | crates/filetransfer/src/lib.rs:216 | the summing loop |
| FileSender.AbsorbAll | crates/filetransfer/src/lib.rs:24-33 | however the reads are cut, the loop hashes exactly the whole content |
| FileSender.HashContent | crates/filetransfer/src/lib.rs:22-39 | the digest is that of the whole content and the size its length |
| FileSender.BuildEntry | crates/filetransfer/src/lib.rs:16-40 | size and digest of the file, or the error of opening it |
| FileSender.BuildManifest | crates/filetransfer/src/lib.rs:42-54 | the entries in order with their total size, or the first error |
| FileSender.SendFile | crates/daemon/src/filetransfer_mgr.rs:62-85 | for reads of any sizes: one chunk for each read, the first that does not fill the buffer is marked last and ends the file; a read of nothing sends nothing |
| FileSender.ShortReadEndsFile | crates/daemon/src/filetransfer_mgr.rs:65-84 | what is sent is what full reads would send of the content up to the first short read, which is the whole content or of a size that is no multiple of 65536 |
| FileSender.SendAll | crates/daemon/src/filetransfer_mgr.rs:53-86 | the files' chunks in manifest order up to the first file that can no longer be opened, and that error |
| FileSender.SendFiles | crates/daemon/src/filetransfer_mgr.rs:30-89 | offer and stream, from two separate readings of the files; on an error also what was already offered and sent |
| FileSender.StreamStops | crates/daemon/src/filetransfer_mgr.rs:53-60 | the first file that can no longer be opened is the error, and what was sent of the files before it stays sent |
| FileSender.EntriesStop | crates/filetransfer/src/lib.rs:42-54 | a manifest fails on the first file that cannot be opened |
| FileInterleaving.StepIsLocal | crates/filetransfer/src/lib.rs:157-220 | each of the three steps of a write changes its own file's counter, hasher, bytes and results, as these alone determine, and no other file |
| FileInterleaving.RunIsLocal | crates/filetransfer/src/lib.rs:157-220 | projection: in every interleaving each file ends as its own steps alone leave it |
| FileInterleaving.RunNarrow | crates/filetransfer/src/lib.rs:157-220 | frame: writes of some transfers do the same whatever other entries the table holds, and leave those alone |
| FileInterleaving.InterleavingIndependence | crates/filetransfer/src/lib.rs:158-217 | two interleavings of the same per-file steps leave the same table, disk, pending writes and results |
| FileInterleaving.InterleavedEqualsSequential | crates/filetransfer/src/lib.rs:158-217 | every interleaving equals running the files one after another |
| FileTransfer.HashSoundness | crates/filetransfer/src/lib.rs:191-214 | after any interleaving of any writes the hasher is the hash state of the file's bytes; a commit succeeds exactly if the chunk is not marked last or the bytes on disk have the announced digest |
| FileTransfer.PrefixSafety | crates/filetransfer/src/lib.rs:157-220 | under any loss, duplication, reordering and interleaving of the sender's chunks the file is at all times a prefix of the source, of the counted length unless a write is between store and commit |
| FileTransfer.ContiguousReceived | crates/filetransfer/src/lib.rs:157-220 | contiguous chunks of any sizes are all written and extend the file by what they carry; the result of each is determined |
| FileTransfer.ResumeCompletes | crates/filetransfer/src/lib.rs:157-230 | from any state prefix safety allows, sending each file's rest from its resume offset, in chunks of any sizes and any interleaving, is fully accepted and completes every file |
| FileEndToEnd.InterruptedTransferCompletes | crates/filetransfer/src/lib.rs:125-230 | from the offer on: after any loss, duplication, reordering and interleaving that leaves nothing in flight, the rests from the resume offsets are all accepted, every file equals its source, and the last result is the manifest's total |
| FileTransfer.ChunksAreContiguous | crates/daemon/src/filetransfer_mgr.rs:62-85 | the sender's chunks continue each other and end where the file ends |
| FileTransfer.LastIsMarked | crates/daemon/src/filetransfer_mgr.rs:68-84 | a chunk is marked last exactly if the size is not a multiple of 65536 |
| FileTransfer.ChangedFileIsCaughtExactly | crates/daemon/src/filetransfer_mgr.rs:64-85 | a file changed between offer and sending is accepted without error exactly if its new size is a multiple of 65536 or its digest is the announced one |
| FileTransfer.ShortReadIsCaught | crates/daemon/src/filetransfer_mgr.rs:65-84 | after a short read in the middle the receiver has the content up to there, accepted without error exactly if its digest is the announced one |
| FileEndToEnd.WriteIsThreeSteps | crates/filetransfer/src/lib.rs:157-220 | an undisturbed `write_chunk` is its check, store and commit steps, with the same state and result |
| FileEndToEnd.StreamServes | crates/daemon/src/filetransfer_mgr.rs:53-86 | among the writes of a stream, those of each file are exactly the chunks of its content, in order |
| FileEndToEnd.FullStream | crates/daemon/src/filetransfer_mgr.rs:53-86 | full reads of unchanged files put exactly all their chunks on the stream, without error |
| FileOffers.PlaceFileExactly | crates/filetransfer/src/lib.rs:131-137 | a file is created exactly if its path passes the check and names a file, no directory stands in its place and no file above it; it and its parent directories are all that changes |
| FileReceiver.NamesFileExactly | crates/filetransfer/src/lib.rs:137 | a path can name a file exactly if it does not end in a slash or a dot part and is not empty |
| FileOffers.OfferAcceptedExactly | crates/filetransfer/src/lib.rs:125-155 | an offer is accepted exactly if no file is in the way of the drop directory, every file can be placed so, and none is to lie below another; a refused offer leaves the table alone, and the disk too if it is for the drop directory |
| FileOffers.OfferEffect | crates/filetransfer/src/lib.rs:125-155 | an accepted offer is entered under its id with its manifest, zero counters and fresh hashers, and no other entry changes |
| FileOffers.RefusedOffer | crates/filetransfer/src/lib.rs:125-139 | otherwise, with j the first file that does not fit: the files before it are empty at their places, whatever they held; every other file is as it was; of file j there are at most the directories above it, exactly if its path passes the check and no file is in their way; and the error is that of file j |
| FileOffers.PlaceAllEffect | crates/filetransfer/src/lib.rs:129-139 | an accepted offer leaves every file empty at its place, with the directories above it, and every other file as it was |
| FileOffers.OfferAnywhere | crates/filetransfer/src/lib.rs:125-220 | an offer that arrives between the steps of other transfers' writes leaves what it would have left before all of them |
| FileOffers.OfferInterleaves | crates/filetransfer/src/lib.rs:125-220 | interleaving independence with an offer anywhere among the steps |
| FileEndToEnd.TransferEndToEnd | crates/daemon/src/filetransfer_mgr.rs:37-104 | acceptable files at different places, whatever earlier transfers wrote to the same ones: the offer is accepted, every chunk of the stream too, every file equals its source, no other file and no other table entry changes, the last result is the manifest's total, and chunks are sent exactly if some file is not empty |

## Left out

- QUIC, TLS, certificates, connection setup and client supervision; a stream is an ordered byte queue.
- Server start and stop, IPC, configuration, command line and GUI.
- Windows hooks, `SendInput`, the uinput ioctls and screen metrics: hook events are inputs, device events a log, screen size a parameter.
- Key tables between virtual keys and HID usages: the table is a parameter, of which only the entry of Escape (and, for the emergency chord, three others) is constrained.
- Heartbeat, timers and backoff; compression, acknowledgements and `SenderState`, which the program does not use.
- A peer is entered in the list and in the routing state in one step, and so is its leaving; the code takes two locks after another.
- Agreement of left and right modifier variants in the middle of a round: the flags merge both sides.
- Error texts; an error is its kind and the values its message shows.
- Two files of one offer at the same destination, and two transfers writing to the same destination at the same time; u64 counters are unbounded and the sequence that draws transfer ids is an argument; where the sender's root directory lies.
- Session.SessionGrammar: follows a peer that is first in the list and stays connected; like all input theorems it leaves out messages dropped by a full queue and failed device writes.
- CursorConservation.CursorIsConserved: for moves within 2^28 of the origin, which keeps i32 wrap-around and saturation out of play.
- Injector.LinuxInject.InjectEvent: the device accepts every event, so the error path of a failed write is not modelled.
- Clipboard.ClipboardManager.PollOnce: one poll is one step; a message handled between the poll's read and its record is not modelled. The OS clipboard holds one value in one format and gives back what was written.
- FileReceiver.Receiver.BeginTransfer: the receiver's disk follows Unix rules; permissions, full disks, links, and names the file system itself refuses (too long, or with a NUL character) are not modelled.
- FileReceiver.Receiver.Write: of I/O errors only a missing file is modelled. If a transfer id is begun again during a write with a shorter manifest, the code would panic and the model's commit answers with an index error.
- FileSender.SendFiles: of I/O errors only a file that cannot be opened is modelled.
- FileEndToEnd.TransferEndToEnd: for reads that fill the buffer until the file ends; `ShortReadEndsFile` and `ShortReadIsCaught` cover the others.
- FileInterleaving.InterleavingIndependence: at most one write per file is in flight at a time; offers in between are in `FileOffers.OfferInterleaves`.
- FileTransfer.PrefixSafety: speaks of writes that run to their commit or are still in flight, not of a process that dies between store and commit and forgets its table.
