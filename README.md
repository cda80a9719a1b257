# chat-video in Dafny

A model of the one-to-one video call of chat-video and of its code-style rule. It covers four parts:

- **The signaling server** (`server/index.js`). It keeps socket.io rooms. When a `join` leaves a room with exactly two members, it sends `ready` to the whole room. It forwards `offer`, `answer` and `ice-candidate` payloads unchanged to the other members of the payload's room, leaving out, as socket.io 4 does, every socket in the room named by the sender's id.
- **The `useConnection` hook** (`client/src/shared/hooks/use-connection.ts`). One instance:
  - fetches TURN credentials and picks the ICE server list;
  - creates a socket and a peer connection;
  - waits for the camera, then adds its tracks and only then registers the socket handlers;
  - answers the offer/answer exchange;
  - maps the native connection state to a label;
  - switches between the front and back camera.
- **The `VideoChat` component** (`client/src/ui/components/video-chat/VideoChat.tsx`). Its effect registers the socket handlers at once and acquires the camera in the background. Its `ready` and `offer` handlers wait, by polling, until a stream is held. Buttons toggle the microphone and the camera and leave the room.
- **The ESLint rule `multiline-braces`** (`client/tools/eslint/multiline-braces.js`). Past `maxProperties` entries, a braced list must open on its own line and give each entry a line of its own. The fix rewrites the braces one entry per line.

### How the model is built

**Files.**

| file | module | contents |
|---|---|---|
| `wrappers.dfy` | `Wrappers` | `Option` |
| `webrtc.dfy` | `WebRtc` | the shared vocabulary: events, payloads, tracks, senders, the JavaScript values the hook inspects, and the `Action`s a client performs |
| `relay.dfy` | `Relay` | the server |
| `connection.dfy` | `Connection` | the hook |
| `video_chat.dfy` | `VideoChat` | the component |
| `multiline_braces.dfy` | `MultilineBraces` | the lint rule |

**The server.** `Relay.Server` is a class with the room table (`map<RoomId, set<SocketId>>`) and an append-only log of deliveries. Emitting to a set of sockets is a loop (`Fanout`). It visits the set in an unspecified order and is proved to reach each target exactly once.

**The two clients.**
- Each is a class whose fields are the refs and React state of the source, plus the trace of calls made on the socket, the peer connection and the router.
- Whatever the browser returns comes in as a method parameter:
  - the fetch outcome;
  - the stream getUserMedia resolves to, or its rejection;
  - the SDP text of createOffer and createAnswer;
  - the native connection state.
- Each socket event or browser callback is one method.
- An `await` that suspends a handler is split into two methods. `Hook.Effect` and `Hook.ResumeInit` are one example. The waiter queue of `Chat` is the other.

**Class invariants.**
- For the hook:
  - the socket and the peer connection are created once, at the head of the trace, however often the effect fires;
  - no socket handler runs before the handlers are registered;
  - every offer and answer goes out after the description it carries was set as local.
- For the component, no offer is created and no answer path runs while no stream is held.

### Behaviour worth knowing

The model follows the code as written:
- The server sends `ready` to both members of the room, the joiner included. Nothing enforces a two-person limit: a third socket is admitted and nobody is told (`Relay.ThirdJoinerAdmitted`).
- The room table is socket.io's in-memory adapter. Two of its rules matter here:
  - on connection, every socket is put in a room named by its own id, so a `join` to another socket's id makes a room of two with that socket, and both are told `ready`. The pairing is one-way: the joiner's messages reach the owner, but a relay leaves out every socket in the sender's own-id room, so the owner's messages reach nobody (`Relay.SocketRoomIsReal`);
  - on disconnect, the socket leaves every room and an emptied room is deleted. When one of two peers drops and a third socket joins, the room again has two members and both are told `ready` (`Relay.ReplacementPeer`).
- `disconnect` itself only logs. No peer is told that the other one left.
- Incoming ICE candidates are handed to addIceCandidate at once; there is no queue. Before a remote description exists that call rejects, the catch only logs, and the candidate is dropped (`Connection.CandidateBeforeDescription`).
- The hook hands the server's `iceServers` value to the RTCPeerConnection constructor unchecked. A truthy value it refuses (not a list, a TURN entry without credentials, an unknown URL scheme) makes the constructor throw. `init` then stops after creating the socket: no handler, no camera request and no negotiation follow (`Connection.RejectedServersStopInit`).
- A getUserMedia rejection in the hook is not caught:
  - `init` stops;
  - the socket handlers are never registered;
  - `permissionError` stays null.

  Only `VideoChat` sets the permission message.
- The hook registers its `connect` handler only after getUserMedia resolves. A socket that connects while the camera prompt is open therefore never sends `join` (`Connection.ConnectWhileAwaitingMedia`). Compare `Connection.ConnectAfterHandlers`.
- In `VideoChat`, each waiting `ready` or `offer` handler polls on its own interval. Whichever sees the stream first resumes first, so an answer can go out before the component's own offer (`VideoChat.LaterWaiterFirst`).
- A teardown of `VideoChat` (leaving the room or unmounting) does not cancel getUserMedia or the polling loops. When the stream arrives afterwards, the first addTrack on the closed peer connection throws and the catch sets the permission message. A waiting handler's first call on the closed peer connection rejects, so no offer or answer is ever sent (`VideoChat.TeardownBeforeStream`).

## Model

| member | source | states |
|---|---|---|
| Relay.Joined | server/index.js:24 | after a join, the room exists and holds the joiner, and no room disappears |
| Relay.Left | server/index.js:45-47 | after a disconnect, the socket is in no room, every remaining room is non-empty and a subset of what it was, and no room appears |
| Relay.ReadyRecipients | server/index.js:27-30 | `ready` goes to nobody, or to exactly the two members of the room |
| Relay.ForwardRecipients | server/index.js:34 | a relayed message goes only to members of the room, never to the sender nor to any socket in the room named by the sender's id |
| Relay.Fanout | server/index.js:29 | every target socket receives the event exactly once, with the same payload, and no other socket receives anything |
| Relay.FanoutSize | server/index.js:29 | an emission to a room makes exactly as many deliveries as the room has members |
| Relay.FanoutReaches | server/index.js:34 | a socket receives the emitted event if and only if it is one of the targets |
| Relay.FanoutToOne | server/index.js:34 | an emission to a single socket is one delivery to it |
| Relay.FanoutToTwo | server/index.js:29 | an emission to two sockets is one delivery to each, in either order |
| Relay.Server.constructor | server/index.js:11-18 | the server starts with no rooms and has sent nothing |
| Relay.Server.HandleConnection | server/index.js:20 | a new connection puts the socket in the room named by its own id |
| Relay.Server.HandleJoin | server/index.js:23-31 | the socket is added to the room; `ready` goes to every member exactly when the room then has two members, and otherwise nothing is sent |
| Relay.Server.HandleRelay | server/index.js:33-43 | offer, answer and ice-candidate are forwarded unchanged to every member of the payload's room except the sender and the sockets in the sender's own-id room; the rooms do not change |
| Relay.Server.HandleDisconnect | server/index.js:45-47 | nothing is sent; the adapter takes the socket out of every room and deletes the rooms this empties |
| Relay.LeftRemoves | server/index.js:45-47 | after a disconnect every room's members are the former members minus that socket, and no room is empty |
| Relay.SocketRoomIsReal | server/index.js:23-34 | joining the room named by another socket's id pairs the joiner with that socket: both are told `ready`, the joiner's messages for that room reach the owner, and the owner's own messages for it reach nobody |
| Relay.JoinAdds | server/index.js:24 | joining adds the socket to its room and leaves every other room as it was |
| Relay.JoinCount | server/index.js:24-28 | a re-join keeps the member count; a new socket raises it by one |
| Relay.ReadyAfterJoin | server/index.js:27-30 | `ready` is sent after a join if and only if the room then has two members; it reaches the whole room, the joiner included |
| Relay.ThirdJoinerAdmitted | server/index.js:23-31 | a third distinct socket is admitted and nobody is told `ready` |
| Relay.ForwardTargets | server/index.js:34 | a relayed message reaches exactly the room members that are neither the sender nor in the sender's own-id room, and nobody for a room the table does not hold; while the sender's own room holds only the sender, that is every other member |
| Relay.JoinAlone | server/index.js:23-31 | the first socket to join an empty room is its only member, and nothing is sent |
| Relay.JoinSecond | server/index.js:23-31 | the second socket to join makes a room of two, and each of the two is told `ready` once |
| Relay.RelayInPair | server/index.js:33-43 | in a room of two whose other member is not in the sender's own-id room, a relayed message is one delivery to that member, unchanged |
| Relay.PairingScenario | server/index.js:20-39 | two connected sockets in one room: both get `ready`; the first one's offer reaches only the second, and the answer reaches only the first, each unchanged |
| Relay.ReplacementPeer | server/index.js:20-47 | two sockets pair, one disconnects, a third joins: the remaining one and the newcomer are both told `ready` again |
| WebRtc.VideoTracks | client/src/shared/hooks/use-connection.ts:34 | the video tracks are exactly the stream's tracks of kind video |
| WebRtc.VideoTracksAppend | client/src/shared/hooks/use-connection.ts:34 | the filter keeps stream order: the video tracks of two parts follow each other |
| Connection.PlaceholderTextDistinct | client/src/ui/pages/room/config.ts:1-6 | the four connection labels have four different texts |
| Connection.StateLabel | client/src/shared/hooks/use-connection.ts:108-125 | the label leaves CONNECTION exactly for the settled states: connected, disconnected, failed and closed |
| Connection.StateLabelPreimages | client/src/shared/hooks/use-connection.ts:108-125 | which native connection states lead to each label, in both directions: connected; disconnected or failed; closed; any other |
| Connection.ChooseIceServers | client/src/shared/hooks/use-connection.ts:68-84 | the chosen servers are the STUN default or the truthy `iceServers` field of a parsed response |
| Connection.IceServersChoice | client/src/shared/hooks/use-connection.ts:68-84 | the server's list replaces the STUN default if and only if the response is ok and its `iceServers` field is truthy; a rejected fetch, a non-ok status or an unparsable body keeps the default |
| Connection.EmptyServerListWins | client/src/shared/hooks/use-connection.ts:75-76 | an empty list from the server is truthy, so it replaces the default and leaves no ICE server |
| Connection.ChosenConfigFailure | client/src/shared/hooks/use-connection.ts:68-91 | the STUN default is accepted by the peer connection; a refused choice can only be a truthy list from an ok response |
| Connection.RejectedConfigs | client/src/shared/hooks/use-connection.ts:75-91 | a bare string and a TURN entry without credentials are both chosen and both refused by the peer connection |
| Connection.Opposite | client/src/shared/hooks/use-connection.ts:57 | the facing after a switch differs from the facing before |
| Connection.ReplaceVideoSenders | client/src/shared/hooks/use-connection.ts:50-54 | the switch keeps the number of senders and leaves every sender without a video track as it was |
| Connection.ReplacedVideoCount | client/src/shared/hooks/use-connection.ts:52-53 | after a switch, every video sender still carries a video track when the new stream has enough of them; otherwise exactly one sender per new video track does |
| Connection.ReplacePrefix | client/src/shared/hooks/use-connection.ts:53 | whether a sender is replaced does not depend on the senders after it |
| Connection.SendersFor | client/src/shared/hooks/use-connection.ts:132 | adding a stream's tracks creates one sender per track, in order, each carrying its track |
| Connection.AppendKeepsTrace | client/src/shared/hooks/use-connection.ts:143-156 | appending ordered negotiation steps that create nothing keeps the trace's invariants: created once, negotiation order, and quiet stays quiet |
| Connection.MediaActionsInert | client/src/shared/hooks/use-connection.ts:127-141 | adding the tracks and registering the handlers create nothing and negotiate nothing; the handlers come after every track |
| Connection.StopActionsInert | client/src/shared/hooks/use-connection.ts:34 | stopping tracks creates nothing, negotiates nothing and runs no handler |
| Connection.InitAcceptedInvariant | client/src/shared/hooks/use-connection.ts:63-92 | creating the socket and then the peer connection, from a fresh instance, establishes the hook's invariant |
| Connection.InitRejectedInvariant | client/src/shared/hooks/use-connection.ts:87-91 | creating only the socket, when the peer connection throws, establishes the hook's invariant |
| Connection.AppendKeepsInvariant | client/src/shared/hooks/use-connection.ts:138-170 | a handler's calls, appended once the peer connection exists, keep the hook's invariant |
| Connection.HoldingKeepsInvariant | client/src/shared/hooks/use-connection.ts:127-141 | holding the stream, adding its tracks and registering the handlers keeps the hook's invariant |
| Connection.GivingUpKeepsInvariant | client/src/shared/hooks/use-connection.ts:128 | a getUserMedia rejection, which ends `init`, keeps the hook's invariant |
| Connection.SwitchKeepsInvariant | client/src/shared/hooks/use-connection.ts:30-61 | stopping the held video tracks and holding another stream keeps the hook's invariant |
| Connection.Hook.constructor | client/src/shared/hooks/use-connection.ts:15-28 | first render: nothing is created, the label reads CONNECTION, there is no error, and the facing is user |
| Connection.Hook.Effect | client/src/shared/hooks/use-connection.ts:63-92 | the first firing creates the socket, then, if it accepts the chosen ICE servers, the peer connection, and waits for the camera; if the constructor refuses them, only the socket exists and `init` has stopped; a later firing changes nothing |
| Connection.Hook.ResumeInit | client/src/shared/hooks/use-connection.ts:127-141 | on success, the stream is held, one sender is created per track in order, the error is cleared and the handlers are registered last; a rejection registers nothing and leaves the error null |
| Connection.Hook.OnConnect | client/src/shared/hooks/use-connection.ts:138-141 | `join` with the room id is sent if the handler is registered, and nothing otherwise |
| Connection.Hook.OnReady | client/src/shared/hooks/use-connection.ts:143-148 | create the offer, set it as local, send it with the room id |
| Connection.Hook.OnOffer | client/src/shared/hooks/use-connection.ts:150-156 | set the received offer as remote, create the answer, set it as local, send it; a payload without `sdp` does nothing |
| Connection.Hook.OnAnswer | client/src/shared/hooks/use-connection.ts:158-161 | the received answer becomes the remote description |
| Connection.Hook.OnRemoteCandidate | client/src/shared/hooks/use-connection.ts:163-170 | the received candidate, or undefined when the payload has none, is handed to addIceCandidate at once, with no queue; a missing payload throws inside the try and only logs |
| Connection.Hook.OnLocalCandidate | client/src/shared/hooks/use-connection.ts:103-105 | a gathered candidate is sent with the room id; the end-of-gathering null sends nothing |
| Connection.Hook.OnConnectionStateChange | client/src/shared/hooks/use-connection.ts:108-125 | the label becomes the one for the new native state |
| Connection.Hook.SwitchCamera | client/src/shared/hooks/use-connection.ts:30-61 | without a stream nothing happens; otherwise the current video tracks are stopped first; on success, the new stream is held, the i-th video sender gets the i-th new video track and the facing flips; on failure, the facing and the held stream stay |
| Connection.AddStreamTracks | client/src/shared/hooks/use-connection.ts:132 | one addTrack per track in stream order, and one sender per track carrying it |
| Connection.StopVideoTracks | client/src/shared/hooks/use-connection.ts:34 | exactly the video tracks are stopped, in order |
| Connection.ReplaceSenders | client/src/shared/hooks/use-connection.ts:50-54 | the i-th video sender, counted in sender order, gets the i-th video track or none past the end; other senders are unchanged |
| Connection.EffectFiresTwice | client/src/shared/hooks/use-connection.ts:63-65 | a doubly fired effect creates one socket, and one peer connection when the servers are accepted |
| Connection.ConnectWhileAwaitingMedia | client/src/shared/hooks/use-connection.ts:127-141 | a socket that connects before the camera resolves never sends `join`, although the handlers do get registered when the servers are accepted |
| Connection.InitThenMediaSendsNothing | client/src/shared/hooks/use-connection.ts:87-141 | `init` up to registering the handlers registers them and sends nothing |
| Connection.ConnectAfterHandlers | client/src/shared/hooks/use-connection.ts:138-141 | a socket that connects after the handlers are registered sends `join` with the room id |
| Connection.CandidateBeforeDescription | client/src/shared/hooks/use-connection.ts:163-170 | a candidate that arrives before any remote description is handed to addIceCandidate at once, and no remote description is ever set before it |
| Connection.EarlyCandidateSetsNoRemote | client/src/shared/hooks/use-connection.ts:127-170 | `init`, the handlers and then a remote candidate set no remote description |
| Connection.RejectedServersStopInit | client/src/shared/hooks/use-connection.ts:87-91 | when the peer connection refuses the servers, the socket is all there is: whatever the camera and the socket then do, nothing else is called |
| VideoChat.ToggleKind | client/src/ui/components/video-chat/VideoChat.tsx:34-48 | a toggle keeps the number of tracks |
| VideoChat.ToggleKindAt | client/src/ui/components/video-chat/VideoChat.tsx:36-37 | a toggle flips `enabled` on exactly the tracks of its kind and leaves every other track as it was, in the same order |
| VideoChat.ToggleKindSnoc | client/src/ui/components/video-chat/VideoChat.tsx:36-37 | toggling a stream with one more track toggles that track after the others |
| VideoChat.ToggleKindTwice | client/src/ui/components/video-chat/VideoChat.tsx:34-48 | toggling the same kind twice restores the stream |
| VideoChat.LastEnabledToggled | client/src/ui/components/video-chat/VideoChat.tsx:36-38 | after a toggle, the last track of the kind shows the negation of its former flag |
| VideoChat.LastEnabledSnoc | client/src/ui/components/video-chat/VideoChat.tsx:36-38 | the flag is set by the last track of the kind: an added track of the kind replaces it, another kind leaves it |
| VideoChat.ToggleTracks | client/src/ui/components/video-chat/VideoChat.tsx:34-48 | the toggled stream, and a flag that ends as the last toggled track's new value, or unchanged when the stream has no track of the kind |
| VideoChat.GatedAppend | client/src/ui/components/video-chat/VideoChat.tsx:109-149 | appending gated actions to a gated trace keeps it gated, provided the appended part does not start with createAnswer |
| VideoChat.Chat.constructor | client/src/ui/components/video-chat/VideoChat.tsx:56-76 | the effect creates the socket, then the peer connection with the STUN server only, then registers the handlers; both flags are on, there is no error, nothing is closed, and getUserMedia is pending |
| VideoChat.Chat.MediaSettled | client/src/ui/components/video-chat/VideoChat.tsx:79-99 | success holds the stream, adds its tracks in order and clears the error; failure sets the permission message and changes nothing else; after a teardown the stream is held, only the first addTrack is made and it throws, setting the permission message |
| VideoChat.Chat.ToggleMicro | client/src/ui/components/video-chat/VideoChat.tsx:34-40 | the audio tracks are flipped and `micro` shows the last one's new value; without a stream nothing happens |
| VideoChat.Chat.ToggleCamera | client/src/ui/components/video-chat/VideoChat.tsx:42-48 | the video tracks are flipped and `camera` shows the last one's new value; without a stream nothing happens |
| VideoChat.Chat.OnConnect | client/src/ui/components/video-chat/VideoChat.tsx:104-107 | `join` with the room id is sent at once; a disconnected socket delivers nothing |
| VideoChat.Chat.OnReady | client/src/ui/components/video-chat/VideoChat.tsx:109-127 | with a stream, create, set and send the offer; without one, nothing is negotiated and the handler waits; after a teardown nothing happens |
| VideoChat.Chat.Respond | client/src/ui/components/video-chat/VideoChat.tsx:145-148 | set the remote offer, create, set and send the answer; a payload without `sdp` does nothing |
| VideoChat.Chat.OnOffer | client/src/ui/components/video-chat/VideoChat.tsx:129-149 | with a stream, answer at once; without one, nothing is negotiated and the handler waits with its payload; after a teardown nothing happens |
| VideoChat.Chat.ResumeWaiter | client/src/ui/components/video-chat/VideoChat.tsx:109-149 | a tick of the interval of any waiting handler, the k-th, resumes that one and removes it from the queue, but only once a stream is held; after a teardown its first call on the closed peer connection (createOffer, or setRemoteDescription) rejects and nothing follows |
| VideoChat.Chat.OnAnswer | client/src/ui/components/video-chat/VideoChat.tsx:151-154 | the received answer becomes the remote description; after a teardown nothing happens |
| VideoChat.Chat.OnRemoteCandidate | client/src/ui/components/video-chat/VideoChat.tsx:156-163 | the received candidate is handed to addIceCandidate at once; a missing payload only logs; after a teardown nothing happens |
| VideoChat.Chat.OnLocalCandidate | client/src/ui/components/video-chat/VideoChat.tsx:73-76 | a gathered candidate is sent with the room id; null sends nothing; a closed peer connection gathers none |
| VideoChat.Chat.LeaveRoom | client/src/ui/components/video-chat/VideoChat.tsx:50-54 | close the peer connection, then disconnect the socket, then go to the home page; the component is torn down |
| VideoChat.Chat.Unmount | client/src/ui/components/video-chat/VideoChat.tsx:165-169 | the cleanup disconnects the socket, then closes the peer connection; the component is torn down |
| VideoChat.ReadyBeforeStream | client/src/ui/components/video-chat/VideoChat.tsx:109-127 | a `ready` that arrives before the camera waits; the offer is created only after the stream's tracks were added |
| VideoChat.LaterWaiterFirst | client/src/ui/components/video-chat/VideoChat.tsx:109-149 | `ready` and then `offer` both wait; when the offer's interval sees the stream first, the answer goes out before the component's own offer |
| VideoChat.TeardownBeforeStream | client/src/ui/components/video-chat/VideoChat.tsx:79-169 | an unmount while `ready` waits: the late stream's first addTrack throws, the waiting createOffer rejects, and no offer is ever sent |
| MultilineBraces.MaxProperties | client/tools/eslint/multiline-braces.js:26 | the limit is never 0 |
| MultilineBraces.MaxPropertiesDefault | client/tools/eslint/multiline-braces.js:26 | the limit is 2 unless a nonzero `maxProperties` is given, and it is never 0 |
| MultilineBraces.TrimStart | client/tools/eslint/multiline-braces.js:40 | the result is a suffix; everything cut off is white space, and the result does not start with white space |
| MultilineBraces.TrimEnd | client/tools/eslint/multiline-braces.js:40 | the result is a prefix; everything cut off is white space, and the result does not end with white space |
| MultilineBraces.Trim | client/tools/eslint/multiline-braces.js:40 | the trimmed text is a contiguous part of the text |
| MultilineBraces.TrimEdges | client/tools/eslint/multiline-braces.js:40 | the trimmed text begins and ends with no white space |
| MultilineBraces.StripTerminator | client/tools/eslint/multiline-braces.js:42 | at most one final character is removed, and only when it is `;` or `,`; what is left is a prefix |
| MultilineBraces.CleanItem | client/tools/eslint/multiline-braces.js:39-43 | an item is no longer than its source text and does not start with white space |
| MultilineBraces.CleanItemShape | client/tools/eslint/multiline-braces.js:40-42 | an item is the trimmed text, either whole or without one final `;` or `,` |
| MultilineBraces.CleanItemChars | client/tools/eslint/multiline-braces.js:39-43 | a cleaned item contains no character its source text lacks |
| MultilineBraces.CleanItems | client/tools/eslint/multiline-braces.js:39-43 | one cleaned item per element, in element order |
| MultilineBraces.CleanItemsSingleLine | client/tools/eslint/multiline-braces.js:39-43 | elements without a line feed give items without one |
| MultilineBraces.Join | client/tools/eslint/multiline-braces.js:44 | the joined text starts with the first item |
| MultilineBraces.FixText | client/tools/eslint/multiline-braces.js:46 | the fix text opens with `{` and a line feed and ends with `}` |
| MultilineBraces.LinesAfterLine | client/tools/eslint/multiline-braces.js:46 | a line without a line feed, then a line feed, then a text: that line, then the text's lines |
| MultilineBraces.FixBodyLines | client/tools/eslint/multiline-braces.js:44-46 | after the opening line, the fix text has one indented, comma-terminated line per item, then the closing brace |
| MultilineBraces.BracedLines | client/tools/eslint/multiline-braces.js:44-46 | the fix text of single-line items: the opening brace, one line per item, the closing brace |
| MultilineBraces.FixedLayout | client/tools/eslint/multiline-braces.js:37-47 | when no element spans several lines, the fix puts the opening brace on its own line, then each element on its own line in order, then the closing brace |
| MultilineBraces.NatToString | client/tools/eslint/multiline-braces.js:36 | the limit is printed as a non-empty string of decimal digits |
| MultilineBraces.NatToStringValue | client/tools/eslint/multiline-braces.js:36 | the limit printed in the message reads back as the limit |
| MultilineBraces.MessageText | client/tools/eslint/multiline-braces.js:36 | the message quotes the limit as JavaScript prints it, right before its closing " items." |
| MultilineBraces.CheckNode | client/tools/eslint/multiline-braces.js:28-77 | nothing is reported without both braces or within the limit; "Opening brace" is reported when the brace shares the first element's line; otherwise "Each property" is reported exactly when two consecutive elements share a line; at most one report; an empty list past a negative limit throws; each fix spans both braces |
| MultilineBraces.SpecifiersOf | client/tools/eslint/multiline-braces.js:95 | the filter keeps exactly the specifiers of the requested type, and no more of them than there were |
| MultilineBraces.SpecifiersOfAppend | client/tools/eslint/multiline-braces.js:95 | the filter keeps source order: the kept specifiers of two parts follow each other |
| MultilineBraces.VisitedElements | client/tools/eslint/multiline-braces.js:79-116 | a visitor hands on a non-empty list, and a type literal only past the limit |
| MultilineBraces.Visit | client/tools/eslint/multiline-braces.js:79-116 | empty objects, imports or exports without named specifiers, and type literals within the limit are skipped; every other node is checked on its list; only an empty type literal under a negative limit throws |
| MultilineBraces.SkippedNodes | client/tools/eslint/multiline-braces.js:81-111 | each early return of the visitors, case by case, a type literal without members included |

## Left out

- Network transport, socket.io's reconnection, and the asynchronous timing of events. Each event is one method call, and a scenario is one order of those calls.
- The 200 ms interval of the polling loops. Their effect is kept: a suspended handler resumes only when a stream is held, and any one of the waiting handlers may resume first.
- Relayed events without a payload at the server. Reading `payload.roomId` of a missing payload throws a TypeError inside the listener (server/index.js:34, 38, 42); socket.io does not catch it, so the Node process exits and every room is lost. The model's relay takes the room id from a well-formed message. A payload without a `roomId` is not modelled either.
- Logging to the console, CORS, the port, and the express app.
- `Relay.ForwardRecipients` follows socket.io 4's `socket.to`, which leaves out every socket in the sender's own-id room. Earlier releases, whose exclusion rule differs, are not modelled.
- `Relay.Fanout`: the order in which socket.io delivers to the members of a room is not modelled, only the set of recipients.
- The browser objects themselves: RTCPeerConnection, MediaStream, getUserMedia, fetch and the socket.io client. What they return comes in as method parameters.
- Track aliasing:
  - tracks and senders are values, so a track shared between a stream and a sender is not the same object in the model;
  - a stopped track is recorded in the trace, but the stream is not marked.
- Rejections of setRemoteDescription, createOffer, createAnswer and replaceTrack on an open peer connection: the handlers are modelled on their success path there. A rejected addIceCandidate is recorded as the call, since its rejection is only logged. The throws that are modelled are:
  - a payload without `sdp`, in the hook and the component;
  - a missing payload at `ice-candidate`;
  - the `elements[0]` TypeError of the lint rule;
  - addTrack, and a waiting handler's first call, on a closed peer connection;
  - the RTCPeerConnection constructor refusing the ICE servers.
- The constructor's checks of ICE servers beyond the URL scheme and the TURN credentials: full URL syntax, `urls` given as an array, `credentialType`, and list entries that are not objects. An entry's `urls` is one string here.
- React discarding the state updates of an unmounted component: after `VideoChat.Chat.Unmount` the model still records the permission message that `initMedia`'s catch sets, though nothing would show it.
- The hook's cleanup: the function that `init` returns is dropped by the effect in the source, so nothing ever calls it. The model has no cleanup for the hook.
- The effects re-running when `roomId` changes. Each instance keeps one room.
- Rendering: the video elements' `srcObject`, the buttons, the layouts, the routes, room-id generation on the home page, and the separate prototype under `front/`.
- The TURN server and its credentials, beyond the shape of the response the hook reads.
- The limit of the lint rule:
  - a limit that is not an integer (NaN, fractions) is not modelled;
  - JavaScript numbers are unbounded integers here.
- Line terminators other than the line feed: ESLint also breaks lines at `\r`, U+2028 and U+2029, which `MultilineBraces.Lines` takes as ordinary characters. The layout of `MultilineBraces.FixedLayout` is therefore stated in line-feed lines, and matches ESLint's lines for element texts free of the other three.
- ESLint's own machinery: parsing, locating tokens (the first `{` and last `}` come in as parameters), and applying the fix.
- The ESLint configuration that enables the rule.
