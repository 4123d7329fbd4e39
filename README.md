# OguWatcher relay: a Dafny model of the WebSocket message handler

OguWatcher relays live camera video and audio to viewers, and talkback audio
from a viewer back to a camera, over one WebSocket per participant. The only
logic in the server is the connection handler registered with
`wss.on('connection')`. It is a small event-driven state machine over
process-wide state:

- the `cameras` Map (camera id to `{ws, lastFrame, name}`) and the `viewers` Set;
- five pending-payload variables (`expectingVideoData`,
  `expectingCameraAudioData`, `expectingPCAudioData`, `currentCameraId`,
  `targetCameraId`), shared by every connection;
- the `cameraId`, `isCamera` and `isViewer` properties the handlers set on a
  connection object.

The handler appears twice, in `server.js` (lines 58-221) and in
`server-https.js` (lines 63-226). The two copies are identical line for line,
with the HTTPS copy five lines further down. One model covers both. The table
below cites `server.js`; add 5 to a line number to get the HTTPS copy.

Node runs one handler at a time, so each handler is a deterministic step from
(state, event) to (new state, ordered list of `send` calls). The project has
these modules:

- `Seqs` (`seqs.dfy`): duplicate-free sequences. They stand for a Map's keys
  and a Set's members, which JavaScript iterates in insertion order.
  `Without` is `delete`.
- `Protocol` (`protocol.dfy`): bytes, connection ids and JavaScript id/name
  values (`Key`: `undefined`, `null` or a string, with JavaScript
  truthiness). It also holds the five known control messages, the outgoing
  frames, and `Classify`, the handler's first test (`message[0] === '{'`).
- `Fanout` (`fanout.dfy`): `Deliver` sends frames to one connection.
  `FanOut` is the `viewers.forEach` loop with its OPEN check. `Inbox` gives
  what one connection receives from a list of sends. The lemmas say who
  receives what.
- `Handler` (`handler.dfy`): the relay state as a value, with the three
  handlers as functions `ControlStep`, `BinaryStep` and `CloseStep`, plus
  `MessageStep`, which dispatches on the classified message.
- `Server` (`relay.dfy`): class `Relay`. Its fields are the module-level
  variables, and its methods update them in place as the handlers do, with
  the send loops written as loops. Each method is proved to make exactly the
  transition and the sends of the matching `Handler` function.
- `Properties` (`properties.dfy`): the handlers' promises, stated as lemmas
  about the `Handler` functions. Some lemmas show consequences of the code as
  written. One scenario lemma follows a camera and a viewer from
  registration to disconnect.

The transport's `readyState` is a parameter, `open`: the set of connections
that are OPEN when the handler runs.

### Where the code departs from the intended protocol

The model follows the code. The lemmas named below prove what the code does
where it differs from the protocol it is meant to implement:

- The pending payload descriptor should belong to one connection. In the
  code it is global, so a binary frame from any connection is routed using
  the kind and id armed by any other (`PendingStateIsShared`). Arming
  `audio-from-camera` and then `video` before either payload arrives sends
  the camera audio under the video's camera id (`ArmingOverwritesCameraId`).
- The registry should hold exactly the open connections that last
  registered, keyed by id. In the code, close deletes by id and not by
  owner: closing an old owner removes the camera that a newer connection
  registered (`StaleCloseEvictsSuccessor`). A camera registered with a
  missing, `null` or empty id is never removed (`FalsyIdOutlivesClose`).
  When one connection registers two ids, only the second is removed when it
  closes (`EarlierIdOutlivesClose`).
- Any message whose first byte is `{` goes down the JSON path. A media
  payload that starts with that byte is never forwarded and does not consume
  the pending flag (`BraceLedMessageNotForwarded`).
- `broadcastCameraList` has no per-viewer `try`. A send that throws there
  would end the loop early. Transport failures are not modelled (see below).

## Model

| member | source | states |
|---|---|---|
| `Seqs.Without` | server.js:178 | deleting a key or a member keeps every other element and nothing else, keeps the sequence duplicate-free, and changes nothing when the element is absent |
| `Seqs.WithoutAt` | server.js:183 | deleting the element at position `k` of a duplicate-free sequence leaves the elements before it followed by the elements after it, each in its old order, as `Map.delete` and `Set.delete` do |
| `Protocol.Classify` | server.js:69-70 | a message goes to the payload path exactly when it is empty or its first byte is not `{`, and the payload is the message unchanged; a `{`-led message is a control message exactly when it decodes, and then it is the decoded message; otherwise it is ignored |
| `Fanout.FanOut` | server.js:122-134 | the `viewers.forEach` loop with its OPEN check (also at server.js:140-152 and 204-208); what it delivers is stated by `Fanout.InboxFanOut` and `Fanout.FanOutPairs` |
| `Fanout.InboxConcat` | server.js:122-134 | what a connection receives from two runs of sends is what it receives from the first, then from the second |
| `Fanout.InboxDeliver` | server.js:160-163 | frames sent to one connection reach it whole and in order, and reach nobody else |
| `Fanout.InboxFanOut` | server.js:204-208 | a broadcast gives every open viewer the whole message exactly once, in order, and gives closed viewers and non-viewers nothing |
| `Fanout.FanOutPairs` | server.js:122-134 | a two-part broadcast only goes to open viewers, and each announcement is immediately followed by the payload to the same viewer |
| `Fanout.OnlyFramesSent` | server.js:204-208 | a broadcast carries only the frames of its message |
| `Handler.DisplayName` | server.js:94 | the display name of a registration: the name when it is truthy, otherwise the id; the result is truthy exactly when one of the two is |
| `Handler.Snapshot` | server.js:194-197 | the `camera-list` entries built from the Map (also at server.js:212-215); their meaning is stated by `Handler.SnapshotListsRegistry` |
| `Handler.ListBroadcast` | server.js:193-209 | `broadcastCameraList` as a list of sends; who receives what is stated by `Server.Relay.BroadcastCameraList` and `Properties.CameraInitRegisters` |
| `Handler.ListTo` | server.js:211-221 | `sendCameraList`: the given connection, and nobody else, receives one list of the current registry |
| `Handler.SnapshotListsRegistry` | server.js:193-197 | the camera list names every registered camera exactly once, with its record's name, in the Map's insertion order |
| `Handler.ControlStep` | server.js:72-113 | every control message keeps the registry well formed: keys listed once in order, viewers once each |
| `Handler.BinaryStep` | server.js:115-168 | a binary frame keeps the registry well formed |
| `Handler.MessageStep` | server.js:67-173 | a message of any kind keeps the registry well formed |
| `Handler.CloseStep` | server.js:175-186 | a close keeps the registry well formed |
| `Server.Relay.constructor` | server.js:58-62 | the relay starts with an empty Map and Set, no flag armed and both ids `null` |
| `Server.Relay.FanOutToViewers` | server.js:122-134 | the `forEach` loop sends exactly the broadcast `FanOut` describes, so each open viewer receives the message once and no one else receives anything |
| `Server.Relay.BroadcastCameraList` | server.js:193-209 | every open viewer, and nobody else, receives one `camera-list` equal to the registry snapshot |
| `Server.Relay.SendCameraList` | server.js:211-221 | exactly one `camera-list` with the snapshot goes to the given connection, with no open check |
| `Server.Relay.OnControl` | server.js:72-113 | updates the fields in place into exactly `ControlStep`'s new state and makes exactly its sends |
| `Server.Relay.OnBinary` | server.js:115-168 | updates the fields in place into exactly `BinaryStep`'s new state and makes exactly its sends |
| `Server.Relay.OnMessage` | server.js:67-173 | the `{` test followed by the control or binary path equals `MessageStep` on the classified message |
| `Server.Relay.OnClose` | server.js:175-186 | for a connection that is no longer open, updates the fields in place into exactly `CloseStep`'s new state and makes exactly its sends |
| `Properties.CameraInitRegisters` | server.js:90-102 | `camera-init` upserts `cameras[id]` owned by the sender with `lastFrame` null and name `name` if truthy else `id`. It appends a new id to the Map's order and keeps a known id's place. It sets the sender's `cameraId` and `isCamera` and leaves other connections, viewers and pending state alone. Each open viewer, and nobody else, receives one list of the new registry |
| `Properties.LastRegistrationWins` | server.js:91-95 | a second `camera-init` for the same id replaces owner and name, keeps the id's position, and changes only that entry of the list |
| `Properties.SnapshotAfterUpdate` | server.js:193-197 | replacing a registered id's record changes only that id's entry of the camera list |
| `Properties.ViewerInitRegisters` | server.js:105-112 | `viewer-init` adds the sender to the viewer set once, sets `isViewer` and leaves the cameras and pending state alone. The sender alone receives the current list, open or not |
| `Properties.ViewerInitIdempotent` | server.js:106 | a repeated `viewer-init` leaves the state as the first left it |
| `Properties.ArmingOnlySetsPending` | server.js:72-88 | `video`/`audio-from-camera` arm their flag and set `currentCameraId`, and `audio-from-pc` arms its flag and sets `targetCameraId`. The other flags, the registry and the connection properties are unchanged, and nothing is sent |
| `Properties.BinaryConsumesFirstArmedFlag` | server.js:115-168 | a binary frame clears the first armed flag in the order video, camera audio, talkback, and only that flag. It keeps both ids and the registry's keys, order, viewers and connection properties. With no flag armed it changes nothing and sends nothing |
| `Properties.VideoFrameRouted` | server.js:116-136 | a video frame for a registered `currentCameraId` becomes its `lastFrame`. Each open viewer, and nobody else, receives `video` then the payload, as an unsplit pair. An unregistered id sends nothing |
| `Properties.CameraAudioRouted` | server.js:137-153 | a camera-audio frame reaches each open viewer as `audio-from-camera` then the payload, with no registry lookup and no registry change |
| `Properties.TalkbackRouted` | server.js:154-168 | a talkback frame reaches only the connection of `cameras[targetCameraId]`, as `audio-from-pc` then the payload, and only if that camera is registered and open |
| `Properties.CloseDeregisters` | server.js:175-186 | on close, a camera with a truthy `cameraId` loses that key from the Map and from its order, the other keys keeping their order, and each open viewer receives the updated list; a viewer leaves the set; a connection that is neither changes nothing |
| `Properties.CloseListDropsEntry` | server.js:176-180 | the list broadcast on a camera's close is the list before it with the closed id's entry cut out and every other entry in its old place, or the old list when the id is no longer registered |
| `Properties.CloseDropsKey` | server.js:178 | a close by a camera with a truthy id deletes exactly that key from the Map and from its order |
| `Properties.CloseStateShape` | server.js:175-186 | a close changes only the Map, its order and the viewer set, each as the handler's two `delete`s say, and no connection property |
| `Properties.SnapshotAfterDelete` | server.js:193-197 | deleting the key at position `k` cuts exactly entry `k` out of the camera list |
| `Properties.SnapshotEntryAfterDelete` | server.js:193-197 | after that deletion, entry `i` of the list is the old entry `i` before position `k` and the old entry `i + 1` from `k` on |
| `Properties.PendingStateIsShared` | server.js:58-62 | after camera A announces video for its id, a binary frame from any other connection becomes A's last frame and is shown to viewers as A's video |
| `Properties.ArmingOverwritesCameraId` | server.js:72-82 | `audio-from-camera` for x, then `video` for y: the first payload is y's video, the second is broadcast as y's camera audio |
| `Properties.StaleCloseEvictsSuccessor` | server.js:176-178 | closing a connection whose id was since re-registered by another connection removes the other connection's camera |
| `Properties.FalsyIdOutlivesClose` | server.js:176 | a camera registered with a falsy id stays registered after its connection closes |
| `Properties.EarlierIdOutlivesClose` | server.js:96 | when one connection registers x and then y, closing it removes y but not x |
| `Properties.BraceLedMessageNotForwarded` | server.js:69 | a message starting with `{` never causes a payload send and never clears a pending flag |
| `Properties.MalformedChangesNothing` | server.js:69-113 | a `{`-led message that does not parse, or whose `type` is none of the five known ones, leaves the whole state unchanged and sends nothing (the fall-through at server.js:72-113 and the `catch` at server.js:170-172) |
| `Properties.OwnersStayMarkedOnMessage` | server.js:91-97 | every registry record stays owned by a connection marked `isCamera` across any message |
| `Properties.OwnersStayMarkedOnBinary` | server.js:120 | a binary frame keeps every record's owner marked as a camera |
| `Properties.OwnersStayMarkedOnControl` | server.js:91-97 | a control message keeps every record's owner marked as a camera |
| `Properties.OwnersStayMarkedOnClose` | server.js:175-186 | a close keeps every remaining record's owner marked as a camera |
| `Properties.ViewersStayMarkedOnMessage` | server.js:105-107 | every member of the viewer set stays marked `isViewer` across any message: `viewer-init` adds the connection and marks it in the same step, and no message clears the mark |
| `Properties.ViewersStayMarkedOnBinary` | server.js:115-168 | a binary frame keeps every viewer marked `isViewer` |
| `Properties.ViewersStayMarkedOnControl` | server.js:105-107 | a control message keeps every viewer marked `isViewer`, and `viewer-init` marks the viewer it adds |
| `Properties.ViewersStayMarkedOnClose` | server.js:182-183 | a close keeps every remaining viewer marked `isViewer` |
| `Properties.ViewerCloseLeaves` | server.js:182-183 | while every viewer is marked, a viewer's close removes it from the viewer set and keeps every other viewer |
| `Properties.InitialMarked` | server.js:29-30 | the start-up state meets both marking invariants, so they hold in every state a run of messages and closes reaches |
| `Properties.ScenarioRegister` | server.js:90-102 | camera 1 registering `cam1` as `Room1` before any viewer joins sends nothing and yields the one-camera registry |
| `Properties.ScenarioJoin` | server.js:105-112 | viewer 2 joining receives exactly `[{cam1, Room1}]` |
| `Properties.ScenarioArm` | server.js:72-76 | the camera's `video` message arms the flag and sends nothing |
| `Properties.ScenarioVideo` | server.js:116-135 | the JPEG payload reaches viewer 2 as `video` for `cam1` and then the identical bytes, and becomes `cam1`'s last frame |
| `Properties.ScenarioLeave` | server.js:175-181 | the camera's close empties the registry and viewer 2 receives the empty list |

## Left out

- HTTP and HTTPS server construction, Express static serving, CORS,
  `listen`, and loading the TLS certificate files: I/O plumbing with no
  relay logic.
- `getLocalIP`, the start-up banner, every `console` call and the 30-second
  status log: operator output and a timer.
- `getViewerHTML`: the browser page (HTML, CSS and DOM code), which is not
  part of the relay.
- JSON text: parsing is the `decoded` parameter of `Classify` and
  `Relay.OnMessage` (`None` for a parse error or an unknown `type`), and an
  outgoing message is a `Frame` value rather than a string.
  `JSON.stringify`'s dropping of `undefined` fields is therefore not visible.
- `cameraId`, `targetCameraId` and `name` values that are numbers,
  booleans, arrays or objects: `Key` covers a missing field, `null` and
  strings only.
- The `ws` library's `readyState` is the `open` parameter. `send` always
  succeeds. A send that throws is caught per viewer in the media loops and so
  would not affect other viewers. In `broadcastCameraList` a throw would end
  the loop early; neither case is modelled.
- The `'error'` handler: it only logs.
- `Handler.CloseStep` and `Properties.CloseDeregisters` accept an `open` set that contains the closing connection, which the transport never produces; `Server.Relay.OnClose` excludes it.
- Connection objects: the properties the handlers set on `ws` are kept in
  the relay's `conns` map, keyed by connection.
- In-place mutation of a registry record (`camera.lastFrame = message`) is
  modelled as replacing the record in the Map. No other reference to the
  record outlives the handler, so the result is the same.
- Concurrency: Node runs handlers one at a time, so a run is a sequence of
  steps.
