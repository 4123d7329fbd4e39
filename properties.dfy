/**
  What the handlers promise, stated about `Handler`'s transitions: what each
  message does to the registry and the pending state, who receives what, and
  the consequences of the code's shared pending state and its close handler.
 */
module Properties {
  import opened Seqs
  import opened Protocol
  import opened Fanout
  import opened Handler

  /** The five pending-payload variables are as in `s`. */
  predicate SamePending(s: State, t: State) {
    && t.expectingVideoData == s.expectingVideoData
    && t.expectingCameraAudioData == s.expectingCameraAudioData
    && t.expectingPCAudioData == s.expectingPCAudioData
    && t.currentCameraId == s.currentCameraId
    && t.targetCameraId == s.targetCameraId
  }

  /** The camera Map with its order, the viewer Set and every connection's properties are as in `s`. */
  predicate SameRegistry(s: State, t: State) {
    t.cameras == s.cameras && t.order == s.order && t.viewers == s.viewers && t.conns == s.conns
  }

  /**
    `camera-init(id, name)` from `ws` upserts `cameras[id]` as a record owned
    by `ws`, with no last frame and the name falling back to the id; a new id
    goes to the end of the Map's order and a known id keeps its place. The
    connection becomes a camera for `id`. Each open viewer, and nobody else,
    receives one `camera-list` holding the new registry.
   */
  lemma CameraInitRegisters(s: State, ws: ConnId, id: Key, name: Key, open: set<ConnId>)
    requires Valid(s)
    ensures var o := ControlStep(s, ws, CameraInit(id, name), open);
      && o.state.cameras == s.cameras[id := Camera(ws, None, if Truthy(name) then name else id)]
      && o.state.order == (if id in s.cameras then s.order else s.order + [id])
      && FlagsOf(o.state.conns, ws) == FlagsOf(s.conns, ws).(cameraId := id, isCamera := true)
      && (forall c | c != ws :: FlagsOf(o.state.conns, c) == FlagsOf(s.conns, c))
      && o.state.viewers == s.viewers
      && SamePending(s, o.state)
      && forall c :: Inbox(o.sends, c) == if c in s.viewers && c in open then [CameraList(Snapshot(o.state))] else []
  {
    var o := ControlStep(s, ws, CameraInit(id, name), open);
    forall c ensures Inbox(o.sends, c) == if c in s.viewers && c in open then [CameraList(Snapshot(o.state))] else [] {
      InboxFanOut(s.viewers, open, [CameraList(Snapshot(o.state))], c);
    }
  }

  /**
    Two `camera-init`s for the same id: the later one wins outright (owner and
    name), and the id keeps the place in the list that the first gave it.
   */
  lemma LastRegistrationWins(s: State, a: ConnId, b: ConnId, id: Key, nameA: Key, nameB: Key, open: set<ConnId>)
    requires Valid(s)
    ensures var s1 := ControlStep(s, a, CameraInit(id, nameA), open).state;
      var s2 := ControlStep(s1, b, CameraInit(id, nameB), open).state;
      && s2.cameras[id] == Camera(b, None, DisplayName(id, nameB))
      && s2.order == s1.order
      && Snapshot(s2) == Snapshot(s1)[IndexOf(s1.order, id) := Entry(id, DisplayName(id, nameB))]
  {
    var s1 := ControlStep(s, a, CameraInit(id, nameA), open).state;
    var s2 := ControlStep(s1, b, CameraInit(id, nameB), open).state;
    assert id in s1.cameras;
    SnapshotAfterUpdate(s1, s2, id, Camera(b, None, DisplayName(id, nameB)));
  }

  /** Replacing the record of a registered id changes only that id's entry of the list. */
  lemma SnapshotAfterUpdate(s: State, t: State, id: Key, cam: Camera)
    requires Valid(s) && Valid(t)
    requires id in s.cameras && t.order == s.order && t.cameras == s.cameras[id := cam]
    ensures Snapshot(t) == Snapshot(s)[IndexOf(s.order, id) := Entry(id, cam.name)]
  {
    var k := IndexOf(s.order, id);
    var l1, l2 := Snapshot(s), Snapshot(t);
    forall i | 0 <= i < |l1| ensures l2[i] == l1[k := Entry(id, cam.name)][i] {
      if i != k {
        assert s.order[i] != s.order[k];
      }
    }
  }

  /** The position of a present element. */
  function IndexOf(s: seq<Key>, x: Key): (k: nat)
    requires x in s
    ensures k < |s| && s[k] == x
  {
    if s[0] == x then 0 else 1 + IndexOf(s[1..], x)
  }

  /**
    `viewer-init` from `ws` makes `ws` a member of the viewer set (once), marks
    it as a viewer and leaves the camera registry alone. `ws` alone receives
    the current list, whether or not its transport is open.
   */
  lemma ViewerInitRegisters(s: State, ws: ConnId, open: set<ConnId>)
    requires Valid(s)
    ensures var o := ControlStep(s, ws, ViewerInit, open);
      && (forall c :: c in o.state.viewers <==> c in s.viewers || c == ws)
      && NoDups(o.state.viewers)
      && o.state.cameras == s.cameras && o.state.order == s.order
      && FlagsOf(o.state.conns, ws) == FlagsOf(s.conns, ws).(isViewer := true)
      && (forall c | c != ws :: FlagsOf(o.state.conns, c) == FlagsOf(s.conns, c))
      && SamePending(s, o.state)
      && forall c :: Inbox(o.sends, c) == if c == ws then [CameraList(Snapshot(s))] else []
  {
    var o := ControlStep(s, ws, ViewerInit, open);
    assert Snapshot(o.state) == Snapshot(s);
    forall c ensures Inbox(o.sends, c) == if c == ws then [CameraList(Snapshot(s))] else [] {
      assert o.sends[..0] == [];
    }
  }

  /** A second `viewer-init` on the same connection changes nothing and repeats only the list. */
  lemma ViewerInitIdempotent(s: State, ws: ConnId, open: set<ConnId>)
    requires Valid(s)
    ensures var o1 := ControlStep(s, ws, ViewerInit, open);
      var o2 := ControlStep(o1.state, ws, ViewerInit, open);
      o2.state == o1.state && o2.sends == o1.sends
  {
  }

  /**
    `video` and `audio-from-camera` arm their own flag and set
    `currentCameraId`; `audio-from-pc` arms its flag and sets
    `targetCameraId`. The registry, the other flags and the other id are
    untouched, and nothing is sent.
   */
  lemma ArmingOnlySetsPending(s: State, ws: ConnId, m: ControlMsg, open: set<ConnId>)
    requires Valid(s)
    requires m.Video? || m.AudioFromCamera? || m.AudioFromPc?
    ensures var o := ControlStep(s, ws, m, open);
      && o.sends == []
      && SameRegistry(s, o.state)
      && o.state.expectingVideoData == (s.expectingVideoData || m.Video?)
      && o.state.expectingCameraAudioData == (s.expectingCameraAudioData || m.AudioFromCamera?)
      && o.state.expectingPCAudioData == (s.expectingPCAudioData || m.AudioFromPc?)
      && o.state.currentCameraId == (if m.AudioFromPc? then s.currentCameraId else m.cameraId)
      && o.state.targetCameraId == (if m.AudioFromPc? then m.targetCameraId else s.targetCameraId)
  {
  }

  /**
    A binary frame clears exactly the first armed flag in the order video,
    camera audio, talkback, and no other; the ids, the Map's keys and order,
    the viewers and the connections' properties stay. With no flag armed it
    changes nothing and sends nothing.
   */
  lemma BinaryConsumesFirstArmedFlag(s: State, payload: Bytes, open: set<ConnId>)
    requires Valid(s)
    ensures var o := BinaryStep(s, payload, open);
      && !o.state.expectingVideoData
      && o.state.expectingCameraAudioData == (s.expectingCameraAudioData && s.expectingVideoData)
      && o.state.expectingPCAudioData ==
           (s.expectingPCAudioData && (s.expectingVideoData || s.expectingCameraAudioData))
      && o.state.currentCameraId == s.currentCameraId
      && o.state.targetCameraId == s.targetCameraId
      && o.state.cameras.Keys == s.cameras.Keys
      && o.state.order == s.order && o.state.viewers == s.viewers && o.state.conns == s.conns
      && (!s.expectingVideoData && !s.expectingCameraAudioData && !s.expectingPCAudioData ==>
            o.state == s && o.sends == [])
  {
    if s.expectingVideoData {
      assert BinaryStep(s, payload, open).state.cameras.Keys == s.cameras.Keys;
    } else if s.expectingCameraAudioData {
    } else if s.expectingPCAudioData {
    } else {
      assert BinaryStep(s, payload, open) == Outcome(s, []);
    }
  }

  /**
    A video frame whose `currentCameraId` is registered becomes that camera's
    `lastFrame` and reaches each open viewer, and nobody else, as the `video`
    announcement immediately followed by the payload. An unregistered id
    sends nothing and leaves the registry alone.
   */
  lemma VideoFrameRouted(s: State, payload: Bytes, open: set<ConnId>)
    requires Valid(s)
    requires s.expectingVideoData
    ensures var o := BinaryStep(s, payload, open);
      var id := s.currentCameraId;
      if id in s.cameras then
        && o.state.cameras == s.cameras[id := s.cameras[id].(lastFrame := Some(payload))]
        && (forall c :: Inbox(o.sends, c) ==
              if c in s.viewers && c in open then [VideoAnn(id), Payload(payload)] else [])
        && Paired(o.sends, s.viewers, open, VideoAnn(id), Payload(payload))
      else
        o.state.cameras == s.cameras && o.sends == []
  {
    var id := s.currentCameraId;
    if id in s.cameras {
      forall c ensures Inbox(BinaryStep(s, payload, open).sends, c) ==
                       if c in s.viewers && c in open then [VideoAnn(id), Payload(payload)] else [] {
        InboxFanOut(s.viewers, open, [VideoAnn(id), Payload(payload)], c);
      }
      FanOutPairs(s.viewers, open, VideoAnn(id), Payload(payload));
    }
  }

  /**
    A camera-audio frame is broadcast like video, announcement then payload,
    to each open viewer, without checking that `currentCameraId` is
    registered and without touching the registry.
   */
  lemma CameraAudioRouted(s: State, payload: Bytes, open: set<ConnId>)
    requires Valid(s)
    requires !s.expectingVideoData && s.expectingCameraAudioData
    ensures var o := BinaryStep(s, payload, open);
      var id := s.currentCameraId;
      && o.state.cameras == s.cameras
      && (forall c :: Inbox(o.sends, c) ==
            if c in s.viewers && c in open then [CamAudioAnn(id), Payload(payload)] else [])
      && Paired(o.sends, s.viewers, open, CamAudioAnn(id), Payload(payload))
  {
    var id := s.currentCameraId;
    forall c ensures Inbox(BinaryStep(s, payload, open).sends, c) ==
                     if c in s.viewers && c in open then [CamAudioAnn(id), Payload(payload)] else [] {
      InboxFanOut(s.viewers, open, [CamAudioAnn(id), Payload(payload)], c);
    }
    FanOutPairs(s.viewers, open, CamAudioAnn(id), Payload(payload));
  }

  /**
    A talkback frame goes, as the `audio-from-pc` announcement followed by the
    payload, to the connection owning `targetCameraId` and to nobody else,
    and only when that camera is registered and its transport is open.
   */
  lemma TalkbackRouted(s: State, payload: Bytes, open: set<ConnId>)
    requires Valid(s)
    requires !s.expectingVideoData && !s.expectingCameraAudioData && s.expectingPCAudioData
    ensures var o := BinaryStep(s, payload, open);
      var id := s.targetCameraId;
      && o.state.cameras == s.cameras
      && forall c :: Inbox(o.sends, c) ==
           if id in s.cameras && s.cameras[id].ws in open && c == s.cameras[id].ws
           then [PcAudioAnn, Payload(payload)] else []
  {
    var o := BinaryStep(s, payload, open);
    var id := s.targetCameraId;
    if id in s.cameras && s.cameras[id].ws in open {
      var t := s.cameras[id].ws;
      assert o.sends == Deliver(t, [PcAudioAnn, Payload(payload)]);
      forall c ensures Inbox(o.sends, c) == if c == t then [PcAudioAnn, Payload(payload)] else [] {
        InboxDeliver(t, [PcAudioAnn, Payload(payload)], c);
      }
    }
  }

  /**
    Closing `ws`: when it is marked as a camera with a truthy `cameraId`, that
    key leaves the Map (whoever owns it now) and each open viewer, and nobody
    else, receives the updated list; when it is marked as a viewer it leaves
    the viewer set. A connection marked as neither changes nothing.
   */
  lemma CloseDeregisters(s: State, ws: ConnId, open: set<ConnId>)
    requires Valid(s)
    ensures var o := CloseStep(s, ws, open);
      var f := FlagsOf(s.conns, ws);
      var dropsCamera := f.isCamera && Truthy(f.cameraId);
      && o.state.cameras == (if dropsCamera then s.cameras - {f.cameraId} else s.cameras)
      && o.state.order == (if dropsCamera then Without(s.order, f.cameraId) else s.order)
      && (forall c :: c in o.state.viewers <==> c in s.viewers && !(f.isViewer && c == ws))
      && o.state.conns == s.conns
      && SamePending(s, o.state)
      && (forall c :: Inbox(o.sends, c) ==
            if dropsCamera && c in s.viewers && c in open then [CameraList(Snapshot(o.state))] else [])
      && (!f.isCamera && !f.isViewer ==> o.state == s && o.sends == [])
  {
    CloseStateShape(s, ws, open);
    var o := CloseStep(s, ws, open);
    var f := FlagsOf(s.conns, ws);
    if f.isCamera && Truthy(f.cameraId) {
      var s1 := s.(cameras := s.cameras - {f.cameraId}, order := Without(s.order, f.cameraId));
      assert Snapshot(s1) == Snapshot(o.state);
      forall c ensures Inbox(o.sends, c) ==
                       if c in s.viewers && c in open then [CameraList(Snapshot(o.state))] else [] {
        InboxFanOut(s.viewers, open, [CameraList(Snapshot(s1))], c);
      }
    }
  }

  /**
    The list broadcast on a camera's close is the list before the close with
    the closed id's entry taken out, every other entry in its old place; if
    the id is no longer registered, it is the old list unchanged.
   */
  lemma CloseListDropsEntry(s: State, ws: ConnId, open: set<ConnId>)
    requires Valid(s)
    requires FlagsOf(s.conns, ws).isCamera && Truthy(FlagsOf(s.conns, ws).cameraId)
    ensures var id := FlagsOf(s.conns, ws).cameraId;
      var l := Snapshot(s);
      var t := CloseStep(s, ws, open).state;
      && (forall k | 0 <= k < |s.order| && s.order[k] == id :: Snapshot(t) == l[..k] + l[k + 1..])
      && (id !in s.cameras ==> Snapshot(t) == l)
  {
    var id := FlagsOf(s.conns, ws).cameraId;
    var t := CloseStep(s, ws, open).state;
    CloseDropsKey(s, ws, open);
    forall k | 0 <= k < |s.order| && s.order[k] == id
      ensures Snapshot(t) == Snapshot(s)[..k] + Snapshot(s)[k + 1..]
    {
      WithoutAt(s.order, id, k);
      SnapshotAfterDelete(s, t, id, k);
    }
    if id !in s.cameras {
      assert id !in s.order;
      assert t.order == s.order && t.cameras == s.cameras;
    }
  }

  /** The state after a close, field by field: only the Map, its order and the viewer set change. */
  lemma CloseStateShape(s: State, ws: ConnId, open: set<ConnId>)
    requires Valid(s)
    ensures var f := FlagsOf(s.conns, ws);
      var drop := f.isCamera && Truthy(f.cameraId);
      var o := CloseStep(s, ws, open).state;
      && o.cameras == (if drop then s.cameras - {f.cameraId} else s.cameras)
      && o.order == (if drop then Without(s.order, f.cameraId) else s.order)
      && o.viewers == (if f.isViewer then Without(s.viewers, ws) else s.viewers)
      && o.conns == s.conns
  {
    var f := FlagsOf(s.conns, ws);
    var s1 := if f.isCamera && Truthy(f.cameraId) then
        s.(cameras := s.cameras - {f.cameraId}, order := Without(s.order, f.cameraId))
      else s;
    assert CloseStep(s, ws, open).state == if f.isViewer then s1.(viewers := Without(s1.viewers, ws)) else s1;
  }

  /** A close by a camera with a truthy id takes exactly that key out of the Map and its order. */
  lemma CloseDropsKey(s: State, ws: ConnId, open: set<ConnId>)
    requires Valid(s)
    requires FlagsOf(s.conns, ws).isCamera && Truthy(FlagsOf(s.conns, ws).cameraId)
    ensures var id := FlagsOf(s.conns, ws).cameraId;
      var t := CloseStep(s, ws, open).state;
      t.order == Without(s.order, id) && t.cameras == s.cameras - {id}
  {
  }

  /** Deleting the key at position `k` removes exactly its entry of the list and keeps the others in order. */
  lemma SnapshotAfterDelete(s: State, t: State, id: Key, k: nat)
    requires Valid(s) && Valid(t)
    requires k < |s.order| && s.order[k] == id
    requires t.order == s.order[..k] + s.order[k + 1..] && t.cameras == s.cameras - {id}
    ensures Snapshot(t) == Snapshot(s)[..k] + Snapshot(s)[k + 1..]
  {
    var l, l' := Snapshot(s), Snapshot(t);
    var r := l[..k] + l[k + 1..];
    forall i | 0 <= i < |l'| ensures l'[i] == r[i] {
      SkipIndex(l, k, i);
      SnapshotEntryAfterDelete(s, t, id, k, i);
    }
  }

  /** One entry of the list after a deletion: the entry of the next surviving key. */
  lemma SnapshotEntryAfterDelete(s: State, t: State, id: Key, k: nat, i: nat)
    requires Valid(s) && Valid(t)
    requires k < |s.order| && s.order[k] == id && i < |s.order| - 1
    requires t.order == s.order[..k] + s.order[k + 1..] && t.cameras == s.cameras - {id}
    ensures Snapshot(t)[i] == Snapshot(s)[if i < k then i else i + 1]
  {
    var j := if i < k then i else i + 1;
    SkipIndex(s.order, k, i);
    var key := s.order[j];
    assert key != id;
    assert t.cameras[key] == s.cameras[key];
  }

  /**
    The pending state is shared by all connections: after connection `a`
    announces a video frame for its camera `id`, a binary frame from any
    other connection `b` is stored as `id`'s last frame and shown to every
    open viewer as `id`'s video.
   */
  lemma PendingStateIsShared(s: State, a: ConnId, b: ConnId, id: Key, payload: Bytes, open: set<ConnId>)
    requires Valid(s)
    requires id in s.cameras && s.cameras[id].ws == a && a != b
    ensures var s1 := MessageStep(s, a, Control(Video(id)), open).state;
      var o := MessageStep(s1, b, Binary(payload), open);
      && o.state.cameras[id].lastFrame == Some(payload)
      && forall c :: Inbox(o.sends, c) ==
           if c in s.viewers && c in open then [VideoAnn(id), Payload(payload)] else []
  {
    var s1 := MessageStep(s, a, Control(Video(id)), open).state;
    VideoFrameRouted(s1, payload, open);
  }

  /**
    Overwritten arming: `audio-from-camera` for camera `x`, then `video` for
    camera `y`, both before any payload. The first payload is taken as `y`'s
    video (video wins), and the second is broadcast as camera audio of `y`,
    not `x`, because the two share `currentCameraId`.
   */
  lemma ArmingOverwritesCameraId(s: State, ws: ConnId, x: Key, y: Key, p1: Bytes, p2: Bytes, open: set<ConnId>)
    requires Valid(s)
    requires !s.expectingVideoData && !s.expectingCameraAudioData
    requires y in s.cameras
    ensures var s1 := MessageStep(s, ws, Control(AudioFromCamera(x)), open).state;
      var s2 := MessageStep(s1, ws, Control(Video(y)), open).state;
      var o3 := MessageStep(s2, ws, Binary(p1), open);
      var o4 := MessageStep(o3.state, ws, Binary(p2), open);
      && (forall c :: Inbox(o3.sends, c) ==
            if c in s.viewers && c in open then [VideoAnn(y), Payload(p1)] else [])
      && (forall c :: Inbox(o4.sends, c) ==
            if c in s.viewers && c in open then [CamAudioAnn(y), Payload(p2)] else [])
  {
    var s1 := MessageStep(s, ws, Control(AudioFromCamera(x)), open).state;
    var s2 := MessageStep(s1, ws, Control(Video(y)), open).state;
    var o3 := MessageStep(s2, ws, Binary(p1), open);
    VideoFrameRouted(s2, p1, open);
    CameraAudioRouted(o3.state, p2, open);
  }

  /**
    The close handler deletes by id, not by owner: if connection `b`
    re-registers the id that `a` registered, closing `a` removes `b`'s camera
    even though `b` is still connected.
   */
  lemma StaleCloseEvictsSuccessor(s: State, a: ConnId, b: ConnId, id: Key, nameA: Key, nameB: Key, open: set<ConnId>)
    requires Valid(s)
    requires a != b && Truthy(id)
    ensures var s1 := ControlStep(s, a, CameraInit(id, nameA), open).state;
      var s2 := ControlStep(s1, b, CameraInit(id, nameB), open).state;
      var s3 := CloseStep(s2, a, open).state;
      s2.cameras[id].ws == b && id !in s3.cameras && FlagsOf(s3.conns, b).cameraId == id
  {
  }

  /**
    A camera registered with a falsy id (missing, `null` or empty) is never
    removed by its connection's close: the record stays, owned by the closed
    connection.
   */
  lemma FalsyIdOutlivesClose(s: State, ws: ConnId, id: Key, name: Key, open: set<ConnId>)
    requires Valid(s)
    requires !Truthy(id)
    ensures var s1 := ControlStep(s, ws, CameraInit(id, name), open).state;
      var s2 := CloseStep(s1, ws, open).state;
      id in s2.cameras && s2.cameras[id].ws == ws
  {
  }

  /**
    Only the last id a connection registered is removed on close: a
    connection that registers `x` and then `y` leaves `x` in the registry
    after it closes.
   */
  lemma EarlierIdOutlivesClose(s: State, ws: ConnId, x: Key, y: Key, nx: Key, ny: Key, open: set<ConnId>)
    requires Valid(s)
    requires x != y && Truthy(y)
    ensures var s1 := ControlStep(s, ws, CameraInit(x, nx), open).state;
      var s2 := ControlStep(s1, ws, CameraInit(y, ny), open).state;
      var s3 := CloseStep(s2, ws, open).state;
      x in s3.cameras && s3.cameras[x].ws == ws && y !in s3.cameras
  {
  }

  /**
    A message whose first byte is `{` is never forwarded as a payload and
    never clears a pending flag, whether it decodes or not: a media payload
    that happens to start with that byte is swallowed.
   */
  lemma BraceLedMessageNotForwarded(s: State, ws: ConnId, message: Bytes, decoded: Option<ControlMsg>, open: set<ConnId>)
    requires Valid(s)
    requires |message| > 0 && message[0] == OpenBrace
    ensures var o := MessageStep(s, ws, Classify(message, decoded), open);
      && (forall k | 0 <= k < |o.sends| :: !o.sends[k].frame.Payload?)
      && (s.expectingVideoData ==> o.state.expectingVideoData)
      && (s.expectingCameraAudioData ==> o.state.expectingCameraAudioData)
      && (s.expectingPCAudioData ==> o.state.expectingPCAudioData)
  {
    var o := MessageStep(s, ws, Classify(message, decoded), open);
    if decoded.Some? && decoded.value.CameraInit? {
      var s' := o.state;
      forall k | 0 <= k < |o.sends| ensures !o.sends[k].frame.Payload? {
        OnlyFramesSent(s.viewers, open, [CameraList(Snapshot(s'))], k);
      }
    }
  }

  /**
    A message whose first byte is `{` but that does not parse, or whose
    `type` is none of the five known ones, changes nothing and sends nothing:
    either it falls through every branch or the `catch` swallows the error.
   */
  lemma MalformedChangesNothing(s: State, ws: ConnId, message: Bytes, open: set<ConnId>)
    requires Valid(s) && |message| > 0 && message[0] == OpenBrace
    ensures MessageStep(s, ws, Classify(message, None), open) == Outcome(s, [])
  {
  }

  /**
    Every registry record is owned by a connection marked as a camera; no
    handler clears that mark.
   */
  predicate OwnersMarked(s: State) {
    forall id | id in s.cameras :: FlagsOf(s.conns, s.cameras[id].ws).isCamera
  }

  lemma OwnersStayMarkedOnMessage(s: State, ws: ConnId, e: Event, open: set<ConnId>)
    requires Valid(s) && OwnersMarked(s)
    ensures OwnersMarked(MessageStep(s, ws, e, open).state)
  {
    match e
    case Ignored =>
    case Binary(p) => OwnersStayMarkedOnBinary(s, p, open);
    case Control(m) => OwnersStayMarkedOnControl(s, ws, m, open);
  }

  lemma OwnersStayMarkedOnBinary(s: State, payload: Bytes, open: set<ConnId>)
    requires Valid(s) && OwnersMarked(s)
    ensures OwnersMarked(BinaryStep(s, payload, open).state)
  {
    var o := BinaryStep(s, payload, open).state;
    assert o.conns == s.conns;
    forall id | id in o.cameras ensures FlagsOf(o.conns, o.cameras[id].ws).isCamera {
      assert o.cameras[id].ws == s.cameras[id].ws;
    }
  }

  lemma OwnersStayMarkedOnControl(s: State, ws: ConnId, m: ControlMsg, open: set<ConnId>)
    requires Valid(s) && OwnersMarked(s)
    ensures OwnersMarked(ControlStep(s, ws, m, open).state)
  {
    var o := ControlStep(s, ws, m, open).state;
    if m.CameraInit? {
      forall id | id in o.cameras ensures FlagsOf(o.conns, o.cameras[id].ws).isCamera {
        if id != m.cameraId {
          assert o.cameras[id] == s.cameras[id];
          assert FlagsOf(s.conns, s.cameras[id].ws).isCamera;
        }
      }
    } else if m.ViewerInit? {
      forall id | id in o.cameras ensures FlagsOf(o.conns, o.cameras[id].ws).isCamera {
        assert o.cameras[id] == s.cameras[id];
      }
    }
  }

  lemma OwnersStayMarkedOnClose(s: State, ws: ConnId, open: set<ConnId>)
    requires Valid(s) && OwnersMarked(s)
    ensures OwnersMarked(CloseStep(s, ws, open).state)
  {
    var o := CloseStep(s, ws, open).state;
    CloseStateShape(s, ws, open);
    forall id | id in o.cameras ensures FlagsOf(o.conns, o.cameras[id].ws).isCamera {
      assert o.cameras[id] == s.cameras[id];
    }
  }

  /**
    Every member of the viewer set is marked as a viewer: `viewer-init` adds
    the connection and sets `isViewer` in the same step, and no handler clears
    the mark.
   */
  predicate ViewersMarked(s: State) {
    forall c | c in s.viewers :: FlagsOf(s.conns, c).isViewer
  }

  lemma ViewersStayMarkedOnMessage(s: State, ws: ConnId, e: Event, open: set<ConnId>)
    requires Valid(s) && ViewersMarked(s)
    ensures ViewersMarked(MessageStep(s, ws, e, open).state)
  {
    match e
    case Ignored =>
    case Binary(p) => ViewersStayMarkedOnBinary(s, p, open);
    case Control(m) => ViewersStayMarkedOnControl(s, ws, m, open);
  }

  lemma ViewersStayMarkedOnBinary(s: State, payload: Bytes, open: set<ConnId>)
    requires Valid(s) && ViewersMarked(s)
    ensures ViewersMarked(BinaryStep(s, payload, open).state)
  {
    var o := BinaryStep(s, payload, open).state;
    assert o.viewers == s.viewers && o.conns == s.conns;
  }

  lemma ViewersStayMarkedOnControl(s: State, ws: ConnId, m: ControlMsg, open: set<ConnId>)
    requires Valid(s) && ViewersMarked(s)
    ensures ViewersMarked(ControlStep(s, ws, m, open).state)
  {
    var o := ControlStep(s, ws, m, open).state;
    if m.CameraInit? {
      forall c | c in o.viewers ensures FlagsOf(o.conns, c).isViewer {
        assert c in s.viewers;
      }
    }
  }

  lemma ViewersStayMarkedOnClose(s: State, ws: ConnId, open: set<ConnId>)
    requires Valid(s) && ViewersMarked(s)
    ensures ViewersMarked(CloseStep(s, ws, open).state)
  {
    CloseStateShape(s, ws, open);
    var o := CloseStep(s, ws, open).state;
    assert o.conns == s.conns;
    forall c | c in o.viewers ensures FlagsOf(o.conns, c).isViewer {
      assert c in s.viewers;
    }
  }

  /** While every viewer is marked, a viewer's close takes it out of the viewer set and keeps the others. */
  lemma ViewerCloseLeaves(s: State, ws: ConnId, open: set<ConnId>)
    requires Valid(s) && ViewersMarked(s) && ws in s.viewers
    ensures var v := CloseStep(s, ws, open).state.viewers;
      ws !in v && forall c | c in s.viewers && c != ws :: c in v
  {
    assert FlagsOf(s.conns, ws).isViewer;
  }

  /** The start-up state meets both marking invariants: the Map and the viewer set are empty. */
  lemma InitialMarked()
    ensures OwnersMarked(Initial) && ViewersMarked(Initial)
  {
  }

  /*
    The end-to-end scenario, in three stages: camera connection 1 registers
    `cam1` as `Room1` and viewer connection 2 joins; the camera announces and
    sends one JPEG frame; the camera disconnects.
   */

  const Cam1 := Str("cam1")
  const Room1 := Str("Room1")

  /** The relay once camera 1 has registered `cam1`. */
  const Registered := State(
    map[Cam1 := Camera(1, None, Room1)], [Cam1], [], false, false, false, Null, Null,
    map[1 := ConnFlags(Cam1, true, false)])

  /** The relay once viewer 2 has joined as well. */
  const Joined := State(
    map[Cam1 := Camera(1, None, Room1)], [Cam1], [2], false, false, false, Null, Null,
    map[1 := ConnFlags(Cam1, true, false), 2 := ConnFlags(Undefined, false, true)])

  /** The relay once camera 1 has announced a video frame. */
  const Armed := State(
    map[Cam1 := Camera(1, None, Room1)], [Cam1], [2], true, false, false, Cam1, Null,
    map[1 := ConnFlags(Cam1, true, false), 2 := ConnFlags(Undefined, false, true)])

  /** The relay once the frame has been relayed. */
  const Streamed := State(
    map[Cam1 := Camera(1, Some(ScenarioFrame), Room1)], [Cam1], [2], false, false, false, Cam1, Null,
    map[1 := ConnFlags(Cam1, true, false), 2 := ConnFlags(Undefined, false, true)])

  /** A JPEG payload: its first byte is 0xFF, so it takes the binary path. */
  const ScenarioFrame: Bytes := [0xFF, 0xD8, 0xFF, 0xE0]

  /** Registration: no viewer yet, so nothing is sent. */
  lemma ScenarioRegister()
    ensures var o := MessageStep(Initial, 1, Control(CameraInit(Cam1, Room1)), {1, 2});
      o.state == Registered && o.sends == []
  {
    var o := MessageStep(Initial, 1, Control(CameraInit(Cam1, Room1)), {1, 2});
    assert o.state.cameras == map[Cam1 := Camera(1, None, Room1)];
    assert o.state.order == [Cam1];
  }

  /** Joining: the viewer receives the one-entry list. */
  lemma ScenarioJoin()
    ensures var o := MessageStep(Registered, 2, Control(ViewerInit), {1, 2});
      o.state == Joined && Inbox(o.sends, 2) == [CameraList([Entry(Cam1, Room1)])]
  {
    ViewerInitRegisters(Registered, 2, {1, 2});
    assert Snapshot(Registered) == [Entry(Cam1, Room1)];
  }

  /** The announcement arms the video flag and sends nothing. */
  lemma ScenarioArm()
    ensures var o := MessageStep(Joined, 1, Control(Video(Cam1)), {1, 2});
      o.state == Armed && o.sends == []
  {
  }

  /** The frame: the viewer receives the announcement and then the identical bytes. */
  lemma ScenarioVideo()
    ensures var o := MessageStep(Armed, 1, Classify(ScenarioFrame, None), {1, 2});
      && o.state == Streamed
      && Inbox(o.sends, 2) == [VideoAnn(Cam1), Payload(ScenarioFrame)]
  {
    assert Classify(ScenarioFrame, None) == Binary(ScenarioFrame);
    var o := BinaryStep(Armed, ScenarioFrame, {1, 2});
    assert o.state == Streamed by {
      assert Armed.cameras[Cam1 := Camera(1, Some(ScenarioFrame), Room1)] == Streamed.cameras;
    }
    assert o.sends == Deliver(2, [VideoAnn(Cam1), Payload(ScenarioFrame)]) by {
      assert o.sends == FanOut([2], {1, 2}, [VideoAnn(Cam1), Payload(ScenarioFrame)]);
      assert [2][..0] == [];
    }
    InboxDeliver(2, [VideoAnn(Cam1), Payload(ScenarioFrame)], 2);
  }

  /** The camera disconnects: the viewer receives the empty list. */
  lemma ScenarioLeave()
    ensures var o := CloseStep(Streamed, 1, {2});
      o.state.cameras == map[] && Inbox(o.sends, 2) == [CameraList([])]
  {
    assert Truthy(Cam1);
    var gone := Streamed.(cameras := map[], order := []);
    assert Streamed.cameras - {Cam1} == map[];
    assert Without([Cam1], Cam1) == [] by {
      assert [Cam1][1..] == [];
    }
    assert Snapshot(gone) == [];
    var o := CloseStep(Streamed, 1, {2});
    assert o.sends == FanOut([2], {2}, [CameraList([])]);
    assert [2][..0] == [];
    assert o.sends == Deliver(2, [CameraList([])]);
    InboxDeliver(2, [CameraList([])], 2);
  }
}
