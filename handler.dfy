/**
  The relay's WebSocket handlers as pure state transitions. Node runs the
  handlers one event at a time, so each one is a function from the relay's
  state and one event to the new state and the ordered list of `send` calls
  it makes. The state is process-wide: the camera registry, the viewer set,
  the five pending-payload variables (shared by every connection, as in the
  code) and the properties each handler sets on a connection object.
 */
module Handler {
  import opened Seqs
  import opened Protocol
  import opened Fanout

  /** A registry record: the owning connection, the latest video payload and the display name. */
  datatype Camera = Camera(ws: ConnId, lastFrame: Option<Bytes>, name: Key)

  /** The properties the handlers set on a connection object: `cameraId`, `isCamera`, `isViewer`. */
  datatype ConnFlags = ConnFlags(cameraId: Key, isCamera: bool, isViewer: bool)

  /** A connection no handler has marked: all three properties are `undefined`, so falsy. */
  const Unmarked := ConnFlags(Undefined, false, false)

  datatype State = State(
    cameras: map<Key, Camera>,    // the `cameras` Map
    order: seq<Key>,              // its keys in insertion order
    viewers: seq<ConnId>,         // the `viewers` Set, in insertion order
    expectingVideoData: bool,
    expectingCameraAudioData: bool,
    expectingPCAudioData: bool,
    currentCameraId: Key,
    targetCameraId: Key,
    conns: map<ConnId, ConnFlags>)

  /** The state at start-up: empty registry, no flag armed, both ids `null`. */
  const Initial := State(map[], [], [], false, false, false, Null, Null, map[])

  /** `order` enumerates the Map's keys, each once, and the viewer Set has no duplicates. */
  predicate Valid(s: State) {
    && NoDups(s.order)
    && (forall id | id in s.order :: id in s.cameras)
    && (forall id | id in s.cameras :: id in s.order)
    && NoDups(s.viewers)
  }

  datatype Outcome = Outcome(state: State, sends: seq<Send>)

  function FlagsOf(conns: map<ConnId, ConnFlags>, ws: ConnId): ConnFlags {
    if ws in conns then conns[ws] else Unmarked
  }

  /** `data.name || data.cameraId`: the name when truthy, otherwise the id. */
  function DisplayName(id: Key, name: Key): (r: Key)
    ensures r == name || r == id
    ensures Truthy(name) ==> r == name
    ensures !Truthy(name) ==> r == id
    ensures Truthy(r) <==> Truthy(name) || Truthy(id)
  {
    if Truthy(name) then name else id
  }

  /** The `camera-list` entries: `Array.from(cameras.entries())` mapped to `{id, name}`. */
  function Snapshot(s: State): seq<Entry>
    requires Valid(s)
  {
    seq(|s.order|, i requires 0 <= i < |s.order| => Entry(s.order[i], s.cameras[s.order[i]].name))
  }

  /**
    The list names every registered camera exactly once, with its name, in
    the Map's insertion order.
   */
  lemma SnapshotListsRegistry(s: State)
    requires Valid(s)
    ensures var r := Snapshot(s);
      && |r| == |s.order|
      && (forall i | 0 <= i < |r| :: r[i].id == s.order[i] && r[i].name == s.cameras[r[i].id].name)
      && (forall id | id in s.cameras :: exists i | 0 <= i < |r| :: r[i].id == id)
      && (forall i, j | 0 <= i < j < |r| :: r[i].id != r[j].id)
  {
    var r := Snapshot(s);
    forall id | id in s.cameras ensures exists i | 0 <= i < |r| :: r[i].id == id {
      var i :| 0 <= i < |s.order| && s.order[i] == id;
      assert r[i].id == id;
    }
  }

  /** `broadcastCameraList`: the current list to every open viewer. */
  function ListBroadcast(s: State, open: set<ConnId>): seq<Send>
    requires Valid(s)
  {
    FanOut(s.viewers, open, [CameraList(Snapshot(s))])
  }

  /** `sendCameraList(viewer)`: the current list to one connection, open or not. */
  function ListTo(s: State, viewer: ConnId): (r: seq<Send>)
    requires Valid(s)
    ensures forall c :: Inbox(r, c) == if c == viewer then [CameraList(Snapshot(s))] else []
  {
    var r := [Send(viewer, CameraList(Snapshot(s)))];
    assert r[..0] == [];
    r
  }

  /** The control path: a decoded message of a known type from connection `ws`. */
  function ControlStep(s: State, ws: ConnId, m: ControlMsg, open: set<ConnId>): (o: Outcome)
    requires Valid(s)
    ensures Valid(o.state)
  {
    match m
    case Video(id) =>
      Outcome(s.(expectingVideoData := true, currentCameraId := id), [])
    case AudioFromCamera(id) =>
      Outcome(s.(expectingCameraAudioData := true, currentCameraId := id), [])
    case AudioFromPc(target) =>
      Outcome(s.(expectingPCAudioData := true, targetCameraId := target), [])
    case CameraInit(id, name) =>
      var order := if id in s.cameras then s.order else s.order + [id];
      assert NoDups(order) by {
        if id !in s.cameras {
          forall i, j | 0 <= i < j < |order| ensures order[i] != order[j] {
            if j == |s.order| {
              assert order[i] == s.order[i];
            }
          }
        }
      }
      var s' := s.(
        cameras := s.cameras[id := Camera(ws, None, DisplayName(id, name))],
        order := order,
        conns := s.conns[ws := FlagsOf(s.conns, ws).(cameraId := id, isCamera := true)]);
      Outcome(s', ListBroadcast(s', open))
    case ViewerInit =>
      var viewers := if ws in s.viewers then s.viewers else s.viewers + [ws];
      assert NoDups(viewers) by {
        if ws !in s.viewers {
          forall i, j | 0 <= i < j < |viewers| ensures viewers[i] != viewers[j] {
            if j == |s.viewers| {
              assert viewers[i] == s.viewers[i];
            }
          }
        }
      }
      var s' := s.(
        viewers := viewers,
        conns := s.conns[ws := FlagsOf(s.conns, ws).(isViewer := true)]);
      Outcome(s', ListTo(s', ws))
  }

  /**
    The binary path. The frame consumes the first armed flag in the order
    video, camera audio, talkback; it does not say which connection sent it.
   */
  function BinaryStep(s: State, payload: Bytes, open: set<ConnId>): (o: Outcome)
    requires Valid(s)
    ensures Valid(o.state)
  {
    if s.expectingVideoData then
      var s1 := s.(expectingVideoData := false);
      var id := s.currentCameraId;
      if id in s.cameras then
        Outcome(s1.(cameras := s.cameras[id := s.cameras[id].(lastFrame := Some(payload))]),
                FanOut(s.viewers, open, [VideoAnn(id), Payload(payload)]))
      else
        Outcome(s1, [])
    else if s.expectingCameraAudioData then
      Outcome(s.(expectingCameraAudioData := false),
              FanOut(s.viewers, open, [CamAudioAnn(s.currentCameraId), Payload(payload)]))
    else if s.expectingPCAudioData then
      var s1 := s.(expectingPCAudioData := false);
      var id := s.targetCameraId;
      if id in s.cameras && s.cameras[id].ws in open then
        Outcome(s1, [Send(s.cameras[id].ws, PcAudioAnn), Send(s.cameras[id].ws, Payload(payload))])
      else
        Outcome(s1, [])
    else
      Outcome(s, [])
  }

  /** One message on connection `ws`, classified as the handler's first test does. */
  function MessageStep(s: State, ws: ConnId, e: Event, open: set<ConnId>): (o: Outcome)
    requires Valid(s)
    ensures Valid(o.state)
  {
    match e
    case Control(m) => ControlStep(s, ws, m, open)
    case Ignored => Outcome(s, [])
    case Binary(payload) => BinaryStep(s, payload, open)
  }

  /**
    The close handler: a connection marked as a camera with a truthy
    `cameraId` deletes that key and broadcasts the new list; a connection
    marked as a viewer then leaves the viewer set.
   */
  function CloseStep(s: State, ws: ConnId, open: set<ConnId>): (o: Outcome)
    requires Valid(s)
    ensures Valid(o.state)
  {
    var f := FlagsOf(s.conns, ws);
    var s1 :=
      if f.isCamera && Truthy(f.cameraId) then
        s.(cameras := s.cameras - {f.cameraId}, order := Without(s.order, f.cameraId))
      else s;
    var sends := if f.isCamera && Truthy(f.cameraId) then ListBroadcast(s1, open) else [];
    var s2 := if f.isViewer then s1.(viewers := Without(s1.viewers, ws)) else s1;
    Outcome(s2, sends)
  }
}
