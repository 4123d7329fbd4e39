/**
  The relay as the code keeps it: one object whose fields are the module's
  `cameras` Map, `viewers` Set, the five pending-payload variables and the
  properties set on connection objects, with one method per handler. Each
  method changes the fields in place and is proved to make exactly the
  transition, and the sends, of the matching function of `Handler`.
  `open` is the set of connections whose `readyState` is OPEN when the
  handler runs.
 */
module Server {
  import opened Seqs
  import opened Protocol
  import opened Fanout
  import opened Handler

  class Relay {
    var cameras: map<Key, Camera>
    var order: seq<Key>
    var viewers: seq<ConnId>
    var expectingVideoData: bool
    var expectingCameraAudioData: bool
    var expectingPCAudioData: bool
    var currentCameraId: Key
    var targetCameraId: Key
    var conns: map<ConnId, ConnFlags>

    /** The fields as one `Handler.State` value. */
    function Abs(): State
      reads this
    {
      State(cameras, order, viewers, expectingVideoData, expectingCameraAudioData,
            expectingPCAudioData, currentCameraId, targetCameraId, conns)
    }

    ghost predicate Valid()
      reads this
    {
      Handler.Valid(Abs())
    }

    constructor ()
      ensures Valid() && Abs() == Initial
    {
      cameras, order, viewers := map[], [], [];
      expectingVideoData, expectingCameraAudioData, expectingPCAudioData := false, false, false;
      currentCameraId, targetCameraId := Null, Null;
      conns := map[];
    }

    /**
      The `viewers.forEach` loop: every viewer whose transport is open is
      sent `frames` in order. Each open viewer receives the whole message
      once; closed viewers and non-viewers receive nothing.
     */
    method FanOutToViewers(open: set<ConnId>, frames: seq<Frame>) returns (sends: seq<Send>)
      requires Valid()
      ensures sends == FanOut(viewers, open, frames)
      ensures forall c :: Inbox(sends, c) == if c in viewers && c in open then frames else []
    {
      sends := [];
      var i := 0;
      while i < |viewers|
        invariant 0 <= i <= |viewers|
        invariant sends == FanOut(viewers[..i], open, frames)
      {
        var viewer := viewers[i];
        if viewer in open {
          sends := sends + Deliver(viewer, frames);
        }
        assert viewers[..i + 1][..i] == viewers[..i];
        i := i + 1;
      }
      assert viewers[..i] == viewers;
      forall c ensures Inbox(sends, c) == if c in viewers && c in open then frames else [] {
        InboxFanOut(viewers, open, frames, c);
      }
    }

    /** `broadcastCameraList`: the registry snapshot to every open viewer. */
    method BroadcastCameraList(open: set<ConnId>) returns (sends: seq<Send>)
      requires Valid()
      ensures sends == ListBroadcast(Abs(), open)
      ensures forall c :: Inbox(sends, c) == if c in viewers && c in open then [CameraList(Snapshot(Abs()))] else []
    {
      var list := Snapshot(Abs());
      sends := FanOutToViewers(open, [CameraList(list)]);
    }

    /** `sendCameraList`: the registry snapshot to one connection, without an open check. */
    method SendCameraList(viewer: ConnId) returns (sends: seq<Send>)
      requires Valid()
      ensures sends == ListTo(Abs(), viewer)
      ensures forall c :: Inbox(sends, c) == if c == viewer then [CameraList(Snapshot(Abs()))] else []
    {
      var list := Snapshot(Abs());
      sends := [Send(viewer, CameraList(list))];
      forall c ensures Inbox(sends, c) == if c == viewer then [CameraList(list)] else [] {
        assert sends[..0] == [];
      }
    }

    /** The control path for a decoded message from `ws`. */
    method OnControl(ws: ConnId, m: ControlMsg, open: set<ConnId>) returns (sends: seq<Send>)
      requires Valid()
      modifies this
      ensures Valid()
      ensures Abs() == ControlStep(old(Abs()), ws, m, open).state
      ensures sends == ControlStep(old(Abs()), ws, m, open).sends
    {
      match m
      case Video(id) =>
        expectingVideoData := true;
        currentCameraId := id;
        sends := [];
      case AudioFromCamera(id) =>
        expectingCameraAudioData := true;
        currentCameraId := id;
        sends := [];
      case AudioFromPc(target) =>
        expectingPCAudioData := true;
        targetCameraId := target;
        sends := [];
      case CameraInit(id, name) =>
        ghost var s := Abs();
        if id !in cameras {
          order := order + [id];
        }
        cameras := cameras[id := Camera(ws, None, DisplayName(id, name))];
        conns := conns[ws := FlagsOf(conns, ws).(cameraId := id, isCamera := true)];
        assert Abs() == ControlStep(s, ws, m, open).state;
        sends := BroadcastCameraList(open);
      case ViewerInit =>
        ghost var s := Abs();
        if ws !in viewers {
          viewers := viewers + [ws];
        }
        conns := conns[ws := FlagsOf(conns, ws).(isViewer := true)];
        assert Abs() == ControlStep(s, ws, m, open).state;
        sends := SendCameraList(ws);
    }

    /** The binary path: consume one pending flag and route the payload. */
    method OnBinary(payload: Bytes, open: set<ConnId>) returns (sends: seq<Send>)
      requires Valid()
      modifies this
      ensures Valid()
      ensures Abs() == BinaryStep(old(Abs()), payload, open).state
      ensures sends == BinaryStep(old(Abs()), payload, open).sends
    {
      sends := [];
      if expectingVideoData {
        expectingVideoData := false;
        if currentCameraId in cameras {
          cameras := cameras[currentCameraId := cameras[currentCameraId].(lastFrame := Some(payload))];
          sends := FanOutToViewers(open, [VideoAnn(currentCameraId), Payload(payload)]);
        }
      } else if expectingCameraAudioData {
        expectingCameraAudioData := false;
        sends := FanOutToViewers(open, [CamAudioAnn(currentCameraId), Payload(payload)]);
      } else if expectingPCAudioData {
        expectingPCAudioData := false;
        if targetCameraId in cameras && cameras[targetCameraId].ws in open {
          var camera := cameras[targetCameraId].ws;
          sends := [Send(camera, PcAudioAnn), Send(camera, Payload(payload))];
        }
      }
    }

    /**
      The message handler: a message whose first byte is `{` goes to the
      control path (or does nothing when `decoded` is `None`), any other
      message to the binary path.
     */
    method OnMessage(ws: ConnId, message: Bytes, decoded: Option<ControlMsg>, open: set<ConnId>)
      returns (sends: seq<Send>)
      requires Valid()
      modifies this
      ensures Valid()
      ensures Abs() == MessageStep(old(Abs()), ws, Classify(message, decoded), open).state
      ensures sends == MessageStep(old(Abs()), ws, Classify(message, decoded), open).sends
    {
      if |message| > 0 && message[0] == OpenBrace {
        match decoded
        case Some(m) =>
          sends := OnControl(ws, m, open);
        case None =>
          sends := [];
      } else {
        sends := OnBinary(message, open);
      }
    }

    /**
      The close handler for connection `ws`. The transport emits `'close'`
      only once the connection's `readyState` is CLOSED, so `ws` is not open.
     */
    method OnClose(ws: ConnId, open: set<ConnId>) returns (sends: seq<Send>)
      requires Valid()
      requires ws !in open
      modifies this
      ensures Valid()
      ensures Abs() == CloseStep(old(Abs()), ws, open).state
      ensures sends == CloseStep(old(Abs()), ws, open).sends
    {
      sends := [];
      var flags := FlagsOf(conns, ws);
      if flags.isCamera && Truthy(flags.cameraId) {
        cameras := cameras - {flags.cameraId};
        order := Without(order, flags.cameraId);
        sends := BroadcastCameraList(open);
      }
      if flags.isViewer {
        viewers := Without(viewers, ws);
      }
    }
  }
}
