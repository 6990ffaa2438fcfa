/** The per-hand frame that the assembler emits, and its dictionary form. */
module Frame {
  import opened Wrappers
  import opened Models

  /**
   * One coherent frame: the latest wrist pose and landmark set of one side,
   * the per-side sequence number, and the receive timestamps involved.
   */
  datatype HandFrame = HandFrame(
    side: HandSide,
    frameId: string,
    wrist: WristPose,
    landmarks: HandLandmarks,
    sequenceId: int,
    recvTsNs: int,
    recvTimeUnixNs: Option<int>,
    sourceTsNs: Option<int>,
    wristRecvTsNs: int,
    landmarksRecvTsNs: int)

  const FrameKeys: set<string> := {
    "side", "frame_id", "wrist", "landmarks", "sequence_id", "recv_ts_ns",
    "recv_time_unix_ns", "source_ts_ns", "wrist_recv_ts_ns", "landmarks_recv_ts_ns"
  }

  /** An optional integer as serialised: the integer, or null. */
  function OptionalInt(o: Option<int>): Value {
    if o.Some? then Int(o.value) else Null
  }

  /** `HandFrame.to_dict`: nested `to_dict` for the pose and the landmarks. */
  function FrameToDict(f: HandFrame): (m: map<string, Value>)
    ensures m.Keys == FrameKeys
    ensures m["side"] == Str(SideName(f.side)) && m["frame_id"] == Str(f.frameId)
    ensures m["wrist"] == Dict(WristPoseToDict(f.wrist))
    ensures m["landmarks"] == Dict(LandmarksToDict(f.landmarks))
  {
    map[
      "side" := Str(SideName(f.side)),
      "frame_id" := Str(f.frameId),
      "wrist" := Dict(WristPoseToDict(f.wrist)),
      "landmarks" := Dict(LandmarksToDict(f.landmarks)),
      "sequence_id" := Int(f.sequenceId),
      "recv_ts_ns" := Int(f.recvTsNs),
      "recv_time_unix_ns" := OptionalInt(f.recvTimeUnixNs),
      "source_ts_ns" := OptionalInt(f.sourceTsNs),
      "wrist_recv_ts_ns" := Int(f.wristRecvTsNs),
      "landmarks_recv_ts_ns" := Int(f.landmarksRecvTsNs)
    ]
  }

  /** `HandSide(str(v))`. */
  function SideField(m: map<string, Value>): Result<HandSide, DecodeError> {
    var v :- Get(m, "side");
    var name :- AsText(v);
    var side := SideFromName(name);
    if side.Some? then Ok(side.value) else Err(UnsupportedSide(name))
  }

  /** `int(values[key])`. */
  function IntField(m: map<string, Value>, key: string): Result<int, DecodeError> {
    var v :- Get(m, key);
    AsInt(v)
  }

  /** `None if values[key] is None else int(values[key])`: the key itself is required. */
  function OptionalIntField(m: map<string, Value>, key: string): Result<Option<int>, DecodeError> {
    var v :- Get(m, key);
    if v.Null? then Ok(None)
    else
      var i :- AsInt(v);
      Ok(Some(i))
  }

  /** `HandFrame.from_dict`: the fields in declaration order; the first failure is the result. */
  function FrameFromDict(m: map<string, Value>): (r: Result<HandFrame, DecodeError>)
    ensures r.Ok? ==> FrameKeys <= m.Keys
  {
    var side :- SideField(m);
    var frameIdValue :- Get(m, "frame_id");
    var frameId :- AsText(frameIdValue);
    var wristValue :- Get(m, "wrist");
    var wristEntries :- AsMapping(wristValue);
    var wrist :- WristPoseFromDict(wristEntries);
    var landmarksValue :- Get(m, "landmarks");
    var landmarksEntries :- AsMapping(landmarksValue);
    var landmarks :- LandmarksFromDict(landmarksEntries);
    var sequenceId :- IntField(m, "sequence_id");
    var recvTsNs :- IntField(m, "recv_ts_ns");
    var recvTimeUnixNs :- OptionalIntField(m, "recv_time_unix_ns");
    var sourceTsNs :- OptionalIntField(m, "source_ts_ns");
    var wristRecvTsNs :- IntField(m, "wrist_recv_ts_ns");
    var landmarksRecvTsNs :- IntField(m, "landmarks_recv_ts_ns");
    Ok(HandFrame(side, frameId, wrist, landmarks, sequenceId, recvTsNs,
                 recvTimeUnixNs, sourceTsNs, wristRecvTsNs, landmarksRecvTsNs))
  }

  /** An optional integer survives serialisation. */
  lemma OptionalIntRoundTrip(m: map<string, Value>, key: string, o: Option<int>)
    requires key in m && m[key] == OptionalInt(o)
    ensures OptionalIntField(m, key) == Ok(o)
  {
  }

  /** An integer stored under `key` is read back as itself. */
  lemma IntFieldOf(m: map<string, Value>, key: string, i: int)
    requires key in m && m[key] == Int(i)
    ensures IntField(m, key) == Ok(i)
  {
  }

  /** A side stored under "side" as its name is read back as itself. */
  lemma SideFieldOf(m: map<string, Value>, side: HandSide)
    requires "side" in m && m["side"] == Str(SideName(side))
    ensures SideField(m) == Ok(side)
  {
    SideNameRoundTrip(side);
  }

  /** from_dict inverts to_dict on every frame, whatever its landmark count. */
  lemma FrameRoundTrip(f: HandFrame)
    ensures FrameFromDict(FrameToDict(f)) == Ok(f)
  {
    var m := FrameToDict(f);
    SideFieldOf(m, f.side);
    WristPoseRoundTrip(f.wrist);
    LandmarksRoundTrip(f.landmarks);
    IntFieldOf(m, "sequence_id", f.sequenceId);
    IntFieldOf(m, "recv_ts_ns", f.recvTsNs);
    OptionalIntRoundTrip(m, "recv_time_unix_ns", f.recvTimeUnixNs);
    OptionalIntRoundTrip(m, "source_ts_ns", f.sourceTsNs);
    IntFieldOf(m, "wrist_recv_ts_ns", f.wristRecvTsNs);
    IntFieldOf(m, "landmarks_recv_ts_ns", f.landmarksRecvTsNs);
  }
}
