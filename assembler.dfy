/**
 * The frame assembler: per hand side it keeps the latest wrist pose and
 * landmark set with their receive timestamps, drops stale components, and
 * emits a frame once both components are present and one of them has moved
 * on since the last frame.
 *
 * The pure part (SideView, PushSide, RunSide, AssemblerView, RunAssembler)
 * specifies the classes SideAssemblyState and HandFrameAssembler below.
 */
module Assembler {
  import opened Wrappers
  import opened Models
  import opened Parser
  import opened Frame

  // ------------------------------------------------------------ one side

  /** The fields of one side's assembly state, as a value. */
  datatype SideView = SideView(
    wrist: Option<WristPose>,
    wristRecvTsNs: Option<int>,
    landmarks: Option<HandLandmarks>,
    landmarksRecvTsNs: Option<int>,
    lastEmittedWristRecvTsNs: Option<int>,
    lastEmittedLandmarksRecvTsNs: Option<int>,
    nextSequenceId: int)

  /** A fresh side: nothing stored, nothing emitted, sequence numbers from 0. */
  const InitialSide: SideView := SideView(None, None, None, None, None, None, 0)

  /** `a` is absent, or present in `b` and no later than it. */
  predicate NoLater(a: Option<int>, b: Option<int>) {
    a.Some? ==> b.Some? && a.value <= b.value
  }

  /**
   * The states the assembler reaches: every stored component has its
   * timestamp, what was last emitted is never ahead of what is stored, and
   * the sequence counter is positive exactly once a frame went out.
   */
  predicate SideInv(v: SideView) {
    (v.wrist.Some? <==> v.wristRecvTsNs.Some?)
    && (v.landmarks.Some? <==> v.landmarksRecvTsNs.Some?)
    && NoLater(v.lastEmittedWristRecvTsNs, v.wristRecvTsNs)
    && NoLater(v.lastEmittedLandmarksRecvTsNs, v.landmarksRecvTsNs)
    && (v.lastEmittedWristRecvTsNs.Some? <==> v.lastEmittedLandmarksRecvTsNs.Some?)
    && (v.lastEmittedWristRecvTsNs.Some? <==> v.nextSequenceId > 0)
    && v.nextSequenceId >= 0
  }

  lemma InitialSideInv()
    ensures SideInv(InitialSide)
  {
  }

  /** The stored timestamp of the packet's component. */
  function StoredTs(v: SideView, p: ParsedPacket): Option<int> {
    if p.WristPacket? then v.wristRecvTsNs else v.landmarksRecvTsNs
  }

  /** A component older than the one stored is stale; an equal timestamp is not. */
  predicate IsStale(v: SideView, p: ParsedPacket, ts: int) {
    StoredTs(v, p).Some? && ts < StoredTs(v, p).value
  }

  /** Store the packet's component with its timestamp, or None when it is stale. */
  function StoreComponent(v: SideView, p: ParsedPacket, ts: int): (r: Option<SideView>)
    ensures r.None? <==> IsStale(v, p, ts)
  {
    match p
    case WristPacket(_, _, pose) =>
      if v.wristRecvTsNs.Some? && ts < v.wristRecvTsNs.value then None
      else Some(v.(wrist := Some(pose), wristRecvTsNs := Some(ts)))
    case LandmarksPacket(_, _, l) =>
      if v.landmarksRecvTsNs.Some? && ts < v.landmarksRecvTsNs.value then None
      else Some(v.(landmarks := Some(l), landmarksRecvTsNs := Some(ts)))
  }

  /** Both components are stored. */
  predicate Complete(v: SideView) {
    v.wrist.Some? && v.wristRecvTsNs.Some? && v.landmarks.Some? && v.landmarksRecvTsNs.Some?
  }

  /** `ts` is stored and strictly later than what was emitted last (or nothing was). */
  predicate Newer(last: Option<int>, ts: Option<int>) {
    ts.Some? && (last.None? || last.value < ts.value)
  }

  /** At least one component timestamp moved on since the last frame. */
  predicate Advanced(v: SideView) {
    Newer(v.lastEmittedWristRecvTsNs, v.wristRecvTsNs)
    || Newer(v.lastEmittedLandmarksRecvTsNs, v.landmarksRecvTsNs)
  }

  function Max(a: int, b: int): int {
    if a >= b then a else b
  }

  /** The frame that a complete side state stands for. */
  function FrameOf(v: SideView, side: HandSide, frameId: string,
                   recvTimeUnixNs: Option<int>, sourceTsNs: Option<int>): HandFrame
    requires Complete(v)
  {
    HandFrame(side, frameId, v.wrist.value, v.landmarks.value, v.nextSequenceId,
              Max(v.wristRecvTsNs.value, v.landmarksRecvTsNs.value),
              recvTimeUnixNs, sourceTsNs, v.wristRecvTsNs.value, v.landmarksRecvTsNs.value)
  }

  /** `_maybe_emit_frame` on one side's state: the new state and the frame, if any. */
  function EmitFrame(v: SideView, side: HandSide, frameId: string,
                     recvTimeUnixNs: Option<int>, sourceTsNs: Option<int>): (r: (SideView, Option<HandFrame>))
    ensures r.1.None? ==> r.0 == v
    ensures r.1.Some? ==> Complete(v) && r.1.value == FrameOf(v, side, frameId, recvTimeUnixNs, sourceTsNs)
  {
    if v.wrist.None? || v.wristRecvTsNs.None? || v.landmarks.None? || v.landmarksRecvTsNs.None? then (v, None)
    else
      var hasNewWrist := v.lastEmittedWristRecvTsNs != v.wristRecvTsNs;
      var hasNewLandmarks := v.lastEmittedLandmarksRecvTsNs != v.landmarksRecvTsNs;
      if !hasNewWrist && !hasNewLandmarks then (v, None)
      else
        var frame := FrameOf(v, side, frameId, recvTimeUnixNs, sourceTsNs);
        (v.(nextSequenceId := v.nextSequenceId + 1,
            lastEmittedWristRecvTsNs := v.wristRecvTsNs,
            lastEmittedLandmarksRecvTsNs := v.landmarksRecvTsNs),
         Some(frame))
  }

  /**
   * In reachable states the `!=` test is the same as "strictly later": a frame
   * goes out exactly when both components are present and one of their
   * timestamps is strictly later than in the previous frame. The frame then
   * carries the next sequence number, the latest of the two timestamps, and
   * the state records it as emitted.
   */
  lemma EmitFrameRule(v: SideView, side: HandSide, frameId: string,
                      recvTimeUnixNs: Option<int>, sourceTsNs: Option<int>)
    requires SideInv(v)
    ensures var r := EmitFrame(v, side, frameId, recvTimeUnixNs, sourceTsNs);
      (r.1.Some? <==> Complete(v) && Advanced(v))
      && SideInv(r.0)
      && (r.1.Some? ==>
            r.1.value.sequenceId == v.nextSequenceId
            && r.0.nextSequenceId == v.nextSequenceId + 1
            && r.1.value.recvTsNs >= r.1.value.wristRecvTsNs
            && r.1.value.recvTsNs >= r.1.value.landmarksRecvTsNs
            && (r.1.value.recvTsNs == r.1.value.wristRecvTsNs || r.1.value.recvTsNs == r.1.value.landmarksRecvTsNs)
            && r.0.lastEmittedWristRecvTsNs == Some(r.1.value.wristRecvTsNs)
            && r.0.lastEmittedLandmarksRecvTsNs == Some(r.1.value.landmarksRecvTsNs)
            && !Advanced(r.0))
  {
  }

  /**
   * `push_packet` on one side's state, with the timestamps already resolved:
   * a stale component changes nothing, otherwise it is stored and a frame may go out.
   */
  function PushSide(v: SideView, p: ParsedPacket, ts: int, frameId: string,
                    recvTimeUnixNs: Option<int>, sourceTsNs: Option<int>): (r: (SideView, Option<HandFrame>))
    ensures IsStale(v, p, ts) ==> r == (v, None)
    ensures r.1.Some? ==> r.1.value.side == p.side && r.1.value.frameId == frameId
  {
    var stored := StoreComponent(v, p, ts);
    if stored.None? then (v, None)
    else EmitFrame(stored.value, p.side, frameId, recvTimeUnixNs, sourceTsNs)
  }

  /** The other component's stored data. */
  predicate OtherUnchanged(v: SideView, w: SideView, p: ParsedPacket) {
    if p.WristPacket? then w.landmarks == v.landmarks && w.landmarksRecvTsNs == v.landmarksRecvTsNs
    else w.wrist == v.wrist && w.wristRecvTsNs == v.wristRecvTsNs
  }

  /**
   * What one push does: it keeps the invariant; a fresh component replaces
   * the stored one and leaves the other alone; stored timestamps never go
   * back; and a frame carries the newest stored components of this side.
   */
  lemma PushSideRule(v: SideView, p: ParsedPacket, ts: int, frameId: string,
                     recvTimeUnixNs: Option<int>, sourceTsNs: Option<int>)
    requires SideInv(v)
    ensures var r := PushSide(v, p, ts, frameId, recvTimeUnixNs, sourceTsNs);
      SideInv(r.0)
      && NoLater(v.wristRecvTsNs, r.0.wristRecvTsNs)
      && NoLater(v.landmarksRecvTsNs, r.0.landmarksRecvTsNs)
      && (!IsStale(v, p, ts) ==>
            StoredTs(r.0, p) == Some(ts)
            && (p.WristPacket? ==> r.0.wrist == Some(p.wrist))
            && (p.LandmarksPacket? ==> r.0.landmarks == Some(p.landmarks))
            && OtherUnchanged(v, r.0, p))
      && (r.1.Some? <==> !IsStale(v, p, ts) && Complete(StoreComponent(v, p, ts).value)
                         && Advanced(StoreComponent(v, p, ts).value))
      && (r.1.Some? ==>
            r.1.value.side == p.side && r.1.value.frameId == frameId
            && r.1.value.sequenceId == v.nextSequenceId
            && r.0.nextSequenceId == v.nextSequenceId + 1
            && r.1.value.recvTimeUnixNs == recvTimeUnixNs && r.1.value.sourceTsNs == sourceTsNs
            && Some(r.1.value.wrist) == r.0.wrist && Some(r.1.value.landmarks) == r.0.landmarks
            && Some(r.1.value.wristRecvTsNs) == r.0.wristRecvTsNs
            && Some(r.1.value.landmarksRecvTsNs) == r.0.landmarksRecvTsNs
            && (p.WristPacket? ==> r.1.value.wristRecvTsNs == ts)
            && (p.LandmarksPacket? ==> r.1.value.landmarksRecvTsNs == ts))
      && (r.1.None? ==> r.0.nextSequenceId == v.nextSequenceId)
  {
    var stored := StoreComponent(v, p, ts);
    if stored.Some? {
      var s := stored.value;
      assert SideInv(s);
      EmitFrameRule(s, p.side, frameId, recvTimeUnixNs, sourceTsNs);
    }
  }

  /** A packet whose timestamp repeats what was just emitted produces no second frame. */
  lemma NoDuplicateFrame(v: SideView, p: ParsedPacket, frameId: string,
                         recvTimeUnixNs: Option<int>, sourceTsNs: Option<int>)
    requires SideInv(v) && !Advanced(v) && StoredTs(v, p).Some?
    ensures PushSide(v, p, StoredTs(v, p).value, frameId, recvTimeUnixNs, sourceTsNs).1.None?
  {
    var stored := StoreComponent(v, p, StoredTs(v, p).value);
    assert stored.Some?;
    assert !Advanced(stored.value);
    EmitFrameRule(stored.value, p.side, frameId, recvTimeUnixNs, sourceTsNs);
  }

  // ------------------------------------------------------------- a run

  /** One call of push_packet with its resolved timestamps. */
  datatype Push = Push(packet: ParsedPacket, recvTsNs: int, recvTimeUnixNs: Option<int>, sourceTsNs: Option<int>)

  /** A sequence of pushes on one side's state: the final state and the frames in order. */
  function RunSide(v: SideView, pushes: seq<Push>, frameId: string): (SideView, seq<HandFrame>)
    decreases |pushes|
  {
    if pushes == [] then (v, [])
    else
      var q := pushes[0];
      var step := PushSide(v, q.packet, q.recvTsNs, frameId, q.recvTimeUnixNs, q.sourceTsNs);
      var rest := RunSide(step.0, pushes[1..], frameId);
      (rest.0, (if step.1.Some? then [step.1.value] else []) + rest.1)
  }

  /** Frame f comes after a state whose last emitted timestamps are `lastW` and `lastL`. */
  predicate FrameAfter(lastW: Option<int>, lastL: Option<int>, f: HandFrame) {
    NoLater(lastW, Some(f.wristRecvTsNs))
    && NoLater(lastL, Some(f.landmarksRecvTsNs))
    && (lastW.None? || lastL.None? || lastW.value < f.wristRecvTsNs || lastL.value < f.landmarksRecvTsNs)
  }

  /** Frame g comes after frame f: no component goes back and at least one moves on. */
  predicate FrameFollows(f: HandFrame, g: HandFrame) {
    FrameAfter(Some(f.wristRecvTsNs), Some(f.landmarksRecvTsNs), g)
  }

  /** Every frame comes after the emitted timestamps `lastW` and `lastL`. */
  predicate AllAfter(lastW: Option<int>, lastL: Option<int>, frames: seq<HandFrame>) {
    forall i :: 0 <= i < |frames| ==> FrameAfter(lastW, lastL, frames[i])
  }

  /** Each frame comes after every earlier one. */
  predicate InOrder(frames: seq<HandFrame>) {
    forall i, j :: 0 <= i < j < |frames| ==> FrameFollows(frames[i], frames[j])
  }

  /** Sequence numbers count up by one from `start`. */
  predicate Numbered(frames: seq<HandFrame>, start: int) {
    forall i :: 0 <= i < |frames| ==> frames[i].sequenceId == start + i
  }

  /** Every frame carries `frameId`. */
  predicate Tagged(frames: seq<HandFrame>, frameId: string) {
    forall i :: 0 <= i < |frames| ==> frames[i].frameId == frameId
  }

  /** What a run from side state v promises about the frames it emits. */
  predicate RunFrames(v: SideView, frames: seq<HandFrame>, frameId: string) {
    AllAfter(v.lastEmittedWristRecvTsNs, v.lastEmittedLandmarksRecvTsNs, frames)
    && InOrder(frames) && Numbered(frames, v.nextSequenceId) && Tagged(frames, frameId)
  }

  /**
   * Over any run from a reachable state: sequence numbers are consecutive
   * from the state's counter, each component's timestamp never goes back
   * from one frame to a later one and at least one of them moves on, so no
   * two frames of a side carry the same pair of component timestamps.
   */
  lemma {:induction false} RunSideRule(v: SideView, pushes: seq<Push>, frameId: string)
    requires SideInv(v)
    ensures var r := RunSide(v, pushes, frameId);
      SideInv(r.0) && r.0.nextSequenceId == v.nextSequenceId + |r.1| && RunFrames(v, r.1, frameId)
    decreases |pushes|
  {
    if pushes != [] {
      var q := pushes[0];
      var step := PushSide(v, q.packet, q.recvTsNs, frameId, q.recvTimeUnixNs, q.sourceTsNs);
      PushSideRule(v, q.packet, q.recvTsNs, frameId, q.recvTimeUnixNs, q.sourceTsNs);
      var w := step.0;
      RunSideRule(w, pushes[1..], frameId);
      var rest := RunSide(w, pushes[1..], frameId);
      if step.1.Some? {
        var f := step.1.value;
        assert RunSide(v, pushes, frameId) == (rest.0, [f] + rest.1);
        assert FrameAfter(v.lastEmittedWristRecvTsNs, v.lastEmittedLandmarksRecvTsNs, f) by {
          var s := StoreComponent(v, q.packet, q.recvTsNs).value;
          assert Advanced(s);
        }
        RunFramesCons(v, w, f, rest.1, frameId);
      } else {
        assert [] + rest.1 == rest.1;
        assert RunSide(v, pushes, frameId) == rest;
        assert w.lastEmittedWristRecvTsNs == v.lastEmittedWristRecvTsNs
            && w.lastEmittedLandmarksRecvTsNs == v.lastEmittedLandmarksRecvTsNs;
      }
    }
  }

  /** A frame emitted from v, followed by what a run from the resulting state w emits. */
  lemma RunFramesCons(v: SideView, w: SideView, f: HandFrame, rest: seq<HandFrame>, frameId: string)
    requires FrameAfter(v.lastEmittedWristRecvTsNs, v.lastEmittedLandmarksRecvTsNs, f)
    requires f.sequenceId == v.nextSequenceId && w.nextSequenceId == v.nextSequenceId + 1 && f.frameId == frameId
    requires w.lastEmittedWristRecvTsNs == Some(f.wristRecvTsNs)
    requires w.lastEmittedLandmarksRecvTsNs == Some(f.landmarksRecvTsNs)
    requires RunFrames(w, rest, frameId)
    ensures RunFrames(v, [f] + rest, frameId)
  {
    var frames := [f] + rest;
    forall i | 0 <= i < |rest|
      ensures FrameAfter(v.lastEmittedWristRecvTsNs, v.lastEmittedLandmarksRecvTsNs, rest[i])
    {
      assert FrameFollows(f, rest[i]);
    }
    forall i, j | 0 <= i < j < |frames| ensures FrameFollows(frames[i], frames[j]) {
      if i == 0 {
        assert frames[j] == rest[j - 1];
      } else {
        assert frames[i] == rest[i - 1] && frames[j] == rest[j - 1];
      }
    }
    forall i | 0 <= i < |frames|
      ensures frames[i].sequenceId == v.nextSequenceId + i
      ensures FrameAfter(v.lastEmittedWristRecvTsNs, v.lastEmittedLandmarksRecvTsNs, frames[i])
      ensures frames[i].frameId == frameId
    {
      if i > 0 {
        assert frames[i] == rest[i - 1];
      }
    }
  }

  // ------------------------------------------------------- both sides

  /** The assembler's two side states, as a value. */
  datatype AssemblerView = AssemblerView(left: SideView, right: SideView) {
    function Side(side: HandSide): SideView {
      if side == Left then left else right
    }

    function WithSide(side: HandSide, v: SideView): (r: AssemblerView)
      ensures r.Side(side) == v
      ensures forall other :: other != side ==> r.Side(other) == Side(other)
    {
      if side == Left then this.(left := v) else this.(right := v)
    }
  }

  const InitialAssembler: AssemblerView := AssemblerView(InitialSide, InitialSide)

  /** The identifiers that frames carry unless the caller overrides one. */
  const DefaultFrameIds: map<HandSide, string> := map[Left := "hts_left_hand", Right := "hts_right_hand"]

  /** One push routed to the state of the packet's side. */
  function PushAssembler(a: AssemblerView, q: Push, frameIds: map<HandSide, string>): (r: (AssemblerView, Option<HandFrame>))
    requires Left in frameIds && Right in frameIds
  {
    var side := q.packet.side;
    var step := PushSide(a.Side(side), q.packet, q.recvTsNs, frameIds[side], q.recvTimeUnixNs, q.sourceTsNs);
    (a.WithSide(side, step.0), step.1)
  }

  /** A sequence of pushes on the assembler: the final state and the frames in order. */
  function RunAssembler(a: AssemblerView, pushes: seq<Push>, frameIds: map<HandSide, string>): (AssemblerView, seq<HandFrame>)
    requires Left in frameIds && Right in frameIds
    decreases |pushes|
  {
    if pushes == [] then (a, [])
    else
      var step := PushAssembler(a, pushes[0], frameIds);
      var rest := RunAssembler(step.0, pushes[1..], frameIds);
      (rest.0, (if step.1.Some? then [step.1.value] else []) + rest.1)
  }

  /** The pushes whose packet belongs to `side`, in order. */
  function PushesOn(pushes: seq<Push>, side: HandSide): seq<Push> {
    if pushes == [] then []
    else (if pushes[0].packet.side == side then [pushes[0]] else []) + PushesOn(pushes[1..], side)
  }

  /** The frames of `side`, in order. */
  function FramesOn(frames: seq<HandFrame>, side: HandSide): seq<HandFrame> {
    if frames == [] then []
    else (if frames[0].side == side then [frames[0]] else []) + FramesOn(frames[1..], side)
  }

  lemma {:induction false} FramesOnConcat(a: seq<HandFrame>, b: seq<HandFrame>, side: HandSide)
    ensures FramesOn(a + b, side) == FramesOn(a, side) + FramesOn(b, side)
  {
    if a == [] {
      assert a + b == b;
    } else {
      var first: seq<HandFrame> := if a[0].side == side then [a[0]] else [];
      assert (a + b)[0] == a[0];
      assert (a + b)[1..] == a[1..] + b;
      FramesOnConcat(a[1..], b, side);
      assert FramesOn(a + b, side) == first + (FramesOn(a[1..], side) + FramesOn(b, side));
      assert first + (FramesOn(a[1..], side) + FramesOn(b, side)) == first + FramesOn(a[1..], side) + FramesOn(b, side);
    }
  }

  /**
   * The two sides do not interact: the frames a run emits for one side, and
   * that side's final state, are those of the side's own pushes run alone.
   */
  lemma {:induction false} SidesIndependent(a: AssemblerView, pushes: seq<Push>, frameIds: map<HandSide, string>, side: HandSide)
    requires Left in frameIds && Right in frameIds
    ensures var r := RunAssembler(a, pushes, frameIds);
      var s := RunSide(a.Side(side), PushesOn(pushes, side), frameIds[side]);
      r.0.Side(side) == s.0 && FramesOn(r.1, side) == s.1
    decreases |pushes|
  {
    if pushes != [] {
      var q := pushes[0];
      var step := PushAssembler(a, q, frameIds);
      SidesIndependent(step.0, pushes[1..], frameIds, side);
      var rest := RunAssembler(step.0, pushes[1..], frameIds);
      var emitted := if step.1.Some? then [step.1.value] else [];
      FramesOnConcat(emitted, rest.1, side);
      if q.packet.side == side {
        assert PushesOn(pushes, side) == [q] + PushesOn(pushes[1..], side);
        assert FramesOn(emitted, side) == emitted by {
          if step.1.Some? {
            assert emitted[1..] == [];
          }
        }
      } else {
        assert PushesOn(pushes, side) == PushesOn(pushes[1..], side);
        assert step.0.Side(side) == a.Side(side);
        assert FramesOn(emitted, side) == [] by {
          if step.1.Some? {
            assert emitted[1..] == [];
          }
        }
      }
    }
  }

  /** `_resolve_timestamps`, with the two clocks' readings passed in. */
  function ResolveTimestamps(includeWallTime: bool, recvTsNs: Option<int>, recvTimeUnixNs: Option<int>,
                             monotonicNow: int, wallNow: int): (r: (int, Option<int>))
    ensures recvTsNs.Some? ==> r.0 == recvTsNs.value
    ensures recvTsNs.None? ==> r.0 == monotonicNow
    ensures recvTimeUnixNs.Some? ==> r.1 == recvTimeUnixNs
    ensures recvTimeUnixNs.None? ==> r.1 == (if includeWallTime then Some(wallNow) else None)
  {
    var ts := if recvTsNs.None? then monotonicNow else recvTsNs.value;
    if recvTimeUnixNs.Some? then (ts, recvTimeUnixNs)
    else if includeWallTime then (ts, Some(wallNow))
    else (ts, None)
  }

  // ---------------------------------------------------------- the classes

  /** `_SideAssemblyState`: the mutable state of one side. */
  class SideAssemblyState {
    var wrist: Option<WristPose>
    var wristRecvTsNs: Option<int>
    var landmarks: Option<HandLandmarks>
    var landmarksRecvTsNs: Option<int>
    var lastEmittedWristRecvTsNs: Option<int>
    var lastEmittedLandmarksRecvTsNs: Option<int>
    var nextSequenceId: int

    function View(): SideView
      reads this
    {
      SideView(wrist, wristRecvTsNs, landmarks, landmarksRecvTsNs,
               lastEmittedWristRecvTsNs, lastEmittedLandmarksRecvTsNs, nextSequenceId)
    }

    constructor ()
      ensures View() == InitialSide
    {
      wrist, wristRecvTsNs, landmarks, landmarksRecvTsNs := None, None, None, None;
      lastEmittedWristRecvTsNs, lastEmittedLandmarksRecvTsNs := None, None;
      nextSequenceId := 0;
    }

    /** The stale check and the store of `push_packet` on this side. */
    method Store(packet: ParsedPacket, ts: int) returns (stored: bool)
      modifies this
      ensures stored <==> !IsStale(old(View()), packet, ts)
      ensures stored ==> View() == StoreComponent(old(View()), packet, ts).value
      ensures !stored ==> View() == old(View())
    {
      match packet {
        case WristPacket(_, _, pose) =>
          if wristRecvTsNs.Some? && ts < wristRecvTsNs.value {
            return false;
          }
          wrist := Some(pose);
          wristRecvTsNs := Some(ts);
        case LandmarksPacket(_, _, l) =>
          if landmarksRecvTsNs.Some? && ts < landmarksRecvTsNs.value {
            return false;
          }
          landmarks := Some(l);
          landmarksRecvTsNs := Some(ts);
      }
      return true;
    }
  }

  /** `HandFrameAssembler`. */
  class HandFrameAssembler {
    const includeWallTime: bool
    const frameIdBySide: map<HandSide, string>
    var left: SideAssemblyState
    var right: SideAssemblyState

    /** The two sides have separate state objects, each in a reachable state. */
    ghost predicate Valid()
      reads this, left, right
    {
      left != right
      && SideInv(left.View()) && SideInv(right.View())
      && Left in frameIdBySide && Right in frameIdBySide
    }

    function State(side: HandSide): SideAssemblyState
      reads this
    {
      if side == Left then left else right
    }

    function View(): AssemblerView
      reads this, left, right
    {
      AssemblerView(left.View(), right.View())
    }

    /** The default identifiers, with the caller's overrides applied on top. */
    constructor (includeWallTime: bool, frameIdBySide: Option<map<HandSide, string>>)
      ensures Valid() && View() == InitialAssembler
      ensures this.includeWallTime == includeWallTime
      ensures this.frameIdBySide == DefaultFrameIds + (if frameIdBySide.Some? then frameIdBySide.value else map[])
      ensures fresh(left) && fresh(right)
    {
      this.includeWallTime := includeWallTime;
      this.frameIdBySide := DefaultFrameIds + (if frameIdBySide.Some? then frameIdBySide.value else map[]);
      left := new SideAssemblyState();
      right := new SideAssemblyState();
    }

    /** `reset`: both sides, or only the given one, start afresh. */
    method Reset(side: Option<HandSide>)
      requires Valid()
      modifies this
      ensures Valid()
      ensures side.None? ==> View() == InitialAssembler && fresh(left) && fresh(right)
      ensures side.Some? ==> View() == old(View()).WithSide(side.value, InitialSide)
      ensures side.Some? ==> fresh(State(side.value))
      ensures side == Some(Left) ==> right == old(right)
      ensures side == Some(Right) ==> left == old(left)
    {
      if side.None? {
        left := new SideAssemblyState();
        right := new SideAssemblyState();
        return;
      }
      var state := new SideAssemblyState();
      if side.value == Left {
        left := state;
      } else {
        right := state;
      }
    }

    /** `_maybe_emit_frame` on the state object of `side`. */
    method MaybeEmitFrame(side: HandSide, recvTimeUnixNs: Option<int>, sourceTsNs: Option<int>)
      returns (frame: Option<HandFrame>)
      requires Left in frameIdBySide && Right in frameIdBySide
      modifies State(side)
      ensures (State(side).View(), frame)
        == EmitFrame(old(State(side).View()), side, frameIdBySide[side], recvTimeUnixNs, sourceTsNs)
    {
      var s := State(side);
      if s.wrist.None? || s.wristRecvTsNs.None? || s.landmarks.None? || s.landmarksRecvTsNs.None? {
        return None;
      }
      var hasNewWrist := s.lastEmittedWristRecvTsNs != s.wristRecvTsNs;
      var hasNewLandmarks := s.lastEmittedLandmarksRecvTsNs != s.landmarksRecvTsNs;
      if !hasNewWrist && !hasNewLandmarks {
        return None;
      }
      var sequenceId := s.nextSequenceId;
      s.nextSequenceId := s.nextSequenceId + 1;
      s.lastEmittedWristRecvTsNs := s.wristRecvTsNs;
      s.lastEmittedLandmarksRecvTsNs := s.landmarksRecvTsNs;
      var w, l := s.wristRecvTsNs.value, s.landmarksRecvTsNs.value;
      frame := Some(HandFrame(side, frameIdBySide[side], s.wrist.value, s.landmarks.value, sequenceId,
                              if w >= l then w else l, recvTimeUnixNs, sourceTsNs, w, l));
    }

    /**
     * `push_packet`, with the readings of the monotonic and the wall clock
     * passed in; they are used only where the caller gave no timestamp.
     */
    method PushPacket(packet: ParsedPacket, recvTsNs: Option<int>, recvTimeUnixNs: Option<int>,
                      sourceTsNs: Option<int>, monotonicNow: int, wallNow: int)
      returns (frame: Option<HandFrame>)
      requires Valid()
      modifies State(packet.side)
      ensures Valid()
      ensures var (ts, unix) := ResolveTimestamps(includeWallTime, recvTsNs, recvTimeUnixNs, monotonicNow, wallNow);
        (View(), frame) == PushAssembler(old(View()), Push(packet, ts, unix, sourceTsNs), frameIdBySide)
    {
      var resolved := ResolveTimestamps(includeWallTime, recvTsNs, recvTimeUnixNs, monotonicNow, wallNow);
      var ts, unix := resolved.0, resolved.1;
      ghost var before := View();
      var side := packet.side;
      PushSideRule(before.Side(side), packet, ts, frameIdBySide[side], unix, sourceTsNs);
      var s := State(side);
      var stored := s.Store(packet, ts);
      if !stored {
        assert View() == before;
        return None;
      }
      frame := MaybeEmitFrame(side, unix, sourceTsNs);
      assert View() == before.WithSide(side, s.View());
    }

    /** `push_line`: a line that does not parse raises and changes nothing. */
    method PushLine(line: string, recvTsNs: Option<int>, recvTimeUnixNs: Option<int>,
                    sourceTsNs: Option<int>, monotonicNow: int, wallNow: int)
      returns (r: Result<Option<HandFrame>, ParseError>)
      requires Valid()
      modifies left, right
      ensures Valid()
      ensures ParseLine(line).Err? ==> r == Err(ParseLine(line).error) && View() == old(View())
      ensures ParseLine(line).Ok? ==>
        var (ts, unix) := ResolveTimestamps(includeWallTime, recvTsNs, recvTimeUnixNs, monotonicNow, wallNow);
        var step := PushAssembler(old(View()), Push(ParseLine(line).value, ts, unix, sourceTsNs), frameIdBySide);
        View() == step.0 && r == Ok(step.1)
    {
      var parsed := ParseLine(line);
      if parsed.Err? {
        return Err(parsed.error);
      }
      var frame := PushPacket(parsed.value, recvTsNs, recvTimeUnixNs, sourceTsNs, monotonicNow, wallNow);
      return Ok(frame);
    }
  }
}
