/**
 * Typed packet models of the HTS telemetry: hand sides, packet kinds, the
 * wrist pose, the landmark set, the two packet variants, and the dictionary
 * form (`to_dict` / `from_dict`) of the pose and the landmarks.
 */
module Models {
  import opened Wrappers
  import Text

  // ------------------------------------------------------------ enumerations

  datatype HandSide = Left | Right

  /** The string value of a side. */
  function SideName(side: HandSide): string {
    match side
    case Left => "Left"
    case Right => "Right"
  }

  /** `HandSide(name)`: the side whose value is exactly `name` (case-sensitive). */
  function SideFromName(name: string): (r: Option<HandSide>)
    ensures r.Some? <==> name == "Left" || name == "Right"
    ensures r.Some? ==> SideName(r.value) == name
  {
    if name == "Left" then Some(Left)
    else if name == "Right" then Some(Right)
    else None
  }

  /** A side converted to its string and back is the same side. */
  lemma SideNameRoundTrip(side: HandSide)
    ensures SideFromName(SideName(side)) == Some(side)
  {
  }

  datatype PacketType = Wrist | Landmarks

  /** The string value of a packet kind. */
  function KindName(kind: PacketType): (r: string)
    ensures r == "wrist" || r == "landmarks"
  {
    match kind
    case Wrist => "wrist"
    case Landmarks => "landmarks"
  }

  // ------------------------------------------------------------ payloads

  /** Cartesian wrist position and orientation quaternion; nothing is normalised. */
  datatype WristPose = WristPose(x: real, y: real, z: real, qx: real, qy: real, qz: real, qw: real)

  type Point = (real, real, real)

  /**
   * Ordered landmark points. The type does not fix their number: the parser
   * builds 21, other code may build any number.
   */
  datatype HandLandmarks = HandLandmarks(points: seq<Point>)

  /**
   * A parsed packet. `kind` is a stored field, as in the source, so a packet
   * whose kind disagrees with its variant can be built; the parser never does.
   */
  datatype ParsedPacket =
    | WristPacket(side: HandSide, kind: PacketType, wrist: WristPose)
    | LandmarksPacket(side: HandSide, kind: PacketType, landmarks: HandLandmarks)

  /** The stored kind names the variant. */
  predicate KindAgrees(p: ParsedPacket) {
    match p
    case WristPacket(_, kind, _) => kind == Wrist
    case LandmarksPacket(_, kind, _) => kind == Landmarks
  }

  // ------------------------------------------------- dictionary form

  /** The JSON-like values that serialised dictionaries hold. */
  datatype Value =
    | Null
    | Int(i: int)
    | Float(r: real)
    | Str(s: string)
    | List(items: seq<Value>)
    | Dict(entries: map<string, Value>)

  /** The exception a `from_dict` raises, by kind. */
  datatype DecodeError =
    | MissingKey(key: string)     // KeyError
    | MissingIndex(index: nat)    // IndexError, or KeyError for an integer key
    | NotAMapping                 // TypeError: indexed by a string key
    | NotSubscriptable            // TypeError: indexed by an integer
    | NotIterable                 // TypeError: iterated over
    | UnorderedKeys               // iteration over a dictionary of several keys, whose order is not recorded
    | NotANumber                  // TypeError or ValueError from float() / int()
    | NotAString                  // str() of a non-string value
    | UnsupportedSide(name: string)  // ValueError from HandSide(...)

  /** `values[key]` on a mapping. */
  function Get(m: map<string, Value>, key: string): (r: Result<Value, DecodeError>)
    ensures r.Ok? <==> key in m
    ensures r.Ok? ==> r.value == m[key]
  {
    if key in m then Ok(m[key]) else Err(MissingKey(key))
  }

  /** A value used where a mapping is expected. */
  function AsMapping(v: Value): Result<map<string, Value>, DecodeError> {
    if v.Dict? then Ok(v.entries) else Err(NotAMapping)
  }

  /**
   * `float(v)`: a float as it is, an integer converted, a string read as a
   * decimal literal after stripping its surrounding whitespace.
   */
  function AsFloat(v: Value): (r: Result<real, DecodeError>)
    ensures v.Float? ==> r == Ok(v.r)
    ensures v.Int? ==> r == Ok(v.i as real)
    ensures v.Str? ==> (r.Ok? <==> Text.DecimalLiteral(Text.Strip(v.s)))
    ensures (v.Null? || v.List? || v.Dict?) ==> r == Err(NotANumber)
    ensures r.Err? ==> r.error == NotANumber
  {
    match v
    case Float(r) => Ok(r)
    case Int(i) => Ok(i as real)
    case Str(s) =>
      var parsed := Text.ParseFloat(Text.Strip(s));
      Text.ParseFloatAccepts(Text.Strip(s));
      if parsed.Some? then Ok(parsed.value) else Err(NotANumber)
    case _ => Err(NotANumber)
  }

  /**
   * `int(v)`: an integer as it is, a float truncated toward zero, a string read
   * as an integer literal after stripping its surrounding whitespace.
   */
  function AsInt(v: Value): (r: Result<int, DecodeError>)
    ensures v.Int? ==> r == Ok(v.i)
    ensures v.Float? && v.r >= 0.0 ==> r.Ok? && 0 <= r.value && r.value as real <= v.r < r.value as real + 1.0
    ensures v.Float? && v.r < 0.0 ==> r.Ok? && r.value <= 0 && r.value as real - 1.0 < v.r <= r.value as real
    ensures v.Str? ==> (r.Ok? <==> Text.IntLiteral(Text.Strip(v.s)))
    ensures (v.Null? || v.List? || v.Dict?) ==> r == Err(NotANumber)
    ensures r.Err? ==> r.error == NotANumber
  {
    match v
    case Int(i) => Ok(i)
    case Float(r) => Ok(if r >= 0.0 then r.Floor else -((-r).Floor))
    case Str(s) =>
      var parsed := Text.ParseInt(Text.Strip(s));
      Text.ParseIntAccepts(Text.Strip(s));
      if parsed.Some? then Ok(parsed.value) else Err(NotANumber)
    case _ => Err(NotANumber)
  }

  /** `str(v)`, for the values whose rendering is the value itself. */
  function AsText(v: Value): Result<string, DecodeError> {
    if v.Str? then Ok(v.s) else Err(NotAString)
  }

  /**
   * `v[k]` for an integer index: a list's item, a string's character. A
   * dictionary's keys here are strings, so an integer key is never found.
   */
  function Index(v: Value, k: nat): (r: Result<Value, DecodeError>)
    ensures r.Ok? <==> (v.List? && k < |v.items|) || (v.Str? && k < |v.s|)
    ensures v.List? && k < |v.items| ==> r.value == v.items[k]
    ensures v.Str? && k < |v.s| ==> r.value == Str([v.s[k]])
    ensures (v.List? || v.Str? || v.Dict?) && r.Err? ==> r.error == MissingIndex(k)
    ensures (v.Null? || v.Int? || v.Float?) ==> r == Err(NotSubscriptable)
  {
    match v
    case List(items) => if k < |items| then Ok(items[k]) else Err(MissingIndex(k))
    case Str(s) => if k < |s| then Ok(Str([s[k]])) else Err(MissingIndex(k))
    case Dict(_) => Err(MissingIndex(k))
    case _ => Err(NotSubscriptable)
  }

  /**
   * The elements met when iterating over v: a list's items, a string's
   * characters one by one, a dictionary's keys. The dictionaries here do not
   * record insertion order, so the iteration is known only for a dictionary of
   * at most one key; one with more keys is refused (UnorderedKeys).
   */
  function Elements(v: Value): (r: Result<seq<Value>, DecodeError>)
    ensures v.List? ==> r == Ok(v.items)
    ensures v.Str? ==>
      r.Ok? && |r.value| == |v.s| && forall k :: 0 <= k < |v.s| ==> r.value[k] == Str([v.s[k]])
    ensures v.Dict? && |v.entries| <= 1 ==>
      r.Ok? && |r.value| == |v.entries| && forall e :: e in r.value ==> e.Str? && e.s in v.entries
    ensures v.Dict? && |v.entries| > 1 ==> r == Err(UnorderedKeys)
    ensures (v.Null? || v.Int? || v.Float?) ==> r == Err(NotIterable)
  {
    match v
    case List(items) => Ok(items)
    case Str(s) => Ok(seq(|s|, k requires 0 <= k < |s| => Str([s[k]])))
    case Dict(entries) =>
      if |entries| == 0 then Ok([])
      else if |entries| == 1 then Ok([Str(OnlyKey(entries))])
      else Err(UnorderedKeys)
    case _ => Err(NotIterable)
  }

  /** The one key of a single-entry dictionary. */
  function OnlyKey(m: map<string, Value>): (key: string)
    requires |m| == 1
    ensures key in m
  {
    var keys := m.Keys;
    assert forall a, b :: a in keys && b in keys ==> a == b by {
      forall a, b | a in keys && b in keys ensures a == b {
        assert |keys - {a}| == |keys| - |{a}| == 0;
      }
    }
    var key :| key in keys;
    key
  }

  // --------------------------------------------------- WristPose <-> dict

  const WristPoseKeys: set<string> := {"x", "y", "z", "qx", "qy", "qz", "qw"}

  /** `WristPose.to_dict`. */
  function WristPoseToDict(p: WristPose): (m: map<string, Value>)
    ensures m.Keys == WristPoseKeys
  {
    map["x" := Float(p.x), "y" := Float(p.y), "z" := Float(p.z),
        "qx" := Float(p.qx), "qy" := Float(p.qy), "qz" := Float(p.qz), "qw" := Float(p.qw)]
  }

  /** `float(values[key])`. */
  function FloatField(m: map<string, Value>, key: string): Result<real, DecodeError> {
    var v :- Get(m, key);
    AsFloat(v)
  }

  /** `WristPose.from_dict`: reads the seven keys in order; other keys are ignored. */
  function WristPoseFromDict(m: map<string, Value>): (r: Result<WristPose, DecodeError>)
    ensures r.Ok? ==> WristPoseKeys <= m.Keys
  {
    var x :- FloatField(m, "x");
    var y :- FloatField(m, "y");
    var z :- FloatField(m, "z");
    var qx :- FloatField(m, "qx");
    var qy :- FloatField(m, "qy");
    var qz :- FloatField(m, "qz");
    var qw :- FloatField(m, "qw");
    Ok(WristPose(x, y, z, qx, qy, qz, qw))
  }

  /** A float stored under `key` is read back as itself. */
  lemma FloatFieldOf(m: map<string, Value>, key: string, r: real)
    requires key in m && m[key] == Float(r)
    ensures FloatField(m, key) == Ok(r)
  {
  }

  /** from_dict inverts to_dict on every pose. */
  lemma WristPoseRoundTrip(p: WristPose)
    ensures WristPoseFromDict(WristPoseToDict(p)) == Ok(p)
  {
    var m := WristPoseToDict(p);
    FloatFieldOf(m, "x", p.x);
    FloatFieldOf(m, "y", p.y);
    FloatFieldOf(m, "z", p.z);
    FloatFieldOf(m, "qx", p.qx);
    FloatFieldOf(m, "qy", p.qy);
    FloatFieldOf(m, "qz", p.qz);
    FloatFieldOf(m, "qw", p.qw);
  }

  // ----------------------------------------------- HandLandmarks <-> dict

  /** `[x, y, z]` for one point. */
  function PointToValue(pt: Point): Value {
    List([Float(pt.0), Float(pt.1), Float(pt.2)])
  }

  /** `[[x, y, z] for x, y, z in points]`. */
  function PointsToValues(points: seq<Point>): (r: seq<Value>)
    ensures |r| == |points|
    ensures forall k :: 0 <= k < |points| ==> r[k] == PointToValue(points[k])
  {
    seq(|points|, k requires 0 <= k < |points| => PointToValue(points[k]))
  }

  /** `HandLandmarks.to_dict`. */
  function LandmarksToDict(l: HandLandmarks): (m: map<string, Value>)
    ensures m.Keys == {"points"}
    ensures m["points"].List? && |m["points"].items| == |l.points|
  {
    map["points" := List(PointsToValues(l.points))]
  }

  /** `(float(point[0]), float(point[1]), float(point[2]))`; elements past the third are ignored. */
  function PointFromValue(v: Value): Result<Point, DecodeError> {
    var e0 :- Index(v, 0);
    var x :- AsFloat(e0);
    var e1 :- Index(v, 1);
    var y :- AsFloat(e1);
    var e2 :- Index(v, 2);
    var z :- AsFloat(e2);
    Ok((x, y, z))
  }

  /** The points of a list, converted in order; the first failure is the result. */
  function PointsFromValues(vs: seq<Value>): (r: Result<seq<Point>, DecodeError>)
    ensures r.Ok? ==> |r.value| == |vs|
  {
    if vs == [] then Ok([])
    else
      var first :- PointFromValue(vs[0]);
      var rest :- PointsFromValues(vs[1..]);
      Ok([first] + rest)
  }

  /** `HandLandmarks.from_dict`: the points in their order, however many there are. */
  function LandmarksFromDict(m: map<string, Value>): (r: Result<HandLandmarks, DecodeError>)
    ensures r.Ok? ==> "points" in m
  {
    var raw :- Get(m, "points");
    var items :- Elements(raw);
    var points :- PointsFromValues(items);
    Ok(HandLandmarks(points))
  }

  /** Decoding the serialised points gives back the points. */
  lemma {:induction false} PointsRoundTrip(points: seq<Point>)
    ensures PointsFromValues(PointsToValues(points)) == Ok(points)
  {
    if points != [] {
      var vs := PointsToValues(points);
      assert vs[1..] == PointsToValues(points[1..]);
      PointsRoundTrip(points[1..]);
      assert [points[0]] + points[1..] == points;
    }
  }

  /** from_dict inverts to_dict on every landmark set, whatever its length. */
  lemma LandmarksRoundTrip(l: HandLandmarks)
    ensures LandmarksFromDict(LandmarksToDict(l)) == Ok(l)
  {
    PointsRoundTrip(l.points);
  }

  /** A one-digit string converts to that digit's value. */
  lemma DigitAsFloat(c: char)
    requires Text.IsDigit(c)
    ensures AsFloat(Str([c])) == Ok((c as int - '0' as int) as real)
  {
    Text.StripSurrounded([], [c], []);
    assert [] + [c] + [] == [c];
    Text.ParseFloatDigits([c]);
    assert [c][..0] == [];
  }

  /** A string of three digits converts, as a point, to those digits' values. */
  lemma DigitsPoint(a: char, b: char, c: char)
    requires Text.IsDigit(a) && Text.IsDigit(b) && Text.IsDigit(c)
    ensures PointFromValue(Str([a, b, c]))
      == Ok(((a as int - '0' as int) as real, (b as int - '0' as int) as real, (c as int - '0' as int) as real))
  {
    DigitAsFloat(a);
    DigitAsFloat(b);
    DigitAsFloat(c);
  }

  /**
   * "points" holding a dictionary is iterated by key: an empty one gives no
   * points, and a key such as "123" is read as the point (1, 2, 3).
   */
  lemma LandmarksFromDictKeys()
    ensures LandmarksFromDict(map["points" := Dict(map[])]) == Ok(HandLandmarks([]))
    ensures LandmarksFromDict(map["points" := Dict(map["123" := Int(0)])]) == Ok(HandLandmarks([(1.0, 2.0, 3.0)]))
  {
    var one := map["123" := Int(0)];
    assert OnlyKey(one) == "123";
    DigitsPoint('1', '2', '3');
    assert "123" == ['1', '2', '3'];
    assert PointFromValue(Str("123")) == Ok((1.0, 2.0, 3.0));
    assert [Str("123")][1..] == [];
    assert PointsFromValues([]) == Ok([]);
    var pts: seq<Point> := [(1.0, 2.0, 3.0)];
    assert [pts[0]] + [] == pts;
    assert PointsFromValues([Str("123")]) == Ok([(1.0, 2.0, 3.0)]);
  }
}
