/**
 * The HTS line parser: one text line such as "Right wrist:, 0.1, 0.2, ..." or
 * "Left landmarks:, v0, ..., v62" becomes a typed packet or a parse error.
 */
module Parser {
  import opened Wrappers
  import opened Text
  import opened Constants
  import opened Models

  /** The failure modes of `parse_line`, one per message the source raises. */
  datatype ParseError =
    | EmptyLine
    | MissingSeparator
    | InvalidLabel(text: string)
    | UnsupportedHandSide(side: string)
    | UnsupportedPacketType(kind: string)
    | NonFloatValues
    | WrongValueCount(expected: PacketType, count: nat)

  /** Number of payload values a packet kind carries. */
  function ValueCount(kind: PacketType): nat {
    match kind
    case Wrist => WristValueCount
    case Landmarks => LandmarkValueCount
  }

  // ------------------------------------------------------------- payload

  /** `[chunk.strip() for chunk in pieces if chunk.strip()]`. */
  function Chunks(pieces: seq<string>): (r: seq<string>)
    ensures forall k :: 0 <= k < |r| ==> r[k] != [] && Trimmed(r[k])
  {
    if pieces == [] then []
    else
      var chunk := Strip(pieces[0]);
      (if chunk == [] then [] else [chunk]) + Chunks(pieces[1..])
  }

  /** The payload's value tokens: split on ',', each stripped, the empty ones dropped. */
  function PayloadChunks(payload: string): seq<string> {
    Chunks(Split(payload, ','))
  }

  /** Tokens that are all decimal numbers. */
  predicate NumberTokens(tokens: seq<string>) {
    forall k :: 0 <= k < |tokens| ==> ParseFloat(tokens[k]).Some?
  }

  /** The values of number tokens. */
  function TokenValues(tokens: seq<string>): (r: seq<real>)
    requires NumberTokens(tokens)
    ensures |r| == |tokens|
    ensures forall k :: 0 <= k < |tokens| ==> ParseFloat(tokens[k]) == Some(r[k])
  {
    seq(|tokens|, k requires 0 <= k < |tokens| => ParseFloat(tokens[k]).value)
  }

  /** `[float(value) for value in chunks]`, or None when one of them is not a number. */
  function ParseAll(chunks: seq<string>): Option<seq<real>> {
    if chunks == [] then Some([])
    else
      var first := ParseFloat(chunks[0]);
      var rest := ParseAll(chunks[1..]);
      if first.Some? && rest.Some? then Some([first.value] + rest.value) else None
  }

  /** ParseAll succeeds exactly on number tokens, and then gives each token's value in order. */
  lemma {:induction false} ParseAllMeaning(chunks: seq<string>)
    ensures ParseAll(chunks).Some? <==> NumberTokens(chunks)
    ensures ParseAll(chunks).Some? ==> ParseAll(chunks).value == TokenValues(chunks)
  {
    if chunks != [] {
      var rest := chunks[1..];
      ParseAllMeaning(rest);
      assert forall k :: 0 <= k < |rest| ==> rest[k] == chunks[k + 1];
      if ParseAll(chunks).Some? {
        var values := ParseAll(chunks).value;
        assert values == [ParseFloat(chunks[0]).value] + TokenValues(rest);
        assert NumberTokens(chunks) by {
          forall k | 0 <= k < |chunks| ensures ParseFloat(chunks[k]).Some? {
            if k > 0 {
              assert chunks[k] == rest[k - 1];
            }
          }
        }
        assert values == TokenValues(chunks) by {
          forall k | 0 <= k < |chunks| ensures values[k] == TokenValues(chunks)[k] {
            if k > 0 {
              assert chunks[k] == rest[k - 1];
            }
          }
        }
      } else if ParseFloat(chunks[0]).Some? {
        var k :| 0 <= k < |rest| && ParseFloat(rest[k]).None?;
        assert rest[k] == chunks[k + 1];
      }
    }
  }

  /** `_parse_floats`: every value token as a number, or one error for the whole payload. */
  function ParseFloats(payload: string): (r: Result<seq<real>, ParseError>)
    ensures r.Err? ==> r.error == NonFloatValues
    ensures r.Ok? <==> ParseAll(PayloadChunks(payload)).Some?
    ensures r.Ok? ==> r.value == ParseAll(PayloadChunks(payload)).value
  {
    var values := ParseAll(PayloadChunks(payload));
    if values.Some? then Ok(values.value) else Err(NonFloatValues)
  }

  // --------------------------------------------------------------- label

  /** `_parse_label`: two whitespace-separated tokens, an exact side and a case-insensitive kind. */
  function ParseLabel(text: string): (r: Result<(HandSide, PacketType), ParseError>)
    ensures |SplitWhitespace(text)| != 2 <==> r == Err(InvalidLabel(text))
    ensures r.Ok? <==>
      |SplitWhitespace(text)| == 2
      && SideFromName(SplitWhitespace(text)[0]).Some?
      && Lower(SplitWhitespace(text)[1]) in {"wrist", "landmarks"}
    ensures r.Ok? ==>
      SideName(r.value.0) == SplitWhitespace(text)[0]
      && KindName(r.value.1) == Lower(SplitWhitespace(text)[1])
    ensures |SplitWhitespace(text)| == 2 && SideFromName(SplitWhitespace(text)[0]).None? ==>
      r == Err(UnsupportedHandSide(SplitWhitespace(text)[0]))
    ensures (|SplitWhitespace(text)| == 2 && SideFromName(SplitWhitespace(text)[0]).Some?
             && Lower(SplitWhitespace(text)[1]) !in {"wrist", "landmarks"}) ==>
      r == Err(UnsupportedPacketType(SplitWhitespace(text)[1]))
  {
    var parts := SplitWhitespace(text);
    if |parts| != 2 then Err(InvalidLabel(text))
    else
      var side := SideFromName(parts[0]);
      if side.None? then Err(UnsupportedHandSide(parts[0]))
      else
        var kind := Lower(parts[1]);
        if kind == "wrist" then Ok((side.value, Wrist))
        else if kind == "landmarks" then Ok((side.value, Landmarks))
        else Err(UnsupportedPacketType(parts[1]))
  }

  // -------------------------------------------------------------- values

  /** The seven numbers of a pose, in wire order x, y, z, qx, qy, qz, qw. */
  function PoseValues(p: WristPose): seq<real> {
    [p.x, p.y, p.z, p.qx, p.qy, p.qz, p.qw]
  }

  /** The coordinates of a point list, point after point. */
  function Flatten(points: seq<Point>): (r: seq<real>)
    ensures |r| == 3 * |points|
  {
    if points == [] then []
    else [points[0].0, points[0].1, points[0].2] + Flatten(points[1..])
  }

  /** The numbers of a packet in the order the wire carries them. */
  function PacketValues(p: ParsedPacket): seq<real> {
    match p
    case WristPacket(_, _, pose) => PoseValues(pose)
    case LandmarksPacket(_, _, l) => Flatten(l.points)
  }

  /** Consecutive triples of the 63 landmark values. */
  function Triples(values: seq<real>): (points: seq<Point>)
    requires |values| == LandmarkValueCount
    ensures |points| == LandmarkCount
    ensures forall i :: 0 <= i < LandmarkCount ==>
      points[i] == (values[3 * i], values[3 * i + 1], values[3 * i + 2])
  {
    seq(LandmarkCount, i requires 0 <= i < LandmarkCount => (values[3 * i], values[3 * i + 1], values[3 * i + 2]))
  }

  /** Points that are consecutive triples of some values flatten back to those values. */
  lemma {:induction false} FlattenTriples(points: seq<Point>, values: seq<real>)
    requires |values| == 3 * |points|
    requires forall i :: 0 <= i < |points| ==> points[i] == (values[3 * i], values[3 * i + 1], values[3 * i + 2])
    ensures Flatten(points) == values
  {
    if points != [] {
      var rest, tail := points[1..], values[3..];
      forall i | 0 <= i < |rest|
        ensures rest[i] == (tail[3 * i], tail[3 * i + 1], tail[3 * i + 2])
      {
        assert rest[i] == points[i + 1];
        assert 3 * (i + 1) == 3 * i + 3;
      }
      FlattenTriples(rest, tail);
      assert values == values[..3] + tail;
    }
  }

  /** Flattening forgets nothing: point i is the i-th triple of the flattened values. */
  lemma {:induction false} FlattenAt(points: seq<Point>, i: nat)
    requires i < |points|
    ensures Flatten(points)[3 * i] == points[i].0
    ensures Flatten(points)[3 * i + 1] == points[i].1
    ensures Flatten(points)[3 * i + 2] == points[i].2
  {
    if i > 0 {
      FlattenAt(points[1..], i - 1);
      assert points[1..][i - 1] == points[i];
    }
  }

  /** `_parse_wrist`: exactly seven values, mapped positionally onto the pose. */
  function ParseWrist(side: HandSide, values: seq<real>): (r: Result<ParsedPacket, ParseError>)
    ensures r.Ok? <==> |values| == WristValueCount
    ensures r.Ok? ==> r.value.WristPacket? && r.value.side == side && KindAgrees(r.value)
    ensures r.Ok? ==> PoseValues(r.value.wrist) == values
    ensures r.Err? ==> r.error == WrongValueCount(Wrist, |values|)
  {
    if |values| != WristValueCount then Err(WrongValueCount(Wrist, |values|))
    else Ok(WristPacket(side, Wrist, WristPose(values[0], values[1], values[2], values[3], values[4], values[5], values[6])))
  }

  /** `_parse_landmarks`: exactly 63 values, grouped into 21 points in order. */
  function ParseLandmarks(side: HandSide, values: seq<real>): (r: Result<ParsedPacket, ParseError>)
    ensures r.Ok? <==> |values| == LandmarkValueCount
    ensures r.Ok? ==> r.value.LandmarksPacket? && r.value.side == side && KindAgrees(r.value)
    ensures r.Ok? ==> |r.value.landmarks.points| == LandmarkCount
    ensures r.Ok? ==> forall i :: 0 <= i < LandmarkCount ==>
      r.value.landmarks.points[i] == (values[3 * i], values[3 * i + 1], values[3 * i + 2])
    ensures r.Ok? ==> Flatten(r.value.landmarks.points) == values
    ensures r.Err? ==> r.error == WrongValueCount(Landmarks, |values|)
  {
    if |values| != LandmarkValueCount then Err(WrongValueCount(Landmarks, |values|))
    else
      var points := Triples(values);
      FlattenTriples(points, values);
      Ok(LandmarksPacket(side, Landmarks, HandLandmarks(points)))
  }

  // ---------------------------------------------------------------- line

  /** The text after the first ':' of the stripped line. */
  function Payload(line: string): string {
    Partition(Strip(line), ':').2
  }

  /** The stripped text before the first ':' of the stripped line. */
  function Label(line: string): string {
    Strip(Partition(Strip(line), ':').0)
  }

  /**
   * `parse_line`. The payload's numbers are checked before the label, so a
   * line with a bad label and a non-numeric token reports the non-number.
   */
  function ParseLine(line: string): (r: Result<ParsedPacket, ParseError>)
    ensures r.Ok? ==> KindAgrees(r.value)
    ensures r.Ok? && r.value.LandmarksPacket? ==> |r.value.landmarks.points| == LandmarkCount
  {
    var stripped := Strip(line);
    if stripped == [] then Err(EmptyLine)
    else
      var (head, sep, tail) := Partition(stripped, ':');
      if !sep then Err(MissingSeparator)
      else ParseParts(Strip(head), tail)
  }

  /** The label and the payload of a line that has a ':'; the numbers are parsed first. */
  function ParseParts(labelText: string, payloadText: string): (r: Result<ParsedPacket, ParseError>)
    ensures r.Ok? ==> KindAgrees(r.value)
    ensures r.Ok? && r.value.LandmarksPacket? ==> |r.value.landmarks.points| == LandmarkCount
    ensures r == Err(NonFloatValues) <==> ParseFloats(payloadText).Err?
    ensures r.Err? ==> !r.error.EmptyLine? && !r.error.MissingSeparator?
  {
    var payload :- ParseFloats(payloadText);
    var sideAndKind :- ParseLabel(labelText);
    if sideAndKind.1 == Wrist then ParseWrist(sideAndKind.0, payload)
    else ParseLandmarks(sideAndKind.0, payload)
  }

  /** Which lines give the three errors that do not depend on the label. */
  lemma ParseLineErrors(line: string)
    ensures ParseLine(line) == Err(EmptyLine) <==> AllSpace(line)
    ensures ParseLine(line) == Err(MissingSeparator) <==> !AllSpace(line) && ':' !in Strip(line)
    ensures ParseLine(line) == Err(NonFloatValues) <==>
      ':' in Strip(line) && ParseFloats(Payload(line)).Err?
  {
    var stripped := Strip(line);
    if stripped != [] {
      var parts := Partition(stripped, ':');
      if parts.1 {
        assert ParseLine(line) == ParseParts(Strip(parts.0), parts.2);
      }
    }
  }

  /** A line with a ':' is parsed from its label and payload. */
  lemma ParseLineSplits(line: string)
    requires ':' in Strip(line)
    ensures ParseLine(line) == ParseParts(Label(line), Payload(line))
  {
  }

  /** A packet is the right size for its variant: a landmarks packet has 21 points. */
  predicate WellSized(p: ParsedPacket) {
    p.LandmarksPacket? ==> |p.landmarks.points| == LandmarkCount
  }

  /**
   * The line grammar: a ':' after the label, a label naming p's side and
   * kind, and a payload whose numbers are exactly p's values in wire order.
   */
  predicate Encodes(line: string, p: ParsedPacket) {
    ':' in Strip(line) && Spells(Label(line), Payload(line), p)
  }

  /** A label naming p's side and kind, and a payload whose numbers are exactly p's values. */
  predicate Spells(labelText: string, payloadText: string, p: ParsedPacket) {
    ParseLabel(labelText) == Ok((p.side, p.kind))
    && KindAgrees(p)
    && WellSized(p)
    && ParseFloats(payloadText) == Ok(PacketValues(p))
  }

  /** Landmark points are determined by their flattened values. */
  lemma FlattenInjective(points: seq<Point>, values: seq<real>)
    requires |points| == LandmarkCount && Flatten(points) == values
    ensures points == Triples(values)
  {
    var t := Triples(values);
    forall i | 0 <= i < LandmarkCount ensures points[i] == t[i] {
      FlattenAt(points, i);
    }
  }

  /** parse_line accepts a line with packet p exactly when the line encodes p. */
  lemma ParseLineCharacterization(line: string, p: ParsedPacket)
    ensures ParseLine(line) == Ok(p) <==> Encodes(line, p)
  {
    if ':' in Strip(line) {
      ParseLineSplits(line);
      ParsePartsCharacterization(Label(line), Payload(line), p);
    } else {
      ParseLineErrors(line);
    }
  }

  /** The label-and-payload stage accepts exactly the parts that spell out p. */
  lemma ParsePartsCharacterization(labelText: string, payloadText: string, p: ParsedPacket)
    ensures ParseParts(labelText, payloadText) == Ok(p) <==> Spells(labelText, payloadText, p)
  {
    if ParseParts(labelText, payloadText) == Ok(p) {
      PartsSpell(labelText, payloadText, p);
    }
    if Spells(labelText, payloadText, p) {
      SpelledParts(labelText, payloadText, p);
    }
  }

  lemma PartsSpell(labelText: string, payloadText: string, p: ParsedPacket)
    requires ParseParts(labelText, payloadText) == Ok(p)
    ensures Spells(labelText, payloadText, p)
  {
    match p
    case WristPacket(_, _, _) =>
    case LandmarksPacket(_, _, _) =>
  }

  lemma SpelledParts(labelText: string, payloadText: string, p: ParsedPacket)
    requires Spells(labelText, payloadText, p)
    ensures ParseParts(labelText, payloadText) == Ok(p)
  {
    match p
    case WristPacket(_, _, pose) =>
      assert PoseValues(pose) == ParseFloats(payloadText).value;
    case LandmarksPacket(_, _, l) =>
      FlattenInjective(l.points, ParseFloats(payloadText).value);
  }

  // ------------------------------------------------------ layout laws

  /** Whitespace around a line does not change how it parses. */
  lemma ParseLinePadded(a: string, line: string, b: string)
    requires AllSpace(a) && AllSpace(b)
    ensures ParseLine(a + line + b) == ParseLine(line)
  {
    StripPadded(a, line, b);
  }

  lemma {:induction false} ChunksConcat(a: seq<string>, b: seq<string>)
    ensures Chunks(a + b) == Chunks(a) + Chunks(b)
  {
    if a == [] {
      assert a + b == b;
    } else {
      assert (a + b)[1..] == a[1..] + b;
      ChunksConcat(a[1..], b);
    }
  }

  /** A blank piece before a ',' holds no value: a leading ',' or ",," changes nothing. */
  lemma PayloadSkipsBlank(w: string, rest: string)
    requires AllSpace(w)
    ensures PayloadChunks(w + "," + rest) == PayloadChunks(rest)
    ensures ParseFloats(w + "," + rest) == ParseFloats(rest)
  {
    forall k | 0 <= k < |w| ensures w[k] != ',' {
      assert IsSpace(w[k]);
    }
    SplitAfterPiece(w, ',', rest);
    ChunksConcat([w], Split(rest, ','));
    assert Chunks([w]) == [] by {
      assert [w][1..] == [];
    }
  }

  /** A trailing ',' changes nothing. */
  lemma PayloadTrailingComma(payload: string)
    ensures PayloadChunks(payload + ",") == PayloadChunks(payload)
    ensures ParseFloats(payload + ",") == ParseFloats(payload)
  {
    SplitTrailing(payload, ',');
    ChunksConcat(Split(payload, ','), [""]);
    assert Chunks([""]) == [] by {
      assert [""][1..] == [];
      assert Strip("") == "";
    }
  }

  // ------------------------------------------------------ the wire form

  /** The payload layout the HTS app sends: ", " before every value. */
  function WirePayload(tokens: seq<string>): string {
    if tokens == [] then [] else ", " + tokens[0] + WirePayload(tokens[1..])
  }

  /** A line in the wire layout: "<Side> <kind>:, v0, v1, ...". */
  function WireLine(side: HandSide, kindToken: string, tokens: seq<string>): string {
    SideName(side) + " " + kindToken + ":" + WirePayload(tokens)
  }

  /** Each token with the space the wire puts before it. */
  function Padded(tokens: seq<string>): (r: seq<string>)
    ensures |r| == |tokens|
    ensures forall k :: 0 <= k < |tokens| ==> r[k] == " " + tokens[k]
  {
    seq(|tokens|, k requires 0 <= k < |tokens| => " " + tokens[k])
  }

  /** Tokens that are nonempty words without ','. */
  predicate WordTokens(tokens: seq<string>) {
    forall k :: 0 <= k < |tokens| ==> tokens[k] != [] && NoSpace(tokens[k]) && ',' !in tokens[k]
  }

  /** A number token is a nonempty word with neither ':' nor ','. */
  lemma NumberTokenShape(t: string)
    requires ParseFloat(t).Some?
    ensures t != [] && NoSpace(t) && ',' !in t && ':' !in t
  {
    forall k | 0 <= k < |t| ensures !IsSpace(t[k]) && t[k] != ',' && t[k] != ':' {
      assert IsDigit(t[k]) || t[k] in "+-.";
    }
  }

  /** A character of a joined string that is not the separator comes from one of the pieces. */
  lemma {:induction false} JoinMember(pieces: seq<string>, c: char, x: char)
    requires x in Join(pieces, c) && x != c
    ensures exists k :: 0 <= k < |pieces| && x in pieces[k]
  {
    if |pieces| > 1 {
      var rest := pieces[1..];
      assert Join(pieces, c) == pieces[0] + [c] + Join(rest, c);
      if x !in pieces[0] {
        JoinMember(rest, c, x);
        var k :| 0 <= k < |rest| && x in rest[k];
        assert rest[k] == pieces[k + 1];
      }
    }
  }

  /** Stripping keeps every character that is not whitespace. */
  lemma StripKeeps(s: string, x: char)
    requires x in s && !IsSpace(x)
    ensures x in Strip(s)
  {
    var a, b := StripParts(s);
    forall i | 0 <= i < |a| ensures a[i] != x { }
    forall i | 0 <= i < |b| ensures b[i] != x { }
    assert x in a + Strip(s) + b;
  }

  /** A character left in a stripped piece is in one of the chunks. */
  lemma {:induction false} ChunksMember(pieces: seq<string>, k: nat, x: char)
    requires k < |pieces| && x in Strip(pieces[k])
    ensures exists j :: 0 <= j < |Chunks(pieces)| && x in Chunks(pieces)[j]
  {
    var chunk := Strip(pieces[0]);
    var head := if chunk == [] then [] else [chunk];
    var rest := Chunks(pieces[1..]);
    assert Chunks(pieces) == head + rest;
    if k == 0 {
      assert x in (head + rest)[0];
    } else {
      ChunksMember(pieces[1..], k - 1, x);
      var j :| 0 <= j < |rest| && x in rest[j];
      MemberAfter(head, rest, j, x);
    }
  }

  /** A string of a list that holds x still does once the list is prefixed. */
  lemma MemberAfter(head: seq<string>, rest: seq<string>, j: nat, x: char)
    requires j < |rest| && x in rest[j]
    ensures exists i :: 0 <= i < |head + rest| && x in (head + rest)[i]
  {
    assert (head + rest)[|head| + j] == rest[j];
  }

  /**
   * A payload holding a character that no number literal, separator or
   * whitespace uses cannot be read as numbers.
   */
  lemma ForeignCharFails(payload: string, x: char)
    requires x in payload && x != ',' && !IsSpace(x) && !IsDigit(x) && x !in "+-."
    ensures ParseFloats(payload) == Err(NonFloatValues)
  {
    var pieces := Split(payload, ',');
    JoinMember(pieces, ',', x);
    var k :| 0 <= k < |pieces| && x in pieces[k];
    StripKeeps(pieces[k], x);
    ChunksMember(pieces, k, x);
    var chunks := PayloadChunks(payload);
    var j :| 0 <= j < |chunks| && x in chunks[j];
    var i :| 0 <= i < |chunks[j]| && chunks[j][i] == x;
    assert !NumberChars(chunks[j]);
    ParseAllMeaning(chunks);
  }

  /**
   * Only the first ':' separates label from payload: a line with a second
   * ':' fails as non-numeric values.
   */
  lemma ExtraColonFails(line: string)
    requires ':' in Payload(line)
    ensures ParseLine(line) == Err(NonFloatValues)
  {
    ForeignCharFails(Payload(line), ':');
    ParseLineErrors(line);
  }

  lemma NumberTokensAreWords(tokens: seq<string>)
    requires NumberTokens(tokens)
    ensures WordTokens(tokens)
  {
    forall k | 0 <= k < |tokens| ensures tokens[k] != [] && NoSpace(tokens[k]) && ',' !in tokens[k] {
      NumberTokenShape(tokens[k]);
    }
  }

  lemma WordTokensTail(tokens: seq<string>)
    requires tokens != [] && WordTokens(tokens)
    ensures WordTokens(tokens[1..])
  {
    forall k | 0 <= k < |tokens[1..]|
      ensures tokens[1..][k] != [] && NoSpace(tokens[1..][k]) && ',' !in tokens[1..][k]
    {
      assert tokens[1..][k] == tokens[k + 1];
    }
  }

  /** The wire payload starts a new ','-piece before every token. */
  lemma WirePayloadStep(tokens: seq<string>)
    requires tokens != []
    ensures WirePayload(tokens) == [','] + ((" " + tokens[0]) + WirePayload(tokens[1..]))
  {
    assert ", " == [','] + " ";
  }

  lemma {:induction false} SplitWirePayload(x: string, tokens: seq<string>)
    requires ',' !in x && WordTokens(tokens)
    ensures Split(x + WirePayload(tokens), ',') == [x] + Padded(tokens)
    decreases |tokens|
  {
    if tokens == [] {
      assert x + WirePayload(tokens) == x;
      SplitJoin([x], ',');
      assert Join([x], ',') == x;
    } else {
      var y := " " + tokens[0];
      var rest := tokens[1..];
      assert ',' !in y by {
        assert y == [' '] + tokens[0];
      }
      var more := y + WirePayload(rest);
      WirePayloadStep(tokens);
      assert x + WirePayload(tokens) == x + [','] + more;
      SplitAfterPiece(x, ',', more);
      WordTokensTail(tokens);
      SplitWirePayload(y, rest);
      assert Padded(tokens) == [y] + Padded(rest);
    }
  }

  lemma {:induction false} ChunksOfPadded(tokens: seq<string>)
    requires WordTokens(tokens)
    ensures Chunks(Padded(tokens)) == tokens
  {
    if tokens != [] {
      var t := tokens[0];
      assert Trimmed(t);
      StripSurrounded(" ", t, "");
      assert " " + t + "" == Padded(tokens)[0];
      WordTokensTail(tokens);
      ChunksOfPadded(tokens[1..]);
      assert Padded(tokens)[1..] == Padded(tokens[1..]);
    }
  }

  /** The wire payload of number tokens holds exactly those tokens' values. */
  lemma ParseWirePayload(tokens: seq<string>)
    requires NumberTokens(tokens)
    ensures ParseFloats(WirePayload(tokens)) == Ok(TokenValues(tokens))
  {
    NumberTokensAreWords(tokens);
    SplitWirePayload([], tokens);
    assert [] + WirePayload(tokens) == WirePayload(tokens);
    ChunksConcat([""], Padded(tokens));
    assert Chunks([""]) == [] by {
      assert [""][1..] == [];
      assert Strip("") == "";
    }
    ChunksOfPadded(tokens);
    assert PayloadChunks(WirePayload(tokens)) == tokens;
    ParseAllMeaning(tokens);
  }

  lemma {:induction false} WirePayloadEnd(tokens: seq<string>)
    requires tokens != [] && WordTokens(tokens)
    ensures WirePayload(tokens) != [] && !IsSpace(WirePayload(tokens)[|WirePayload(tokens)| - 1])
  {
    var t := tokens[0];
    var rest := tokens[1..];
    if rest == [] {
      assert WirePayload(tokens) == ", " + t;
    } else {
      WordTokensTail(tokens);
      WirePayloadEnd(rest);
      var w := WirePayload(rest);
      assert WirePayload(tokens) == (", " + t) + w;
    }
  }

  /** The name of a side is one word without ':'. */
  lemma SideNameWord(side: HandSide)
    ensures SideName(side) != [] && NoSpace(SideName(side)) && ':' !in SideName(side)
  {
    var n := SideName(side);
    forall k | 0 <= k < |n| ensures !IsSpace(n[k]) && n[k] != ':' {
      assert 'A' <= n[k] <= 'z';
    }
  }

  /** The kind a kind token names, when its lower case is a kind name. */
  function KindOfToken(kindToken: string): PacketType {
    if Lower(kindToken) == "wrist" then Wrist else Landmarks
  }

  /** "<Side> <kind>" is a stripped label without ':' that names that side and kind. */
  lemma WireLabel(side: HandSide, kindToken: string)
    requires Lower(kindToken) == "wrist" || Lower(kindToken) == "landmarks"
    ensures var head := SideName(side) + " " + kindToken;
      ':' !in head && head != [] && !IsSpace(head[0]) && Strip(head) == head
      && ParseLabel(head) == Ok((side, KindOfToken(kindToken)))
  {
    var head := SideName(side) + " " + kindToken;
    WireLabelWords(side, kindToken);
    SideNameRoundTrip(side);
    LabelOfWords(head, side, kindToken);
  }

  /** A label whose two words are a side's name and a kind token names that side and kind. */
  lemma LabelOfWords(text: string, side: HandSide, kindToken: string)
    requires Lower(kindToken) == "wrist" || Lower(kindToken) == "landmarks"
    requires SplitWhitespace(text) == [SideName(side), kindToken] && SideFromName(SideName(side)) == Some(side)
    ensures ParseLabel(text) == Ok((side, KindOfToken(kindToken)))
  {
  }

  lemma WireLabelWords(side: HandSide, kindToken: string)
    requires Lower(kindToken) == "wrist" || Lower(kindToken) == "landmarks"
    ensures var head := SideName(side) + " " + kindToken;
      ':' !in head && head != [] && !IsSpace(head[0]) && Strip(head) == head
      && SplitWhitespace(head) == [SideName(side), kindToken]
  {
    WireLabelShape(side, kindToken);
    SideNameWord(side);
    LowerWordChars(kindToken, ':');
    assert |kindToken| == |Lower(kindToken)| >= 5;
    WireLabelSplit(SideName(side), kindToken);
  }

  /** "<Side> <kind>" has no ':' and no whitespace at either end. */
  lemma WireLabelShape(side: HandSide, kindToken: string)
    requires Lower(kindToken) == "wrist" || Lower(kindToken) == "landmarks"
    ensures var head := SideName(side) + " " + kindToken;
      ':' !in head && head != [] && !IsSpace(head[0]) && Strip(head) == head
  {
    SideNameWord(side);
    LowerWordChars(kindToken, ':');
    assert |kindToken| == |Lower(kindToken)| >= 5;
    TwoWordsShape(SideName(side), kindToken);
  }

  /** Two words without ':' joined by a space. */
  lemma TwoWordsShape(name: string, word: string)
    requires name != [] && NoSpace(name) && ':' !in name
    requires word != [] && NoSpace(word) && ':' !in word
    ensures var head := name + " " + word;
      ':' !in head && head != [] && !IsSpace(head[0]) && Strip(head) == head
  {
    var head := name + " " + word;
    assert head == name + [' '] + word;
    assert ':' !in head;
    assert Trimmed(head) by {
      assert head[0] == name[0];
      assert head[|head| - 1] == word[|word| - 1];
    }
    StripSurrounded([], head, []);
    assert [] + head + [] == head;
  }

  lemma WireLabelSplit(name: string, kindToken: string)
    requires name != [] && NoSpace(name) && kindToken != [] && NoSpace(kindToken)
    ensures SplitWhitespace(name + " " + kindToken) == [name, kindToken]
  {
    var none: string := [];
    var rest := " " + kindToken;
    assert IsSpace(rest[0]);
    assert none + name + rest == name + " " + kindToken;
    SplitWhitespaceWord(none, name, rest);
    assert " " + kindToken + none == rest;
    SplitWhitespaceWord(" ", kindToken, none);
    SplitWhitespaceAllSpace(none);
  }

  /** A wire line is already stripped; its label and payload are the parts it was built from. */
  lemma WireLineParts(side: HandSide, kindToken: string, tokens: seq<string>)
    requires Lower(kindToken) == "wrist" || Lower(kindToken) == "landmarks"
    requires NumberTokens(tokens)
    ensures var line := WireLine(side, kindToken, tokens);
      Strip(line) == line && ':' in line
      && Label(line) == SideName(side) + " " + kindToken && Payload(line) == WirePayload(tokens)
  {
    var head := SideName(side) + " " + kindToken;
    var payload := WirePayload(tokens);
    var line := WireLine(side, kindToken, tokens);
    WireLabelShape(side, kindToken);
    assert line == head + [':'] + payload;
    assert Strip(line) == line by {
      WireLineTrimmed(head, tokens);
      StripSurrounded([], line, []);
      assert [] + line + [] == line;
    }
    assert Partition(line, ':') == (head, true, payload) by {
      PartitionAt(head, ':', payload);
    }
  }

  /** A label that starts with a word, then ':' and a wire payload, has no whitespace at either end. */
  lemma WireLineTrimmed(head: string, tokens: seq<string>)
    requires head != [] && !IsSpace(head[0]) && NumberTokens(tokens)
    ensures Trimmed(head + [':'] + WirePayload(tokens))
  {
    var payload := WirePayload(tokens);
    var line := head + [':'] + payload;
    assert line[0] == head[0];
    if tokens == [] {
      assert line == head + [':'];
    } else {
      NumberTokensAreWords(tokens);
      WirePayloadEnd(tokens);
      assert line[|line| - 1] == payload[|payload| - 1];
    }
  }

  /**
   * Every line in the wire layout parses: its side, its kind (in any letter
   * case), and its numbers in order, or the count error when the number of
   * values does not fit the kind.
   */
  lemma ParseWireLine(side: HandSide, kindToken: string, tokens: seq<string>)
    requires Lower(kindToken) == "wrist" || Lower(kindToken) == "landmarks"
    requires NumberTokens(tokens)
    ensures
      var kind := KindOfToken(kindToken);
      var r := ParseLine(WireLine(side, kindToken, tokens));
      (r.Ok? <==> |tokens| == ValueCount(kind))
      && (r.Ok? ==> r.value.side == side && r.value.kind == kind && PacketValues(r.value) == TokenValues(tokens))
      && (r.Err? ==> r.error == WrongValueCount(kind, |tokens|))
  {
    var line := WireLine(side, kindToken, tokens);
    var head := SideName(side) + " " + kindToken;
    assert ParseLine(line) == ParseParts(head, WirePayload(tokens)) by {
      WireLineParts(side, kindToken, tokens);
      ParseLineSplits(line);
    }
    WirePartsParse(side, kindToken, tokens);
  }

  /** The label and payload of a wire line parse into that side, kind and values. */
  lemma WirePartsParse(side: HandSide, kindToken: string, tokens: seq<string>)
    requires Lower(kindToken) == "wrist" || Lower(kindToken) == "landmarks"
    requires NumberTokens(tokens)
    ensures
      var kind := KindOfToken(kindToken);
      var r := ParseParts(SideName(side) + " " + kindToken, WirePayload(tokens));
      (r.Ok? <==> |tokens| == ValueCount(kind))
      && (r.Ok? ==> r.value.side == side && r.value.kind == kind && PacketValues(r.value) == TokenValues(tokens))
      && (r.Err? ==> r.error == WrongValueCount(kind, |tokens|))
  {
    WireLabel(side, kindToken);
    ParseWirePayload(tokens);
    PartsOfKnown(SideName(side) + " " + kindToken, WirePayload(tokens), side, KindOfToken(kindToken), TokenValues(tokens));
  }

  /** Once the label and the numbers are known, only the count decides. */
  lemma PartsOfKnown(labelText: string, payloadText: string, side: HandSide, kind: PacketType, values: seq<real>)
    requires ParseLabel(labelText) == Ok((side, kind)) && ParseFloats(payloadText) == Ok(values)
    ensures var r := ParseParts(labelText, payloadText);
      (r.Ok? <==> |values| == ValueCount(kind))
      && (r.Ok? ==> r.value.side == side && r.value.kind == kind && PacketValues(r.value) == values)
      && (r.Err? ==> r.error == WrongValueCount(kind, |values|))
  {
  }
}
