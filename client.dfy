/**
 * The streaming client: configuration checks, counters, and the event loop
 * that parses each received line, applies the hand filter and the error
 * policy, yields packets and/or assembled frames, and, in `run`, hands each
 * event to a callback.
 *
 * The transport is a finite sequence of arrivals, each a received line with
 * the monotonic and wall-clock readings taken when the line is pushed into
 * the assembler. The generator `iter_events` is specified by the pure
 * function Stream; `budget` is the number of events after which the
 * consumer stops asking for more, which is how `run` ends early.
 */
module Client {
  import opened Wrappers
  import opened Models
  import opened Parser
  import opened Frame
  import opened Assembler

  // ------------------------------------------------------ configuration

  datatype TransportMode = Udp | TcpServer | TcpClient
  datatype StreamOutput = Packets | Frames | PacketsAndFrames
  datatype HandFilter = BothHands | LeftHand | RightHand
  datatype ErrorPolicy = Strict | Tolerant

  /** The client configuration; `log_hook` is not modelled. */
  datatype HTSClientConfig = HTSClientConfig(
    transportMode: TransportMode,
    host: string,
    port: int,
    timeoutS: real,
    reconnectDelayS: real,
    output: StreamOutput,
    handFilter: HandFilter,
    errorPolicy: ErrorPolicy,
    includeWallTime: bool)

  const DefaultConfig: HTSClientConfig :=
    HTSClientConfig(Udp, "0.0.0.0", 9000, 1.0, 0.25, Frames, BothHands, Strict, true)

  /** The reasons a configuration is refused, in the order they are checked. */
  datatype ConfigError = EmptyHost | PortOutOfRange | NonPositiveTimeout | NegativeReconnectDelay

  predicate ValidConfig(c: HTSClientConfig) {
    c.host != [] && 0 <= c.port <= 65535 && c.timeoutS > 0.0 && c.reconnectDelayS >= 0.0
  }

  /** `HTSClientConfig.__post_init__`: the configuration, or the first violated constraint. */
  function CheckConfig(c: HTSClientConfig): (r: Result<HTSClientConfig, ConfigError>)
    ensures r.Ok? <==> ValidConfig(c)
    ensures r.Ok? ==> r.value == c
    ensures r == Err(EmptyHost) <==> c.host == []
    ensures r == Err(PortOutOfRange) <==> c.host != [] && (c.port < 0 || c.port > 65535)
    ensures r == Err(NonPositiveTimeout) <==> c.host != [] && 0 <= c.port <= 65535 && c.timeoutS <= 0.0
    ensures r == Err(NegativeReconnectDelay) <==>
      c.host != [] && 0 <= c.port <= 65535 && c.timeoutS > 0.0 && c.reconnectDelayS < 0.0
  {
    if c.host == [] then Err(EmptyHost)
    else if c.port < 0 || c.port > 65535 then Err(PortOutOfRange)
    else if c.timeoutS <= 0.0 then Err(NonPositiveTimeout)
    else if c.reconnectDelayS < 0.0 then Err(NegativeReconnectDelay)
    else Ok(c)
  }

  /** The defaults pass the checks. */
  lemma DefaultConfigValid()
    ensures CheckConfig(DefaultConfig) == Ok(DefaultConfig)
  {
  }

  // ------------------------------------------------------------ counters

  datatype ClientStats = ClientStats(
    linesReceived: nat,
    parseErrors: nat,
    droppedLines: nat,
    packetsFiltered: nat,
    packetsEmitted: nat,
    framesEmitted: nat,
    callbacksInvoked: nat,
    callbackErrors: nat)

  const ZeroStats: ClientStats := ClientStats(0, 0, 0, 0, 0, 0, 0, 0)

  /** Every dropped line is a parse error or a filtered packet. */
  predicate DropsAccounted(s: ClientStats) {
    s.droppedLines == s.parseErrors + s.packetsFiltered
  }

  // -------------------------------------------------------------- events

  datatype StreamEvent = PacketEvent(packet: ParsedPacket) | FrameEvent(frame: HandFrame)

  function EventSide(e: StreamEvent): HandSide {
    match e
    case PacketEvent(p) => p.side
    case FrameEvent(f) => f.side
  }

  /** `_matches_hand_filter`. */
  function MatchesHandFilter(filter: HandFilter, side: HandSide): (r: bool)
    ensures filter == BothHands ==> r
    ensures filter == LeftHand ==> (r <==> side == Left)
    ensures filter == RightHand ==> (r <==> side == Right)
  {
    if filter == BothHands then true
    else if filter == LeftHand then side == Left
    else side == Right
  }

  predicate WantsPackets(o: StreamOutput) {
    o == Packets || o == PacketsAndFrames
  }

  predicate WantsFrames(o: StreamOutput) {
    o == Frames || o == PacketsAndFrames
  }

  /** The packets among some events, in order. */
  function PacketsOf(events: seq<StreamEvent>): seq<ParsedPacket> {
    if events == [] then []
    else (if events[0].PacketEvent? then [events[0].packet] else []) + PacketsOf(events[1..])
  }

  /** The frames among some events, in order. */
  function FramesOf(events: seq<StreamEvent>): seq<HandFrame> {
    if events == [] then []
    else (if events[0].FrameEvent? then [events[0].frame] else []) + FramesOf(events[1..])
  }

  lemma {:induction false} PacketsOfConcat(a: seq<StreamEvent>, b: seq<StreamEvent>)
    ensures PacketsOf(a + b) == PacketsOf(a) + PacketsOf(b)
  {
    if a == [] {
      assert a + b == b;
    } else {
      var head := if a[0].PacketEvent? then [a[0].packet] else [];
      assert (a + b)[0] == a[0];
      assert (a + b)[1..] == a[1..] + b;
      assert PacketsOf(a + b) == head + PacketsOf(a[1..] + b);
      PacketsOfConcat(a[1..], b);
      assert PacketsOf(a) == head + PacketsOf(a[1..]);
    }
  }

  lemma {:induction false} FramesOfConcat(a: seq<StreamEvent>, b: seq<StreamEvent>)
    ensures FramesOf(a + b) == FramesOf(a) + FramesOf(b)
  {
    if a == [] {
      assert a + b == b;
    } else {
      var head := if a[0].FrameEvent? then [a[0].frame] else [];
      assert (a + b)[0] == a[0];
      assert (a + b)[1..] == a[1..] + b;
      assert FramesOf(a + b) == head + FramesOf(a[1..] + b);
      FramesOfConcat(a[1..], b);
      assert FramesOf(a) == head + FramesOf(a[1..]);
    }
  }

  // ------------------------------------------------------ the generator

  /** One received line, with the clock readings `push_packet` would take for it. */
  datatype Arrival = Arrival(line: string, monotonicNs: int, wallNs: int)

  /** What the generator's loop carries from line to line: the counters and the assembler. */
  datatype StreamState = StreamState(stats: ClientStats, view: AssemblerView)

  /** Where the generator stands when the consumer stops: state, all events so far, a raised parse error. */
  datatype StreamResult = StreamResult(state: StreamState, events: seq<StreamEvent>, error: Option<ParseError>)

  /** The result of one line: carry on with the next line, or stop here. */
  datatype Step = Continue(state: StreamState, events: seq<StreamEvent>) | Halt(result: StreamResult)

  /** The consumer has had `budget` events and asks for no more. */
  predicate Exhausted(budget: Option<nat>, count: nat) {
    budget.Some? && count >= budget.value
  }

  /** The push `push_packet(packet)` makes: the clocks are read, no source timestamp. */
  function ClientPush(cfg: HTSClientConfig, a: Arrival, p: ParsedPacket): Push {
    var ts := ResolveTimestamps(cfg.includeWallTime, None, None, a.monotonicNs, a.wallNs);
    Push(p, ts.0, ts.1, None)
  }

  /**
   * One pass of the loop body of `iter_events`. A consumer that is satisfied
   * after the packet event stops the generator there, before the packet
   * reaches the assembler.
   */
  function LineStep(cfg: HTSClientConfig, st: StreamState, a: Arrival, budget: Option<nat>,
                    events: seq<StreamEvent>): Step
  {
    Handle(cfg, st, a, ParseLine(a.line), budget, events)
  }

  /** The handling of one line once parsed, whatever the parse gave. */
  function Handle(cfg: HTSClientConfig, st: StreamState, a: Arrival, parsed: Result<ParsedPacket, ParseError>,
                  budget: Option<nat>, events: seq<StreamEvent>): Step
  {
    var counted := st.stats.(linesReceived := st.stats.linesReceived + 1);
    if parsed.Err? then
      var failed := counted.(parseErrors := counted.parseErrors + 1, droppedLines := counted.droppedLines + 1);
      if cfg.errorPolicy == Strict then Halt(StreamResult(StreamState(failed, st.view), events, Some(parsed.error)))
      else Continue(StreamState(failed, st.view), events)
    else
      var p := parsed.value;
      if !MatchesHandFilter(cfg.handFilter, p.side) then
        Continue(StreamState(counted.(packetsFiltered := counted.packetsFiltered + 1,
                                      droppedLines := counted.droppedLines + 1), st.view), events)
      else Accept(cfg, StreamState(counted, st.view), a, p, budget, events)
  }

  /** A packet that parses and passes the filter goes on to the rest of the loop body. */
  lemma HandleAccepts(cfg: HTSClientConfig, st: StreamState, a: Arrival, p: ParsedPacket,
                      budget: Option<nat>, events: seq<StreamEvent>)
    requires MatchesHandFilter(cfg.handFilter, p.side)
    ensures Handle(cfg, st, a, Ok(p), budget, events)
         == Accept(cfg, StreamState(st.stats.(linesReceived := st.stats.linesReceived + 1), st.view), a, p, budget, events)
  {
  }

  /**
   * The rest of the loop body for a packet that passed the hand filter. The
   * packet reaches the assembler only when frames are asked for and the
   * consumer has not stopped at the packet event.
   */
  function Accept(cfg: HTSClientConfig, st: StreamState, a: Arrival, p: ParsedPacket,
                  budget: Option<nat>, events: seq<StreamEvent>): Step
  {
    var s1 := CountPacket(cfg, st.stats);
    var e1 := events + PacketYield(cfg, p);
    if Exhausted(budget, |e1|) then Halt(StreamResult(StreamState(s1, st.view), e1, None))
    else if WantsFrames(cfg.output) then
      var push := PushAssembler(st.view, ClientPush(cfg, a, p), DefaultFrameIds);
      Continue(StreamState(CountFrame(s1, push.1), push.0), e1 + FrameYield(push.1))
    else Continue(StreamState(s1, st.view), e1)
  }

  /** The three ways the rest of the loop body can go, each stated on its own. */
  lemma AcceptCases(cfg: HTSClientConfig, st: StreamState, a: Arrival, p: ParsedPacket,
                    budget: Option<nat>, events: seq<StreamEvent>)
    ensures var e1 := events + PacketYield(cfg, p);
      var s1 := CountPacket(cfg, st.stats);
      var push := PushAssembler(st.view, ClientPush(cfg, a, p), DefaultFrameIds);
      var step := Accept(cfg, st, a, p, budget, events);
      (Exhausted(budget, |e1|) ==> step == Halt(StreamResult(StreamState(s1, st.view), e1, None)))
      && (!Exhausted(budget, |e1|) && WantsFrames(cfg.output) ==>
            step == Continue(StreamState(CountFrame(s1, push.1), push.0), e1 + FrameYield(push.1)))
      && (!Exhausted(budget, |e1|) && !WantsFrames(cfg.output) ==> step == Continue(StreamState(s1, st.view), e1))
  {
  }

  /** The packet event, in the outputs that carry packets. */
  function PacketYield(cfg: HTSClientConfig, p: ParsedPacket): seq<StreamEvent> {
    if WantsPackets(cfg.output) then [PacketEvent(p)] else []
  }

  function CountPacket(cfg: HTSClientConfig, s: ClientStats): ClientStats {
    if WantsPackets(cfg.output) then s.(packetsEmitted := s.packetsEmitted + 1) else s
  }

  /** The frame event, when the assembler emitted a frame. */
  function FrameYield(frame: Option<HandFrame>): seq<StreamEvent> {
    if frame.Some? then [FrameEvent(frame.value)] else []
  }

  function CountFrame(s: ClientStats, frame: Option<HandFrame>): ClientStats {
    if frame.Some? then s.(framesEmitted := s.framesEmitted + 1) else s
  }

  /** `iter_events` over the arrivals, from state `st`, after `events` were yielded. */
  function Stream(cfg: HTSClientConfig, st: StreamState, arrivals: seq<Arrival>, budget: Option<nat>,
                  events: seq<StreamEvent>): (r: StreamResult)
    decreases |arrivals|
  {
    if arrivals == [] || Exhausted(budget, |events|) then StreamResult(st, events, None)
    else
      match LineStep(cfg, st, arrivals[0], budget, events)
      case Halt(result) => result
      case Continue(next, more) => Stream(cfg, next, arrivals[1..], budget, more)
  }

  function StepState(step: Step): StreamState {
    if step.Continue? then step.state else step.result.state
  }

  function StepEvents(step: Step): seq<StreamEvent> {
    if step.Continue? then step.events else step.result.events
  }

  /**
   * A pass of the loop body that ends in `state`, yields `yielded` after
   * `events`, and stops (raising `error`) or carries on, as `step` says.
   */
  predicate Realises(step: Step, state: StreamState, events: seq<StreamEvent>, yielded: seq<StreamEvent>,
                     halted: bool, error: Option<ParseError>) {
    state == StepState(step) && events + yielded == StepEvents(step)
    && halted == step.Halt? && error == (if step.Halt? then step.result.error else None)
  }

  // ------------------------------------------- properties of one line

  /**
   * The counters move together: each dropped line is counted as a parse
   * error or a filtered packet, and the packet and frame counters grow by
   * the packets and frames yielded. The callback counters are not touched.
   */
  predicate StatsTrack(s0: ClientStats, s1: ClientStats, yielded: seq<StreamEvent>) {
    s1.droppedLines + s0.parseErrors + s0.packetsFiltered == s0.droppedLines + s1.parseErrors + s1.packetsFiltered
    && s1.packetsEmitted == s0.packetsEmitted + |PacketsOf(yielded)|
    && s1.framesEmitted == s0.framesEmitted + |FramesOf(yielded)|
    && s1.callbacksInvoked == s0.callbacksInvoked && s1.callbackErrors == s0.callbackErrors
  }

  lemma StatsTrackConcat(s0: ClientStats, s1: ClientStats, s2: ClientStats, a: seq<StreamEvent>, b: seq<StreamEvent>)
    requires StatsTrack(s0, s1, a) && StatsTrack(s1, s2, b)
    ensures StatsTrack(s0, s2, a + b)
  {
    PacketsOfConcat(a, b);
    FramesOfConcat(a, b);
  }

  /** One line: it is counted once, the counters track the events it yields, and earlier events stay. */
  lemma HandleStats(cfg: HTSClientConfig, st: StreamState, a: Arrival, parsed: Result<ParsedPacket, ParseError>, budget: Option<nat>, events: seq<StreamEvent>)
    ensures var step := Handle(cfg, st, a, parsed, budget, events);
      var e1 := StepEvents(step);
      events <= e1 && |e1| <= |events| + 2
      && StepState(step).stats.linesReceived == st.stats.linesReceived + 1
      && StatsTrack(st.stats, StepState(step).stats, e1[|events|..])
  {
    var step := Handle(cfg, st, a, parsed, budget, events);
    if parsed.Err? || !MatchesHandFilter(cfg.handFilter, parsed.value.side) {
      assert StepEvents(step) == events;
      assert StepEvents(step)[|events|..] == [];
    } else {
      var counted := StreamState(st.stats.(linesReceived := st.stats.linesReceived + 1), st.view);
      HandleAccepts(cfg, st, a, parsed.value, budget, events);
      AcceptStats(cfg, counted, a, parsed.value, budget, events);
    }
  }

  /** The counters over one event. */
  lemma SingleEvent(e: StreamEvent)
    ensures PacketsOf([e]) == (if e.PacketEvent? then [e.packet] else [])
    ensures FramesOf([e]) == (if e.FrameEvent? then [e.frame] else [])
  {
    assert [e][1..] == [];
  }

  lemma AcceptStats(cfg: HTSClientConfig, st: StreamState, a: Arrival, p: ParsedPacket,
                    budget: Option<nat>, events: seq<StreamEvent>)
    ensures var step := Accept(cfg, st, a, p, budget, events);
      var e1 := StepEvents(step);
      events <= e1 && |e1| <= |events| + 2
      && StepState(step).stats.linesReceived == st.stats.linesReceived
      && StatsTrack(st.stats, StepState(step).stats, e1[|events|..])
  {
    var step := Accept(cfg, st, a, p, budget, events);
    var e1 := StepEvents(step);
    var s1 := CountPacket(cfg, st.stats);
    var pe := PacketYield(cfg, p);
    PacketTracks(cfg, st.stats, p);
    if Exhausted(budget, |events + pe|) || !WantsFrames(cfg.output) {
      assert e1 == events + pe;
      assert e1[|events|..] == pe;
    } else {
      var push := PushAssembler(st.view, ClientPush(cfg, a, p), DefaultFrameIds);
      var fe := FrameYield(push.1);
      FrameTracks(s1, push.1);
      StatsTrackConcat(st.stats, s1, CountFrame(s1, push.1), pe, fe);
      assert e1 == events + (pe + fe);
      assert e1[|events|..] == pe + fe;
    }
  }

  lemma PacketTracks(cfg: HTSClientConfig, s: ClientStats, p: ParsedPacket)
    ensures StatsTrack(s, CountPacket(cfg, s), PacketYield(cfg, p)) && |PacketYield(cfg, p)| <= 1
    ensures CountPacket(cfg, s).linesReceived == s.linesReceived
  {
    SingleEvent(PacketEvent(p));
  }

  lemma FrameTracks(s: ClientStats, frame: Option<HandFrame>)
    ensures StatsTrack(s, CountFrame(s, frame), FrameYield(frame)) && |FrameYield(frame)| <= 1
    ensures CountFrame(s, frame).linesReceived == s.linesReceived
  {
    if frame.Some? {
      SingleEvent(FrameEvent(frame.value));
    }
  }

  /** One line: how its outcome depends on the parse, the policy and the budget. */
  lemma HandleOutcome(cfg: HTSClientConfig, st: StreamState, a: Arrival, parsed: Result<ParsedPacket, ParseError>, budget: Option<nat>, events: seq<StreamEvent>)
    ensures var step := Handle(cfg, st, a, parsed, budget, events);
      (parsed.Err? ==>
         StepEvents(step) == events && StepState(step).view == st.view
         && (step.Halt? <==> cfg.errorPolicy == Strict)
         && (step.Halt? ==> step.result.error == Some(parsed.error)))
      && (parsed.Ok? && step.Halt? ==> step.result.error.None? && Exhausted(budget, |StepEvents(step)|))
      && (parsed.Ok? && budget.None? ==> step.Continue?)
  {
  }

  /**
   * Event i of `es`, yielded after position `lo`, is of a side the filter
   * passes and of a kind the output mode asks for; in packets-and-frames
   * mode a frame comes right after the packet of the same side, also
   * yielded after `lo`.
   */
  predicate EventAdmissible(cfg: HTSClientConfig, es: seq<StreamEvent>, lo: nat, i: nat)
    requires i < |es|
  {
    MatchesHandFilter(cfg.handFilter, EventSide(es[i]))
    && (es[i].PacketEvent? ==> WantsPackets(cfg.output))
    && (es[i].FrameEvent? ==> WantsFrames(cfg.output))
    && (cfg.output == PacketsAndFrames && es[i].FrameEvent? ==>
          lo < i && es[i - 1].PacketEvent? && es[i - 1].packet.side == es[i].frame.side)
  }

  /** Every event of `es` from position `lo` on is admissible. */
  predicate Admissible(cfg: HTSClientConfig, es: seq<StreamEvent>, lo: nat) {
    forall i :: lo <= i < |es| ==> EventAdmissible(cfg, es, lo, i)
  }

  lemma AdmissibleConcat(cfg: HTSClientConfig, x: seq<StreamEvent>, y: seq<StreamEvent>, z: seq<StreamEvent>)
    requires x <= y <= z
    requires Admissible(cfg, y, |x|) && Admissible(cfg, z, |y|)
    ensures Admissible(cfg, z, |x|)
  {
    forall i | |x| <= i < |z|
      ensures EventAdmissible(cfg, z, |x|, i)
    {
      if i < |y| {
        assert EventAdmissible(cfg, y, |x|, i);
        assert z[i] == y[i];
        if i > 0 {
          assert z[i - 1] == y[i - 1];
        }
      } else {
        assert EventAdmissible(cfg, z, |y|, i);
      }
    }
  }

  /** One line: every event it yields is admissible, and the assembler is fed only when frames are asked for. */
  lemma HandleEvents(cfg: HTSClientConfig, st: StreamState, a: Arrival, parsed: Result<ParsedPacket, ParseError>, budget: Option<nat>, events: seq<StreamEvent>)
    ensures var step := Handle(cfg, st, a, parsed, budget, events);
      Admissible(cfg, StepEvents(step), |events|)
      && (!WantsFrames(cfg.output) ==> StepState(step).view == st.view)
  {
    var step := Handle(cfg, st, a, parsed, budget, events);
    if parsed.Ok? && MatchesHandFilter(cfg.handFilter, parsed.value.side) && WantsFrames(cfg.output) && step.Continue? {
      var p := parsed.value;
      var push := PushAssembler(st.view, ClientPush(cfg, a, p), DefaultFrameIds);
      assert push.1.Some? ==> push.1.value.side == p.side;
    }
  }

  /** The packet a line yields, if any. */
  function Accepted(cfg: HTSClientConfig, a: Arrival): seq<Push> {
    AcceptedOf(cfg, a, ParseLine(a.line))
  }

  function AcceptedOf(cfg: HTSClientConfig, a: Arrival, parsed: Result<ParsedPacket, ParseError>): seq<Push> {
    if parsed.Ok? && MatchesHandFilter(cfg.handFilter, parsed.value.side)
    then [ClientPush(cfg, a, parsed.value)]
    else []
  }

  /** The pushes that reach the assembler when every line is processed. */
  function AcceptedPushes(cfg: HTSClientConfig, arrivals: seq<Arrival>): seq<Push> {
    if arrivals == [] then [] else Accepted(cfg, arrivals[0]) + AcceptedPushes(cfg, arrivals[1..])
  }

  /** One line, with the frames asked for and no budget: the assembler sees exactly the accepted packet. */
  lemma HandleFrames(cfg: HTSClientConfig, st: StreamState, a: Arrival, parsed: Result<ParsedPacket, ParseError>, events: seq<StreamEvent>)
    requires WantsFrames(cfg.output)
    ensures var step := Handle(cfg, st, a, parsed, None, events);
      var run := RunAssembler(st.view, AcceptedOf(cfg, a, parsed), DefaultFrameIds);
      StepState(step).view == run.0
      && FramesOf(StepEvents(step)) == FramesOf(events) + run.1
  {
    var step := Handle(cfg, st, a, parsed, None, events);
    var e1 := StepEvents(step);
    var acc := AcceptedOf(cfg, a, parsed);
    var run := RunAssembler(st.view, acc, DefaultFrameIds);
    if acc == [] {
      assert e1 == events;
    } else {
      var p := parsed.value;
      var push := PushAssembler(st.view, ClientPush(cfg, a, p), DefaultFrameIds);
      RunOne(st.view, ClientPush(cfg, a, p));
      var pe := PacketYield(cfg, p);
      var fe := FrameYield(push.1);
      HandleAccepts(cfg, st, a, p, None, events);
      assert e1 == events + pe + fe;
      FramesOfConcat(events + pe, fe);
      FramesOfConcat(events, pe);
      SingleEvent(PacketEvent(p));
      if push.1.Some? {
        SingleEvent(FrameEvent(push.1.value));
      }
    }
  }

  /** The assembler run on one push is that push, with its frame as the frame sequence. */
  lemma RunOne(v: AssemblerView, q: Push)
    ensures var push := PushAssembler(v, q, DefaultFrameIds);
      RunAssembler(v, [q], DefaultFrameIds) == (push.0, if push.1.Some? then [push.1.value] else [])
  {
    var push := PushAssembler(v, q, DefaultFrameIds);
    assert [q][1..] == [];
    var emitted: seq<HandFrame> := if push.1.Some? then [push.1.value] else [];
    assert RunAssembler(push.0, [], DefaultFrameIds) == (push.0, []);
    assert emitted + [] == emitted;
  }

  lemma SliceSplit<T>(x: seq<T>, y: seq<T>, z: seq<T>)
    requires x <= y <= z
    ensures z[|x|..] == y[|x|..] + z[|y|..]
  {
  }

  /** One step of the stream: what remains after its first line. */
  lemma StreamUnfold(cfg: HTSClientConfig, st: StreamState, arrivals: seq<Arrival>,
                     budget: Option<nat>, events: seq<StreamEvent>)
    requires arrivals != [] && !Exhausted(budget, |events|)
    ensures var step := LineStep(cfg, st, arrivals[0], budget, events);
      Stream(cfg, st, arrivals, budget, events)
      == if step.Halt? then step.result else Stream(cfg, step.state, arrivals[1..], budget, step.events)
  {
  }

  // ---------------------------------------------- properties of a stream

  /**
   * Over any stream: the events already yielded stay, each line received is
   * counted once, and the counters track the events yielded.
   */
  lemma {:induction false} StreamStats(cfg: HTSClientConfig, st: StreamState, arrivals: seq<Arrival>,
                                       budget: Option<nat>, events: seq<StreamEvent>)
    ensures var r := Stream(cfg, st, arrivals, budget, events);
      events <= r.events
      && st.stats.linesReceived <= r.state.stats.linesReceived <= st.stats.linesReceived + |arrivals|
      && StatsTrack(st.stats, r.state.stats, r.events[|events|..])
    decreases |arrivals|
  {
    var r := Stream(cfg, st, arrivals, budget, events);
    if arrivals == [] || Exhausted(budget, |events|) {
      assert r.events[|events|..] == [];
    } else {
      var step := LineStep(cfg, st, arrivals[0], budget, events);
      HandleStats(cfg, st, arrivals[0], ParseLine(arrivals[0].line), budget, events);
      var e1 := StepEvents(step);
      StreamUnfold(cfg, st, arrivals, budget, events);
      if step.Continue? {
        StreamStats(cfg, step.state, arrivals[1..], budget, step.events);
        SliceSplit(events, e1, r.events);
        StatsTrackConcat(st.stats, step.state.stats, r.state.stats, e1[|events|..], r.events[|e1|..]);
      }
    }
  }

  /** Starting from consistent counters, every dropped line stays accounted for. */
  lemma StreamKeepsDropsAccounted(cfg: HTSClientConfig, st: StreamState, arrivals: seq<Arrival>,
                                  budget: Option<nat>, events: seq<StreamEvent>)
    requires DropsAccounted(st.stats)
    ensures DropsAccounted(Stream(cfg, st, arrivals, budget, events).state.stats)
  {
    StreamStats(cfg, st, arrivals, budget, events);
  }

  /**
   * Over any stream, every event yielded is admissible: of a side the filter
   * passes, of a kind the output mode asks for, and in packets-and-frames
   * mode each frame right after the packet of the same side that produced
   * it. In packets mode the assembler is never fed.
   */
  lemma {:induction false} StreamEvents(cfg: HTSClientConfig, st: StreamState, arrivals: seq<Arrival>,
                                        budget: Option<nat>, events: seq<StreamEvent>)
    ensures var r := Stream(cfg, st, arrivals, budget, events);
      Admissible(cfg, r.events, |events|) && (!WantsFrames(cfg.output) ==> r.state.view == st.view)
    decreases |arrivals|
  {
    var r := Stream(cfg, st, arrivals, budget, events);
    if arrivals == [] || Exhausted(budget, |events|) {
      assert r.events == events;
    } else {
      var step := LineStep(cfg, st, arrivals[0], budget, events);
      assert Admissible(cfg, StepEvents(step), |events|) && (!WantsFrames(cfg.output) ==> StepState(step).view == st.view)
             && events <= StepEvents(step) by {
        HandleEvents(cfg, st, arrivals[0], ParseLine(arrivals[0].line), budget, events);
        HandleStats(cfg, st, arrivals[0], ParseLine(arrivals[0].line), budget, events);
      }
      StreamUnfold(cfg, st, arrivals, budget, events);
      if step.Continue? {
        assert Admissible(cfg, r.events, |step.events|) && step.events <= r.events
               && (!WantsFrames(cfg.output) ==> r.state.view == step.state.view) by {
          StreamEvents(cfg, step.state, arrivals[1..], budget, step.events);
          StreamStats(cfg, step.state, arrivals[1..], budget, step.events);
        }
        AdmissibleConcat(cfg, events, step.events, r.events);
      }
    }
  }

  /** Under the tolerant policy the stream never raises, and with no budget every line is read. */
  lemma {:induction false} TolerantStream(cfg: HTSClientConfig, st: StreamState, arrivals: seq<Arrival>,
                                          budget: Option<nat>, events: seq<StreamEvent>)
    requires cfg.errorPolicy == Tolerant
    ensures var r := Stream(cfg, st, arrivals, budget, events);
      r.error.None?
      && (budget.None? ==> r.state.stats.linesReceived == st.stats.linesReceived + |arrivals|)
    decreases |arrivals|
  {
    if arrivals != [] && !Exhausted(budget, |events|) {
      var step := LineStep(cfg, st, arrivals[0], budget, events);
      HandleOutcome(cfg, st, arrivals[0], ParseLine(arrivals[0].line), budget, events);
      HandleStats(cfg, st, arrivals[0], ParseLine(arrivals[0].line), budget, events);
      if step.Continue? {
        TolerantStream(cfg, step.state, arrivals[1..], budget, step.events);
      }
    }
  }

  /** Every line of `s` parses. */
  predicate AllParse(s: seq<Arrival>) {
    forall i :: 0 <= i < |s| ==> ParseLine(s[i].line).Ok?
  }

  lemma AllParseTail(s: seq<Arrival>)
    requires s != [] && AllParse(s)
    ensures AllParse(s[1..]) && ParseLine(s[0].line).Ok?
  {
    assert forall i :: 0 <= i < |s| - 1 ==> s[1..][i] == s[i + 1];
  }

  /** The lines before the k-th parse: so do the first, and those before the k-th of the rest. */
  lemma AllParseBefore(arrivals: seq<Arrival>, k: nat)
    requires 0 < k < |arrivals| && AllParse(arrivals[..k])
    ensures ParseLine(arrivals[0].line).Ok?
    ensures AllParse(arrivals[1..][..k - 1]) && arrivals[1..][k - 1] == arrivals[k]
  {
    assert arrivals[1..][..k - 1] == arrivals[..k][1..];
    AllParseTail(arrivals[..k]);
    assert arrivals[..k][0] == arrivals[0];
  }

  /** One line under the strict policy with no budget: a parse error stops the stream, a packet never does. */
  lemma StrictLine(cfg: HTSClientConfig, st: StreamState, a: Arrival, events: seq<StreamEvent>)
    requires cfg.errorPolicy == Strict
    ensures var step := LineStep(cfg, st, a, None, events);
      StepState(step).stats.linesReceived == st.stats.linesReceived + 1
      && (step.Halt? <==> ParseLine(a.line).Err?)
      && (step.Halt? ==> step.result.error == Some(ParseLine(a.line).error))
  {
    HandleOutcome(cfg, st, a, ParseLine(a.line), None, events);
    HandleStats(cfg, st, a, ParseLine(a.line), None, events);
  }

  /** Under the strict policy with no budget, a stream whose lines all parse raises nothing and reads every line. */
  lemma {:induction false} StrictCleanStream(cfg: HTSClientConfig, st: StreamState, arrivals: seq<Arrival>,
                                             events: seq<StreamEvent>)
    requires cfg.errorPolicy == Strict
    requires AllParse(arrivals)
    ensures var r := Stream(cfg, st, arrivals, None, events);
      r.error.None? && r.state.stats.linesReceived == st.stats.linesReceived + |arrivals|
    decreases |arrivals|
  {
    if arrivals != [] {
      var step := LineStep(cfg, st, arrivals[0], None, events);
      StrictLine(cfg, st, arrivals[0], events);
      StreamUnfold(cfg, st, arrivals, None, events);
      var rest := arrivals[1..];
      AllParseTail(arrivals);
      StrictCleanStream(cfg, step.state, rest, step.events);
    }
  }

  /**
   * Under the strict policy with no budget, the first line that does not
   * parse ends the stream with its error, after exactly the lines up to it
   * were received.
   */
  lemma {:induction false} StrictFirstError(cfg: HTSClientConfig, st: StreamState, arrivals: seq<Arrival>,
                                            events: seq<StreamEvent>, k: nat)
    requires cfg.errorPolicy == Strict
    requires k < |arrivals| && ParseLine(arrivals[k].line).Err?
    requires AllParse(arrivals[..k])
    ensures var r := Stream(cfg, st, arrivals, None, events);
      r.error == Some(ParseLine(arrivals[k].line).error)
      && r.state.stats.linesReceived == st.stats.linesReceived + k + 1
    decreases k
  {
    var step := LineStep(cfg, st, arrivals[0], None, events);
    StrictLine(cfg, st, arrivals[0], events);
    StreamUnfold(cfg, st, arrivals, None, events);
    if k == 0 {
      assert step.Halt?;
    } else {
      var rest := arrivals[1..];
      AllParseBefore(arrivals, k);
      assert Stream(cfg, st, arrivals, None, events) == Stream(cfg, step.state, rest, None, step.events);
      StrictFirstError(cfg, step.state, rest, step.events, k - 1);
    }
  }

  /** A line that parses is handled the same under both policies. */
  lemma HandleIgnoresPolicy(cfg: HTSClientConfig, st: StreamState, a: Arrival, parsed: Result<ParsedPacket, ParseError>,
                            budget: Option<nat>, events: seq<StreamEvent>)
    requires parsed.Ok?
    ensures Handle(cfg.(errorPolicy := Strict), st, a, parsed, budget, events)
         == Handle(cfg.(errorPolicy := Tolerant), st, a, parsed, budget, events)
  {
    assert ClientPush(cfg.(errorPolicy := Strict), a, parsed.value) == ClientPush(cfg.(errorPolicy := Tolerant), a, parsed.value);
  }

  /** When every line parses, the two policies stream the same. */
  lemma {:induction false} PoliciesAgreeOnCleanInput(cfg: HTSClientConfig, st: StreamState, arrivals: seq<Arrival>,
                                                     budget: Option<nat>, events: seq<StreamEvent>)
    requires AllParse(arrivals)
    ensures Stream(cfg.(errorPolicy := Strict), st, arrivals, budget, events)
         == Stream(cfg.(errorPolicy := Tolerant), st, arrivals, budget, events)
    decreases |arrivals|
  {
    if arrivals != [] && !Exhausted(budget, |events|) {
      AllParseTail(arrivals);
      var strictCfg := cfg.(errorPolicy := Strict);
      var tolerantCfg := cfg.(errorPolicy := Tolerant);
      HandleIgnoresPolicy(cfg, st, arrivals[0], ParseLine(arrivals[0].line), budget, events);
      StreamUnfold(strictCfg, st, arrivals, budget, events);
      StreamUnfold(tolerantCfg, st, arrivals, budget, events);
      var step := LineStep(strictCfg, st, arrivals[0], budget, events);
      assert step == LineStep(tolerantCfg, st, arrivals[0], budget, events);
      if step.Continue? {
        var rest := arrivals[1..];
        PoliciesAgreeOnCleanInput(cfg, step.state, rest, budget, step.events);
        assert strictCfg.(errorPolicy := Strict) == strictCfg;
        assert cfg.(errorPolicy := Tolerant) == tolerantCfg;
      }
    }
  }

  /** One line of a tolerant stream with no budget: the assembler sees exactly the accepted packet. */
  lemma LineStepFrames(cfg: HTSClientConfig, st: StreamState, a: Arrival, events: seq<StreamEvent>)
    requires WantsFrames(cfg.output) && cfg.errorPolicy == Tolerant
    ensures var step := LineStep(cfg, st, a, None, events);
      var run := RunAssembler(st.view, Accepted(cfg, a), DefaultFrameIds);
      step.Continue? && step.state.view == run.0 && FramesOf(step.events) == FramesOf(events) + run.1
  {
    HandleOutcome(cfg, st, a, ParseLine(a.line), None, events);
    HandleFrames(cfg, st, a, ParseLine(a.line), events);
  }

  /**
   * With frames asked for, the tolerant policy and no budget, the frames the
   * stream yields and the assembler it leaves are those of the assembler run
   * on the packets that parse and pass the hand filter, in arrival order.
   */
  lemma {:induction false} StreamFramesAreAssembled(cfg: HTSClientConfig, st: StreamState, arrivals: seq<Arrival>,
                                                    events: seq<StreamEvent>)
    requires WantsFrames(cfg.output) && cfg.errorPolicy == Tolerant
    ensures var r := Stream(cfg, st, arrivals, None, events);
      var run := RunAssembler(st.view, AcceptedPushes(cfg, arrivals), DefaultFrameIds);
      r.state.view == run.0 && FramesOf(r.events) == FramesOf(events) + run.1
    decreases |arrivals|
  {
    if arrivals == [] {
      assert AcceptedPushes(cfg, arrivals) == [];
    } else {
      var a := arrivals[0];
      var rest := arrivals[1..];
      var step := LineStep(cfg, st, a, None, events);
      var acc := Accepted(cfg, a);
      var tail := AcceptedPushes(cfg, rest);
      var first := RunAssembler(st.view, acc, DefaultFrameIds);
      LineStepFrames(cfg, st, a, events);
      var r := Stream(cfg, step.state, rest, None, step.events);
      assert Stream(cfg, st, arrivals, None, events) == r by {
        StreamUnfold(cfg, st, arrivals, None, events);
      }
      StreamFramesAreAssembled(cfg, step.state, rest, step.events);
      assert AcceptedPushes(cfg, arrivals) == acc + tail;
      ComposeRuns(st.view, acc, tail, FramesOf(events), FramesOf(step.events), FramesOf(r.events), r.state.view);
    }
  }

  /** The frame bookkeeping of one induction step: a first run, then a second from where it left off. */
  lemma ComposeRuns(v: AssemblerView, acc: seq<Push>, tail: seq<Push>,
                    f0: seq<HandFrame>, f1: seq<HandFrame>, f2: seq<HandFrame>, view: AssemblerView)
    requires var first := RunAssembler(v, acc, DefaultFrameIds);
      var second := RunAssembler(first.0, tail, DefaultFrameIds);
      f1 == f0 + first.1 && view == second.0 && f2 == f1 + second.1
    ensures var run := RunAssembler(v, acc + tail, DefaultFrameIds);
      view == run.0 && f2 == f0 + run.1
  {
    var first := RunAssembler(v, acc, DefaultFrameIds);
    var second := RunAssembler(first.0, tail, DefaultFrameIds);
    assert f2 == f0 + (first.1 + second.1) by {
      assert f0 + first.1 + second.1 == f0 + (first.1 + second.1);
    }
    RunAssemblerConcat(v, acc, tail, DefaultFrameIds);
  }

  /** Running the assembler on two batches in turn is running it on both. */
  lemma {:induction false} RunAssemblerConcat(v: AssemblerView, a: seq<Push>, b: seq<Push>, frameIds: map<HandSide, string>)
    requires Left in frameIds && Right in frameIds
    ensures var first := RunAssembler(v, a, frameIds);
      var second := RunAssembler(first.0, b, frameIds);
      RunAssembler(v, a + b, frameIds) == (second.0, first.1 + second.1)
    decreases |a|
  {
    if a == [] {
      assert a + b == b;
      var second := RunAssembler(v, b, frameIds);
      assert [] + second.1 == second.1;
    } else {
      assert (a + b)[0] == a[0];
      assert (a + b)[1..] == a[1..] + b;
      var step := PushAssembler(v, a[0], frameIds);
      var emitted: seq<HandFrame> := if step.1.Some? then [step.1.value] else [];
      RunAssemblerConcat(step.0, a[1..], b, frameIds);
      var tailRun := RunAssembler(step.0, a[1..], frameIds);
      assert RunAssembler(v, a, frameIds) == (tailRun.0, emitted + tailRun.1);
      var whole := RunAssembler(step.0, a[1..] + b, frameIds);
      assert RunAssembler(v, a + b, frameIds) == (whole.0, emitted + whole.1);
      var second := RunAssembler(tailRun.0, b, frameIds);
      assert emitted + (tailRun.1 + second.1) == (emitted + tailRun.1) + second.1;
    }
  }

  lemma PrefixTake<T>(x: seq<T>, y: seq<T>)
    requires x <= y
    ensures y[..|x|] == x
  {
  }

  /**
   * One line with a budget of b events, of which fewer than b are used:
   * either the line is handled as with no budget, or the budget runs out
   * right after the line's packet, which the unlimited stream yields too.
   */
  lemma HandleBudget(cfg: HTSClientConfig, st: StreamState, a: Arrival, parsed: Result<ParsedPacket, ParseError>,
                     b: nat, events: seq<StreamEvent>)
    requires |events| < b
    ensures var limited := Handle(cfg, st, a, parsed, Some(b), events);
      var full := Handle(cfg, st, a, parsed, None, events);
      (limited == full && (limited.Continue? ==> |limited.events| <= b)
       && (limited.Halt? ==> |limited.result.events| < b))
      || (limited.Halt? && limited.result.error.None? && |limited.result.events| == b
          && full.Continue? && limited.result.events <= full.events)
  {
  }

  /** What a consumer limited to b events sees of the full stream. */
  predicate SeesPrefix(limited: StreamResult, full: StreamResult, b: nat) {
    (|full.events| < b ==> limited == full)
    && (|full.events| >= b ==> limited.events == full.events[..b] && limited.error.None?)
  }

  /**
   * A consumer that stops after b events sees the first b events of the
   * unlimited stream; when the stream has fewer, it sees the same stream.
   */
  lemma {:induction false} BudgetIsPrefix(cfg: HTSClientConfig, st: StreamState, arrivals: seq<Arrival>,
                                          b: nat, events: seq<StreamEvent>)
    requires |events| <= b
    ensures SeesPrefix(Stream(cfg, st, arrivals, Some(b), events), Stream(cfg, st, arrivals, None, events), b)
    decreases |arrivals|
  {
    var limited := Stream(cfg, st, arrivals, Some(b), events);
    var full := Stream(cfg, st, arrivals, None, events);
    assert events <= full.events by {
      StreamStats(cfg, st, arrivals, None, events);
    }
    if arrivals != [] && |events| < b {
      var a := arrivals[0];
      var lstep := LineStep(cfg, st, a, Some(b), events);
      var fstep := LineStep(cfg, st, a, None, events);
      assert (lstep == fstep && (lstep.Continue? ==> |lstep.events| <= b)
              && (lstep.Halt? ==> |lstep.result.events| < b))
             || (lstep.Halt? && lstep.result.error.None? && |lstep.result.events| == b
                 && fstep.Continue? && lstep.result.events <= fstep.events) by {
        HandleBudget(cfg, st, a, ParseLine(a.line), b, events);
      }
      assert limited == if lstep.Halt? then lstep.result else Stream(cfg, lstep.state, arrivals[1..], Some(b), lstep.events) by {
        StreamUnfold(cfg, st, arrivals, Some(b), events);
      }
      assert full == if fstep.Halt? then fstep.result else Stream(cfg, fstep.state, arrivals[1..], None, fstep.events) by {
        StreamUnfold(cfg, st, arrivals, None, events);
      }
      if lstep != fstep {
        assert fstep.events <= full.events by {
          StreamStats(cfg, fstep.state, arrivals[1..], None, fstep.events);
        }
        assert limited == lstep.result && |limited.events| == b && limited.error.None?;
        PrefixTake(limited.events, full.events);
        assert SeesPrefix(limited, full, b);
      } else if lstep.Continue? {
        BudgetIsPrefix(cfg, lstep.state, arrivals[1..], b, lstep.events);
        assert SeesPrefix(limited, full, b);
      } else {
        assert limited == full && |full.events| < b;
      }
    } else if |events| == b {
      assert limited == StreamResult(st, events, None);
      PrefixTake(events, full.events);
      assert SeesPrefix(limited, full, b);
    } else {
      assert limited == full && full == StreamResult(st, events, None);
    }
  }

  /** A parse error is raised only while the consumer still wants events. */
  lemma {:induction false} ErrorUnderBudget(cfg: HTSClientConfig, st: StreamState, arrivals: seq<Arrival>,
                                            budget: Option<nat>, events: seq<StreamEvent>)
    ensures var r := Stream(cfg, st, arrivals, budget, events);
      r.error.Some? ==> !Exhausted(budget, |r.events|)
    decreases |arrivals|
  {
    if arrivals != [] && !Exhausted(budget, |events|) {
      var step := LineStep(cfg, st, arrivals[0], budget, events);
      assert step.Halt? && step.result.error.Some? ==> step.result.events == events by {
        HandleOutcome(cfg, st, arrivals[0], ParseLine(arrivals[0].line), budget, events);
      }
      StreamUnfold(cfg, st, arrivals, budget, events);
      if step.Continue? {
        ErrorUnderBudget(cfg, step.state, arrivals[1..], budget, step.events);
      }
    }
  }

  // ---------------------------------------------------------------- run

  /** How `run` ends: it returns its count, or a parse error or the callback's exception escapes. */
  datatype RunOutcome = Returned(count: nat) | ParseFailed(error: ParseError) | CallbackFailed(wrapped: bool)

  /**
   * How many events `run` asks the generator for: the invocation that
   * raises is the last, and `max_events` is compared after the count is
   * incremented, so a cap below one still lets one event through.
   */
  function RunBudget(maxEvents: Option<int>, failingCall: Option<nat>): (r: Option<nat>)
    ensures r.None? <==> maxEvents.None? && failingCall.None?
    ensures maxEvents.Some? ==> r.Some? && r.value <= Cap(maxEvents.value)
    ensures failingCall.Some? ==> r.Some? && r.value <= failingCall.value + 1
    ensures r.Some? ==>
      r.value >= 1
      && ((failingCall.Some? && r.value == failingCall.value + 1)
          || (maxEvents.Some? && r.value == Cap(maxEvents.value)))
  {
    var cap: Option<nat> := if maxEvents.Some? then Some(Cap(maxEvents.value)) else None;
    if failingCall.None? then cap
    else if cap.None? || failingCall.value + 1 < cap.value then Some(failingCall.value + 1)
    else cap
  }

  /** The number of events after which `processed >= max_events` first holds. */
  function Cap(m: int): (n: nat)
    ensures n >= 1 && n >= m && (m >= 1 ==> n == m)
  {
    if m < 1 then 1 else m
  }

  /**
   * What the demand of `run` tells about the generator's output: no more
   * events than the cap or the failing invocation allow, and a parse error
   * only before either is reached.
   */
  lemma DemandBounds(maxEvents: Option<int>, failingCall: Option<nat>, n: nat, failed: bool)
    requires var budget := RunBudget(maxEvents, failingCall);
      (budget.Some? ==> n <= budget.value) && (failed ==> !Exhausted(budget, n))
    ensures maxEvents.Some? ==> n <= Cap(maxEvents.value) && (failed ==> n < Cap(maxEvents.value))
    ensures failingCall.Some? ==> n <= failingCall.value + 1 && (failed ==> n <= failingCall.value)
  {
  }

  /**
   * `run(callback, max_events=…, wrap_callback_exceptions=wrap)` from state
   * `st`, where `failingCall` is the index of the first callback invocation
   * that raises, if any: the final state and how the call ends.
   */
  function RunSpec(cfg: HTSClientConfig, st: StreamState, arrivals: seq<Arrival>, maxEvents: Option<int>,
                   failingCall: Option<nat>, wrap: bool): (StreamState, RunOutcome)
  {
    Deliver(Stream(cfg, st, arrivals, RunBudget(maxEvents, failingCall), []), failingCall, wrap)
  }

  /** The callbacks over what the generator gave: the invocation at `failingCall` raises. */
  function Deliver(r: StreamResult, failingCall: Option<nat>, wrap: bool): (StreamState, RunOutcome) {
    var n := |r.events|;
    var s := r.state.stats;
    if failingCall.Some? && failingCall.value < n then
      (StreamState(s.(callbacksInvoked := s.callbacksInvoked + failingCall.value,
                      callbackErrors := s.callbackErrors + 1), r.state.view),
       CallbackFailed(wrap))
    else
      var done := StreamState(s.(callbacksInvoked := s.callbacksInvoked + n), r.state.view);
      if r.error.Some? then (done, ParseFailed(r.error.value)) else (done, Returned(n))
  }

  /**
   * With no cap and a callback that never raises, `run` delivers every event
   * of the stream: it returns their number, or the stream's parse error, and
   * counts one callback per event.
   */
  lemma RunUnlimited(cfg: HTSClientConfig, st: StreamState, arrivals: seq<Arrival>, wrap: bool)
    ensures var full := Stream(cfg, st, arrivals, None, []);
      var (after, outcome) := RunSpec(cfg, st, arrivals, None, None, wrap);
      outcome == (if full.error.Some? then ParseFailed(full.error.value) else Returned(|full.events|))
      && after.view == full.state.view
      && after.stats == full.state.stats.(callbacksInvoked := full.state.stats.callbacksInvoked + |full.events|)
  {
  }

  /**
   * With a cap of m events and a callback that never raises, `run` stops
   * after max(m, 1) events when the stream has that many, and otherwise
   * ends as the whole stream does.
   */
  lemma RunStopsAtCap(cfg: HTSClientConfig, st: StreamState, arrivals: seq<Arrival>, m: int, wrap: bool)
    ensures var cap := Cap(m);
      var full := Stream(cfg, st, arrivals, None, []);
      var outcome := RunSpec(cfg, st, arrivals, Some(m), None, wrap).1;
      (|full.events| >= cap ==> outcome == Returned(cap))
      && (|full.events| < cap ==>
            outcome == if full.error.Some? then ParseFailed(full.error.value) else Returned(|full.events|))
  {
    var cap := Cap(m);
    assert RunBudget(Some(m), None) == Some(cap);
    BudgetIsPrefix(cfg, st, arrivals, cap, []);
  }

  /** A callback that raises before the cap is reached ends the demand right after its event. */
  lemma FailingCallBudget(maxEvents: Option<int>, k: nat)
    requires maxEvents.Some? ==> k < maxEvents.value
    ensures RunBudget(maxEvents, Some(k)) == Some(k + 1)
  {
  }

  /**
   * When the callback raises at invocation k and neither the cap nor the end
   * of the stream comes first, `run` fails after k successful callbacks and
   * one callback error, wrapped or not as asked.
   */
  lemma RunCallbackFails(cfg: HTSClientConfig, st: StreamState, arrivals: seq<Arrival>,
                         maxEvents: Option<int>, k: nat, wrap: bool)
    requires maxEvents.Some? ==> k < maxEvents.value
    requires k < |Stream(cfg, st, arrivals, None, []).events|
    ensures var (after, outcome) := RunSpec(cfg, st, arrivals, maxEvents, Some(k), wrap);
      outcome == CallbackFailed(wrap)
      && after.stats.callbacksInvoked == st.stats.callbacksInvoked + k
      && after.stats.callbackErrors == st.stats.callbackErrors + 1
  {
    FailingCallBudget(maxEvents, k);
    var r := Stream(cfg, st, arrivals, Some(k + 1), []);
    assert |r.events| == k + 1 by {
      BudgetIsPrefix(cfg, st, arrivals, k + 1, []);
    }
    assert r.state.stats.callbacksInvoked == st.stats.callbacksInvoked
           && r.state.stats.callbackErrors == st.stats.callbackErrors by {
      StreamStats(cfg, st, arrivals, Some(k + 1), []);
    }
  }

  /** A `run` that returns has invoked the callback once per event it counted, and none raised. */
  lemma RunReturnCounts(cfg: HTSClientConfig, st: StreamState, arrivals: seq<Arrival>, maxEvents: Option<int>,
                        failingCall: Option<nat>, wrap: bool)
    ensures var (after, outcome) := RunSpec(cfg, st, arrivals, maxEvents, failingCall, wrap);
      outcome.Returned? ==>
        after.stats.callbacksInvoked == st.stats.callbacksInvoked + outcome.count
        && after.stats.callbackErrors == st.stats.callbackErrors
        && (maxEvents.Some? ==> outcome.count <= Cap(maxEvents.value))
        && (failingCall.Some? ==> outcome.count <= failingCall.value)
  {
    var budget := RunBudget(maxEvents, failingCall);
    var r := Stream(cfg, st, arrivals, budget, []);
    StreamStats(cfg, st, arrivals, budget, []);
    if budget.Some? {
      BudgetIsPrefix(cfg, st, arrivals, budget.value, []);
    }
  }

  // ------------------------------------------------------------- client

  /**
   * What `_parse_with_policy` hands back for a parse: the packet, or
   * nothing; and the error it raises, which only the strict policy does.
   */
  function PolicyOutcome(policy: ErrorPolicy, parsed: Result<ParsedPacket, ParseError>): (Option<ParsedPacket>, Option<ParseError>) {
    if parsed.Ok? then (Some(parsed.value), None)
    else (None, if policy == Strict then Some(parsed.error) else None)
  }

  /** The counters after `_parse_with_policy`: a failed parse is a parse error and a dropped line. */
  function CountParse(s: ClientStats, parsed: Result<ParsedPacket, ParseError>): ClientStats {
    if parsed.Ok? then s else s.(parseErrors := s.parseErrors + 1, droppedLines := s.droppedLines + 1)
  }

  /** `HTSClient`: the configuration, one frame assembler and the counters. */
  class HTSClient {
    const config: HTSClientConfig
    const assembler: HandFrameAssembler
    var stats: ClientStats

    /** The assembler was built from the configuration, with the default frame identifiers. */
    ghost predicate Valid()
      reads this, assembler, assembler.left, assembler.right
    {
      assembler.Valid()
      && assembler.includeWallTime == config.includeWallTime
      && assembler.frameIdBySide == DefaultFrameIds
    }

    function State(): StreamState
      reads this, assembler, assembler.left, assembler.right
    {
      StreamState(stats, assembler.View())
    }

    constructor (config: HTSClientConfig)
      requires ValidConfig(config)
      ensures Valid() && this.config == config
      ensures State() == StreamState(ZeroStats, InitialAssembler)
      ensures fresh(assembler) && fresh(assembler.left) && fresh(assembler.right)
    {
      this.config := config;
      var frames := new HandFrameAssembler(config.includeWallTime, None);
      assert DefaultFrameIds + map[] == DefaultFrameIds;
      assembler := frames;
      stats := ZeroStats;
    }

    /** `_parse_with_policy`: a failed parse is counted, then raised or swallowed. */
    method ParseWithPolicy(line: string) returns (packet: Option<ParsedPacket>, error: Option<ParseError>)
      modifies this
      ensures (packet, error) == PolicyOutcome(config.errorPolicy, ParseLine(line))
      ensures stats == CountParse(old(stats), ParseLine(line))
    {
      var parsed := ParseLine(line);
      if parsed.Ok? {
        return Some(parsed.value), None;
      }
      stats := stats.(parseErrors := stats.parseErrors + 1, droppedLines := stats.droppedLines + 1);
      if config.errorPolicy == Strict {
        return None, Some(parsed.error);
      }
      return None, None;
    }

    /**
     * One pass of the loop body of `iter_events`, for a consumer that takes
     * at most `demand` events and has taken `count`; `halted` says the
     * generator does not come back for the next line.
     */
    method ReceiveLine(a: Arrival, demand: Option<nat>, count: nat, ghost events: seq<StreamEvent>)
      returns (yielded: seq<StreamEvent>, halted: bool, error: Option<ParseError>)
      requires Valid() && count == |events|
      modifies this, assembler.left, assembler.right
      ensures Valid()
      ensures Realises(LineStep(config, old(State()), a, demand, events), State(), events, yielded, halted, error)
    {
      ghost var before := State();
      stats := stats.(linesReceived := stats.linesReceived + 1);
      var packet, failure := ParseWithPolicy(a.line);
      yielded, halted, error := Route(a, packet, failure, demand, count, events, before, ParseLine(a.line));
    }

    /** The loop body of `iter_events` after `_parse_with_policy` returned, or raised. */
    method Route(a: Arrival, packet: Option<ParsedPacket>, failure: Option<ParseError>, demand: Option<nat>,
                 count: nat, ghost events: seq<StreamEvent>, ghost before: StreamState,
                 ghost parsed: Result<ParsedPacket, ParseError>)
      returns (yielded: seq<StreamEvent>, halted: bool, error: Option<ParseError>)
      requires Valid() && count == |events| && assembler.View() == before.view
      requires (packet, failure) == PolicyOutcome(config.errorPolicy, parsed)
      requires stats == CountParse(before.stats.(linesReceived := before.stats.linesReceived + 1), parsed)
      modifies this, assembler.left, assembler.right
      ensures Valid()
      ensures Realises(Handle(config, before, a, parsed, demand, events), State(), events, yielded, halted, error)
    {
      ghost var step := Handle(config, before, a, parsed, demand, events);
      if failure.Some? {
        assert step == Halt(StreamResult(State(), events, failure));
        return [], true, failure;
      }
      if packet.None? {
        assert step == Continue(State(), events);
        return [], false, None;
      }
      var p := packet.value;
      if !MatchesHandFilter(config.handFilter, p.side) {
        stats := stats.(packetsFiltered := stats.packetsFiltered + 1, droppedLines := stats.droppedLines + 1);
        assert step == Continue(State(), events);
        return [], false, None;
      }
      HandleAccepts(config, before, a, p, demand, events);
      yielded, halted := AcceptPacket(a, p, demand, count, events);
      error := None;
    }

    /** The rest of the loop body of `iter_events`, for a packet that passed the hand filter. */
    method AcceptPacket(a: Arrival, p: ParsedPacket, demand: Option<nat>, count: nat, ghost events: seq<StreamEvent>)
      returns (yielded: seq<StreamEvent>, halted: bool)
      requires Valid() && count == |events|
      modifies this, assembler.left, assembler.right
      ensures Valid()
      ensures Realises(Accept(config, old(State()), a, p, demand, events), State(), events, yielded, halted, None)
    {
      ghost var before := State();
      AcceptCases(config, before, a, p, demand, events);
      yielded := [];
      if WantsPackets(config.output) {
        stats := stats.(packetsEmitted := stats.packetsEmitted + 1);
        yielded := [PacketEvent(p)];
      }
      assert stats == CountPacket(config, before.stats) && yielded == PacketYield(config, p);
      if Exhausted(demand, count + |yielded|) {
        // the consumer stops at this yield: the packet never reaches the assembler
        return yielded, true;
      }
      halted := false;
      if WantsFrames(config.output) {
        assert assembler.View() == before.view;
        var more := AssembleFrame(a, p);
        yielded := yielded + more;
      }
    }

    /**
     * `self._frame_assembler.push_packet(packet)`, with the line's clock
     * readings, and the frame event it gives rise to.
     */
    method AssembleFrame(a: Arrival, p: ParsedPacket) returns (yielded: seq<StreamEvent>)
      requires Valid()
      modifies this, assembler.left, assembler.right
      ensures Valid()
      ensures var push := PushAssembler(old(assembler.View()), ClientPush(config, a, p), DefaultFrameIds);
        State() == StreamState(CountFrame(old(stats), push.1), push.0) && yielded == FrameYield(push.1)
    {
      var frame := assembler.PushPacket(p, None, None, None, a.monotonicNs, a.wallNs);
      if frame.Some? {
        stats := stats.(framesEmitted := stats.framesEmitted + 1);
      }
      yielded := FrameYield(frame);
    }

    /**
     * `iter_events` over the arrivals, for a consumer that asks for at most
     * `demand` events: the events yielded, and the parse error raised, if any.
     */
    method IterEvents(arrivals: seq<Arrival>, demand: Option<nat>) returns (events: seq<StreamEvent>, error: Option<ParseError>)
      requires Valid()
      modifies this, assembler.left, assembler.right
      ensures Valid()
      ensures var r := Stream(config, old(State()), arrivals, demand, []);
        State() == r.state && events == r.events && error == r.error
    {
      events, error := [], None;
      var i := 0;
      while i < |arrivals| && !Exhausted(demand, |events|)
        invariant Valid() && i <= |arrivals|
        invariant Stream(config, old(State()), arrivals, demand, []) == Stream(config, State(), arrivals[i..], demand, events)
        decreases |arrivals| - i
      {
        ghost var before := State();
        StreamUnfold(config, before, arrivals[i..], demand, events);
        assert arrivals[i..][0] == arrivals[i] && arrivals[i..][1..] == arrivals[i + 1..];
        var yielded, halted, failure := ReceiveLine(arrivals[i], demand, |events|, events);
        events := events + yielded;
        if halted {
          return events, failure;
        }
        i := i + 1;
      }
    }

    /**
     * `run`: the events of the stream go to the callback one by one;
     * `failingCall` is the index of the first invocation that raises.
     */
    method Run(arrivals: seq<Arrival>, maxEvents: Option<int>, failingCall: Option<nat>, wrap: bool)
      returns (outcome: RunOutcome)
      requires Valid()
      modifies this, assembler.left, assembler.right
      ensures Valid()
      ensures (State(), outcome) == RunSpec(config, old(State()), arrivals, maxEvents, failingCall, wrap)
    {
      ghost var start := State();
      var budget := RunBudget(maxEvents, failingCall);
      var events, error := IterEvents(arrivals, budget);
      ghost var r := Stream(config, start, arrivals, budget, []);
      ErrorUnderBudget(config, start, arrivals, budget, []);
      if budget.Some? {
        BudgetIsPrefix(config, start, arrivals, budget.value, []);
      }
      DemandBounds(maxEvents, failingCall, |events|, error.Some?);
      outcome := Callbacks(events, error, maxEvents, failingCall, wrap, r);
    }

    /** The loop of `run` over the events the generator yields, then the error it raises, if any. */
    method Callbacks(events: seq<StreamEvent>, error: Option<ParseError>, maxEvents: Option<int>,
                     failingCall: Option<nat>, wrap: bool, ghost r: StreamResult)
      returns (outcome: RunOutcome)
      requires Valid() && State() == r.state && events == r.events && error == r.error
      requires maxEvents.Some? ==> |events| <= Cap(maxEvents.value) && (error.Some? ==> |events| < Cap(maxEvents.value))
      requires failingCall.Some? ==> |events| <= failingCall.value + 1 && (error.Some? ==> |events| <= failingCall.value)
      modifies this
      ensures Valid()
      ensures (State(), outcome) == Deliver(r, failingCall, wrap)
    {
      var processed := 0;
      while processed < |events|
        invariant Valid() && processed <= |events| && assembler.View() == r.state.view
        invariant stats == r.state.stats.(callbacksInvoked := r.state.stats.callbacksInvoked + processed)
        invariant failingCall.Some? ==> processed <= failingCall.value
        invariant maxEvents.Some? ==> processed == 0 || processed < maxEvents.value
      {
        if failingCall == Some(processed) {
          stats := stats.(callbackErrors := stats.callbackErrors + 1);
          return CallbackFailed(wrap);
        }
        processed := processed + 1;
        stats := stats.(callbacksInvoked := stats.callbacksInvoked + 1);
        if maxEvents.Some? && processed >= maxEvents.value {
          return Returned(processed);
        }
      }
      if error.Some? {
        return ParseFailed(error.value);
      }
      return Returned(processed);
    }

    /** `get_stats`. */
    method GetStats() returns (s: ClientStats)
      ensures s == stats
    {
      return stats;
    }

    /** `reset_stats`: the counters start again from zero; the assembler keeps its state. */
    method ResetStats()
      modifies this
      ensures State() == StreamState(ZeroStats, old(State()).view)
    {
      stats := ZeroStats;
    }
  }
}
