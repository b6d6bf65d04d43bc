/**
 Two-phase crop detection (pkg/ffmpeg/cropdetect.go): packets feed a decoder, decoded
 frames are sampled into the cropdetect filter, and the filter's measurements move a
 convergence counter. The decoder and the filter are queues: what a packet decodes to
 and what a forwarded frame makes the filter emit is given with the packet.
 */
module CropDetect {
  import opened Wrappers

  const KEYFRAME_SWITCH_COUNT := 200
  const ALWAYS_INCLUDE_COUNT := 3
  const SAMPLE_INTERVAL := 20
  const STABILITY_THRESHOLD := 5

  datatype Crop = Crop(w: int, h: int, x: int, y: int)

  /** What a filter output frame carries; `Missing` when a key is absent or unparsable. */
  datatype Metadata = Missing | Metadata(w: int, h: int, x: int, y: int)

  function Parse(m: Metadata): (c: Option<Crop>)
    ensures c.Some? ==> c.value.w > 0 && c.value.h > 0
  {
    if m.Missing? || m.w <= 0 || m.h <= 0 then None else Some(Crop(m.w, m.h, m.x, m.y))
  }

  /** A decoded frame, with the filter outputs that forwarding it makes available. */
  datatype Frame = Frame(outputs: seq<Metadata>)

  datatype Packet = Packet(isVideo: bool, isKey: bool, frames: seq<Frame>)

  /** A file: its packets, what flushing the decoder yields, what flushing the filter yields. */
  datatype Input = Input(packets: seq<Packet>, flushed: seq<Frame>, drained: seq<Metadata>)

  /** A parsed measurement and whether it was made in phase 2. */
  datatype Measurement = Measurement(crop: Crop, phase2: bool)

  datatype State = State(
    result: Crop,
    haveCrop: bool,
    frameCounter: nat,
    consecutiveStable: nat,
    inPhase2: bool,
    decoder: seq<Frame>,
    filter: seq<Metadata>,
    parsed: seq<Measurement>,   // history: every measurement parsed
    forwarded: nat)             // history: frames sent to the filter

  const INITIAL := State(Crop(0, 0, 0, 0), false, 0, 0, false, [], [], [], 0)

  /** One output taken from the filter. */
  function TakeOutput(s: State): State
    requires s.filter != []
  {
    var rest := s.(filter := s.filter[1..]);
    match Parse(s.filter[0])
    case None => rest
    case Some(c) =>
      rest.(result := c, haveCrop := true,
            consecutiveStable := if !s.inPhase2 then s.consecutiveStable
                                 else if s.haveCrop && c == s.result then s.consecutiveStable + 1
                                 else 1,
            parsed := s.parsed + [Measurement(c, s.inPhase2)])
  }

  /** That output ends the drain: it repeats the result and completes the stable run. */
  predicate Converges(s: State)
    requires s.filter != []
  {
    && s.inPhase2 && s.haveCrop && Parse(s.filter[0]) == Some(s.result)
    && s.consecutiveStable + 1 >= STABILITY_THRESHOLD
  }

  datatype Drained = Drained(state: State, converged: bool)

  function DrainFilter(s: State): Drained
    decreases |s.filter|
  {
    if s.filter == [] then Drained(s, false)
    else if Converges(s) then Drained(TakeOutput(s), true)
    else DrainFilter(TakeOutput(s))
  }

  predicate Forwards(i: nat) {
    i >= KEYFRAME_SWITCH_COUNT || i < ALWAYS_INCLUDE_COUNT || i % SAMPLE_INTERVAL == 0
  }

  /** One frame taken from the decoder, its phase recorded, and sent to the filter if sampled. */
  function TakeFrame(s: State): State
    requires s.decoder != []
  {
    s.(decoder := s.decoder[1..],
       inPhase2 := s.frameCounter >= KEYFRAME_SWITCH_COUNT,
       frameCounter := s.frameCounter + 1,
       filter := if Forwards(s.frameCounter) then s.filter + s.decoder[0].outputs else s.filter,
       forwarded := if Forwards(s.frameCounter) then s.forwarded + 1 else s.forwarded)
  }

  function DrainDecoder(s: State): Drained
    decreases |s.decoder|
  {
    if s.decoder == [] then Drained(s, false)
    else if !Forwards(s.frameCounter) then DrainDecoder(TakeFrame(s))
    else
      var d := DrainFilter(TakeFrame(s));
      DrainFilterKeepsDecoder(TakeFrame(s));
      if d.converged then d else DrainDecoder(d.state)
  }

  lemma {:induction false} DrainFilterKeepsDecoder(s: State)
    ensures DrainFilter(s).state.decoder == s.decoder
    decreases |s.filter|
  {
    if s.filter != [] && !Converges(s) {
      DrainFilterKeepsDecoder(TakeOutput(s));
    }
  }

  /** Packets of other streams, and non-keyframes once phase 2 has begun, never reach the decoder. */
  predicate Skipped(s: State, p: Packet) {
    !p.isVideo || (s.frameCounter >= KEYFRAME_SWITCH_COUNT && !p.isKey)
  }

  function ReadPackets(s: State, packets: seq<Packet>): Drained
    decreases |packets|
  {
    if packets == [] then Drained(s, false)
    else if Skipped(s, packets[0]) then ReadPackets(s, packets[1..])
    else
      var d := DrainDecoder(s.(decoder := s.decoder + packets[0].frames));
      if d.converged then d else ReadPackets(d.state, packets[1..])
  }

  /** The whole run; `converged` tells whether reading stopped early. */
  function Detect(input: Input): Drained {
    var read := ReadPackets(INITIAL, input.packets);
    var flushed := DrainDecoder(read.state.(decoder := read.state.decoder + input.flushed)).state;
    Drained(DrainFilter(flushed.(filter := flushed.filter + input.drained)).state, read.converged)
  }

  // --- What the counters mean ---

  function Phase2(ms: seq<Measurement>): seq<Crop> {
    if ms == [] then []
    else Phase2(ms[..|ms| - 1]) + if ms[|ms| - 1].phase2 then [ms[|ms| - 1].crop] else []
  }

  /** Length of the longest constant suffix. */
  function ConstantSuffix(xs: seq<Crop>): (n: nat)
    ensures n <= |xs| && (xs != [] ==> n > 0)
  {
    if xs == [] then 0
    else if |xs| > 1 && xs[|xs| - 1] == xs[|xs| - 2] then 1 + ConstantSuffix(xs[..|xs| - 1])
    else 1
  }

  /** It is constant, and the entry before it differs. */
  lemma {:induction false} ConstantSuffixIsLongest(xs: seq<Crop>)
    requires xs != []
    ensures var n := ConstantSuffix(xs);
            && (forall i :: |xs| - n <= i < |xs| ==> xs[i] == xs[|xs| - 1])
            && (n < |xs| ==> xs[|xs| - n - 1] != xs[|xs| - 1])
  {
    if |xs| > 1 && xs[|xs| - 1] == xs[|xs| - 2] {
      ConstantSuffixIsLongest(xs[..|xs| - 1]);
    }
  }

  function CountForwarded(n: nat): nat {
    if n == 0 then 0 else CountForwarded(n - 1) + if Forwards(n - 1) then 1 else 0
  }

  /** The sampling schedule in closed form, across both phases. */
  lemma {:induction false} ForwardedClosedForm(n: nat)
    requires n >= 1
    ensures CountForwarded(n) ==
            if n <= KEYFRAME_SWITCH_COUNT
            then (if n < ALWAYS_INCLUDE_COUNT then n else ALWAYS_INCLUDE_COUNT) + (n - 1) / SAMPLE_INTERVAL
            else 12 + (n - KEYFRAME_SWITCH_COUNT)
  {
    if n > 1 {
      ForwardedClosedForm(n - 1);
    }
  }

  // --- The invariant ---

  ghost predicate Invariant(s: State) {
    && (s.haveCrop <==> s.parsed != [])
    && (s.haveCrop ==> s.result == s.parsed[|s.parsed| - 1].crop)
    && s.consecutiveStable == ConstantSuffix(Phase2(s.parsed))
    && s.forwarded == CountForwarded(s.frameCounter)
    && (s.inPhase2 <==> s.frameCounter > KEYFRAME_SWITCH_COUNT)
    && PhasesInOrder(s.parsed, s.inPhase2)
  }

  /** Phase-2 measurements come last, and only once phase 2 has begun. */
  ghost predicate PhasesInOrder(ms: seq<Measurement>, inPhase2: bool) {
    && (!inPhase2 ==> forall i :: 0 <= i < |ms| ==> !ms[i].phase2)
    && (forall i, j :: 0 <= i <= j < |ms| && ms[i].phase2 ==> ms[j].phase2)
  }

  lemma {:induction false} NoPhase2(ms: seq<Measurement>)
    requires forall i :: 0 <= i < |ms| ==> !ms[i].phase2
    ensures Phase2(ms) == []
  {
    if ms != [] {
      NoPhase2(ms[..|ms| - 1]);
    }
  }

  /** The last phase-2 measurement is the last measurement, once there is one. */
  lemma LastPhase2(ms: seq<Measurement>)
    requires PhasesInOrder(ms, true)
    ensures Phase2(ms) != [] ==> Phase2(ms)[|Phase2(ms)| - 1] == ms[|ms| - 1].crop
  {
    if ms != [] && !ms[|ms| - 1].phase2 {
      NoPhase2(ms);
    }
  }

  /** The counter after one more measurement is the constant suffix after it. */
  lemma StableSnoc(ms: seq<Measurement>, c: Crop, inPhase2: bool)
    requires PhasesInOrder(ms, inPhase2)
    ensures ConstantSuffix(Phase2(ms + [Measurement(c, inPhase2)]))
         == if !inPhase2 then ConstantSuffix(Phase2(ms))
            else if ms != [] && c == ms[|ms| - 1].crop then ConstantSuffix(Phase2(ms)) + 1
            else 1
  {
    var xs := Phase2(ms);
    LastPhase2(ms);
    if inPhase2 {
    } else {
      assert xs + [] == xs;
    }
  }

  lemma PhasesSnoc(ms: seq<Measurement>, m: Measurement, inPhase2: bool)
    requires PhasesInOrder(ms, inPhase2) && m.phase2 == inPhase2
    ensures PhasesInOrder(ms + [m], inPhase2)
  {
  }

  lemma RecordKeepsInvariant(s: State, c: Crop)
    requires Invariant(s) && s.filter != [] && Parse(s.filter[0]) == Some(c)
    ensures Invariant(TakeOutput(s))
  {
    StableSnoc(s.parsed, c, s.inPhase2);
    PhasesSnoc(s.parsed, Measurement(c, s.inPhase2), s.inPhase2);
    assert TakeOutput(s).parsed == s.parsed + [Measurement(c, s.inPhase2)];
  }

  lemma TakeOutputKeepsInvariant(s: State)
    requires Invariant(s) && s.filter != []
    ensures Invariant(TakeOutput(s))
    ensures Converges(s) ==> TakeOutput(s).consecutiveStable >= STABILITY_THRESHOLD
  {
    var c := Parse(s.filter[0]);
    if c.Some? {
      RecordKeepsInvariant(s, c.value);
    }
  }

  /** The crop found when a drain reports convergence. */
  ghost predicate Settled(d: Drained) {
    && Invariant(d.state)
    && (d.converged ==> d.state.consecutiveStable >= STABILITY_THRESHOLD && d.state.inPhase2)
  }

  lemma {:induction false} DrainFilterSettles(s: State)
    requires Invariant(s)
    ensures Settled(DrainFilter(s))
    ensures !DrainFilter(s).converged ==> DrainFilter(s).state.filter == []
    ensures DrainFilter(s).state.frameCounter == s.frameCounter
    decreases |s.filter|
  {
    if s.filter != [] {
      TakeOutputKeepsInvariant(s);
      if !Converges(s) {
        DrainFilterSettles(TakeOutput(s));
      }
    }
  }

  lemma {:induction false} DrainDecoderSettles(s: State)
    requires Invariant(s)
    ensures Settled(DrainDecoder(s))
    ensures !DrainDecoder(s).converged ==> DrainDecoder(s).state.decoder == []
    ensures !DrainDecoder(s).converged && s.filter == [] ==> DrainDecoder(s).state.filter == []
    decreases |s.decoder|
  {
    if s.decoder != [] {
      assert Invariant(TakeFrame(s));
      if !Forwards(s.frameCounter) {
        DrainDecoderSettles(TakeFrame(s));
      } else {
        DrainFilterSettles(TakeFrame(s));
        DrainFilterKeepsDecoder(TakeFrame(s));
        var d := DrainFilter(TakeFrame(s));
        if !d.converged {
          DrainDecoderSettles(d.state);
        }
      }
    }
  }

  lemma {:induction false} ReadPacketsSettles(s: State, packets: seq<Packet>)
    requires Invariant(s) && s.decoder == [] && s.filter == []
    ensures Settled(ReadPackets(s, packets))
    ensures var d := ReadPackets(s, packets); !d.converged ==> d.state.decoder == [] && d.state.filter == []
    decreases |packets|
  {
    if packets != [] {
      if Skipped(s, packets[0]) {
        ReadPacketsSettles(s, packets[1..]);
      } else {
        DrainDecoderSettles(s.(decoder := s.decoder + packets[0].frames));
        var d := DrainDecoder(s.(decoder := s.decoder + packets[0].frames));
        if !d.converged {
          ReadPacketsSettles(d.state, packets[1..]);
        }
      }
    }
  }

  /** Draining never goes back in phase or forgets a measurement. */
  lemma {:induction false} DrainFilterOnlyAppends(s: State)
    ensures s.parsed <= DrainFilter(s).state.parsed
    decreases |s.filter|
  {
    if s.filter != [] && !Converges(s) {
      DrainFilterOnlyAppends(TakeOutput(s));
    }
  }

  lemma {:induction false} DrainDecoderOnlyAppends(s: State)
    ensures s.parsed <= DrainDecoder(s).state.parsed && s.frameCounter <= DrainDecoder(s).state.frameCounter
    decreases |s.decoder|
  {
    if s.decoder != [] {
      if !Forwards(s.frameCounter) {
        DrainDecoderOnlyAppends(TakeFrame(s));
      } else {
        var d := DrainFilter(TakeFrame(s));
        DrainFilterOnlyAppends(TakeFrame(s));
        DrainFilterKeepsDecoder(TakeFrame(s));
        DrainFilterKeepsCounter(TakeFrame(s));
        if !d.converged {
          DrainDecoderOnlyAppends(d.state);
        }
      }
    }
  }

  lemma {:induction false} DrainFilterKeepsCounter(s: State)
    ensures DrainFilter(s).state.frameCounter == s.frameCounter && DrainFilter(s).state.inPhase2 == s.inPhase2
    ensures if DrainFilter(s).converged then s.inPhase2 else DrainFilter(s).state.filter == []
    decreases |s.filter|
  {
    if s.filter != [] && !Converges(s) {
      DrainFilterKeepsCounter(TakeOutput(s));
    }
  }

  // --- Where the measurements come from ---

  /** A filter output that counts: both keys present, and a region with an area. */
  predicate Measurable(m: Metadata) {
    m.Metadata? && m.w > 0 && m.h > 0
  }

  ghost predicate SameRegion(m: Metadata, c: Crop) {
    m.Metadata? && c.w == m.w && c.h == m.h && c.x == m.x && c.y == m.y
  }

  /** An output of the filter, and whether the frame it was emitted for is one of phase 2. */
  datatype Emission = Emission(output: Metadata, phase2: bool)

  function Emissions(outputs: seq<Metadata>, phase2: bool): (es: seq<Emission>)
    ensures |es| == |outputs|
    ensures forall i :: 0 <= i < |es| ==> es[i] == Emission(outputs[i], phase2)
  {
    seq(|outputs|, i requires 0 <= i < |outputs| => Emission(outputs[i], phase2))
  }

  /** The measurement is the output's, made in the phase of its frame. */
  ghost predicate IsOf(m: Measurement, e: Emission) {
    SameRegion(e.output, m.crop) && m.phase2 == e.phase2
  }

  /** `from` lists, in order, the outputs that count; `parsed` holds their measurements. */
  ghost predicate Lists(outputs: seq<Emission>, parsed: seq<Measurement>, from: seq<nat>) {
    && |from| == |parsed|
    && (forall j, k :: 0 <= j < k < |from| ==> from[j] < from[k])
    && (forall k :: 0 <= k < |from| ==>
          from[k] < |outputs| && Measurable(outputs[from[k]].output) && IsOf(parsed[k], outputs[from[k]]))
    && (forall n: nat :: n < |outputs| && Measurable(outputs[n].output) ==> n in from)
  }

  /** `parsed` is what `outputs` measured. */
  ghost predicate Measures(outputs: seq<Emission>, parsed: seq<Measurement>) {
    exists from: seq<nat> :: Lists(outputs, parsed, from)
  }

  lemma ListsSnoc(outputs: seq<Emission>, parsed: seq<Measurement>, from: seq<nat>, e: Emission, next: Measurement)
    requires Lists(outputs, parsed, from) && Measurable(e.output) && IsOf(next, e)
    ensures Lists(outputs + [e], parsed + [next], from + [|outputs|])
  {
    var more, all := from + [|outputs|], outputs + [e];
    assert more[|from|] == |outputs|;
    forall n: nat | n < |all| && Measurable(all[n].output) ensures n in more {
      assert n < |outputs| ==> n in from;
    }
  }

  lemma ListsUnmeasurable(outputs: seq<Emission>, parsed: seq<Measurement>, from: seq<nat>, e: Emission)
    requires Lists(outputs, parsed, from) && !Measurable(e.output)
    ensures Lists(outputs + [e], parsed, from)
  {
  }

  lemma NothingMeasured()
    ensures Measures([], [])
  {
    var none: seq<nat> := [];
    assert Lists([], [], none);
  }

  lemma MeasuresSnoc(outputs: seq<Emission>, parsed: seq<Measurement>, e: Emission, next: Measurement)
    requires Measures(outputs, parsed)
    ensures Measurable(e.output) && IsOf(next, e) ==> Measures(outputs + [e], parsed + [next])
    ensures !Measurable(e.output) ==> Measures(outputs + [e], parsed)
  {
    var from: seq<nat> :| Lists(outputs, parsed, from);
    if Measurable(e.output) && IsOf(next, e) {
      ListsSnoc(outputs, parsed, from, e, next);
    } else if !Measurable(e.output) {
      ListsUnmeasurable(outputs, parsed, from, e);
    }
  }

  /** No output after the `n`-th counts. */
  ghost predicate LastMeasurable(outputs: seq<Emission>, n: nat) {
    && n < |outputs| && Measurable(outputs[n].output)
    && forall m :: n < m < |outputs| ==> !Measurable(outputs[m].output)
  }

  /** There is a region exactly when some output counts, and it is that of the last one that does. */
  ghost predicate ReturnsLast(outputs: seq<Emission>, region: Option<Crop>) {
    && (region.Some? <==> exists n :: 0 <= n < |outputs| && Measurable(outputs[n].output))
    && (forall n: nat :: region.Some? && LastMeasurable(outputs, n) ==> SameRegion(outputs[n].output, region.value))
  }

  lemma LastIsListed(outputs: seq<Emission>, parsed: seq<Measurement>, from: seq<nat>, n: nat)
    requires Lists(outputs, parsed, from) && LastMeasurable(outputs, n)
    ensures parsed != [] && SameRegion(outputs[n].output, parsed[|parsed| - 1].crop)
  {
    var k :| 0 <= k < |from| && from[k] == n;
    var last := |from| - 1;
    assert IsOf(parsed[last], outputs[from[last]]);
    assert from[k] <= from[last];
  }

  lemma LastIsReturned(outputs: seq<Emission>, parsed: seq<Measurement>)
    requires Measures(outputs, parsed)
    ensures ReturnsLast(outputs, if parsed == [] then None else Some(parsed[|parsed| - 1].crop))
  {
    var from: seq<nat> :| Lists(outputs, parsed, from);
    assert parsed != [] ==> Measurable(outputs[from[0]].output);
    forall n: nat | LastMeasurable(outputs, n)
      ensures parsed != [] && SameRegion(outputs[n].output, parsed[|parsed| - 1].crop)
    {
      LastIsListed(outputs, parsed, from, n);
    }
    forall n: nat | n < |outputs| && Measurable(outputs[n].output) ensures parsed != [] {
      assert n in from;
    }
  }

  /** What the filter emits for those of `frames`, decoded from the first on, that are forwarded. */
  function Outputs(frames: seq<Frame>): seq<Emission> {
    if frames == [] then []
    else
      var n := |frames| - 1;
      Outputs(frames[..n]) + if Forwards(n) then Emissions(frames[n].outputs, n >= KEYFRAME_SWITCH_COUNT) else []
  }

  /** The frames of the packets that reach the decoder, after `before` from earlier packets. */
  function Accepted(before: seq<Frame>, packets: seq<Packet>): seq<Frame>
    decreases |packets|
  {
    if packets == [] then before
    else Accepted(AcceptedOne(before, packets[0]), packets[1..])
  }

  function AcceptedOne(before: seq<Frame>, p: Packet): seq<Frame> {
    if !p.isVideo || (|before| >= KEYFRAME_SWITCH_COUNT && !p.isKey) then before else before + p.frames
  }

  lemma AcceptedUnfolds(before: seq<Frame>, packets: seq<Packet>, read: nat)
    requires read < |packets|
    ensures Accepted(before, packets[..read + 1]) == Accepted(AcceptedOne(before, packets[0]), packets[1..][..read])
  {
    assert packets[..read + 1][1..] == packets[1..][..read];
  }

  /** Of the emitted outputs the filter still holds the last ones, and the others were measured. */
  ghost predicate Balances(s: State, emitted: seq<Emission>) {
    && |s.filter| <= |emitted|
    && Emissions(s.filter, s.inPhase2) == emitted[|emitted| - |s.filter|..]
    && Measures(Consumed(s, emitted), s.parsed)
  }

  function Consumed(s: State, emitted: seq<Emission>): seq<Emission>
    requires |s.filter| <= |emitted|
  {
    emitted[..|emitted| - |s.filter|]
  }

  /** Of all frames sent to the decoder the first `frameCounter` were taken. */
  predicate Takes(s: State, sent: seq<Frame>) {
    s.frameCounter <= |sent| && s.decoder == sent[s.frameCounter..]
  }

  ghost predicate Accounts(s: State, sent: seq<Frame>) {
    && Takes(s, sent) && Balances(s, Outputs(sent[..s.frameCounter]))
    && (s.inPhase2 <==> s.frameCounter > KEYFRAME_SWITCH_COUNT)
  }

  /** Phase 1 leaves nothing in the filter between two frames. */
  predicate AtFrame(s: State) {
    s.frameCounter <= KEYFRAME_SWITCH_COUNT ==> s.filter == []
  }

  lemma ConsumedGrows(s: State, next: State, emitted: seq<Emission>)
    requires |s.filter| <= |emitted| && Emissions(s.filter, s.inPhase2) == emitted[|emitted| - |s.filter|..]
    requires s.filter != [] && next.filter == s.filter[1..] && next.inPhase2 == s.inPhase2
    ensures Emissions(next.filter, next.inPhase2) == emitted[|emitted| - |next.filter|..]
    ensures Consumed(next, emitted) == Consumed(s, emitted) + [Emission(s.filter[0], s.inPhase2)]
  {
    assert emitted[|emitted| - |s.filter|] == Emission(s.filter[0], s.inPhase2);
    assert Emissions(next.filter, next.inPhase2) == Emissions(s.filter, s.inPhase2)[1..];
  }

  lemma TakeOutputBalances(s: State, emitted: seq<Emission>)
    requires Balances(s, emitted) && s.filter != []
    ensures Balances(TakeOutput(s), emitted)
  {
    var c := Parse(s.filter[0]);
    var next := Measurement(if c.Some? then c.value else INITIAL.result, s.inPhase2);
    MeasuresSnoc(Consumed(s, emitted), s.parsed, Emission(s.filter[0], s.inPhase2), next);
    ConsumedGrows(s, TakeOutput(s), emitted);
  }

  lemma {:induction false} DrainFilterBalances(s: State, emitted: seq<Emission>)
    requires Balances(s, emitted)
    ensures Balances(DrainFilter(s).state, emitted)
    decreases |s.filter|
  {
    if s.filter != [] {
      TakeOutputBalances(s, emitted);
      if !Converges(s) {
        DrainFilterBalances(TakeOutput(s), emitted);
      }
    }
  }

  lemma SuffixGrows(all: seq<Emission>, held: seq<Emission>, more: seq<Emission>)
    requires |held| <= |all| && held == all[|all| - |held|..]
    ensures held + more == (all + more)[|all + more| - |held + more|..]
    ensures (all + more)[..|all + more| - |held + more|] == all[..|all| - |held|]
  {
  }

  lemma EmitBalances(s: State, next: State, emitted: seq<Emission>, more: seq<Metadata>)
    requires Balances(s, emitted) && next.parsed == s.parsed && next.filter == s.filter + more
    requires s.filter == [] || next.inPhase2 == s.inPhase2
    ensures Balances(next, emitted + Emissions(more, next.inPhase2))
  {
    var held := Emissions(s.filter, s.inPhase2);
    SuffixGrows(emitted, held, Emissions(more, next.inPhase2));
    assert Emissions(next.filter, next.inPhase2) == held + Emissions(more, next.inPhase2);
  }

  lemma OutputsSnoc(sent: seq<Frame>, n: nat)
    requires n < |sent|
    ensures Outputs(sent[..n + 1]) == Outputs(sent[..n])
                                    + if Forwards(n) then Emissions(sent[n].outputs, n >= KEYFRAME_SWITCH_COUNT) else []
  {
    assert sent[..n + 1][..n] == sent[..n];
  }

  lemma TakeFrameBalances(s: State, emitted: seq<Emission>, more: seq<Emission>)
    requires Balances(s, emitted) && s.decoder != [] && AtFrame(s)
    requires s.inPhase2 <==> s.frameCounter > KEYFRAME_SWITCH_COUNT
    requires more == if Forwards(s.frameCounter)
                     then Emissions(s.decoder[0].outputs, s.frameCounter >= KEYFRAME_SWITCH_COUNT)
                     else []
    ensures Balances(TakeFrame(s), emitted + more)
  {
    if Forwards(s.frameCounter) {
      EmitBalances(s, TakeFrame(s), emitted, s.decoder[0].outputs);
    } else {
      assert emitted + [] == emitted;
    }
  }

  lemma TakeFrameAccounts(s: State, sent: seq<Frame>)
    requires Accounts(s, sent) && s.decoder != [] && AtFrame(s)
    ensures Accounts(TakeFrame(s), sent)
  {
    var n := s.frameCounter;
    var more := if Forwards(n) then Emissions(sent[n].outputs, n >= KEYFRAME_SWITCH_COUNT) else [];
    TakeFrameTakes(s, sent);
    TakeFrameBalances(s, Outputs(sent[..n]), more);
    OutputsSnoc(sent, n);
  }

  lemma TakeFrameTakes(s: State, sent: seq<Frame>)
    requires Takes(s, sent) && s.decoder != []
    ensures s.frameCounter < |sent| && s.decoder[0] == sent[s.frameCounter] && Takes(TakeFrame(s), sent)
  {
  }

  lemma DrainFilterAccounts(s: State, sent: seq<Frame>)
    requires Accounts(s, sent)
    ensures Accounts(DrainFilter(s).state, sent) && AtFrame(DrainFilter(s).state)
  {
    DrainFilterBalances(s, Outputs(sent[..s.frameCounter]));
    DrainFilterKeepsDecoder(s);
    DrainFilterKeepsCounter(s);
  }

  lemma {:induction false} DrainDecoderAccounts(s: State, sent: seq<Frame>)
    requires Accounts(s, sent) && AtFrame(s)
    ensures Accounts(DrainDecoder(s).state, sent) && AtFrame(DrainDecoder(s).state)
    ensures !DrainDecoder(s).converged ==> DrainDecoder(s).state.decoder == []
    decreases |s.decoder|
  {
    if s.decoder != [] {
      TakeFrameAccounts(s, sent);
      if !Forwards(s.frameCounter) {
        DrainDecoderAccounts(TakeFrame(s), sent);
      } else {
        DrainFilterAccounts(TakeFrame(s), sent);
        DrainFilterKeepsDecoder(TakeFrame(s));
        var d := DrainFilter(TakeFrame(s));
        if !d.converged {
          DrainDecoderAccounts(d.state, sent);
        }
      }
    }
  }

  /** More frames reach the decoder. */
  lemma FeedAccounts(s: State, sent: seq<Frame>, frames: seq<Frame>)
    requires Accounts(s, sent) && AtFrame(s)
    ensures Accounts(s.(decoder := s.decoder + frames), sent + frames) && AtFrame(s.(decoder := s.decoder + frames))
  {
    assert (sent + frames)[..s.frameCounter] == sent[..s.frameCounter];
    assert (sent + frames)[s.frameCounter..] == sent[s.frameCounter..] + frames;
  }

  /** One packet of the reading loop. */
  function ReadOne(s: State, p: Packet): Drained {
    if Skipped(s, p) then Drained(s, false) else DrainDecoder(s.(decoder := s.decoder + p.frames))
  }

  lemma ReadOneAccounts(s: State, sent: seq<Frame>, p: Packet)
    requires Accounts(s, sent) && AtFrame(s) && s.decoder == []
    ensures Accounts(ReadOne(s, p).state, AcceptedOne(sent, p)) && AtFrame(ReadOne(s, p).state)
    ensures !ReadOne(s, p).converged ==> ReadOne(s, p).state.decoder == []
  {
    if !Skipped(s, p) {
      FeedAccounts(s, sent, p.frames);
      DrainDecoderAccounts(s.(decoder := s.decoder + p.frames), sent + p.frames);
    }
  }

  /** `read` packets were read before the loop stopped. */
  lemma {:induction false} ReadPacketsAccounts(s: State, sent: seq<Frame>, packets: seq<Packet>) returns (read: nat)
    requires Accounts(s, sent) && AtFrame(s) && s.decoder == []
    ensures read <= |packets| && (!ReadPackets(s, packets).converged ==> read == |packets|)
    ensures Accounts(ReadPackets(s, packets).state, Accepted(sent, packets[..read]))
    ensures AtFrame(ReadPackets(s, packets).state)
    decreases |packets|
  {
    read := 0;
    if packets != [] {
      var d := ReadOne(s, packets[0]);
      ReadOneAccounts(s, sent, packets[0]);
      if !d.converged {
        read := ReadPacketsAccounts(d.state, AcceptedOne(sent, packets[0]), packets[1..]);
      }
      AcceptedUnfolds(sent, packets, read);
      read := read + 1;
    }
  }

  /** All that the filter emits in a run that reads `read` packets, flushes included. */
  function Emitted(input: Input, read: nat, frameCounter: nat): seq<Emission>
    requires read <= |input.packets|
    requires frameCounter <= |Accepted([], input.packets[..read]) + input.flushed|
  {
    Outputs((Accepted([], input.packets[..read]) + input.flushed)[..frameCounter])
    + Emissions(input.drained, frameCounter > KEYFRAME_SWITCH_COUNT)
  }

  /** The whole run accounts for the frames of the first `read` packets, the flushed frames and the drained outputs. */
  ghost predicate RunAccounts(input: Input, read: nat) {
    && read <= |input.packets|
    && (!Detect(input).converged ==> read == |input.packets|)
    && var s := Detect(input).state;
       && Takes(s, Accepted([], input.packets[..read]) + input.flushed)
       && Balances(s, Emitted(input, read, s.frameCounter))
  }

  /** `region` is that of the last output that counts, of all that the run consumed. */
  ghost predicate Returns(input: Input, read: nat, region: Option<Crop>) {
    && RunAccounts(input, read)
    && var s := Detect(input).state;
       ReturnsLast(Consumed(s, Emitted(input, read, s.frameCounter)), region)
  }

  /**
   Conservation: no filter output is lost, invented or reordered. Of the packets read before the
   loop stopped, all of them when it did not converge, the frames accepted by the decoder and then
   the flushed ones are taken in order; the outputs consumed and then those the filter still holds
   are what it emitted for the sampled ones of them and then on its own flush; and the consumed ones
   that count were measured one by one, field by field. A measurement is one of phase 2 exactly when
   its output was emitted for a frame after the first 200, or on a flush after that many.
   */
  lemma MeasurementsAreConserved(input: Input) returns (read: nat)
    ensures RunAccounts(input, read)
  {
    NothingMeasured();
    assert Accounts(INITIAL, []);
    read := ReadPacketsAccounts(INITIAL, [], input.packets);
    var accepted := Accepted([], input.packets[..read]);
    FlushAccounts(ReadPackets(INITIAL, input.packets).state, accepted, input);
  }

  /** The two flushes at the end of a run. */
  lemma FlushAccounts(s: State, accepted: seq<Frame>, input: Input)
    requires Accounts(s, accepted) && AtFrame(s)
    ensures var flushed := DrainDecoder(s.(decoder := s.decoder + input.flushed)).state;
            var last := DrainFilter(flushed.(filter := flushed.filter + input.drained)).state;
            var sent := accepted + input.flushed;
            && Takes(last, sent)
            && Balances(last, Outputs(sent[..last.frameCounter])
                              + Emissions(input.drained, last.frameCounter > KEYFRAME_SWITCH_COUNT))
  {
    var sent := accepted + input.flushed;
    FeedAccounts(s, accepted, input.flushed);
    DrainDecoderAccounts(s.(decoder := s.decoder + input.flushed), sent);
    var flushed := DrainDecoder(s.(decoder := s.decoder + input.flushed)).state;
    DrainedAccounts(flushed, sent, input.drained);
  }

  lemma DrainedAccounts(s: State, sent: seq<Frame>, drained: seq<Metadata>)
    requires Accounts(s, sent)
    ensures var last := DrainFilter(s.(filter := s.filter + drained)).state;
            && Takes(last, sent)
            && Balances(last, Outputs(sent[..last.frameCounter])
                              + Emissions(drained, last.frameCounter > KEYFRAME_SWITCH_COUNT))
  {
    var fed := s.(filter := s.filter + drained);
    var emitted := Outputs(sent[..s.frameCounter]);
    EmitBalances(s, fed, emitted, drained);
    DrainFilterBalances(fed, emitted + Emissions(drained, s.inPhase2));
    DrainFilterKeepsDecoder(fed);
    DrainFilterKeepsCounter(fed);
  }

  /**
   For every file: a region is returned exactly when some output of the filter that the run consumed
   has a positive width and height, flushes included, and then its width, height and offsets are
   field by field those of the last such output; the stability counter is the length of the longest
   constant suffix of the phase-2 measurements; and the frames forwarded follow the closed-form
   schedule.
   */
  lemma DetectReturnsLastMeasurement(input: Input) returns (read: nat)
    ensures var s := Detect(input).state;
            && Returns(input, read, if s.haveCrop then Some(s.result) else None)
            && s.consecutiveStable == ConstantSuffix(Phase2(s.parsed))
            && s.forwarded == CountForwarded(s.frameCounter)
  {
    read := MeasurementsAreConserved(input);
    var s := Detect(input).state;
    DetectKeepsInvariant(input);
    LastIsReturned(Consumed(s, Emitted(input, read, s.frameCounter)), s.parsed);
  }

  lemma DetectKeepsInvariant(input: Input)
    ensures Invariant(Detect(input).state)
  {
    ReadPacketsSettles(INITIAL, input.packets);
    var read := ReadPackets(INITIAL, input.packets).state;
    DrainDecoderSettles(read.(decoder := read.decoder + input.flushed));
    var flushed := DrainDecoder(read.(decoder := read.decoder + input.flushed)).state;
    DrainFilterSettles(flushed.(filter := flushed.filter + input.drained));
  }

  lemma {:induction false} DrainFilterStopsIffStable(s: State)
    requires s.consecutiveStable < STABILITY_THRESHOLD
    ensures DrainFilter(s).converged <==> DrainFilter(s).state.consecutiveStable >= STABILITY_THRESHOLD
    decreases |s.filter|
  {
    if s.filter != [] && !Converges(s) {
      DrainFilterStopsIffStable(TakeOutput(s));
    }
  }

  lemma {:induction false} DrainDecoderStopsIffStable(s: State)
    requires s.consecutiveStable < STABILITY_THRESHOLD
    ensures DrainDecoder(s).converged <==> DrainDecoder(s).state.consecutiveStable >= STABILITY_THRESHOLD
    decreases |s.decoder|
  {
    if s.decoder != [] {
      if !Forwards(s.frameCounter) {
        DrainDecoderStopsIffStable(TakeFrame(s));
      } else {
        var d := DrainFilter(TakeFrame(s));
        DrainFilterStopsIffStable(TakeFrame(s));
        DrainFilterKeepsDecoder(TakeFrame(s));
        if !d.converged {
          DrainDecoderStopsIffStable(d.state);
        }
      }
    }
  }

  lemma {:induction false} ReadingStopsIffStable(s: State, packets: seq<Packet>)
    requires s.consecutiveStable < STABILITY_THRESHOLD
    ensures ReadPackets(s, packets).converged <==> ReadPackets(s, packets).state.consecutiveStable >= STABILITY_THRESHOLD
    decreases |packets|
  {
    if packets != [] {
      var d := ReadOne(s, packets[0]);
      if !Skipped(s, packets[0]) {
        DrainDecoderStopsIffStable(s.(decoder := s.decoder + packets[0].frames));
      }
      if !d.converged {
        ReadingStopsIffStable(d.state, packets[1..]);
      }
    }
  }

  /** Reading stops early exactly when the phase-2 measurements end in five equal ones. */
  lemma EarlyExitIffConverged(input: Input)
    ensures var read := ReadPackets(INITIAL, input.packets);
            read.converged <==> ConstantSuffix(Phase2(read.state.parsed)) >= STABILITY_THRESHOLD
  {
    ReadPacketsSettles(INITIAL, input.packets);
    ReadingStopsIffStable(INITIAL, input.packets);
  }

  /**
   When reading stops early it is in phase 2, after more than 200 decoded frames and at least five
   equal phase-2 measurements in a row; otherwise it leaves nothing queued.
   */
  lemma EarlyExitNeedsConvergence(input: Input)
    ensures var read := ReadPackets(INITIAL, input.packets);
            if read.converged then
              var xs := Phase2(read.state.parsed);
              && read.state.frameCounter > KEYFRAME_SWITCH_COUNT
              && |xs| >= STABILITY_THRESHOLD
              && (forall i :: |xs| - STABILITY_THRESHOLD <= i < |xs| ==> xs[i] == read.state.result)
            else read.state.decoder == [] && read.state.filter == []
    ensures ReadPackets(INITIAL, input.packets).state.parsed <= Detect(input).state.parsed
  {
    ReadPacketsSettles(INITIAL, input.packets);
    var read := ReadPackets(INITIAL, input.packets);
    if read.converged {
      ConstantSuffixIsLongest(Phase2(read.state.parsed));
      LastPhase2(read.state.parsed);
    }
    DrainDecoderOnlyAppends(read.state.(decoder := read.state.decoder + input.flushed));
    var flushed := DrainDecoder(read.state.(decoder := read.state.decoder + input.flushed)).state;
    DrainFilterOnlyAppends(flushed.(filter := flushed.filter + input.drained));
  }

  /** Five equal measurements in a row, from the `i`-th on. */
  ghost predicate StableFrom(xs: seq<Crop>, i: nat) {
    i + STABILITY_THRESHOLD <= |xs| && forall j :: i <= j < i + STABILITY_THRESHOLD ==> xs[j] == xs[i]
  }

  ghost predicate HasStableRun(xs: seq<Crop>) {
    exists i: nat :: StableFrom(xs, i)
  }

  lemma {:induction false} Phase2Grows(ms: seq<Measurement>, more: seq<Measurement>)
    requires ms <= more
    ensures Phase2(ms) <= Phase2(more)
    decreases |more|
  {
    if ms != more {
      var before := more[..|more| - 1];
      assert ms <= before;
      Phase2Grows(ms, before);
    }
  }

  lemma SettledHasStableRun(ms: seq<Measurement>, more: seq<Measurement>)
    requires ms <= more && ConstantSuffix(Phase2(ms)) >= STABILITY_THRESHOLD
    ensures HasStableRun(Phase2(more))
  {
    var xs, all := Phase2(ms), Phase2(more);
    Phase2Grows(ms, more);
    ConstantSuffixIsLongest(xs);
    assert forall j :: 0 <= j < |xs| ==> all[j] == xs[j];
    assert StableFrom(all, |xs| - STABILITY_THRESHOLD);
  }

  /**
   Nothing is left unread, undecoded or unmeasured unless five phase-2 measurements in a row agreed:
   without such a run all packets are read, and decoder and filter are empty in the end.
   */
  lemma LeftoversNeedStableRun(input: Input)
    ensures var d := Detect(input);
            HasStableRun(Phase2(d.state.parsed)) || (!d.converged && d.state.decoder == [] && d.state.filter == [])
  {
    ReadPacketsSettles(INITIAL, input.packets);
    var read := ReadPackets(INITIAL, input.packets);
    var fed := read.state.(decoder := read.state.decoder + input.flushed);
    DrainDecoderSettles(fed);
    DrainDecoderOnlyAppends(fed);
    var flushed := DrainDecoder(fed);
    var last := flushed.state.(filter := flushed.state.filter + input.drained);
    DrainFilterSettles(last);
    DrainFilterOnlyAppends(last);
    DrainFilterKeepsDecoder(last);
    var end := Detect(input).state.parsed;
    assert flushed.state.parsed <= end;
    assert read.state.parsed <= end;
    if read.converged {
      SettledHasStableRun(read.state.parsed, end);
    } else if flushed.converged {
      SettledHasStableRun(flushed.state.parsed, end);
    } else if DrainFilter(last).converged {
      SettledHasStableRun(end, end);
    }
  }

  // --- The imperative form ---

  class Detector {
    var result: Crop
    var haveCrop: bool
    var frameCounter: nat
    var consecutiveStable: nat
    var inPhase2: bool
    var decoder: seq<Frame>
    var filter: seq<Metadata>
    ghost var parsed: seq<Measurement>
    ghost var forwarded: nat

    constructor ()
      ensures Snapshot() == INITIAL
    {
      result, haveCrop, frameCounter, consecutiveStable, inPhase2 := Crop(0, 0, 0, 0), false, 0, 0, false;
      decoder, filter, parsed, forwarded := [], [], [], 0;
    }

    ghost function Snapshot(): State
      reads this
    {
      State(result, haveCrop, frameCounter, consecutiveStable, inPhase2, decoder, filter, parsed, forwarded)
    }

    method DrainFilterQueue() returns (converged: bool)
      modifies this
      ensures Drained(Snapshot(), converged) == DrainFilter(old(Snapshot()))
    {
      while filter != []
        invariant DrainFilter(Snapshot()) == DrainFilter(old(Snapshot()))
        decreases |filter|
      {
        var parameters := Parse(filter[0]);
        filter := filter[1..];
        if parameters.Some? {
          parsed := parsed + [Measurement(parameters.value, inPhase2)];
          if inPhase2 {
            if haveCrop && parameters.value == result {
              consecutiveStable := consecutiveStable + 1;
              if consecutiveStable >= STABILITY_THRESHOLD {
                return true;
              }
            } else {
              consecutiveStable := 1;
            }
          }
          result := parameters.value;
          haveCrop := true;
        }
      }
      return false;
    }

    method DrainDecoderQueue() returns (converged: bool)
      modifies this
      ensures Drained(Snapshot(), converged) == DrainDecoder(old(Snapshot()))
    {
      while decoder != []
        invariant DrainDecoder(Snapshot()) == DrainDecoder(old(Snapshot()))
        decreases |decoder|
      {
        ghost var before := Snapshot();
        var f := decoder[0];
        decoder := decoder[1..];
        var sendToFilter := true;
        if frameCounter < KEYFRAME_SWITCH_COUNT {
          sendToFilter := frameCounter < ALWAYS_INCLUDE_COUNT || frameCounter % SAMPLE_INTERVAL == 0;
        }
        inPhase2 := frameCounter >= KEYFRAME_SWITCH_COUNT;
        frameCounter := frameCounter + 1;
        if sendToFilter {
          filter := filter + f.outputs;
          forwarded := forwarded + 1;
          assert Snapshot() == TakeFrame(before);
          DrainFilterKeepsDecoder(Snapshot());
          converged := DrainFilterQueue();
          if converged {
            return;
          }
        }
      }
      return false;
    }

    /** Reads packets until they end or the crop converges. */
    method ReadAll(packets: seq<Packet>) returns (converged: bool)
      modifies this
      ensures Drained(Snapshot(), converged) == ReadPackets(old(Snapshot()), packets)
    {
      for n := 0 to |packets|
        invariant ReadPackets(Snapshot(), packets[n..]) == ReadPackets(old(Snapshot()), packets)
      {
        assert packets[n..][1..] == packets[n + 1..];
        var p := packets[n];
        if p.isVideo && !(frameCounter >= KEYFRAME_SWITCH_COUNT && !p.isKey) {
          decoder := decoder + p.frames;
          var stop := DrainDecoderQueue();
          if stop {
            return true;
          }
        }
      }
      return false;
    }

    method Run(input: Input) returns (region: Option<Crop>)
      requires Snapshot() == INITIAL
      modifies this
      ensures Snapshot() == Detect(input).state
      ensures region == if haveCrop then Some(result) else None
      ensures exists read: nat :: Returns(input, read, region)
    {
      ghost var read := DetectReturnsLastMeasurement(input);
      var ignored := ReadAll(input.packets);
      decoder := decoder + input.flushed;
      ignored := DrainDecoderQueue();
      filter := filter + input.drained;
      ignored := DrainFilterQueue();
      region := if haveCrop then Some(result) else None;
    }
  }
}
