/**
 Audio re-chunking (pkg/ffmpeg/stream_audio.go): decoded frames of any size go through
 a FIFO and reach a fixed-frame-size encoder in frames of exactly that size, numbered by
 a running PTS and padded with silence at the end. Encoders without a fixed frame size
 bypass the FIFO.
 */
module AudioFifo {
  import opened Arithmetic
  import opened Timestamps
  import opened Wrappers

  /** A sample of the track, or one made up at its end. */
  datatype Sample = Sound(value: int) | Padding

  type Recorded = s: Sample | s.Sound? witness Sound(0)

  /** A decoded frame, its samples already in the encoder's format. */
  datatype Decoded = Decoded(pts: int64, samples: seq<Recorded>)

  /** A frame sent to the encoder. */
  datatype Frame = Frame(pts: int, samples: seq<Sample>)

  /** `frameSize` 0 stands for an encoder without a fixed frame size. */
  datatype Config = Config(frameSize: nat, decoderBase: Rational, encoderBase: Rational) {
    predicate Valid() {
      decoderBase.Valid() && encoderBase.Valid()
    }

    function Seed(pts: int64): int
      requires Valid()
    {
      RescaleQ(pts, decoderBase, encoderBase)
    }
  }

  datatype State = State(fifo: seq<Sample>, nextPts: int, seeded: bool, sent: seq<Frame>)

  const INITIAL := State([], 0, false, [])

  /** One whole frame taken from the FIFO. */
  function SendOne(size: nat, st: State): State
    requires size <= |st.fifo|
  {
    State(st.fifo[size..], st.nextPts + size, st.seeded, st.sent + [Frame(st.nextPts, st.fifo[..size])])
  }

  function Drain(size: nat, st: State): State
    requires size > 0
    decreases |st.fifo|
  {
    if |st.fifo| < size then st else Drain(size, SendOne(size, st))
  }

  function Seeded(cfg: Config, st: State, f: Decoded): State
    requires cfg.Valid()
  {
    if !st.seeded && f.pts != NO_PTS then st.(nextPts := cfg.Seed(f.pts), seeded := true) else st
  }

  function Encode(cfg: Config, st: State, f: Decoded): State
    requires cfg.Valid()
  {
    if cfg.frameSize == 0 then st.(sent := st.sent + [Frame(f.pts, f.samples)])
    else
      var s := Seeded(cfg, st, f);
      Drain(cfg.frameSize, s.(fifo := s.fifo + f.samples))
  }

  function EncodeAll(cfg: Config, frames: seq<Decoded>): State
    requires cfg.Valid()
  {
    if frames == [] then INITIAL else Encode(cfg, EncodeAll(cfg, frames[..|frames| - 1]), frames[|frames| - 1])
  }

  function Silence(n: nat): (s: seq<Sample>)
    ensures |s| == n
  {
    seq(n, _ => Padding)
  }

  /** End of stream: the resampler's delay line, whole frames, then the padded rest. */
  function Finish(cfg: Config, st: State, delayed: seq<Recorded>): State {
    if cfg.frameSize == 0 then st
    else
      var d := Drain(cfg.frameSize, st.(fifo := st.fifo + delayed));
      DrainLeavesLess(cfg.frameSize, st.(fifo := st.fifo + delayed));
      if d.fifo == [] then d
      else d.(fifo := [], sent := d.sent + [Frame(d.nextPts, d.fifo + Silence(cfg.frameSize - |d.fifo|))])
  }

  /** All frames of a stream, in order, then end of stream. */
  function Session(cfg: Config, frames: seq<Decoded>, delayed: seq<Recorded>): State
    requires cfg.Valid()
  {
    Finish(cfg, EncodeAll(cfg, frames), delayed)
  }

  // --- Nothing is lost or reordered ---

  function SentSamples(sent: seq<Frame>): seq<Sample> {
    if sent == [] then [] else SentSamples(sent[..|sent| - 1]) + sent[|sent| - 1].samples
  }

  function InputSamples(frames: seq<Decoded>): seq<Recorded> {
    if frames == [] then [] else InputSamples(frames[..|frames| - 1]) + frames[|frames| - 1].samples
  }

  ghost predicate AllOfSize(sent: seq<Frame>, size: nat) {
    forall k :: 0 <= k < |sent| ==> |sent[k].samples| == size
  }

  lemma SentSnoc(sent: seq<Frame>, f: Frame)
    ensures SentSamples(sent + [f]) == SentSamples(sent) + f.samples
  {
    assert (sent + [f])[..|sent|] == sent;
  }

  lemma {:induction false} DrainLeavesLess(size: nat, st: State)
    requires size > 0
    ensures |Drain(size, st).fifo| < size
    decreases |st.fifo|
  {
    if |st.fifo| >= size {
      DrainLeavesLess(size, SendOne(size, st));
    }
  }

  lemma SendOneConserves(size: nat, st: State)
    requires size <= |st.fifo| && AllOfSize(st.sent, size)
    ensures var d := SendOne(size, st);
            && SentSamples(d.sent) + d.fifo == SentSamples(st.sent) + st.fifo
            && AllOfSize(d.sent, size)
  {
    var head, rest := st.fifo[..size], st.fifo[size..];
    SentSnoc(st.sent, Frame(st.nextPts, head));
    assert st.fifo == head + rest;
    assert SentSamples(st.sent) + head + rest == SentSamples(st.sent) + (head + rest);
  }

  lemma {:induction false} DrainConserves(size: nat, st: State)
    requires size > 0 && AllOfSize(st.sent, size)
    ensures var d := Drain(size, st);
            && SentSamples(d.sent) + d.fifo == SentSamples(st.sent) + st.fifo
            && AllOfSize(d.sent, size)
    decreases |st.fifo|
  {
    if |st.fifo| >= size {
      SendOneConserves(size, st);
      DrainConserves(size, SendOne(size, st));
    }
  }

  /** What was sent followed by what is buffered is `input`, in frames of the right size. */
  ghost predicate Conserves(size: nat, input: seq<Sample>, st: State) {
    && SentSamples(st.sent) + st.fifo == input
    && AllOfSize(st.sent, size)
    && |st.fifo| < size
  }

  lemma FeedConserves(size: nat, input: seq<Sample>, st: State, more: seq<Sample>)
    requires Conserves(size, input, st)
    ensures Conserves(size, input + more, Drain(size, st.(fifo := st.fifo + more)))
  {
    DrainConserves(size, st.(fifo := st.fifo + more));
    DrainLeavesLess(size, st.(fifo := st.fifo + more));
    assert SentSamples(st.sent) + (st.fifo + more) == SentSamples(st.sent) + st.fifo + more;
  }

  /**
   Between calls fewer than a frame's worth of samples is buffered, and what was sent
   followed by what is buffered is the input so far.
   */
  lemma {:induction false} EncodingConserves(cfg: Config, frames: seq<Decoded>)
    requires cfg.Valid() && cfg.frameSize > 0
    ensures Conserves(cfg.frameSize, InputSamples(frames), EncodeAll(cfg, frames))
  {
    if frames != [] {
      var prior, f := frames[..|frames| - 1], frames[|frames| - 1];
      EncodingConserves(cfg, prior);
      FeedConserves(cfg.frameSize, InputSamples(prior), Seeded(cfg, EncodeAll(cfg, prior), f), f.samples);
    }
  }

  /** The FIFO after the resampler's delay line went through it. */
  function Drained(cfg: Config, frames: seq<Decoded>, delayed: seq<Recorded>): State
    requires cfg.Valid() && cfg.frameSize > 0
  {
    var st := EncodeAll(cfg, frames);
    Drain(cfg.frameSize, st.(fifo := st.fifo + delayed))
  }

  lemma DrainedConserves(cfg: Config, frames: seq<Decoded>, delayed: seq<Recorded>)
    requires cfg.Valid() && cfg.frameSize > 0
    ensures Conserves(cfg.frameSize, InputSamples(frames) + delayed, Drained(cfg, frames, delayed))
  {
    EncodingConserves(cfg, frames);
    FeedConserves(cfg.frameSize, InputSamples(frames), EncodeAll(cfg, frames), delayed);
  }

  /** The tail frame: what is left, then silence. */
  lemma PaddedTail(sent: seq<Frame>, rest: seq<Sample>, input: seq<Sample>, pts: int, pad: nat)
    requires SentSamples(sent) + rest == input
    ensures SentSamples(sent + [Frame(pts, rest + Silence(pad))]) == input + Silence(pad)
  {
    SentSnoc(sent, Frame(pts, rest + Silence(pad)));
    assert SentSamples(sent) + (rest + Silence(pad)) == SentSamples(sent) + rest + Silence(pad);
  }

  /**
   Conservation over a whole stream: the encoder receives exactly the resampled input samples
   in order, then the resampler's delay line, then fewer than a frame of silence, all in
   frames of exactly the encoder's size.
   */
  lemma SessionConserves(cfg: Config, frames: seq<Decoded>, delayed: seq<Recorded>) returns (pad: nat)
    requires cfg.Valid() && cfg.frameSize > 0
    ensures var st := Session(cfg, frames, delayed);
            && pad < cfg.frameSize
            && SentSamples(st.sent) == InputSamples(frames) + delayed + Silence(pad)
            && AllOfSize(st.sent, cfg.frameSize)
            && st.fifo == []
  {
    DrainedConserves(cfg, frames, delayed);
    var d := Drained(cfg, frames, delayed);
    if d.fifo == [] {
      pad := 0;
      assert InputSamples(frames) + delayed + Silence(0) == SentSamples(d.sent) + d.fifo == SentSamples(d.sent);
    } else {
      pad := cfg.frameSize - |d.fifo|;
      PaddedTail(d.sent, d.fifo, InputSamples(frames) + delayed, d.nextPts, pad);
    }
  }

  ghost predicate PassedThrough(frames: seq<Decoded>, st: State) {
    && |st.sent| == |frames| && st.fifo == []
    && (forall k :: 0 <= k < |frames| ==> st.sent[k] == Frame(frames[k].pts, frames[k].samples))
    && SentSamples(st.sent) == InputSamples(frames)
  }

  lemma PassOne(prior: seq<Decoded>, st: State, f: Decoded)
    requires PassedThrough(prior, st)
    ensures PassedThrough(prior + [f], st.(sent := st.sent + [Frame(f.pts, f.samples)]))
  {
    SentSnoc(st.sent, Frame(f.pts, f.samples));
    assert (prior + [f])[..|prior|] == prior;
  }

  /** Without a fixed frame size the frames pass through one by one, with their own PTS. */
  lemma {:induction false} PassThrough(cfg: Config, frames: seq<Decoded>)
    requires cfg.Valid() && cfg.frameSize == 0
    ensures PassedThrough(frames, EncodeAll(cfg, frames))
  {
    if frames != [] {
      var prior, f := frames[..|frames| - 1], frames[|frames| - 1];
      PassThrough(cfg, prior);
      PassOne(prior, EncodeAll(cfg, prior), f);
      assert frames == prior + [f];
    }
  }

  /**
   Every sample that came out of the resampler or is in its delay line at the end is sent, in order
   and first, exactly when there is a FIFO or the delay line is empty: the other branch never
   flushes it. What the resampler itself loses is not counted here.
   */
  lemma NothingLostIffFlushed(cfg: Config, frames: seq<Decoded>, delayed: seq<Recorded>)
    requires cfg.Valid()
    ensures InputSamples(frames) + delayed <= SentSamples(Session(cfg, frames, delayed).sent)
        <==> cfg.frameSize > 0 || delayed == []
  {
    if cfg.frameSize > 0 {
      var pad := SessionConserves(cfg, frames, delayed);
    } else {
      PassThrough(cfg, frames);
      assert |SentSamples(Session(cfg, frames, delayed).sent)| == |InputSamples(frames)|;
    }
  }

  // --- PTS numbering ---

  /** PTS of frame `k` when the counter is seeded with `seed` before frame `first`. */
  function Number(size: nat, first: nat, seed: int, k: nat): int {
    if k < first then k * size else seed + (k - first) * size
  }

  /** The frames sent are numbered, and so is the next one. */
  ghost predicate Numbered(size: nat, st: State, first: nat, seed: int) {
    && (forall k :: 0 <= k < |st.sent| ==> st.sent[k].pts == Number(size, first, seed, k))
    && st.nextPts == Number(size, first, seed, |st.sent|)
    && (st.seeded <==> first <= |st.sent|)
  }

  lemma NumberStep(size: nat, first: nat, seed: int, k: nat)
    requires k + 1 != first
    ensures Number(size, first, seed, k + 1) == Number(size, first, seed, k) + size
  {
  }

  lemma {:induction false} DrainNumbers(size: nat, st: State, first: nat, seed: int)
    requires size > 0 && Numbered(size, st, first, seed)
    requires !st.seeded ==> first > |st.sent| + |st.fifo|
    ensures Numbered(size, Drain(size, st), first, seed)
    ensures |Drain(size, st).sent| <= |st.sent| + |st.fifo|
    ensures Drain(size, st).seeded == st.seeded
    decreases |st.fifo|
  {
    if |st.fifo| >= size {
      NumberStep(size, first, seed, |st.sent|);
      DrainNumbers(size, SendOne(size, st), first, seed);
    }
  }

  /** Index of the first frame with a PTS; |frames| when there is none. */
  function FirstStamped(frames: seq<Decoded>): (j: nat)
    ensures j <= |frames|
    ensures forall i :: 0 <= i < j ==> frames[i].pts == NO_PTS
    ensures j < |frames| ==> frames[j].pts != NO_PTS
  {
    if frames == [] then 0
    else
      var j := FirstStamped(frames[..|frames| - 1]);
      if j < |frames| - 1 || frames[|frames| - 1].pts != NO_PTS then j else |frames|
  }

  lemma {:induction false} SentLength(sent: seq<Frame>, size: nat)
    requires AllOfSize(sent, size)
    ensures |SentSamples(sent)| == |sent| * size
  {
    if sent != [] {
      SentLength(sent[..|sent| - 1], size);
      OneMoreFrame(|sent| - 1, size);
    }
  }

  lemma OneMoreFrame(n: nat, size: nat)
    ensures (n + 1) * size == n * size + size
  {
  }

  /** How many whole frames have been sent: the input's length divided by the frame size. */
  lemma FramesSent(cfg: Config, frames: seq<Decoded>)
    requires cfg.Valid() && cfg.frameSize > 0
    ensures |EncodeAll(cfg, frames).sent| == |InputSamples(frames)| / cfg.frameSize
  {
    EncodingConserves(cfg, frames);
    var st := EncodeAll(cfg, frames);
    SentLength(st.sent, cfg.frameSize);
    DivUnique(|InputSamples(frames)|, cfg.frameSize, |st.sent|, |st.fifo|);
  }

  /** The counter before any stamped frame: numbering from zero. */
  lemma {:induction false} UnstampedNumbers(cfg: Config, frames: seq<Decoded>, first: nat, seed: int)
    requires cfg.Valid() && cfg.frameSize > 0 && FirstStamped(frames) == |frames|
    requires first > |InputSamples(frames)|
    ensures Numbered(cfg.frameSize, EncodeAll(cfg, frames), first, seed)
    ensures !EncodeAll(cfg, frames).seeded
  {
    if frames != [] {
      var prior, f := frames[..|frames| - 1], frames[|frames| - 1];
      UnstampedNumbers(cfg, prior, first, seed);
      ConservedLength(cfg, prior);
      var st := EncodeAll(cfg, prior);
      DrainNumbers(cfg.frameSize, st.(fifo := st.fifo + f.samples), first, seed);
    }
  }

  lemma {:induction false} SentAtMostSamples(sent: seq<Frame>, size: nat)
    requires AllOfSize(sent, size) && size > 0
    ensures |sent| <= |SentSamples(sent)|
  {
    if sent != [] {
      SentAtMostSamples(sent[..|sent| - 1], size);
    }
  }

  lemma ConservedLength(cfg: Config, frames: seq<Decoded>)
    requires cfg.Valid() && cfg.frameSize > 0
    ensures var st := EncodeAll(cfg, frames);
            |st.sent| + |st.fifo| <= |InputSamples(frames)|
  {
    EncodingConserves(cfg, frames);
    SentAtMostSamples(EncodeAll(cfg, frames).sent, cfg.frameSize);
    var st := EncodeAll(cfg, frames);
    assert |SentSamples(st.sent) + st.fifo| == |SentSamples(st.sent)| + |st.fifo|;
  }

  /** Whole frames sent before the frame that seeds the counter. */
  function SentBeforeSeed(cfg: Config, frames: seq<Decoded>): nat
    requires cfg.frameSize > 0
  {
    |InputSamples(frames[..FirstStamped(frames)])| / cfg.frameSize
  }

  /** From the first stamped frame on. */
  lemma {:induction false} StampedNumbers(cfg: Config, frames: seq<Decoded>)
    requires cfg.Valid() && cfg.frameSize > 0 && FirstStamped(frames) < |frames|
    ensures var seed := cfg.Seed(frames[FirstStamped(frames)].pts);
            Numbered(cfg.frameSize, EncodeAll(cfg, frames), SentBeforeSeed(cfg, frames), seed)
    ensures EncodeAll(cfg, frames).seeded
  {
    var prior, f := frames[..|frames| - 1], frames[|frames| - 1];
    var j := FirstStamped(frames);
    var seed := cfg.Seed(frames[j].pts);
    var st := EncodeAll(cfg, prior);
    var first := SentBeforeSeed(cfg, frames);
    if j < |frames| - 1 {
      StampedNumbers(cfg, prior);
      assert prior[..j] == frames[..j];
    } else {
      assert frames[..j] == prior;
      FramesSent(cfg, prior);
      UnstampedNumbers(cfg, prior, |InputSamples(prior)| + 1, 0);
      NumberedFromSeed(cfg.frameSize, st, |InputSamples(prior)| + 1, seed);
    }
    var s := Seeded(cfg, st, f);
    DrainNumbers(cfg.frameSize, s.(fifo := s.fifo + f.samples), first, seed);
  }

  /** Seeding an unseeded counter renumbers from the next frame on. */
  lemma NumberedFromSeed(size: nat, st: State, unseeded: nat, seed: int)
    requires Numbered(size, st, unseeded, 0) && !st.seeded
    ensures Numbered(size, st.(nextPts := seed, seeded := true), |st.sent|, seed)
  {
  }

  /**
   The numbering of a whole stream with at least one stamped frame: the frames that were
   complete before the first stamped frame count up from zero, all later ones from its PTS.
   */
  lemma SessionNumbers(cfg: Config, frames: seq<Decoded>, delayed: seq<Recorded>)
    requires cfg.Valid() && cfg.frameSize > 0 && FirstStamped(frames) < |frames|
    ensures var seed := cfg.Seed(frames[FirstStamped(frames)].pts);
            var first := SentBeforeSeed(cfg, frames);
            var sent := Session(cfg, frames, delayed).sent;
            && first <= |sent|
            && forall k :: 0 <= k < |sent| ==> sent[k].pts == Number(cfg.frameSize, first, seed, k)
  {
    var st := EncodeAll(cfg, frames);
    StampedNumbers(cfg, frames);
    DrainNumbers(cfg.frameSize, st.(fifo := st.fifo + delayed), SentBeforeSeed(cfg, frames),
                 cfg.Seed(frames[FirstStamped(frames)].pts));
  }

  /** With a PTS on the first frame, frame `k` carries seed + k * frameSize throughout. */
  lemma FirstFrameSeedsAll(cfg: Config, frames: seq<Decoded>, delayed: seq<Recorded>, k: nat)
    requires cfg.Valid() && cfg.frameSize > 0 && frames != [] && frames[0].pts != NO_PTS
    requires k < |Session(cfg, frames, delayed).sent|
    ensures Session(cfg, frames, delayed).sent[k].pts == cfg.Seed(frames[0].pts) + k * cfg.frameSize
  {
    SessionNumbers(cfg, frames, delayed);
    assert FirstStamped(frames) == 0;
    assert frames[..0] == [];
    DivUnique(0, cfg.frameSize, 0, 0);
  }

  /**
   What that means in real time: the frames complete before the first stamped frame start at zero and
   follow each other without a gap; from then on frame `k` starts, to half an encoder tick, as long
   after that frame's own time as the samples sent in between last.
   */
  lemma SessionKeepsTime(cfg: Config, frames: seq<Decoded>, delayed: seq<Recorded>, k: nat)
    requires cfg.Valid() && cfg.frameSize > 0 && FirstStamped(frames) < |frames|
    requires k < |Session(cfg, frames, delayed).sent|
    ensures var first := SentBeforeSeed(cfg, frames);
            var pts := Session(cfg, frames, delayed).sent[k].pts;
            if k < first then pts == k * cfg.frameSize
            else
              var start := InSeconds(frames[FirstStamped(frames)].pts, cfg.decoderBase)
                           + InSeconds((k - first) * cfg.frameSize, cfg.encoderBase);
              var tick := cfg.encoderBase.Seconds();
              start - tick / 2.0 <= InSeconds(pts, cfg.encoderBase) <= start + tick / 2.0
  {
    var stamp, first := frames[FirstStamped(frames)].pts, SentBeforeSeed(cfg, frames);
    SessionNumbers(cfg, frames, delayed);
    RescaleWithinHalfTick(stamp, cfg.decoderBase, cfg.encoderBase);
    if k >= first {
      AddTicks(cfg.Seed(stamp), (k - first) * cfg.frameSize, cfg.encoderBase);
    }
  }

  ghost predicate Increasing(sent: seq<Frame>) {
    forall k :: 0 <= k < |sent| - 1 ==> sent[k].pts < sent[k + 1].pts
  }

  /** How many frames a whole stream gives the encoder. */
  lemma SessionFrames(cfg: Config, frames: seq<Decoded>, delayed: seq<Recorded>)
    requires cfg.Valid() && cfg.frameSize > 0
    ensures |Session(cfg, frames, delayed).sent| == CeilDiv(|InputSamples(frames)| + |delayed|, cfg.frameSize)
  {
    var pad := SessionConserves(cfg, frames, delayed);
    var sent := Session(cfg, frames, delayed).sent;
    SentLength(sent, cfg.frameSize);
    CeilDivUnique(|InputSamples(frames)| + |delayed|, cfg.frameSize, |sent|, pad);
  }

  /** Without any stamped frame the whole stream counts up from zero. */
  lemma UnstampedSessionNumbers(cfg: Config, frames: seq<Decoded>, delayed: seq<Recorded>)
    requires cfg.Valid() && cfg.frameSize > 0 && FirstStamped(frames) == |frames|
    ensures var sent := Session(cfg, frames, delayed).sent;
            forall k :: 0 <= k < |sent| ==> sent[k].pts == k * cfg.frameSize
  {
    var st := EncodeAll(cfg, frames);
    var first := |InputSamples(frames)| + |delayed| + 2;
    UnstampedNumbers(cfg, frames, first, 0);
    ConservedLength(cfg, frames);
    DrainNumbers(cfg.frameSize, st.(fifo := st.fifo + delayed), first, 0);
  }

  /** A strictly increasing PTS, read off the numbering. */
  lemma NumbersIncreaseIff(size: nat, first: nat, seed: int, sent: seq<Frame>)
    requires size > 0 && forall k :: 0 <= k < |sent| ==> sent[k].pts == Number(size, first, seed, k)
    ensures Increasing(sent) <==> first == 0 || first >= |sent| || seed > (first - 1) * size
  {
    if 0 < first < |sent| {
      assert sent[first - 1].pts == (first - 1) * size;
      assert sent[first - 1 + 1].pts == seed;
    }
    forall k | 0 <= k < |sent| - 1 && k + 1 != first ensures sent[k].pts < sent[k + 1].pts {
      NumberStep(size, first, seed, k);
    }
  }

  /**
   What makes the PTS increase, in terms of the input: the first stamped frame, if there is one,
   comes before a frame was complete, or only after the last one was, or its PTS lies past the
   last one counted up from zero.
   */
  predicate SeedIsLate(cfg: Config, frames: seq<Decoded>, delayed: seq<Recorded>)
    requires cfg.Valid() && cfg.frameSize > 0
  {
    var j := FirstStamped(frames);
    j < |frames| ==>
      var first := SentBeforeSeed(cfg, frames);
      || first == 0
      || first == CeilDiv(|InputSamples(frames)| + |delayed|, cfg.frameSize)
      || cfg.Seed(frames[j].pts) > (first - 1) * cfg.frameSize
  }

  /** The PTS sent to a fixed-frame-size encoder increase strictly exactly when the seed is late. */
  lemma PtsIncreaseIffSeedIsLate(cfg: Config, frames: seq<Decoded>, delayed: seq<Recorded>)
    requires cfg.Valid() && cfg.frameSize > 0
    ensures Increasing(Session(cfg, frames, delayed).sent) <==> SeedIsLate(cfg, frames, delayed)
  {
    var sent := Session(cfg, frames, delayed).sent;
    if FirstStamped(frames) < |frames| {
      SessionFrames(cfg, frames, delayed);
      SessionNumbers(cfg, frames, delayed);
      NumbersIncreaseIff(cfg.frameSize, SentBeforeSeed(cfg, frames), cfg.Seed(frames[FirstStamped(frames)].pts), sent);
    } else {
      UnstampedSessionNumbers(cfg, frames, delayed);
      NumbersIncreaseIff(cfg.frameSize, |sent|, 0, sent);
    }
  }

  // --- The imperative form ---

  class AudioStream {
    const cfg: Config
    var fifo: seq<Sample>
    var nextPts: int
    var nextPtsInitialized: bool
    var sent: seq<Frame>

    constructor (cfg: Config)
      ensures this.cfg == cfg && Snapshot() == INITIAL
    {
      this.cfg := cfg;
      fifo, nextPts, nextPtsInitialized, sent := [], 0, false, [];
    }

    function Snapshot(): State
      reads this
    {
      State(fifo, nextPts, nextPtsInitialized, sent)
    }

    method DrainFifo()
      requires cfg.frameSize > 0
      modifies this
      ensures Snapshot() == Drain(cfg.frameSize, old(Snapshot()))
      ensures |fifo| < cfg.frameSize
    {
      while |fifo| >= cfg.frameSize
        invariant Drain(cfg.frameSize, Snapshot()) == Drain(cfg.frameSize, old(Snapshot()))
        decreases |fifo|
      {
        var pts := nextPts;
        nextPts := nextPts + cfg.frameSize;
        sent := sent + [Frame(pts, fifo[..cfg.frameSize])];
        fifo := fifo[cfg.frameSize..];
      }
    }

    method EncodeAudioFrame(f: Decoded)
      requires cfg.Valid()
      modifies this
      ensures Snapshot() == Encode(cfg, old(Snapshot()), f)
    {
      if cfg.frameSize > 0 {
        if !nextPtsInitialized && f.pts != NO_PTS {
          nextPts := RescaleQ(f.pts, cfg.decoderBase, cfg.encoderBase);
          nextPtsInitialized := true;
        }
        fifo := fifo + f.samples;
        DrainFifo();
        return;
      }
      sent := sent + [Frame(f.pts, f.samples)];
    }

    /** End of stream for the FIFO: `delayed` is the resampler's delay line. */
    method FlushFifo(delayed: seq<Recorded>)
      modifies this
      ensures Snapshot() == Finish(cfg, old(Snapshot()), delayed)
    {
      if cfg.frameSize == 0 {
        return;
      }
      if |delayed| > 0 {
        fifo := fifo + delayed;
      } else {
        assert fifo + delayed == fifo;
      }
      DrainFifo();
      var remaining := |fifo|;
      if remaining > 0 {
        sent := sent + [Frame(nextPts, fifo + Silence(cfg.frameSize - remaining))];
        fifo := [];
      }
    }

    /** `tail` are the frames the decoder still holds. */
    method Flush(ghost before: seq<Decoded>, tail: seq<Decoded>, delayed: seq<Recorded>)
      requires cfg.Valid() && Snapshot() == EncodeAll(cfg, before)
      modifies this
      ensures Snapshot() == Session(cfg, before + tail, delayed)
    {
      TakeNoneOrAll(before, tail);
      for n := 0 to |tail|
        invariant Snapshot() == EncodeAll(cfg, before + tail[..n])
      {
        EncodeAllSnoc(cfg, before + tail[..n], tail[n]);
        TakeOneMore(before, tail, n);
        EncodeAudioFrame(tail[n]);
      }
      FlushFifo(delayed);
    }
  }

  lemma EncodeAllSnoc(cfg: Config, frames: seq<Decoded>, f: Decoded)
    requires cfg.Valid()
    ensures EncodeAll(cfg, frames + [f]) == Encode(cfg, EncodeAll(cfg, frames), f)
  {
    assert (frames + [f])[..|frames|] == frames;
  }
}
