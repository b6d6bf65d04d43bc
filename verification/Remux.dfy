/**
 The packet loop of a transcode (pkg/ffmpeg/transcode.go, readAllPackets) over the
 per-stream states of pkg/ffmpeg/stream.go: demuxed packets of many streams arrive
 interleaved, are rebased, and are offered to their output stream, which drops,
 rescales, repairs and writes them. Decoders and encoders appear only through the
 packets an encoder releases.
 */
module Remux {
  import opened Timestamps
  import opened Rebase
  import opened DtsRepair

  // --- ADTS framing ---

  const ADTS_HEADER_SIZE := 7

  predicate IsADTSFrame(payload: seq<byte>) {
    |payload| >= ADTS_HEADER_SIZE && payload[0] == 0xFF && payload[1] & 0xF0 == 0xF0
  }

  /** The 12-bit syncword of section 6.2 of ISO/IEC 13818-7, read most significant bit first. */
  predicate StartsWithSyncword(payload: seq<byte>) {
    |payload| >= 2 && ((payload[0] as bv16 << 8) | payload[1] as bv16) >> 4 == 0xFFF
  }

  lemma ADTSFrameIffSyncword(payload: seq<byte>)
    ensures IsADTSFrame(payload) <==> |payload| >= ADTS_HEADER_SIZE && StartsWithSyncword(payload)
  {
  }

  // --- One output stream, on values ---

  /** A packet offered to an output stream, still in its source timebase. */
  datatype Raw = Raw(stamps: Stamps, data: seq<byte>)

  /** A packet in the muxer's log. */
  datatype Out = Out(stream: int, stamps: Stamps, data: seq<byte>)

  datatype Config = Config(outIndex: int, from: Rational, to: Rational, requireADTS: bool) {
    predicate Valid() {
      from.Valid() && to.Valid()
    }

    predicate Accepts(raw: Raw) {
      !requireADTS || IsADTSFrame(raw.data)
    }

    /** Packet.RescaleTs: a missing timestamp stays missing. */
    function Rescaled(s: Stamps): Stamps
      requires Valid()
    {
      Stamps(if s.dts == NO_PTS then NO_PTS else Rescale64(s.dts, from, to),
             if s.pts == NO_PTS then NO_PTS else Rescale64(s.pts, from, to))
    }
  }

  datatype State = State(last: int64, frames: nat, clamped: nat, dropped: nat)

  const INITIAL := State(NO_PTS, 0, 0, 0)

  datatype Fed = Fed(state: State, out: seq<Out>)

  /** One packet offered to a stream in state `st`. */
  function Offer(cfg: Config, st: State, raw: Raw): Fed
    requires cfg.Valid()
  {
    if !cfg.Accepts(raw) then Fed(st.(dropped := st.dropped + 1), [])
    else
      var s := cfg.Rescaled(raw.stamps);
      var c := MonotonicDtsClamp(st.last, s.dts, s.pts);
      Fed(State(c.dts, st.frames + 1, st.clamped + (if c.clamped then 1 else 0), st.dropped),
          [Out(cfg.outIndex, Stamps(c.dts, c.pts), raw.data)])
  }

  function Then(first: Fed, next: Fed): Fed {
    Fed(next.state, first.out + next.out)
  }

  /** A stream run alone on `raws`. */
  function Feed(cfg: Config, st: State, raws: seq<Raw>): Fed
    requires cfg.Valid()
  {
    if raws == [] then Fed(st, [])
    else
      var prior := Feed(cfg, st, raws[..|raws| - 1]);
      Then(prior, Offer(cfg, prior.state, raws[|raws| - 1]))
  }

  lemma {:induction false} FeedConcat(cfg: Config, st: State, xs: seq<Raw>, ys: seq<Raw>)
    requires cfg.Valid()
    ensures var first := Feed(cfg, st, xs);
            Feed(cfg, st, xs + ys) == Then(first, Feed(cfg, first.state, ys))
  {
    var first := Feed(cfg, st, xs);
    if ys == [] {
      assert xs + ys == xs;
    } else {
      var prior := ys[..|ys| - 1];
      FeedConcat(cfg, st, xs, prior);
      assert (xs + ys)[..|xs + ys| - 1] == xs + prior;
      var mid := Feed(cfg, first.state, prior);
    }
  }

  /** The timestamps of the packets a stream keeps, in its output timebase. */
  function Kept(cfg: Config, raws: seq<Raw>): seq<Stamps>
    requires cfg.Valid()
  {
    if raws == [] then []
    else
      Kept(cfg, raws[..|raws| - 1])
      + if cfg.Accepts(raws[|raws| - 1]) then [cfg.Rescaled(raws[|raws| - 1].stamps)] else []
  }

  function KeptData(cfg: Config, raws: seq<Raw>): seq<seq<byte>> {
    if raws == [] then []
    else
      KeptData(cfg, raws[..|raws| - 1])
      + if cfg.Accepts(raws[|raws| - 1]) then [raws[|raws| - 1].data] else []
  }

  function Times(out: seq<Out>): (s: seq<Stamps>)
    ensures |s| == |out|
  {
    seq(|out|, i requires 0 <= i < |out| => out[i].stamps)
  }

  function Payloads(out: seq<Out>): seq<seq<byte>> {
    seq(|out|, i requires 0 <= i < |out| => out[i].data)
  }

  /** `fed` has written the repair of `kept` and counted its clamps. */
  ghost predicate WroteRepairOf(fed: Fed, kept: seq<Stamps>) {
    && Times(fed.out) == Repair(NO_PTS, kept)
    && fed.state.last == LastDts(NO_PTS, Repair(NO_PTS, kept))
    && fed.state.clamped == Clamps(NO_PTS, kept)
  }

  /** What a stream writes is the whole-stream repair of the packets it keeps. */
  lemma {:induction false} FeedRepairs(cfg: Config, raws: seq<Raw>)
    requires cfg.Valid()
    ensures WroteRepairOf(Feed(cfg, INITIAL, raws), Kept(cfg, raws))
  {
    if raws != [] {
      var prior, raw := raws[..|raws| - 1], raws[|raws| - 1];
      FeedRepairs(cfg, prior);
      var fed := Feed(cfg, INITIAL, prior);
      if cfg.Accepts(raw) {
      } else {
        assert fed.out + [] == fed.out;
        assert Kept(cfg, prior) + [] == Kept(cfg, prior);
      }
    }
  }

  /**
   Payloads are untouched and in order; every packet offered is either written or counted
   as dropped; and on a stream that needs ADTS framing everything written starts with the
   syncword.
   */
  lemma {:induction false} FeedConserves(cfg: Config, raws: seq<Raw>)
    requires cfg.Valid()
    ensures var fed := Feed(cfg, INITIAL, raws);
            && Payloads(fed.out) == KeptData(cfg, raws)
            && fed.state.frames == |fed.out|
            && |fed.out| + fed.state.dropped == |raws|
            && (forall o :: o in fed.out ==> o.stream == cfg.outIndex)
            && (cfg.requireADTS ==> forall o :: o in fed.out ==> StartsWithSyncword(o.data))
  {
    if raws != [] {
      var prior, raw := raws[..|raws| - 1], raws[|raws| - 1];
      FeedConserves(cfg, prior);
      ADTSFrameIffSyncword(raw.data);
      var fed := Feed(cfg, INITIAL, prior);
      var next := Offer(cfg, fed.state, raw);
      assert Payloads(fed.out + next.out) == Payloads(fed.out) + Payloads(next.out);
    }
  }

  // --- Many streams, interleaved ---

  datatype Kind = Copy | Encode

  datatype Output = Output(kind: Kind, cfg: Config)

  /**
   A packet as the demuxer delivers it, with the packets that the encoder of its stream
   (if it is re-encoded) and the downmix encoder (if it is the downmix source) release
   when they are fed it.
   */
  datatype Demuxed = Demuxed(stream: int, stamps: Stamps, data: seq<byte>, encoded: seq<Raw>, downmixed: seq<Raw>)

  datatype Downmix = NoDownmix | Downmix(source: int, cfg: Config)

  datatype Job = Job(rebase: TimestampRebase, outputs: map<int, Output>, downmix: Downmix) {
    ghost predicate Valid() {
      && rebase.Valid()
      && (forall i :: i in outputs ==> outputs[i].cfg.Valid())
      && (downmix.Downmix? ==> downmix.cfg.Valid())
      // The muxer numbers its streams apart.
      && (forall i, j :: i in outputs && j in outputs && i != j ==>
            outputs[i].cfg.outIndex != outputs[j].cfg.outIndex)
      && (downmix.Downmix? ==>
            forall i :: i in outputs ==> outputs[i].cfg.outIndex != downmix.cfg.outIndex)
    }

    function ToDownmix(p: Demuxed): seq<Raw> {
      if downmix.Downmix? && p.stream == downmix.source then p.downmixed else []
    }

    function ToStream(i: int, p: Demuxed): seq<Raw>
      requires rebase.Valid()
    {
      if i !in outputs || p.stream != i then []
      else if outputs[i].kind.Encode? then p.encoded
      else [Raw(rebase.Rebased(i, p.stamps), p.data)]
    }
  }

  datatype Run = Run(states: map<int, State>, downmix: State, log: seq<Out>)

  function Start(job: Job): Run {
    Run(map i | i in job.outputs :: INITIAL, INITIAL, [])
  }

  function FeedDownmix(job: Job, st: State, p: Demuxed): Fed
    requires job.Valid()
  {
    if job.downmix.Downmix? then Feed(job.downmix.cfg, st, job.ToDownmix(p)) else Fed(st, [])
  }

  function FeedStream(job: Job, states: map<int, State>, p: Demuxed): Fed
    requires job.Valid() && states.Keys == job.outputs.Keys && p.stream in states
  {
    Feed(job.outputs[p.stream].cfg, states[p.stream], job.ToStream(p.stream, p))
  }

  function MixStep(job: Job, run: Run, p: Demuxed): Run
    requires job.Valid()
  {
    var mixed := FeedDownmix(job, run.downmix, p);
    Run(run.states, mixed.state, run.log + mixed.out)
  }

  function StreamStep(job: Job, run: Run, p: Demuxed): Run
    requires job.Valid() && run.states.Keys == job.outputs.Keys
  {
    if p.stream !in run.states then run
    else
      var fed := FeedStream(job, run.states, p);
      Run(run.states[p.stream := fed.state], run.downmix, run.log + fed.out)
  }

  /** One packet of the loop: the downmix clone first, then the packet's own stream. */
  function Step(job: Job, run: Run, p: Demuxed): (next: Run)
    requires job.Valid() && run.states.Keys == job.outputs.Keys
    ensures next.states.Keys == job.outputs.Keys
  {
    StreamStep(job, MixStep(job, run, p), p)
  }

  function RunAll(job: Job, packets: seq<Demuxed>): (run: Run)
    requires job.Valid()
    ensures run.states.Keys == job.outputs.Keys
  {
    if packets == [] then Start(job)
    else Step(job, RunAll(job, packets[..|packets| - 1]), packets[|packets| - 1])
  }

  /** Everything stream `i` is offered: its own subsequence of the packets, in order. */
  function Own(job: Job, i: int, packets: seq<Demuxed>): seq<Raw>
    requires job.rebase.Valid()
  {
    if packets == [] then []
    else Own(job, i, packets[..|packets| - 1]) + job.ToStream(i, packets[|packets| - 1])
  }

  function OwnDownmix(job: Job, packets: seq<Demuxed>): seq<Raw> {
    if packets == [] then []
    else OwnDownmix(job, packets[..|packets| - 1]) + job.ToDownmix(packets[|packets| - 1])
  }

  /** The muxer's log restricted to one output stream. */
  function OnStream(log: seq<Out>, index: int): seq<Out> {
    if log == [] then []
    else OnStream(log[..|log| - 1], index) + if log[|log| - 1].stream == index then [log[|log| - 1]] else []
  }

  lemma {:induction false} OnStreamConcat(xs: seq<Out>, ys: seq<Out>, index: int)
    ensures OnStream(xs + ys, index) == OnStream(xs, index) + OnStream(ys, index)
  {
    if ys == [] {
      assert xs + ys == xs;
    } else {
      var prior := ys[..|ys| - 1];
      OnStreamConcat(xs, prior, index);
      assert (xs + ys)[..|xs + ys| - 1] == xs + prior;
    }
  }

  /** A stream writes to its own output index only. */
  lemma {:induction false} FeedStaysOnStream(cfg: Config, st: State, raws: seq<Raw>, index: int)
    requires cfg.Valid()
    ensures OnStream(Feed(cfg, st, raws).out, index)
         == if index == cfg.outIndex then Feed(cfg, st, raws).out else []
  {
    if raws != [] {
      FeedStaysOnStream(cfg, st, raws[..|raws| - 1], index);
      var prior := Feed(cfg, st, raws[..|raws| - 1]);
      OnStreamConcat(prior.out, Offer(cfg, prior.state, raws[|raws| - 1]).out, index);
    }
  }

  /** The two writers of one packet, seen on the output index of stream `i`. */
  lemma WritersOnStream(job: Job, run: Run, p: Demuxed, i: int)
    requires job.Valid() && run.states.Keys == job.outputs.Keys && i in job.outputs
    ensures OnStream(FeedDownmix(job, run.downmix, p).out, job.outputs[i].cfg.outIndex) == []
    ensures p.stream in run.states ==>
              (OnStream(FeedStream(job, run.states, p).out, job.outputs[i].cfg.outIndex)
            == if p.stream == i then FeedStream(job, run.states, p).out else [])
  {
    var index := job.outputs[i].cfg.outIndex;
    if job.downmix.Downmix? {
      FeedStaysOnStream(job.downmix.cfg, run.downmix, job.ToDownmix(p), index);
    }
    if p.stream in run.states {
      FeedStaysOnStream(job.outputs[p.stream].cfg, run.states[p.stream], job.ToStream(p.stream, p), index);
    }
  }

  lemma StepOnState(job: Job, run: Run, p: Demuxed, i: int)
    requires job.Valid() && run.states.Keys == job.outputs.Keys && i in job.outputs
    ensures Step(job, run, p).states[i] == Feed(job.outputs[i].cfg, run.states[i], job.ToStream(i, p)).state
  {
  }

  lemma StepOnLog(job: Job, run: Run, p: Demuxed, index: int)
    requires job.Valid() && run.states.Keys == job.outputs.Keys
    ensures OnStream(Step(job, run, p).log, index)
         == OnStream(run.log, index) + OnStream(FeedDownmix(job, run.downmix, p).out, index)
          + if p.stream in run.states then OnStream(FeedStream(job, run.states, p).out, index) else []
  {
    var mixed := FeedDownmix(job, run.downmix, p).out;
    OnStreamConcat(run.log, mixed, index);
    if p.stream in run.states {
      OnStreamConcat(run.log + mixed, FeedStream(job, run.states, p).out, index);
    }
  }

  /** What one packet of the loop adds to the log of stream `i`. */
  lemma StepOnStream(job: Job, run: Run, p: Demuxed, i: int)
    requires job.Valid() && run.states.Keys == job.outputs.Keys && i in job.outputs
    ensures var cfg := job.outputs[i].cfg;
            var fed := Feed(cfg, run.states[i], job.ToStream(i, p));
            && Step(job, run, p).states[i] == fed.state
            && OnStream(Step(job, run, p).log, cfg.outIndex) == OnStream(run.log, cfg.outIndex) + fed.out
  {
    StepOnState(job, run, p, i);
    StepOnLog(job, run, p, job.outputs[i].cfg.outIndex);
    WritersOnStream(job, run, p, i);
  }

  /**
   Non-interference: however the demuxer interleaves the streams, what output stream `i`
   holds and has counted is what it gives when run alone on its own packets.
   */
  lemma {:induction false} StreamsDoNotInterfere(job: Job, packets: seq<Demuxed>, i: int)
    requires job.Valid() && i in job.outputs
    ensures var cfg := job.outputs[i].cfg;
            var run := RunAll(job, packets);
            var alone := Feed(cfg, INITIAL, Own(job, i, packets));
            run.states[i] == alone.state && OnStream(run.log, cfg.outIndex) == alone.out
  {
    if packets != [] {
      var prior, p := packets[..|packets| - 1], packets[|packets| - 1];
      StreamsDoNotInterfere(job, prior, i);
      StepOnStream(job, RunAll(job, prior), p, i);
      FeedConcat(job.outputs[i].cfg, INITIAL, Own(job, i, prior), job.ToStream(i, p));
    }
  }

  /** The downmix reads the same packets as its source stream, and neither disturbs the other. */
  lemma {:induction false} DownmixDoesNotInterfere(job: Job, packets: seq<Demuxed>)
    requires job.Valid() && job.downmix.Downmix?
    ensures var cfg := job.downmix.cfg;
            var run := RunAll(job, packets);
            var alone := Feed(cfg, INITIAL, OwnDownmix(job, packets));
            run.downmix == alone.state && OnStream(run.log, cfg.outIndex) == alone.out
  {
    if packets != [] {
      var prior, p := packets[..|packets| - 1], packets[|packets| - 1];
      DownmixDoesNotInterfere(job, prior);
      StepOnDownmix(job, RunAll(job, prior), p);
      FeedConcat(job.downmix.cfg, INITIAL, OwnDownmix(job, prior), job.ToDownmix(p));
    }
  }

  lemma StepOnDownmix(job: Job, run: Run, p: Demuxed)
    requires job.Valid() && run.states.Keys == job.outputs.Keys && job.downmix.Downmix?
    ensures var cfg := job.downmix.cfg;
            var fed := Feed(cfg, run.downmix, job.ToDownmix(p));
            && Step(job, run, p).downmix == fed.state
            && OnStream(Step(job, run, p).log, cfg.outIndex) == OnStream(run.log, cfg.outIndex) + fed.out
  {
    var index := job.downmix.cfg.outIndex;
    var mixed := FeedDownmix(job, run.downmix, p).out;
    FeedStaysOnStream(job.downmix.cfg, run.downmix, job.ToDownmix(p), index);
    OnStreamConcat(run.log, mixed, index);
    if p.stream in run.states {
      FeedStaysOnStream(job.outputs[p.stream].cfg, run.states[p.stream], job.ToStream(p.stream, p), index);
      OnStreamConcat(run.log + mixed, FeedStream(job, run.states, p).out, index);
    }
  }

  /**
   End to end, for every interleaving: on the wire of stream `i` the timestamps are the
   repair of its own rebased and rescaled packets, and packets in equal packets written
   plus packets dropped.
   */
  lemma InterleavedStreamIsRepaired(job: Job, packets: seq<Demuxed>, i: int)
    requires job.Valid() && i in job.outputs
    ensures var cfg := job.outputs[i].cfg;
            var run := RunAll(job, packets);
            var wire := OnStream(run.log, cfg.outIndex);
            && Times(wire) == Repair(NO_PTS, Kept(cfg, Own(job, i, packets)))
            && Payloads(wire) == KeptData(cfg, Own(job, i, packets))
            && run.states[i].clamped == Clamps(NO_PTS, Kept(cfg, Own(job, i, packets)))
            && |wire| + run.states[i].dropped == |Own(job, i, packets)|
            && (cfg.requireADTS ==> forall o :: o in wire ==> StartsWithSyncword(o.data))
  {
    StreamsDoNotInterfere(job, packets, i);
    FeedRepairs(job.outputs[i].cfg, Own(job, i, packets));
    FeedConserves(job.outputs[i].cfg, Own(job, i, packets));
  }

  /**
   The closed form on the wire: whatever the interleaving, stream `i` is written along the least
   envelope of its own rebased and rescaled packets exactly when that envelope fits int64.
   */
  lemma WireFollowsEnvelopeIffFits(job: Job, packets: seq<Demuxed>, i: int)
    requires job.Valid() && i in job.outputs
    ensures var cfg := job.outputs[i].cfg;
            var kept := Kept(cfg, Own(job, i, packets));
            var times := Times(OnStream(RunAll(job, packets).log, cfg.outIndex));
            |times| == |kept| && (FollowsThroughout(kept, times) <==> Fits(kept))
  {
    InterleavedStreamIsRepaired(job, packets, i);
    RepairFollowsEnvelopeIffFits(Kept(job.outputs[i].cfg, Own(job, i, packets)));
  }

  /** Timestamps within [-bound, bound], or missing. */
  predicate Within(bound: nat, ps: seq<Stamps>) {
    forall k :: 0 <= k < |ps| ==>
      && (ps[k].dts == NO_PTS || 0 - bound <= ps[k].dts <= bound)
      && (ps[k].pts == NO_PTS || 0 - bound <= ps[k].pts <= bound)
  }

  /**
   In particular with bounded timestamps, in any interleaved run: the wire follows the envelope,
   is accepted by the muxer packet by packet, and the clamp counter is the number of packets changed.
   */
  lemma BoundedWireIsRegular(job: Job, packets: seq<Demuxed>, i: int, bound: nat)
    requires job.Valid() && i in job.outputs
    requires var kept := Kept(job.outputs[i].cfg, Own(job, i, packets));
             Within(bound, kept) && bound + |kept| <= MAX_INT64
    ensures var cfg := job.outputs[i].cfg;
            var kept := Kept(cfg, Own(job, i, packets));
            var run := RunAll(job, packets);
            var times := Times(OnStream(run.log, cfg.outIndex));
            && |times| == |kept| && FollowsThroughout(kept, times)
            && WellFormed(NO_PTS, times)
            && run.states[i].clamped == Changed(kept, times)
  {
    var kept := Kept(job.outputs[i].cfg, Own(job, i, packets));
    BoundedStampsFit(kept, bound);
    WireFollowsEnvelopeIffFits(job, packets, i);
    InterleavedStreamIsRepaired(job, packets, i);
    FittingClampsCountChanges(kept);
    RepairedCountsNoClampIffFits(kept);
    NoClampIffWellFormed(NO_PTS, Repair(NO_PTS, kept));
  }

  // --- The imperative form ---

  /** An append-only output whose writes succeed `room` more times and then fail. */
  class Muxer {
    var log: seq<Out>
    var room: nat

    constructor (room: nat)
      ensures log == [] && this.room == room
    {
      log := [];
      this.room := room;
    }

    method WriteInterleavedFrame(pkt: Packet) returns (ok: bool)
      modifies this
      ensures ok == (old(room) > 0)
      ensures log == if ok then old(log) + [Out(pkt.streamIndex, pkt.Times(), pkt.data)] else old(log)
    {
      ok := room > 0;
      if ok {
        room := room - 1;
        log := log + [Out(pkt.streamIndex, pkt.Times(), pkt.data)];
      }
    }
  }

  /** copyStreamState; also the embedded part of a re-encoded stream. */
  class CopyStream {
    const cfg: Config
    var lastWrittenDts: int64
    var frames: nat
    var clampedCount: nat
    var droppedCount: nat

    constructor (cfg: Config)
      ensures this.cfg == cfg && Snapshot() == INITIAL
    {
      this.cfg := cfg;
      lastWrittenDts, frames, clampedCount, droppedCount := NO_PTS, 0, 0, 0;
    }

    function Snapshot(): State
      reads this
    {
      State(lastWrittenDts, frames, clampedCount, droppedCount)
    }

    method DropMalformedADTS(pkt: Packet) returns (dropped: bool)
      modifies this`droppedCount
      ensures dropped <==> cfg.requireADTS && !IsADTSFrame(pkt.data)
      ensures droppedCount == old(droppedCount) + if dropped then 1 else 0
    {
      if !cfg.requireADTS || IsADTSFrame(pkt.data) {
        return false;
      }
      droppedCount := droppedCount + 1;
      return true;
    }

    /** Leaves the packet acceptable to the muxer unless int64 overflows, and counts a change. */
    method RepairNonMonotonicDts(pkt: Packet)
      modifies this`clampedCount, pkt`dts, pkt`pts
      ensures pkt.Times() == Written(lastWrittenDts, old(pkt.Times()))
      ensures clampedCount == old(clampedCount)
        + if Acceptable(lastWrittenDts, old(pkt.Times())) then 0 else 1
      ensures lastWrittenDts < MAX_INT64 ==> Acceptable(lastWrittenDts, pkt.Times())
    {
      var c := MonotonicDtsClamp(lastWrittenDts, pkt.dts, pkt.pts);
      if !c.clamped {
        return;
      }
      clampedCount := clampedCount + 1;
      pkt.dts := c.dts;
      if c.pts != pkt.pts {
        pkt.pts := c.pts;
      }
    }

    method RescaleTs(pkt: Packet)
      requires cfg.Valid()
      modifies pkt`dts, pkt`pts
      ensures pkt.Times() == cfg.Rescaled(old(pkt.Times()))
    {
      if pkt.pts != NO_PTS {
        pkt.pts := Rescale64(pkt.pts, cfg.from, cfg.to);
      }
      if pkt.dts != NO_PTS {
        pkt.dts := Rescale64(pkt.dts, cfg.from, cfg.to);
      }
    }

    method ProcessPacket(pkt: Packet, mux: Muxer) returns (ok: bool)
      requires cfg.Valid()
      modifies this, pkt, mux
      ensures var fed := Offer(cfg, old(Snapshot()), old(Raw(pkt.Times(), pkt.data)));
              if ok then Snapshot() == fed.state && mux.log == old(mux.log) + fed.out
              else fed.out != [] && mux.log == old(mux.log) && lastWrittenDts == old(lastWrittenDts)
    {
      var dropped := DropMalformedADTS(pkt);
      if dropped {
        return true;
      }
      RescaleTs(pkt);
      pkt.streamIndex := cfg.outIndex;
      RepairNonMonotonicDts(pkt);
      frames := frames + 1;
      var writtenDts := pkt.dts;
      ok := mux.WriteInterleavedFrame(pkt);
      if ok {
        lastWrittenDts := writtenDts;
      }
    }

    /** One packet from the encoder. Encoders are not subject to ADTS framing. */
    method WriteEncoded(raw: Raw, pkt: Packet, mux: Muxer) returns (ok: bool)
      requires cfg.Valid() && !cfg.requireADTS
      modifies this, pkt, mux
      ensures var fed := Offer(cfg, old(Snapshot()), raw);
              if ok then Snapshot() == fed.state && mux.log == old(mux.log) + fed.out
              else mux.log == old(mux.log)
    {
      pkt.Load(cfg.outIndex, raw.stamps, raw.data);
      frames := frames + 1;
      RescaleTs(pkt);
      RepairNonMonotonicDts(pkt);
      var writtenDts := pkt.dts;
      ok := mux.WriteInterleavedFrame(pkt);
      if ok {
        lastWrittenDts := writtenDts;
      }
    }

    /** Drains the packets the encoder has ready, up to the first failed write. */
    method ReceiveAndWritePackets(encoded: seq<Raw>, pkt: Packet, mux: Muxer) returns (ok: bool)
      requires cfg.Valid() && !cfg.requireADTS
      modifies this, pkt, mux
      ensures var fed := Feed(cfg, old(Snapshot()), encoded);
              if ok then Snapshot() == fed.state && mux.log == old(mux.log) + fed.out
              else old(mux.log) <= mux.log <= old(mux.log) + fed.out
    {
      ghost var before, log := Snapshot(), mux.log;
      for n := 0 to |encoded|
        invariant Snapshot() == Feed(cfg, before, encoded[..n]).state
        invariant mux.log == log + Feed(cfg, before, encoded[..n]).out
      {
        FeedPrefix(cfg, before, encoded, n);
        ok := WriteEncoded(encoded[n], pkt, mux);
        if !ok {
          FeedGrows(cfg, before, encoded, n);
          return;
        }
      }
      assert encoded[..|encoded|] == encoded;
      ok := true;
    }
  }

  lemma FeedPrefix(cfg: Config, st: State, raws: seq<Raw>, n: nat)
    requires cfg.Valid() && n < |raws|
    ensures var prior := Feed(cfg, st, raws[..n]);
            var next := Offer(cfg, prior.state, raws[n]);
            Feed(cfg, st, raws[..n + 1]) == Then(prior, next)
  {
    assert raws[..n + 1][..n] == raws[..n];
  }

  lemma FeedGrows(cfg: Config, st: State, raws: seq<Raw>, n: nat)
    requires cfg.Valid() && n <= |raws|
    ensures Feed(cfg, st, raws[..n]).out <= Feed(cfg, st, raws).out
  {
    assert raws == raws[..n] + raws[n..];
    FeedConcat(cfg, st, raws[..n], raws[n..]);
  }

  /** Each input stream has its own state object, configured as the job says. */
  ghost predicate Wired(job: Job, streams: map<int, CopyStream>, downmix: CopyStream?) {
    && job.Valid()
    && streams.Keys == job.outputs.Keys
    && (forall i :: i in streams ==>
          streams[i].cfg == job.outputs[i].cfg && (job.outputs[i].kind.Encode? ==> !job.outputs[i].cfg.requireADTS))
    && (forall i, j :: i in streams && j in streams && i != j ==> streams[i] != streams[j])
    && (job.downmix.Downmix? <==> downmix != null)
    && (job.downmix.Downmix? ==> downmix.cfg == job.downmix.cfg && !downmix.cfg.requireADTS)
    && (forall i :: i in streams ==> streams[i] != downmix)
  }

  ghost predicate Holds(run: Run, streams: map<int, CopyStream>, downmix: CopyStream?, mux: Muxer)
    reads set i | i in streams :: streams[i], downmix, mux
  {
    && streams.Keys == run.states.Keys
    && (forall i :: i in streams ==> streams[i].Snapshot() == run.states[i])
    && (downmix != null ==> downmix.Snapshot() == run.downmix)
    && (downmix == null ==> run.downmix == INITIAL)
    && mux.log == run.log
  }

  lemma RunPrefix(job: Job, packets: seq<Demuxed>, n: nat)
    requires job.Valid() && n < |packets|
    ensures RunAll(job, packets[..n + 1]) == Step(job, RunAll(job, packets[..n]), packets[n])
  {
    assert packets[..n + 1][..n] == packets[..n];
  }

  /** The downmix half of one packet. */
  method ProcessDownmix(job: Job, p: Demuxed, index: int, streams: map<int, CopyStream>, downmix: CopyStream?,
                        clone: Packet, mux: Muxer, ghost run: Run)
    returns (ok: bool)
    requires Wired(job, streams, downmix) && Holds(run, streams, downmix, mux) && index == p.stream
    modifies downmix, clone, mux
    ensures ok ==> Holds(MixStep(job, run, p), streams, downmix, mux)
    ensures !ok ==> run.log <= mux.log <= MixStep(job, run, p).log
  {
    if downmix != null && index == job.downmix.source {
      ok := downmix.ReceiveAndWritePackets(p.downmixed, clone, mux);
    } else {
      ok := true;
    }
  }

  /** The packet's own stream; `packet` holds the rebased packet. */
  method ProcessStream(job: Job, p: Demuxed, s: CopyStream, packet: Packet, clone: Packet, mux: Muxer)
    returns (ok: bool)
    requires job.Valid() && p.stream in job.outputs && packet != clone
    requires s.cfg == job.outputs[p.stream].cfg
    requires job.outputs[p.stream].kind.Encode? ==> !s.cfg.requireADTS
    requires packet.Times() == job.rebase.Rebased(p.stream, p.stamps) && packet.data == p.data
    modifies s, packet, clone, mux
    ensures var fed := Feed(s.cfg, old(s.Snapshot()), job.ToStream(p.stream, p));
            if ok then s.Snapshot() == fed.state && mux.log == old(mux.log) + fed.out
            else old(mux.log) <= mux.log <= old(mux.log) + fed.out
  {
    if job.outputs[p.stream].kind.Encode? {
      ok := s.ReceiveAndWritePackets(p.encoded, clone, mux);
    } else {
      ok := s.ProcessPacket(packet, mux);
    }
  }

  /** The stream half of one packet: nothing when the stream has no place in the output. */
  method RouteToStream(job: Job, p: Demuxed, streams: map<int, CopyStream>, downmix: CopyStream?,
                       packet: Packet, clone: Packet, mux: Muxer, ghost run: Run)
    returns (ok: bool)
    requires Wired(job, streams, downmix) && Holds(run, streams, downmix, mux) && packet != clone
    requires packet.streamIndex == p.stream
    requires packet.Times() == job.rebase.Rebased(p.stream, p.stamps) && packet.data == p.data
    modifies set i | i in streams :: streams[i]
    modifies packet, clone, mux
    ensures ok ==> Holds(StreamStep(job, run, p), streams, downmix, mux)
    ensures !ok ==> run.log <= mux.log <= StreamStep(job, run, p).log
  {
    if packet.streamIndex !in streams {
      return true;
    }
    ok := ProcessStream(job, p, streams[packet.streamIndex], packet, clone, mux);
  }

  /** One turn of the packet loop. */
  method ProcessDemuxed(job: Job, p: Demuxed, streams: map<int, CopyStream>, downmix: CopyStream?,
                        packet: Packet, clone: Packet, mux: Muxer, ghost run: Run)
    returns (ok: bool)
    requires Wired(job, streams, downmix) && Holds(run, streams, downmix, mux) && packet != clone
    modifies set i | i in streams :: streams[i]
    modifies downmix, packet, clone, mux
    ensures ok ==> Holds(Step(job, run, p), streams, downmix, mux)
    ensures !ok ==> run.log <= mux.log <= Step(job, run, p).log
  {
    packet.Load(p.stream, p.stamps, p.data);
    job.rebase.Apply(packet);
    ok := ProcessDownmix(job, p, packet.streamIndex, streams, downmix, clone, mux, run);
    if !ok {
      assert run.log <= mux.log <= MixStep(job, run, p).log <= Step(job, run, p).log;
      return;
    }
    ok := RouteToStream(job, p, streams, downmix, packet, clone, mux, MixStep(job, run, p));
  }

  /**
   The packet loop. When every write succeeds the states and the log are those of the
   whole run; a failed write stops it part-way through packet `done`.
   */
  method ReadAllPackets(job: Job, packets: seq<Demuxed>, streams: map<int, CopyStream>, downmix: CopyStream?,
                        mux: Muxer)
    returns (ok: bool, done: nat)
    requires Wired(job, streams, downmix) && Holds(Start(job), streams, downmix, mux)
    modifies set i | i in streams :: streams[i]
    modifies downmix, mux
    ensures done <= |packets| && (ok <==> done == |packets|)
    ensures ok ==> Holds(RunAll(job, packets), streams, downmix, mux)
    ensures !ok ==> RunAll(job, packets[..done]).log <= mux.log <= RunAll(job, packets[..done + 1]).log
  {
    var packet := new Packet();
    var clone := new Packet();
    for n := 0 to |packets|
      invariant Holds(RunAll(job, packets[..n]), streams, downmix, mux)
    {
      RunPrefix(job, packets, n);
      ok := ProcessDemuxed(job, packets[n], streams, downmix, packet, clone, mux, RunAll(job, packets[..n]));
      if !ok {
        return false, n;
      }
    }
    assert packets[..|packets|] == packets;
    return true, |packets|;
  }

}
