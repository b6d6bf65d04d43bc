/**
 The resampler before the FIFO (resampleFrame in pkg/ffmpeg/stream_audio.go) and the whole way
 of a sample from the decoder to the encoder. The resampler is a delay line: it gives out what
 it was given, in order, but holds back some. It is locked on the format of its first frame; when
 the decoder changes format, it is replaced by a new one and what it held back is gone.
 */
module Resampler {
  import opened AudioFifo
  import opened Timestamps
  import opened Wrappers

  /**
   A frame from the decoder: its format, its samples, counted at the encoder's rate, and how many
   samples at most the resampler holds back after it.
   */
  datatype Raw = Raw(pts: int64, format: int, samples: seq<Recorded>, held: nat)

  /** `format` is None until the first frame. */
  datatype Swr = Swr(format: Option<int>, delay: seq<Recorded>)

  const FRESH := Swr(None, [])

  datatype Converted = Converted(out: seq<Recorded>, next: Swr)

  /** The resampler refuses a frame in another format. */
  predicate Changed(swr: Swr, f: Raw) {
    swr.format.Some? && swr.format.value != f.format
  }

  /** A conversion that is not refused. */
  function Convert(swr: Swr, f: Raw): Converted {
    var all := swr.delay + f.samples;
    var n := if f.held <= |all| then |all| - f.held else 0;
    Converted(all[..n], Swr(Some(f.format), all[n..]))
  }

  function Resample(swr: Swr, f: Raw): Converted {
    Convert(if Changed(swr, f) then FRESH else swr, f)
  }

  function After(raws: seq<Raw>): Swr {
    if raws == [] then FRESH else Resample(After(raws[..|raws| - 1]), raws[|raws| - 1]).next
  }

  /** What reaches the FIFO, or the encoder where there is none. */
  function Outputs(raws: seq<Raw>): seq<Decoded> {
    if raws == [] then []
    else
      var prior, f := raws[..|raws| - 1], raws[|raws| - 1];
      Outputs(prior) + [Decoded(f.pts, Resample(After(prior), f).out)]
  }

  function RawSamples(raws: seq<Raw>): seq<Recorded> {
    if raws == [] then [] else RawSamples(raws[..|raws| - 1]) + raws[|raws| - 1].samples
  }

  /** What was in delay lines that were given up. */
  function Discarded(raws: seq<Raw>): seq<Recorded> {
    if raws == [] then []
    else
      var prior, f := raws[..|raws| - 1], raws[|raws| - 1];
      Discarded(prior) + if Changed(After(prior), f) then After(prior).delay else []
  }

  /** A whole track, from the decoder's frames to the encoder's. */
  function Track(cfg: Config, raws: seq<Raw>): State
    requires cfg.Valid()
  {
    Session(cfg, Outputs(raws), After(raws).delay)
  }

  // --- What is lost ---

  /** What came out of the resampler and what is still in it. */
  function Kept(raws: seq<Raw>): seq<Recorded> {
    InputSamples(Outputs(raws)) + After(raws).delay
  }

  lemma ConvertConserves(swr: Swr, f: Raw)
    ensures var c := Convert(swr, f);
            c.out + c.next.delay == swr.delay + f.samples
  {
  }

  /** One frame into a resampler that is not replaced, or is. */
  lemma KeptStep(prior: seq<Raw>, f: Raw)
    ensures var base := if Changed(After(prior), f) then FRESH else After(prior);
            Kept(prior + [f]) == InputSamples(Outputs(prior)) + (base.delay + f.samples)
  {
    var base := if Changed(After(prior), f) then FRESH else After(prior);
    var c := Convert(base, f);
    assert (prior + [f])[..|prior|] == prior;
    ConvertConserves(base, f);
    ConcatAssociative(InputSamples(Outputs(prior)), c.out, c.next.delay);
  }

  ghost predicate Accounted(raws: seq<Raw>) {
    && |Kept(raws)| + |Discarded(raws)| == |RawSamples(raws)|
    && (Discarded(raws) == [] ==> Kept(raws) == RawSamples(raws))
  }

  lemma AccountSame(prior: seq<Raw>, f: Raw)
    requires Accounted(prior) && !Changed(After(prior), f)
    ensures Accounted(prior + [f])
  {
    KeptStep(prior, f);
    ConcatAssociative(InputSamples(Outputs(prior)), After(prior).delay, f.samples);
    assert Discarded(prior) + [] == Discarded(prior);
  }

  lemma AccountChanged(prior: seq<Raw>, f: Raw)
    requires Accounted(prior) && Changed(After(prior), f)
    ensures Accounted(prior + [f])
  {
    KeptStep(prior, f);
    assert [] + f.samples == f.samples;
    if After(prior).delay == [] {
      assert InputSamples(Outputs(prior)) + [] == InputSamples(Outputs(prior));
    }
  }

  /** Every sample is kept or discarded; when nothing is discarded, all are kept in order. */
  lemma {:induction false} KeptOrDiscarded(raws: seq<Raw>)
    ensures Accounted(raws)
  {
    if raws != [] {
      var prior, f := raws[..|raws| - 1], raws[|raws| - 1];
      KeptOrDiscarded(prior);
      if Changed(After(prior), f) {
        AccountChanged(prior, f);
      } else {
        AccountSame(prior, f);
      }
      assert raws == prior + [f];
    }
  }

  /** At every change of format the delay line is empty. */
  predicate ChangesFindNothing(raws: seq<Raw>) {
    forall i :: 0 < i < |raws| ==> ChangeFindsNothing(raws, i)
  }

  predicate ChangeFindsNothing(raws: seq<Raw>, i: int)
    requires 0 < i < |raws|
  {
    raws[i].format != raws[i - 1].format ==> After(raws[..i]).delay == []
  }

  lemma LockedOnLast(raws: seq<Raw>)
    requires raws != []
    ensures After(raws).format == Some(raws[|raws| - 1].format)
  {
  }

  lemma ChangesSnoc(raws: seq<Raw>)
    requires raws != []
    ensures var n := |raws| - 1;
            ChangesFindNothing(raws) <==> ChangesFindNothing(raws[..n]) && (n > 0 ==> ChangeFindsNothing(raws, n))
  {
    var n := |raws| - 1;
    var prior := raws[..n];
    forall i | 0 < i < n ensures ChangeFindsNothing(prior, i) <==> ChangeFindsNothing(raws, i) {
      assert prior[..i] == raws[..i];
    }
    assert ChangesFindNothing(prior) <==> forall i :: 0 < i < n ==> ChangeFindsNothing(raws, i);
  }

  lemma {:induction false} DiscardsNothingIff(raws: seq<Raw>)
    ensures Discarded(raws) == [] <==> ChangesFindNothing(raws)
  {
    if raws != [] {
      var n := |raws| - 1;
      DiscardsNothingIff(raws[..n]);
      ChangesSnoc(raws);
      if n > 0 {
        LockedOnLast(raws[..n]);
      }
    }
  }

  /** What the encoder gets in all: what was kept, short of an unflushed delay line, and padding. */
  lemma SentIsKept(cfg: Config, raws: seq<Raw>) returns (pad: nat)
    requires cfg.Valid()
    ensures SentSamples(Track(cfg, raws).sent)
         == (if cfg.frameSize > 0 then Kept(raws) else InputSamples(Outputs(raws))) + Silence(pad)
  {
    if cfg.frameSize > 0 {
      pad := SessionConserves(cfg, Outputs(raws), After(raws).delay);
    } else {
      pad := 0;
      PassThrough(cfg, Outputs(raws));
    }
  }

  /** Padding is never taken for a sample of the track. */
  lemma PrefixBeforePadding(xs: seq<Recorded>, kept: seq<Recorded>, pad: nat)
    requires xs <= kept + Silence(pad)
    ensures |xs| <= |kept|
  {
    var all := kept + Silence(pad);
    assert forall k :: 0 <= k < |xs| ==> all[k] == xs[k];
    assert pad > 0 ==> all[|kept|] == Padding;
  }

  /**
   Every decoded sample reaches the encoder, in order and before any padding, exactly when the
   delay line was empty at every change of format and is flushed or empty at the end. It is only
   flushed into a FIFO.
   */
  lemma NothingLostIff(cfg: Config, raws: seq<Raw>)
    requires cfg.Valid()
    ensures RawSamples(raws) <= SentSamples(Track(cfg, raws).sent)
       <==> ChangesFindNothing(raws) && (cfg.frameSize > 0 || After(raws).delay == [])
  {
    KeptOrDiscarded(raws);
    DiscardsNothingIff(raws);
    var pad := SentIsKept(cfg, raws);
    var kept := if cfg.frameSize > 0 then Kept(raws) else InputSamples(Outputs(raws));
    if RawSamples(raws) <= SentSamples(Track(cfg, raws).sent) {
      PrefixBeforePadding(RawSamples(raws), kept, pad);
    } else if After(raws).delay == [] {
      assert InputSamples(Outputs(raws)) + [] == InputSamples(Outputs(raws));
    }
  }

  /** How much is lost: the delay lines given up, and the last one where there is no FIFO. */
  lemma LostCount(cfg: Config, raws: seq<Raw>) returns (pad: nat)
    requires cfg.Valid()
    ensures |SentSamples(Track(cfg, raws).sent)| - pad
         == |RawSamples(raws)| - |Discarded(raws)| - if cfg.frameSize > 0 then 0 else |After(raws).delay|
    ensures pad < if cfg.frameSize > 0 then cfg.frameSize else 1
  {
    KeptOrDiscarded(raws);
    if cfg.frameSize > 0 {
      pad := SessionConserves(cfg, Outputs(raws), After(raws).delay);
    } else {
      pad := 0;
      PassThrough(cfg, Outputs(raws));
    }
  }

  /** The resampler passes one frame on for each it is given, with the PTS that frame came with. */
  lemma {:induction false} OutputsKeepPts(raws: seq<Raw>)
    ensures |Outputs(raws)| == |raws| && forall k :: 0 <= k < |raws| ==> Outputs(raws)[k].pts == raws[k].pts
  {
    if raws != [] {
      var prior, f := raws[..|raws| - 1], raws[|raws| - 1];
      OutputsKeepPts(prior);
      assert Outputs(raws) == Outputs(prior) + [Decoded(f.pts, Resample(After(prior), f).out)];
    }
  }

  /**
   A track whose first decoded frame has a PTS stays on its own clock: the `k`-th frame sent to the
   encoder starts, to half an encoder tick, as long after that PTS as `k` frames of samples last.
   */
  lemma TrackKeepsTime(cfg: Config, raws: seq<Raw>, k: nat)
    requires cfg.Valid() && cfg.frameSize > 0 && raws != [] && raws[0].pts != NO_PTS
    requires k < |Track(cfg, raws).sent|
    ensures var start := InSeconds(raws[0].pts, cfg.decoderBase) + InSeconds(k * cfg.frameSize, cfg.encoderBase);
            var tick := cfg.encoderBase.Seconds();
            start - tick / 2.0 <= InSeconds(Track(cfg, raws).sent[k].pts, cfg.encoderBase) <= start + tick / 2.0
  {
    OutputsKeepPts(raws);
    FirstFrameSeedsAll(cfg, Outputs(raws), After(raws).delay, k);
    RescaleWithinHalfTick(raws[0].pts, cfg.decoderBase, cfg.encoderBase);
    AddTicks(cfg.Seed(raws[0].pts), k * cfg.frameSize, cfg.encoderBase);
  }

  // --- The imperative form ---

  class AudioTrack {
    const stream: AudioStream
    var format: Option<int>
    var delay: seq<Recorded>

    constructor (cfg: Config)
      ensures fresh(stream) && stream.cfg == cfg && Holds(cfg, [])
    {
      stream := new AudioStream(cfg);
      format, delay := None, [];
    }

    function Resampling(): Swr
      reads this
    {
      Swr(format, delay)
    }

    /** The state after `raws`. */
    ghost predicate Holds(cfg: Config, raws: seq<Raw>)
      reads this, stream
    {
      cfg.Valid() ==> Resampling() == After(raws) && stream.Snapshot() == EncodeAll(cfg, Outputs(raws))
    }

    /** swr_convert_frame; not ok is the refusal of another format. */
    method ConvertFrame(f: Raw) returns (ok: bool, out: seq<Recorded>)
      modifies this
      ensures ok <==> !Changed(old(Resampling()), f)
      ensures ok ==> Converted(out, Resampling()) == Convert(old(Resampling()), f)
      ensures !ok ==> Resampling() == old(Resampling())
    {
      if format.Some? && format.value != f.format {
        return false, [];
      }
      var all := delay + f.samples;
      var n := if f.held <= |all| then |all| - f.held else 0;
      format, delay := Some(f.format), all[n..];
      return true, all[..n];
    }

    /** Reallocates the resampler when it refuses the frame, and tries again. */
    method ResampleFrame(f: Raw) returns (out: seq<Recorded>)
      modifies this
      ensures Converted(out, Resampling()) == Resample(old(Resampling()), f)
    {
      var ok;
      ok, out := ConvertFrame(f);
      if !ok {
        format, delay := None, [];
        ok, out := ConvertFrame(f);
      }
    }

    method EncodeRaw(f: Raw, ghost before: seq<Raw>)
      requires stream.cfg.Valid() && Holds(stream.cfg, before)
      modifies this, stream
      ensures Holds(stream.cfg, before + [f])
    {
      assert (before + [f])[..|before|] == before;
      var out := ResampleFrame(f);
      EncodeAllSnoc(stream.cfg, Outputs(before), Decoded(f.pts, out));
      stream.EncodeAudioFrame(Decoded(f.pts, out));
    }

    /** End of stream: the frames the decoder still holds, then the delay line, then the FIFO. */
    method Flush(ghost before: seq<Raw>, tail: seq<Raw>)
      requires stream.cfg.Valid() && Holds(stream.cfg, before)
      modifies this, stream
      ensures stream.Snapshot() == Track(stream.cfg, before + tail)
    {
      TakeNoneOrAll(before, tail);
      for n := 0 to |tail|
        invariant Holds(stream.cfg, before + tail[..n])
      {
        TakeOneMore(before, tail, n);
        EncodeRaw(tail[n], before + tail[..n]);
      }
      stream.FlushFifo(delay);
    }
  }
}
