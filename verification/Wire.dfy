/**
 Where the timestamps on the wire come from: what a packet of an interleaved run (Remux) says in
 real time when it leaves, against what it said when it was demuxed or left its encoder. Stated in
 seconds, so it does not depend on how rebasing and rescaling are computed.
 */
module Wire {
  import opened Timestamps
  import opened Rebase
  import opened DtsRepair
  import opened Remux

  /** An instant that `tb` can represent. */
  ghost predicate Reaches(seconds: real, tb: Rational)
    requires tb.Valid()
  {
    InSeconds(0 - MAX_INT64, tb) <= seconds <= InSeconds(MAX_INT64, tb)
  }

  /** `u` is a timestamp, and in ticks of `tb` it is within `error` of the instant `seconds`. */
  ghost predicate StandsFor(u: int64, tb: Rational, seconds: real, error: real)
    requires tb.Valid()
  {
    u != NO_PTS && seconds - error <= InSeconds(u, tb) <= seconds + error
  }

  /** An instant at least a tick beyond what `tb` can represent. */
  ghost predicate Beyond(seconds: real, tb: Rational)
    requires tb.Valid()
  {
    seconds <= InSeconds(0 - MAX_INT64 - 1, tb) || InSeconds(MAX_INT64 + 1, tb) <= seconds
  }

  /**
   `u` in `to` is `t` in `from` to the nearest tick if `to` can represent it, and missing if it is
   beyond; missing stays missing.
   */
  ghost predicate Nearest(t: int64, from: Rational, u: int64, to: Rational)
    requires from.Valid() && to.Valid()
  {
    if t == NO_PTS then u == NO_PTS
    else
      && (Reaches(InSeconds(t, from), to) ==> StandsFor(u, to, InSeconds(t, from), to.Seconds() / 2.0))
      && (Beyond(InSeconds(t, from), to) ==> u == NO_PTS)
  }

  lemma TooManyTicks(q: int, tick: real, bound: int, at: real, edge: real)
    requires tick > 0.0 && at == q as real * tick && edge == bound as real * tick && q > bound
    ensures at >= edge + tick
  {
    var more := q as real - bound as real - 1.0;
    assert more * tick >= 0.0;
    assert q as real * tick == bound as real * tick + tick + more * tick;
  }

  /** At most half a tick beyond the bound is not beyond it. */
  lemma FewTicks(q: int, tick: real, bound: int, at: real, edge: real)
    requires tick > 0.0 && at == q as real * tick && edge == bound as real * tick
    requires 0.0 - edge - tick / 2.0 <= at <= edge + tick / 2.0
    ensures 0 - bound <= q <= bound
  {
    NegatedTicks(q, tick);
    if q > bound {
      TooManyTicks(q, tick, bound, at, edge);
    }
    if 0 - q > bound {
      TooManyTicks(0 - q, tick, bound, 0.0 - at, edge);
    }
  }

  lemma NegatedTicks(q: int, tick: real)
    ensures (0 - q) as real * tick == 0.0 - q as real * tick
  {
    assert (0 - q) as real == 0.0 - q as real;
  }

  /** A count within half a tick of a reachable instant is an int64, and not the sentinel. */
  lemma NearReachable(q: int, tb: Rational, seconds: real)
    requires tb.Valid() && Reaches(seconds, tb)
    requires seconds - tb.Seconds() / 2.0 <= InSeconds(q, tb) <= seconds + tb.Seconds() / 2.0
    ensures 0 - MAX_INT64 <= q <= MAX_INT64
  {
    NegatedTicks(MAX_INT64, tb.Seconds());
    FewTicks(q, tb.Seconds(), MAX_INT64, InSeconds(q, tb), InSeconds(MAX_INT64, tb));
  }

  /** A count within half a tick of an instant beyond is at or beyond the sentinel, or above all int64. */
  lemma NearBeyond(q: int, tb: Rational, seconds: real)
    requires tb.Valid() && Beyond(seconds, tb)
    requires seconds - tb.Seconds() / 2.0 <= InSeconds(q, tb) <= seconds + tb.Seconds() / 2.0
    ensures q <= MIN_INT64 || q > MAX_INT64
  {
    var tick := tb.Seconds();
    NegatedTicks(MAX_INT64 + 1, tick);
    NegatedTicks(q, tick);
    if InSeconds(MAX_INT64 + 1, tb) <= seconds {
      NotFewer(q, tick, MAX_INT64 + 1, InSeconds(q, tb), InSeconds(MAX_INT64 + 1, tb));
    } else {
      NotFewer(0 - q, tick, MAX_INT64 + 1, 0.0 - InSeconds(q, tb), InSeconds(MAX_INT64 + 1, tb));
    }
  }

  lemma NotFewer(q: int, tick: real, bound: int, at: real, edge: real)
    requires tick > 0.0 && at == q as real * tick && edge == bound as real * tick
    requires edge - tick / 2.0 <= at
    ensures q >= bound
  {
    if q < bound {
      TooManyTicks(bound, tick, q, edge, at);
    }
  }

  lemma Rescale64IsNearest(t: int64, from: Rational, to: Rational)
    requires from.Valid() && to.Valid() && t != NO_PTS
    ensures Nearest(t, from, Rescale64(t, from, to), to)
  {
    RescaleWithinHalfTick(t, from, to);
    if Reaches(InSeconds(t, from), to) {
      NearReachable(RescaleQ(t, from, to), to, InSeconds(t, from));
    }
    if Beyond(InSeconds(t, from), to) {
      NearBeyond(RescaleQ(t, from, to), to, InSeconds(t, from));
    }
  }

  /** What rescaling a packet's timestamps amounts to. */
  lemma RescaledIsNearest(cfg: Config, s: Stamps)
    requires cfg.Valid()
    ensures Nearest(s.dts, cfg.from, cfg.Rescaled(s).dts, cfg.to)
    ensures Nearest(s.pts, cfg.from, cfg.Rescaled(s).pts, cfg.to)
  {
    if s.dts != NO_PTS {
      Rescale64IsNearest(s.dts, cfg.from, cfg.to);
    }
    if s.pts != NO_PTS {
      Rescale64IsNearest(s.pts, cfg.from, cfg.to);
    }
  }

  // --- One stream ---

  ghost predicate Comes(cfg: Config, raw: Raw, pre: Stamps)
    requires cfg.Valid()
  {
    Nearest(raw.stamps.dts, cfg.from, pre.dts, cfg.to) && Nearest(raw.stamps.pts, cfg.from, pre.pts, cfg.to)
  }

  ghost predicate Increasing(at: seq<nat>) {
    forall j, k :: 0 <= j < k < |at| ==> at[j] < at[k]
  }

  /** A packet with this payload is written: it needs no ADTS framing, or has it. */
  ghost predicate Writes(cfg: Config, data: seq<byte>) {
    cfg.requireADTS ==> IsADTSFrame(data)
  }

  /**
   `at` lists, in order, the packets of `raws` that were written, `pre` their timestamps before
   the repair and `data` their payloads.
   */
  ghost predicate Traces(cfg: Config, raws: seq<Raw>, at: seq<nat>, pre: seq<Stamps>, data: seq<seq<byte>>)
    requires cfg.Valid()
  {
    && |at| == |pre| == |data|
    && Increasing(at)
    && (forall k :: 0 <= k < |at| ==> at[k] < |raws| && Comes(cfg, raws[at[k]], pre[k]) && data[k] == raws[at[k]].data)
    && (forall n: nat :: n < |raws| ==> (n in at <==> Writes(cfg, raws[n].data)))
  }

  lemma TracesMore(cfg: Config, raws: seq<Raw>, raw: Raw, at: seq<nat>, pre: seq<Stamps>, data: seq<seq<byte>>, s: Stamps)
    requires cfg.Valid() && Traces(cfg, raws, at, pre, data)
    requires Writes(cfg, raw.data) && Comes(cfg, raw, s)
    ensures Traces(cfg, raws + [raw], at + [|raws|], pre + [s], data + [raw.data])
  {
    var more, all := at + [|raws|], raws + [raw];
    forall n: nat | n < |all| ensures n in more <==> Writes(cfg, all[n].data) {
      assert n < |raws| ==> (n in more <==> n in at);
    }
  }

  lemma TracesNoMore(cfg: Config, raws: seq<Raw>, raw: Raw, at: seq<nat>, pre: seq<Stamps>, data: seq<seq<byte>>)
    requires cfg.Valid() && Traces(cfg, raws, at, pre, data)
    requires !Writes(cfg, raw.data)
    ensures Traces(cfg, raws + [raw], at, pre, data)
  {
  }

  lemma {:induction false} KeptTraces(cfg: Config, raws: seq<Raw>) returns (at: seq<nat>)
    requires cfg.Valid()
    ensures Traces(cfg, raws, at, Kept(cfg, raws), KeptData(cfg, raws))
  {
    at := [];
    if raws != [] {
      var prior, raw := raws[..|raws| - 1], raws[|raws| - 1];
      assert raws == prior + [raw];
      at := KeptTraces(cfg, prior);
      if cfg.Accepts(raw) {
        RescaledIsNearest(cfg, raw.stamps);
        TracesMore(cfg, prior, raw, at, Kept(cfg, prior), KeptData(cfg, prior), cfg.Rescaled(raw.stamps));
        at := at + [|prior|];
      } else {
        TracesNoMore(cfg, prior, raw, at, Kept(cfg, prior), KeptData(cfg, prior));
      }
    }
  }

  /**
   A stream alone writes, in order, the packets that need no ADTS framing or have it, payload
   untouched, with the repair of their timestamps to the nearest tick of the output timebase.
   */
  lemma FeedKeepsInstants(cfg: Config, raws: seq<Raw>) returns (at: seq<nat>, pre: seq<Stamps>)
    requires cfg.Valid()
    ensures Traces(cfg, raws, at, pre, Payloads(Feed(cfg, INITIAL, raws).out))
    ensures Times(Feed(cfg, INITIAL, raws).out) == Repair(NO_PTS, pre)
  {
    at := KeptTraces(cfg, raws);
    pre := Kept(cfg, raws);
    FeedRepairs(cfg, raws);
    FeedConserves(cfg, raws);
  }

  // --- A stream copied through an interleaved run ---

  /** The shift reaches, the shifted instant reaches, and so does the output timebase around it. */
  ghost predicate Fits(offset: int64, t: int64, from: Rational, to: Rational)
    requires from.Valid() && to.Valid()
  {
    var shift := InSeconds(offset, MICROSECONDS);
    var instant := InSeconds(t, from) + shift;
    && Reaches(shift, from)
    && Reaches(instant, from)
    && Reaches(instant - from.Seconds() / 2.0, to)
    && Reaches(instant + from.Seconds() / 2.0, to)
  }

  /**
   `u` says in `to` what `t` says in `from`, moved by `offset` microseconds: missing stays
   missing, and the instant is right to half a tick of either timebase together.
   */
  ghost predicate Carries(offset: int64, t: int64, from: Rational, u: int64, to: Rational)
    requires from.Valid() && to.Valid()
  {
    if t == NO_PTS then u == NO_PTS
    else Fits(offset, t, from, to) ==>
      StandsFor(u, to, InSeconds(t, from) + InSeconds(offset, MICROSECONDS), (from.Seconds() + to.Seconds()) / 2.0)
  }

  /** `moved` says what `t` says, moved by `offset` microseconds, in the same timebase. */
  ghost predicate Moves(offset: int64, t: int64, tb: Rational, moved: int64)
    requires tb.Valid()
  {
    var shift := InSeconds(offset, MICROSECONDS);
    if t == NO_PTS then moved == NO_PTS
    else Reaches(shift, tb) && Reaches(InSeconds(t, tb) + shift, tb) ==>
      StandsFor(moved, tb, InSeconds(t, tb) + shift, tb.Seconds() / 2.0)
  }

  lemma ShiftMoves(offset: int64, t: int64, tb: Rational)
    requires tb.Valid()
    ensures Moves(offset, t, tb, Shift(t, Rescale64(offset, MICROSECONDS, tb)))
  {
    var shift, d := InSeconds(offset, MICROSECONDS), RescaleQ(offset, MICROSECONDS, tb);
    if t != NO_PTS && Reaches(shift, tb) && Reaches(InSeconds(t, tb) + shift, tb) {
      RescaleWithinHalfTick(offset, MICROSECONDS, tb);
      NearReachable(d, tb, shift);
      AddTicks(t, d, tb);
      NearReachable(t + d, tb, InSeconds(t, tb) + shift);
    }
  }

  /** Rebasing moves both timestamps of a packet by the shared offset. */
  lemma RebasedMoves(tr: TimestampRebase, i: int, s: Stamps)
    requires tr.Valid() && 0 <= i < |tr.timeBases|
    ensures Moves(tr.offset, s.dts, tr.timeBases[i], tr.Rebased(i, s).dts)
    ensures Moves(tr.offset, s.pts, tr.timeBases[i], tr.Rebased(i, s).pts)
  {
    if tr.Shifts(i) {
      ShiftMoves(tr.offset, s.dts, tr.timeBases[i]);
      ShiftMoves(tr.offset, s.pts, tr.timeBases[i]);
    }
  }

  lemma MovedCarries(offset: int64, t: int64, from: Rational, moved: int64, u: int64, to: Rational)
    requires from.Valid() && to.Valid()
    requires Moves(offset, t, from, moved) && Nearest(moved, from, u, to)
    ensures Carries(offset, t, from, u, to)
  {
  }

  /** Packet `p` of stream `i` arrives at the repair as `pre`. */
  ghost predicate Arrives(job: Job, i: int, p: Demuxed, pre: Stamps)
    requires job.Valid() && i in job.outputs
  {
    var cfg := job.outputs[i].cfg;
    && Carries(job.rebase.offset, p.stamps.dts, cfg.from, pre.dts, cfg.to)
    && Carries(job.rebase.offset, p.stamps.pts, cfg.from, pre.pts, cfg.to)
  }

  /** The input stream of a copied output has a known timebase, and it is the one rescaled from. */
  ghost predicate Copies(job: Job, i: int)
    requires job.Valid()
  {
    && i in job.outputs && job.outputs[i].kind.Copy?
    && 0 <= i < |job.rebase.timeBases| && job.rebase.timeBases[i] == job.outputs[i].cfg.from
  }

  /** `src` lists, in order, the packets of stream `i`. */
  ghost predicate Lists(packets: seq<Demuxed>, i: int, src: seq<nat>) {
    && Increasing(src)
    && (forall k :: 0 <= k < |src| ==> src[k] < |packets| && packets[src[k]].stream == i)
    && (forall n: nat :: n < |packets| && packets[n].stream == i ==> n in src)
  }

  lemma ListsMore(packets: seq<Demuxed>, p: Demuxed, i: int, src: seq<nat>)
    requires Lists(packets, i, src)
    ensures Lists(packets + [p], i, if p.stream == i then src + [|packets|] else src)
  {
    var more, all := src + [|packets|], packets + [p];
    assert more[|src|] == |packets|;
    forall n: nat | n < |all| && all[n].stream == i ensures n in if p.stream == i then more else src {
      if n < |packets| {
        assert n in src;
      }
    }
  }

  /** The packet as it is offered to its stream. */
  ghost predicate Offered(job: Job, i: int, p: Demuxed, raw: Raw)
    requires job.Valid()
  {
    raw == Raw(job.rebase.Rebased(i, p.stamps), p.data)
  }

  ghost predicate AllOffered(job: Job, i: int, packets: seq<Demuxed>, src: seq<nat>, raws: seq<Raw>)
    requires job.Valid() && Lists(packets, i, src)
  {
    |raws| == |src| && forall k :: 0 <= k < |src| ==> Offered(job, i, packets[src[k]], raws[k])
  }

  lemma {:induction false} OwnLists(job: Job, i: int, packets: seq<Demuxed>) returns (src: seq<nat>)
    requires job.Valid() && Copies(job, i)
    ensures Lists(packets, i, src) && AllOffered(job, i, packets, src, Own(job, i, packets))
  {
    src := [];
    if packets != [] {
      var prior, p := packets[..|packets| - 1], packets[|packets| - 1];
      assert packets == prior + [p];
      src := OwnLists(job, i, prior);
      ListsMore(prior, p, i, src);
      OfferedMore(job, i, prior, p, src, Own(job, i, prior));
      if p.stream == i {
        src := src + [|prior|];
      }
    }
  }

  lemma OfferedMore(job: Job, i: int, packets: seq<Demuxed>, p: Demuxed, src: seq<nat>, raws: seq<Raw>)
    requires job.Valid() && Copies(job, i)
    requires Lists(packets, i, src) && AllOffered(job, i, packets, src, raws)
    requires Lists(packets + [p], i, if p.stream == i then src + [|packets|] else src)
    ensures AllOffered(job, i, packets + [p], if p.stream == i then src + [|packets|] else src, raws + job.ToStream(i, p))
  {
    if p.stream == i {
      OfferedSnoc(job, i, packets, p, src, raws, Raw(job.rebase.Rebased(i, p.stamps), p.data));
    } else {
      assert raws + [] == raws;
      OfferedSkip(job, i, packets, p, src, raws);
    }
  }

  lemma OfferedSnoc(job: Job, i: int, packets: seq<Demuxed>, p: Demuxed, src: seq<nat>, raws: seq<Raw>, raw: Raw)
    requires job.Valid() && Offered(job, i, p, raw)
    requires Lists(packets, i, src) && AllOffered(job, i, packets, src, raws)
    requires Lists(packets + [p], i, src + [|packets|])
    ensures AllOffered(job, i, packets + [p], src + [|packets|], raws + [raw])
  {
  }

  lemma OfferedSkip(job: Job, i: int, packets: seq<Demuxed>, p: Demuxed, src: seq<nat>, raws: seq<Raw>)
    requires job.Valid()
    requires Lists(packets, i, src) && AllOffered(job, i, packets, src, raws) && Lists(packets + [p], i, src)
    ensures AllOffered(job, i, packets + [p], src, raws)
  {
  }

  /** `from` lists, in order, the packets of stream `i` that were written. */
  ghost predicate Written(cfg: Config, packets: seq<Demuxed>, i: int, from: seq<nat>) {
    && Increasing(from)
    && (forall k :: 0 <= k < |from| ==> from[k] < |packets|)
    && (forall n: nat :: n < |packets| ==>
          (n in from <==> packets[n].stream == i && Writes(cfg, packets[n].data)))
  }

  /** The packets that pass, of the packets of one stream. */
  lemma Select(cfg: Config, packets: seq<Demuxed>, i: int, src: seq<nat>, raws: seq<Raw>, at: seq<nat>, from: seq<nat>)
    requires Lists(packets, i, src) && |raws| == |src|
    requires forall k :: 0 <= k < |src| ==> raws[k].data == packets[src[k]].data
    requires Increasing(at) && forall k :: 0 <= k < |at| ==> at[k] < |raws|
    requires forall n: nat :: n < |raws| ==> (n in at <==> Writes(cfg, raws[n].data))
    requires |from| == |at| && forall k :: 0 <= k < |at| ==> from[k] == src[at[k]]
    ensures Written(cfg, packets, i, from)
  {
    forall n: nat | n < |packets|
      ensures n in from <==> packets[n].stream == i && Writes(cfg, packets[n].data)
    {
      if packets[n].stream == i && Writes(cfg, packets[n].data) {
        var k :| 0 <= k < |src| && src[k] == n;
        assert k in at;
        var m :| 0 <= m < |at| && at[m] == k;
        assert from[m] == n;
      }
      if n in from {
        var m :| 0 <= m < |from| && from[m] == n;
        assert at[m] in at;
      }
    }
  }

  /** Packet `p` of stream `i` is written with its payload, and arrives at the repair as `pre`. */
  ghost predicate Carried(job: Job, i: int, p: Demuxed, pre: Stamps, data: seq<byte>)
    requires job.Valid() && i in job.outputs
  {
    data == p.data && Arrives(job, i, p, pre)
  }

  /** `wire` is the packets `from` of stream `i`, repaired from the stamps `pre` they arrive with. */
  ghost predicate Delivers(job: Job, packets: seq<Demuxed>, i: int, from: seq<nat>, pre: seq<Stamps>, wire: seq<Out>)
    requires job.Valid() && Copies(job, i)
  {
    && Written(job.outputs[i].cfg, packets, i, from)
    && |wire| == |from| == |pre|
    && Times(wire) == Repair(NO_PTS, pre)
    && forall k :: 0 <= k < |wire| ==> Carried(job, i, packets[from[k]], pre[k], wire[k].data)
  }

  lemma AloneDelivers(job: Job, packets: seq<Demuxed>, i: int) returns (from: seq<nat>, pre: seq<Stamps>)
    requires job.Valid() && Copies(job, i)
    ensures Delivers(job, packets, i, from, pre, Feed(job.outputs[i].cfg, INITIAL, Own(job, i, packets)).out)
  {
    var cfg, raws := job.outputs[i].cfg, Own(job, i, packets);
    var src := OwnLists(job, i, packets);
    var at;
    at, pre := FeedKeepsInstants(cfg, raws);
    from := TracedDelivers(job, packets, i, src, raws, at, pre, Feed(cfg, INITIAL, raws).out);
  }

  lemma TracedDelivers(job: Job, packets: seq<Demuxed>, i: int, src: seq<nat>, raws: seq<Raw>, at: seq<nat>,
                       pre: seq<Stamps>, wire: seq<Out>)
    returns (from: seq<nat>)
    requires job.Valid() && Copies(job, i)
    requires Lists(packets, i, src) && AllOffered(job, i, packets, src, raws)
    requires Traces(job.outputs[i].cfg, raws, at, pre, Payloads(wire)) && Times(wire) == Repair(NO_PTS, pre)
    ensures Delivers(job, packets, i, from, pre, wire)
  {
    from := seq(|at|, k requires 0 <= k < |at| => src[at[k]]);
    Select(job.outputs[i].cfg, packets, i, src, raws, at, from);
    TracedArrive(job, packets, i, src, raws, at, from, pre, Payloads(wire));
    assert forall k :: 0 <= k < |wire| ==> Payloads(wire)[k] == wire[k].data;
  }

  lemma TracedArrive(job: Job, packets: seq<Demuxed>, i: int, src: seq<nat>, raws: seq<Raw>, at: seq<nat>,
                     from: seq<nat>, pre: seq<Stamps>, data: seq<seq<byte>>)
    requires job.Valid() && Copies(job, i)
    requires Lists(packets, i, src) && AllOffered(job, i, packets, src, raws)
    requires Traces(job.outputs[i].cfg, raws, at, pre, data)
    requires |from| == |at| && forall k :: 0 <= k < |at| ==> from[k] == src[at[k]]
    ensures forall k :: 0 <= k < |at| ==> from[k] < |packets| && Carried(job, i, packets[from[k]], pre[k], data[k])
  {
    forall k | 0 <= k < |at| ensures from[k] < |packets| && Carried(job, i, packets[from[k]], pre[k], data[k]) {
      assert Offered(job, i, packets[src[at[k]]], raws[at[k]]);
      OneArrives(job, i, packets[from[k]], pre[k]);
    }
  }

  /**
   What a copied stream puts on the wire in an interleaved run: exactly its own packets, less those
   that lack a required ADTS header, in order and with their payloads; and the timestamps are the
   repair of stamps that say what the demuxed ones said, moved by the shared offset.
   */
  lemma WireKeepsTime(job: Job, packets: seq<Demuxed>, i: int) returns (from: seq<nat>, pre: seq<Stamps>)
    requires job.Valid() && Copies(job, i)
    ensures Delivers(job, packets, i, from, pre, OnStream(RunAll(job, packets).log, job.outputs[i].cfg.outIndex))
  {
    StreamsDoNotInterfere(job, packets, i);
    from, pre := AloneDelivers(job, packets, i);
  }

  lemma OneArrives(job: Job, i: int, p: Demuxed, pre: Stamps)
    requires job.Valid() && Copies(job, i)
    requires Comes(job.outputs[i].cfg, Raw(job.rebase.Rebased(i, p.stamps), p.data), pre)
    ensures Arrives(job, i, p, pre)
  {
    var cfg, s, offset := job.outputs[i].cfg, job.rebase.Rebased(i, p.stamps), job.rebase.offset;
    RebasedMoves(job.rebase, i, p.stamps);
    MovedCarries(offset, p.stamps.dts, cfg.from, s.dts, pre.dts, cfg.to);
    MovedCarries(offset, p.stamps.pts, cfg.from, s.pts, pre.pts, cfg.to);
  }

  // --- What an encoder releases ---

  /** Part `part` of what the encoder releases for packet `packet`. */
  datatype Origin = Origin(packet: nat, part: nat) {
    predicate Before(o: Origin) {
      packet < o.packet || (packet == o.packet && part < o.part)
    }
  }

  ghost predicate Ordered(origins: seq<Origin>) {
    forall j, k :: 0 <= j < k < |origins| ==> origins[j].Before(origins[k])
  }

  predicate In(parts: seq<seq<Raw>>, o: Origin) {
    o.packet < |parts| && o.part < |parts[o.packet]|
  }

  /** `raws` is all the parts in order, and `origins` says where each of them comes from. */
  ghost predicate Flattens(parts: seq<seq<Raw>>, raws: seq<Raw>, origins: seq<Origin>) {
    && |origins| == |raws|
    && Ordered(origins)
    && (forall k :: 0 <= k < |raws| ==> In(parts, origins[k]) && raws[k] == parts[origins[k].packet][origins[k].part])
    && (forall o :: In(parts, o) ==> o in origins)
  }

  function Numbered(packet: nat, count: nat): (origins: seq<Origin>)
    ensures |origins| == count
    ensures forall m :: 0 <= m < count ==> origins[m] == Origin(packet, m)
  {
    seq(count, m requires 0 <= m < count => Origin(packet, m))
  }

  lemma FlattensMore(parts: seq<seq<Raw>>, more: seq<Raw>, raws: seq<Raw>, origins: seq<Origin>)
    requires Flattens(parts, raws, origins)
    ensures Flattens(parts + [more], raws + more, origins + Numbered(|parts|, |more|))
  {
    var all, last := parts + [more], Numbered(|parts|, |more|);
    forall o | In(all, o) ensures o in origins + last {
      if o.packet < |parts| {
        assert In(parts, o);
      } else {
        assert last[o.part] == o;
      }
    }
  }

  lemma {:induction false} OwnFlattens(job: Job, packets: seq<Demuxed>, i: int, parts: seq<seq<Raw>>)
    returns (origins: seq<Origin>)
    requires job.Valid() && i in job.outputs && job.outputs[i].kind.Encode?
    requires |parts| == |packets|
    requires forall n :: 0 <= n < |packets| ==> parts[n] == if packets[n].stream == i then packets[n].encoded else []
    ensures Flattens(parts, Own(job, i, packets), origins)
  {
    origins := [];
    if packets != [] {
      var n := |packets| - 1;
      origins := OwnFlattens(job, packets[..n], i, parts[..n]);
      FlattensMore(parts[..n], parts[n], Own(job, i, packets[..n]), origins);
      origins := origins + Numbered(n, |parts[n]|);
      assert parts == parts[..n] + [parts[n]];
    }
  }

  lemma {:induction false} OwnDownmixFlattens(job: Job, packets: seq<Demuxed>, parts: seq<seq<Raw>>)
    returns (origins: seq<Origin>)
    requires job.Valid() && job.downmix.Downmix?
    requires |parts| == |packets|
    requires forall n :: 0 <= n < |packets| ==>
               parts[n] == if packets[n].stream == job.downmix.source then packets[n].downmixed else []
    ensures Flattens(parts, OwnDownmix(job, packets), origins)
  {
    origins := [];
    if packets != [] {
      var n := |packets| - 1;
      origins := OwnDownmixFlattens(job, packets[..n], parts[..n]);
      FlattensMore(parts[..n], parts[n], OwnDownmix(job, packets[..n]), origins);
      origins := origins + Numbered(n, |parts[n]|);
      assert parts == parts[..n] + [parts[n]];
    }
  }

  /** `origins` lists, in order, exactly the parts that need no ADTS framing or have it. */
  ghost predicate Passes(cfg: Config, parts: seq<seq<Raw>>, origins: seq<Origin>) {
    && Ordered(origins)
    && (forall k :: 0 <= k < |origins| ==> In(parts, origins[k]))
    && (forall o :: In(parts, o) ==> (o in origins <==> Writes(cfg, parts[o.packet][o.part].data)))
  }

  /** The part at `o` is written with its payload, its stamps to the nearest tick of the output timebase. */
  ghost predicate Leaves(cfg: Config, parts: seq<seq<Raw>>, o: Origin, pre: Stamps, data: seq<byte>)
    requires cfg.Valid() && In(parts, o)
  {
    var raw := parts[o.packet][o.part];
    data == raw.data && Comes(cfg, raw, pre)
  }

  /** `wire` is exactly those parts; and its timestamps are the repair of `pre`. */
  ghost predicate Releases(cfg: Config, parts: seq<seq<Raw>>, origins: seq<Origin>, pre: seq<Stamps>, wire: seq<Out>)
    requires cfg.Valid()
  {
    && |wire| == |origins| == |pre|
    && Passes(cfg, parts, origins)
    && Times(wire) == Repair(NO_PTS, pre)
    && forall k :: 0 <= k < |wire| ==> Leaves(cfg, parts, origins[k], pre[k], wire[k].data)
  }

  lemma AloneReleases(cfg: Config, parts: seq<seq<Raw>>, raws: seq<Raw>, all: seq<Origin>)
    returns (origins: seq<Origin>, pre: seq<Stamps>)
    requires cfg.Valid() && Flattens(parts, raws, all)
    ensures Releases(cfg, parts, origins, pre, Feed(cfg, INITIAL, raws).out)
  {
    var at;
    at, pre := FeedKeepsInstants(cfg, raws);
    var wire := Feed(cfg, INITIAL, raws).out;
    origins := seq(|at|, k requires 0 <= k < |at| => all[at[k]]);
    SelectOrigins(cfg, parts, raws, all, at, origins);
    TracedLeave(cfg, parts, raws, all, at, origins, pre, Payloads(wire));
    assert forall k :: 0 <= k < |wire| ==> Payloads(wire)[k] == wire[k].data;
  }

  lemma TracedLeave(cfg: Config, parts: seq<seq<Raw>>, raws: seq<Raw>, all: seq<Origin>, at: seq<nat>,
                    origins: seq<Origin>, pre: seq<Stamps>, data: seq<seq<byte>>)
    requires cfg.Valid() && Flattens(parts, raws, all) && Traces(cfg, raws, at, pre, data)
    requires |origins| == |at| && forall k :: 0 <= k < |at| ==> origins[k] == all[at[k]]
    ensures forall k :: 0 <= k < |at| ==> In(parts, origins[k]) && Leaves(cfg, parts, origins[k], pre[k], data[k])
  {
  }

  lemma SelectOrigins(cfg: Config, parts: seq<seq<Raw>>, raws: seq<Raw>, all: seq<Origin>, at: seq<nat>,
                      origins: seq<Origin>)
    requires Flattens(parts, raws, all)
    requires Increasing(at) && forall k :: 0 <= k < |at| ==> at[k] < |raws|
    requires forall n: nat :: n < |raws| ==> (n in at <==> Writes(cfg, raws[n].data))
    requires |origins| == |at| && forall k :: 0 <= k < |at| ==> origins[k] == all[at[k]]
    ensures Passes(cfg, parts, origins)
  {
    forall o | In(parts, o) ensures o in origins <==> Writes(cfg, parts[o.packet][o.part].data) {
      if Writes(cfg, parts[o.packet][o.part].data) {
        var k :| 0 <= k < |all| && all[k] == o;
        assert k in at;
        var m :| 0 <= m < |at| && at[m] == k;
        assert origins[m] == o;
      }
      if o in origins {
        var m :| 0 <= m < |origins| && origins[m] == o;
        assert at[m] in at;
      }
    }
  }

  /** What a re-encoded stream puts on the wire, in terms of what its encoder released. */
  lemma EncodedWireKeepsTime(job: Job, packets: seq<Demuxed>, i: int, parts: seq<seq<Raw>>)
    returns (origins: seq<Origin>, pre: seq<Stamps>)
    requires job.Valid() && i in job.outputs && job.outputs[i].kind.Encode?
    requires |parts| == |packets|
    requires forall n :: 0 <= n < |packets| ==> parts[n] == if packets[n].stream == i then packets[n].encoded else []
    ensures var cfg := job.outputs[i].cfg;
            Releases(cfg, parts, origins, pre, OnStream(RunAll(job, packets).log, cfg.outIndex))
  {
    StreamsDoNotInterfere(job, packets, i);
    var all := OwnFlattens(job, packets, i, parts);
    origins, pre := AloneReleases(job.outputs[i].cfg, parts, Own(job, i, packets), all);
  }

  /** The same of the downmix, whose encoder is fed the packets of its source stream. */
  lemma DownmixWireKeepsTime(job: Job, packets: seq<Demuxed>, parts: seq<seq<Raw>>)
    returns (origins: seq<Origin>, pre: seq<Stamps>)
    requires job.Valid() && job.downmix.Downmix?
    requires |parts| == |packets|
    requires forall n :: 0 <= n < |packets| ==>
               parts[n] == if packets[n].stream == job.downmix.source then packets[n].downmixed else []
    ensures var cfg := job.downmix.cfg;
            Releases(cfg, parts, origins, pre, OnStream(RunAll(job, packets).log, cfg.outIndex))
  {
    DownmixDoesNotInterfere(job, packets);
    var all := OwnDownmixFlattens(job, packets, parts);
    origins, pre := AloneReleases(job.downmix.cfg, parts, OwnDownmix(job, packets), all);
  }
}
