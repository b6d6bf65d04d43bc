/** The shared shift onto a zero-based timeline (pkg/ffmpeg/timestamps.go). */
module Rebase {
  import opened Timestamps

  type byte = bv8

  datatype Stamps = Stamps(dts: int64, pts: int64)

  /** A libav packet, reused from one read to the next and rewritten in place. */
  class Packet {
    var streamIndex: int
    var dts: int64
    var pts: int64
    var data: seq<byte>

    constructor ()
    {
      streamIndex, dts, pts, data := 0, NO_PTS, NO_PTS, [];
    }

    function Times(): Stamps
      reads this
    {
      Stamps(dts, pts)
    }

    /** What ReadFrame and ReceivePacket do: fill the packet. */
    method Load(index: int, times: Stamps, payload: seq<byte>)
      modifies this
      ensures streamIndex == index && Times() == times && data == payload
    {
      streamIndex, dts, pts, data := index, times.dts, times.pts, payload;
    }
  }

  /** libav returns INT64_MIN when a rescaled value does not fit. */
  function Rescale64(x: int64, from: Rational, to: Rational): int64
    requires from.Valid() && to.Valid()
  {
    var r := RescaleQ(x, from, to);
    if MIN_INT64 <= r <= MAX_INT64 then r else NO_PTS
  }

  function RebaseOffset(startTime: int64): (offset: int64)
    ensures startTime != NO_PTS ==> Wrap(startTime + offset) == 0
    ensures startTime == NO_PTS ==> offset == 0
  {
    if startTime == NO_PTS then 0 else -startTime
  }

  /** One offset for the whole input, in microseconds, and each stream's timebase. */
  datatype TimestampRebase = TimestampRebase(offset: int64, timeBases: seq<Rational>) {
    predicate Valid() {
      forall i :: 0 <= i < |timeBases| ==> timeBases[i].Valid()
    }

    predicate Shifts(index: int) {
      offset != 0 && 0 <= index < |timeBases|
    }

    function Delta(index: int): int64
      requires Valid() && Shifts(index)
    {
      Rescale64(offset, MICROSECONDS, timeBases[index])
    }

    /** Nothing changes without an offset, or for a stream whose timebase is not known. */
    function Rebased(index: int, s: Stamps): (moved: Stamps)
      requires Valid()
      ensures offset == 0 || index < 0 || index >= |timeBases| ==> moved == s
    {
      if Shifts(index)
      then Stamps(Shift(s.dts, Delta(index)), Shift(s.pts, Delta(index)))
      else s
    }

    method Apply(pkt: Packet)
      requires Valid()
      modifies pkt`dts, pkt`pts
      ensures pkt.Times() == Rebased(pkt.streamIndex, old(pkt.Times()))
    {
      if offset == 0 {
        return;
      }
      var index := pkt.streamIndex;
      if index < 0 || index >= |timeBases| {
        return;
      }
      var delta := Rescale64(offset, MICROSECONDS, timeBases[index]);
      if pkt.pts != NO_PTS {
        pkt.pts := Wrap(pkt.pts + delta);
      }
      if pkt.dts != NO_PTS {
        pkt.dts := Wrap(pkt.dts + delta);
      }
    }
  }

  /** A missing timestamp stays missing; a present one moves by `delta`, as int64 addition. */
  function Shift(t: int64, delta: int64): int64 {
    if t == NO_PTS then NO_PTS else Wrap(t + delta)
  }

  predicate InRange(x: int) {
    MIN_INT64 <= x <= MAX_INT64
  }

  /**
   A shifted timestamp is missing exactly when it was missing, or when int64 addition
   lands on the sentinel.
   */
  lemma {:induction false} ShiftKeepsPresence(t: int64, delta: int64)
    ensures Shift(t, delta) == NO_PTS
        <==> t == NO_PTS || t + delta == MIN_INT64 || t + delta == MAX_INT64 + 1
  {
  }

  /**
   Within one stream, distances survive the shift exactly when both sums overflow int64 or
   neither does, and so does order, PTS against DTS included.
   */
  lemma {:induction false} ShiftKeepsDifferences(t: int64, u: int64, delta: int64)
    requires t != NO_PTS && u != NO_PTS
    ensures Shift(t, delta) - Shift(u, delta) == t - u
        <==> (InRange(t + delta) <==> InRange(u + delta))
    ensures (Shift(t, delta) <= Shift(u, delta) <==> t <= u) && (Shift(u, delta) <= Shift(t, delta) <==> u <= t)
        <==> (InRange(t + delta) <==> InRange(u + delta))
  {
  }

  /** Neither the shift in ticks nor the shifted timestamp leaves int64. */
  predicate FitsRebase(tr: TimestampRebase, index: int, t: int64)
    requires tr.Valid() && tr.Shifts(index)
  {
    && InRange(RescaleQ(tr.offset, MICROSECONDS, tr.timeBases[index]))
    && t != NO_PTS
    && InRange(t + tr.Delta(index))
  }

  /** Every stream moves by the same real time, up to half a tick of its own timebase. */
  lemma {:induction false} RebaseMovesByOffset(tr: TimestampRebase, index: int, t: int64)
    requires tr.Valid() && tr.Shifts(index) && FitsRebase(tr, index, t)
    ensures var tb := tr.timeBases[index];
            var moved := InSeconds(Shift(t, tr.Delta(index)), tb) - InSeconds(t, tb);
            -tb.Seconds() / 2.0 <= moved - InSeconds(tr.offset, MICROSECONDS) <= tb.Seconds() / 2.0
  {
    var tb := tr.timeBases[index];
    RescaleWithinHalfTick(tr.offset, MICROSECONDS, tb);
    var d := tr.Delta(index);
    assert InSeconds(t + d, tb) == InSeconds(t, tb) + InSeconds(d, tb);
  }

  /**
   A/V sync: the real-time skew between a packet of stream `i` and a packet of stream `j`
   changes by at most half the sum of the two timebases.
   */
  lemma RebaseKeepsSkew(tr: TimestampRebase, i: int, j: int, t: int64, u: int64)
    requires tr.Valid() && tr.Shifts(i) && tr.Shifts(j)
    requires FitsRebase(tr, i, t) && FitsRebase(tr, j, u)
    ensures var a, b := tr.timeBases[i], tr.timeBases[j];
            var before := InSeconds(t, a) - InSeconds(u, b);
            var after := InSeconds(Shift(t, tr.Delta(i)), a) - InSeconds(Shift(u, tr.Delta(j)), b);
            -(a.Seconds() + b.Seconds()) / 2.0 <= after - before <= (a.Seconds() + b.Seconds()) / 2.0
  {
    RebaseMovesByOffset(tr, i, t);
    RebaseMovesByOffset(tr, j, u);
  }
}
