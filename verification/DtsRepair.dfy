/**
 The DTS/PTS repair applied to every packet before the muxer sees it
 (pkg/ffmpeg/stream.go): one step of the clamp, a whole stream of them, and the
 closed form of what a stream of clamps writes.
 */
module DtsRepair {
  import opened Timestamps
  import opened Rebase
  import opened Wrappers

  datatype Clamp = Clamp(dts: int64, pts: int64, clamped: bool)

  /** One repair. `last` is the DTS written before it, NO_PTS when there is none. */
  function MonotonicDtsClamp(last: int64, encDts: int64, encPts: int64): Clamp {
    var (newDts, repaired) :=
      if encDts == NO_PTS then
        if last != NO_PTS then (Wrap(last + 1), true)
        else if encPts != NO_PTS then (encPts, true)
        else (encDts, false)
      else if last != NO_PTS && encDts <= last then (Wrap(last + 1), true)
      else (encDts, false);
    if newDts != NO_PTS && encPts != NO_PTS && encPts < newDts
    then Clamp(newDts, newDts, true)
    else Clamp(newDts, encPts, repaired)
  }

  /** A packet the muxer accepts as it is, after a packet with DTS `last`. */
  predicate Acceptable(last: int64, s: Stamps) {
    && (s.dts == NO_PTS ==> last == NO_PTS && s.pts == NO_PTS)
    && (s.dts != NO_PTS && last != NO_PTS ==> s.dts > last)
    && (s.dts != NO_PTS && s.pts != NO_PTS ==> s.pts >= s.dts)
  }

  /** The clamp fires on exactly the packets the muxer would not accept. */
  lemma ClampFiresIffUnacceptable(last: int64, s: Stamps)
    ensures MonotonicDtsClamp(last, s.dts, s.pts).clamped <==> !Acceptable(last, s)
  {
  }

  /**
   A change is always reported, and a reported clamp is a change except for a missing DTS after the
   largest int64.
   */
  lemma ClampReportsChange(last: int64, s: Stamps)
    ensures var c := MonotonicDtsClamp(last, s.dts, s.pts);
            && (Stamps(c.dts, c.pts) != s ==> c.clamped)
            && ((c.clamped <==> Stamps(c.dts, c.pts) != s) <==> !(last == MAX_INT64 && s.dts == NO_PTS))
  {
  }

  // --- Whole streams ---

  function Written(last: int64, s: Stamps): Stamps {
    var c := MonotonicDtsClamp(last, s.dts, s.pts);
    Stamps(c.dts, c.pts)
  }

  /** What a stream writes for `ps`, starting after a packet with DTS `last`. */
  function Repair(last: int64, ps: seq<Stamps>): (out: seq<Stamps>)
    ensures |out| == |ps|
  {
    if ps == [] then []
    else
      var rest := Repair(last, ps[..|ps| - 1]);
      rest + [Written(LastDts(last, rest), ps[|ps| - 1])]
  }

  function LastDts(last: int64, written: seq<Stamps>): int64 {
    if written == [] then last else written[|written| - 1].dts
  }

  /** How many clamps that stream counts. */
  function Clamps(last: int64, ps: seq<Stamps>): nat {
    if ps == [] then 0
    else
      var prior := ps[..|ps| - 1];
      var s := ps[|ps| - 1];
      Clamps(last, prior)
      + if MonotonicDtsClamp(LastDts(last, Repair(last, prior)), s.dts, s.pts).clamped then 1 else 0
  }

  lemma RepairSnoc(last: int64, ps: seq<Stamps>, s: Stamps)
    ensures var before := LastDts(last, Repair(last, ps));
            && Repair(last, ps + [s]) == Repair(last, ps) + [Written(before, s)]
            && Clamps(last, ps + [s])
            == Clamps(last, ps) + if MonotonicDtsClamp(before, s.dts, s.pts).clamped then 1 else 0
  {
    assert (ps + [s])[..|ps|] == ps;
  }

  /** The i-th write depends on the packets before it only through the (i-1)-th write. */
  lemma {:induction false} RepairAt(last: int64, ps: seq<Stamps>, i: nat)
    requires i < |ps|
    ensures Repair(last, ps)[..i] == Repair(last, ps[..i])
    ensures Repair(last, ps)[i] == Written(if i == 0 then last else Repair(last, ps)[i - 1].dts, ps[i])
  {
    var prior := ps[..|ps| - 1];
    if i < |ps| - 1 {
      RepairAt(last, prior, i);
      assert prior[..i] == ps[..i];
      assert Repair(last, ps)[..i] == Repair(last, prior)[..i];
    } else {
      assert Repair(last, ps)[..i] == Repair(last, prior);
    }
  }

  /** Every packet is acceptable after the one before it. */
  predicate WellFormed(last: int64, ps: seq<Stamps>) {
    forall i :: 0 <= i < |ps| ==> AcceptableAt(last, ps, i)
  }

  predicate AcceptableAt(last: int64, ps: seq<Stamps>, i: nat)
    requires i < |ps|
  {
    Acceptable(if i == 0 then last else ps[i - 1].dts, ps[i])
  }

  lemma WellFormedSnoc(last: int64, ps: seq<Stamps>, s: Stamps)
    ensures WellFormed(last, ps + [s]) <==> WellFormed(last, ps) && Acceptable(LastDts(last, ps), s)
  {
    var all := ps + [s];
    if WellFormed(last, all) {
      forall i | 0 <= i < |ps| ensures AcceptableAt(last, ps, i) {
        assert AcceptableAt(last, all, i);
      }
      assert AcceptableAt(last, all, |ps|);
    } else if WellFormed(last, ps) && Acceptable(LastDts(last, ps), s) {
      forall i | 0 <= i < |all| ensures AcceptableAt(last, all, i) {
        assert i < |ps| ==> AcceptableAt(last, ps, i);
      }
    }
  }

  /**
   Well-formed streams, and only those, go through with no clamp counted; they come out
   bit-identical.
   */
  lemma {:induction false} NoClampIffWellFormed(last: int64, ps: seq<Stamps>)
    ensures Clamps(last, ps) == 0 <==> WellFormed(last, ps)
    ensures WellFormed(last, ps) ==> Repair(last, ps) == ps
  {
    if ps != [] {
      var prior, s := ps[..|ps| - 1], ps[|ps| - 1];
      assert ps == prior + [s];
      NoClampIffWellFormed(last, prior);
      WellFormedSnoc(last, prior, s);
      ClampFiresIffUnacceptable(LastDts(last, prior), s);
    }
  }

  /** Idempotence, from any state and without any bound: repairing a repaired stream changes nothing. */
  lemma {:induction false} RepairIsIdempotent(last: int64, ps: seq<Stamps>)
    ensures Repair(last, Repair(last, ps)) == Repair(last, ps)
  {
    if ps != [] {
      var prior, s := ps[..|ps| - 1], ps[|ps| - 1];
      var out := Repair(last, prior);
      var w := Written(LastDts(last, out), s);
      RepairIsIdempotent(last, prior);
      assert Repair(last, ps) == out + [w];
      RepairSnoc(last, out, w);
    }
  }

  // --- The closed form ---

  /** Index of the first packet carrying any timestamp; |ps| when there is none. */
  function Anchor(ps: seq<Stamps>): (a: nat)
    ensures a <= |ps|
    ensures forall i :: 0 <= i < a ==> ps[i] == Stamps(NO_PTS, NO_PTS)
    ensures a < |ps| ==> ps[a] != Stamps(NO_PTS, NO_PTS)
  {
    if ps == [] then 0
    else if ps[0] != Stamps(NO_PTS, NO_PTS) then 0
    else 1 + Anchor(ps[1..])
  }

  /** Packet `j` asks for a DTS: its own, or the anchor's PTS when the anchor has none. */
  predicate Asks(ps: seq<Stamps>, j: int) {
    0 <= j < |ps| && (ps[j].dts != NO_PTS || j == Anchor(ps))
  }

  function Demand(ps: seq<Stamps>, j: int): int
    requires Asks(ps, j)
  {
    if ps[j].dts != NO_PTS then ps[j].dts else ps[j].pts
  }

  /** `v` is the maximum over the asking packets `j <= i` of `Demand(j) + (i - j)`. */
  ghost predicate IsEnvelope(ps: seq<Stamps>, i: int, v: int) {
    && (exists j :: Asks(ps, j) && j <= i && v == Demand(ps, j) + (i - j))
    && (forall j :: Asks(ps, j) && j <= i ==> Demand(ps, j) + (i - j) <= v)
  }

  /** The envelope at `i`, one packet at a time. */
  function Envelope(ps: seq<Stamps>, i: int): int
    requires Anchor(ps) <= i < |ps|
    decreases i
  {
    if i == Anchor(ps) then Demand(ps, i)
    else
      var next := Envelope(ps, i - 1) + 1;
      if Asks(ps, i) && Demand(ps, i) > next then Demand(ps, i) else next
  }

  lemma {:induction false} EnvelopeIsMaximum(ps: seq<Stamps>, i: int)
    requires Anchor(ps) <= i < |ps|
    ensures IsEnvelope(ps, i, Envelope(ps, i))
    decreases i
  {
    var a := Anchor(ps);
    if i == a {
      assert Asks(ps, i) && Envelope(ps, i) == Demand(ps, i) + (i - i);
    } else {
      EnvelopeIsMaximum(ps, i - 1);
      var j :| Asks(ps, j) && j <= i - 1 && Envelope(ps, i - 1) == Demand(ps, j) + (i - 1 - j);
      if Envelope(ps, i) == Envelope(ps, i - 1) + 1 {
        assert Envelope(ps, i) == Demand(ps, j) + (i - j);
      } else {
        assert Envelope(ps, i) == Demand(ps, i) + (i - i);
      }
    }
  }

  /** The envelope is the pointwise least strictly increasing sequence above the demands. */
  lemma {:induction false} EnvelopeIsLeast(ps: seq<Stamps>, w: seq<int>, i: int)
    requires |w| == |ps| && Anchor(ps) <= i < |ps|
    requires forall k :: Anchor(ps) < k < |ps| ==> w[k - 1] < w[k]
    requires forall j :: Asks(ps, j) ==> Demand(ps, j) <= w[j]
    ensures Envelope(ps, i) <= w[i]
    decreases i
  {
    if i > Anchor(ps) {
      EnvelopeIsLeast(ps, w, i - 1);
      assert w[i - 1] < w[i];
    }
  }

  /** The envelope stays inside int64 throughout. */
  ghost predicate Fits(ps: seq<Stamps>) {
    forall i :: Anchor(ps) <= i < |ps| ==> Envelope(ps, i) <= MAX_INT64
  }

  /** What one packet is written as, given the DTS it asks for. */
  predicate OnEnvelope(s: Stamps, dts: int, out: Stamps) {
    && out.dts == dts != NO_PTS
    && out.pts == if s.pts == NO_PTS then NO_PTS else if s.pts < out.dts then out.dts else s.pts
  }

  /** Closed form of one written packet. */
  ghost predicate FollowsEnvelope(ps: seq<Stamps>, out: seq<Stamps>, i: int)
    requires 0 <= i < |ps| == |out|
  {
    if i < Anchor(ps) then out[i] == Stamps(NO_PTS, NO_PTS)
    else OnEnvelope(ps[i], Envelope(ps, i), out[i])
  }

  ghost predicate FollowsThroughout(ps: seq<Stamps>, out: seq<Stamps>)
    requires |ps| == |out|
  {
    forall i :: 0 <= i < |ps| ==> FollowsEnvelope(ps, out, i)
  }

  lemma {:induction false} EnvelopeAboveSentinel(ps: seq<Stamps>, i: int)
    requires Anchor(ps) <= i < |ps|
    ensures Envelope(ps, i) > NO_PTS
    decreases i
  {
    if i > Anchor(ps) {
      EnvelopeAboveSentinel(ps, i - 1);
    }
  }

  lemma AnchorWrite(s: Stamps)
    requires s != Stamps(NO_PTS, NO_PTS)
    ensures OnEnvelope(s, if s.dts != NO_PTS then s.dts else s.pts, Written(NO_PTS, s))
  {
  }

  lemma NextWrite(last: int64, s: Stamps)
    requires NO_PTS < last < MAX_INT64
    ensures OnEnvelope(s, if s.dts != NO_PTS && s.dts > last + 1 then s.dts else last + 1, Written(last, s))
  {
  }

  lemma EnvelopeGrows(ps: seq<Stamps>, i: int)
    requires Anchor(ps) < i < |ps|
    ensures Envelope(ps, i - 1) < Envelope(ps, i)
  {
  }

  lemma {:induction false} WriteFollowsEnvelope(ps: seq<Stamps>, i: int)
    requires 0 <= i < |ps|
    requires forall k :: Anchor(ps) <= k <= i ==> Envelope(ps, k) <= MAX_INT64
    ensures FollowsEnvelope(ps, Repair(NO_PTS, ps), i)
    decreases i
  {
    RepairAt(NO_PTS, ps, i);
    if i > 0 {
      WriteFollowsEnvelope(ps, i - 1);
    }
    if i == Anchor(ps) {
      AnchorWrite(ps[i]);
    } else if i > Anchor(ps) {
      EnvelopeAboveSentinel(ps, i - 1);
      EnvelopeGrows(ps, i);
      NextWrite(Envelope(ps, i - 1), ps[i]);
    }
  }

  /**
   The closed form: the whole stream is written along its envelope exactly when the
   envelope never leaves int64. Before the anchor nothing has a timestamp; from the
   anchor on, no written DTS is missing.
   */
  lemma RepairFollowsEnvelopeIffFits(ps: seq<Stamps>)
    ensures Fits(ps) <==> FollowsThroughout(ps, Repair(NO_PTS, ps))
  {
    var out := Repair(NO_PTS, ps);
    if Fits(ps) {
      forall i | 0 <= i < |ps| ensures FollowsEnvelope(ps, out, i) {
        WriteFollowsEnvelope(ps, i);
      }
    }
    if FollowsThroughout(ps, out) {
      forall i | Anchor(ps) <= i < |ps| ensures Envelope(ps, i) <= MAX_INT64 {
        assert FollowsEnvelope(ps, out, i);
      }
    }
  }

  /** Timestamps within [-bound, bound] and bound + n < 2^63 keep n packets inside int64. */
  lemma {:induction false} BoundedStampsFit(ps: seq<Stamps>, bound: nat)
    requires forall i :: 0 <= i < |ps| ==> ps[i].dts == NO_PTS || 0 - bound <= ps[i].dts <= bound
    requires forall i :: 0 <= i < |ps| ==> ps[i].pts == NO_PTS || 0 - bound <= ps[i].pts <= bound
    requires bound + |ps| <= MAX_INT64
    ensures Fits(ps)
  {
    forall i | Anchor(ps) <= i < |ps| ensures Envelope(ps, i) <= MAX_INT64 {
      EnvelopeIsMaximum(ps, i);
      var j :| Asks(ps, j) && j <= i && Envelope(ps, i) == Demand(ps, j) + (i - j);
      assert ps[j] != Stamps(NO_PTS, NO_PTS);
    }
  }

  /**
   A second repair changes nothing anyway; that it also counts no clamp is true exactly when the
   envelope of the original stream fits int64.
   */
  lemma RepairedCountsNoClampIffFits(ps: seq<Stamps>)
    ensures Clamps(NO_PTS, Repair(NO_PTS, ps)) == 0 <==> Fits(ps)
  {
    var out := Repair(NO_PTS, ps);
    NoClampIffWellFormed(NO_PTS, out);
    RepairFollowsEnvelopeIffFits(ps);
    if Fits(ps) {
      forall i | 0 <= i < |out| ensures AcceptableAt(NO_PTS, out, i) {
        EnvelopeIsAcceptable(ps, out, i);
      }
    } else {
      var i :| Anchor(ps) <= i < |ps| && Envelope(ps, i) > MAX_INT64;
      if WellFormed(NO_PTS, out) {
        WellFormedOutputFits(ps, i);
      }
    }
  }

  lemma OnEnvelopeIsAcceptable(last: int64, s: Stamps, dts: int, out: Stamps)
    requires OnEnvelope(s, dts, out) && last < dts
    ensures Acceptable(last, out)
  {
  }

  /** Whatever follows the envelope is well formed. */
  lemma EnvelopeIsAcceptable(ps: seq<Stamps>, out: seq<Stamps>, i: nat)
    requires i < |ps| == |out| && FollowsThroughout(ps, out)
    ensures AcceptableAt(NO_PTS, out, i)
  {
    assert FollowsEnvelope(ps, out, i) && (i > 0 ==> FollowsEnvelope(ps, out, i - 1));
    if i >= Anchor(ps) {
      EnvelopeAboveSentinel(ps, i);
      if i > Anchor(ps) {
        EnvelopeGrows(ps, i);
      }
      OnEnvelopeIsAcceptable(if i == 0 then NO_PTS else out[i - 1].dts, ps[i], Envelope(ps, i), out[i]);
    }
  }

  /** An overflow writes the sentinel after a real DTS, which is not acceptable. */
  lemma {:induction false} WellFormedOutputFits(ps: seq<Stamps>, i: int)
    requires Anchor(ps) <= i < |ps|
    requires WellFormed(NO_PTS, Repair(NO_PTS, ps))
    ensures forall k :: Anchor(ps) <= k <= i ==> Envelope(ps, k) <= MAX_INT64
    decreases i
  {
    var out := Repair(NO_PTS, ps);
    if i > Anchor(ps) {
      WellFormedOutputFits(ps, i - 1);
      WriteFollowsEnvelope(ps, i - 1);
      RepairAt(NO_PTS, ps, i);
      assert AcceptableAt(NO_PTS, out, i);
    }
  }

  /** Packets that leave the repair different from how they entered it. */
  function Changed(ps: seq<Stamps>, out: seq<Stamps>): nat
    requires |ps| == |out|
  {
    if ps == [] then 0
    else
      var n := |ps| - 1;
      Changed(ps[..n], out[..n]) + if ps[n] != out[n] then 1 else 0
  }

  /** A missing DTS after a written MAX_INT64: the clamp wraps to the sentinel and leaves the packet as it was. */
  predicate WrapsAt(last: int64, ps: seq<Stamps>, i: nat)
    requires i < |ps|
  {
    ps[i].dts == NO_PTS && (if i == 0 then last else Repair(last, ps)[i - 1].dts) == MAX_INT64
  }

  lemma WrapsAtPrefix(last: int64, ps: seq<Stamps>, n: nat, i: nat)
    requires i < n <= |ps|
    ensures WrapsAt(last, ps[..n], i) <==> WrapsAt(last, ps, i)
  {
    var out := Repair(last, ps);
    if n < |ps| {
      RepairAt(last, ps, n);
      assert i > 0 ==> out[..n][i - 1] == out[i - 1];
    } else {
      assert ps[..n] == ps;
    }
  }

  lemma ClampsSnoc(last: int64, ps: seq<Stamps>)
    requires ps != []
    ensures var n := |ps| - 1;
            var c := MonotonicDtsClamp(LastDts(last, Repair(last, ps[..n])), ps[n].dts, ps[n].pts);
            && Clamps(last, ps) == Clamps(last, ps[..n]) + (if c.clamped then 1 else 0)
            && Changed(ps, Repair(last, ps))
               == Changed(ps[..n], Repair(last, ps[..n])) + (if ps[n] != Stamps(c.dts, c.pts) then 1 else 0)
            && (WrapsAt(last, ps, n) <==> LastDts(last, Repair(last, ps[..n])) == MAX_INT64 && ps[n].dts == NO_PTS)
  {
    RepairAt(last, ps, |ps| - 1);
  }

  /** clampedCount never misses a change, and counts one too many for every packet that wraps. */
  lemma {:induction false} ClampsAndChanges(last: int64, ps: seq<Stamps>)
    ensures Changed(ps, Repair(last, ps)) <= Clamps(last, ps)
    ensures Clamps(last, ps) == Changed(ps, Repair(last, ps)) <==> NeverWraps(last, ps)
  {
    if ps != [] {
      var n := |ps| - 1;
      ClampsAndChanges(last, ps[..n]);
      ClampsSnoc(last, ps);
      NeverWrapsSnoc(last, ps);
      ClampReportsChange(LastDts(last, Repair(last, ps[..n])), ps[n]);
    }
  }

  predicate NeverWraps(last: int64, ps: seq<Stamps>) {
    forall i :: 0 <= i < |ps| ==> !WrapsAt(last, ps, i)
  }

  lemma NeverWrapsSnoc(last: int64, ps: seq<Stamps>)
    requires ps != []
    ensures NeverWraps(last, ps) <==> NeverWraps(last, ps[..|ps| - 1]) && !WrapsAt(last, ps, |ps| - 1)
  {
    var n := |ps| - 1;
    forall i | 0 <= i < n ensures WrapsAt(last, ps[..n], i) <==> WrapsAt(last, ps, i) {
      WrapsAtPrefix(last, ps, n, i);
    }
    if NeverWraps(last, ps[..n]) && !WrapsAt(last, ps, n) {
      forall i | 0 <= i < |ps| ensures !WrapsAt(last, ps, i) {
        assert i < n ==> !WrapsAt(last, ps[..n], i);
      }
    }
  }

  /**
   clampedCount is the number of packets changed exactly when no packet without a DTS comes right
   after a written DTS of MAX_INT64.
   */
  lemma ClampsCountChangesIff(last: int64, ps: seq<Stamps>)
    ensures Clamps(last, ps) == Changed(ps, Repair(last, ps))
       <==> forall i :: 0 <= i < |ps| ==> !WrapsAt(last, ps, i)
  {
    ClampsAndChanges(last, ps);
  }

  // --- The same on the input alone ---

  lemma {:induction false} RepairConcat(last: int64, xs: seq<Stamps>, ys: seq<Stamps>)
    ensures Repair(last, xs + ys) == Repair(last, xs) + Repair(LastDts(last, Repair(last, xs)), ys)
  {
    var first := Repair(last, xs);
    var before := LastDts(last, first);
    if ys == [] {
      assert xs + ys == xs && first + [] == first;
    } else {
      var prior, s := ys[..|ys| - 1], ys[|ys| - 1];
      var mid := Repair(before, prior);
      RepairConcat(last, xs, prior);
      assert xs + ys == xs + prior + [s];
      RepairSnoc(last, xs + prior, s);
      LastOfConcat(last, first, mid);
      ConcatAssociative(first, mid, [Written(LastDts(before, mid), s)]);
    }
  }

  lemma LastOfConcat(last: int64, a: seq<Stamps>, b: seq<Stamps>)
    ensures LastDts(last, a + b) == LastDts(LastDts(last, a), b)
  {
  }

  /** Index of the first packet whose envelope leaves int64; |ps| when there is none. */
  function Overflow(ps: seq<Stamps>): (o: nat)
    ensures Anchor(ps) <= o <= |ps|
    ensures forall i :: Anchor(ps) <= i < o ==> Envelope(ps, i) <= MAX_INT64
    ensures o < |ps| ==> Envelope(ps, o) > MAX_INT64
  {
    OverflowFrom(ps, Anchor(ps))
  }

  function OverflowFrom(ps: seq<Stamps>, i: nat): (o: nat)
    requires Anchor(ps) <= i <= |ps|
    ensures i <= o <= |ps|
    ensures forall k :: i <= k < o ==> Envelope(ps, k) <= MAX_INT64
    ensures o < |ps| ==> Envelope(ps, o) > MAX_INT64
    decreases |ps| - i
  {
    if i == |ps| || Envelope(ps, i) > MAX_INT64 then i else OverflowFrom(ps, i + 1)
  }

  /**
   Some overflow hits a packet without a DTS. After an overflow the stream starts afresh: what is
   written there is the sentinel, which reads as "nothing written yet".
   */
  predicate OverflowsSilently(ps: seq<Stamps>)
    decreases |ps|
  {
    var o := Overflow(ps);
    o < |ps| && (ps[o].dts == NO_PTS || OverflowsSilently(ps[o + 1..]))
  }

  lemma OverflowWrite(s: Stamps)
    ensures Written(MAX_INT64, s).dts == NO_PTS
  {
  }

  /** A demand fits int64, so the envelope leaves it by one step from the limit. */
  lemma LeavesByOne(ps: seq<Stamps>, i: nat)
    requires Anchor(ps) <= i < |ps| && Envelope(ps, i) > MAX_INT64
    requires i > Anchor(ps) ==> Envelope(ps, i - 1) <= MAX_INT64
    ensures i > Anchor(ps) && Envelope(ps, i - 1) == MAX_INT64
  {
  }

  /** Packet `o` is the one at which MAX_INT64 has been written and "none" is. */
  predicate WrapsOver(out: seq<Stamps>, o: nat) {
    0 < o < |out| && out[o - 1].dts == MAX_INT64 && out[o].dts == NO_PTS
  }

  /** The envelope is at the limit before `o`. */
  ghost predicate ReachesLimit(ps: seq<Stamps>, o: nat) {
    && Anchor(ps) < o < |ps| && Envelope(ps, o - 1) == MAX_INT64
    && forall k :: Anchor(ps) <= k < o ==> Envelope(ps, k) <= MAX_INT64
  }

  lemma OverflowReachesLimit(ps: seq<Stamps>)
    requires Overflow(ps) < |ps|
    ensures ReachesLimit(ps, Overflow(ps))
  {
    LeavesByOne(ps, Overflow(ps));
  }

  /** Just before its first overflow a stream writes MAX_INT64, and at the overflow "none". */
  lemma WritesAtLimit(ps: seq<Stamps>, o: nat)
    requires ReachesLimit(ps, o)
    ensures WrapsOver(Repair(NO_PTS, ps), o)
  {
    WriteFollowsEnvelope(ps, o - 1);
    RepairAt(NO_PTS, ps, o);
    OverflowWrite(ps[o]);
  }

  lemma NotYetAtLimit(ps: seq<Stamps>, i: nat)
    requires 0 < i < Overflow(ps)
    ensures Repair(NO_PTS, ps)[i - 1].dts != MAX_INT64
  {
    WriteFollowsEnvelope(ps, i - 1);
    if Anchor(ps) < i {
      EnvelopeGrows(ps, i);
    }
  }

  /** Before the first overflow nothing wraps; there it wraps if the packet has no DTS. */
  lemma WrapsUntilOverflow(ps: seq<Stamps>, i: nat)
    requires i < |ps| && i <= Overflow(ps)
    ensures WrapsAt(NO_PTS, ps, i) <==> i == Overflow(ps) && ps[i].dts == NO_PTS
  {
    if i == Overflow(ps) {
      OverflowReachesLimit(ps);
      WritesAtLimit(ps, i);
    } else if i > 0 {
      NotYetAtLimit(ps, i);
    }
  }

  lemma WrapsInConcat(head: seq<Stamps>, rest: seq<Stamps>, j: nat)
    requires head != [] && j < |rest| && Repair(NO_PTS, head + rest)[|head| - 1].dts == NO_PTS
    ensures WrapsAt(NO_PTS, head + rest, |head| + j) <==> WrapsAt(NO_PTS, rest, j)
  {
    RepairAfterMissing(head, rest);
    WrapsInOutput(head, rest, Repair(NO_PTS, head), Repair(NO_PTS, rest), Repair(NO_PTS, head + rest), j);
  }

  lemma WrapsInOutput(head: seq<Stamps>, rest: seq<Stamps>, a: seq<Stamps>, b: seq<Stamps>, all: seq<Stamps>, j: nat)
    requires |a| == |head| > 0 && |b| == |rest| && all == a + b && j < |rest| && all[|head| - 1].dts == NO_PTS
    ensures (head + rest)[|head| + j] == rest[j]
    ensures all[|head| + j - 1].dts == (if j == 0 then NO_PTS else b[j - 1].dts)
  {
  }

  /** After a packet written without a DTS the repair starts afresh. */
  lemma RepairAfterMissing(head: seq<Stamps>, rest: seq<Stamps>)
    requires head != [] && Repair(NO_PTS, head + rest)[|head| - 1].dts == NO_PTS
    ensures Repair(NO_PTS, head + rest) == Repair(NO_PTS, head) + Repair(NO_PTS, rest)
  {
    var a := Repair(NO_PTS, head);
    RepairConcat(NO_PTS, head, rest);
    assert Repair(NO_PTS, head + rest)[|head| - 1] == a[|a| - 1];
  }

  /** After the overflow the rest of the stream wraps where it would alone. */
  lemma WrapsAfterOverflow(head: seq<Stamps>, rest: seq<Stamps>, j: nat)
    requires |head| == Overflow(head + rest) + 1 && j < |rest|
    ensures WrapsAt(NO_PTS, head + rest, |head| + j) <==> WrapsAt(NO_PTS, rest, j)
  {
    OverflowReachesLimit(head + rest);
    WritesAtLimit(head + rest, |head| - 1);
    WrapsInConcat(head, rest, j);
  }

  lemma WrapsUpTo(ps: seq<Stamps>)
    ensures var o := Overflow(ps);
            (forall i: nat :: i < |ps| && i <= o ==> !WrapsAt(NO_PTS, ps, i)) <==> o == |ps| || ps[o].dts != NO_PTS
  {
    var o := Overflow(ps);
    forall i: nat | i < |ps| && i <= o ensures WrapsAt(NO_PTS, ps, i) <==> i == o && ps[i].dts == NO_PTS {
      WrapsUntilOverflow(ps, i);
    }
  }

  lemma WrapsFromThere(ps: seq<Stamps>)
    requires Overflow(ps) < |ps|
    ensures (forall i: nat :: Overflow(ps) < i < |ps| ==> !WrapsAt(NO_PTS, ps, i))
       <==> NeverWraps(NO_PTS, ps[Overflow(ps) + 1..])
  {
    var n := Overflow(ps) + 1;
    var head, rest := ps[..n], ps[n..];
    assert ps == head + rest;
    forall j: nat | j < |rest| ensures WrapsAt(NO_PTS, rest, j) <==> WrapsAt(NO_PTS, ps, n + j) {
      WrapsAfterOverflow(head, rest, j);
    }
    assert forall i: nat :: n <= i < |ps| ==> (WrapsAt(NO_PTS, ps, i) <==> WrapsAt(NO_PTS, rest, i - n));
  }

  lemma {:induction false} NeverWrapsIff(ps: seq<Stamps>)
    ensures NeverWraps(NO_PTS, ps) <==> !OverflowsSilently(ps)
    decreases |ps|
  {
    WrapsUpTo(ps);
    if Overflow(ps) < |ps| {
      WrapsFromThere(ps);
      NeverWrapsIff(ps[Overflow(ps) + 1..]);
    }
  }

  /**
   For a stream from its start: clampedCount is the number of packets changed exactly when no
   packet at which the envelope leaves int64, counted afresh after each such packet, lacks a DTS.
   */
  lemma StreamClampsCountChangesIff(ps: seq<Stamps>)
    ensures Clamps(NO_PTS, ps) == Changed(ps, Repair(NO_PTS, ps)) <==> !OverflowsSilently(ps)
  {
    ClampsCountChangesIff(NO_PTS, ps);
    NeverWrapsIff(ps);
  }

  /** With in-range envelopes, clampedCount is the number of packets changed. */
  lemma FittingClampsCountChanges(ps: seq<Stamps>)
    requires Fits(ps)
    ensures Clamps(NO_PTS, ps) == Changed(ps, Repair(NO_PTS, ps))
  {
    forall i | 0 <= i < |ps| ensures !WrapsAt(NO_PTS, ps, i) {
      if i > 0 {
        WriteFollowsEnvelope(ps, i - 1);
        if i - 1 >= Anchor(ps) {
          assert Envelope(ps, i) > Envelope(ps, i - 1);
        }
      }
    }
    ClampsCountChangesIff(NO_PTS, ps);
  }
}
