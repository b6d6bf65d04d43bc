/**
 The grow-and-retry loop of the subtitle converter (pkg/ffmpeg/subtitle_codec.go). The codec
 is an oracle: for a packet that yields text it reports "buffer too small" exactly when the
 payload does not fit, and it keeps no state between calls.
 */
module SubtitleBuffer {
  const ENCODE_BUFFER_SIZE := 64 * 1024
  const ENCODE_BUFFER_MAX := 4 * 1024 * 1024

  /** What the codec would make of a packet, given room. */
  datatype Packet = Blank | Rejected(code: int) | NoSubtitle | Text(payload: seq<bv8>)

  datatype Converted = Nothing | Bytes(payload: seq<bv8>) | CodecError(code: int) | AtMaximum

  function Min(a: nat, b: nat): nat {
    if a <= b then a else b
  }

  function Max(a: nat, b: nat): nat {
    if a <= b then b else a
  }

  function Need(p: Packet): nat {
    if p.Text? then |p.payload| else 0
  }

  /** Size of a buffer after it grew for a payload of `need` bytes. */
  function Fit(size: nat, need: nat): (r: nat)
    requires size > 0
    ensures size <= r <= Max(size, ENCODE_BUFFER_MAX)
    ensures need <= r <==> need <= Max(size, ENCODE_BUFFER_MAX)
    decreases ENCODE_BUFFER_MAX - size
  {
    if need <= size || size >= ENCODE_BUFFER_MAX then size else Fit(Min(2 * size, ENCODE_BUFFER_MAX), need)
  }

  /** How often it grew. */
  function Growths(size: nat, need: nat): nat
    requires size > 0
    decreases ENCODE_BUFFER_MAX - size
  {
    if need <= size || size >= ENCODE_BUFFER_MAX then 0 else 1 + Growths(Min(2 * size, ENCODE_BUFFER_MAX), need)
  }

  function Result(p: Packet, size: nat): Converted {
    match p
    case Blank => Nothing
    case Rejected(code) => CodecError(code)
    case NoSubtitle => Nothing
    case Text(payload) =>
      if payload == [] then Nothing
      else if |payload| <= Max(size, ENCODE_BUFFER_MAX) then Bytes(payload)
      else AtMaximum
  }

  class SubtitleConverter {
    var encBufSize: nat
    /** Reallocations so far. */
    ghost var grown: nat

    constructor (size: nat)
      ensures encBufSize == size && grown == 0
    {
      encBufSize, grown := size, 0;
    }

    method GrowEncodeBuffer() returns (ok: bool)
      modifies this
      ensures ok <==> old(encBufSize) < ENCODE_BUFFER_MAX
      ensures encBufSize == if ok then Min(2 * old(encBufSize), ENCODE_BUFFER_MAX) else old(encBufSize)
      ensures grown == old(grown) + if ok then 1 else 0
    {
      if encBufSize >= ENCODE_BUFFER_MAX {
        return false;
      }
      var newSize := encBufSize * 2;
      if newSize > ENCODE_BUFFER_MAX {
        newSize := ENCODE_BUFFER_MAX;
      }
      encBufSize, grown := newSize, grown + 1;
      return true;
    }

    /** The result does not depend on how far the buffer has to grow, only on the limit. */
    method Convert(p: Packet) returns (r: Converted)
      requires encBufSize > 0
      modifies this
      ensures r == Result(p, old(encBufSize))
      ensures p.Text? && p.payload != [] && |p.payload| <= Max(old(encBufSize), ENCODE_BUFFER_MAX) ==>
                r == Bytes(p.payload)
      ensures encBufSize == Fit(old(encBufSize), Need(p))
      ensures grown == old(grown) + Growths(old(encBufSize), Need(p))
    {
      if p.Blank? {
        return Nothing;
      }
      while true
        invariant encBufSize > 0
        invariant Fit(encBufSize, Need(p)) == Fit(old(encBufSize), Need(p))
        invariant grown + Growths(encBufSize, Need(p)) == old(grown) + Growths(old(encBufSize), Need(p))
        invariant Max(encBufSize, ENCODE_BUFFER_MAX) == Max(old(encBufSize), ENCODE_BUFFER_MAX)
        decreases ENCODE_BUFFER_MAX - encBufSize
      {
        if p.Rejected? {
          return CodecError(p.code);
        }
        if Need(p) > encBufSize {
          var ok := GrowEncodeBuffer();
          if !ok {
            return AtMaximum;
          }
          continue;
        }
        if Need(p) == 0 {
          return Nothing;
        }
        return Bytes(p.payload);
      }
    }

    method ConvertAll(ps: seq<Packet>) returns (rs: seq<Converted>)
      requires encBufSize > 0
      modifies this
      ensures |rs| == |ps| && forall i :: 0 <= i < |ps| ==> rs[i] == Result(ps[i], old(encBufSize))
      ensures encBufSize == FitAll(old(encBufSize), ps)
      ensures grown == old(grown) + GrowthsAll(old(encBufSize), ps)
    {
      rs := [];
      for i := 0 to |ps|
        invariant encBufSize == FitAll(old(encBufSize), ps[..i])
        invariant grown == old(grown) + GrowthsAll(old(encBufSize), ps[..i])
        invariant |rs| == i && forall j :: 0 <= j < i ==> rs[j] == Result(ps[j], old(encBufSize))
      {
        assert ps[..i + 1][..i] == ps[..i];
        ResultKeepsHistory(ps[i], old(encBufSize), encBufSize);
        var r := Convert(ps[i]);
        rs := rs + [r];
      }
      assert ps[..|ps|] == ps;
    }
  }

  /**
   Bytes come out exactly for a text that is not empty and fits the limit, and they are the codec's,
   whole; nothing comes out for the rest, unless the codec rejects it or the text is over the limit.
   */
  lemma BytesArePayload(p: Packet, size: nat, bytes: seq<bv8>)
    ensures Result(p, size) == Bytes(bytes)
       <==> p == Text(bytes) && 0 < |bytes| && (|bytes| <= size || |bytes| <= 4 * 1024 * 1024)
    ensures Result(p, size) == AtMaximum <==> p.Text? && |p.payload| > size && |p.payload| > 4 * 1024 * 1024
    ensures forall code :: Result(p, size) == CodecError(code) <==> p == Rejected(code)
  {
  }

  lemma ResultKeepsHistory(p: Packet, first: nat, size: nat)
    requires first <= size <= Max(first, ENCODE_BUFFER_MAX)
    ensures Result(p, size) == Result(p, first)
  {
  }

  function FitAll(size: nat, ps: seq<Packet>): (r: nat)
    requires size > 0
    ensures size <= r <= Max(size, ENCODE_BUFFER_MAX)
  {
    if ps == [] then size else Fit(FitAll(size, ps[..|ps| - 1]), Need(ps[|ps| - 1]))
  }

  function GrowthsAll(size: nat, ps: seq<Packet>): nat
    requires size > 0
  {
    if ps == [] then 0
    else GrowthsAll(size, ps[..|ps| - 1]) + Growths(FitAll(size, ps[..|ps| - 1]), Need(ps[|ps| - 1]))
  }

  function LargestNeed(ps: seq<Packet>): nat {
    if ps == [] then 0 else Max(LargestNeed(ps[..|ps| - 1]), Need(ps[|ps| - 1]))
  }

  /** Growing for one payload and then another is growing for the larger. */
  lemma {:induction false} FitTwice(size: nat, a: nat, b: nat)
    requires size > 0
    ensures Fit(Fit(size, a), b) == Fit(size, Max(a, b))
    ensures Growths(size, a) + Growths(Fit(size, a), b) == Growths(size, Max(a, b))
    decreases ENCODE_BUFFER_MAX - size
  {
    if a > size && size < ENCODE_BUFFER_MAX {
      FitTwice(Min(2 * size, ENCODE_BUFFER_MAX), a, b);
    }
  }

  /** Any number of packets, in any order, grow the buffer as their largest payload alone would. */
  lemma {:induction false} OnlyLargestMatters(size: nat, ps: seq<Packet>)
    requires size > 0
    ensures FitAll(size, ps) == Fit(size, LargestNeed(ps))
    ensures GrowthsAll(size, ps) == Growths(size, LargestNeed(ps))
  {
    if ps != [] {
      var before := ps[..|ps| - 1];
      OnlyLargestMatters(size, before);
      FitTwice(size, LargestNeed(before), Need(ps[|ps| - 1]));
    }
  }

  function Pow2(n: nat): (r: nat)
    ensures r > 0
  {
    if n == 0 then 1 else 2 * Pow2(n - 1)
  }

  /** The least number of doublings that take `size` to the limit. */
  ghost predicate CeilLog2(size: nat, n: nat) {
    size * Pow2(n) >= ENCODE_BUFFER_MAX && (n > 0 ==> size * Pow2(n - 1) < ENCODE_BUFFER_MAX)
  }

  lemma ClampedReaches(x: nat, q: nat, limit: nat)
    requires q > 0
    ensures Min(x, limit) * q >= limit <==> x * q >= limit
  {
    if x > limit {
      assert limit * q >= limit;
      assert x * q >= x;
    }
  }

  lemma DoublingReaches(size: nat, n: nat)
    requires n > 0
    ensures Min(2 * size, ENCODE_BUFFER_MAX) * Pow2(n - 1) >= ENCODE_BUFFER_MAX <==> size * Pow2(n) >= ENCODE_BUFFER_MAX
  {
    DoubleProduct(size, Pow2(n - 1));
    ClampedReaches(2 * size, Pow2(n - 1), ENCODE_BUFFER_MAX);
  }

  lemma DoubleProduct(size: nat, q: nat)
    ensures size * (2 * q) == 2 * size * q
  {
  }

  lemma {:induction false} GrowthsBound(size: nat, need: nat, n: nat)
    requires size > 0 && size * Pow2(n) >= ENCODE_BUFFER_MAX
    ensures Growths(size, need) <= n
    ensures need >= ENCODE_BUFFER_MAX && CeilLog2(size, n) ==> Growths(size, need) == n
    decreases n
  {
    if n > 0 && size < ENCODE_BUFFER_MAX {
      DoublingReaches(size, n);
      if n > 1 {
        DoublingReaches(size, n - 1);
      }
      GrowthsBound(Min(2 * size, ENCODE_BUFFER_MAX), need, n - 1);
    } else if n > 0 {
      assert size * Pow2(n - 1) >= size;
    }
  }

  /**
   Over any number of packets the buffer is reallocated at most ceil(log2(limit / initial))
   times in all, and that often when some payload needs the limit or more.
   */
  lemma TotalGrowthsBound(size: nat, ps: seq<Packet>, n: nat)
    requires size > 0 && CeilLog2(size, n)
    ensures GrowthsAll(size, ps) <= n
    ensures LargestNeed(ps) >= ENCODE_BUFFER_MAX ==> GrowthsAll(size, ps) == n
  {
    OnlyLargestMatters(size, ps);
    GrowthsBound(size, LargestNeed(ps), n);
  }

  /** From the size it starts with, at most six times. */
  lemma AtMostSixGrowths(ps: seq<Packet>)
    ensures GrowthsAll(ENCODE_BUFFER_SIZE, ps) <= 6
  {
    assert Pow2(6) == 64 && Pow2(5) == 32;
    TotalGrowthsBound(ENCODE_BUFFER_SIZE, ps, 6);
  }
}
