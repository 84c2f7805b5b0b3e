/** Which parts of a song are analysed: the segments, their rescaling in place and the
    half-overlapping frames inside them. */
module Segments {
  import opened Arithmetic
  import opened Wrappers

  const MAX_SAMPLES := 0xc000000

  /** There are limits for so many Bark bands. */
  const MAX_BANDS := 25

  function SegmentSize(rate: int): nat {
    if rate <= 11025 then 65536 else if rate <= 22050 then 131072 else 262144
  }

  function FftSize(rate: int): nat
    requires rate != 0
  {
    if rate <= 11025 then 256 else if rate <= 22050 then 512 else 1024
  }

  /** The skips and the step after the check that they leave a segment. */
  datatype Options = Options(skipin: nat, skipout: nat, step: nat)

  function Effective(o: Options, samples: nat, size: nat): Options
    requires size > 0
  {
    if samples / size - o.skipin - o.skipout < 1 then Options(0, 0, 1) else o
  }

  /** A segment lasts the same time at each of the usual rates, and so does a frame. */
  lemma SegmentsLastAlike(rate: int)
    requires rate == 11025 || rate == 22050 || rate == 44100
    ensures 11025 * SegmentSize(rate) == 65536 * rate && 11025 * FftSize(rate) == 256 * rate
    ensures forall r: int :: r != 0 ==> SegmentSize(r) == 256 * FftSize(r)
  {
  }

  // -------------------------------------------------------------------- choice

  /** Segment m after the skip-in ends before the skip-out. */
  predicate Fits(o: Options, samples: nat, size: nat, m: nat) {
    size * (o.skipin + o.step * m) + size <= samples - size * o.skipout
  }

  /** The number of segments taken, as the formula of the extractor gives it. */
  function Count(o: Options, samples: nat, size: nat): int
    requires size > 0 && o.step > 0
  {
    ((samples - size * (o.skipin + o.skipout)) / size - 1) / o.step + 1
  }

  lemma EffectiveLeavesSegments(o: Options, samples: nat, size: nat)
    requires size > 0 && o.step > 0
    ensures var e := Effective(o, samples, size);
      && e.step > 0 && samples >= size * (e.skipin + e.skipout)
      && (samples >= size ==> e.skipin + e.skipout + 1 <= samples / size)
      && (samples < size ==> e == Options(0, 0, 1))
  {
    var e := Effective(o, samples, size);
    FitsQuotient(size, 1, samples);
    FitsQuotient(size, e.skipin + e.skipout, samples);
  }

  /** The options are dropped exactly when the first segment after the skip-in does not end before the
      skip-out. */
  lemma OptionsKeptIff(o: Options, samples: nat, size: nat)
    requires size > 0
    ensures Effective(o, samples, size) == if Fits(o, samples, size, 0) then o else Options(0, 0, 1)
  {
    FitsQuotient(size, o.skipin + o.skipout + 1, samples);
    Spread(size, o.skipin, o.skipout);
    assert o.step * 0 == 0;
  }

  /** The formula takes exactly the segments that fit, every step-th one after the skip-in. */
  lemma CountIsExact(o: Options, samples: nat, size: nat, m: nat)
    requires size > 0 && o.step > 0
    ensures var e := Effective(o, samples, size);
      Fits(e, samples, size, m) <==> m < Count(e, samples, size)
  {
    var e := Effective(o, samples, size);
    EffectiveLeavesSegments(o, samples, size);
    var skip := e.skipin + e.skipout;
    QuotientShift(samples, skip, size);
    var avail := samples / size - skip;
    var last := skip + e.step * m + 1;
    assert size * last == size * (e.skipin + e.step * m) + size + size * e.skipout by {
      Spread(size, e.skipin + e.step * m, e.skipout);
    }
    FitsQuotient(size, last, samples);
    assert Fits(e, samples, size, m) <==> e.step * m <= avail - 1;
    if avail >= 1 {
      FitsQuotient(e.step, m, avail - 1);
    } else {
      assert avail == 0 && e.step == 1 && Count(e, samples, size) == 0 && e.step * m == m;
    }
  }

  lemma Spread(d: nat, x: nat, y: nat)
    ensures d * (x + y + 1) == d * x + d + d * y
  {
  }

  // ------------------------------------------------------------------ the loops

  predicate Inside(offset: int, size: nat, i: int) {
    offset <= i < offset + size
  }

  /** The sample belongs to one of the segments. */
  predicate Covered(offsets: seq<int>, size: nat, i: int) {
    exists s :: 0 <= s < |offsets| && Inside(offsets[s], size, i)
  }

  predicate Disjoint(offsets: seq<int>, size: nat) {
    forall s, t :: 0 <= s < t < |offsets| ==> offsets[s] + size <= offsets[t]
  }

  /** Each offset is that of its segment number. */
  predicate Numbered(offsets: seq<int>, o: Options, size: nat) {
    forall s :: 0 <= s < |offsets| ==> offsets[s] == size * (o.skipin + o.step * s)
  }

  /** Adjusts the hearing threshold. */
  function Rescaled(x: real): real {
    0.0875 * x * 32768.0
  }

  /** The rescaling at the start of a segment's analysis, in place. */
  method Rescale(wav: array<real>, iBufOffset: nat, iBufLen: nat)
    requires iBufOffset + iBufLen <= wav.Length
    modifies wav
    ensures forall i :: 0 <= i < wav.Length ==>
      wav[i] == if iBufOffset <= i < iBufOffset + iBufLen then Rescaled(old(wav[i])) else old(wav[i])
  {
    var i := iBufOffset;
    while i < iBufOffset + iBufLen
      invariant iBufOffset <= i <= iBufOffset + iBufLen
      invariant forall j :: 0 <= j < wav.Length ==>
        wav[j] == if iBufOffset <= j < i then Rescaled(old(wav[j])) else old(wav[j])
    {
      wav[i] := 0.0875 * wav[i] * 32768.0;
      i := i + 1;
    }
  }

  /** The starts of the frames of a segment. */
  method Frames(iBufOffset: nat, iBufLen: nat, fft: nat) returns (starts: seq<int>)
    requires exists rate: int :: rate != 0 && iBufLen == SegmentSize(rate) && fft == FftSize(rate)
    ensures |starts| == 511
    ensures forall k :: 0 <= k < |starts| ==>
      iBufOffset <= starts[k] && starts[k] + fft <= iBufOffset + iBufLen
    ensures forall k :: 0 < k < |starts| ==> 2 * (starts[k] - starts[k - 1]) == fft
    ensures starts[0] == iBufOffset && starts[510] + fft == iBufOffset + iBufLen
  {
    starts := [];
    var numframes := iBufLen / fft * 2 - 1;
    assert numframes == 511 && iBufLen == 256 * fft && fft == 2 * (fft / 2);
    hide SegmentSize, FftSize;
    var iOffset := 0;
    var i := 0;
    while i < numframes
      invariant 0 <= i <= numframes && iOffset == i * (fft / 2)
      invariant |starts| == i
      invariant forall k :: 0 <= k < i ==> starts[k] == iBufOffset + k * (fft / 2)
    {
      starts := starts + [iBufOffset + iOffset];
      i := i + 1;
      iOffset := iOffset + fft / 2;
    }
    HalfSteps(fft / 2);
  }

  lemma HalfSteps(h: nat)
    ensures forall k: nat :: k < 511 ==> k * h + 2 * h <= 512 * h
    ensures forall k: nat :: 0 < k ==> k * h - (k - 1) * h == h
    ensures 510 * h + 2 * h == 512 * h
  {
    forall k: nat | k < 511 ensures k * h + 2 * h <= 512 * h {
      assert (512 - k - 2) * h >= 0;
    }
  }

  /** The segments of a song, each rescaled in place exactly once; None when the song has none or is too
      long, or when too many Bark bands are asked for, and nothing is changed then. */
  method GetSegments(wav: array<real>, rate: int, bands: int, o: Options) returns (r: Option<seq<int>>)
    modifies wav
    ensures r.None? <==>
      wav.Length > MAX_SAMPLES || o.step < 1 || bands > MAX_BANDS || wav.Length < SegmentSize(rate)
    ensures r.None? ==> wav[..] == old(wav[..])
    ensures r.Some? ==>
      var size := SegmentSize(rate);
      var e := Effective(o, wav.Length, size);
      && Numbered(r.value, e, size) && Disjoint(r.value, size)
      && (forall m: nat :: Fits(e, wav.Length, size, m) <==> m < |r.value|)
      && RescaledIn(wav[..], old(wav[..]), r.value, size)
  {
    if wav.Length > MAX_SAMPLES || o.step < 1 {
      return None;
    }
    var size := SegmentSize(rate);
    if bands > MAX_BANDS {
      return None;
    }
    var e := Effective(o, wav.Length, size);
    EffectiveLeavesSegments(o, wav.Length, size);
    var count := Count(e, wav.Length, size);
    forall m: nat ensures Fits(e, wav.Length, size, m) <==> m < count {
      CountIsExact(o, wav.Length, size, m);
    }
    assert wav.Length < size <==> count <= 0 by {
      assert Fits(e, wav.Length, size, 0) <==> wav.Length >= size;
    }
    if count <= 0 {
      return None;
    }
    var offsets := RescaleAll(wav, size, e, count);
    r := Some(offsets);
  }

  lemma RescaledFactor(x: real)
    ensures Rescaled(x) == 2867.2 * x
  {
  }

  /** Exactly the samples of the segments are rescaled. */
  ghost predicate RescaledIn(now: seq<real>, orig: seq<real>, offsets: seq<int>, size: nat) {
    && |now| == |orig|
    && (forall i :: 0 <= i < |now| ==> now[i] == if Covered(offsets, size, i) then Rescaled(orig[i]) else orig[i])
  }

  method RescaleAll(wav: array<real>, size: nat, o: Options, count: nat) returns (offsets: seq<int>)
    requires o.step > 0 && forall m: nat :: m < count ==> Fits(o, wav.Length, size, m)
    modifies wav
    ensures |offsets| == count && Numbered(offsets, o, size) && Disjoint(offsets, size)
    ensures RescaledIn(wav[..], old(wav[..]), offsets, size)
  {
    hide RescaledIn, Rescaled, Numbered, Disjoint;
    offsets := [];
    var numSeg := o.skipin;
    var countSeg := 0;
    Nothing(wav[..], o, size);
    while countSeg < count
      invariant 0 <= countSeg == |offsets| <= count && numSeg == o.skipin + o.step * countSeg
      invariant Numbered(offsets, o, size) && Disjoint(offsets, size)
      invariant forall s :: 0 <= s < |offsets| ==> offsets[s] + size <= size * numSeg
      invariant RescaledIn(wav[..], old(wav[..]), offsets, size)
    {
      assert Fits(o, wav.Length, size, countSeg);
      RescaleOne(wav, old(wav[..]), offsets, size, size * numSeg);
      OneMore(offsets, o, size);
      MulMonotone(size, numSeg, numSeg + o.step);
      offsets := offsets + [size * numSeg];
      assert o.step * (countSeg + 1) == o.step * countSeg + o.step;
      countSeg, numSeg := countSeg + 1, numSeg + o.step;
    }
  }

  lemma Nothing(wav: seq<real>, o: Options, size: nat)
    ensures RescaledIn(wav, wav, [], size) && Numbered([], o, size) && Disjoint([], size)
  {
  }

  lemma OneMore(offsets: seq<int>, o: Options, size: nat)
    requires Numbered(offsets, o, size) && Disjoint(offsets, size)
    requires forall s :: 0 <= s < |offsets| ==> offsets[s] + size <= size * (o.skipin + o.step * |offsets|)
    ensures var more := offsets + [size * (o.skipin + o.step * |offsets|)];
      Numbered(more, o, size) && Disjoint(more, size)
  {
  }

  method RescaleOne(wav: array<real>, ghost orig: seq<real>, ghost offsets: seq<int>, size: nat, offset: nat)
    requires offset + size <= wav.Length && RescaledIn(wav[..], orig, offsets, size)
    requires forall s :: 0 <= s < |offsets| ==> offsets[s] + size <= offset
    modifies wav
    ensures RescaledIn(wav[..], orig, offsets + [offset], size)
  {
    hide Covered, Rescaled;
    Rescale(wav, offset, size);
    CoveredByOneMore(offsets, size, offset);
  }

  lemma CoveredByOneMore(offsets: seq<int>, size: nat, offset: int)
    requires forall s :: 0 <= s < |offsets| ==> offsets[s] + size <= offset
    ensures forall i :: Covered(offsets + [offset], size, i) <==> Covered(offsets, size, i) || Inside(offset, size, i)
    ensures forall i :: Inside(offset, size, i) ==> !Covered(offsets, size, i)
  {
    var more := offsets + [offset];
    forall i ensures Covered(more, size, i) <==> Covered(offsets, size, i) || Inside(offset, size, i) {
      if Covered(offsets, size, i) {
        var s :| 0 <= s < |offsets| && Inside(offsets[s], size, i);
        assert more[s] == offsets[s];
      }
      if Inside(offset, size, i) {
        assert more[|offsets|] == offset;
      }
    }
  }
}
