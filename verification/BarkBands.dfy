/** Grouping the bins of a power spectrum into Bark bands. */
module BarkBands {
  import opened Arithmetic
  import opened Segments

  const LIMITS: seq<real> := [100.0, 200.0, 300.0, 400.0, 510.0, 630.0, 770.0, 920.0, 1080.0, 1270.0, 1480.0, 1720.0,
                              2000.0, 2320.0, 2700.0, 3150.0, 3700.0, 4400.0, 5300.0, 6400.0, 7700.0, 9500.0, 12000.0,
                              15500.0, 22050.0]

  const BIN_SIZE: real := 43.06640625

  function Frequency(f: int): real { f as real * BIN_SIZE }

  /** The band encloses the bin: above the limit of the band below, up to its own. */
  predicate InBand(f: int, b: int)
    requires 0 <= b < MAX_BANDS
  {
    (b == 0 || LIMITS[b - 1] < Frequency(f)) && Frequency(f) <= LIMITS[b]
  }

  /** The sum of the first n bins that lie in the band. */
  function BandTotal(spec: seq<real>, n: nat, b: nat): real
    requires n <= |spec| && b < MAX_BANDS
  {
    if n == 0 then 0.0
    else BandTotal(spec, n - 1, b) + if InBand(n - 1, b) then spec[n - 1] else 0.0
  }

  /** The number of bands below half the sample rate. */
  method BandsUsed(rate: int) returns (used: nat)
    requires rate > 0
    ensures used <= MAX_BANDS
    ensures forall b :: 0 <= b < MAX_BANDS ==> (b < used <==> LIMITS[b] <= (rate / 2) as real)
  {
    LimitsIncrease();
    used := 0;
    while used < |LIMITS| && LIMITS[used] <= (rate / 2) as real
      invariant 0 <= used <= MAX_BANDS
      invariant forall b :: 0 <= b < used ==> LIMITS[b] <= (rate / 2) as real
    {
      used := used + 1;
    }
  }

  lemma LimitsIncrease()
    ensures |LIMITS| == MAX_BANDS
    ensures forall b, c :: 0 <= b < c < MAX_BANDS ==> LIMITS[b] < LIMITS[c]
  {
  }

  /** Every bin up to the highest one lies in exactly one band. */
  lemma UniqueBand(f: int) returns (b: nat)
    requires 0 <= f <= 512
    ensures b < MAX_BANDS && InBand(f, b)
    ensures forall c :: 0 <= c < MAX_BANDS && InBand(f, c) ==> c == b
  {
    LimitsIncrease();
    b := 0;
    while Frequency(f) > LIMITS[b]
      invariant b < MAX_BANDS && (b == 0 || LIMITS[b - 1] < Frequency(f))
      decreases MAX_BANDS - b
    {
      b := b + 1;
    }
  }

  // ------------------------------------------------------------- one spectrum frame

  lemma FrequencyGrows(f: int, g: int)
    requires f < g
    ensures Frequency(f) < Frequency(g)
  {
  }

  /** Bins above the limit of a band add nothing to it. */
  lemma {:induction false} NoMore(spec: seq<real>, f: nat, n: nat, b: nat)
    requires f <= n <= |spec| && b < MAX_BANDS && Frequency(f) > LIMITS[b]
    ensures BandTotal(spec, n, b) == BandTotal(spec, f, b)
  {
    if f < n {
      NoMore(spec, f, n - 1, b);
      assert Frequency(n - 1) >= Frequency(f);
    }
  }

  /** Bins up to the limit of a lower band add nothing. */
  lemma {:induction false} NoneYet(spec: seq<real>, f: nat, b: nat, c: nat)
    requires f <= |spec| && b < c < MAX_BANDS && (f > 0 ==> Frequency(f - 1) <= LIMITS[b])
    ensures BandTotal(spec, f, c) == 0.0
  {
    LimitsIncrease();
    if f > 0 {
      NoneYet(spec, f - 1, b, c);
      assert LIMITS[b] <= LIMITS[c - 1];
    }
  }

  /** The highest bin is not below the limit of the last band used. */
  lemma TopBin(rate: int, used: nat)
    requires rate > 0 && 0 < used <= MAX_BANDS && LIMITS[used - 1] <= (rate / 2) as real
    ensures Frequency(FftSize(rate) / 2) >= LIMITS[used - 1]
    ensures Frequency(FftSize(rate) / 2) <= LIMITS[24]
  {
    LimitsIncrease();
    if rate > 22050 {
      assert LIMITS[used - 1] <= LIMITS[24];
    }
  }

  /** The cell that ends up in the matrix. */
  function Cell(spec: seq<real>, n: nat, used: nat, b: nat): real
    requires n <= |spec| && b < MAX_BANDS
  {
    if b < used then BandTotal(spec, n, b) else 0.0
  }

  /** Where the scan of the bins stands: the current band is not yet passed, the ones below are. */
  predicate At(f: nat, band: nat, bands: nat) {
    && band <= bands <= MAX_BANDS
    && (band > 0 ==> LIMITS[band - 1] < Frequency(f))
    && (band < bands && f > 0 ==> Frequency(f - 1) <= LIMITS[band])
  }

  /** The cells written so far: complete below the current band, and its first f bins. */
  ghost predicate Written(row: seq<real>, spec: seq<real>, f: nat, n: nat, band: nat, used: nat) {
    && f <= n <= |spec| && |row| <= MAX_BANDS
    && (forall b :: 0 <= b < band && b < |row| ==> row[b] == Cell(spec, n, used, b))
    && (band < |row| ==> row[band] == Cell(spec, f, used, band))
  }

  lemma NextBand(row: seq<real>, after: seq<real>, spec: seq<real>, f: nat, n: nat, band: nat, used: nat)
    requires Written(row, spec, f, n, band, used) && At(f, band, |row|)
    requires band < |row| && Frequency(f) > LIMITS[band]
    requires after == if band + 1 < |row| then row[band + 1 := 0.0] else row
    ensures Written(after, spec, f, n, band + 1, used) && At(f, band + 1, |row|)
  {
    hide BandTotal, Frequency;
    NoMore(spec, f, n, band);
    LimitsIncrease();
    if band + 1 < |row| {
      NoneYet(spec, f, band, band + 1);
    }
  }

  lemma NextBin(row: seq<real>, after: seq<real>, spec: seq<real>, f: nat, n: nat, band: nat, used: nat)
    requires Written(row, spec, f, n, band, used) && At(f, band, |row|) && f < n
    requires band < |row| ==> Frequency(f) <= LIMITS[band]
    requires after == if band >= |row| then row
                      else if band < used then row[band := row[band] + spec[f]] else row[band := 0.0]
    ensures Written(after, spec, f + 1, n, band, used) && At(f + 1, band, |row|)
  {
    FrequencyGrows(f, f + 1);
  }

  /** Moves on to the band of the next bin, clearing each band on the way; the limit read is
      always one of the 25. */
  method AdvanceBand(barkSpec: array<real>, base: nat, bands: nat, band: nat, f: nat,
                     ghost spec: seq<real>, ghost n: nat, ghost used: nat) returns (iBarkBand: nat)
    requires 0 < bands <= MAX_BANDS && base + bands <= barkSpec.Length && f <= 512
    requires Written(barkSpec[base..base + bands], spec, f, n, band, used) && At(f, band, bands)
    modifies barkSpec
    ensures At(f, iBarkBand, bands) && (iBarkBand < bands ==> Frequency(f) <= LIMITS[iBarkBand])
    ensures Written(barkSpec[base..base + bands], spec, f, n, iBarkBand, used)
    ensures barkSpec[..base] == old(barkSpec[..base]) && barkSpec[base + bands..] == old(barkSpec[base + bands..])
  {
    iBarkBand := band;
    TopLimit(f, bands, iBarkBand);
    while Frequency(f) > LIMITS[iBarkBand] && iBarkBand < bands
      invariant At(f, iBarkBand, bands) && iBarkBand < MAX_BANDS
      invariant Written(barkSpec[base..base + bands], spec, f, n, iBarkBand, used)
      invariant barkSpec[..base] == old(barkSpec[..base]) && barkSpec[base + bands..] == old(barkSpec[base + bands..])
      decreases bands - iBarkBand
    {
      ghost var row := barkSpec[base..base + bands];
      ghost var tail := barkSpec[base + bands..];
      if iBarkBand + 1 < bands {
        barkSpec[base + iBarkBand + 1] := 0.0;
        assert barkSpec[base..base + bands] == row[iBarkBand + 1 := 0.0];
      }
      assert barkSpec[base + bands..] == tail;
      NextBand(row, barkSpec[base..base + bands], spec, f, n, iBarkBand, used);
      iBarkBand := iBarkBand + 1;
      TopLimit(f, bands, iBarkBand);
    }
  }

  /** The 25th band is never passed. */
  lemma TopLimit(f: nat, bands: nat, band: nat)
    requires f <= 512 && At(f, band, bands)
    ensures band < MAX_BANDS
  {
    assert Frequency(f) <= LIMITS[24];
  }

  /** Sums the bins of one frame into its row of the matrix: each band gets the bins that lie in
      it, bands above half the sample rate are padded with zero, and every cell is written. */
  method BarkFrame(spec: seq<real>, rate: int, used: nat, barkSpec: array<real>, base: nat, bands: nat)
    requires rate > 0 && |spec| == FftSize(rate) / 2 + 1
    requires used <= MAX_BANDS && forall b :: 0 <= b < MAX_BANDS ==> (b < used <==> LIMITS[b] <= (rate / 2) as real)
    requires 0 < bands <= MAX_BANDS && base + bands <= barkSpec.Length
    modifies barkSpec
    ensures forall b :: 0 <= b < bands ==> barkSpec[base + b] == Cell(spec, |spec|, used, b)
    ensures barkSpec[..base] == old(barkSpec[..base]) && barkSpec[base + bands..] == old(barkSpec[base + bands..])
  {
    hide Written, At;
    ghost var n := |spec|;
    var iBarkBand: nat := 0;
    barkSpec[base] := 0.0;
    Start(barkSpec[base..base + bands], spec, n, used);
    var f := 0;
    while f < |spec| && iBarkBand < used
      invariant 0 <= f <= |spec| && At(f, iBarkBand, bands)
      invariant Written(barkSpec[base..base + bands], spec, f, n, iBarkBand, used)
      invariant barkSpec[..base] == old(barkSpec[..base]) && barkSpec[base + bands..] == old(barkSpec[base + bands..])
      decreases |spec| - f
    {
      iBarkBand := AdvanceBand(barkSpec, base, bands, iBarkBand, f, spec, n, used);
      AddBin(barkSpec, base, bands, iBarkBand, f, spec, n, used);
      f := f + 1;
    }
    Complete(barkSpec[base..base + bands], spec, f, iBarkBand, rate, used);
    Pad(barkSpec, base, bands, used);
  }

  method AddBin(barkSpec: array<real>, base: nat, bands: nat, iBarkBand: nat, f: nat,
                spec: seq<real>, ghost n: nat, used: nat)
    requires base + bands <= barkSpec.Length && f < n <= |spec|
    requires Written(barkSpec[base..base + bands], spec, f, n, iBarkBand, used) && At(f, iBarkBand, bands)
    requires iBarkBand < bands ==> Frequency(f) <= LIMITS[iBarkBand]
    modifies barkSpec
    ensures Written(barkSpec[base..base + bands], spec, f + 1, n, iBarkBand, used) && At(f + 1, iBarkBand, bands)
    ensures barkSpec[..base] == old(barkSpec[..base]) && barkSpec[base + bands..] == old(barkSpec[base + bands..])
  {
    hide Written;
    ghost var row := barkSpec[base..base + bands];
    ghost var tail := barkSpec[base + bands..];
    if iBarkBand < bands {
      if iBarkBand < used {
        barkSpec[base + iBarkBand] := barkSpec[base + iBarkBand] + spec[f];
      } else {
        barkSpec[base + iBarkBand] := 0.0;
      }
    }
    assert barkSpec[base + bands..] == tail;
    NextBin(row, barkSpec[base..base + bands], spec, f, n, iBarkBand, used);
  }

  method Pad(barkSpec: array<real>, base: nat, bands: nat, used: nat)
    requires base + bands <= barkSpec.Length
    modifies barkSpec
    ensures forall j :: 0 <= j < barkSpec.Length ==>
      barkSpec[j] == if base + used <= j < base + bands then 0.0 else old(barkSpec[j])
  {
    var b := used;
    while b < bands
      invariant used <= b && (b <= bands || b == used)
      invariant forall j :: 0 <= j < barkSpec.Length ==>
        barkSpec[j] == if base + used <= j < base + b then 0.0 else old(barkSpec[j])
    {
      barkSpec[base + b] := 0.0;
      b := b + 1;
    }
  }

  lemma Start(row: seq<real>, spec: seq<real>, n: nat, used: nat)
    requires 0 < |row| <= MAX_BANDS && row[0] == 0.0 && n <= |spec|
    ensures Written(row, spec, 0, n, 0, used) && At(0, 0, |row|)
  {
  }

  /** When the scan stops, every cell of a band in use is complete. */
  lemma Complete(row: seq<real>, spec: seq<real>, f: nat, band: nat, rate: int, used: nat)
    requires rate > 0 && |spec| == FftSize(rate) / 2 + 1
    requires used <= MAX_BANDS && (used > 0 ==> LIMITS[used - 1] <= (rate / 2) as real)
    requires Written(row, spec, f, |spec|, band, used) && At(f, band, |row|)
    requires f == |spec| || band >= used
    ensures forall b :: 0 <= b < used && b < |row| ==> row[b] == Cell(spec, |spec|, used, b)
  {
    hide Cell, Frequency;
    if used > 0 && band < used && band < |row| {
      TopBin(rate, used);
      LimitsIncrease();
      assert LIMITS[used - 1] <= LIMITS[band];
    }
  }

  // ------------------------------------------------------------------- all frames

  /** The rows of the matrix below the given one are those of their frames. */
  ghost predicate RowsDone(matrix: seq<real>, specgram: seq<seq<real>>, frames: nat, bands: nat, used: nat)
    requires frames <= |specgram| && bands <= MAX_BANDS
  {
    forall i, b :: 0 <= i < frames && 0 <= b < bands ==>
      0 <= i * bands + b < |matrix| && matrix[i * bands + b] == Cell(specgram[i], |specgram[i]|, used, b)
  }

  method BarkMatrix(specgram: seq<seq<real>>, rate: int, bands: nat) returns (barkSpec: array<real>, used: nat)
    requires rate > 0 && 0 < bands <= MAX_BANDS
    requires forall i :: 0 <= i < |specgram| ==> |specgram[i]| == FftSize(rate) / 2 + 1
    ensures used <= MAX_BANDS && forall b :: 0 <= b < MAX_BANDS ==> (b < used <==> LIMITS[b] <= (rate / 2) as real)
    ensures barkSpec.Length == |specgram| * bands && RowsDone(barkSpec[..], specgram, |specgram|, bands, used)
  {
    hide Cell, FftSize;
    used := BandsUsed(rate);
    barkSpec := new real[|specgram| * bands];
    var i := 0;
    while i < |specgram|
      invariant 0 <= i <= |specgram|
      invariant RowsDone(barkSpec[..], specgram, i, bands, used)
    {
      RowFits(i, |specgram|, bands);
      ghost var before := barkSpec[..];
      BarkFrame(specgram[i], rate, used, barkSpec, i * bands, bands);
      assert before[..i * bands] == barkSpec[..][..i * bands];
      OneMoreRow(before, barkSpec[..], specgram, i, bands, used);
      i := i + 1;
    }
  }

  lemma SamePlace(before: seq<real>, after: seq<real>, n: nat, m: nat)
    requires m < n <= |before| == |after| && before[..n] == after[..n]
    ensures before[m] == after[m]
  {
    assert before[..n][m] == after[..n][m];
  }

  lemma OneMoreRow(before: seq<real>, after: seq<real>, specgram: seq<seq<real>>, i: nat, bands: nat, used: nat)
    requires i < |specgram| && bands <= MAX_BANDS && RowsDone(before, specgram, i, bands, used)
    requires |before| == |after| && i * bands + bands <= |after| && before[..i * bands] == after[..i * bands]
    requires forall b :: 0 <= b < bands ==> after[i * bands + b] == Cell(specgram[i], |specgram[i]|, used, b)
    ensures RowsDone(after, specgram, i + 1, bands, used)
  {
    hide Cell;
    forall j, b | 0 <= j < i + 1 && 0 <= b < bands
      ensures 0 <= j * bands + b < |after| && after[j * bands + b] == Cell(specgram[j], |specgram[j]|, used, b)
    {
      if j < i {
        RowFits(j, i, bands);
        SamePlace(before, after, i * bands, j * bands + b);
      }
    }
  }

  // ------------------------------------------------------------------- band totals

  /** The sum of the first n bins up to the limit of the last of k bands. */
  function CoveredSum(spec: seq<real>, n: nat, k: nat): real
    requires n <= |spec| && k <= MAX_BANDS
  {
    if n == 0 || k == 0 then 0.0
    else CoveredSum(spec, n - 1, k) + if Frequency(n - 1) <= LIMITS[k - 1] then spec[n - 1] else 0.0
  }

  function SumOfBands(spec: seq<real>, n: nat, k: nat): real
    requires n <= |spec| && k <= MAX_BANDS
  {
    if k == 0 then 0.0 else SumOfBands(spec, n, k - 1) + BandTotal(spec, n, k - 1)
  }

  lemma {:induction false} CoveredStep(spec: seq<real>, n: nat, k: nat)
    requires n <= |spec| && k < MAX_BANDS
    ensures CoveredSum(spec, n, k + 1) == CoveredSum(spec, n, k) + BandTotal(spec, n, k)
  {
    LimitsIncrease();
    if n > 0 {
      CoveredStep(spec, n - 1, k);
    }
  }

  /** No bin is lost or counted twice: the bands add up to the bins they cover. */
  lemma {:induction false} BandsAddUp(spec: seq<real>, n: nat, k: nat)
    requires n <= |spec| && k <= MAX_BANDS
    ensures SumOfBands(spec, n, k) == CoveredSum(spec, n, k)
  {
    if k > 0 {
      BandsAddUp(spec, n, k - 1);
      CoveredStep(spec, n, k - 1);
    }
  }
}
