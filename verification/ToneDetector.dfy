/** The decision of `detect_tone`, given the magnitudes it compares. */
module ToneDetector {
  import opened Bytes
  import opened Goertzel

  /** Frequencies scanned for the signal: steps of 10 Hz around the expected one, in band. */
  predicate Scanned(f: int, expected: int, rate: nat)
  {
    && expected - 100 <= f <= expected + 100 && (f - (expected - 100)) % 10 == 0
    && 50 <= f < rate / 2
  }

  function NoiseFreqs(expected: int, rate: nat, offsets: seq<int>): seq<int>
  {
    if offsets == [] then []
    else
      var f := expected + offsets[0];
      (if 50 < f < rate / 2 then [f] else []) + NoiseFreqs(expected, rate, offsets[1..])
  }

  const OFFSETS := [-600, -400, 400, 600]

  function Sum(mag: int -> real, freqs: seq<int>): real
  {
    if freqs == [] then 0.0 else Sum(mag, freqs[..|freqs| - 1]) + mag(freqs[|freqs| - 1])
  }

  /** The decision from the peak and the noise floor; a floor of zero stands for no noise bin. */
  predicate Verdict(peak: real, floor: real, threshold: real)
  {
    if floor < 0.00000001 then peak > 0.001 else peak / floor >= threshold
  }

  function Floor(mag: int -> real, noise: seq<int>): real
  {
    if noise == [] then 0.0 else Sum(mag, noise) / |noise| as real
  }

  // ----- the same said outright -----

  predicate InNoiseBand(f: int, rate: nat) { 51 <= f && 2 * f + 2 <= rate }

  function LevelAt(mag: int -> real, f: int, rate: nat): real { if InNoiseBand(f, rate) then mag(f) else 0.0 }

  function CountAt(f: int, rate: nat): nat { if InNoiseBand(f, rate) then 1 else 0 }

  /** Four frequencies count as noise, as far as they are in band. */
  function NoiseBins(expected: int, rate: nat): nat
  {
    CountAt(expected - 600, rate) + CountAt(expected - 400, rate) + CountAt(expected + 400, rate)
    + CountAt(expected + 600, rate)
  }

  function NoiseLevel(mag: int -> real, expected: int, rate: nat): real
  {
    LevelAt(mag, expected - 600, rate) + LevelAt(mag, expected - 400, rate) + LevelAt(mag, expected + 400, rate)
    + LevelAt(mag, expected + 600, rate)
  }

  /** The noise floor is the mean over the noise frequencies in band, or zero if there is none. */
  lemma FloorIsMean(mag: int -> real, expected: int, rate: nat)
    ensures var floor := Floor(mag, NoiseFreqs(expected, rate, OFFSETS));
            && floor * NoiseBins(expected, rate) as real == NoiseLevel(mag, expected, rate)
            && (NoiseBins(expected, rate) == 0 ==> floor == 0.0)
  {
    var noise := NoiseFreqs(expected, rate, OFFSETS);
    SumOfNoise(mag, expected, rate);
    NoNoise(mag);
    hide Sum, NoiseFreqs, NoiseBins, NoiseLevel;
    if noise != [] {
      assert Floor(mag, noise) * |noise| as real == Sum(mag, noise);
    }
  }

  lemma SumOfNoise(mag: int -> real, expected: int, rate: nat)
    ensures var noise := NoiseFreqs(expected, rate, OFFSETS);
            |noise| == NoiseBins(expected, rate) && Sum(mag, noise) == NoiseLevel(mag, expected, rate)
  {
    hide Sum, LevelAt, CountAt;
    FirstNoise(mag, expected, rate, [-600, -400, 400, 600]);
    assert [-600, -400, 400, 600][1..] == [-400, 400, 600];
    FirstNoise(mag, expected, rate, [-400, 400, 600]);
    assert [-400, 400, 600][1..] == [400, 600];
    FirstNoise(mag, expected, rate, [400, 600]);
    assert [400, 600][1..] == [600];
    FirstNoise(mag, expected, rate, [600]);
    assert [600][1..] == [];
    NoNoise(mag);
  }

  lemma NoNoise(mag: int -> real)
    ensures Sum(mag, []) == 0.0
  {
  }

  lemma FirstNoise(mag: int -> real, expected: int, rate: nat, offsets: seq<int>)
    requires offsets != []
    ensures var f := expected + offsets[0];
            var all, rest := NoiseFreqs(expected, rate, offsets), NoiseFreqs(expected, rate, offsets[1..]);
            && |all| == CountAt(f, rate) + |rest|
            && Sum(mag, all) == LevelAt(mag, f, rate) + Sum(mag, rest)
  {
    var f := expected + offsets[0];
    var rest := NoiseFreqs(expected, rate, offsets[1..]);
    SumFront(mag, [f] + rest);
    hide Sum;
    assert ([f] + rest)[1..] == rest && [] + rest == rest;
    assert InNoiseBand(f, rate) <==> 50 < f < rate / 2;
  }

  lemma {:induction false} SumFront(mag: int -> real, freqs: seq<int>)
    requires freqs != []
    ensures Sum(mag, freqs) == mag(freqs[0]) + Sum(mag, freqs[1..])
  {
    if |freqs| > 1 {
      var init := freqs[..|freqs| - 1];
      SumFront(mag, init);
      assert freqs[1..][..|freqs| - 2] == init[1..];
    }
  }

  /** The scan takes 21 frequencies, ten apart, as far as they are in band. */
  lemma ScanCovers(f: int, expected: int, rate: nat)
    ensures Scanned(f, expected, rate)
            <==> (exists k :: 0 <= k <= 20 && f == expected - 100 + 10 * k) && 50 <= f && 2 * f + 2 <= rate
  {
    if Scanned(f, expected, rate) {
      var k := (f - (expected - 100)) / 10;
      assert 0 <= k <= 20 && f == expected - 100 + 10 * k;
    }
  }

  /** The decision without a division. */
  lemma VerdictIs(peak: real, floor: real, threshold: real)
    ensures floor >= 0.00000001 ==> (Verdict(peak, floor, threshold) <==> peak >= threshold * floor)
    ensures floor < 0.00000001 ==> (Verdict(peak, floor, threshold) <==> peak > 0.001)
  {
    if floor >= 0.00000001 {
      assert peak / floor * floor == peak;
      Divide(threshold, peak / floor, floor);
    }
  }

  /** The largest magnitude of the scan, or zero if none is positive. */
  ghost predicate IsPeak(peak: real, mag: int -> real, expected: int, rate: nat)
  {
    && peak >= 0.0
    && (forall f :: Scanned(f, expected, rate) ==> mag(f) <= peak)
    && (peak == 0.0 || exists f :: Scanned(f, expected, rate) && mag(f) == peak)
  }

  /** The scan loop of `detect_tone`. */
  method ScanPeak(mag: int -> real, expected: int, rate: nat) returns (peak: real)
    ensures IsPeak(peak, mag, expected, rate)
  {
    peak := 0.0;
    for k := 0 to 21
      invariant peak >= 0.0
      invariant forall f :: Scanned(f, expected, rate) && f < expected - 100 + 10 * k ==> mag(f) <= peak
      invariant peak == 0.0 || exists f :: Scanned(f, expected, rate) && mag(f) == peak
    {
      var f := expected - 100 + 10 * k;
      if f < 50 || f >= rate / 2 { continue; }
      assert Scanned(f, expected, rate);
      if mag(f) > peak {
        peak := mag(f);
      }
    }
  }

  /** The frequencies well outside the scan that are in band, in order. */
  method CollectNoise(expected: int, rate: nat) returns (noise: seq<int>)
    ensures noise == NoiseFreqs(expected, rate, OFFSETS)
  {
    noise := [];
    var offsets := OFFSETS;
    hide NoiseFreqs;
    for i := 0 to |offsets|
      invariant noise + NoiseFreqs(expected, rate, offsets[i..]) == NoiseFreqs(expected, rate, offsets)
    {
      var f := expected + offsets[i];
      OffsetAdds(expected, rate, offsets, i, noise);
      if 50 < f < rate / 2 {
        noise := noise + [f];
      }
    }
    NoOffsetLeft(expected, rate, offsets, noise);
  }

  lemma OffsetAdds(expected: int, rate: nat, offsets: seq<int>, i: nat, noise: seq<int>)
    requires i < |offsets|
    ensures var f := expected + offsets[i];
            noise + NoiseFreqs(expected, rate, offsets[i..])
            == (if 50 < f < rate / 2 then noise + [f] else noise) + NoiseFreqs(expected, rate, offsets[i + 1..])
  {
    assert offsets[i..][0] == offsets[i] && offsets[i..][1..] == offsets[i + 1..];
  }

  lemma NoOffsetLeft(expected: int, rate: nat, offsets: seq<int>, noise: seq<int>)
    ensures noise + NoiseFreqs(expected, rate, offsets[|offsets|..]) == noise
  {
  }

  method SumMagnitudes(mag: int -> real, freqs: seq<int>) returns (total: real)
    ensures total == Sum(mag, freqs)
  {
    total := 0.0;
    for i := 0 to |freqs|
      invariant total == Sum(mag, freqs[..i])
    {
      assert freqs[..i + 1][..i] == freqs[..i];
      total := total + mag(freqs[i]);
    }
    assert freqs[..|freqs|] == freqs;
  }

  /** The cosine and sine the detector uses for each frequency. */
  ghost predicate Angles(cos: int -> real, sin: int -> real)
  {
    forall f :: cos(f) * cos(f) + sin(f) * sin(f) == 1.0
  }

  /** `mag` gives what `goertzel_magnitude` returns for these bytes, frequency by frequency. */
  ghost predicate Measures(mag: int -> real, pcm: seq<Byte>, cos: int -> real, sin: int -> real)
  {
    Angles(cos, sin) && forall f :: IsMagnitude(mag(f), pcm, cos(f))
  }

  lemma MagnitudesAtMostRms(pcm: seq<Byte>, cos: int -> real, sin: int -> real, mag: int -> real, r: real)
    requires Measures(mag, pcm, cos, sin) && IsRms(r, pcm)
    ensures forall f :: 0.0 <= mag(f) <= r
  {
    hide IsMagnitude, IsRms;
    forall f
      ensures 0.0 <= mag(f) <= r
    {
      assert cos(f) * cos(f) + sin(f) * sin(f) == 1.0;
      MagnitudeAtMostRms(pcm, cos(f), sin(f), mag(f), r);
    }
  }

  /** Every level the detector compares, peak and noise floor alike, is at most the RMS level. */
  lemma ComparedLevelsAtMostRms(pcm: seq<Byte>, cos: int -> real, sin: int -> real, mag: int -> real,
                                expected: int, rate: nat, peak: real, freqs: seq<int>, r: real)
    requires Measures(mag, pcm, cos, sin) && IsRms(r, pcm)
    requires IsPeak(peak, mag, expected, rate)
    ensures 0.0 <= peak <= r
    ensures 0.0 <= Floor(mag, freqs) <= r
  {
    hide Measures, IsMagnitude, IsRms;
    MagnitudesAtMostRms(pcm, cos, sin, mag, r);
    RmsRange(pcm, r);
    if freqs != [] {
      SumAtMost(mag, freqs, r);
      MeanAtMost(Sum(mag, freqs), r, |freqs| as real);
    }
  }

  lemma {:induction false} SumAtMost(mag: int -> real, freqs: seq<int>, r: real)
    requires forall f :: 0.0 <= mag(f) <= r
    ensures 0.0 <= Sum(mag, freqs) <= Product(|freqs| as real, r)
  {
    if freqs != [] {
      var n := |freqs| - 1;
      SumAtMost(mag, freqs[..n], r);
      assert Product(n as real + 1.0, r) == Product(n as real, r) + r;
    }
  }

  lemma MeanAtMost(sum: real, r: real, n: real)
    requires n > 0.0 && 0.0 <= sum <= Product(n, r)
    ensures 0.0 <= sum / n <= r
  {
    assert sum / n * n == sum;
    Divide(sum / n, r, n);
    Divide(0.0, sum / n, n);
  }

  /** A positive decision bounds the RMS level from below. */
  lemma DetectedIsAudible(peak: real, floor: real, threshold: real, r: real)
    requires 0.0 <= peak <= r && 0.0 <= floor <= r && threshold >= 0.0
    requires Verdict(peak, floor, threshold)
    ensures Audible(r, floor, threshold)
  {
    if floor >= 0.00000001 {
      assert peak / floor * floor == peak;
      Divide(threshold, peak / floor, floor);
      assert threshold * floor <= peak / floor * floor;
    }
  }

  /** The RMS level stands out: above a thousandth, or a threshold's worth above the noise floor. */
  predicate Audible(r: real, floor: real, threshold: real)
  {
    r > 0.001 || (r >= 0.00000001 && r >= threshold * floor)
  }

  /**
   * `detect_tone` on PCM bytes. Too few bytes are rejected; otherwise the decision compares the
   * peak of the scan with the noise floor. Neither exceeds the RMS level of the same bytes, so
   * a positive decision tells of sound.
   */
  method DetectTone(pcm: seq<Byte>, mag: int -> real, expected: int, rate: nat, threshold: real,
                    ghost cos: int -> real, ghost sin: int -> real, ghost r: real)
    returns (detected: bool, peak: real)
    requires Measures(mag, pcm, cos, sin) && IsRms(r, pcm)
    ensures |pcm| < 1920 ==> !detected
    ensures |pcm| >= 1920 ==>
              && IsPeak(peak, mag, expected, rate)
              && var floor := Floor(mag, NoiseFreqs(expected, rate, OFFSETS));
              && floor * NoiseBins(expected, rate) as real == NoiseLevel(mag, expected, rate)
              && (NoiseBins(expected, rate) == 0 ==> floor == 0.0)
              && (floor >= 0.00000001 ==> (detected <==> peak >= threshold * floor))
              && (floor < 0.00000001 ==> (detected <==> peak > 0.001))
    ensures 0.0 <= peak <= r
    ensures detected && threshold >= 0.0 ==> Audible(r, Floor(mag, NoiseFreqs(expected, rate, OFFSETS)), threshold)
  {
    hide Measures, IsRms, IsPeak, NoiseFreqs, Sum, Audible, Floor, Verdict, NoiseBins, NoiseLevel;
    RmsRange(pcm, r);
    if |pcm| < 1920 { return false, 0.0; }
    peak := ScanPeak(mag, expected, rate);
    var noise := CollectNoise(expected, rate);
    ComparedLevelsAtMostRms(pcm, cos, sin, mag, expected, rate, peak, noise, r);
    FloorIsMean(mag, expected, rate);
    VerdictIs(peak, Floor(mag, noise), threshold);
    detected := Compare(mag, noise, peak, threshold);
    if detected && threshold >= 0.0 {
      DetectedIsAudible(peak, Floor(mag, noise), threshold, r);
    }
  }

  /** The comparison of the peak with the mean of the noise bins, with its two fallbacks. */
  method Compare(mag: int -> real, noise: seq<int>, peak: real, threshold: real) returns (detected: bool)
    ensures detected == Verdict(peak, Floor(mag, noise), threshold)
  {
    if noise == [] { return peak > 0.001; }
    var total := SumMagnitudes(mag, noise);
    var avgNoise := total / |noise| as real;
    if avgNoise < 0.00000001 { return peak > 0.001; }
    detected := peak / avgNoise >= threshold;
  }
}
