/** Waveform peak pairs (`copilot/waveform.py`): buckets, 8-bit quantisation and packing. Samples
    are exact reals and the bucket edges are the exact rational edges rounded down. */
module Waveform {
  import opened Wrappers

  const BYTES_PER_BUCKET := 2

  type Byte = b: int | 0 <= b < 256

  datatype WaveformError = ZeroSamples

  function ClampTarget(target: int): (t: int)
    ensures 16 <= target <= 16384 ==> t == target
    ensures target < 16 ==> t == 16
    ensures target > 16384 ==> t == 16384
  {
    var upper := if target < 16384 then target else 16384;
    if upper < 16 then 16 else upper
  }

  // ---------------------------------------------------------------- bucket edges

  function Edge(i: int, n: int, t: int): int
    requires t > 0
  {
    i * n / t
  }

  lemma FloorDivides(a: int, t: int)
    requires t > 0
    ensures t * (a / t) <= a < t * (a / t) + t
  {
  }

  /** An edge is the exact rational edge `i * n / t`, rounded down. */
  lemma EdgeIsFloor(i: int, n: int, t: int)
    requires t > 0
    ensures t * Edge(i, n, t) <= i * n < t * Edge(i, n, t) + t
  {
    FloorDivides(i * n, t);
  }

  lemma {:induction false} TimesRises(t: int, p: int, q: int)
    requires t > 0 && p < q
    ensures t * p + t <= t * q
    decreases q - p
  {
    if p + 1 < q { TimesRises(t, p + 1, q); }
  }

  lemma {:induction false} EdgesCover(n: int, t: int)
    requires t > 0
    ensures Edge(0, n, t) == 0 && Edge(t, n, t) == n
  {
    var q := t * n / t;
    FloorDivides(t * n, t);
    if q < n { TimesRises(t, q, n); }
    if n < q { TimesRises(t, n, q); }
  }

  /** No bucket is empty once there are at least as many samples as buckets. */
  lemma BucketNonEmpty(i: int, n: int, t: int)
    requires t > 0 && n >= t
    ensures Edge(i, n, t) < Edge(i + 1, n, t)
  {
  }

  lemma {:induction false} EdgesRise(i: nat, j: nat, n: int, t: int)
    requires t > 0 && n >= t && i <= j
    ensures Edge(i, n, t) + (j - i) <= Edge(j, n, t)
    decreases j
  {
    hide Edge;
    if i < j {
      EdgesRise(i, j - 1, n, t);
      BucketNonEmpty(j - 1, n, t);
    }
  }

  predicate InBucket(k: int, i: int, n: int, t: int)
    requires t > 0
  {
    Edge(i, n, t) <= k < Edge(i + 1, n, t)
  }

  /** Sample `k` ends within the `i`-th of `t` equal shares of the array. */
  lemma {:induction false} InBucketMeaning(k: int, i: int, n: int, t: int)
    requires t > 0
    ensures InBucket(k, i, n, t) <==> i * n < t * k + t <= i * n + n
  {
    var lo, hi := Edge(i, n, t), Edge(i + 1, n, t);
    EdgeIsFloor(i, n, t);
    EdgeIsFloor(i + 1, n, t);
    assert (i + 1) * n == i * n + n;
    hide Edge;
    if lo <= k { if lo < k { TimesRises(t, lo, k); } } else { TimesRises(t, k, lo); }
    if k < hi { TimesRises(t, k, hi); } else if hi < k { TimesRises(t, hi, k); }
  }

  /** No bucket is more than one sample larger or smaller than its exact share. */
  lemma BucketsEven(i: int, n: int, t: int)
    requires t > 0
    ensures n - t < t * (Edge(i + 1, n, t) - Edge(i, n, t)) < n + t
  {
    EdgeIsFloor(i, n, t);
    EdgeIsFloor(i + 1, n, t);
    assert (i + 1) * n == i * n + n;
  }

  lemma {:induction false} BucketUpTo(k: int, n: int, t: int, i: nat) returns (b: nat)
    requires t > 0 && n >= t && i >= 1 && 0 <= k < Edge(i, n, t)
    ensures b < i && InBucket(k, b, n, t)
  {
    b := i - 1;
    if k < Edge(i - 1, n, t) {
      if i == 1 { EdgesCover(n, t); }
      b := BucketUpTo(k, n, t, i - 1);
    }
  }

  /** The buckets split the array: every sample is in one bucket and in no other. */
  lemma {:induction false} BucketsPartition(k: int, n: int, t: int) returns (b: nat)
    requires t > 0 && n >= t && 0 <= k < n
    ensures b < t && InBucket(k, b, n, t)
    ensures forall c :: 0 <= c < t && InBucket(k, c, n, t) ==> c == b
  {
    EdgesCover(n, t);
    b := BucketUpTo(k, n, t, t);
    forall c | 0 <= c < t && InBucket(k, c, n, t) ensures c == b {
      hide Edge;
      if c < b { EdgesRise(c + 1, b, n, t); }
      if b < c { EdgesRise(b + 1, c, n, t); }
    }
  }

  // ---------------------------------------------------------------- quantisation

  function Unit(v: real): real { if v < -1.0 then -1.0 else if v > 1.0 then 1.0 else v }

  /** Python's `round`: to the nearest integer, halves to the even one. */
  function RoundHalfEven(x: real): int {
    var f := x.Floor;
    var d := x - f as real;
    if d < 0.5 || (d == 0.5 && f % 2 == 0) then f else f + 1
  }

  function Quantize(v: real): int {
    var scaled := RoundHalfEven(Unit(v) * 127.0);
    if scaled < -128 then -128 else if scaled > 127 then 127 else scaled
  }

  /** The error is at most half a step of 1/127, and the code -128 is never produced. */
  lemma QuantizeError(v: real)
    ensures -127 <= Quantize(v) <= 127
    ensures -1.0 <= v <= 1.0 ==> -0.5 <= Quantize(v) as real - v * 127.0 <= 0.5
    ensures v >= 1.0 ==> Quantize(v) == 127
    ensures v <= -1.0 ==> Quantize(v) == -127
  {
  }

  /** A sample exactly between two codes takes the even one. */
  lemma QuantizeTies(v: real, q: int)
    requires -1.0 <= v <= 1.0 && v * 127.0 == q as real + 0.5
    ensures Quantize(v) == if q % 2 == 0 then q else q + 1
  {
    assert (v * 127.0).Floor == q;
  }

  lemma QuantizeMonotone(v: real, w: real)
    requires v <= w
    ensures Quantize(v) <= Quantize(w)
  {
  }

  lemma RoundFlips(x: real)
    ensures RoundHalfEven(-x) == -RoundHalfEven(x)
    ensures -0.5 <= RoundHalfEven(x) as real - x <= 0.5
  {
    assert (-x).Floor == if x == x.Floor as real then -x.Floor else -x.Floor - 1;
  }

  /** Silence is 0, and flipping a sample's sign flips its code. */
  lemma QuantizeSymmetric(v: real)
    ensures Quantize(-v) == -Quantize(v) && Quantize(0.0) == 0
  {
    RoundFlips(Unit(v) * 127.0);
    QuantizeError(0.0);
    hide RoundHalfEven;
    assert Unit(-v) * 127.0 == -(Unit(v) * 127.0);
  }

  /** The low eight bits of a signed value, and the signed value a byte stands for. */
  function ToByte(q: int): Byte { q % 256 }

  function FromByte(b: Byte): int { if b < 128 then b else b - 256 }

  lemma ByteRoundTrip(q: int)
    ensures FromByte(ToByte(q)) == q <==> -128 <= q <= 127
    ensures 0 <= q <= 127 ==> ToByte(q) == q
    ensures -128 <= q < 0 ==> ToByte(q) == q + 256
  {
  }

  // ---------------------------------------------------------------- packing

  function Padded(samples: seq<real>, t: int): (p: seq<real>)
    ensures |p| >= t && |p| >= |samples| && p[..|samples|] == samples
    ensures |samples| >= t ==> p == samples
    ensures forall k :: |samples| <= k < |p| ==> p[k] == 0.0
  {
    if |samples| < t then samples + seq(t - |samples|, _ => 0.0) else samples
  }

  /** Indices of a least and a greatest sample of bucket `i`. */
  ghost predicate AreExtremes(arr: seq<real>, t: int, i: int, least: int, greatest: int)
    requires t > 0
  {
    && 0 <= least < |arr| && InBucket(least, i, |arr|, t)
    && 0 <= greatest < |arr| && InBucket(greatest, i, |arr|, t)
    && forall k :: 0 <= k < |arr| && InBucket(k, i, |arr|, t) ==> arr[least] <= arr[k] <= arr[greatest]
  }

  /** The two bytes of bucket `i` code its least and its greatest sample. */
  ghost predicate IsPair(low: Byte, high: Byte, arr: seq<real>, t: int, i: int)
    requires t > 0
  {
    exists least, greatest :: AreExtremes(arr, t, i, least, greatest)
      && low == ToByte(Quantize(arr[least])) && high == ToByte(Quantize(arr[greatest]))
  }

  ghost predicate IsPeaks(bytes: seq<Byte>, arr: seq<real>, t: int)
    requires t > 0
  {
    |bytes| == t * BYTES_PER_BUCKET
    && forall i :: 0 <= i < t ==> IsPair(bytes[2 * i], bytes[2 * i + 1], arr, t, i)
  }

  /** Every sample's code lies between the stored minimum and maximum of its one bucket, and
      both of those are codes of samples of that bucket. */
  lemma {:induction false} PeaksEnclose(bytes: seq<Byte>, arr: seq<real>, t: int, k: int)
      returns (b: nat, least: int, greatest: int)
    requires t > 0 && |arr| >= t && IsPeaks(bytes, arr, t) && 0 <= k < |arr|
    ensures |bytes| == 2 * t && b < t && b * |arr| < t * k + t <= b * |arr| + |arr|
    ensures FromByte(bytes[2 * b]) <= Quantize(arr[k]) <= FromByte(bytes[2 * b + 1])
    ensures 0 <= least < |arr| && InBucket(least, b, |arr|, t) && FromByte(bytes[2 * b]) == Quantize(arr[least])
    ensures 0 <= greatest < |arr| && InBucket(greatest, b, |arr|, t)
         && FromByte(bytes[2 * b + 1]) == Quantize(arr[greatest])
  {
    hide Edge, Quantize, InBucket;
    b := BucketsPartition(k, |arr|, t);
    assert IsPair(bytes[2 * b], bytes[2 * b + 1], arr, t, b);
    InBucketMeaning(k, b, |arr|, t);
    least, greatest :| AreExtremes(arr, t, b, least, greatest)
      && bytes[2 * b] == ToByte(Quantize(arr[least])) && bytes[2 * b + 1] == ToByte(Quantize(arr[greatest]));
    QuantizeMonotone(arr[least], arr[k]);
    QuantizeMonotone(arr[k], arr[greatest]);
    QuantizeError(arr[least]);
    QuantizeError(arr[greatest]);
    ByteRoundTrip(Quantize(arr[least]));
    ByteRoundTrip(Quantize(arr[greatest]));
  }

  /** `bucket.min()` and `bucket.max()`. */
  method Extremes(arr: seq<real>, lo: int, hi: int) returns (mn: real, mx: real, ghost least: int, ghost greatest: int)
    requires 0 <= lo < hi <= |arr|
    ensures lo <= least < hi && lo <= greatest < hi && mn == arr[least] && mx == arr[greatest]
    ensures forall k :: lo <= k < hi ==> mn <= arr[k] <= mx
  {
    mn, mx, least, greatest := arr[lo], arr[lo], lo, lo;
    for k := lo + 1 to hi
      invariant lo <= least < hi && lo <= greatest < hi && mn == arr[least] && mx == arr[greatest]
      invariant forall j :: lo <= j < k ==> mn <= arr[j] <= mx
    {
      if arr[k] < mn { mn, least := arr[k], k; }
      if arr[k] > mx { mx, greatest := arr[k], k; }
    }
  }

  /** `_peaks_from_samples`. */
  method PeaksFromSamples(samples: seq<real>, target: int) returns (r: Result<seq<Byte>, WaveformError>)
    ensures r.Err? <==> samples == []
    ensures r.Ok? ==> |r.value| == 2 * ClampTarget(target)
    ensures r.Ok? ==> IsPeaks(r.value, Padded(samples, ClampTarget(target)), ClampTarget(target))
  {
    hide Edge, Quantize, AreExtremes;
    if |samples| == 0 { return Err(ZeroSamples); }
    var t := ClampTarget(target);
    var arr := Padded(samples, t);
    var n := |arr|;
    var out := new Byte[t * BYTES_PER_BUCKET];
    for i := 0 to t
      invariant forall j :: 0 <= j < i ==> IsPair(out[2 * j], out[2 * j + 1], arr, t, j)
    {
      hide IsPair;
      var low, high := PackBucket(arr, t, i);
      out[i * 2] := low;
      out[i * 2 + 1] := high;
    }
    r := Ok(out[..]);
  }

  /** One turn of the packing loop; the branch for an empty bucket cannot be reached. */
  method PackBucket(arr: seq<real>, t: int, i: nat) returns (low: Byte, high: Byte)
    requires t > 0 && |arr| >= t && i < t
    ensures IsPair(low, high, arr, t, i)
  {
    hide Quantize;
    var lo, hi := Edge(i, |arr|, t), Edge(i + 1, |arr|, t);
    EdgesCover(|arr|, t);
    EdgesRise(0, i, |arr|, t);
    EdgesRise(i + 1, t, |arr|, t);
    BucketNonEmpty(i, |arr|, t);
    if hi <= lo { assert false; }
    var mn, mx, least, greatest := Extremes(arr, lo, hi);
    low, high := ToByte(Quantize(mn)), ToByte(Quantize(mx));
    assert AreExtremes(arr, t, i, least, greatest);
  }
}
