/** The 16 kHz snapshot: resampled from whole arrays, and through the bounded reader with one sliding cache. */
module Snapshot {
  import opened Spools
  import opened Bytes
  import opened Wav

  const Rate: nat := 16000
  const CacheSize: nat := 8192
  const IntMax: nat := 0x7fff_ffff

  // ---------------------------------------------------------------- what resampling means

  /** Where output sample i lies in the input. */
  function Position(i: nat, src: nat, dst: nat): real
    requires dst > 0
  {
    i as real * src as real / dst as real
  }

  /** The input sample at or before a position, the last one beyond the end. */
  function IndexAt(p: real, n: nat): (k: nat)
    requires n > 0
    ensures k < n
  {
    if p < 0.0 then 0 else if p.Floor >= n then n - 1 else p.Floor
  }

  /** The float between two neighbours. */
  function Weighted(c: Codec, a: real, b: real, f: real): real { c.narrow(a * (1.0 - f) + b * f) }

  /** Between the two neighbours of the position; the last sample stands alone. */
  function Blend(c: Codec, x: seq<real>, p: real): real
    requires |x| > 0
  {
    var k := IndexAt(p, |x|);
    var f := p - k as real;
    if k + 1 < |x| then Weighted(c, x[k], x[k + 1], f) else x[k]
  }

  function Resampled(c: Codec, x: seq<real>, src: nat, dst: nat): (r: seq<real>)
    requires |x| > 0 && src > 0 && dst > 0
    ensures |r| == |x| * dst / src
  {
    seq(|x| * dst / src, i requires 0 <= i < |x| * dst / src => Blend(c, x, Position(i, src, dst)))
  }

  lemma PositionSame(i: nat, rate: nat)
    requires rate > 0
    ensures Position(i, rate, rate) == i as real
  {
    Cancel(i as real, rate as real);
  }

  lemma Cancel(x: real, d: real)
    requires d > 0.0
    ensures x * d / d == x
  {
  }

  lemma CountSame(n: nat, rate: nat)
    requires rate > 0
    ensures n * rate / rate == n
  {
    var q := n * rate / rate;
    var r := n * rate % rate;
    assert n * rate == rate * q + r;
    if q < n { Between(q + 1, n, rate); }
    if q > n { Between(n + 1, q, rate); }
  }

  lemma Between(a: nat, b: nat, d: nat)
    requires a <= b
    ensures a * d <= b * d
  {
  }

  lemma WeightedNone(c: Codec, a: real, b: real)
    ensures Weighted(c, a, b, 0.0) == c.narrow(a)
  {
    assert a * (1.0 - 0.0) + b * 0.0 == a;
  }

  lemma BlendSame(c: Codec, x: seq<real>, i: nat)
    requires i < |x| && c.narrow(x[i]) == x[i]
    ensures Blend(c, x, i as real) == x[i]
  {
    if i + 1 < |x| { WeightedNone(c, x[i], x[i + 1]); }
  }

  /** At equal rates resampling changes nothing, provided the samples are floats already. */
  lemma ResampledSame(c: Codec, x: seq<real>, rate: nat)
    requires |x| > 0 && rate > 0 && forall i :: 0 <= i < |x| ==> c.narrow(x[i]) == x[i]
    ensures Resampled(c, x, rate, rate) == x
  {
    CountSame(|x|, rate);
    forall i: nat | i < |x| ensures Resampled(c, x, rate, rate)[i] == x[i] {
      PositionSame(i, rate);
      BlendSame(c, x, i);
    }
  }

  lemma Whole(p: nat, d: nat)
    requires d > 0
    ensures var q, m := p / d, p % d; p == q * d + m && m < d
    ensures p as real / d as real == (p / d) as real + (p % d) as real / d as real
    ensures 0.0 <= (p % d) as real / d as real < 1.0
  {
    var q, m := p / d, p % d;
    assert p as real == q as real * d as real + m as real;
    Parts(q as real, m as real, d as real);
    Fraction(m as real, d as real);
  }

  lemma Parts(q: real, m: real, d: real)
    requires d > 0.0
    ensures (q * d + m) / d == q + m / d
  {
  }

  lemma Fraction(m: real, d: real)
    requires 0.0 <= m < d
    ensures 0.0 <= m / d < 1.0
  {
    var q := m / d;
    assert q * d == m;
    if q >= 1.0 { AtLeastOne(q, d); }
  }

  lemma AtLeastOne(q: real, d: real)
    requires q >= 1.0 && d > 0.0
    ensures q * d >= d
  {
  }

  lemma DividedBelow(a: nat, n: nat, d: nat)
    requires d > 0 && a < n * d
    ensures a / d < n
  {
    var q := a / d;
    assert q * d <= a;
    if q >= n { Between(n, q, d); }
  }

  /** Before the end of the output the position is before the end of the input. */
  lemma PositionInside(i: nat, n: nat, src: nat, dst: nat)
    requires src > 0 && dst > 0 && i < n * dst / src
    ensures i * src / dst < n
  {
    var m := n * dst / src;
    assert m * src <= n * dst;
    Between(i + 1, m, src);
    assert (i + 1) * src == i * src + src;
    DividedBelow(i * src, n, dst);
  }

  lemma WeightedIs(c: Codec, a: real, b: real, t: real)
    ensures Weighted(c, a, b, t) == c.narrow(a * (1.0 - t) + b * t)
  {
  }

  /** A position q + t with t below one lies between samples q and q + 1 in that proportion. */
  lemma BlendAt(c: Codec, x: seq<real>, p: real, q: nat, t: real)
    requires q < |x| && 0.0 <= t < 1.0 && p == q as real + t
    ensures Blend(c, x, p) == if q + 1 < |x| then c.narrow(x[q] * (1.0 - t) + x[q + 1] * t) else x[|x| - 1]
  {
    assert p.Floor == q && IndexAt(p, |x|) == q;
    if q + 1 < |x| {
      WeightedIs(c, x[q], x[q + 1], t);
      assert p - q as real == t;
    }
  }

  /** Output i lies i src / dst samples into the input, q samples and the part t of one more: between sample q and the
      next in that proportion, and at the last sample behind it. */
  lemma ResampledBetween(c: Codec, x: seq<real>, src: nat, dst: nat, i: nat) returns (q: nat, t: real)
    requires |x| > 0 && src > 0 && dst > 0 && i < |x| * dst / src
    ensures q == i * src / dst < |x| && t == (i * src % dst) as real / dst as real && i < |Resampled(c, x, src, dst)|
    ensures Resampled(c, x, src, dst)[i]
      == if q + 1 < |x| then c.narrow(x[q] * (1.0 - t) + x[q + 1] * t) else x[|x| - 1]
  {
    var y := i * src;
    q, t := y / dst, (y % dst) as real / dst as real;
    PositionInside(i, |x|, src, dst);
    PositionIs(i, src, dst);
    Whole(y, dst);
    BlendAt(c, x, Position(i, src, dst), q, t);
  }

  lemma PositionIs(i: nat, src: nat, dst: nat)
    requires dst > 0
    ensures Position(i, src, dst) == (i * src) as real / dst as real
  {
    assert i as real * src as real == (i * src) as real;
  }

  /** An output on an input sample is that sample. */
  lemma ResampledOnSample(c: Codec, x: seq<real>, src: nat, dst: nat, i: nat)
    requires |x| > 0 && src > 0 && dst > 0 && i < |x| * dst / src && i * src % dst == 0
    requires forall k :: 0 <= k < |x| ==> c.narrow(x[k]) == x[k]
    ensures i * src / dst < |x| && Resampled(c, x, src, dst)[i] == x[i * src / dst]
  {
    var q, t := ResampledBetween(c, x, src, dst, i);
    assert t == 0.0;
    if q + 1 < |x| {
      WeightedIs(c, x[q], x[q + 1], t);
      WeightedNone(c, x[q], x[q + 1]);
    }
  }

  /** A straight line stays the same straight line at the other rate. */
  lemma ResampledLine(c: Codec, x: seq<real>, src: nat, dst: nat, i: nat, start: real, slope: real) returns (v: real)
    requires |x| > 0 && src > 0 && dst > 0 && i < |x| * dst / src && i * src / dst + 1 < |x|
    requires forall k :: 0 <= k < |x| ==> x[k] == start + slope * k as real
    ensures v == start + slope * (i as real * src as real / dst as real) && Resampled(c, x, src, dst)[i] == c.narrow(v)
  {
    var q, t := ResampledBetween(c, x, src, dst, i);
    Whole(i * src, dst);
    PositionIs(i, src, dst);
    v := x[q] * (1.0 - t) + x[q + 1] * t;
    LineBetween(start, slope, q as real, t, x[q], x[q + 1]);
    LineOn(start, slope, q as real + t, i as real * src as real / dst as real, v);
  }

  lemma LineOn(start: real, slope: real, p: real, r: real, v: real)
    requires p == r && v == start + slope * p
    ensures v == start + slope * r
  {
  }

  lemma LineBetween(start: real, slope: real, q: real, t: real, a: real, b: real)
    requires a == start + slope * q && b == start + slope * (q + 1.0)
    ensures a * (1.0 - t) + b * t == start + slope * (q + t)
  {
    assert b == a + slope;
    assert a * (1.0 - t) + (a + slope) * t == a + slope * t;
    assert slope * (q + t) == slope * q + slope * t;
  }

  // ---------------------------------------------------------------- on whole arrays

  /** `resample_linear`: an empty result stands for refused arguments. */
  method ResampleLinear(c: Codec, input: seq<real>, src: int, dst: int) returns (output: seq<real>)
    ensures |input| == 0 || src <= 0 || dst <= 0 ==> output == []
    ensures |input| > 0 && src > 0 && dst > 0 && src == dst ==> output == input
    ensures |input| > 0 && src > 0 && dst > 0 && src != dst ==>
      output == if |input| * dst / src > IntMax then [] else Resampled(c, input, src, dst)
  {
    if |input| == 0 || src <= 0 || dst <= 0 { return []; }
    if src == dst { return input; }
    var n := |input|;
    var outputLength := n * dst / src;
    if outputLength == 0 {
      assert Resampled(c, input, src, dst) == [];
      return [];
    }
    if outputLength > IntMax { return []; }
    output := ResampleLoop(c, input, src, dst, outputLength, Resampled(c, input, src, dst));
  }

  method ResampleLoop(c: Codec, input: seq<real>, src: nat, dst: nat, outputLength: nat, ghost whole: seq<real>)
    returns (output: seq<real>)
    requires |input| > 0 && src > 0 && dst > 0 && |whole| == outputLength
    requires forall i :: 0 <= i < |whole| ==> whole[i] == Blend(c, input, Position(i, src, dst))
    ensures output == whole
  {
    output := [];
    var i := 0;
    while i < outputLength
      invariant 0 <= i <= outputLength && output == whole[..i]
    {
      var value := BlendArray(c, input, Position(i, src, dst));
      output := output + [value];
      i := i + 1;
    }
  }

  method BlendArray(c: Codec, input: seq<real>, position: real) returns (value: real)
    requires |input| > 0 && position >= 0.0
    ensures value == Blend(c, input, position)
  {
    var index := position.Floor;
    if index >= |input| { index := |input| - 1; }
    var fraction := position - index as real;
    if index + 1 < |input| {
      value := Weighted(c, input[index], input[index + 1], fraction);
    } else {
      value := input[index];
    }
  }

  // ---------------------------------------------------------------- through the bounded reader

  /** The decoded frames of a file whose frames are all finite. */
  function Frames(c: Codec, file: seq<byte>, m: Meta): (x: seq<real>)
    requires MetaOk(file, m) && GoodFrames(c, file, m, 0, m.frames)
    ensures |x| == m.frames
  {
    seq(m.frames, k requires 0 <= k < m.frames => (assert GoodFrame(c, file, m, k); FrameAt(c, file, m, k).value))
  }

  lemma FramesHeld(c: Codec, file: seq<byte>, m: Meta, first: nat, s: seq<real>)
    requires MetaOk(file, m) && GoodFrames(c, file, m, 0, m.frames) && Holds(c, file, m, first, s)
    ensures first + |s| <= m.frames && s == Frames(c, file, m)[first..first + |s|]
  {
    forall k: nat | k < |s| ensures s[k] == Frames(c, file, m)[first + k] {
      assert FrameAt(c, file, m, first + k) == Some(s[k]) && GoodFrame(c, file, m, first + k);
    }
  }

  /** The sliding window over the native frames. */
  class NativeCache {
    const reader: WavChunkReader
    ghost const x: seq<real>
    var cache: seq<real>
    var first: nat

    constructor (reader: WavChunkReader, ghost all: seq<real>)
      requires Reads(reader, all)
      ensures Valid() && this.reader == reader && this.x == all
    {
      this.reader := reader;
      this.x := all;
      cache, first := [], 0;
    }

    ghost predicate Valid()
      reads this, reader
    {
      Reads(reader, x) && first + |cache| <= |x| && cache == x[first..first + |cache|]
    }

    /** One native frame; the window moves there when the frame is outside it. */
    method SampleAt(index: nat) returns (value: Option<real>)
      requires Valid()
      modifies this
      ensures Valid() && value == if index < |x| then Some(x[index]) else None
    {
      var frames := reader.meta.value.frames;
      if index >= frames { return None; }
      if index < first || index >= first + |cache| {
        var count := Min(CacheSize, frames - index);
        Window(reader, x, index, count);
        var read := reader.ReadMonoFrames(index, count);
        FramesHeld(reader.codec, reader.file, reader.meta.value, index, read.value);
        cache, first := read.value, index;
      }
      value := Some(cache[index - first]);
    }
  }

  /** The reader is open on a file of finite frames, and x is what they decode to. */
  ghost predicate Reads(reader: WavChunkReader, x: seq<real>)
    reads reader
  {
    && reader.Valid() && reader.meta.Some? && GoodFrames(reader.codec, reader.file, reader.meta.value, 0,
      reader.meta.value.frames)
    && x == Frames(reader.codec, reader.file, reader.meta.value)
  }

  lemma Window(reader: WavChunkReader, x: seq<real>, index: nat, count: nat)
    requires Reads(reader, x) && index + count <= |x|
    ensures GoodFrames(reader.codec, reader.file, reader.meta.value, index, index + count)
  {
  }

  /** The sample at an index, weighted with its right neighbour where there is one. */
  method WeightedPair(cache: NativeCache, c: Codec, index: nat, fraction: real) returns (v: real)
    requires cache.Valid() && index < |cache.x|
    modifies cache
    ensures cache.Valid()
    ensures v == if index + 1 < |cache.x| then Weighted(c, cache.x[index], cache.x[index + 1], fraction)
      else cache.x[index]
  {
    var first := cache.SampleAt(index);
    v := first.value;
    if index + 1 < cache.reader.meta.value.frames {
      var second := cache.SampleAt(index + 1);
      v := Weighted(c, first.value, second.value, fraction);
    }
  }

  /** One output sample through the cache; None when a value is not finite. */
  method BlendCached(cache: NativeCache, c: Codec, position: real) returns (value: Option<real>)
    requires cache.Valid() && |cache.x| > 0 && position >= 0.0 && c == cache.reader.codec
    modifies cache
    ensures cache.Valid()
    ensures value == if c.finite(Blend(c, cache.x, position)) then Some(Blend(c, cache.x, position)) else None
  {
    var frames := cache.reader.meta.value.frames;
    var index := position.Floor;
    if index >= frames { index := frames - 1; }
    var fraction := position - index as real;
    var v := WeightedPair(cache, c, index, fraction);
    if !c.finite(v) { return None; }
    value := Some(v);
  }

  predicate AllFinite(c: Codec, s: seq<real>) { forall i :: 0 <= i < |s| ==> c.finite(s[i]) }

  /** `part` is the resampled signal from `base` on. */
  ghost predicate PartOf(c: Codec, x: seq<real>, rate: nat, base: nat, part: seq<real>)
    requires |x| > 0 && rate > 0
  {
    forall k :: 0 <= k < |part| ==> part[k] == Blend(c, x, Position(base + k, rate, Rate))
  }

  /** One sample of a block. */
  method SnapshotOne(cache: NativeCache, c: Codec, rate: nat, base: nat, local: nat, ghost part: seq<real>)
    returns (value: Option<real>)
    requires cache.Valid() && |cache.x| > 0 && c == cache.reader.codec && rate > 0 && local < |part|
      && PartOf(c, cache.x, rate, base, part)
    modifies cache
    ensures cache.Valid()
    ensures value == if c.finite(part[local]) then Some(part[local]) else None
  {
    assert part[local] == Blend(c, cache.x, Position(base + local, rate, Rate));
    value := BlendCached(cache, c, Position(base + local, rate, Rate));
  }

  lemma OneMoreFinite(c: Codec, part: seq<real>, local: nat)
    requires local < |part| && AllFinite(c, part[..local]) && c.finite(part[local])
    ensures part[..local] + [part[local]] == part[..local + 1] && AllFinite(c, part[..local + 1])
  {
  }

  /** One block of output samples. */
  method SnapshotBlock(cache: NativeCache, c: Codec, rate: nat, base: nat, count: nat, ghost part: seq<real>)
    returns (block: Option<seq<real>>)
    requires cache.Valid() && |cache.x| > 0 && c == cache.reader.codec && rate > 0 && |part| == count
    requires PartOf(c, cache.x, rate, base, part)
    modifies cache
    ensures cache.Valid()
    ensures block == if AllFinite(c, part) then Some(part) else None
  {
    var output := [];
    var local := 0;
    while local < count
      invariant 0 <= local <= count && cache.Valid() && output == part[..local] && AllFinite(c, output)
    {
      var value := SnapshotOne(cache, c, rate, base, local, part);
      if value.None? { return None; }
      OneMoreFinite(c, part, local);
      output := output + [value.value];
      local := local + 1;
    }
    assert part[..count] == part;
    block := Some(output);
  }

  lemma PartFinite(c: Codec, s: seq<real>, from: nat, to: nat)
    requires from <= to <= |s| && !AllFinite(c, s[from..to])
    ensures !AllFinite(c, s)
  {
    var i :| 0 <= i < to - from && !c.finite(s[from..to][i]);
    assert s[from + i] == s[from..to][i];
  }

  lemma PartBlends(c: Codec, x: seq<real>, rate: nat, all: seq<real>, base: nat, count: nat)
    requires |x| > 0 && rate > 0 && all == Resampled(c, x, rate, Rate) && base + count <= |all|
    ensures PartOf(c, x, rate, base, all[base..base + count])
  {
  }

  lemma JoinPart(s: seq<real>, base: nat, count: nat)
    requires base + count <= |s|
    ensures s[..base] + s[base..base + count] == s[..base + count]
  {
  }

  /** `stable_sample_count`. */
  function StableCount(m: Meta): Option<nat> {
    if m.format.rate == 0 || m.frames == 0 || m.frames * Rate / m.format.rate == 0 then None
      else Some(m.frames * Rate / m.format.rate)
  }

  /** `build_stable_16k_snapshot`: for a file of finite frames the spool holds the resampled frames, unless one of them
      is not finite. */
  method BuildSnapshot(reader: WavChunkReader, expected: nat) returns (snapshot: Option<Spool<real>>)
    requires reader.Valid() && reader.meta.Some? && StableCount(reader.meta.value) == Some(expected)
    requires GoodFrames(reader.codec, reader.file, reader.meta.value, 0, reader.meta.value.frames)
    ensures var r := Resampled(reader.codec, Frames(reader.codec, reader.file, reader.meta.value),
      reader.meta.value.format.rate, Rate);
      && (snapshot.Some? <==> AllFinite(reader.codec, r)) && (snapshot.Some? ==> snapshot.value.samples == r)
  {
    var c, rate := reader.codec, reader.meta.value.format.rate;
    ghost var x := Frames(c, reader.file, reader.meta.value);
    ghost var all := Resampled(c, x, rate, Rate);
    var cache := new NativeCache(reader, x);
    var spool := new Spool<real>();
    var base := 0;
    while base < expected
      invariant 0 <= base <= expected == |all| && cache.Valid() && cache.x == x && cache.reader == reader
        && fresh(cache) && fresh(spool)
      invariant spool.samples == all[..base] && AllFinite(c, spool.samples)
    {
      var count := Min(IoBlock, expected - base);
      PartBlends(c, x, rate, all, base, count);
      var block := SnapshotBlock(cache, c, rate, base, count, all[base..base + count]);
      if block.None? {
        PartFinite(c, all, base, base + count);
        return None;
      }
      spool.Append(block.value);
      JoinPart(all, base, count);
      base := base + count;
    }
    assert all[..expected] == all;
    snapshot := Some(spool);
  }

  /** Narrowing twice is narrowing once. */
  ghost predicate NarrowsOnce(c: Codec) { forall x :: NarrowedAt(c, x) }

  predicate NarrowedAt(c: Codec, x: real) { c.narrow(c.narrow(x)) == c.narrow(x) }

  lemma FramesNarrowed(c: Codec, file: seq<byte>, m: Meta)
    requires NarrowsOnce(c) && MetaOk(file, m) && GoodFrames(c, file, m, 0, m.frames)
    ensures forall k :: 0 <= k < m.frames ==> c.narrow(Frames(c, file, m)[k]) == Frames(c, file, m)[k]
  {
    forall k: nat | k < m.frames ensures c.narrow(Frames(c, file, m)[k]) == Frames(c, file, m)[k] {
      assert GoodFrame(c, file, m, k);
      FrameInside(file, m, k);
      assert NarrowedAt(c, MonoSum(c, file, m.format, FrameOffset(m, k),
        m.format.channels).value / m.format.channels as real);
    }
  }

  lemma AllDecode(c: Codec, file: seq<byte>, m: Meta)
    requires MetaOk(file, m)
    ensures GoodFrames(c, file, m, 0, m.frames) ==> forall k: nat :: k < m.frames ==> FrameAt(c, file, m, k).Some?
  {
    if GoodFrames(c, file, m, 0, m.frames) {
      forall k: nat | k < m.frames ensures FrameAt(c, file, m, k).Some? { assert GoodFrame(c, file, m, k); }
    }
  }

  /** The whole-array resampler with its refusals, which give an empty result. */
  function Resampling(c: Codec, x: seq<real>, src: nat): seq<real> {
    if |x| == 0 || src == 0 then [] else if src == Rate then x
    else if |x| * Rate / src > IntMax then [] else Resampled(c, x, src, Rate)
  }

  /** Every frame decodes, to a finite value or not. */
  ghost predicate Decodes(c: Codec, file: seq<byte>, m: Meta)
    requires MetaOk(file, m)
  {
    forall k: nat :: k < m.frames ==> FrameAt(c, file, m, k).Some?
  }

  ghost function DecodedFrames(c: Codec, file: seq<byte>, m: Meta): (x: seq<real>)
    requires MetaOk(file, m) && Decodes(c, file, m)
    ensures |x| == m.frames
  {
    seq(m.frames, k requires 0 <= k < m.frames => FrameAt(c, file, m, k).value)
  }

  lemma HeldFrames(c: Codec, file: seq<byte>, m: Meta, s: seq<real>)
    requires MetaOk(file, m) && Decodes(c, file, m) && |s| == m.frames && Holds(c, file, m, 0, s)
    ensures s == DecodedFrames(c, file, m)
  {
    forall k: nat | k < |s| ensures s[k] == DecodedFrames(c, file, m)[k] {
      assert FrameAt(c, file, m, 0 + k) == Some(s[k]);
    }
  }

  /** Reading and resampling whole arrays, as the owning path does: it fails exactly when the file does not open or a
      frame does not decode, and otherwise resamples the frames, finite or not. */
  method ReadAndResample(c: Codec, file: seq<byte>) returns (samples: Option<seq<real>>)
    requires NarrowsOnce(c)
    ensures OpenWav(file).Some? ==> MetaOk(file, OpenWav(file).value)
    ensures samples.Some? <==> OpenWav(file).Some? && Decodes(c, file, OpenWav(file).value)
    ensures samples.Some? ==>
      samples.value == Resampling(c, DecodedFrames(c, file, OpenWav(file).value), OpenWav(file).value.format.rate)
    ensures OpenWav(file).Some? && 0 < OpenWav(file).value.frames
      && OpenWav(file).value.frames * Rate / OpenWav(file).value.format.rate <= IntMax
      && GoodFrames(c, file, OpenWav(file).value, 0, OpenWav(file).value.frames)
      ==> samples == Some(Resampled(c, Frames(c, file, OpenWav(file).value), OpenWav(file).value.format.rate, Rate))
  {
    if OpenWav(file).Some? {
      OpenOk(file);
      AllDecode(c, file, OpenWav(file).value);
    }
    var meta, read := ReadWav(c, file);
    if meta.None? { return None; }
    ghost var m := meta.value;
    HeldFrames(c, file, m, read);
    var out := ResampleLinear(c, read, meta.value.format.rate, Rate);
    if 0 < m.frames && m.frames * Rate / m.format.rate <= IntMax && GoodFrames(c, file, m, 0, m.frames) {
      GoodResampling(c, file, m, read);
    }
    samples := Some(out);
  }

  lemma GoodResampling(c: Codec, file: seq<byte>, m: Meta, read: seq<real>)
    requires NarrowsOnce(c) && MetaOk(file, m) && GoodFrames(c, file, m, 0, m.frames) && Holds(c, file, m, 0, read)
    requires |read| == m.frames > 0 && m.format.rate > 0 && m.frames * Rate / m.format.rate <= IntMax
    ensures Resampling(c, read, m.format.rate) == Resampled(c, Frames(c, file, m), m.format.rate, Rate)
  {
    FramesHeld(c, file, m, 0, read);
    assert read == Frames(c, file, m);
    FramesNarrowed(c, file, m);
    if m.format.rate == Rate { ResampledSame(c, read, Rate); }
  }
}
