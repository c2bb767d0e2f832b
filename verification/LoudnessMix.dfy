/** The last stage of a conversion: the output follows the loudness of the source, streamed in blocks into the WAV
    writer. */
module LoudnessMix {
  import opened Spools
  import opened Bytes
  import opened WavWriter

  /** The operations of the stage: samples as numbers, the finiteness test, the square root, and the factor for a pair
      of envelope values; `follow` is off when the mix rate is one. */
  datatype Mixer = Mixer(value: Word -> real, finite: real -> bool, root: real -> real, scale: (real, real) -> real,
                         follow: bool)

  const SourceHop: nat := 8000
  const OutputHop: nat := 20000

  // ---------------------------------------------------------------- loudness of whole arrays

  function SquareSum(m: Mixer, x: seq<Word>): real {
    if |x| == 0 then 0.0 else SquareSum(m, x[..|x| - 1]) + m.value(x[|x| - 1]) * m.value(x[|x| - 1])
  }

  /** The samples around the i-th record: one hop to both sides, within the clip. */
  function FrameStart(hop: nat, i: nat): nat { Max(0, i * hop - hop) }

  function FrameEnd(n: nat, hop: nat, i: nat): nat { Min(n, i * hop + hop) }

  lemma FrameInside(n: nat, hop: nat, i: nat)
    requires hop > 0 && i < n / hop + 1
    ensures i * hop <= n && FrameStart(hop, i) <= FrameEnd(n, hop, i) <= n
    ensures n > 0 ==> FrameStart(hop, i) < FrameEnd(n, hop, i)
  {
    var q := n / hop;
    assert q * hop <= n;
    Times(i, q, hop);
  }

  lemma Times(a: nat, b: nat, n: nat)
    requires a <= b
    ensures a * n <= b * n
  {
  }

  function Loudness(m: Mixer, x: seq<Word>, hop: nat, i: nat): real
    requires hop > 0 && i < |x| / hop + 1
  {
    FrameInside(|x|, hop, i);
    m.root(SquareSum(m, x[FrameStart(hop, i)..FrameEnd(|x|, hop, i)]) / (2 * hop) as real)
  }

  function Records(m: Mixer, x: seq<Word>, hop: nat): (r: seq<real>)
    requires hop > 0
    ensures |r| == |x| / hop + 1
  {
    seq(|x| / hop + 1, i requires 0 <= i < |x| / hop + 1 => Loudness(m, x, hop, i))
  }

  function Clamp(x: real, low: real, high: real): real { if x < low then low else if x > high then high else x }

  /** Where an output sample lies among the records. */
  function Position(i: nat, length: nat, count: nat): (p: real)
    requires i < length && count > 0
    ensures 0.0 <= p <= (count - 1) as real && 0 <= p.Floor < count
  {
    Clamp((i as real + 0.5) * count as real / length as real - 0.5, 0.0, (count - 1) as real)
  }

  function Lerp(left: real, right: real, fraction: real): real { left + (right - left) * fraction }

  /** The envelope at an output sample: the line between two records. */
  function Envelope(records: seq<real>, i: nat, length: nat): real
    requires |records| > 0 && i < length
  {
    var p := Position(i, length, |records|);
    Lerp(records[p.Floor], records[Min(p.Floor + 1, |records| - 1)], p - p.Floor as real)
  }

  const Least: real := 0.000001

  function AtLeast(x: real): real { if x < Least then Least else x }

  function Scaled(m: Mixer, word: Word, source: real, output: real): real {
    m.value(word) * m.scale(source, AtLeast(output))
  }

  /** `change_rms_envelope` at one sample. */
  function MixedAt(m: Mixer, source: seq<Word>, output: seq<Word>, i: nat): real
    requires i < |output|
  {
    if !m.follow then m.value(output[i]) else
    Scaled(m, output[i], Envelope(Records(m, source, SourceHop), i, |output|),
      Envelope(Records(m, output, OutputHop), i, |output|))
  }

  function Mixed(m: Mixer, source: seq<Word>, output: seq<Word>): (r: seq<real>)
    ensures |r| == |output|
  {
    seq(|output|, i requires 0 <= i < |output| => MixedAt(m, source, output, i))
  }

  // ---------------------------------------------------------------- what a mixed sample is

  lemma {:induction false} EqualSquares(m: Mixer, x: seq<Word>, v: real)
    requires forall k :: 0 <= k < |x| ==> m.value(x[k]) == v || m.value(x[k]) == -v
    ensures SquareSum(m, x) == |x| as real * (v * v)
  {
    if |x| > 0 {
      EqualSquares(m, x[..|x| - 1], v);
      assert (|x| - 1) as real * (v * v) + v * v == |x| as real * (v * v);
      assert (-v) * (-v) == v * v;
    }
  }

  /** The record of a stretch of equal amplitude is the root of its square, where a whole hop lies to both sides. */
  lemma RecordOfEqual(m: Mixer, x: seq<Word>, hop: nat, i: nat, v: real)
    requires hop > 0 && 0 < i && i * hop + hop <= |x|
    requires forall k :: i * hop - hop <= k < i * hop + hop ==> 0 <= k && (m.value(x[k]) == v || m.value(x[k]) == -v)
    ensures i < |Records(m, x, hop)| && Records(m, x, hop)[i] == m.root(v * v)
  {
    InFile(|x|, hop, i);
    var at := i * hop;
    Times(1, i, hop);
    assert FrameStart(hop, i) == at - hop && FrameEnd(|x|, hop, i) == at + hop;
    StretchOfEqual(m, x, at - hop, at + hop, v);
    assert Records(m, x, hop)[i] == Loudness(m, x, hop, i);
  }

  lemma StretchOfEqual(m: Mixer, x: seq<Word>, from: nat, to: nat, v: real)
    requires from < to <= |x| && forall k :: from <= k < to ==> m.value(x[k]) == v || m.value(x[k]) == -v
    ensures SquareSum(m, x[from..to]) / (to - from) as real == v * v
  {
    EqualSquares(m, x[from..to], v);
    Mean((to - from) as real, v * v);
  }

  lemma InFile(n: nat, hop: nat, i: nat)
    requires hop > 0 && i * hop + hop <= n
    ensures i < n / hop + 1
  {
    if i > n / hop { Times(n / hop + 1, i, hop); }
  }

  lemma Mean(n: real, v: real)
    requires n > 0.0
    ensures n * v / n == v
  {
  }

  /** The value of an envelope at sample i of `length`, in whole numbers: records stand at the middles of equal parts of
      the length; before the first middle and behind the last it is that record, in between the straight line. */
  predicate IsEnvelopeAt(records: seq<real>, i: nat, length: nat, v: real)
    requires |records| > 0 && i < length
  {
    LiesAt(records, (2 * i + 1) * |records| - length, 2 * length, v)
  }

  /** v is the value x / d records behind the first. */
  predicate LiesAt(records: seq<real>, x: int, d: nat, v: real)
    requires |records| > 0 && d > 0
  {
    if x <= 0 then v == records[0]
    else if x / d + 1 >= |records| then v == records[|records| - 1]
    else OnLine(records[x / d], records[x / d + 1], x % d, d, v)
  }

  /** v lies m of d parts of the way from a to b. */
  predicate OnLine(a: real, b: real, m: int, d: int, v: real) { (v - a) * d as real == (b - a) * m as real }

  lemma EnvelopeIs(records: seq<real>, i: nat, length: nat)
    requires |records| > 0 && i < length
    ensures IsEnvelopeAt(records, i, length, Envelope(records, i, length))
  {
    var n := |records|;
    var x, d := (2 * i + 1) * n - length, 2 * length;
    PositionIs(i, length, n, x);
    ClampedLies(records, x, d, Position(i, length, n));
  }

  lemma PositionIs(i: nat, length: nat, n: nat, x: int)
    requires i < length && n > 0 && x == (2 * i + 1) * n - length
    ensures Position(i, length, n) == Clamp(x as real / (2 * length) as real, 0.0, (n - 1) as real)
  {
    Halves(i, length, n, x);
  }

  /** The line at a clamped position. */
  lemma ClampedLies(records: seq<real>, x: int, d: nat, p: real)
    requires |records| > 0 && d > 0 && p == Clamp(x as real / d as real, 0.0, (|records| - 1) as real)
    ensures 0 <= p.Floor < |records|
    ensures LiesAt(records, x, d, Lerp(records[p.Floor], records[Min(p.Floor + 1, |records| - 1)], p - p.Floor as real))
  {
    var n := |records|;
    Split(x, d);
    if x <= 0 {
      NotAbove(x, d);
    } else if x / d + 1 < n {
      var t := (x % d) as real / d as real;
      assert p == (x / d) as real + t;
      assert p.Floor == x / d;
      Along(records[x / d], records[x / d + 1], t, x % d, d);
    }
  }

  lemma NotAbove(x: int, d: nat)
    requires x <= 0 && d > 0
    ensures x as real / d as real <= 0.0
  {
    var q := x as real / d as real;
    assert q * d as real == x as real;
    if q > 0.0 { Smaller(0.0, q, d as real); }
  }

  lemma Halves(i: nat, length: nat, n: nat, x: int)
    requires length > 0 && x == (2 * i + 1) * n - length
    ensures (i as real + 0.5) * n as real / length as real - 0.5 == x as real / (2 * length) as real
  {
    var top := (i as real + 0.5) * n as real;
    TwiceTop(i, n);
    Halved(top, length as real, x as real);
  }

  lemma TwiceTop(i: nat, n: nat)
    ensures ((2 * i + 1) * n) as real == 2.0 * ((i as real + 0.5) * n as real)
  {
  }

  lemma Halved(top: real, l: real, x: real)
    requires l > 0.0 && x == 2.0 * top - l
    ensures top / l - 0.5 == x / (2.0 * l)
  {
    var q := top / l;
    assert q * l == top;
    assert (q - 0.5) * (2.0 * l) == x;
    Quotient(q - 0.5, 2.0 * l, x);
  }

  lemma Quotient(q: real, d: real, x: real)
    requires d > 0.0 && q * d == x
    ensures q == x / d
  {
  }

  lemma Smaller(q: real, k: real, d: real)
    requires q < k && d > 0.0
    ensures q * d < k * d
  {
  }

  lemma NotSmaller(a: real, b: real, d: real)
    requires a <= b && d > 0.0
    ensures a * d <= b * d
  {
  }

  lemma Split(x: int, d: int)
    requires d > 0
    ensures var t := (x % d) as real / d as real; 0.0 <= t < 1.0 && x as real / d as real == (x / d) as real + t
  {
    var q, m := x / d, x % d;
    assert x == q * d + m;
    assert x as real == q as real * d as real + m as real;
    Parts(q as real, m as real, d as real);
  }

  lemma Parts(q: real, m: real, d: real)
    requires 0.0 <= m < d
    ensures (q * d + m) / d == q + m / d && 0.0 <= m / d < 1.0
  {
    var t := m / d;
    assert t * d == m;
    if t >= 1.0 { NotSmaller(1.0, t, d); }
    if t < 0.0 { Smaller(t, 0.0, d); }
    assert (q + t) * d == q * d + m;
    Quotient(q + t, d, q * d + m);
  }

  lemma Along(a: real, b: real, t: real, m: int, d: int)
    requires d > 0 && t == m as real / d as real
    ensures OnLine(a, b, m, d, Lerp(a, b, t))
  {
    assert t * d as real == m as real;
    assert (b - a) * t * d as real == (b - a) * (t * d as real);
  }

  /** The value of a clip's envelope at sample i of `length`. */
  ghost predicate EnvelopeOf(m: Mixer, x: seq<Word>, hop: nat, i: nat, length: nat, v: real)
    requires hop > 0 && i < length
  {
    forall k {:trigger Unseal(k)} :: Unseal(k) ==> IsEnvelopeAt(Records(m, x, hop), i, length, v)
  }

  lemma EnvelopeFact(m: Mixer, x: seq<Word>, hop: nat, i: nat, length: nat, v: real)
    requires hop > 0 && i < length && v == Envelope(Records(m, x, hop), i, length)
    ensures EnvelopeOf(m, x, hop, i, length, v)
  {
    EnvelopeIs(Records(m, x, hop), i, length);
  }

  predicate IsScaled(m: Mixer, word: Word, factor: real, v: real) { v == m.value(word) * factor }

  /** A mixed sample is the output's sample times the factor for the loudness of the source and of the output there, the
      output's being at least a millionth; the source is measured every 8000 samples, the output every 20000. */
  lemma MixedIsScaled(m: Mixer, source: seq<Word>, output: seq<Word>, i: nat) returns (a: real, b: real, factor: real)
    requires i < |output| && m.follow
    ensures EnvelopeOf(m, source, 8000, i, |output|, a) && EnvelopeOf(m, output, 20000, i, |output|, b)
    ensures factor == m.scale(a, if b < 0.000001 then 0.000001 else b)
    ensures IsScaled(m, output[i], factor, Mixed(m, source, output)[i])
  {
    a := Envelope(Records(m, source, SourceHop), i, |output|);
    b := Envelope(Records(m, output, OutputHop), i, |output|);
    EnvelopeFact(m, source, SourceHop, i, |output|, a);
    EnvelopeFact(m, output, OutputHop, i, |output|, b);
    MixedBy(m, source, output, i, a, b);
    factor := ScaledIs(m, output[i], a, b);
  }

  lemma ScaledIs(m: Mixer, word: Word, a: real, b: real) returns (factor: real)
    ensures factor == m.scale(a, if b < 0.000001 then 0.000001 else b)
      && IsScaled(m, word, factor, Scaled(m, word, a, b))
  {
    factor := m.scale(a, AtLeast(b));
  }

  lemma MixedBy(m: Mixer, source: seq<Word>, output: seq<Word>, i: nat, a: real, b: real)
    requires i < |output| && m.follow && a == Envelope(Records(m, source, SourceHop), i, |output|)
    requires b == Envelope(Records(m, output, OutputHop), i, |output|)
    ensures Mixed(m, source, output)[i] == Scaled(m, output[i], a, b)
  {
    assert Mixed(m, source, output)[i] == MixedAt(m, source, output, i);
  }

  // ---------------------------------------------------------------- the whole-array twin

  /** All records of a clip. */
  method ArrayRecords(m: Mixer, x: seq<Word>, hop: nat) returns (e: array<real>)
    requires hop > 0
    ensures fresh(e) && e[..] == Records(m, x, hop)
  {
    e := new real[|x| / hop + 1];
    var f := 0;
    while f < e.Length
      invariant 0 <= f <= e.Length && e[..f] == Records(m, x, hop)[..f]
    {
      FrameInside(|x|, hop, f);
      var sum := SumSquares(m, x[Max(0, f * hop - hop)..Min(|x|, f * hop + hop)]);
      e[f] := m.root(sum / (2 * hop) as real);
      assert e[f] == Records(m, x, hop)[f];
      f := f + 1;
    }
  }

  /** The envelope at every output sample. */
  method ArrayEnvelope(m: Mixer, x: seq<Word>, hop: nat, length: nat) returns (r: array<real>)
    requires hop > 0
    ensures fresh(r) && IsEnvelope(r[..], m, x, hop, length)
  {
    var e := ArrayRecords(m, x, hop);
    r := new real[length];
    var i := 0;
    while i < length
      invariant 0 <= i <= length && e[..] == Records(m, x, hop)
      invariant forall k: nat :: k < i ==> EnvelopeAt(r[k], m, x, hop, k, length)
    {
      var p := Position(i, length, e.Length);
      r[i] := Lerp(e[p.Floor], e[Min(p.Floor + 1, e.Length - 1)], p - p.Floor as real);
      assert EnvelopeAt(r[i], m, x, hop, i, length);
      i := i + 1;
    }
  }

  predicate EnvelopeAt(v: real, m: Mixer, x: seq<Word>, hop: nat, i: nat, length: nat)
    requires hop > 0 && i < length
  {
    v == Envelope(Records(m, x, hop), i, length)
  }

  predicate IsEnvelope(r: seq<real>, m: Mixer, x: seq<Word>, hop: nat, length: nat)
    requires hop > 0
  {
    |r| == length && forall i: nat :: i < length ==> EnvelopeAt(r[i], m, x, hop, i, length)
  }

  lemma MixedIs(m: Mixer, source: seq<Word>, output: seq<Word>, all: seq<real>, r1: seq<real>, r2: seq<real>, i: nat)
    requires m.follow && IsEnvelope(r1, m, source, SourceHop, |output|)
      && IsEnvelope(r2, m, output, OutputHop, |output|) && i < |output|
    requires IsMix(all, m, source, output)
    ensures Scaled(m, output[i], r1[i], r2[i]) == all[i]
  {
    assert Unseal(0);
    assert EnvelopeAt(r1[i], m, source, SourceHop, i, |output|) && EnvelopeAt(r2[i], m, output, OutputHop, i, |output|);
    assert Mixed(m, source, output)[i] == MixedAt(m, source, output, i);
  }

  /** `change_rms_envelope`: both envelopes first, then every sample scaled. */
  method ChangeEnvelope(m: Mixer, source: seq<Word>, output: seq<Word>) returns (mixed: array<real>)
    requires m.follow
    ensures mixed[..] == Mixed(m, source, output)
  {
    var r1 := ArrayEnvelope(m, source, SourceHop, |output|);
    var r2 := ArrayEnvelope(m, output, OutputHop, |output|);
    ghost var s1, s2 := r1[..], r2[..];
    ghost var all := MixOf(m, source, output);
    mixed := new real[|output|];
    var i := 0;
    while i < |output|
      invariant 0 <= i <= |output| && mixed[..i] == all[..i] && r1[..] == s1 && r2[..] == s2
    {
      mixed[i] := Scaled(m, output[i], r1[i], r2[i]);
      MixedIs(m, source, output, all, s1, s2, i);
      i := i + 1;
    }
    assert mixed[..] == all;
    assert Unseal(0);
  }

  // ---------------------------------------------------------------- what the streamed stage accepts

  predicate AllFinite(m: Mixer, s: seq<real>) { forall i :: 0 <= i < |s| ==> m.finite(s[i]) }

  /** A sealed fact is taken apart only where some Unseal term is written down. */
  ghost predicate Unseal(k: int) { true }

  /** The i-th mixed sample, and the envelope values it takes, are finite. */
  ghost predicate SampleFinite(m: Mixer, source: seq<Word>, output: seq<Word>, i: nat)
    requires i < |output|
  {
    forall k {:trigger Unseal(k)} :: Unseal(k) ==>
      && m.finite(MixedAt(m, source, output, i))
      && (m.follow ==>
        && m.finite(Envelope(Records(m, source, SourceHop), i, |output|))
        && m.finite(Envelope(Records(m, output, OutputHop), i, |output|)))
  }

  lemma FiniteSample(m: Mixer, source: seq<Word>, output: seq<Word>, i: nat)
    requires i < |output|
    ensures SampleFinite(m, source, output, i) ==> m.finite(Mixed(m, source, output)[i])
    ensures !m.follow ==> (SampleFinite(m, source, output, i) <==> m.finite(Mixed(m, source, output)[i]))
  {
    assert Unseal(0);
  }

  ghost predicate PartFinite(m: Mixer, source: seq<Word>, output: seq<Word>, from: nat, to: nat)
    requires to <= |output|
  {
    forall k {:trigger Unseal(k)} :: Unseal(k) ==> forall i | from <= i < to :: SampleFinite(m, source, output, i)
  }

  /** Every record, envelope value and mixed sample is finite, and there is something to follow. */
  ghost predicate Mixable(m: Mixer, source: seq<Word>, output: seq<Word>) {
    && (m.follow ==>
      |source| > 0 && |output| > 0 && AllFinite(m, Records(m, source, SourceHop))
      && AllFinite(m, Records(m, output, OutputHop)))
    && PartFinite(m, source, output, 0, |output|)
  }

  // ---------------------------------------------------------------- records, streamed

  method SumSquares(m: Mixer, x: seq<Word>) returns (sum: real)
    ensures sum == SquareSum(m, x)
  {
    sum := 0.0;
    for i := 0 to |x|
      invariant sum == SquareSum(m, x[..i])
    {
      assert x[..i + 1][..i] == x[..i];
      sum := sum + m.value(x[i]) * m.value(x[i]);
    }
    assert x[..|x|] == x;
  }

  /** The loop body of `compute_rms_records`. */
  method OneRecord(m: Mixer, audio: Spool<Word>, hop: nat, i: nat) returns (rms: real)
    requires hop > 0 && |audio.samples| > 0 && i < |audio.samples| / hop + 1
    ensures rms == Loudness(m, audio.samples, hop, i)
  {
    FrameInside(|audio.samples|, hop, i);
    var center := i * hop;
    var start := if center >= hop then center - hop else 0;
    var end := center + Min(2 * hop - hop, |audio.samples| - center);
    var samples := audio.Read(start, end - start);
    var sum := SumSquares(m, samples.value);
    rms := m.root(sum / (2 * hop) as real);
  }

  /** `compute_rms_records`: None as soon as a record is not finite. */
  method ComputeRecords(m: Mixer, audio: Spool<Word>, hop: nat) returns (records: Option<Spool<real>>)
    requires hop > 0
    ensures records.Some? <==> |audio.samples| > 0 && AllFinite(m, Records(m, audio.samples, hop))
    ensures records.Some? ==> fresh(records.value) && records.value.samples == Records(m, audio.samples, hop)
  {
    if |audio.samples| == 0 { return None; }
    ghost var all := Records(m, audio.samples, hop);
    var spool := new Spool<real>();
    var frames := |audio.samples| / hop + 1;
    var index := 0;
    while index < frames
      invariant 0 <= index <= frames && spool.samples == all[..index] && AllFinite(m, spool.samples)
    {
      var rms := OneRecord(m, audio, hop, index);
      assert all[index] == rms;
      if !m.finite(rms) { return None; }
      spool.Append([rms]);
      index := index + 1;
    }
    assert all[..frames] == all;
    records := Some(spool);
  }

  // ---------------------------------------------------------------- the cursor

  /** An envelope read sample by sample; the two records around the last position are kept. */
  class EnvelopeCursor {
    const mixer: Mixer
    const records: Spool<real>
    const length: nat
    var first: Option<nat>
    var cached: seq<real>

    constructor (mixer: Mixer, records: Spool<real>, length: nat)
      ensures Valid() && this.mixer == mixer && this.records == records && this.length == length
    {
      this.mixer, this.records, this.length, first, cached := mixer, records, length, None, [];
    }

    ghost predicate Valid()
      reads this, records
    {
      first.Some? ==>
        first.value < |records.samples| && cached
          == records.samples[first.value..Min(first.value + 2, |records.samples|)]
    }

    method Value(index: nat) returns (r: Option<real>)
      requires Valid() && |records.samples| > 0 && index < length
      modifies this
      ensures Valid()
      ensures var e := Envelope(records.samples, index, length); r == if mixer.finite(e) then Some(e) else None
    {
      var count := |records.samples|;
      var position := Position(index, length, count);
      var at := position.Floor;
      if first != Some(at) {
        var pair := records.Read(at, if at + 1 < count then 2 else 1);
        cached := pair.value;
        first := Some(at);
      }
      var right := if |cached| > 1 then cached[1] else cached[0];
      var e := Lerp(cached[0], right, position - at as real);
      r := if mixer.finite(e) then Some(e) else None;
    }
  }

  // ---------------------------------------------------------------- the output loop

  /** The two cursors of a run that follows the source, over complete records. */
  ghost predicate Following(m: Mixer, source: seq<Word>, output: seq<Word>, a: EnvelopeCursor, b: EnvelopeCursor)
    reads a, a.records, b, b.records
  {
    && a.Valid() && b.Valid() && a != b && a.mixer == b.mixer == m && a.length == b.length == |output|
    && a.records.samples == Records(m, source, SourceHop) && b.records.samples == Records(m, output, OutputHop)
  }

  /** all is the mixed output. */
  ghost predicate IsMix(all: seq<real>, m: Mixer, source: seq<Word>, output: seq<Word>) {
    |all| == |output| && forall k {:trigger Unseal(k)} :: Unseal(k) ==> all == Mixed(m, source, output)
  }

  /** One sample scaled by its two envelope values. */
  method ScaleOne(m: Mixer, ghost source: seq<Word>, ghost output: seq<Word>, ghost all: seq<real>, a: EnvelopeCursor,
                  b: EnvelopeCursor, index: nat, word: Word)
    returns (r: Option<real>)
    requires m.follow && index < |output| && word == output[index] && Following(m, source, output, a, b)
      && IsMix(all, m, source, output)
    modifies a, b
    ensures Following(m, source, output, a, b)
    ensures r == if SampleFinite(m, source, output, index) then Some(all[index]) else None
  {
    assert Unseal(0);
    var s := a.Value(index);
    if s.None? { return None; }
    assert b.Valid();
    var o := b.Value(index);
    if o.None? { return None; }
    assert MixedAt(m, source, output, index) == Scaled(m, word, s.value, o.value);
    var v := Scaled(m, word, s.value, o.value);
    r := if m.finite(v) then Some(v) else None;
  }

  lemma TakeOne(s: seq<real>, from: nat, to: nat)
    requires from <= to < |s|
    ensures s[from..to] + [s[to]] == s[from..to + 1]
  {
  }

  lemma FiniteMore(m: Mixer, source: seq<Word>, output: seq<Word>, from: nat, to: nat)
    requires to < |output| && PartFinite(m, source, output, from, to) && SampleFinite(m, source, output, to)
    ensures PartFinite(m, source, output, from, to + 1)
  {
  }

  /** The next part extends the finite ones; when it does not, the whole is not finite either. */
  lemma FiniteJoin(m: Mixer, source: seq<Word>, output: seq<Word>, mid: nat, to: nat)
    requires mid <= to <= |output| && PartFinite(m, source, output, 0, mid)
    ensures PartFinite(m, source, output, mid, to) <==> PartFinite(m, source, output, 0, to)
    ensures PartFinite(m, source, output, 0, |output|) ==> PartFinite(m, source, output, mid, to)
  {
  }

  /** One block of a run that follows the source. */
  method ScaleBlock(m: Mixer, ghost source: seq<Word>, ghost output: seq<Word>, ghost all: seq<real>, a: EnvelopeCursor,
                    b: EnvelopeCursor, offset: nat, words: seq<Word>)
    returns (block: Option<seq<real>>)
    requires m.follow && offset + |words| <= |output| && words == output[offset..offset + |words|]
    requires Following(m, source, output, a, b) && IsMix(all, m, source, output)
    modifies a, b
    ensures Following(m, source, output, a, b)
    ensures block.Some? ==> block.value == all[offset..offset + |words|]
    ensures block.Some? <==> PartFinite(m, source, output, offset, offset + |words|)
  {
    var out := [];
    var local := 0;
    while local < |words|
      invariant 0 <= local <= |words| && Following(m, source, output, a, b) && out == all[offset..offset + local]
      invariant PartFinite(m, source, output, offset, offset + local)
    {
      var v := ScaleOne(m, source, output, all, a, b, offset + local, words[local]);
      if v.None? { return None; }
      TakeOne(all, offset, offset + local);
      FiniteMore(m, source, output, offset, offset + local);
      out := out + [v.value];
      local := local + 1;
    }
    block := Some(out);
  }

  /** The samples as they are. */
  method PlainBlock(m: Mixer, ghost source: seq<Word>, ghost output: seq<Word>, ghost all: seq<real>, offset: nat,
                    words: seq<Word>)
    returns (block: seq<real>)
    requires !m.follow && offset + |words| <= |output| && words == output[offset..offset + |words|]
      && IsMix(all, m, source, output)
    ensures block == all[offset..offset + |words|]
  {
    assert Unseal(0);
    block := seq(|words|, i requires 0 <= i < |words| => m.value(words[i]));
  }

  /** The next block of output, with the cursors when the source is followed. */
  method NextBlock(m: Mixer, ghost source: seq<Word>, output: Spool<Word>, ghost all: seq<real>, a: EnvelopeCursor?,
                   b: EnvelopeCursor?, offset: nat, count: nat)
    returns (block: Option<seq<real>>)
    requires offset + count <= |output.samples| && Ready(m, source, output.samples, a, b)
      && IsMix(all, m, source, output.samples)
    modifies a, b
    ensures Ready(m, source, output.samples, a, b)
    ensures block.Some? ==> block.value == all[offset..offset + count]
    ensures m.follow ==> (block.Some? <==> PartFinite(m, source, output.samples, offset, offset + count))
    ensures !m.follow ==> block.Some?
  {
    var words := output.Read(offset, count);
    if m.follow {
      block := ScaleBlock(m, source, output.samples, all, a, b, offset, words.value);
    } else {
      var plain := PlainBlock(m, source, output.samples, all, offset, words.value);
      block := Some(plain);
    }
  }

  ghost predicate Ready(m: Mixer, source: seq<Word>, output: seq<Word>, a: EnvelopeCursor?, b: EnvelopeCursor?)
    reads a, if a == null then {} else {a.records}, b, if b == null then {} else {b.records}
  {
    m.follow ==> a != null && b != null && Following(m, source, output, a, b)
  }

  /** The writer has taken the first `count` samples of s, and nothing went wrong. */
  ghost predicate Taken(w: AtomicWavStreamWriter, s: seq<real>, count: nat)
    reads w, w.directory
  {
    && w.Valid() && w.active && !w.failed && w.expected == |s| && w.written == count <= |s|
    && w.pcm == EncodeAll(s[..count], false)
  }

  lemma EncodeMore(s: seq<real>, from: nat, to: nat)
    requires from <= to <= |s|
    ensures EncodeAll(s[..from], false) + EncodeAll(s[from..to], false) == EncodeAll(s[..to], false)
  {
  }

  /** Appending one block to the writer. */
  method TakeBlock(m: Mixer, ghost source: seq<Word>, ghost output: seq<Word>, ghost all: seq<real>,
                   writer: AtomicWavStreamWriter, block: seq<real>, offset: nat)
    returns (ok: bool)
    requires writer.codec.finite == m.finite && |block| > 0 && offset + |block| <= |output|
      && IsMix(all, m, source, output)
    requires Taken(writer, all, offset) && block == all[offset..offset + |block|]
    requires m.follow ==> PartFinite(m, source, output, offset, offset + |block|)
    modifies writer, writer.directory
    ensures KeepsRest(old(writer.directory.files), writer.directory.files, writer.staging) && writer.Valid()
      && writer.active
    ensures writer.staging == old(writer.staging) && writer.target == old(writer.target)
      && writer.rate == old(writer.rate)
    ensures ok ==> Taken(writer, all, offset + |block|) && PartFinite(m, source, output, offset, offset + |block|)
    ensures !ok ==> writer.directory.mayFail || !PartFinite(m, source, output, offset, offset + |block|)
  {
    ok := writer.Append(block, false);
    EncodeMore(all, offset, offset + |block|);
    BlockFinite(m, source, output, all, offset, block);
  }

  lemma BlockFinite(m: Mixer, source: seq<Word>, output: seq<Word>, all: seq<real>, offset: nat, block: seq<real>)
    requires offset + |block| <= |output| && IsMix(all, m, source, output) && block == all[offset..offset + |block|]
    ensures PartFinite(m, source, output, offset, offset + |block|) ==> AllFinite(m, block)
    ensures !m.follow && AllFinite(m, block) ==> PartFinite(m, source, output, offset, offset + |block|)
  {
    assert Unseal(0);
    forall i: nat | i < |block| ensures SampleFinite(m, source, output, offset + i) ==> m.finite(block[i]) {
      FiniteSample(m, source, output, offset + i);
    }
    if !m.follow && AllFinite(m, block) {
      forall i: nat | offset <= i < offset + |block| ensures SampleFinite(m, source, output, i) {
        FiniteSample(m, source, output, i);
        assert block[i - offset] == Mixed(m, source, output)[i];
      }
    }
  }

  /** The two cursors, over freshly computed records. */
  method OpenCursors(m: Mixer, source: Spool<Word>, output: Spool<Word>)
    returns (ok: bool, a: EnvelopeCursor?, b: EnvelopeCursor?)
    ensures ok ==> Ready(m, source.samples, output.samples, a, b)
    ensures a != null ==> fresh(a) && fresh(a.records)
    ensures b != null ==> fresh(b) && fresh(b.records)
    ensures ok <==> (m.follow ==>
      && |source.samples| > 0 && |output.samples| > 0
      && AllFinite(m, Records(m, source.samples, SourceHop)) && AllFinite(m, Records(m, output.samples, OutputHop)))
  {
    ok, a, b := true, null, null;
    if !m.follow { return; }
    var x := ComputeRecords(m, source, SourceHop);
    if x.None? { return false, null, null; }
    var y := ComputeRecords(m, output, OutputHop);
    if y.None? { return false, null, null; }
    a := new EnvelopeCursor(m, x.value, |output.samples|);
    b := new EnvelopeCursor(m, y.value, |output.samples|);
  }

  /** The first `offset` samples are with the writer. */
  ghost predicate Writing(m: Mixer, source: seq<Word>, output: seq<Word>, all: seq<real>, a: EnvelopeCursor?,
                          b: EnvelopeCursor?, w: AtomicWavStreamWriter, offset: nat)
    reads a, if a == null then {} else {a.records}, b, if b == null then {} else {b.records}, w, w.directory
  {
    && IsMix(all, m, source, output) && Ready(m, source, output, a, b) && w.codec.finite == m.finite
    && Taken(w, all, offset) && PartFinite(m, source, output, 0, offset)
  }

  /** One turn of the output loop. */
  method WriteNext(m: Mixer, ghost source: seq<Word>, output: Spool<Word>, ghost all: seq<real>, a: EnvelopeCursor?,
                   b: EnvelopeCursor?, writer: AtomicWavStreamWriter, offset: nat)
    returns (ok: bool, next: nat)
    requires offset < |output.samples| && Writing(m, source, output.samples, all, a, b, writer, offset)
    modifies a, b, writer, writer.directory
    ensures KeepsRest(old(writer.directory.files), writer.directory.files, writer.staging) && writer.Valid()
      && writer.active
    ensures writer.staging == old(writer.staging) && writer.target == old(writer.target)
      && writer.rate == old(writer.rate)
    ensures ok ==> offset < next <= |output.samples| && Writing(m, source, output.samples, all, a, b, writer, next)
    ensures !ok ==> !PartFinite(m, source, output.samples, 0, |output.samples|) || writer.directory.mayFail
  {
    var count := Min(IoBlock, |output.samples| - offset);
    next := offset + count;
    ghost var out := output.samples;
    FiniteJoin(m, source, out, offset, next);
    var block := NextBlock(m, source, output, all, a, b, offset, count);
    assert Taken(writer, all, offset);
    if block.None? { return false, offset; }
    ok := TakeBlock(m, source, out, all, writer, block.value, offset);
    assert Ready(m, source, out, a, b);
  }

  /** `write_final_output`: the mixed samples, block by block, into a writer that expects as many. */
  method WriteFinalOutput(m: Mixer, source: Spool<Word>, output: Spool<Word>, writer: AtomicWavStreamWriter)
    returns (ok: bool)
    requires writer.codec.finite == m.finite && writer.Valid() && writer.active && !writer.failed && writer.written == 0
      && writer.pcm == []
    modifies writer, writer.directory
    ensures KeepsRest(old(writer.directory.files), writer.directory.files, writer.staging) && writer.Valid()
      && writer.active
    ensures writer.staging == old(writer.staging) && writer.target == old(writer.target)
      && writer.rate == old(writer.rate)
    ensures ok ==>
      && Mixable(m, source.samples, output.samples)
      && Taken(writer, Mixed(m, source.samples, output.samples), |output.samples|)
    ensures !ok ==>
      |output.samples| != old(writer.expected) || !Mixable(m, source.samples, output.samples)
        || writer.directory.mayFail
  {
    if |output.samples| != writer.expected { return false; }
    var a, b;
    ok, a, b := OpenCursors(m, source, output);
    if !ok { return; }
    ghost var all := MixOf(m, source.samples, output.samples);
    ghost var staging, files := writer.staging, writer.directory.files;
    assert all[..0] == [];
    var offset := 0;
    while offset < |output.samples|
      invariant 0 <= offset <= |output.samples| && Writing(m, source.samples, output.samples, all, a, b, writer, offset)
      invariant KeepsRest(files, writer.directory.files, staging)
      invariant writer.staging == staging && writer.target == old(writer.target) && writer.rate == old(writer.rate)
      decreases |output.samples| - offset
    {
      ok, offset := WriteNext(m, source.samples, output, all, a, b, writer, offset);
      if !ok { return; }
    }
    ok := true;
    assert Unseal(0);
  }

  lemma MixOf(m: Mixer, source: seq<Word>, output: seq<Word>) returns (all: seq<real>)
    ensures IsMix(all, m, source, output)
  {
    all := Mixed(m, source, output);
  }
}
