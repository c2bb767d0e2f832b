/** The zero-phase high-pass: over whole arrays, and streamed forward through a shift register, backward
    over blocks read from the end and out over reversed blocks. Samples are real numbers. */
module Highpass {
  import opened Spools

  /** A five-pole filter: what the current sample adds, what the samples j places back add, the
      narrowing of results to float, and what counts as finite. */
  datatype Filter = Filter(direct: real -> real, tap: (nat, real, real) -> real, narrow: real -> real,
                           finite: real -> bool)

  const Order: nat := 5
  const Pad: nat := 18

  /** Silence adds nothing. */
  ghost predicate ValidFilter(f: Filter) { forall j: nat :: f.tap(j, 0.0, 0.0) == 0.0 }

  /** The difference equation with taps b and a. */
  function Linear(b: seq<real>, a: seq<real>, narrow: real -> real, finite: real -> bool): Filter
    requires |b| == Order + 1 && |a| == Order + 1
  {
    Filter(x => b[0] * x, (j: nat, x, y) => if 1 <= j <= Order then b[j] * x - a[j] * y else 0.0, narrow, finite)
  }

  /** The 48 Hz Butterworth filter at 16 kHz. */
  function Butterworth(narrow: real -> real, finite: real -> bool): (f: Filter)
    ensures ValidFilter(f)
  {
    Linear([0.96996064518, -4.8498032259, 9.6996064518, -9.6996064518, 4.8498032259, -0.96996064518],
           [1.0, -4.9390018192, 9.7578635267, -9.6395448494, 4.7615067974, -0.94082365321], narrow, finite)
  }

  // ---------------------------------------------------------------- one filter pass

  /** One term of the difference equation; nothing before the start of the signal. */
  function Term(f: Filter, input: seq<real>, output: seq<real>, i: nat, j: nat): real
    requires i < |input| && i <= |output| && 1 <= j <= Order
  {
    if i >= j then f.tap(j, input[i - j], output[i - j]) else 0.0
  }

  /** The sum of the first j terms behind the direct one. */
  function Terms(f: Filter, input: seq<real>, output: seq<real>, i: nat, j: nat): real
    requires i < |input| && i <= |output| && j <= Order
  {
    if j == 0 then f.direct(input[i]) else Terms(f, input, output, i, j - 1) + Term(f, input, output, i, j)
  }

  /** The filtered signal: each sample by the difference equation from the ones before. */
  function Iir(f: Filter, input: seq<real>): (output: seq<real>)
    ensures |output| == |input|
  {
    if |input| == 0 then []
    else
      var before := Iir(f, input[..|input| - 1]);
      before + [Terms(f, input, before, |input| - 1, Order)]
  }

  lemma TermsOfPrefix(f: Filter, input: seq<real>, longer: seq<real>, output: seq<real>, more: seq<real>, i: nat,
                      j: nat)
    requires i < |input| && i <= |output| && j <= Order
    requires input <= longer && output <= more
    ensures Terms(f, longer, more, i, j) == Terms(f, input, output, i, j)
  {
    if j > 0 { TermsOfPrefix(f, input, longer, output, more, i, j - 1); }
  }

  /** Filtering is causal: the start of the signal decides the start of the result. */
  lemma {:induction false} IirPrefix(f: Filter, input: seq<real>, n: nat)
    requires n <= |input|
    ensures Iir(f, input)[..n] == Iir(f, input[..n])
  {
    if n < |input| {
      IirPrefix(f, input[..|input| - 1], n);
      assert input[..|input| - 1][..n] == input[..n];
    } else {
      assert input[..n] == input;
    }
  }

  /** The `iir` lambda: guarded sums over whole arrays. */
  method FilterArray(f: Filter, input: seq<real>) returns (output: seq<real>)
    ensures output == Iir(f, input)
  {
    output := [];
    var i := 0;
    while i < |input|
      invariant 0 <= i <= |input| && output == Iir(f, input[..i])
    {
      var acc := f.direct(input[i]);
      var j: nat := 1;
      while j < 6
        invariant 1 <= j <= 6 && acc == Terms(f, input, output, i, j - 1)
      {
        if i - j >= 0 { acc := acc + f.tap(j, input[i - j], output[i - j]); }
        j := j + 1;
      }
      NextSample(f, input, i, output);
      output := output + [acc];
      i := i + 1;
    }
    assert input[..|input|] == input;
  }

  lemma NextSample(f: Filter, input: seq<real>, i: nat, output: seq<real>)
    requires i < |input| && output == Iir(f, input[..i])
    ensures Iir(f, input[..i + 1]) == output + [Terms(f, input, output, i, Order)]
  {
    var head := input[..i + 1];
    assert head[..i] == input[..i];
    TermsOfPrefix(f, head, input, output, output, i, Order);
  }

  // ---------------------------------------------------------------- the shift register

  /** The sample k places back, zero before the start. */
  function Past(s: seq<real>, k: nat): real { if k < |s| then s[|s| - 1 - k] else 0.0 }

  class IirState {
    const filter: Filter
    const inputs: array<real>
    const outputs: array<real>
    ghost var fed: seq<real>

    constructor (filter: Filter)
      requires ValidFilter(filter)
      ensures Valid() && fed == [] && this.filter == filter && fresh(inputs) && fresh(outputs)
    {
      this.filter := filter;
      inputs := new real[Order](_ => 0.0);
      outputs := new real[Order](_ => 0.0);
      fed := [];
    }

    /** The registers hold the last five samples in and out. */
    ghost predicate Valid()
      reads this, inputs, outputs
    {
      && ValidFilter(filter) && inputs != outputs && inputs.Length == Order && outputs.Length == Order
      && (forall k :: 0 <= k < Order ==> inputs[k] == Past(fed, k))
      && (forall k :: 0 <= k < Order ==> outputs[k] == Past(Iir(filter, fed), k))
    }

    /** The next output sample. */
    method Process(input: real) returns (output: real)
      requires Valid()
      modifies this, inputs, outputs
      ensures Valid() && fed == old(fed) + [input]
      ensures Iir(filter, fed) == Iir(filter, old(fed)) + [output]
    {
      ghost var signal, before := fed + [input], Iir(filter, fed);
      assert signal[..|fed|] == fed;
      output := filter.direct(input);
      var order: nat := 1;
      while order <= Order
        invariant 1 <= order <= Order + 1 && output == Terms(filter, signal, before, |fed|, order - 1)
        modifies {}
      {
        PastTerm(filter, fed, input, before, order);
        output := output + filter.tap(order, inputs[order - 1], outputs[order - 1]);
        order := order + 1;
      }
      Shift(inputs, input);
      Shift(outputs, output);
      PastMore(fed, input);
      PastMore(before, output);
      fed := signal;
    }
  }

  /** A term read from the registers is the term of the difference equation. */
  lemma PastTerm(f: Filter, fed: seq<real>, input: real, filtered: seq<real>, j: nat)
    requires ValidFilter(f) && 1 <= j <= Order && |filtered| == |fed|
    ensures f.tap(j, Past(fed, j - 1), Past(filtered, j - 1)) == Term(f, fed + [input], filtered, |fed|, j)
  {
    if |fed| >= j {
      assert (fed + [input])[|fed| - j] == fed[|fed| - j];
    } else {
      assert f.tap(j, 0.0, 0.0) == 0.0;
    }
  }

  lemma PastMore(s: seq<real>, x: real)
    ensures Past(s + [x], 0) == x
    ensures forall k: nat :: k > 0 ==> Past(s + [x], k) == Past(s, k - 1)
  {
  }

  /** One register moves up by one place and takes a new first value. */
  method Shift(history: array<real>, value: real)
    requires history.Length == Order
    modifies history
    ensures history[0] == value
    ensures forall k :: 0 < k < Order ==> history[k] == old(history[k - 1])
  {
    var index := Order - 1;
    while index > 0
      invariant 0 <= index < Order
      invariant forall k :: 0 <= k <= index ==> history[k] == old(history[k])
      invariant forall k :: index < k < Order ==> history[k] == old(history[k - 1])
    {
      history[index] := history[index - 1];
      index := index - 1;
    }
    history[0] := value;
  }

  // ---------------------------------------------------------------- the whole-array filter

  /** The odd reflection of both ends around the clip. */
  function Extended(x: seq<real>): (e: seq<real>)
    requires |x| > Pad
    ensures |e| == |x| + 2 * Pad
  {
    seq(|x| + 2 * Pad, i requires 0 <= i < |x| + 2 * Pad =>
      if i < Pad then 2.0 * x[0] - x[Pad - i]
      else if i < Pad + |x| then x[i - Pad]
      else 2.0 * x[|x| - 1] - x[|x| - 2 - (i - Pad - |x|)])
  }

  function Forward(f: Filter, x: seq<real>): (y: seq<real>)
    requires |x| > Pad
    ensures |y| == |x| + 2 * Pad
  {
    Iir(f, Extended(x))
  }

  /** The second pass, in the order it is computed: from the end of the signal to its start. */
  function Backward(f: Filter, x: seq<real>): (y: seq<real>)
    requires |x| > Pad
    ensures |y| == |x| + 2 * Pad
  {
    Iir(f, Reverse(Forward(f, x)))
  }

  /** The zero-phase result; clips under 40 samples are left alone. */
  function ZeroPhase(f: Filter, x: seq<real>): (y: seq<real>)
    ensures |y| == |x|
  {
    if |x| < 40 then x
    else seq(|x|, i requires 0 <= i < |x| => f.narrow(Reverse(Backward(f, x))[Pad + i]))
  }

  // ---------------------------------------------------------------- what the passes and the padding are

  /** c[0] s[i] + c[1] s[i - 1] + ... + c[j] s[i - j], with silence before the start. */
  function Taps(c: seq<real>, s: seq<real>, i: nat, j: nat): real
    requires j < |c| && i < |s|
  {
    (if j <= i then c[j] * s[i - j] else 0.0) + if j == 0 then 0.0 else Taps(c, s, i, j - 1)
  }

  /** y answers x by the difference equation with numerator b and denominator a. */
  predicate Answers(b: seq<real>, a: seq<real>, x: seq<real>, y: seq<real>)
    requires |b| == Order + 1 && |a| == Order + 1
  {
    |y| == |x| && forall i: nat :: i < |x| ==> AnswersAt(b, a, x, y, i)
  }

  predicate AnswersAt(b: seq<real>, a: seq<real>, x: seq<real>, y: seq<real>, i: nat)
    requires |b| == Order + 1 && |a| == Order + 1 && i < |x| == |y|
  {
    Taps(a, y, i, Order) == Taps(b, x, i, Order)
  }

  lemma TapsOf(c: seq<real>, s: seq<real>, longer: seq<real>, i: nat, j: nat)
    requires j < |c| && i < |s| && s <= longer
    ensures Taps(c, longer, i, j) == Taps(c, s, i, j)
  {
    if j > 0 { TapsOf(c, s, longer, i, j - 1); }
  }

  /** The taps behind the first one do not see the current sample. */
  lemma TapsSplit(c: seq<real>, s: seq<real>, t: seq<real>, i: nat, j: nat)
    requires j < |c| && i < |s| && i < |t| && s[..i] == t[..i]
    ensures Taps(c, s, i, j) - c[0] * s[i] == Taps(c, t, i, j) - c[0] * t[i]
  {
    if j > 0 {
      TapsSplit(c, s, t, i, j - 1);
      if j <= i { assert s[..i][i - j] == t[..i][i - j]; }
    }
  }

  lemma {:induction false} LinearTerms(b: seq<real>, a: seq<real>, narrow: real -> real, finite: real -> bool,
                                       input: seq<real>, output: seq<real>, i: nat, j: nat)
    requires |b| == Order + 1 && |a| == Order + 1 && i < |input| && i < |output| && j <= Order
    ensures Terms(Linear(b, a, narrow, finite), input, output, i, j)
      == Taps(b, input, i, j) - (Taps(a, output, i, j) - a[0] * output[i])
  {
    if j > 0 { LinearTerms(b, a, narrow, finite, input, output, i, j - 1); }
  }

  /** A filter pass is the one answer to its input: the sums over the last six samples in and out agree at every
      sample, and no other sequence does that. */
  lemma {:induction false} PassAnswers(b: seq<real>, a: seq<real>, narrow: real -> real, finite: real -> bool,
                                       x: seq<real>, y: seq<real>)
    requires |b| == Order + 1 && |a| == Order + 1 && a[0] == 1.0
    ensures Answers(b, a, x, y) <==> y == Iir(Linear(b, a, narrow, finite), x)
    decreases |x|
  {
    if |x| > 0 && |y| == |x| {
      var n := |x| - 1;
      PassAnswers(b, a, narrow, finite, x[..n], y[..n]);
      LastAnswers(b, a, x, y);
      LastSample(b, a, narrow, finite, x, y);
    }
  }

  /** The last sample is the pass's exactly when it answers. */
  lemma {:induction false} LastSample(b: seq<real>, a: seq<real>, narrow: real -> real, finite: real -> bool,
                                      x: seq<real>, y: seq<real>)
    requires |b| == Order + 1 && |a| == Order + 1 && a[0] == 1.0 && |x| == |y| > 0
    ensures var n, f := |x| - 1, Linear(b, a, narrow, finite);
      y == Iir(f, x) <==> y[..n] == Iir(f, x[..n]) && AnswersAt(b, a, x, y, n)
  {
    var n, f := |x| - 1, Linear(b, a, narrow, finite);
    var before := Iir(f, x[..n]);
    LinearTerms(b, a, narrow, finite, x, y, n, Order);
    TermsOfPrefix(f, x, x, y[..n], y, n, Order);
    assert AnswersAt(b, a, x, y, n) <==> y[n] == Terms(f, x, y[..n], n, Order);
    SameEnds(y, Iir(f, x), before, Terms(f, x, before, n, Order));
  }

  lemma SameEnds(y: seq<real>, z: seq<real>, before: seq<real>, last: real)
    requires z == before + [last] && |y| == |z|
    ensures y == z <==> y[..|before|] == before && y[|before|] == last
  {
    assert y == y[..|before|] + [y[|before|]];
  }

  lemma {:induction false} LastAnswers(b: seq<real>, a: seq<real>, x: seq<real>, y: seq<real>)
    requires |b| == Order + 1 && |a| == Order + 1 && |x| == |y| > 0
    ensures var n := |x| - 1; Answers(b, a, x, y) <==> Answers(b, a, x[..n], y[..n]) && AnswersAt(b, a, x, y, n)
  {
    var n := |x| - 1;
    forall i: nat | i < n ensures AnswersAt(b, a, x, y, i) <==> AnswersAt(b, a, x[..n], y[..n], i) {
      TapsOf(a, y[..n], y, i, Order);
      TapsOf(b, x[..n], x, i, Order);
    }
  }

  /** e is the clip with both ends turned about their last samples: each end sample is the middle between the sample
      that far inside and the one that far outside. */
  predicate OddlyExtends(e: seq<real>, x: seq<real>)
    requires |x| > Pad
  {
    && |e| == |x| + 2 * Pad && e[Pad..Pad + |x|] == x
    && forall d: nat :: d <= Pad ==> OddEnds(e, |x|, d)
  }

  /** The same number of samples d inside and outside both ends of the clip. */
  predicate OddEnds(e: seq<real>, n: nat, d: nat)
    requires d <= Pad < n && |e| == n + 2 * Pad
  {
    OddAt(e, Pad, d) && OddAt(e, Pad + n - 1, d)
  }

  /** The sample at p is the middle of those d before and d behind it. */
  predicate OddAt(e: seq<real>, p: nat, d: nat)
    requires d <= p && p + d < |e|
  {
    e[p - d] + e[p + d] == 2.0 * e[p]
  }

  /** What the filter is fed is that and nothing else. */
  lemma ExtendedIsOdd(x: seq<real>, e: seq<real>)
    requires |x| > Pad
    ensures OddlyExtends(e, x) <==> e == Extended(x)
  {
    var f := Extended(x);
    assert f[Pad..Pad + |x|] == x;
    forall d: nat | d <= Pad ensures OddEnds(f, |x|, d) { ExtendedOddAt(x, d); }
    if OddlyExtends(e, x) {
      forall i | 0 <= i < |e| ensures e[i] == f[i] { OddDecides(e, f, x, i); }
    }
  }

  lemma ExtendedOddAt(x: seq<real>, d: nat)
    requires |x| > Pad >= d
    ensures OddEnds(Extended(x), |x|, d)
  {
  }

  /** An odd extension has no choice. */
  lemma OddDecides(e: seq<real>, f: seq<real>, x: seq<real>, i: nat)
    requires |x| > Pad && OddlyExtends(e, x) && OddlyExtends(f, x) && i < |e|
    ensures e[i] == f[i]
  {
    if i < Pad {
      var d: nat := Pad - i;
      assert OddEnds(e, |x|, d) && OddEnds(f, |x|, d);
      assert e[Pad..Pad + |x|][d] == f[Pad..Pad + |x|][d] && e[Pad..Pad + |x|][0] == f[Pad..Pad + |x|][0];
    } else if i >= Pad + |x| {
      var d: nat := i - (Pad + |x| - 1);
      assert OddEnds(e, |x|, d) && OddEnds(f, |x|, d);
      var k := |x| - 1 - d;
      assert e[Pad..Pad + |x|][k] == f[Pad..Pad + |x|][k];
      assert e[Pad..Pad + |x|][|x| - 1] == f[Pad..Pad + |x|][|x| - 1];
    } else {
      assert e[Pad..Pad + |x|][i - Pad] == f[Pad..Pad + |x|][i - Pad];
    }
  }

  predicate Mirrored(s: seq<real>, t: seq<real>) { |s| == |t| && forall i :: 0 <= i < |s| ==> s[i] == t[|s| - 1 - i] }

  /** The result, without naming a pass: the oddly extended clip, the answer to it, the answer to that from its end to
      its start, and of this, turned round again, the part at the clip. */
  ghost predicate TwicePassed(b: seq<real>, a: seq<real>, narrow: real -> real, x: seq<real>, r: seq<real>)
    requires |b| == Order + 1 && |a| == Order + 1 && |x| > Pad
  {
    exists e, y, u, w ::
      OddlyExtends(e, x) && Answers(b, a, e, y) && Mirrored(u, y) && Answers(b, a, u, w) && CutFrom(narrow, w, r)
  }

  /** r is w from its end to its start, without the padding, narrowed. */
  predicate CutFrom(narrow: real -> real, w: seq<real>, r: seq<real>) {
    |w| == |r| + 2 * Pad && forall k :: 0 <= k < |r| ==> r[k] == narrow(w[|w| - 1 - Pad - k])
  }

  /** A clip of 40 samples or more becomes exactly the twice passed one; a shorter one stays. */
  lemma ZeroPhaseIs(b: seq<real>, a: seq<real>, narrow: real -> real, finite: real -> bool, x: seq<real>, r: seq<real>)
    requires |b| == Order + 1 && |a| == Order + 1 && a[0] == 1.0
    ensures |x| >= 40 ==> (r == ZeroPhase(Linear(b, a, narrow, finite), x) <==> TwicePassed(b, a, narrow, x, r))
    ensures |x| < 40 ==> ZeroPhase(Linear(b, a, narrow, finite), x) == x
  {
    if |x| >= 40 {
      if r == ZeroPhase(Linear(b, a, narrow, finite), x) { PassedTwice(b, a, narrow, finite, x, r); }
      if TwicePassed(b, a, narrow, x, r) {
        var e, y, u, w :| OddlyExtends(e, x) && Answers(b, a, e, y) && Mirrored(u, y) && Answers(b, a, u, w)
          && CutFrom(narrow, w, r);
        OnlyPassed(b, a, narrow, finite, x, e, y, u, w, r);
      }
    }
  }

  lemma OnlyPassed(b: seq<real>, a: seq<real>, narrow: real -> real, finite: real -> bool, x: seq<real>,
                   e: seq<real>, y: seq<real>, u: seq<real>, w: seq<real>, r: seq<real>)
    requires |b| == Order + 1 && |a| == Order + 1 && a[0] == 1.0 && |x| >= 40
    requires OddlyExtends(e, x) && Answers(b, a, e, y) && Mirrored(u, y) && Answers(b, a, u, w) && CutFrom(narrow, w, r)
    ensures r == ZeroPhase(Linear(b, a, narrow, finite), x)
  {
    var f := Linear(b, a, narrow, finite);
    ExtendedIsOdd(x, e);
    PassAnswers(b, a, narrow, finite, e, y);
    assert u == Reverse(y);
    PassAnswers(b, a, narrow, finite, u, w);
    assert w == Backward(f, x);
    forall k | 0 <= k < |x| ensures r[k] == ZeroPhase(f, x)[k] {
      assert Reverse(w)[Pad + k] == w[|w| - 1 - (Pad + k)];
    }
  }

  lemma PassedTwice(b: seq<real>, a: seq<real>, narrow: real -> real, finite: real -> bool, x: seq<real>, r: seq<real>)
    requires |b| == Order + 1 && |a| == Order + 1 && a[0] == 1.0 && |x| >= 40
    requires r == ZeroPhase(Linear(b, a, narrow, finite), x)
    ensures TwicePassed(b, a, narrow, x, r)
  {
    var f := Linear(b, a, narrow, finite);
    var e, y := Extended(x), Forward(f, x);
    var u, w := Reverse(y), Backward(f, x);
    ExtendedIsOdd(x, e);
    PassAnswers(b, a, narrow, finite, e, y);
    PassAnswers(b, a, narrow, finite, u, w);
    assert Mirrored(u, y);
    forall k | 0 <= k < |x| ensures r[k] == narrow(w[|w| - 1 - Pad - k]) {
      assert Reverse(w)[Pad + k] == w[|w| - 1 - (Pad + k)];
    }
    assert CutFrom(narrow, w, r);
  }

  /** `highpass_filtfilt`: in place on the clip. */
  method HighpassFiltfilt(f: Filter, x: array<real>)
    modifies x
    ensures x[..] == ZeroPhase(f, old(x[..]))
  {
    ghost var was := x[..];
    var n := x.Length;
    if n < 40 { return; }
    var ext := ExtendArray(x[..]);
    var fwd := FilterArray(f, ext);
    fwd := Reverse(fwd);
    var bwd := FilterArray(f, fwd);
    bwd := Reverse(bwd);
    var i := 0;
    while i < n
      invariant 0 <= i <= n
      invariant forall k :: 0 <= k < i ==> x[k] == f.narrow(bwd[Pad + k])
    {
      x[i] := f.narrow(bwd[Pad + i]);
      i := i + 1;
    }
    assert bwd == Reverse(Backward(f, was));
    forall k | 0 <= k < n ensures x[..][k] == ZeroPhase(f, was)[k] {}
  }

  method ExtendArray(x: seq<real>) returns (ext: seq<real>)
    requires |x| > Pad
    ensures ext == Extended(x)
  {
    ext := [];
    var i := 0;
    while i < Pad
      invariant 0 <= i <= Pad && ext == Extended(x)[..i]
    {
      ext := ext + [2.0 * x[0] - x[Pad - i]];
      i := i + 1;
    }
    ext := ext + x;
    assert ext == Extended(x)[..Pad + |x|];
    i := 0;
    while i < Pad
      invariant 0 <= i <= Pad && ext == Extended(x)[..Pad + |x| + i]
    {
      ext := ext + [2.0 * x[|x| - 1] - x[|x| - 2 - i]];
      i := i + 1;
    }
  }

  // ---------------------------------------------------------------- blocks on their way to a spool

  /** Values collected in a block and flushed to the spool whenever it is full. */
  class BlockWriter {
    const spool: Spool<real>
    var block: seq<real>

    constructor (spool: Spool<real>)
      ensures this.spool == spool && block == []
    {
      this.spool, block := spool, [];
    }

    ghost function Contents(): seq<real>
      reads this, spool
    {
      spool.samples + block
    }

    method Push(value: real)
      requires |block| < IoBlock
      modifies this, spool
      ensures |block| < IoBlock && Contents() == old(Contents()) + [value]
    {
      block := block + [value];
      if |block| == IoBlock {
        spool.Append(block);
        block := [];
      }
    }

    method Flush()
      modifies this, spool
      ensures block == [] && spool.samples == old(Contents())
    {
      if |block| > 0 { spool.Append(block); }
      block := [];
    }
  }

  predicate AllFinite(f: Filter, s: seq<real>) { forall i :: 0 <= i < |s| ==> f.finite(s[i]) }

  /** A filter pass with its output on the way to a spool: everything fed so far has been filtered and written. */
  ghost predicate Passing(state: IirState, w: BlockWriter, fed: seq<real>)
    reads state, state.inputs, state.outputs, w, w.spool
  {
    && state.Valid() && state.fed == fed && |w.block| < IoBlock
    && w.Contents() == Iir(state.filter, fed) && AllFinite(state.filter, w.Contents())
  }

  function Parts(state: IirState, w: BlockWriter): set<object>
  {
    {state, state.inputs, state.outputs, w, w.spool}
  }

  /** One sample through the filter; false when the result is not finite. */
  method PushSample(state: IirState, w: BlockWriter, input: real, ghost fed: seq<real>) returns (ok: bool)
    requires Passing(state, w, fed) && w !in {state, state.inputs, state.outputs}
      && w.spool !in {state, state.inputs, state.outputs, w}
    modifies Parts(state, w)
    ensures ok ==> Passing(state, w, fed + [input])
    ensures !ok ==> !AllFinite(state.filter, Iir(state.filter, fed + [input]))
  {
    var output := state.Process(input);
    if !state.filter.finite(output) {
      assert Iir(state.filter, fed + [input])[|fed|] == output;
      return false;
    }
    w.Push(output);
    ok := true;
  }

  lemma PrefixFinite(f: Filter, fed: seq<real>, all: seq<real>)
    requires fed <= all && !AllFinite(f, Iir(f, fed))
    ensures !AllFinite(f, Iir(f, all))
  {
    IirPrefix(f, all, |fed|);
    assert all[..|fed|] == fed;
    var i :| 0 <= i < |fed| && !f.finite(Iir(f, fed)[i]);
    assert Iir(f, all)[..|fed|][i] == Iir(f, fed)[i];
  }

  /** Filter and writer are separate objects. */
  ghost predicate Apart(state: IirState, w: BlockWriter) {
    w !in {state, state.inputs, state.outputs} && w.spool !in {state, state.inputs, state.outputs, w}
  }

  /** A run of samples through the filter, one by one. */
  method PushAll(state: IirState, w: BlockWriter, values: seq<real>, ghost fed: seq<real>) returns (ok: bool)
    requires Passing(state, w, fed) && Apart(state, w)
    modifies Parts(state, w)
    ensures ok ==> Passing(state, w, fed + values)
    ensures !ok ==> !AllFinite(state.filter, Iir(state.filter, fed + values))
  {
    var i := 0;
    assert fed + values[..0] == fed;
    while i < |values|
      invariant 0 <= i <= |values| && Passing(state, w, fed + values[..i])
    {
      ghost var now := fed + values[..i];
      assert now + [values[i]] == fed + values[..i + 1];
      ok := PushSample(state, w, values[i], now);
      if !ok {
        PrefixFinite(state.filter, fed + values[..i + 1], fed + values);
        return;
      }
      i := i + 1;
    }
    assert values[..|values|] == values;
    ok := true;
  }

  // ---------------------------------------------------------------- the forward pass

  /** The reflected samples before the clip. */
  method PushHead(state: IirState, w: BlockWriter, first: seq<real>, ghost x: seq<real>) returns (ok: bool)
    requires Passing(state, w, []) && Apart(state, w) && |x| > Pad && first == x[..Pad + 1]
    modifies Parts(state, w)
    ensures ok ==> Passing(state, w, Extended(x)[..Pad])
    ensures !ok ==> !AllFinite(state.filter, Forward(state.filter, x))
  {
    var index := 0;
    assert Extended(x)[..0] == [];
    while index < Pad
      invariant 0 <= index <= Pad && Passing(state, w, Extended(x)[..index])
    {
      assert Extended(x)[..index + 1] == Extended(x)[..index] + [2.0 * first[0] - first[Pad - index]];
      ok := PushSample(state, w, 2.0 * first[0] - first[Pad - index], Extended(x)[..index]);
      if !ok {
        PrefixFinite(state.filter, Extended(x)[..index + 1], Extended(x));
        return;
      }
      index := index + 1;
    }
    ok := true;
  }

  lemma Fed(x: seq<real>, offset: nat, count: nat)
    requires |x| > Pad && offset + count <= |x|
    ensures Extended(x)[..Pad + offset] + x[offset..offset + count] == Extended(x)[..Pad + (offset + count)]
  {
  }

  /** The clip itself, block by block. */
  method PushClip(state: IirState, w: BlockWriter, source: Spool<real>, ghost x: seq<real>) returns (ok: bool)
    requires |x| > Pad && source.samples == x && Passing(state, w, Extended(x)[..Pad]) && Apart(state, w)
    requires source !in Parts(state, w)
    modifies Parts(state, w)
    ensures ok ==> Passing(state, w, Extended(x)[..Pad + |x|])
    ensures !ok ==> !AllFinite(state.filter, Forward(state.filter, x))
  {
    var offset := 0;
    while offset < |source.samples|
      invariant source.samples == x && 0 <= offset <= |x| && Passing(state, w, Extended(x)[..Pad + offset])
    {
      var count := Min(IoBlock, |source.samples| - offset);
      var block := source.Read(offset, count);
      ghost var fed := Extended(x)[..Pad + offset];
      Fed(x, offset, count);
      ok := PushAll(state, w, block.value, fed);
      if !ok {
        PrefixFinite(state.filter, fed + block.value, Extended(x));
        return;
      }
      offset := offset + count;
    }
    ok := true;
  }

  /** The reflected samples behind the clip. */
  method PushTail(state: IirState, w: BlockWriter, last: seq<real>, ghost x: seq<real>) returns (ok: bool)
    requires |x| > Pad && last == x[|x| - (Pad + 1)..] && Passing(state, w, Extended(x)[..Pad + |x|]) && Apart(state, w)
    modifies Parts(state, w)
    ensures ok ==> Passing(state, w, Extended(x))
    ensures !ok ==> !AllFinite(state.filter, Forward(state.filter, x))
  {
    var index := 0;
    while index < Pad
      invariant 0 <= index <= Pad && Passing(state, w, Extended(x)[..Pad + |x| + index])
    {
      ghost var fed := Extended(x)[..Pad + |x| + index];
      var value := 2.0 * last[Pad] - last[Pad - 1 - index];
      assert fed + [value] == Extended(x)[..Pad + |x| + (index + 1)];
      ok := PushSample(state, w, value, fed);
      if !ok {
        PrefixFinite(state.filter, fed + [value], Extended(x));
        return;
      }
      index := index + 1;
    }
    assert Extended(x)[..Pad + |x| + Pad] == Extended(x);
    ok := true;
  }

  method ForwardPass(f: Filter, source: Spool<real>) returns (forward: Option<Spool<real>>)
    requires ValidFilter(f) && |source.samples| >= 40
    ensures forward.Some? <==> AllFinite(f, Forward(f, source.samples))
    ensures forward.Some? ==> fresh(forward.value) && forward.value.samples == Forward(f, source.samples)
  {
    ghost var x := source.samples;
    var samples := |source.samples|;
    var first := source.Read(0, Pad + 1);
    var last := source.Read(samples - (Pad + 1), Pad + 1);
    var spool := new Spool<real>();
    var state := new IirState(f);
    var w := new BlockWriter(spool);
    var ok := PushHead(state, w, first.value, x);
    if !ok { return None; }
    ok := PushClip(state, w, source, x);
    if !ok { return None; }
    ok := PushTail(state, w, last.value, x);
    if !ok { return None; }
    w.Flush();
    forward := Some(spool);
  }

  // ---------------------------------------------------------------- the backward pass

  lemma ReversedBlock(s: seq<real>, first: nat, end: nat)
    requires first <= end <= |s|
    ensures Reverse(s)[..|s| - end] + Reverse(s[first..end]) == Reverse(s)[..|s| - first]
  {
  }

  method BackwardPass(f: Filter, forward: Spool<real>) returns (backward: Option<Spool<real>>)
    requires ValidFilter(f)
    ensures backward.Some? <==> AllFinite(f, Iir(f, Reverse(forward.samples)))
    ensures backward.Some? ==> fresh(backward.value) && backward.value.samples == Iir(f, Reverse(forward.samples))
  {
    ghost var y := forward.samples;
    var spool := new Spool<real>();
    var state := new IirState(f);
    var w := new BlockWriter(spool);
    var remaining := |forward.samples|;
    assert Reverse(y)[..0] == [];
    while remaining > 0
      invariant forward.samples == y && 0 <= remaining <= |y|
      invariant fresh(Parts(state, w)) && Apart(state, w) && state.filter == f && w.spool == spool
      invariant Passing(state, w, Reverse(y)[..|y| - remaining])
    {
      var count := Min(IoBlock, remaining);
      var firstIndex := remaining - count;
      var block := forward.Read(firstIndex, count);
      ghost var fed := Reverse(y)[..|y| - remaining];
      ReversedBlock(y, firstIndex, remaining);
      var ok := PushAll(state, w, Reverse(block.value), fed);
      if !ok {
        PrefixFinite(f, fed + Reverse(block.value), Reverse(y));
        return None;
      }
      remaining := remaining - count;
    }
    assert Reverse(y)[..|y|] == Reverse(y);
    w.Flush();
    backward := Some(spool);
  }

  // ---------------------------------------------------------------- the output

  /** One output block: read backwards, narrowed and checked. */
  method OutputBlock(f: Filter, backward: Spool<real>, lowest: nat, count: nat) returns (block: Option<seq<real>>)
    requires lowest + count <= |backward.samples|
    ensures var r := Reverse(backward.samples[lowest..lowest + count]); var all := Narrowed(f, r);
      block == if AllFinite(f, all) then Some(all) else None
  {
    var reversed := backward.Read(lowest, count);
    ghost var r := Reverse(backward.samples[lowest..lowest + count]);
    var converted := [];
    var index := 0;
    while index < count
      invariant 0 <= index <= count && converted == Narrowed(f, r)[..index] && AllFinite(f, converted)
    {
      var value := f.narrow(reversed.value[count - 1 - index]);
      assert value == Narrowed(f, r)[index];
      if !f.finite(value) { return None; }
      converted := converted + [value];
      index := index + 1;
    }
    assert Narrowed(f, r)[..count] == Narrowed(f, r);
    block := Some(converted);
  }

  function Narrowed(f: Filter, s: seq<real>): (r: seq<real>)
    ensures |r| == |s|
  {
    seq(|s|, i requires 0 <= i < |s| => f.narrow(s[i]))
  }

  lemma OutputSlice(f: Filter, x: seq<real>, offset: nat, count: nat)
    requires |x| >= 40 && offset + count <= |x|
    ensures var lowest := |x| + Pad - offset - count;
      && lowest + count <= |Backward(f, x)|
      && Narrowed(f, Reverse(Backward(f, x)[lowest..lowest + count])) == ZeroPhase(f, x)[offset..offset + count]
  {
    var lowest := |x| + Pad - offset - count;
    var part := Narrowed(f, Reverse(Backward(f, x)[lowest..lowest + count]));
    forall i: nat | i < count ensures part[i] == ZeroPhase(f, x)[offset + i] { OutputSample(f, x, offset, count, i); }
    assert part == ZeroPhase(f, x)[offset..offset + count];
  }

  lemma OutputSample(f: Filter, x: seq<real>, offset: nat, count: nat, i: nat)
    requires |x| >= 40 && offset + count <= |x| && i < count
    ensures var lowest := |x| + Pad - offset - count;
      && lowest + count <= |Backward(f, x)|
      && Narrowed(f, Reverse(Backward(f, x)[lowest..lowest + count]))[i] == ZeroPhase(f, x)[offset + i]
  {
    var y := Backward(f, x);
    var lowest := |x| + Pad - offset - count;
    assert Reverse(y[lowest..lowest + count])[i] == y[lowest + (count - 1 - i)];
    assert Reverse(y)[Pad + (offset + i)] == y[lowest + (count - 1 - i)];
  }

  lemma PartFinite(f: Filter, s: seq<real>, from: nat, to: nat)
    requires from <= to <= |s| && !AllFinite(f, s[from..to])
    ensures !AllFinite(f, s)
  {
    var i :| 0 <= i < to - from && !f.finite(s[from..to][i]);
    assert s[from + i] == s[from..to][i];
  }

  method OutputPass(f: Filter, backward: Spool<real>, ghost x: seq<real>, samples: nat)
    returns (filtered: Option<Spool<real>>)
    requires |x| >= 40 && samples == |x| && backward.samples == Backward(f, x)
    ensures filtered.Some? <==> AllFinite(f, ZeroPhase(f, x))
    ensures filtered.Some? ==> fresh(filtered.value) && filtered.value.samples == ZeroPhase(f, x)
  {
    var spool := new Spool<real>();
    var outputOffset := 0;
    ghost var all := ZeroPhase(f, x);
    while outputOffset < samples
      invariant 0 <= outputOffset <= samples && fresh(spool) && backward.samples == Backward(f, x)
      invariant spool.samples == all[..outputOffset] && AllFinite(f, spool.samples)
    {
      var count := Min(IoBlock, samples - outputOffset);
      var block := OutputAt(f, backward, x, samples, outputOffset, count, all);
      if block.None? {
        PartFinite(f, all, outputOffset, outputOffset + count);
        return None;
      }
      assert all[..outputOffset] + all[outputOffset..outputOffset + count] == all[..outputOffset + count];
      spool.Append(block.value);
      outputOffset := outputOffset + count;
    }
    assert all[..samples] == all;
    filtered := Some(spool);
  }

  /** One block of output, read from the end of the backward pass. */
  method OutputAt(f: Filter, backward: Spool<real>, ghost x: seq<real>, samples: nat, offset: nat, count: nat,
                  ghost all: seq<real>)
    returns (block: Option<seq<real>>)
    requires |x| >= 40 && samples == |x| && backward.samples == Backward(f, x) && all == ZeroPhase(f, x)
      && offset + count <= |all| && count > 0
    ensures block == if AllFinite(f, all[offset..offset + count]) then Some(all[offset..offset + count]) else None
  {
    var highest := samples + Pad - 1 - offset;
    var lowest := highest - (count - 1);
    OutputSlice(f, x, offset, count);
    block := OutputBlock(f, backward, lowest, count);
  }

  /** No pass produced a value that is not finite. */
  ghost predicate StaysFinite(f: Filter, x: seq<real>) {
    |x| >= 40 ==> AllFinite(f, Forward(f, x)) && AllFinite(f, Backward(f, x)) && AllFinite(f, ZeroPhase(f, x))
  }

  /** `build_filtered_source`: the streamed filter succeeds exactly when every pass stays finite, and then
      its spool holds the zero-phase result of the whole array. */
  method BuildFilteredSource(f: Filter, source: Spool<real>, applyHighpass: bool)
    returns (filtered: Option<Spool<real>>)
    requires ValidFilter(f)
    ensures !applyHighpass ==> filtered.Some? && filtered.value.samples == source.samples
    ensures applyHighpass ==> (filtered.Some? <==> StaysFinite(f, source.samples))
    ensures applyHighpass && filtered.Some? ==> filtered.value.samples == ZeroPhase(f, source.samples)
  {
    ghost var x := source.samples;
    var samples := |source.samples|;
    if !applyHighpass || samples < 40 { return Some(source); }
    var forward := ForwardPass(f, source);
    if forward.None? { return None; }
    var backward := BackwardPass(f, forward.value);
    if backward.None? { return None; }
    filtered := OutputPass(f, backward.value, x, samples);
  }
}
