/** The same transform on split real and imaginary arrays, proved against the same
    Fourier sum at the ring of complex numbers. */
module FftSplit {
  import opened Rings
  import opened Fft

  /** The complex samples held by the two arrays. */
  ghost function Zip(re: seq<real>, im: seq<real>): (z: seq<Complex>)
    requires |re| == |im|
    ensures |z| == |re|
  {
    seq(|re|, p requires 0 <= p < |re| => Complex(re[p], im[p]))
  }

  method TransformSplit(re: array<real>, im: array<real>, wlenRe: nat -> real, wlenIm: nat -> real,
                        ghost w: Complex, ghost m: nat)
    requires re != im && re.Length == im.Length
    requires re.Length != 0 ==>
      && |Zip(re[..], im[..])| == Two(m) && IsRoot(ComplexRing, w, m)
      && Twiddles(Task(ComplexRing, Zip(re[..], im[..]), w, m), (len: nat) => Complex(wlenRe(len), wlenIm(len)))
    modifies re, im
    ensures Zip(re[..], im[..]) == Spectrum(ComplexRing, old(Zip(re[..], im[..])), w)
  {
    if re.Length == 0 { return; }
    ghost var t := Task(ComplexRing, Zip(re[..], im[..]), w, m);
    ghost var wlen := (len: nat) => Complex(wlenRe(len), wlenIm(len));
    ComplexIsLawful();
    ReverseBoth(re, im, m);
    FirstStage(t, Zip(re[..], im[..]));
    ghost var g := AllStages(t, wlen, 0, Zip(re[..], im[..]));
    PassesSplit(re, im, wlenRe, wlenIm, t, wlen, g);
  }

  method ReverseBoth(re: array<real>, im: array<real>, ghost m: nat)
    requires re != im && re.Length == im.Length == Two(m)
    modifies re, im
    ensures BitReversed(old(Zip(re[..], im[..])), m, Zip(re[..], im[..]))
  {
    var n := re.Length;
    ghost var x := Zip(re[..], im[..]);
    var i, j := 1, 0;
    RevZero(m);
    ReversedStart(x, m);
    while i < n
      invariant 1 <= i <= n
      invariant j == Rev(m, i - 1)
      invariant ReversedBelow(x, m, i, Zip(re[..], im[..]))
    {
      j := NextReversed(n, j, m, i - 1);
      ghost var y := Zip(re[..], im[..]);
      ReversedStep(x, m, i, y);
      if i < j {
        re[i], re[j] := re[j], re[i];
        im[i], im[j] := im[j], im[i];
        assert Zip(re[..], im[..]) == y[i := y[j]][j := y[i]];
      }
      i := i + 1;
    }
  }

  method PassesSplit(re: array<real>, im: array<real>, wlenRe: nat -> real, wlenIm: nat -> real,
                     ghost t: Task<Complex>, ghost wlen: nat -> Complex, ghost g: seq<seq<Complex>>)
    requires re != im && re.Length == im.Length == Two(t.m) && t.r == ComplexRing
    requires forall len :: wlen(len) == Complex(wlenRe(len), wlenIm(len))
    requires Stages(t, wlen, 0, g) && Zip(re[..], im[..]) == g[0]
    modifies re, im
    ensures Zip(re[..], im[..]) == Spectrum(t.r, t.x, t.w)
  {
    var n := re.Length;
    var len := 2;
    ghost var s, rest := 0, g;
    TwoMonotone(1, t.m);
    while len <= n
      invariant s <= t.m && len == Two(s + 1) && (len <= n <==> s < t.m)
      invariant Stages(t, wlen, s, rest) && Zip(re[..], im[..]) == rest[0]
      decreases n - len
    {
      PassSplit(re, im, len, wlenRe(len), wlenIm(len), rest[0], rest[1], s);
      len := 2 * len;
      s, rest := s + 1, rest[1..];
      TwoMonotone(s + 1, t.m);
    }
  }

  method PassSplit(re: array<real>, im: array<real>, len: nat, wlRe: real, wlIm: real,
                   ghost before: seq<Complex>, ghost after: seq<Complex>, ghost s: nat)
    requires re != im && re.Length == im.Length && len == Two(s + 1)
    requires Zip(re[..], im[..]) == before && PassDone(ComplexRing, before, after, s, Complex(wlRe, wlIm))
    modifies re, im
    ensures Zip(re[..], im[..]) == after
  {
    var n := re.Length;
    var i := 0;
    ZeroBlock(s + 1);
    while i < n
      invariant i <= n && Lo(s + 1, i) == 0
      invariant PartialSplit(re[..], im[..], before, after, i, 0, 0)
      decreases n - i
    {
      assert PassAt(ComplexRing, before, after, s, Complex(wlRe, wlIm), i);
      BlockSplit(re, im, i, len, wlRe, wlIm, before, after);
      i := i + len;
    }
  }

  /** The arrays hold `after` up to i + k and on [i + h, i + h + k), and `before` elsewhere. */
  ghost predicate PartialSplit(re: seq<real>, im: seq<real>, before: seq<Complex>, after: seq<Complex>, i: nat, h: nat,
                               k: nat)
    requires |re| == |im| == |before| == |after|
  {
    forall p :: 0 <= p < |re| ==>
      Complex(re[p], im[p]) == if p < i + k || i + h <= p < i + h + k then after[p] else before[p]
  }

  /** The twiddles of one block and the butterflies they take part in. */
  ghost predicate TwiddleAt(before: seq<Complex>, after: seq<Complex>, i: nat, h: nat, wl: Complex, tw: seq<Complex>,
                            k: nat)
    requires i + 2 * h <= |before| == |after| && |tw| == h + 1
  {
    k < h ==> PairDone(ComplexRing, before, after, i + k, i + h + k, tw[k]) && tw[k + 1] == ComplexRing.mul(tw[k], wl)
  }

  ghost predicate TwiddleTable(before: seq<Complex>, after: seq<Complex>, i: nat, h: nat, wl: Complex,
                               tw: seq<Complex>) {
    && i + 2 * h <= |before| == |after| && |tw| == h + 1
    && tw[0] == Complex(1.0, 0.0)
    && forall k: nat :: TwiddleAt(before, after, i, h, wl, tw, k)
  }

  lemma MakeTable(before: seq<Complex>, after: seq<Complex>, i: nat, h: nat, wl: Complex) returns (tw: seq<Complex>)
    requires i + 2 * h <= |before| == |after| && BlockDone(ComplexRing, before, after, i, h, wl)
    ensures TwiddleTable(before, after, i, h, wl, tw)
  {
    tw := seq(h + 1, k requires 0 <= k => Pow(ComplexRing, wl, k));
    forall k: nat ensures TwiddleAt(before, after, i, h, wl, tw, k) {
      if k < h {
        assert PairDone(ComplexRing, before, after, i + k, i + h + k, Pow(ComplexRing, wl, k));
      }
    }
  }

  method BlockSplit(re: array<real>, im: array<real>, i: nat, len: nat, wlRe: real, wlIm: real,
                    ghost before: seq<Complex>, ghost after: seq<Complex>)
    requires re != im && len % 2 == 0 && i + len <= re.Length == im.Length == |before| == |after|
    requires BlockDone(ComplexRing, before, after, i, len / 2, Complex(wlRe, wlIm))
    requires PartialSplit(re[..], im[..], before, after, i, 0, 0)
    modifies re, im
    ensures PartialSplit(re[..], im[..], before, after, i + len, 0, 0)
  {
    var h := len / 2;
    ghost var tw := MakeTable(before, after, i, h, Complex(wlRe, wlIm));
    var wRe, wIm := 1.0, 0.0;
    var k := 0;
    while k < h
      invariant 0 <= k <= h
      invariant Complex(wRe, wIm) == tw[k]
      invariant PartialSplit(re[..], im[..], before, after, i, h, k)
    {
      wRe, wIm := ButterflySplit(re, im, i, h, k, wRe, wIm, wlRe, wlIm, before, after, tw);
      k := k + 1;
    }
  }

  lemma ButterflyValues(before: seq<Complex>, after: seq<Complex>, i: nat, h: nat, wl: Complex, tw: seq<Complex>,
                        k: nat, uRe: real, uIm: real, yRe: real, yIm: real, wRe: real, wIm: real)
    requires k < h && TwiddleTable(before, after, i, h, wl, tw) && tw[k] == Complex(wRe, wIm)
    requires before[i + k] == Complex(uRe, uIm) && before[i + h + k] == Complex(yRe, yIm)
    ensures after[i + k] == Complex(uRe + (yRe * wRe - yIm * wIm), uIm + (yRe * wIm + yIm * wRe))
    ensures after[i + h + k] == Complex(uRe - (yRe * wRe - yIm * wIm), uIm - (yRe * wIm + yIm * wRe))
    ensures tw[k + 1] == Complex(wRe * wl.re - wIm * wl.im, wRe * wl.im + wIm * wl.re)
  {
    assert TwiddleAt(before, after, i, h, wl, tw, k);
  }

  /** The loop body: v = a[q] * w, then a[p], a[q] = u + v, u - v and w *= wlen, written out on the parts. */
  method ButterflySplit(re: array<real>, im: array<real>, i: nat, h: nat, k: nat, wRe: real, wIm: real, wlRe: real,
                        wlIm: real, ghost before: seq<Complex>, ghost after: seq<Complex>, ghost tw: seq<Complex>)
    returns (nRe: real, nIm: real)
    requires re != im && k < h && re.Length == im.Length == |before|
    requires TwiddleTable(before, after, i, h, Complex(wlRe, wlIm), tw) && Complex(wRe, wIm) == tw[k]
    requires PartialSplit(re[..], im[..], before, after, i, h, k)
    modifies re, im
    ensures PartialSplit(re[..], im[..], before, after, i, h, k + 1) && Complex(nRe, nIm) == tw[k + 1]
  {
    var p, q := i + k, i + h + k;
    ButterflyValues(before, after, i, h, Complex(wlRe, wlIm), tw, k, re[p], im[p], re[q], im[q], wRe, wIm);
    var uRe, uIm := re[p], im[p];
    var vRe := re[q] * wRe - im[q] * wIm;
    var vIm := re[q] * wIm + im[q] * wRe;
    StorePair(re, im, i, h, k, uRe + vRe, uIm + vIm, uRe - vRe, uIm - vIm, before, after);
    nRe := wRe * wlRe - wIm * wlIm;
    nIm := wRe * wlIm + wIm * wlRe;
  }

  method StorePair(re: array<real>, im: array<real>, i: nat, h: nat, k: nat, pRe: real, pIm: real, qRe: real, qIm: real,
                   ghost before: seq<Complex>, ghost after: seq<Complex>)
    requires re != im && k < h && re.Length == im.Length == |before| == |after| && i + 2 * h <= |before|
    requires PartialSplit(re[..], im[..], before, after, i, h, k)
    requires after[i + k] == Complex(pRe, pIm) && after[i + h + k] == Complex(qRe, qIm)
    modifies re, im
    ensures PartialSplit(re[..], im[..], before, after, i, h, k + 1)
  {
    re[i + k], im[i + k] := pRe, pIm;
    re[i + h + k], im[i + h + k] := qRe, qIm;
  }
}
