/** The in-place iterative radix-2 transform, proved to leave the discrete Fourier
    sum of the original array in every slot. `wlen(len)` stands for the twiddle
    e^(-2 pi i / len) that the code computes with cos and sin. */
module Fft {
  import opened Rings

  function Two(m: nat): (t: nat)
    ensures t >= 1
  {
    if m == 0 then 1 else 2 * Two(m - 1)
  }

  // ---------------------------------------------------------------- binary positions

  /** The low m bits of i in the opposite order. */
  function Rev(m: nat, i: nat): (v: nat)
    ensures v < Two(m)
  {
    if m == 0 then 0 else (if i % 2 == 1 then Two(m - 1) else 0) + Rev(m - 1, i / 2)
  }

  lemma {:induction false} RevHigh(m: nat, b: nat, i: nat)
    requires b < 2 && i < Two(m)
    ensures Rev(m + 1, (if b == 1 then Two(m) else 0) + i) == 2 * Rev(m, i) + b
  {
    if m > 0 {
      var y := (if b == 1 then Two(m) else 0) + i;
      RevHigh(m - 1, b, i / 2);
      assert y % 2 == i % 2 && y / 2 == (if b == 1 then Two(m - 1) else 0) + i / 2;
    }
  }

  lemma {:induction false} RevInvolution(m: nat, i: nat)
    requires i < Two(m)
    ensures Rev(m, Rev(m, i)) == i
  {
    if m > 0 {
      RevInvolution(m - 1, i / 2);
      RevHigh(m - 1, i % 2, Rev(m - 1, i / 2));
    }
  }

  lemma {:induction false} RevZero(m: nat)
    ensures Rev(m, 0) == 0
  {
    if m > 0 { RevZero(m - 1); }
  }

  /** Hi(s, p) is p / 2^s and Lo(s, p) is p % 2^s, by halving. */
  ghost function Hi(s: nat, p: nat): nat {
    if s == 0 then p else Hi(s - 1, p) / 2
  }

  ghost function Lo(s: nat, p: nat): (v: nat)
    ensures v < Two(s)
  {
    if s == 0 then 0 else Lo(s - 1, p) + if Hi(s - 1, p) % 2 == 1 then Two(s - 1) else 0
  }

  /** The positions of the block that starts at i. */
  lemma {:induction false} InBlock(s: nat, i: nat, k: nat)
    requires Lo(s, i) == 0 && k < Two(s)
    ensures Hi(s, i + k) == Hi(s, i) && Lo(s, i + k) == k
  {
    if s > 0 {
      var h := Two(s - 1);
      if k < h {
        InBlock(s - 1, i, k);
      } else {
        NextBlock(s - 1, i);
        InBlock(s - 1, i + h, k - h);
      }
    }
  }

  lemma {:induction false} NextBlock(s: nat, i: nat)
    requires Lo(s, i) == 0
    ensures Lo(s, i + Two(s)) == 0 && Hi(s, i + Two(s)) == Hi(s, i) + 1
  {
    if s > 0 {
      NextBlock(s - 1, i);
      NextBlock(s - 1, i + Two(s - 1));
    }
  }

  lemma {:induction false} BlockFits(s: nat, m: nat, i: nat)
    requires s <= m && Lo(s, i) == 0 && i < Two(m)
    ensures i + Two(s) <= Two(m)
    decreases m - s
  {
    if s < m {
      var start := if Hi(s, i) % 2 == 1 then i - Two(s) else i;
      if Hi(s, i) % 2 == 1 { OddBlock(s, i); } else { assert Lo(s + 1, i) == 0; }
      BlockFits(s + 1, m, start);
    } else {
      WholeBlock(m, i);
    }
  }

  lemma {:induction false} OddBlock(s: nat, i: nat)
    requires Lo(s, i) == 0 && Hi(s, i) > 0
    ensures i >= Two(s) && Lo(s, i - Two(s)) == 0 && Hi(s, i - Two(s)) == Hi(s, i) - 1
  {
    if s > 0 {
      OddBlock(s - 1, i);
      OddBlock(s - 1, i - Two(s - 1));
    }
  }

  lemma {:induction false} WholeBlock(m: nat, k: nat)
    requires k < Two(m)
    ensures Hi(m, k) == 0 && Lo(m, k) == k
  {
    ZeroBlock(m);
    InBlock(m, 0, k);
  }

  lemma {:induction false} ZeroBlock(m: nat)
    ensures Hi(m, 0) == 0 && Lo(m, 0) == 0
  {
    if m > 0 { ZeroBlock(m - 1); }
  }

  // ---------------------------------------------------------------- the Fourier sum

  /** Sum over t < count of x[t] * w^(t * k). */
  function Dft<T>(r: Ring<T>, x: seq<T>, w: T, k: nat, count: nat): T
    requires count <= |x|
  {
    if count == 0 then r.zero
    else r.add(Dft(r, x, w, k, count - 1), r.mul(x[count - 1], Pow(r, w, (count - 1) * k)))
  }

  /** The discrete Fourier transform of x. */
  function Spectrum<T>(r: Ring<T>, x: seq<T>, w: T): seq<T> {
    seq(|x|, k requires 0 <= k => Dft(r, x, w, k, |x|))
  }

  function Sample<T>(r: Ring<T>, x: seq<T>, i: nat): T {
    if i < |x| then x[i] else r.zero
  }

  /** The polynomial with coefficients x[off], x[off + stride], ... at z. */
  ghost function Poly<T>(r: Ring<T>, x: seq<T>, off: nat, stride: nat, count: nat, z: T): T
    decreases count
  {
    if count == 0 then r.zero
    else r.add(Sample(r, x, off), r.mul(Poly(r, x, off + stride, stride, count - 1, z), z))
  }

  lemma {:induction false} PolyIsDft<T(!new)>(r: Ring<T>, x: seq<T>, w: T, k: nat, off: nat)
    requires Lawful(r) && off <= |x|
    ensures Dft(r, x, w, k, |x|)
         == r.add(Dft(r, x, w, k, off), r.mul(Poly(r, x, off, 1, |x| - off, Pow(r, w, k)), Pow(r, w, off * k)))
    decreases |x| - off
  {
    var z, d, g := Pow(r, w, k), Dft(r, x, w, k, off), Pow(r, w, off * k);
    if off == |x| {
      MulZero(r, g);
      assert LawsAt(r, r.zero, g, g);
      assert LawsAt(r, d, d, d);
    } else {
      PolyIsDft(r, x, w, k, off + 1);
      PowStep(r, w, k, off);
      HornerStep(r, d, x[off], Poly(r, x, off + 1, 1, |x| - off - 1, z), z, g);
    }
  }

  lemma PowStep<T(!new)>(r: Ring<T>, w: T, k: nat, off: nat)
    requires Lawful(r)
    ensures Pow(r, w, (off + 1) * k) == r.mul(Pow(r, w, k), Pow(r, w, off * k))
  {
    assert (off + 1) * k == k + off * k;
    PowAdd(r, w, k, off * k);
  }

  /** One coefficient moved from the sum into the polynomial. */
  lemma HornerStep<T(!new)>(r: Ring<T>, d: T, c: T, rest: T, z: T, g: T)
    requires Lawful(r)
    ensures r.add(r.add(d, r.mul(c, g)), r.mul(rest, r.mul(z, g))) == r.add(d, r.mul(r.add(c, r.mul(rest, z)), g))
  {
    assert LawsAt(r, rest, z, g);
    FactorRight(r, c, r.mul(rest, z), g);
    assert LawsAt(r, d, r.mul(c, g), r.mul(r.mul(rest, z), g));
  }

  lemma FactorRight<T(!new)>(r: Ring<T>, a: T, b: T, u: T)
    requires Lawful(r)
    ensures r.add(r.mul(a, u), r.mul(b, u)) == r.mul(r.add(a, b), u)
  {
    assert LawsAt(r, u, a, b);
    assert LawsAt(r, a, u, u);
    assert LawsAt(r, b, u, u);
    assert LawsAt(r, r.add(a, b), u, u);
  }

  /** The Danielson-Lanczos step: 2c coefficients split into the even and the odd ones. */
  lemma {:induction false} PolySplit<T(!new)>(r: Ring<T>, x: seq<T>, off: nat, stride: nat, c: nat, z: T)
    requires Lawful(r)
    ensures Poly(r, x, off, stride, 2 * c, z)
         == r.add(Poly(r, x, off, 2 * stride, c, r.mul(z, z)),
                  r.mul(Poly(r, x, off + stride, 2 * stride, c, r.mul(z, z)), z))
    decreases c
  {
    if c == 0 {
      MulZero(r, z);
      assert LawsAt(r, r.zero, z, z);
      assert LawsAt(r, r.zero, r.zero, r.zero);
    } else {
      PolySplit(r, x, off + 2 * stride, stride, c - 1, z);
      var zz := r.mul(z, z);
      var even, odd := Poly(r, x, off + 2 * stride, 2 * stride, c - 1, zz),
                       Poly(r, x, off + stride + 2 * stride, 2 * stride, c - 1, zz);
      var s0, s1 := Sample(r, x, off), Sample(r, x, off + stride);
      assert Poly(r, x, off, stride, 2 * c, z)
          == r.add(s0, r.mul(r.add(s1, r.mul(r.add(even, r.mul(odd, z)), z)), z));
      SplitTerms(r, s0, s1, even, odd, z);
    }
  }

  lemma SplitTerms<T(!new)>(r: Ring<T>, s0: T, s1: T, even: T, odd: T, z: T)
    requires Lawful(r)
    ensures r.add(s0, r.mul(r.add(s1, r.mul(r.add(even, r.mul(odd, z)), z)), z))
         == r.add(r.add(s0, r.mul(even, r.mul(z, z))), r.mul(r.add(s1, r.mul(odd, r.mul(z, z))), z))
  {
    var ez, ozz := r.mul(even, z), r.mul(odd, r.mul(z, z));
    FactorRight(r, even, r.mul(odd, z), z);
    assert LawsAt(r, odd, z, z);
    assert r.mul(r.add(even, r.mul(odd, z)), z) == r.add(ez, ozz);
    assert LawsAt(r, s1, ez, ozz);
    assert LawsAt(r, ez, s1, ozz);
    assert r.add(s1, r.add(ez, ozz)) == r.add(ez, r.add(s1, ozz));
    FactorRight(r, ez, r.add(s1, ozz), z);
    assert LawsAt(r, even, z, z);
    assert LawsAt(r, s0, r.mul(ez, z), r.mul(r.add(s1, ozz), z));
  }

  // ---------------------------------------------------------------- stages

  /** One transform to be computed: x of length 2^m, with w of order 2^m. */
  datatype Task<!T> = Task(r: Ring<T>, x: seq<T>, w: T, m: nat)

  /** w is a principal root for length 2^m: its half-length power is minus one. */
  ghost predicate IsRoot<T>(r: Ring<T>, w: T, m: nat) {
    m > 0 ==> Pow(r, w, Two(m - 1)) == r.neg(r.one)
  }

  ghost predicate Proper<T(!new)>(t: Task<T>) {
    Lawful(t.r) && IsRoot(t.r, t.w, t.m) && |t.x| == Two(t.m)
  }

  /** The root used in the pass len = 2^s. */
  ghost function RootAt<T>(t: Task<T>, s: nat): T
    requires s <= t.m
  {
    Pow(t.r, t.w, Two(t.m - s))
  }

  /** Slot p after the passes up to len = 2^s: its block holds the transform of one strided subsequence. */
  ghost function StageAt<T>(t: Task<T>, s: nat, p: nat): T
    requires s <= t.m
  {
    Poly(t.r, t.x, Rev(t.m - s, Hi(s, p)), Two(t.m - s), Two(s), Pow(t.r, RootAt(t, s), Lo(s, p)))
  }

  ghost predicate SlotIs<T>(t: Task<T>, s: nat, y: seq<T>, p: nat)
    requires s <= t.m && |y| == Two(t.m)
  {
    p < |y| ==> y[p] == StageAt(t, s, p)
  }

  /** y is the array after the passes up to len = 2^s. */
  ghost predicate IsStage<T>(t: Task<T>, s: nat, y: seq<T>)
    requires s <= t.m
  {
    |y| == Two(t.m) && forall p: nat :: SlotIs(t, s, y, p)
  }

  lemma StageZero<T(!new)>(t: Task<T>, p: nat)
    requires Proper(t)
    ensures StageAt(t, 0, p) == Sample(t.r, t.x, Rev(t.m, p))
  {
    var r, y := t.r, Sample(t.r, t.x, Rev(t.m, p));
    assert Poly(r, t.x, Rev(t.m, p), Two(t.m), 1, r.one) == r.add(y, r.mul(r.zero, r.one));
    assert LawsAt(r, r.zero, y, y);
    assert LawsAt(r, y, y, y);
  }

  lemma FirstStage<T(!new)>(t: Task<T>, y: seq<T>)
    requires Proper(t) && BitReversed(t.x, t.m, y)
    ensures IsStage(t, 0, y)
  {
    forall p: nat ensures SlotIs(t, 0, y, p) { StageZero(t, p); }
  }

  lemma LastSlot<T(!new)>(t: Task<T>, k: nat)
    requires Proper(t) && k < |t.x|
    ensures StageAt(t, t.m, k) == Dft(t.r, t.x, t.w, k, |t.x|)
  {
    var r, w := t.r, t.w;
    WholeBlock(t.m, k);
    assert Pow(r, w, 1) == r.mul(r.one, w);
    assert LawsAt(r, r.one, w, w);
    assert LawsAt(r, w, w, w);
    PolyIsDft(r, t.x, w, k, 0);
    var y := Poly(r, t.x, 0, 1, |t.x|, Pow(r, w, k));
    assert LawsAt(r, y, y, y);
    assert LawsAt(r, r.zero, y, y);
  }

  lemma LastStage<T(!new)>(t: Task<T>, y: seq<T>)
    requires Proper(t) && IsStage(t, t.m, y)
    ensures y == Spectrum(t.r, t.x, t.w)
  {
    forall k | 0 <= k < |y| ensures y[k] == Spectrum(t.r, t.x, t.w)[k] {
      assert SlotIs(t, t.m, y, k);
      LastSlot(t, k);
    }
  }

  // ---------------------------------------------------------------- one butterfly

  lemma {:induction false} TwoAdd(a: nat, b: nat)
    ensures Two(a + b) == Two(a) * Two(b)
  {
    if a > 0 {
      TwoAdd(a - 1, b);
      assert Two(a) * Two(b) == 2 * (Two(a - 1) * Two(b));
    }
  }

  lemma SameRoot<T(!new)>(t: Task<T>, s: nat, k: nat)
    requires Proper(t) && s < t.m
    ensures var z := Pow(t.r, RootAt(t, s + 1), k);
      Pow(t.r, RootAt(t, s), k) == t.r.mul(z, z)
  {
    var root, q := RootAt(t, s + 1), Two(t.m - s - 1);
    PowPow(t.r, t.w, q, 2);
    PowPow(t.r, root, 2, k);
    PowAdd(t.r, root, k, k);
  }

  lemma OppositeRoot<T(!new)>(t: Task<T>, s: nat, k: nat)
    requires Proper(t) && s < t.m
    ensures Pow(t.r, RootAt(t, s + 1), k + Two(s)) == t.r.neg(Pow(t.r, RootAt(t, s + 1), k))
  {
    var r, root, q := t.r, RootAt(t, s + 1), Two(t.m - s - 1);
    PowPow(r, t.w, q, Two(s));
    TwoAdd(t.m - s - 1, s);
    PowAdd(r, root, k, Two(s));
    MulNeg(r, Pow(r, root, k), r.one);
    assert LawsAt(r, Pow(r, root, k), r.one, r.one);
  }

  lemma NegSquare<T(!new)>(r: Ring<T>, z: T)
    requires Lawful(r)
    ensures r.mul(r.neg(z), r.neg(z)) == r.mul(z, z)
  {
    MulNeg(r, r.neg(z), z);
    MulNeg(r, z, z);
    assert LawsAt(r, z, r.neg(z), z);
    assert LawsAt(r, r.neg(z), z, z);
    assert LawsAt(r, r.mul(z, z), r.mul(z, z), z);
    assert LawsAt(r, r.neg(r.mul(z, z)), r.mul(z, z), z);
    NegUnique(r, r.neg(r.mul(z, z)), r.mul(z, z));
  }

  lemma RevDouble(t: nat, b: nat)
    ensures Rev(t + 1, 2 * b) == Rev(t, b) && Rev(t + 1, 2 * b + 1) == Rev(t, b) + Two(t)
  {
  }

  lemma InputSlots(m: nat, s: nat, i: nat, k: nat)
    requires s < m && Lo(s + 1, i) == 0 && k < Two(s)
    ensures Lo(s, i + k) == k && Rev(m - s, Hi(s, i + k)) == Rev(m - s - 1, Hi(s + 1, i))
    ensures Lo(s, i + Two(s) + k) == k
    ensures Rev(m - s, Hi(s, i + Two(s) + k)) == Rev(m - s - 1, Hi(s + 1, i)) + Two(m - s - 1)
  {
    InBlock(s, i, k);
    NextBlock(s, i);
    InBlock(s, i + Two(s), k);
    RevDouble(m - s - 1, Hi(s + 1, i));
  }

  lemma OutputSlots(s: nat, i: nat, k: nat)
    requires Lo(s + 1, i) == 0 && k < Two(s)
    ensures Lo(s + 1, i + k) == k && Hi(s + 1, i + k) == Hi(s + 1, i)
    ensures Lo(s + 1, i + Two(s) + k) == k + Two(s) && Hi(s + 1, i + Two(s) + k) == Hi(s + 1, i)
  {
    InBlock(s + 1, i, k);
    InBlock(s + 1, i, k + Two(s));
    assert i + (k + Two(s)) == i + Two(s) + k;
  }

  lemma SlotValue<T>(t: Task<T>, s: nat, y: seq<T>, p: nat, k: nat, o: nat, v: T)
    requires s <= t.m && IsStage(t, s, y) && p < |y|
    requires Lo(s, p) == k && Rev(t.m - s, Hi(s, p)) == o && Pow(t.r, RootAt(t, s), k) == v
    ensures y[p] == Poly(t.r, t.x, o, Two(t.m - s), Two(s), v)
  {
    assert SlotIs(t, s, y, p);
  }

  lemma InputAt<T(!new)>(t: Task<T>, s: nat, y: seq<T>, p: nat, k: nat, o: nat, z: T)
    requires Proper(t) && s < t.m && IsStage(t, s, y) && p < |y| && k < Two(s)
    requires Lo(s, p) == k && Rev(t.m - s, Hi(s, p)) == o && z == Pow(t.r, RootAt(t, s + 1), k)
    ensures y[p] == Poly(t.r, t.x, o, 2 * Two(t.m - s - 1), Two(s), t.r.mul(z, z))
  {
    SameRoot(t, s, k);
    SlotValue(t, s, y, p, k, o, t.r.mul(z, z));
  }

  /** y[p], y[q] are the even and the odd half-length sums at z^2. */
  ghost predicate HalvesAt<T>(r: Ring<T>, x: seq<T>, y: seq<T>, p: nat, q: nat, o: nat, d: nat, h: nat, z: T) {
    && p < |y| && q < |y|
    && y[p] == Poly(r, x, o, 2 * d, h, r.mul(z, z)) && y[q] == Poly(r, x, o + d, 2 * d, h, r.mul(z, z))
  }

  /** y[p], y[q] are the double-length sums at z and at -z. */
  ghost predicate DoublesAt<T>(r: Ring<T>, x: seq<T>, y: seq<T>, p: nat, q: nat, o: nat, d: nat, h: nat, z: T) {
    && p < |y| && q < |y|
    && y[p] == Poly(r, x, o, d, 2 * h, z) && y[q] == Poly(r, x, o, d, 2 * h, r.neg(z))
  }

  /** The two slots a butterfly reads: the even and the odd half-length sums at z^2. */
  lemma ButterflyInputs<T(!new)>(t: Task<T>, s: nat, y: seq<T>, i: nat, k: nat, z: T)
    requires Proper(t) && s < t.m && IsStage(t, s, y)
    requires Lo(s + 1, i) == 0 && k < Two(s) && i + 2 * Two(s) <= |y|
    requires z == Pow(t.r, RootAt(t, s + 1), k)
    ensures HalvesAt(t.r, t.x, y, i + k, i + Two(s) + k, Rev(t.m - s - 1, Hi(s + 1, i)), Two(t.m - s - 1), Two(s), z)
  {
    var o, d := Rev(t.m - s - 1, Hi(s + 1, i)), Two(t.m - s - 1);
    InputSlots(t.m, s, i, k);
    InputAt(t, s, y, i + k, k, o, z);
    InputAt(t, s, y, i + Two(s) + k, k, o + d, z);
  }

  /** The two slots it writes: the double-length sum at z and at -z. */
  lemma ButterflyOutputs<T(!new)>(t: Task<T>, s: nat, y: seq<T>, i: nat, k: nat, z: T)
    requires Proper(t) && s < t.m && IsStage(t, s + 1, y)
    requires Lo(s + 1, i) == 0 && k < Two(s) && i + 2 * Two(s) <= |y|
    requires z == Pow(t.r, RootAt(t, s + 1), k)
    ensures DoublesAt(t.r, t.x, y, i + k, i + Two(s) + k, Rev(t.m - s - 1, Hi(s + 1, i)), Two(t.m - s - 1), Two(s), z)
  {
    OutputSlots(s, i, k);
    SlotValue(t, s + 1, y, i + k, k, Rev(t.m - s - 1, Hi(s + 1, i)), z);
    OppositeRoot(t, s, k);
    SlotValue(t, s + 1, y, i + Two(s) + k, k + Two(s), Rev(t.m - s - 1, Hi(s + 1, i)), t.r.neg(z));
  }

  lemma Combine<T(!new)>(r: Ring<T>, x: seq<T>, off: nat, stride: nat, h: nat, z: T)
    requires Lawful(r)
    ensures
      var u, v := Poly(r, x, off, 2 * stride, h, r.mul(z, z)),
                  r.mul(Poly(r, x, off + stride, 2 * stride, h, r.mul(z, z)), z);
      && Poly(r, x, off, stride, 2 * h, z) == r.add(u, v)
      && Poly(r, x, off, stride, 2 * h, r.neg(z)) == Sub(r, u, v)
  {
    NegSquare(r, z);
    PolySplit(r, x, off, stride, h, z);
    PolySplit(r, x, off, stride, h, r.neg(z));
    MulNeg(r, Poly(r, x, off + stride, 2 * stride, h, r.mul(z, z)), z);
  }

  /** a[p], a[q] = u + v, u - v with u = a[p] and v = a[q] * w. */
  ghost predicate PairDone<T>(r: Ring<T>, before: seq<T>, after: seq<T>, p: nat, q: nat, w: T)
    requires p < |before| && q < |before| == |after|
  {
    var u, v := before[p], r.mul(before[q], w);
    after[p] == r.add(u, v) && after[q] == Sub(r, u, v)
  }

  /** One butterfly of the pass len = 2^(s+1) carries two slots from stage s to stage s + 1. */
  lemma Butterfly<T(!new)>(t: Task<T>, s: nat, before: seq<T>, after: seq<T>, i: nat, k: nat)
    requires Proper(t) && s < t.m && IsStage(t, s, before) && IsStage(t, s + 1, after)
    requires Lo(s + 1, i) == 0 && k < Two(s) && i + 2 * Two(s) <= |before|
    ensures PairDone(t.r, before, after, i + k, i + Two(s) + k, Pow(t.r, RootAt(t, s + 1), k))
  {
    var z, p, q := Pow(t.r, RootAt(t, s + 1), k), i + k, i + Two(s) + k;
    var o, d := Rev(t.m - s - 1, Hi(s + 1, i)), Two(t.m - s - 1);
    ButterflyInputs(t, s, before, i, k, z);
    ButterflyOutputs(t, s, after, i, k, z);
    CombinePair(t.r, t.x, before, after, p, q, o, d, Two(s), z);
  }

  lemma CombinePair<T(!new)>(r: Ring<T>, x: seq<T>, before: seq<T>, after: seq<T>, p: nat, q: nat, off: nat,
                             stride: nat, h: nat, z: T)
    requires Lawful(r) && p < |before| == |after| && q < |before|
    requires HalvesAt(r, x, before, p, q, off, stride, h, z) && DoublesAt(r, x, after, p, q, off, stride, h, z)
    ensures PairDone(r, before, after, p, q, z)
  {
    Combine(r, x, off, stride, h, z);
  }

  // ---------------------------------------------------------------- blocks and passes

  /** What the inner loop does to one block of length 2h: `after` holds its butterflies. */
  ghost predicate BlockDone<T>(r: Ring<T>, before: seq<T>, after: seq<T>, i: nat, h: nat, wl: T)
    requires i + 2 * h <= |before| == |after|
  {
    forall k :: 0 <= k < h ==> PairDone(r, before, after, i + k, i + h + k, Pow(r, wl, k))
  }

  /** What one pass with len = 2^(s+1) does at position i, if a block starts there. */
  ghost predicate PassAt<T>(r: Ring<T>, before: seq<T>, after: seq<T>, s: nat, wl: T, i: nat) {
    |before| == |after| && (i < |before| && Lo(s + 1, i) == 0 ==>
      && i + 2 * Two(s) <= |before|
      && Lo(s + 1, i + 2 * Two(s)) == 0
      && BlockDone(r, before, after, i, Two(s), wl))
  }

  ghost predicate PassDone<T>(r: Ring<T>, before: seq<T>, after: seq<T>, s: nat, wl: T) {
    |before| == |after| && forall i: nat :: PassAt(r, before, after, s, wl, i)
  }

  lemma StageBlock<T(!new)>(t: Task<T>, s: nat, before: seq<T>, after: seq<T>, i: nat)
    requires Proper(t) && s < t.m && IsStage(t, s, before) && IsStage(t, s + 1, after)
    ensures PassAt(t.r, before, after, s, RootAt(t, s + 1), i)
  {
    if i < |before| && Lo(s + 1, i) == 0 {
      BlockFits(s + 1, t.m, i);
      NextBlock(s + 1, i);
      var wl := RootAt(t, s + 1);
      forall k | 0 <= k < Two(s) ensures PairDone(t.r, before, after, i + k, i + Two(s) + k, Pow(t.r, wl, k))
      {
        Butterfly(t, s, before, after, i, k);
      }
    }
  }

  lemma StagePass<T(!new)>(t: Task<T>, s: nat, before: seq<T>, after: seq<T>)
    requires Proper(t) && s < t.m && IsStage(t, s, before) && IsStage(t, s + 1, after)
    ensures PassDone(t.r, before, after, s, RootAt(t, s + 1))
  {
    var wl := RootAt(t, s + 1);
    forall i: nat ensures PassAt(t.r, before, after, s, wl, i) {
      StageBlock(t, s, before, after, i);
    }
  }

  ghost predicate Twiddles<T>(t: Task<T>, wlen: nat -> T) {
    forall s :: 1 <= s <= t.m ==> wlen(Two(s)) == RootAt(t, s)
  }

  /** The contents of the array from stage s on: each made from the one before by a pass, the last the transform. */
  ghost predicate Stages<T>(t: Task<T>, wlen: nat -> T, s: nat, g: seq<seq<T>>)
    decreases t.m - s
  {
    if s < t.m then
      |g| > 1 && PassDone(t.r, g[0], g[1], s, wlen(Two(s + 1))) && Stages(t, wlen, s + 1, g[1..])
    else
      g == [Spectrum(t.r, t.x, t.w)]
  }

  lemma SomeStage<T>(t: Task<T>, s: nat) returns (y: seq<T>)
    requires s <= t.m
    ensures IsStage(t, s, y)
  {
    y := seq(Two(t.m), p requires 0 <= p => StageAt(t, s, p));
    forall p: nat ensures SlotIs(t, s, y, p) {}
  }

  lemma {:induction false} AllStages<T(!new)>(t: Task<T>, wlen: nat -> T, s: nat, y: seq<T>) returns (g: seq<seq<T>>)
    requires Proper(t) && Twiddles(t, wlen) && s <= t.m && IsStage(t, s, y)
    ensures Stages(t, wlen, s, g) && g[0] == y
    decreases t.m - s
  {
    if s == t.m {
      g := [y];
      LastStage(t, y);
    } else {
      var next := SomeStage(t, s + 1);
      StagePass(t, s, y, next);
      var rest := AllStages(t, wlen, s + 1, next);
      g := [y] + rest;
      assert g[1..] == rest;
    }
  }

  // ---------------------------------------------------------------- the program

  ghost predicate BitReversed<T>(x: seq<T>, m: nat, y: seq<T>)
    requires |x| == Two(m)
  {
    |y| == |x| && forall p :: 0 <= p < |y| ==> y[p] == x[Rev(m, p)]
  }

  /** The array once the swaps for all indices below i have been done. */
  ghost predicate ReversedBelow<T>(x: seq<T>, m: nat, i: nat, y: seq<T>)
    requires |x| == Two(m)
  {
    |y| == |x| && forall p :: 0 <= p < |y| ==> y[p] == if p < i || Rev(m, p) < i then x[Rev(m, p)] else x[p]
  }

  lemma ReversedStep<T>(x: seq<T>, m: nat, i: nat, y: seq<T>)
    requires |x| == Two(m) && i < |x| && ReversedBelow(x, m, i, y)
    ensures var j := Rev(m, i);
      ReversedBelow(x, m, i + 1, if i < j then y[i := y[j]][j := y[i]] else y)
  {
    RevInvolution(m, i);
    forall p | 0 <= p < |x| && Rev(m, p) == i ensures p == Rev(m, i) { RevInjective(m, i, p); }
  }

  lemma RevInjective(m: nat, i: nat, p: nat)
    requires p < Two(m) && Rev(m, p) == i
    ensures p == Rev(m, i)
  {
    RevInvolution(m, p);
  }

  lemma ReversedStart<T>(x: seq<T>, m: nat)
    requires |x| == Two(m)
    ensures ReversedBelow(x, m, 1, x)
  {
    RevZero(m);
    forall p | 0 <= p < |x| ensures Rev(m, p) < 1 ==> p == 0 { RevInvolution(m, p); }
  }

  /** The running reversed counter j equals Rev(m, i) at every i, and the swaps leave bit-reversed order. */
  method BitReverse<T>(a: array<T>, ghost m: nat)
    requires a.Length == Two(m)
    modifies a
    ensures BitReversed(old(a[..]), m, a[..])
  {
    var n := a.Length;
    ghost var x := a[..];
    var i, j := 1, 0;
    RevZero(m);
    ReversedStart(x, m);
    while i < n
      invariant 1 <= i <= n
      invariant j == Rev(m, i - 1)
      invariant ReversedBelow(x, m, i, a[..])
    {
      j := NextReversed(n, j, m, i - 1);
      ReversedStep(x, m, i, a[..]);
      if i < j {
        a[i], a[j] := a[j], a[i];
      }
      i := i + 1;
    }
  }

  /** The inner loop: clear the leading ones of j, then set the next bit. */
  method NextReversed(n: nat, j0: nat, ghost m: nat, ghost i: nat) returns (j: nat)
    requires n == Two(m) && i + 1 < n && j0 == Rev(m, i)
    ensures j == Rev(m, i + 1)
  {
    j := j0;
    var bit := n / 2;
    ghost var t, q := m, i;
    LeadingBit(t, q);
    while (j / bit) % 2 == 1
      invariant 1 <= t <= m && 0 <= q && q + 1 < Two(t)
      invariant bit == Two(t - 1)
      invariant j == Rev(t, q)
      invariant (j / bit) % 2 == q % 2
      invariant Rev(m, i + 1) == Rev(t, q + 1)
      decreases t
    {
      RevPeel(t, q);
      j := j - bit;
      bit := bit / 2;
      t, q := t - 1, q / 2;
      LeadingBit(t, q);
    }
    RevPeel(t, q);
    j := j + bit;
  }

  lemma RevPeel(t: nat, q: nat)
    requires t > 0 && q + 1 < Two(t)
    ensures q % 2 == 1 ==> t > 1 && q / 2 + 1 < Two(t - 1) && Two(t - 1) / 2 == Two(t - 2)
    ensures q % 2 == 1 ==> Rev(t, q) == Two(t - 1) + Rev(t - 1, q / 2) && Rev(t, q + 1) == Rev(t - 1, q / 2 + 1)
    ensures q % 2 == 0 ==> Rev(t, q + 1) == Rev(t, q) + Two(t - 1)
  {
  }

  lemma LeadingBit(t: nat, q: nat)
    requires t > 0
    ensures (Rev(t, q) / Two(t - 1)) % 2 == q % 2
  {
    SmallQuotient(Rev(t, q), Two(t - 1));
  }

  lemma SmallQuotient(j: nat, h: nat)
    requires 0 < h && j < 2 * h
    ensures j / h == if j < h then 0 else 1
  {
    if j < h {
    } else {
      assert j == h + (j - h);
    }
  }

  lemma {:induction false} TwoMonotone(a: nat, b: nat)
    ensures Two(a) <= Two(b) <==> a <= b
  {
    if a > 0 && b > 0 { TwoMonotone(a - 1, b - 1); }
  }

  /** The array in the middle of a pass: `after` up to i + k and on [i + h, i + h + k), `before` elsewhere. */
  ghost predicate Partial<T>(a: seq<T>, before: seq<T>, after: seq<T>, i: nat, h: nat, k: nat)
    requires |a| == |before| == |after|
  {
    forall p :: 0 <= p < |a| ==> a[p] == if p < i + k || i + h <= p < i + h + k then after[p] else before[p]
  }

  /** The whole transform: bit reversal, then one pass per len = 2, 4, ..., n. */
  method Transform<T(!new)>(r: Ring<T>, a: array<T>, wlen: nat -> T, ghost w: T, ghost m: nat)
    requires a.Length != 0 ==> Proper(Task(r, a[..], w, m)) && Twiddles(Task(r, a[..], w, m), wlen)
    modifies a
    ensures a[..] == Spectrum(r, old(a[..]), w)
  {
    if a.Length == 0 { return; }
    ghost var t := Task(r, a[..], w, m);
    BitReverse(a, m);
    FirstStage(t, a[..]);
    ghost var g := AllStages(t, wlen, 0, a[..]);
    Passes(r, a, wlen, t, g);
  }

  method Passes<T>(r: Ring<T>, a: array<T>, wlen: nat -> T, ghost t: Task<T>, ghost g: seq<seq<T>>)
    requires t.r == r && Stages(t, wlen, 0, g) && a[..] == g[0] && a.Length == Two(t.m)
    modifies a
    ensures a[..] == Spectrum(t.r, t.x, t.w)
  {
    var n := a.Length;
    var len := 2;
    ghost var s, rest := 0, g;
    TwoMonotone(1, t.m);
    while len <= n
      invariant s <= t.m && len == Two(s + 1) && (len <= n <==> s < t.m)
      invariant Stages(t, wlen, s, rest) && a[..] == rest[0]
      decreases n - len
    {
      Pass(r, a, len, wlen(len), rest[0], rest[1], s);
      len := 2 * len;
      s, rest := s + 1, rest[1..];
      TwoMonotone(s + 1, t.m);
    }
  }

  /** One pass over all blocks of length len = 2^(s+1). */
  method Pass<T>(r: Ring<T>, a: array<T>, len: nat, wl: T, ghost before: seq<T>, ghost after: seq<T>, ghost s: nat)
    requires len == Two(s + 1) && a[..] == before && PassDone(r, before, after, s, wl)
    modifies a
    ensures a[..] == after
  {
    var n := a.Length;
    var i := 0;
    ZeroBlock(s + 1);
    while i < n
      invariant i <= n && Lo(s + 1, i) == 0
      invariant Partial(a[..], before, after, i, 0, 0)
      decreases n - i
    {
      assert PassAt(r, before, after, s, wl, i);
      Block(r, a, i, len, wl, before, after);
      i := i + len;
    }
  }

  /** The butterflies of one block, with the twiddle kept as a running product. */
  method Block<T>(r: Ring<T>, a: array<T>, i: nat, len: nat, wl: T, ghost before: seq<T>, ghost after: seq<T>)
    requires len % 2 == 0 && i + len <= a.Length == |before| == |after|
    requires BlockDone(r, before, after, i, len / 2, wl)
    requires Partial(a[..], before, after, i, 0, 0)
    modifies a
    ensures Partial(a[..], before, after, i + len, 0, 0)
  {
    var h := len / 2;
    var w := r.one;
    var k := 0;
    while k < h
      invariant 0 <= k <= h
      invariant w == Pow(r, wl, k)
      invariant Partial(a[..], before, after, i, h, k)
    {
      assert PairDone(r, before, after, i + k, i + h + k, w);
      ButterflyStep(r, a, i, h, k, w, before, after);
      w := r.mul(w, wl);
      k := k + 1;
    }
  }

  /** The body of the innermost loop: a[i + k] and a[i + h + k] become u + v and u - v. */
  method ButterflyStep<T>(r: Ring<T>, a: array<T>, i: nat, h: nat, k: nat, w: T, ghost before: seq<T>,
                          ghost after: seq<T>)
    requires k < h && i + h + k < a.Length == |before| == |after|
    requires Partial(a[..], before, after, i, h, k) && PairDone(r, before, after, i + k, i + h + k, w)
    modifies a
    ensures Partial(a[..], before, after, i, h, k + 1)
  {
    var u, v := a[i + k], r.mul(a[i + h + k], w);
    a[i + k] := r.add(u, v);
    a[i + h + k] := Sub(r, u, v);
  }
}
