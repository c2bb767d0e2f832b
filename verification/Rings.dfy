/** Commutative rings as values, so that the transform below is proved once for
    every ring with suitable roots and then used at the complex numbers. */
module Rings {

  datatype Ring<!T> = Ring(zero: T, one: T, add: (T, T) -> T, mul: (T, T) -> T, neg: T -> T)

  // The ring laws at one triple; also the term at which they are instantiated in the proofs.
  ghost predicate LawsAt<T>(r: Ring<T>, a: T, b: T, c: T) {
    && r.add(r.add(a, b), c) == r.add(a, r.add(b, c))
    && r.add(a, b) == r.add(b, a)
    && r.add(a, r.zero) == a
    && r.add(a, r.neg(a)) == r.zero
    && r.mul(r.mul(a, b), c) == r.mul(a, r.mul(b, c))
    && r.mul(a, b) == r.mul(b, a)
    && r.mul(a, r.one) == a
    && r.mul(a, r.add(b, c)) == r.add(r.mul(a, b), r.mul(a, c))
  }

  ghost predicate Lawful<T(!new)>(r: Ring<T>) {
    forall a: T, b: T, c: T :: LawsAt(r, a, b, c)
  }

  function Sub<T>(r: Ring<T>, a: T, b: T): T { r.add(a, r.neg(b)) }

  function Pow<T>(r: Ring<T>, w: T, e: nat): T {
    if e == 0 then r.one else r.mul(Pow(r, w, e - 1), w)
  }

  lemma MulZero<T(!new)>(r: Ring<T>, a: T)
    requires Lawful(r)
    ensures r.mul(a, r.zero) == r.zero
  {
    var z := r.mul(a, r.zero);
    assert LawsAt(r, r.zero, r.zero, a);
    assert LawsAt(r, a, r.zero, r.zero);
    assert z == r.add(z, z);
    assert LawsAt(r, z, z, r.neg(z));
    assert LawsAt(r, z, r.zero, r.zero);
  }

  /** An additive inverse is unique. */
  lemma NegUnique<T(!new)>(r: Ring<T>, a: T, b: T)
    requires Lawful(r) && r.add(a, b) == r.zero
    ensures b == r.neg(a)
  {
    assert LawsAt(r, r.neg(a), a, b);
    assert LawsAt(r, a, r.neg(a), a);
    assert LawsAt(r, b, r.zero, b);
    assert LawsAt(r, r.neg(a), r.zero, b);
    assert LawsAt(r, r.zero, b, b);
  }

  lemma MulNeg<T(!new)>(r: Ring<T>, a: T, b: T)
    requires Lawful(r)
    ensures r.mul(a, r.neg(b)) == r.neg(r.mul(a, b))
  {
    assert LawsAt(r, a, b, r.neg(b));
    assert LawsAt(r, b, b, b);
    MulZero(r, a);
    NegUnique(r, r.mul(a, b), r.mul(a, r.neg(b)));
  }

  lemma {:induction false} PowAdd<T(!new)>(r: Ring<T>, w: T, a: nat, b: nat)
    requires Lawful(r)
    ensures Pow(r, w, a + b) == r.mul(Pow(r, w, a), Pow(r, w, b))
  {
    if b == 0 {
      assert LawsAt(r, Pow(r, w, a), r.one, r.one);
    } else {
      PowAdd(r, w, a, b - 1);
      assert Pow(r, w, a + b) == r.mul(Pow(r, w, a + (b - 1)), w);
      assert LawsAt(r, Pow(r, w, a), Pow(r, w, b - 1), w);
    }
  }

  lemma {:induction false} PowPow<T(!new)>(r: Ring<T>, w: T, a: nat, b: nat)
    requires Lawful(r)
    ensures Pow(r, Pow(r, w, a), b) == Pow(r, w, a * b)
  {
    if b == 0 {
      assert a * b == 0;
    } else {
      PowPow(r, w, a, b - 1);
      assert a * b == a * (b - 1) + a;
      PowAdd(r, w, a * (b - 1), a);
    }
  }

  /** Complex numbers as pairs of reals, with the arithmetic of the split real/imaginary transform. */
  datatype Complex = Complex(re: real, im: real)

  const ComplexRing: Ring<Complex> := Ring(
    Complex(0.0, 0.0),
    Complex(1.0, 0.0),
    (a: Complex, b: Complex) => Complex(a.re + b.re, a.im + b.im),
    (a: Complex, b: Complex) => Complex(a.re * b.re - a.im * b.im, a.re * b.im + a.im * b.re),
    (a: Complex) => Complex(-a.re, -a.im))

  lemma ComplexMulLaws(a: Complex, b: Complex, c: Complex)
    ensures ComplexRing.mul(ComplexRing.mul(a, b), c) == ComplexRing.mul(a, ComplexRing.mul(b, c))
    ensures ComplexRing.mul(a, b) == ComplexRing.mul(b, a)
    ensures ComplexRing.mul(a, ComplexRing.one) == a
  {
  }

  lemma ComplexDistributes(a: Complex, b: Complex, c: Complex)
    ensures ComplexRing.mul(a, ComplexRing.add(b, c))
         == ComplexRing.add(ComplexRing.mul(a, b), ComplexRing.mul(a, c))
  {
  }

  lemma ComplexIsLawful()
    ensures Lawful(ComplexRing)
  {
    forall a: Complex, b: Complex, c: Complex
      ensures LawsAt(ComplexRing, a, b, c)
    {
      ComplexMulLaws(a, b, c);
      ComplexDistributes(a, b, c);
    }
  }
}
