/** Decimal text of natural numbers, as ASCII codes. */
module Decimals {
  import opened Bytes

  predicate IsDigit(c: byte) { 48 <= c <= 57 }

  /** `std::to_string`: no leading zero except for 0 itself. */
  function Dec(n: nat): (s: seq<byte>)
    ensures |s| > 0 && forall i :: 0 <= i < |s| ==> IsDigit(s[i])
  {
    if n < 10 then [48 + n] else Dec(n / 10) + [48 + n % 10]
  }

  /** The number a run of digits denotes. */
  function Value(s: seq<byte>): nat
    requires forall i :: 0 <= i < |s| ==> IsDigit(s[i])
  {
    if |s| == 0 then 0 else
      assert IsDigit(s[|s| - 1]);
      10 * Value(s[..|s| - 1]) + (s[|s| - 1] - 48)
  }

  lemma {:induction false} ValueDec(n: nat)
    ensures Value(Dec(n)) == n
  {
    if n >= 10 {
      ValueDec(n / 10);
      assert Dec(n)[..|Dec(n)| - 1] == Dec(n / 10);
    } else {
      assert Value([48 + n][..0]) == 0;
    }
  }

  lemma DecInjective(a: nat, b: nat)
    requires Dec(a) == Dec(b)
    ensures a == b
  {
    ValueDec(a);
    ValueDec(b);
  }

  function Pow10(k: nat): (p: nat)
    ensures p >= 1
  {
    if k == 0 then 1 else 10 * Pow10(k - 1)
  }

  lemma {:induction false} DecLength(n: nat, k: nat)
    requires k > 0 && n < Pow10(k)
    ensures |Dec(n)| <= k
  {
    if n >= 10 { DecLength(n / 10, k - 1); }
  }

  lemma DecFirst(n: nat)
    ensures Dec(n)[0] == 48 ==> n == 0
  {
    if n >= 10 { DecFirst(n / 10); }
  }

  /** ASCII codes as text. */
  function Text(s: seq<byte>): (t: string)
    ensures |t| == |s|
  {
    seq(|s|, i requires 0 <= i < |s| => s[i] as char)
  }

  lemma TextInjective(a: seq<byte>, b: seq<byte>)
    requires Text(a) == Text(b)
    ensures a == b
  {
    forall i | 0 <= i < |a| ensures a[i] == b[i] {
      assert Text(a)[i] == Text(b)[i];
      assert Text(a)[i] as int == a[i] && Text(b)[i] as int == b[i];
    }
  }

  /** A printed number. */
  function Num(n: nat): string { Text(Dec(n)) }

  /** Reading digits from the left. */
  function Horner(v: nat, s: seq<byte>): nat
    requires forall i :: 0 <= i < |s| ==> IsDigit(s[i])
    decreases |s|
  {
    if |s| == 0 then v else
      assert IsDigit(s[0]);
      Horner(v * 10 + (s[0] - 48), s[1..])
  }

  lemma {:induction false} HornerSnoc(v: nat, s: seq<byte>, d: byte)
    requires (forall i :: 0 <= i < |s| ==> IsDigit(s[i])) && IsDigit(d)
    ensures Horner(v, s + [d]) == Horner(v, s) * 10 + (d - 48)
    decreases |s|
  {
    if |s| == 0 {
      assert ([] + [d])[1..] == [];
    } else {
      assert IsDigit(s[0]);
      assert (s + [d])[1..] == s[1..] + [d];
      HornerSnoc(v * 10 + (s[0] - 48), s[1..], d);
    }
  }

  lemma {:induction false} HornerDec(n: nat)
    ensures Horner(0, Dec(n)) == n
  {
    if n < 10 {
      assert [48 + n][1..] == [];
    } else {
      HornerDec(n / 10);
      HornerSnoc(0, Dec(n / 10), 48 + n % 10);
    }
  }

  lemma {:induction false} HornerGrows(v: nat, s: seq<byte>)
    requires forall i :: 0 <= i < |s| ==> IsDigit(s[i])
    ensures Horner(v, s) >= v
    decreases |s|
  {
    if |s| > 0 {
      assert IsDigit(s[0]);
      HornerGrows(v * 10 + (s[0] - 48), s[1..]);
    }
  }
}
