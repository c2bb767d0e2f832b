/** Bytes, little-endian integers and 32-bit float patterns. */
module Bytes {

  type byte = b: nat | b < 256

  /** A 32-bit float, by its bit pattern. */
  type Word = w: nat | w < 0x1_0000_0000

  /** Neither infinite nor NaN: the exponent field is not all ones. */
  predicate Finite(w: Word) { (w / 0x80_0000) % 256 != 255 }

  predicate AllFinite(data: seq<Word>) { forall i :: 0 <= i < |data| ==> Finite(data[i]) }

  function Pow256(n: nat): (p: nat)
    ensures p >= 1
  {
    if n == 0 then 1 else 256 * Pow256(n - 1)
  }

  /** The low n bytes of v, least significant first. */
  function PutLe(v: nat, n: nat): (s: seq<byte>)
    ensures |s| == n
  {
    if n == 0 then [] else [v % 256] + PutLe(v / 256, n - 1)
  }

  function GetLe(s: seq<byte>): (v: nat)
    ensures v < Pow256(|s|)
  {
    if |s| == 0 then 0 else s[0] + 256 * GetLe(s[1..])
  }

  lemma {:induction false} GetPut(v: nat, n: nat)
    requires v < Pow256(n)
    ensures GetLe(PutLe(v, n)) == v
  {
    if n > 0 { GetPut(v / 256, n - 1); }
  }

  lemma {:induction false} PutGet(s: seq<byte>)
    ensures PutLe(GetLe(s), |s|) == s
  {
    if |s| > 0 { PutGet(s[1..]); }
  }

  function PutWords(data: seq<Word>): (s: seq<byte>)
    ensures |s| == 4 * |data|
  {
    if |data| == 0 then [] else PutLe(data[0], 4) + PutWords(data[1..])
  }

  lemma Pow256Four()
    ensures Pow256(4) == 0x1_0000_0000 && Pow256(8) == 0x1_0000_0000_0000_0000 && Pow256(2) == 0x1_0000
  {
    assert Pow256(1) == 256;
    assert Pow256(3) == 256 * Pow256(2);
    assert Pow256(5) == 256 * Pow256(4);
    assert Pow256(6) == 256 * Pow256(5);
    assert Pow256(7) == 256 * Pow256(6);
  }

  function GetWords(s: seq<byte>): (data: seq<Word>)
    requires |s| % 4 == 0
    ensures |data| == |s| / 4
  {
    if |s| == 0 then [] else
      Pow256Four();
      [GetLe(s[..4])] + GetWords(s[4..])
  }

  lemma {:induction false} GetPutWords(data: seq<Word>)
    ensures GetWords(PutWords(data)) == data
  {
    if |data| > 0 {
      Pow256Four();
      GetPut(data[0], 4);
      GetPutWords(data[1..]);
      var s := PutWords(data);
      assert s[..4] == PutLe(data[0], 4) && s[4..] == PutWords(data[1..]);
    }
  }

  lemma {:induction false} PutGetWords(s: seq<byte>)
    requires |s| % 4 == 0
    ensures PutWords(GetWords(s)) == s
  {
    if |s| > 0 {
      PutGet(s[..4]);
      PutGetWords(s[4..]);
      var d := GetWords(s);
      assert d[1..] == GetWords(s[4..]);
      assert s == s[..4] + s[4..];
    }
  }

  /** The bytes of an ASCII literal. */
  function Ascii(s: string): (b: seq<byte>)
    ensures |b| == |s|
  {
    seq(|s|, i requires 0 <= i < |s| => (s[i] as int) % 256)
  }
}
