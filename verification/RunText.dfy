/** The text form of a run's position, and what reading it back gives. */
module RunText {
  import opened Spools
  import opened Bytes
  import opened Decimals
  import opened RunState

  const MaxText: nat := 65536
  const IntMax: nat := 0x7fff_ffff

  /** How floats are printed and read. */
  datatype FloatText = FloatText(show: Word -> string, read: string -> Option<Word>)

  predicate Space(c: char) { c == ' ' || c == '\n' || c == '\t' || c == '\r' || c == 11 as char || c == 12 as char }

  predicate Ink(s: string) { |s| > 0 && forall i :: 0 <= i < |s| ==> !Space(s[i]) }

  predicate AsciiText(s: string) { forall i :: 0 <= i < |s| ==> s[i] as int < 128 }

  ghost predicate FloatLaw(f: FloatText, o: Oracle, w: Word) {
    o.positive(w) ==> Ink(f.show(w)) && AsciiText(f.show(w)) && |f.show(w)| <= 32 && f.read(f.show(w)) == Some(w)
  }

  /** Enough digits are printed to read a float back. */
  ghost predicate ValidFloats(f: FloatText, o: Oracle) { forall w :: FloatLaw(f, o, w) }

  // ---------------------------------------------------------------- formatted extraction

  function SkipSpace(s: string): (r: string)
    ensures |r| <= |s|
  {
    if |s| > 0 && Space(s[0]) then SkipSpace(s[1..]) else s
  }

  datatype Token = Token(text: string, rest: string)

  function InkPrefix(s: string): Token {
    if |s| == 0 || Space(s[0]) then Token("", s)
    else var t := InkPrefix(s[1..]); Token([s[0]] + t.text, t.rest)
  }

  /** `in >> text`. */
  function ReadToken(s: string): Option<Token> {
    var t := InkPrefix(SkipSpace(s));
    if t.text == "" then None else Some(t)
  }

  predicate DigitChar(c: char) { '0' <= c <= '9' }

  datatype Number = Number(value: nat, rest: string)

  function ReadDigits(s: string, v: nat): (r: Number)
    ensures |r.rest| <= |s|
    decreases |s|
  {
    if |s| == 0 || !DigitChar(s[0]) then Number(v, s) else ReadDigits(s[1..], v * 10 + (s[0] as int - '0' as int))
  }

  /** `in >> number`, for the numbers without a sign that a state prints. */
  function ReadNat(s: string, limit: nat): (r: Option<Number>)
    ensures r.Some? ==> |r.value.rest| < |s|
  {
    var t := SkipSpace(s);
    if |t| == 0 || !DigitChar(t[0]) then None else
    var n := ReadDigits(t[1..], t[0] as int - '0' as int);
    if n.value > limit then None else Some(n)
  }

  datatype Numbers = Numbers(values: seq<nat>, rest: string)

  function ReadNats(s: string, count: nat, limit: nat): (r: Option<Numbers>)
    ensures r.Some? ==> |r.value.values| == count && forall i :: 0 <= i < count ==> r.value.values[i] <= limit
    decreases count
  {
    if count == 0 then Some(Numbers([], s)) else
    var n := ReadNat(s, limit);
    if n.None? then None else
    LimitHolds(s, limit);
    var more := ReadNats(n.value.rest, count - 1, limit);
    if more.None? then None else Some(Numbers([n.value.value] + more.value.values, more.value.rest))
  }

  lemma LimitHolds(s: string, limit: nat)
    ensures ReadNat(s, limit).Some? ==> ReadNat(s, limit).value.value <= limit
  {
  }

  function ReadFloat(f: FloatText, s: string): Option<(Word, string)> {
    var t := ReadToken(s);
    if t.None? || f.read(t.value.text).None? then None else Some((f.read(t.value.text).value, t.value.rest))
  }

  // ---------------------------------------------------------------- printing

  function Separated(ns: seq<nat>): string {
    if |ns| == 0 then "" else Num(ns[0]) + ([' '] + Separated(ns[1..]))
  }

  /** A generator: its words with a space between them. */
  function RngText(r: seq<nat>): string {
    if |r| == 0 then "" else if |r| == 1 then Num(r[0]) else Num(r[0]) + ([' '] + RngText(r[1..]))
  }

  function Nats(order: seq<int>): (ns: seq<nat>)
    requires forall i :: 0 <= i < |order| ==> order[i] >= 0
    ensures |ns| == |order| && forall i :: 0 <= i < |order| ==> ns[i] == order[i]
  {
    seq(|order|, i requires 0 <= i < |order| => order[i])
  }

  const Magic: string := "RESONANTIA_JOINT_RUN"

  function Tail(s: State): string
    requires forall i :: 0 <= i < |s.order| ==> s.order[i] >= 0
  {
    Separated(Nats(s.order)) + (['\n'] + (RngText(s.random) + ['\n']))
  }

  function Recipe(f: FloatText, s: State, tail: string): string
    requires s.epochs >= 0 && s.step >= 0
  {
    s.identity + ([' '] + (Num(s.epochs) + ([' '] + (Num(s.step) + ([' '] + (f.show(s.lr) + ([' '] + (f.show(s.decay)
      + ([' '] + (Num(|s.order|) + (['\n'] + tail)))))))))))
  }

  /** `serialize`, for a state that has been validated. */
  function Serialized(f: FloatText, s: State): string
    requires s.epochs >= 0 && s.step >= 0 && forall i :: 0 <= i < |s.order| ==> s.order[i] >= 0
  {
    Magic + ([' '] + (Num(1) + (['\n'] + Recipe(f, s, Tail(s)))))
  }

  /** `parse`. */
  function Parsed(f: FloatText, o: Oracle, text: string): Option<State> {
    if |text| == 0 || |text| > MaxText then None else
    var magic := ReadToken(text);
    if magic.None? || magic.value.text != Magic then None else
    var version := ReadNat(magic.value.rest, IntMax);
    if version.None? || version.value.value != 1 then None else
    ParsedRecipe(f, o, version.value.rest)
  }

  function ParsedRecipe(f: FloatText, o: Oracle, s: string): Option<State> {
    var identity := ReadToken(s);
    if identity.None? then None else
    var epochs := ReadNat(identity.value.rest, IntMax);
    if epochs.None? then None else
    var step := ReadNat(epochs.value.rest, IntMax);
    if step.None? then None else
    var lr := ReadFloat(f, step.value.rest);
    if lr.None? then None else
    var decay := ReadFloat(f, lr.value.1);
    if decay.None? then None else
    var n := ReadNat(decay.value.1, IntMax);
    if n.None? || n.value.value < 1 || n.value.value > 4096 then None else
    ParsedTail(o, identity.value.text, epochs.value.value, step.value.value, lr.value.0, decay.value.0, n.value.value,
      n.value.rest)
  }

  function ParsedTail(o: Oracle, identity: string, epochs: nat, step: nat, lr: Word, decay: Word, n: nat,
                      s: string): Option<State> {
    var order := ReadNats(s, n, IntMax);
    if order.None? then None else
    var words := ReadNats(order.value.rest, 625, 0xffff_ffff);
    if words.None? || SkipSpace(words.value.rest) != "" then None else
    var state := State(identity, epochs, step, lr, decay, order.value.values, words.value.values);
    if Valid(o, state) then Some(state) else None
  }

  // ---------------------------------------------------------------- reading back

  predicate StartsSpace(s: string) { |s| == 0 || Space(s[0]) }

  lemma {:induction false} DigitsBack(v: nat, s: seq<byte>, rest: string)
    requires (forall i :: 0 <= i < |s| ==> IsDigit(s[i])) && StartsSpace(rest)
    ensures ReadDigits(Text(s) + rest, v) == Number(Horner(v, s), rest)
    decreases |s|
  {
    var t := Text(s) + rest;
    if |s| == 0 {
      assert t == rest;
    } else {
      assert IsDigit(s[0]) && t[0] as int == s[0];
      assert t[1..] == Text(s[1..]) + rest;
      DigitsBack(v * 10 + (s[0] - 48), s[1..], rest);
    }
  }

  lemma NatBack(sep: string, n: nat, rest: string, limit: nat)
    requires (sep == "" || (|sep| == 1 && Space(sep[0]))) && n <= limit && StartsSpace(rest)
    ensures ReadNat(sep + (Num(n) + rest), limit) == Some(Number(n, rest))
    ensures Ink(Num(n))
  {
    var s := Dec(n);
    var t := Num(n) + rest;
    HornerDec(n);
    forall i | 0 <= i < |s| ensures DigitChar(Num(n)[i]) { assert IsDigit(s[i]) && Num(n)[i] as int == s[i]; }
    assert DigitChar(t[0]) && t[0] as int == s[0];
    assert t[1..] == Text(s[1..]) + rest;
    assert Horner(0, s) == Horner(s[0] - 48, s[1..]);
    DigitsBack(s[0] - 48, s[1..], rest);
    SkipOne(sep, t);
  }

  lemma SkipOne(sep: string, t: string)
    requires (sep == "" || (|sep| == 1 && Space(sep[0]))) && |t| > 0 && !Space(t[0])
    ensures SkipSpace(sep + t) == t
  {
    if sep == "" { assert sep + t == t; } else { assert (sep + t)[1..] == t; }
  }

  lemma {:induction false} PrefixBack(s: string, rest: string)
    requires (forall i :: 0 <= i < |s| ==> !Space(s[i])) && StartsSpace(rest)
    ensures InkPrefix(s + rest) == Token(s, rest)
  {
    if |s| == 0 {
      assert s + rest == rest;
    } else {
      assert (s + rest)[1..] == s[1..] + rest;
      PrefixBack(s[1..], rest);
    }
  }

  lemma TokenBack(sep: string, s: string, rest: string)
    requires (sep == "" || (|sep| == 1 && Space(sep[0]))) && Ink(s) && StartsSpace(rest)
    ensures ReadToken(sep + (s + rest)) == Some(Token(s, rest))
  {
    SkipOne(sep, s + rest);
    PrefixBack(s, rest);
  }

  lemma {:induction false} SeparatedBack(sep: string, ns: seq<nat>, rest: string, limit: nat)
    requires (|sep| == 1 && Space(sep[0])) && StartsSpace(rest) && |rest| > 0 && forall i :: 0 <= i < |ns| ==>
      ns[i] <= limit
    ensures var r := ReadNats(sep + (Separated(ns) + rest), |ns|, limit);
      r.Some? && r.value.values == ns && r.value.rest == (if |ns| == 0 then sep + rest else [' '] + rest)
    decreases |ns|
  {
    if |ns| == 0 {
      assert "" + rest == rest;
    } else {
      var more := [' '] + (Separated(ns[1..]) + rest);
      assert Separated(ns) + rest == Num(ns[0]) + more;
      NatBack(sep, ns[0], more, limit);
      SeparatedBack([' '], ns[1..], rest, limit);
      assert ns == [ns[0]] + ns[1..];
    }
  }

  lemma SpaceBefore(c: char, s: string, count: nat, limit: nat)
    requires Space(c) && count > 0
    ensures ReadNats([c] + s, count, limit) == ReadNats(s, count, limit)
  {
    assert ([c] + s)[1..] == s;
  }

  lemma {:induction false} RngBack(sep: string, r: seq<nat>, rest: string, limit: nat)
    requires (|sep| == 1 && Space(sep[0])) && StartsSpace(rest) && |r| > 0 && forall i :: 0 <= i < |r| ==> r[i] <= limit
    ensures ReadNats(sep + (RngText(r) + rest), |r|, limit) == Some(Numbers(r, rest))
    decreases |r|
  {
    if |r| == 1 {
      NatBack(sep, r[0], rest, limit);
      assert ReadNats(rest, 0, limit) == Some(Numbers([], rest));
      assert r == [r[0]] + [];
    } else {
      var more := [' '] + (RngText(r[1..]) + rest);
      assert RngText(r) + rest == Num(r[0]) + more;
      NatBack(sep, r[0], more, limit);
      RngBack([' '], r[1..], rest, limit);
      assert r == [r[0]] + r[1..];
    }
  }

  /** The values are numbers a state may hold. */
  lemma OrderValues(o: Oracle, s: State)
    requires Valid(o, s)
    ensures forall i :: 0 <= i < |s.order| ==> 0 <= s.order[i] < |s.order|
  {
    forall i | 0 <= i < |s.order| ensures 0 <= s.order[i] < |s.order| {
      assert s.order[i] in multiset(s.order);
      InIota(|s.order|, s.order[i]);
    }
  }

  lemma TailBack(o: Oracle, s: State)
    requires Valid(o, s) && (forall i :: 0 <= i < |s.order| ==> 0 <= s.order[i] < |s.order|)
    ensures ParsedTail(o, s.identity, s.epochs, s.step, s.lr, s.decay, |s.order|, ['\n'] + Tail(s)) == Some(s)
  {
    var order := Nats(s.order);
    var words := RngText(s.random) + ['\n'];
    SeparatedBack(['\n'], order, ['\n'] + words, IntMax);
    SpaceBefore(' ', ['\n'] + words, 625, 0xffff_ffff);
    RngBack(['\n'], s.random, ['\n'], 0xffff_ffff);
    assert SkipSpace(['\n']) == "" by { assert ['\n'][1..] == ""; }
    assert s.order == order;
  }

  lemma FloatBack(f: FloatText, o: Oracle, sep: string, w: Word, rest: string)
    requires ValidFloats(f, o) && o.positive(w) && |sep| == 1 && Space(sep[0]) && StartsSpace(rest)
    ensures ReadFloat(f, sep + (f.show(w) + rest)) == Some((w, rest))
  {
    assert FloatLaw(f, o, w);
    TokenBack(sep, f.show(w), rest);
  }

  lemma DigestInk(s: string)
    requires HexDigest(s)
    ensures Ink(s)
  {
  }

  lemma RecipeBack(f: FloatText, o: Oracle, s: State)
    requires ValidFloats(f, o) && Valid(o, s) && (forall i :: 0 <= i < |s.order| ==> 0 <= s.order[i] < |s.order|)
    ensures ParsedRecipe(f, o, ['\n'] + Recipe(f, s, Tail(s))) == Some(s)
  {
    var r6 := ['\n'] + Tail(s);
    var r5 := [' '] + (Num(|s.order|) + r6);
    var r4 := [' '] + (f.show(s.decay) + r5);
    var r3 := [' '] + (f.show(s.lr) + r4);
    var r2 := [' '] + (Num(s.step) + r3);
    var r1 := [' '] + (Num(s.epochs) + r2);
    StepBound(o, s);
    DigestInk(s.identity);
    TokenBack(['\n'], s.identity, r1);
    NatBack([' '], s.epochs, r2, IntMax);
    NatBack([' '], s.step, r3, IntMax);
    FloatBack(f, o, [' '], s.lr, r4);
    FloatBack(f, o, [' '], s.decay, r5);
    NatBack([' '], |s.order|, r6, IntMax);
    TailBack(o, s);
  }

  lemma StepBound(o: Oracle, s: State)
    requires Valid(o, s)
    ensures 0 <= s.step <= 2000 * 4096
  {
    Times(s.epochs, 2000, |s.order|);
    Times(|s.order|, 4096, 2000);
  }

  // ---------------------------------------------------------------- the size bound

  lemma NumLength(n: nat, k: nat)
    requires k > 0 && n < Pow10(k)
    ensures |Num(n)| <= k
  {
    DecLength(n, k);
  }

  lemma Pow10Values()
    ensures Pow10(4) == 10_000 && Pow10(10) == 10_000_000_000
  {
    assert Pow10(1) == 10 && Pow10(2) == 100 && Pow10(3) == 1000;
    assert Pow10(5) == 100_000 && Pow10(6) == 1_000_000 && Pow10(7) == 10_000_000 && Pow10(8) == 100_000_000
      && Pow10(9) == 1_000_000_000;
  }

  lemma {:induction false} SeparatedLength(ns: seq<nat>)
    requires forall i :: 0 <= i < |ns| ==> ns[i] < 10_000
    ensures |Separated(ns)| <= 5 * |ns|
    decreases |ns|
  {
    if |ns| > 0 {
      Pow10Values();
      NumLength(ns[0], 4);
      SeparatedLength(ns[1..]);
    }
  }

  lemma {:induction false} RngLength(r: seq<nat>)
    requires forall i :: 0 <= i < |r| ==> r[i] < 0x1_0000_0000
    ensures |RngText(r)| <= 11 * |r|
    decreases |r|
  {
    if |r| > 0 {
      Pow10Values();
      NumLength(r[0], 10);
      RngLength(r[1..]);
    }
  }

  lemma SerializedLength(f: FloatText, o: Oracle, s: State)
    requires ValidFloats(f, o) && Valid(o, s) && (forall i :: 0 <= i < |s.order| ==> 0 <= s.order[i] < |s.order|)
    ensures 0 < |Serialized(f, s)| <= 28000
  {
    Pow10Values();
    StepBound(o, s);
    NumLength(1, 10);
    NumLength(s.epochs, 10);
    NumLength(s.step, 10);
    NumLength(|s.order|, 10);
    assert FloatLaw(f, o, s.lr) && FloatLaw(f, o, s.decay);
    SeparatedLength(Nats(s.order));
    RngLength(s.random);
  }

  /** Every valid state is read back from its text, and the text of every valid state is far below the bound. */
  lemma ParseSerialized(f: FloatText, o: Oracle, s: State)
    requires ValidFloats(f, o) && Valid(o, s)
    ensures forall i :: 0 <= i < |s.order| ==> 0 <= s.order[i] < |s.order|
    ensures |Serialized(f, s)| <= MaxText && Parsed(f, o, Serialized(f, s)) == Some(s)
  {
    OrderValues(o, s);
    SerializedLength(f, o, s);
    var body := ['\n'] + Recipe(f, s, Tail(s));
    assert Ink(Magic);
    TokenBack("", Magic, [' '] + (Num(1) + body));
    assert "" + (Magic + ([' '] + (Num(1) + body))) == Serialized(f, s);
    NatBack([' '], 1, body, IntMax);
    RecipeBack(f, o, s);
  }

  /** A run stopped after any step, written out, read back and continued visits exactly what the uncut run visits. */
  lemma ResumeIsInvisible(l: Loop<State, Visit>, f: FloatText, o: Oracle, s: State, frames: seq<nat>, k: nat,
                          count: nat)
    requires ValidOracle(o) && ValidFloats(f, o) && Planned(o, s) && Clips(frames, s) && Turns(l, o, frames)
    requires k <= count && s.step + count <= Total(s)
    ensures Valid(o, Run(l, s, k)) && forall i :: 0 <= i < |Run(l, s, k).order| ==> Run(l, s, k).order[i] >= 0
    ensures var saved := Parsed(f, o, Serialized(f, Run(l, s, k)));
      saved.Some? && Trace(l, s, count) == Trace(l, s, k) + Trace(l, saved.value, count - k)
  {
    RunKeeps(l, o, s, frames, k);
    ParseSerialized(f, o, Run(l, s, k));
    TraceSplit(l, s, k, count);
  }
}
