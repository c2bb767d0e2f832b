/** The text inside a joint checkpoint: the trainer's own position with the text of the run quoted in it. */
module CheckpointText {
  import opened Spools
  import opened Bytes
  import opened Decimals
  import opened RunState
  import opened RunText
  import opened SafetensorsFiles

  const CheckpointMagic: string := "RESONANTIA_JOINT_CHECKPOINT"
  const Speakers: nat := 109
  const MaxNoise: nat := 16384

  /** The speaker, the optimizer steps, the learning rate, the noise generator and the text of the run. */
  datatype Meta = Meta(speaker: nat, steps: nat, lr: Word, noise: Rng, run: string)

  // ---------------------------------------------------------------- quoting

  predicate Special(c: char) { c == '"' || c == '\\' }

  function Escaped(s: string): string {
    if |s| == 0 then "" else (if Special(s[0]) then ['\\', s[0]] else [s[0]]) + Escaped(s[1..])
  }

  /** `out << std::quoted(s)`. */
  function Quoted(s: string): string { ['"'] + (Escaped(s) + ['"']) }

  /** What stands before the closing quote; None when there is none. */
  function Unescaped(s: string): (r: Option<Token>)
    ensures r.Some? ==> |r.value.rest| < |s|
  {
    if |s| == 0 then None
    else if s[0] == '"' then Some(Token("", s[1..]))
    else if s[0] != '\\' then Behind(s[0], Unescaped(s[1..]))
    else if |s| == 1 then None
    else Behind(s[1], Unescaped(s[2..]))
  }

  function Behind(c: char, r: Option<Token>): Option<Token> {
    if r.None? then None else Some(Token([c] + r.value.text, r.value.rest))
  }

  /** `in >> std::quoted(s)`: a word without an opening quote is read as it is. */
  function ReadQuoted(s: string): Option<Token> {
    var t := SkipSpace(s);
    if |t| == 0 then None else if t[0] == '"' then Unescaped(t[1..]) else ReadToken(t)
  }

  lemma {:induction false} UnescapedBack(s: string, rest: string)
    ensures Unescaped(Escaped(s) + (['"'] + rest)) == Some(Token(s, rest))
    decreases |s|
  {
    var end := ['"'] + rest;
    if |s| == 0 {
      assert "" + end == end && end[1..] == rest;
    } else {
      UnescapedBack(s[1..], rest);
      assert s == [s[0]] + s[1..];
      UnescapedChar(s[0], Escaped(s[1..]), end);
    }
  }

  lemma UnescapedChar(c: char, more: string, end: string)
    ensures Unescaped((if Special(c) then ['\\', c] else [c]) + more + end) == Behind(c, Unescaped(more + end))
  {
    if Special(c) {
      assert (['\\', c] + more + end)[2..] == more + end;
    } else {
      assert ([c] + more + end)[1..] == more + end;
    }
  }

  /** Every text, whatever quotes and backslashes it holds, is read back from its quoted form. */
  lemma QuotedBack(sep: string, s: string, rest: string)
    requires sep == "" || (|sep| == 1 && Space(sep[0]))
    ensures ReadQuoted(sep + (Quoted(s) + rest)) == Some(Token(s, rest))
  {
    var t := Quoted(s) + rest;
    SkipOne(sep, t);
    assert t[1..] == Escaped(s) + (['"'] + rest);
    UnescapedBack(s, rest);
  }

  lemma {:induction false} EscapedSize(s: string)
    ensures |s| <= |Escaped(s)| <= 2 * |s|
    ensures Narrow(s) ==> Narrow(Escaped(s))
    decreases |s|
  {
    if |s| > 0 {
      EscapedSize(s[1..]);
      assert Narrow(s) ==> Narrow(s[1..]);
    }
  }

  // ---------------------------------------------------------------- the whole text

  /** What `save_checkpoint` prints. */
  function MetaText(f: FloatText, m: Meta): string {
    CheckpointMagic + ([' '] + (Num(1) + (['\n'] + (Num(m.speaker) + ([' '] + (Num(m.steps) + ([' '] + (f.show(m.lr)
      + (['\n'] + (Quoted(RngText(m.noise)) + (['\n'] + (Quoted(m.run) + ['\n']))))))))))))
  }

  /** What `load_checkpoint` reads of it. */
  function ParsedMeta(f: FloatText, o: Oracle, s: string): Option<Meta> {
    var magic := ReadToken(s);
    if magic.None? || magic.value.text != CheckpointMagic then None else
    var version := ReadNat(magic.value.rest, IntMax);
    if version.None? || version.value.value != 1 then None else
    ParsedNumbers(f, o, version.value.rest)
  }

  function ParsedNumbers(f: FloatText, o: Oracle, s: string): Option<Meta> {
    var speaker := ReadNat(s, IntMax);
    if speaker.None? || speaker.value.value >= Speakers then None else
    var steps := ReadNat(speaker.value.rest, IntMax);
    if steps.None? || steps.value.value == IntMax then None else
    var lr := ReadFloat(f, steps.value.rest);
    if lr.None? || !o.positive(lr.value.0) then None else
    ParsedTexts(speaker.value.value, steps.value.value, lr.value.0, lr.value.1)
  }

  function ParsedTexts(speaker: nat, steps: nat, lr: Word, s: string): Option<Meta> {
    var noise := ReadQuoted(s);
    if noise.None? then None else
    var run := ReadQuoted(noise.value.rest);
    if run.None? || |run.value.text| > MaxText || |noise.value.text| > MaxNoise || SkipSpace(run.value.rest) != ""
      then None else
    var words := ReadNats(noise.value.text, 625, 0xffff_ffff);
    if words.None? || SkipSpace(words.value.rest) != "" then None else
    Some(Meta(speaker, steps, lr, words.value.values, run.value.text))
  }

  predicate ValidMeta(o: Oracle, m: Meta) {
    m.speaker < Speakers && m.steps < IntMax && o.positive(m.lr) && |m.run| <= MaxText
  }

  /** Whatever is saved is read back. */
  lemma MetaBack(f: FloatText, o: Oracle, m: Meta)
    requires ValidFloats(f, o) && ValidMeta(o, m)
    ensures ParsedMeta(f, o, MetaText(f, m)) == Some(m)
  {
    var r5 := ['\n'] + (Quoted(RngText(m.noise)) + (['\n'] + (Quoted(m.run) + ['\n'])));
    var r4 := [' '] + (f.show(m.lr) + r5);
    var r3 := [' '] + (Num(m.steps) + r4);
    var r2 := ['\n'] + (Num(m.speaker) + r3);
    var r1 := [' '] + (Num(1) + r2);
    assert Ink(CheckpointMagic);
    TokenBack("", CheckpointMagic, r1);
    assert "" + (CheckpointMagic + r1) == MetaText(f, m);
    NatBack([' '], 1, r2, IntMax);
    NatBack(['\n'], m.speaker, r3, IntMax);
    NatBack([' '], m.steps, r4, IntMax);
    FloatBack(f, o, [' '], m.lr, r5);
    TextsBack(m);
  }

  lemma TextsBack(m: Meta)
    requires |m.run| <= MaxText
    ensures ParsedTexts(m.speaker, m.steps, m.lr,
      ['\n'] + (Quoted(RngText(m.noise)) + (['\n'] + (Quoted(m.run) + ['\n'])))) == Some(m)
  {
    QuotedBack(['\n'], RngText(m.noise), ['\n'] + (Quoted(m.run) + ['\n']));
    QuotedBack(['\n'], m.run, ['\n']);
    assert SkipSpace(['\n']) == "" by { assert ['\n'][1..] == ""; }
    RngLength(m.noise);
    RngAlone(m.noise);
  }

  lemma RngAlone(r: Rng)
    ensures ReadNats(RngText(r), 625, 0xffff_ffff) == Some(Numbers(r, ""))
  {
    RngBack([' '], r, "", 0xffff_ffff);
    assert RngText(r) + "" == RngText(r);
    SpaceBefore(' ', RngText(r), 625, 0xffff_ffff);
  }

  // ---------------------------------------------------------------- its characters and its size

  lemma {:induction false} RngNarrow(r: seq<nat>)
    ensures Narrow(RngText(r))
    decreases |r|
  {
    if |r| > 0 {
      NumNarrow(r[0]);
      RngNarrow(r[1..]);
    }
  }

  lemma {:induction false} SeparatedNarrow(ns: seq<nat>)
    ensures Narrow(Separated(ns))
    decreases |ns|
  {
    if |ns| > 0 {
      NumNarrow(ns[0]);
      SeparatedNarrow(ns[1..]);
    }
  }

  lemma QuotedSize(s: string)
    ensures |Quoted(s)| <= 2 * |s| + 2
    ensures Narrow(s) ==> Narrow(Quoted(s))
  {
    EscapedSize(s);
  }

  lemma NumSize(n: nat)
    requires n <= IntMax
    ensures |Num(n)| <= 10 && Narrow(Num(n))
  {
    Pow10Values();
    NumLength(n, 10);
    NumNarrow(n);
  }

  /** The text is made of bytes and within the writer's bound. */
  lemma MetaFits(f: FloatText, o: Oracle, m: Meta)
    requires ValidFloats(f, o) && ValidMeta(o, m) && Narrow(m.run)
    ensures Narrow(MetaText(f, m)) && 0 < |MetaText(f, m)| <= 160 * 1024
  {
    NumSize(1);
    NumSize(m.speaker);
    NumSize(m.steps);
    assert FloatLaw(f, o, m.lr);
    RngNarrow(m.noise);
    RngLength(m.noise);
    QuotedSize(RngText(m.noise));
    QuotedSize(m.run);
    var r6 := Quoted(m.run) + ['\n'];
    var r5 := Quoted(RngText(m.noise)) + (['\n'] + r6);
    var r4 := f.show(m.lr) + (['\n'] + r5);
    var r3 := Num(m.steps) + ([' '] + r4);
    var r2 := Num(m.speaker) + ([' '] + r3);
    assert Narrow(r6) && Narrow(r5) && Narrow(r4);
    assert Narrow(r3) && Narrow(r2) && Narrow(CheckpointMagic);
  }

  /** So is the text of a run. */
  lemma SerializedNarrow(f: FloatText, o: Oracle, s: State)
    requires ValidFloats(f, o) && Valid(o, s) && (forall i :: 0 <= i < |s.order| ==> 0 <= s.order[i] < |s.order|)
    ensures Narrow(Serialized(f, s))
  {
    SeparatedNarrow(Nats(s.order));
    RngNarrow(s.random);
    NumNarrow(s.epochs);
    NumNarrow(s.step);
    NumNarrow(|s.order|);
    NumNarrow(1);
    assert FloatLaw(f, o, s.lr) && FloatLaw(f, o, s.decay);
    var tail := Tail(s);
    assert Narrow(tail);
    var r3 := f.show(s.decay) + ([' '] + (Num(|s.order|) + (['\n'] + tail)));
    var r2 := f.show(s.lr) + ([' '] + r3);
    var r1 := Num(s.epochs) + ([' '] + (Num(s.step) + ([' '] + r2)));
    assert Narrow(r3) && Narrow(r2) && Narrow(r1) && Narrow(s.identity) && Narrow(Magic);
  }
}
