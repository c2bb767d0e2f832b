/** The reader accepts exactly the values of the grammar: soundness and completeness of every part. */
module JsonExact {
  import opened Spools
  import opened JsonGrammar
  import opened JsonParser

  /** The ways in which a reader and the grammar group the same characters. */
  lemma Group3(a: string, b: string, c: string)
    ensures a + (b + c) == a + b + c
  {
  }

  lemma Group4(a: string, b: string, c: string, d: string)
    ensures a + (b + c + d) == a + b + c + d && a + (b + (c + d)) == a + b + c + d
  {
  }

  lemma Group5(a: string, b: string, c: string, d: string, e: string)
    ensures a + (b + (c + (d + e))) == a + b + c + d + e
  {
  }

  lemma Regroup(a: string, s1: string, b: string, s2: string, c: string, s3: string, d: string, e: string)
    requires s1 == b + s2 && s2 == c + s3 && s3 == d + e
    ensures a + s1 == a + (b + (c + d)) + e && a + s1 == a + (b + (c + (d + e)))
  {
    Group3(c, d, e);
    Group3(b, c + d, e);
    Group3(a, b + (c + d), e);
  }

  // ---------------------------------------------------------------- white space

  lemma {:induction false} WsSplit(s: string) returns (w: string)
    ensures AllWs(w) && s == w + SkipWs(s)
    ensures |SkipWs(s)| == 0 || !Ws(SkipWs(s)[0])
  {
    if |s| > 0 && Ws(s[0]) {
      var v := WsSplit(s[1..]);
      w := [s[0]] + v;
      assert s == [s[0]] + s[1..];
    } else {
      w := "";
    }
  }

  lemma {:induction false} WsOver(w: string, rest: string)
    requires AllWs(w) && (|rest| == 0 || !Ws(rest[0]))
    ensures SkipWs(w + rest) == rest
  {
    if |w| > 0 {
      assert (w + rest)[1..] == w[1..] + rest;
      WsOver(w[1..], rest);
    } else {
      assert w + rest == rest;
    }
  }

  // ---------------------------------------------------------------- strings

  lemma EscapeParts(s: string)
    requires |s| >= 10 && s[4] == '\\' && s[5] == 'u'
    ensures s == s[..4] + (['\\', 'u'] + (s[6..][..4] + s[10..]))
  {
    assert s[6..] == s[6..][..4] + s[10..];
  }

  lemma UnicodeSound(s: string) returns (p: Piece)
    requires UnicodeEscape(s).Some?
    ensures PieceOk(p) && PieceValue(p) == UnicodeEscape(s).value.value
    ensures ['\\', 'u'] + s == PieceText(p) + UnicodeEscape(s).value.rest
  {
    var v := Hex4Of(s).value;
    if HighSurrogate(v) {
      p := Pair(s[..4], s[6..][..4]);
      EscapeParts(s);
      var u := ['\\', 'u'];
      Group3(u, s[..4], u + (s[6..][..4] + s[10..]));
      Group3(u, s[6..][..4], s[10..]);
      Group3(u + s[..4], u + s[6..][..4], s[10..]);
    } else {
      p := Unit(s[..4]);
      assert s == s[..4] + s[4..];
      Group3(['\\', 'u'], s[..4], s[4..]);
    }
  }

  lemma PieceSound(s: string) returns (p: Piece)
    requires NextPiece(s).Some?
    ensures PieceOk(p) && PieceValue(p) == NextPiece(s).value.value
    ensures s == PieceText(p) + NextPiece(s).value.rest
  {
    if s[0] != '\\' {
      p := Plain(s[0]);
    } else if s[1] == 'u' {
      p := UnicodeSound(s[2..]);
      assert s == ['\\', 'u'] + s[2..];
    } else {
      p := Short(s[1]);
    }
  }

  lemma HexOver(h: string, rest: string)
    requires Hex4(h)
    ensures Hex4Of(h + rest) == Some(HexValue(h)) && (h + rest)[4..] == rest
  {
    assert (h + rest)[..4] == h;
  }

  lemma UnicodeOver(p: Piece, rest: string)
    requires PieceOk(p) && (p.Unit? || p.Pair?)
    ensures UnicodeEscape((PieceText(p) + rest)[2..]) == Some(Chars(PieceValue(p), rest))
  {
    if p.Unit? {
      assert (PieceText(p) + rest)[2..] == p.hex + rest;
      HexOver(p.hex, rest);
    } else {
      PairText(p, rest);
      PairOver(p, rest, p.high + (['\\', 'u'] + p.low + rest));
    }
  }

  lemma PairText(p: Piece, rest: string)
    requires PieceOk(p) && p.Pair?
    ensures (PieceText(p) + rest)[2..] == p.high + (['\\', 'u'] + p.low + rest)
  {
  }

  lemma PairOver(p: Piece, rest: string, s: string)
    requires PieceOk(p) && p.Pair? && s == p.high + (['\\', 'u'] + p.low + rest)
    ensures UnicodeEscape(s) == Some(Chars(PieceValue(p), rest))
  {
    HexOver(p.high, ['\\', 'u'] + p.low + rest);
    HexOver(p.low, rest);
    PairSlices(p.high, p.low, rest, s);
  }

  lemma PairSlices(high: string, low: string, rest: string, s: string)
    requires |high| == 4 && |low| == 4 && s == high + (['\\', 'u'] + low + rest)
    ensures s[4] == '\\' && s[5] == 'u' && s[6..] == low + rest && s[10..] == rest
  {
  }

  lemma PieceOver(p: Piece, rest: string)
    requires PieceOk(p)
    ensures NextPiece(PieceText(p) + rest) == Some(Chars(PieceValue(p), rest))
    ensures PieceText(p)[0] != '"'
  {
    var s := PieceText(p) + rest;
    if p.Plain? {
      assert s[1..] == rest;
    } else if p.Short? {
      assert s[2..] == rest;
    } else {
      UnicodeOver(p, rest);
    }
  }

  lemma {:induction false} BodySound(s: string) returns (ps: seq<Piece>)
    requires StringBody(s).Some?
    ensures CharsOk(ps) && CharsValue(ps) == StringBody(s).value.value
    ensures s == CharsText(ps) + ['"'] + StringBody(s).value.rest
    decreases |s|
  {
    if At(s, '"') {
      ps := [];
    } else {
      var p := PieceSound(s);
      var tail := BodySound(NextPiece(s).value.rest);
      ps := [p] + tail;
      assert ps[1..] == tail;
      Group4(PieceText(p), CharsText(tail), ['"'], StringBody(s).value.rest);
    }
  }

  lemma {:induction false} BodyOver(ps: seq<Piece>, rest: string)
    requires CharsOk(ps)
    ensures StringBody(CharsText(ps) + ['"'] + rest) == Some(Chars(CharsValue(ps), rest))
  {
    var s := CharsText(ps) + ['"'] + rest;
    if |ps| == 0 {
      assert s[1..] == rest;
    } else {
      var more := CharsText(ps[1..]) + ['"'] + rest;
      assert s == PieceText(ps[0]) + more;
      PieceOver(ps[0], more);
      assert s[0] == PieceText(ps[0])[0];
      BodyOver(ps[1..], rest);
    }
  }

  /** A string token is read exactly. */
  lemma StringSound(s: string) returns (ps: seq<Piece>)
    requires ParseString(s).Some?
    ensures CharsOk(ps) && CharsValue(ps) == ParseString(s).value.value
    ensures s == StringText(ps) + ParseString(s).value.rest
  {
    ps := BodySound(s[1..]);
    assert s == ['"'] + s[1..];
    Group4(['"'], CharsText(ps), ['"'], ParseString(s).value.rest);
  }

  lemma StringOver(ps: seq<Piece>, rest: string)
    requires CharsOk(ps)
    ensures ParseString(StringText(ps) + rest) == Some(Chars(CharsValue(ps), rest))
  {
    var s := StringText(ps) + rest;
    assert s[1..] == CharsText(ps) + ['"'] + rest;
    BodyOver(ps, rest);
  }

  // ---------------------------------------------------------------- numbers

  predicate Stops(rest: string) {
    |rest| > 0 ==> !Digit(rest[0]) && rest[0] != '.' && rest[0] != 'e' && rest[0] != 'E'
  }

  lemma {:induction false} DigitsSplit(s: string) returns (ds: string)
    ensures AllDigits(ds) && s == ds + SkipDigits(s)
  {
    if |s| > 0 && Digit(s[0]) {
      var more := DigitsSplit(s[1..]);
      ds := [s[0]] + more;
      assert s == [s[0]] + s[1..];
    } else {
      ds := "";
    }
  }

  lemma {:induction false} DigitsOver(ds: string, rest: string)
    requires AllDigits(ds) && (|rest| > 0 ==> !Digit(rest[0]))
    ensures SkipDigits(ds + rest) == rest
  {
    if |ds| > 0 {
      assert (ds + rest)[1..] == ds[1..] + rest;
      DigitsOver(ds[1..], rest);
    } else {
      assert ds + rest == rest;
    }
  }

  lemma WholeSound(s: string) returns (w: string)
    requires SkipWhole(s).Some?
    ensures WholeOk(w) && s == w + SkipWhole(s).value
  {
    if s[0] == '0' {
      w := "0";
    } else {
      var ds := DigitsSplit(s[1..]);
      w := [s[0]] + ds;
      assert s == [s[0]] + s[1..];
    }
  }

  lemma WholeOver(w: string, rest: string)
    requires WholeOk(w) && (|rest| > 0 ==> !Digit(rest[0]))
    ensures SkipWhole(w + rest) == Some(rest)
  {
    assert (w + rest)[1..] == w[1..] + rest;
    if w[0] == '0' { assert w[1..] + rest == rest; } else { DigitsOver(w[1..], rest); }
  }

  lemma FractionSound(s: string) returns (f: string)
    requires SkipFraction(s).Some?
    ensures FracOk(f) && s == f + SkipFraction(s).value
  {
    if At(s, '.') {
      var ds := DigitsSplit(s[2..]);
      f := ['.', s[1]] + ds;
      assert f[1..] == [s[1]] + ds;
      assert s == ['.', s[1]] + s[2..];
    } else {
      f := "";
    }
  }

  lemma FractionOver(f: string, rest: string)
    requires FracOk(f) && (|rest| > 0 ==> !Digit(rest[0]) && rest[0] != '.')
    ensures SkipFraction(f + rest) == Some(rest)
  {
    if f == "" {
      assert f + rest == rest;
    } else {
      assert f[1..][0] == f[1];
      assert f[1..][1..] == f[2..];
      assert (f + rest)[2..] == f[2..] + rest;
      DigitsOver(f[2..], rest);
    }
  }

  lemma SignSplit(s: string) returns (sign: string)
    ensures s == sign + SkipSign(s) && (sign == "" || sign == "+" || sign == "-")
  {
    if At(s, '+') || At(s, '-') {
      sign := [s[0]];
      assert s == [s[0]] + s[1..];
    } else {
      sign := "";
    }
  }

  lemma ExponentMade(mark: char, sign: string, digits: string)
    requires (mark == 'e' || mark == 'E') && (sign == "" || sign == "+" || sign == "-") && |digits| > 0
      && AllDigits(digits)
    ensures ExpOk([mark] + (sign + digits))
  {
    var e := [mark] + (sign + digits);
    if sign == "" { assert e[1..] == digits; } else { assert e[2..] == digits; }
  }

  lemma HeadTail(s: string)
    requires |s| > 0
    ensures s == [s[0]] + s[1..]
  {
  }

  lemma ExponentSound(s: string) returns (e: string)
    requires SkipExponent(s).Some?
    ensures ExpOk(e) && s == e + SkipExponent(s).value
  {
    if At(s, 'e') || At(s, 'E') {
      var sign := SignSplit(s[1..]);
      var d := SkipSign(s[1..]);
      var more := DigitsSplit(d[1..]);
      HeadTail(d);
      HeadTail(s);
      Regroup([s[0]], s[1..], sign, d, [d[0]], d[1..], more, SkipExponent(s).value);
      ExponentMade(s[0], sign, [d[0]] + more);
      e := [s[0]] + (sign + ([d[0]] + more));
    } else {
      e := "";
    }
  }

  lemma ExponentDigits(e: string) returns (d: string)
    requires ExpOk(e) && e != ""
    ensures SkipSign(e[1..]) == d && |d| > 0 && AllDigits(d)
  {
    d := SkipSign(e[1..]);
    if AllDigits(e[1..]) {
      assert Digit(e[1..][0]);
    } else {
      assert e[1..][1..] == e[2..];
    }
  }

  lemma ExponentOver(e: string, rest: string)
    requires ExpOk(e) && Stops(rest)
    ensures SkipExponent(e + rest) == Some(rest)
  {
    if e == "" {
      assert e + rest == rest;
    } else {
      var d := ExponentDigits(e);
      assert (e + rest)[1..] == e[1..] + rest;
      assert SkipSign(e[1..] + rest) == d + rest by {
        assert (e[1..] + rest)[1..] == e[1..][1..] + rest;
      }
      assert (d + rest)[1..] == d[1..] + rest;
      DigitsOver(d[1..], rest);
    }
  }

  lemma NumberParts(minus: bool, w: string, f: string, e: string, rest: string)
    ensures (if minus then "-" else "") + (w + (f + (e + rest))) == JsonText(Number(minus, w, f, e)) + rest
  {
    Group5(if minus then "-" else "", w, f, e, rest);
  }

  lemma MinusSplit(s: string, minus: bool, a: string)
    requires minus == At(s, '-') && a == if minus then s[1..] else s
    ensures s == (if minus then "-" else "") + a
  {
  }

  lemma NumberSound(s: string) returns (minus: bool, w: string, f: string, e: string)
    requires SkipNumber(s).Some?
    ensures WholeOk(w) && FracOk(f) && ExpOk(e)
    ensures s == JsonText(Number(minus, w, f, e)) + SkipNumber(s).value
  {
    minus := At(s, '-');
    var a := if minus then s[1..] else s;
    w := WholeSound(a);
    f := FractionSound(SkipWhole(a).value);
    e := ExponentSound(SkipFraction(SkipWhole(a).value).value);
    MinusSplit(s, minus, a);
    Regroup(if minus then "-" else "", a, w, SkipWhole(a).value, f, SkipFraction(SkipWhole(a).value).value, e,
      SkipNumber(s).value);
    NumberParts(minus, w, f, e, SkipNumber(s).value);
  }

  lemma NumberOver(minus: bool, w: string, f: string, e: string, rest: string)
    requires WholeOk(w) && FracOk(f) && ExpOk(e) && Stops(rest)
    ensures SkipNumber(JsonText(Number(minus, w, f, e)) + rest) == Some(rest)
  {
    var s := JsonText(Number(minus, w, f, e)) + rest;
    var tail := f + (e + rest);
    NumberParts(minus, w, f, e, rest);
    if minus {
      assert s[1..] == w + tail;
    } else {
      assert s == w + tail;
      assert s[0] == w[0] && Digit(s[0]);
    }
    WholeOver(w, tail) by { assert |tail| > 0 ==> !Digit(tail[0]); }
    FractionOver(f, e + rest);
    ExponentOver(e, rest);
  }

  // ---------------------------------------------------------------- values

  lemma NameSound(s: string) returns (t: string)
    requires SkipName(s).Some?
    ensures JsonOk(Name(t)) && s == t + SkipName(s).value
  {
    t := if StartsWith(s, "true") then "true" else if StartsWith(s, "false") then "false" else "null";
    assert s == s[..|t|] + s[|t|..];
  }

  lemma NameOver(t: string, rest: string)
    requires JsonOk(Name(t))
    ensures SkipName(t + rest) == Some(rest)
  {
    var s := t + rest;
    assert s[..|t|] == t && s[|t|..] == rest;
    FirstOf(s, "true");
    FirstOf(s, "false");
  }

  lemma FirstOf(s: string, t: string)
    requires |t| > 0
    ensures StartsWith(s, t) ==> s[0] == t[0]
  {
    if StartsWith(s, t) { assert s[..|t|][0] == s[0]; }
  }

  /** Whatever the reader skips is white space followed by one value of the grammar within the depth limit. */
  lemma {:induction false} ValueSound(s: string, d: int) returns (w: string, j: Json)
    requires SkipValue(s, d).Some?
    ensures AllWs(w) && JsonOk(j) && d + Depth(j) <= MaxDepth
    ensures s == w + (JsonText(j) + SkipValue(s, d).value)
    decreases |s|, 2
  {
    w := WsSplit(s);
    var t := SkipWs(s);
    if t[0] == '{' {
      j := ObjectSound(t, d);
    } else if t[0] == '[' {
      j := ArraySound(t, d);
    } else if t[0] == '"' {
      var ps := StringSound(t);
      j := Str(ps);
    } else if t[0] == '-' || Digit(t[0]) {
      var minus, whole, frac, exp := NumberSound(t);
      j := Number(minus, whole, frac, exp);
    } else {
      var name := NameSound(t);
      j := Name(name);
    }
  }

  lemma {:induction false} ArraySound(s: string, d: int) returns (j: Json)
    requires SkipArray(s, d).Some?
    ensures JsonOk(j) && d + Depth(j) <= MaxDepth && s == JsonText(j) + SkipArray(s, d).value
    decreases |s|, 1
  {
    var pad := WsSplit(s[1..]);
    var t := SkipWs(s[1..]);
    assert s == ['['] + s[1..];
    if At(t, ']') {
      j := EmptyArray(pad);
      assert t == [']'] + t[1..];
      Group4(['['], pad, [']'], t[1..]);
    } else {
      var items := ItemsSound(t, d);
      var padded := items.(before := pad + items.before);
      j := Array(padded);
      ItemsPad(pad, items);
      Group3(pad, ItemsText(items), [']'] + SkipArray(s, d).value);
      Group4(['['], ItemsText(padded), [']'], SkipArray(s, d).value);
    }
  }

  lemma ItemsPad(pad: string, i: Items)
    requires AllWs(pad) && ItemsOk(i)
    ensures var padded := i.(before := pad + i.before);
      ItemsOk(padded) && ItemsDepth(padded) == ItemsDepth(i) && ItemsText(padded) == pad + ItemsText(i)
  {
    var tail := if i.NextItem? then [','] + ItemsText(i.rest) else "";
    Group5(pad, i.before, JsonText(i.value), i.after, tail);
    Group4(i.before, JsonText(i.value), i.after, tail);
  }

  lemma {:induction false} ItemsSound(s: string, d: int) returns (i: Items)
    requires SkipItems(s, d).Some?
    ensures ItemsOk(i) && d + 1 + ItemsDepth(i) <= MaxDepth
    ensures s == ItemsText(i) + ([']'] + SkipItems(s, d).value)
    decreases |s|, 3
  {
    var w, j := ValueSound(s, d + 1);
    var r := SkipValue(s, d + 1).value;
    var after := WsSplit(r);
    var t := SkipWs(r);
    if At(t, ']') {
      i := LastItem(w, j, after);
      assert t == [']'] + t[1..];
      Group4(w, JsonText(j), after, t);
      assert ItemsText(i) == w + JsonText(j) + after;
    } else {
      var pad := WsSplit(t[1..]);
      var rest := ItemsSound(SkipWs(t[1..]), d);
      var padded := rest.(before := pad + rest.before);
      ItemsPad(pad, rest);
      i := NextItem(w, j, after, padded);
      Group4(w, JsonText(j), after, t);
      NextJoin(s, w + JsonText(j) + after, t, pad, ItemsText(rest), [']'] + SkipItems(s, d).value);
    }
  }

  lemma KeySound(s: string) returns (ps: seq<Piece>, gap: string)
    requires ParseKey(s).Some?
    ensures CharsOk(ps) && AllWs(gap) && CharsValue(ps) == ParseKey(s).value.value
    ensures s == StringText(ps) + gap + [':'] + ParseKey(s).value.rest
  {
    ps := StringSound(s);
    var r := ParseString(s).value.rest;
    gap := WsSplit(r);
    var t := SkipWs(r);
    assert t == [':'] + t[1..];
    Group4(StringText(ps), gap, [':'], t[1..]);
  }

  lemma {:induction false} ObjectSound(s: string, d: int) returns (j: Json)
    requires SkipObject(s, d).Some?
    ensures JsonOk(j) && d + Depth(j) <= MaxDepth && s == JsonText(j) + SkipObject(s, d).value
    decreases |s|, 1
  {
    var pad := WsSplit(s[1..]);
    var t := SkipWs(s[1..]);
    assert s == ['{'] + s[1..];
    if At(t, '}') {
      j := EmptyObject(pad);
      assert t == ['}'] + t[1..];
      Group4(['{'], pad, ['}'], t[1..]);
    } else {
      var members := MembersSound(t, d, {});
      var padded := members.(before := pad + members.before);
      j := Object(padded);
      MembersPad(pad, members, {});
      Group3(pad, MembersText(members), ['}'] + SkipObject(s, d).value);
      Group4(['{'], MembersText(padded), ['}'], SkipObject(s, d).value);
    }
  }

  /** One member without the white space before it. */
  function MemberText(key: seq<Piece>, gap: string, pad: string, value: Json, after: string): string {
    StringText(key) + gap + [':'] + (pad + JsonText(value) + after)
  }

  lemma MembersTextIs(m: Members)
    ensures MembersText(m) == m.before + (MemberText(m.key, m.gap, m.pad, m.value, m.after)
      + if m.NextMember? then [','] + MembersText(m.rest) else "")
  {
    var tail := if m.NextMember? then [','] + MembersText(m.rest) else "";
    var k, v := StringText(m.key) + m.gap + [':'], m.pad + JsonText(m.value) + m.after;
    Group4(m.before, StringText(m.key), m.gap, [':']);
    Group4(m.before + k, m.pad, JsonText(m.value), m.after);
    Group3(m.before, k, v);
    Group3(m.before, k + v, tail);
  }

  lemma MembersPad(pad: string, m: Members, keys: set<string>)
    requires AllWs(pad) && MembersOk(m, keys)
    ensures var padded := m.(before := pad + m.before);
      MembersOk(padded, keys) && MembersDepth(padded) == MembersDepth(m) && MembersText(padded) == pad + MembersText(m)
  {
    var padded := m.(before := pad + m.before);
    MembersTextIs(m);
    MembersTextIs(padded);
    Group3(pad, m.before, MemberText(m.key, m.gap, m.pad, m.value, m.after) + if m.NextMember?
      then [','] + MembersText(m.rest) else "");
  }

  /** One member as it is read: key, colon, value and the white space behind it. */
  lemma MemberJoin(s: string, ps: seq<Piece>, gap: string, r: string, w: string, j: Json, v: string, after: string,
                   t: string)
    requires s == StringText(ps) + gap + [':'] + r && r == w + (JsonText(j) + v) && v == after + t
    ensures s == MemberText(ps, gap, w, j, after) + t
  {
    Group4(w, JsonText(j), after, t);
    Group3(StringText(ps) + gap + [':'], w + JsonText(j) + after, t);
  }

  /** The members made of one member and, behind it, pad and more members. */
  lemma MembersMade(ps: seq<Piece>, gap: string, w: string, j: Json, after: string, keys: set<string>, pad: string,
                    rest: Option<Members>)
    returns (m: Members)
    requires CharsOk(ps) && AllWs(gap) && AllWs(w) && JsonOk(j) && AllWs(after) && AllWs(pad) && CharsValue(ps) !in keys
    requires rest.Some? ==> MembersOk(rest.value, keys + {CharsValue(ps)})
    ensures MembersOk(m, keys)
    ensures MembersDepth(m) == if rest.Some? then Deeper(Depth(j), MembersDepth(rest.value)) else Depth(j)
    ensures MembersText(m) == if rest.Some? then MemberText(ps, gap, w, j, after)
      + ([','] + (pad + MembersText(rest.value)))
                              else MemberText(ps, gap, w, j, after)
  {
    if rest.Some? {
      MembersPad(pad, rest.value, keys + {CharsValue(ps)});
      m := NextMember("", ps, gap, w, j, after, rest.value.(before := pad + rest.value.before));
    } else {
      m := LastMember("", ps, gap, w, j, after);
    }
    MembersTextIs(m);
  }

  lemma MemberSound(s: string, d: int)
    returns (ps: seq<Piece>, gap: string, w: string, j: Json, after: string, t: string)
    requires ParseKey(s).Some? && SkipValue(ParseKey(s).value.rest, d + 1).Some?
    ensures CharsOk(ps) && CharsValue(ps) == ParseKey(s).value.value && AllWs(gap) && AllWs(w) && AllWs(after)
    ensures JsonOk(j) && d + 1 + Depth(j) <= MaxDepth
    ensures t == SkipWs(SkipValue(ParseKey(s).value.rest, d + 1).value) && s == MemberText(ps, gap, w, j, after) + t
    decreases |s|, 2
  {
    ps, gap := KeySound(s);
    var rest := ParseKey(s).value.rest;
    w, j := ValueSound(rest, d + 1);
    var v := SkipValue(rest, d + 1).value;
    after := WsSplit(v);
    t := SkipWs(v);
    MemberJoin(s, ps, gap, rest, w, j, v, after, t);
  }

  lemma {:induction false} MembersSound(s: string, d: int, keys: set<string>) returns (m: Members)
    requires SkipMembers(s, d, keys).Some?
    ensures MembersOk(m, keys) && d + 1 + MembersDepth(m) <= MaxDepth
    ensures s == MembersText(m) + (['}'] + SkipMembers(s, d, keys).value)
    decreases |s|, 3
  {
    var ps, gap, w, j, after, t := MemberSound(s, d);
    if At(t, '}') {
      m := MembersMade(ps, gap, w, j, after, keys, "", None);
      assert t == ['}'] + t[1..];
    } else {
      var pad := WsSplit(t[1..]);
      var rest := MembersSound(SkipWs(t[1..]), d, keys + {CharsValue(ps)});
      m := MembersMade(ps, gap, w, j, after, keys, pad, Some(rest));
      NextJoin(s, MemberText(ps, gap, w, j, after), t, pad, MembersText(rest), ['}'] + SkipMembers(s, d, keys).value);
    }
  }

  lemma NextJoin(s: string, one: string, t: string, pad: string, more: string, close: string)
    requires s == one + t && |t| > 0 && t[0] == ',' && t[1..] == pad + (more + close)
    ensures s == one + ([','] + (pad + more)) + close
  {
    assert t == [','] + t[1..];
    Group3(pad, more, close);
    Group3([','], pad + more, close);
    Group3(one, [','] + (pad + more), close);
  }

  // ---------------------------------------------------------------- every value is accepted

  lemma JsonFirst(j: Json)
    requires JsonOk(j)
    ensures |JsonText(j)| > 0 && var c := JsonText(j)[0]; !Ws(c) && c != ']' && c != '}'
    ensures var c := JsonText(j)[0];
      match j
      case Name(_) => c != '{' && c != '[' && c != '"' && c != '-' && !Digit(c)
      case Number(_, _, _, _) => c == '-' || Digit(c)
      case Str(_) => c == '"'
      case EmptyArray(_) => c == '['
      case Array(_) => c == '['
      case EmptyObject(_) => c == '{'
      case Object(_) => c == '{'
  {
    if j.Number? && !j.minus { assert JsonText(j)[0] == j.whole[0]; }
  }

  lemma StopsAfter(after: string, close: string)
    requires AllWs(after) && |close| > 0 && (close[0] == ']' || close[0] == '}' || close[0] == ',')
    ensures Stops(after + close) && SkipWs(after + close) == close
  {
    WsOver(after, close);
    if |after| > 0 { assert (after + close)[0] == after[0]; } else { assert after + close == close; }
  }

  /** Every value of the grammar within the depth limit is skipped exactly, white space before it included. */
  lemma {:induction false} ValueOver(w: string, j: Json, rest: string, d: int)
    requires AllWs(w) && JsonOk(j) && d + Depth(j) <= MaxDepth && Stops(rest)
    ensures SkipValue(w + (JsonText(j) + rest), d) == Some(rest)
    decreases j, 1
  {
    var t := JsonText(j) + rest;
    JsonFirst(j);
    assert t[0] == JsonText(j)[0];
    WsOver(w, t);
    match j
    case Name(text) => NameOver(text, rest);
    case Number(minus, whole, f, e) => NumberOver(minus, whole, f, e, rest);
    case Str(ps) => StringOver(ps, rest);
    case EmptyArray(pad) => BracketOver('[', pad, ']', rest);
    case EmptyObject(pad) => BracketOver('{', pad, '}', rest);
    case Array(items) => ArrayOver(items, rest, d);
    case Object(members) => ObjectOver(members, rest, d);
  }

  lemma BracketOver(a: char, pad: string, b: char, rest: string)
    requires AllWs(pad) && (b == ']' || b == '}')
    ensures var t := [a] + pad + [b] + rest;
      t[0] == a && At(SkipWs(t[1..]), b) && SkipWs(t[1..])[1..] == rest
  {
    var t := [a] + pad + [b] + rest;
    Group3(pad, [b], rest);
    assert t[1..] == pad + ([b] + rest);
    WsOver(pad, [b] + rest);
  }

  lemma {:induction false} ArrayOver(items: Items, rest: string, d: int)
    requires ItemsOk(items) && d + 1 + ItemsDepth(items) <= MaxDepth
    ensures SkipArray(['['] + ItemsText(items) + [']'] + rest, d) == Some(rest)
    decreases items, 5
  {
    var s := ['['] + ItemsText(items) + [']'] + rest;
    var tail := ItemsText(items) + ([']'] + rest);
    Group3(ItemsText(items), [']'], rest);
    assert s[1..] == tail;
    ItemsStart(items, [']'] + rest);
    ItemsOver(items, rest, d);
  }

  /** Behind its white space, a list of items starts with its first value. */
  lemma ItemsStart(i: Items, close: string)
    requires ItemsOk(i)
    ensures var t := SkipWs(ItemsText(i) + close); |t| > 0 && t[0] != ']' && SkipWs(t) == t
  {
    var tail := i.after + ((if i.NextItem? then [','] + ItemsText(i.rest) else "") + close);
    ItemsHead(i, close);
    JsonFirst(i.value);
    var t := JsonText(i.value) + tail;
    assert t[0] == JsonText(i.value)[0];
    WsOver(i.before, t);
  }

  lemma ItemsHead(i: Items, close: string)
    ensures ItemsText(i) + close
         == i.before + (JsonText(i.value) + (i.after
           + ((if i.NextItem? then [','] + ItemsText(i.rest) else "") + close)))
  {
    var more := if i.NextItem? then [','] + ItemsText(i.rest) else "";
    Group5(i.before, JsonText(i.value), i.after, more, close);
  }

  /** One value with the white space around it, before a comma or the closing bracket. */
  lemma {:induction false} ValueStep(w: string, j: Json, after: string, next: string, d: int)
    requires AllWs(w) && JsonOk(j) && AllWs(after) && d + Depth(j) <= MaxDepth
    requires |next| > 0 && (next[0] == ']' || next[0] == '}' || next[0] == ',')
    ensures SkipValue(w + (JsonText(j) + (after + next)), d) == Some(after + next)
    ensures SkipWs(after + next) == next
    decreases j, 2
  {
    StopsAfter(after, next);
    ValueOver(w, j, after + next, d);
  }

  /** SkipWs before a value makes no difference. */
  lemma {:induction false} SkipTwice(s: string)
    ensures SkipWs(SkipWs(s)) == SkipWs(s)
  {
    if |s| > 0 && Ws(s[0]) { SkipTwice(s[1..]); }
  }

  lemma ItemsUnfold(s: string, d: int, v: string, t: string)
    requires SkipValue(s, d + 1) == Some(v) && SkipWs(v) == t && |t| > 0
    ensures t[0] == ']' ==> SkipItems(s, d) == Some(t[1..])
    ensures t[0] == ',' ==> SkipItems(s, d) == SkipItems(SkipWs(t[1..]), d)
  {
  }

  lemma {:induction false} ItemsOver(i: Items, rest: string, d: int)
    requires ItemsOk(i) && d + 1 + ItemsDepth(i) <= MaxDepth
    ensures SkipItems(SkipWs(ItemsText(i) + ([']'] + rest)), d) == Some(rest)
    decreases i, 3
  {
    var close := [']'] + rest;
    ItemsHead(i, close);
    SkipTwice(ItemsText(i) + close);
    if i.NextItem? {
      var next := [','] + (ItemsText(i.rest) + close);
      Group3([','], ItemsText(i.rest), close);
      ValueStep(i.before, i.value, i.after, next, d + 1);
      ItemsUnfold(SkipWs(ItemsText(i) + close), d, i.after + next, next);
      assert next[1..] == ItemsText(i.rest) + close;
      ItemsOver(i.rest, rest, d);
    } else {
      assert "" + close == close;
      ValueStep(i.before, i.value, i.after, close, d + 1);
      ItemsUnfold(SkipWs(ItemsText(i) + close), d, i.after + close, close);
      assert close[1..] == rest;
    }
  }

  lemma {:induction false} ObjectOver(members: Members, rest: string, d: int)
    requires MembersOk(members, {}) && d + 1 + MembersDepth(members) <= MaxDepth
    ensures SkipObject(['{'] + MembersText(members) + ['}'] + rest, d) == Some(rest)
    decreases members, 5
  {
    var s := ['{'] + MembersText(members) + ['}'] + rest;
    ObjectBody(MembersText(members), rest);
    MembersStart(members, ['}'] + rest);
    MembersOver(members, rest, d, {});
  }

  lemma ObjectBody(body: string, rest: string)
    ensures var s := ['{'] + body + ['}'] + rest; s[0] == '{' && s[1..] == body + (['}'] + rest)
  {
    Group3(body, ['}'], rest);
  }

  /** What is left of a member list once the white space before it is skipped. */
  function MembersTail(m: Members, close: string): string {
    StringText(m.key) + (m.gap + ([':'] + (m.pad + (JsonText(m.value) + (m.after
      + ((if m.NextMember? then [','] + MembersText(m.rest) else "") + close))))))
  }

  lemma MembersStart(m: Members, close: string)
    requires AllWs(m.before)
    ensures SkipWs(MembersText(m) + close) == MembersTail(m, close) && MembersTail(m, close)[0] == '"'
  {
    var more := if m.NextMember? then [','] + MembersText(m.rest) else "";
    var t := MembersTail(m, close);
    MembersTextIs(m);
    Group3(m.before, MemberText(m.key, m.gap, m.pad, m.value, m.after) + more, close);
    Group5(m.pad, JsonText(m.value), m.after, more, close);
    Group4(StringText(m.key), m.gap, [':'], m.pad + JsonText(m.value) + m.after + more + close);
    Group3(m.pad + JsonText(m.value) + m.after, more, close);
    Group3(StringText(m.key) + m.gap + [':'], m.pad + JsonText(m.value) + m.after, more + close);
    Group3(MemberText(m.key, m.gap, m.pad, m.value, m.after), more, close);
    assert MembersText(m) + close == m.before + t;
    WsOver(m.before, t);
  }

  lemma KeyOver(ps: seq<Piece>, gap: string, rest: string)
    requires CharsOk(ps) && AllWs(gap)
    ensures ParseKey(StringText(ps) + (gap + ([':'] + rest))) == Some(Chars(CharsValue(ps), rest))
  {
    StringOver(ps, gap + ([':'] + rest));
    WsOver(gap, [':'] + rest);
    assert ([':'] + rest)[1..] == rest;
  }

  /** One member, before a comma or the closing brace. */
  lemma {:induction false} MemberStep(m: Members, next: string, d: int)
    requires CharsOk(m.key) && AllWs(m.gap) && AllWs(m.pad) && JsonOk(m.value) && AllWs(m.after)
      && d + Depth(m.value) <= MaxDepth
    requires |next| > 0 && (next[0] == '}' || next[0] == ',')
    ensures var key := ParseKey(StringText(m.key)
      + (m.gap + ([':'] + (m.pad + (JsonText(m.value) + (m.after + next))))));
      && key.Some? && key.value.value == CharsValue(m.key)
      && SkipValue(key.value.rest, d) == Some(m.after + next)
    ensures SkipWs(m.after + next) == next
    decreases m, 2
  {
    ValueStep(m.pad, m.value, m.after, next, d);
    KeyOver(m.key, m.gap, m.pad + (JsonText(m.value) + (m.after + next)));
  }

  lemma MembersUnfold(s: string, d: int, keys: set<string>, key: Chars, v: string, t: string)
    requires ParseKey(s) == Some(key) && key.value !in keys && SkipValue(key.rest, d + 1) == Some(v) && SkipWs(v) == t
      && |t| > 0
    ensures t[0] == '}' ==> SkipMembers(s, d, keys) == Some(t[1..])
    ensures t[0] == ',' ==> SkipMembers(s, d, keys) == SkipMembers(SkipWs(t[1..]), d, keys + {key.value})
  {
  }

  lemma {:induction false} MembersOver(m: Members, rest: string, d: int, keys: set<string>)
    requires MembersOk(m, keys) && d + 1 + MembersDepth(m) <= MaxDepth
    ensures SkipMembers(SkipWs(MembersText(m) + (['}'] + rest)), d, keys) == Some(rest)
    decreases m, 4
  {
    var close := ['}'] + rest;
    MembersStart(m, close);
    if m.NextMember? {
      var next := [','] + (MembersText(m.rest) + close);
      Group3([','], MembersText(m.rest), close);
      MemberUnfold(m, next, d, keys);
      assert next[1..] == MembersText(m.rest) + close;
      MembersOver(m.rest, rest, d, keys + {CharsValue(m.key)});
    } else {
      assert "" + close == close;
      MemberUnfold(m, close, d, keys);
      assert close[1..] == rest;
    }
  }

  /** The first member of a list and what follows it. */
  lemma {:induction false} MemberUnfold(m: Members, next: string, d: int, keys: set<string>)
    requires CharsOk(m.key) && AllWs(m.gap) && AllWs(m.pad) && JsonOk(m.value) && AllWs(m.after)
      && d + 1 + Depth(m.value) <= MaxDepth
    requires |next| > 0 && (next[0] == '}' || next[0] == ',') && CharsValue(m.key) !in keys
    ensures var s := StringText(m.key) + (m.gap + ([':'] + (m.pad + (JsonText(m.value) + (m.after + next)))));
      SkipMembers(s, d, keys) == if next[0] == '}' then Some(next[1..])
        else SkipMembers(SkipWs(next[1..]), d, keys + {CharsValue(m.key)})
    decreases m, 3
  {
    MemberStep(m, next, d + 1);
    var s := StringText(m.key) + (m.gap + ([':'] + (m.pad + (JsonText(m.value) + (m.after + next)))));
    MembersUnfold(s, d, keys, ParseKey(s).value, m.after + next, next);
  }

  /** w is white space, j a value of the grammar that fits below depth d, and s their text. */
  ghost predicate Reads(s: string, w: string, j: Json, d: int) {
    AllWs(w) && JsonOk(j) && d + Depth(j) <= MaxDepth && s == w + JsonText(j)
  }

  /** A whole text is accepted exactly when it is one RFC 8259 value within the depth limit, without
      repeated keys or unpaired surrogates. */
  lemma AcceptsExactly(s: string, d: int)
    ensures SkipValue(s, d) == Some("") <==> exists w, j :: Reads(s, w, j, d)
  {
    if SkipValue(s, d) == Some("") {
      var w, j := ValueSound(s, d);
      assert JsonText(j) + "" == JsonText(j);
      assert Reads(s, w, j, d);
    }
    if exists w, j :: Reads(s, w, j, d) {
      var w, j :| Reads(s, w, j, d);
      assert JsonText(j) + "" == JsonText(j);
      ValueOver(w, j, "", d);
    }
  }
}
