/** The JSON reader as it is written: a cursor moved over the text in loops. Every routine leaves the
    cursor where the reader functions say. */
module JsonScanner {
  import opened Spools
  import opened JsonGrammar
  import opened JsonParser

  /** What a routine says: the text left behind the cursor, or failure. */
  function Left(ok: bool, text: string, q: nat): Option<string>
    requires q <= |text|
  {
    if ok then Some(text[q..]) else None
  }

  function LeftChars(ok: bool, out: string, text: string, q: nat): Option<Chars>
    requires q <= |text|
  {
    if ok then Some(Chars(out, text[q..])) else None
  }

  predicate IsAt(text: string, p: nat, c: char) { p < |text| && text[p] == c }

  lemma Step(text: string, p: nat, k: nat)
    requires p + k <= |text|
    ensures text[p..][k..] == text[p + k..]
    ensures forall i :: 0 <= i < |text| - p ==> text[p..][i] == text[p + i]
  {
  }

  method ScanWs(text: string, p: nat) returns (q: nat)
    requires p <= |text|
    ensures p <= q <= |text| && text[q..] == SkipWs(text[p..])
  {
    q := p;
    while q < |text| && Ws(text[q])
      invariant p <= q <= |text| && SkipWs(text[q..]) == SkipWs(text[p..])
    {
      Step(text, q, 1);
      q := q + 1;
    }
  }

  method ScanHex4(text: string, p: nat) returns (ok: bool, q: nat, value: nat)
    requires p <= |text|
    ensures p <= q <= |text| && Hex4Of(text[p..]) == if ok then Some(value) else None
    ensures ok ==> q == p + 4
  {
    q, value := p, 0;
    if |text| - p < 4 { return false, q, 0; }
    var h := text[p..][..4];
    for i := 0 to 4
      invariant q == p + i && HexPrefix(h, i) && value == HexUpTo(h, i)
    {
      var c := text[q];
      assert c == h[i];
      if !Hex(c) { return false, q, 0; }
      value := value * 16 + HexDigit(c);
      q := q + 1;
    }
    HexAll(h);
    ok := true;
  }

  predicate HexPrefix(h: string, n: nat) { n <= |h| && forall i :: 0 <= i < n ==> Hex(h[i]) }

  /** The value of the first n hex digits, 0 when one of them is none. */
  function HexUpTo(h: string, n: nat): nat {
    if n == 0 || !HexPrefix(h, n) then 0 else HexUpTo(h, n - 1) * 16 + HexDigit(h[n - 1])
  }

  lemma HexAll(h: string)
    requires |h| == 4 && HexPrefix(h, 4)
    ensures Hex4(h) && HexUpTo(h, 4) == HexValue(h)
  {
    assert HexUpTo(h, 1) == HexDigit(h[0]);
    assert HexUpTo(h, 2) == HexUpTo(h, 1) * 16 + HexDigit(h[1]);
    assert HexUpTo(h, 3) == HexUpTo(h, 2) * 16 + HexDigit(h[2]);
  }

  /** Prepending what was read so far. */
  function Before(out: string, r: Option<Chars>): Option<Chars> {
    if r.None? then None else Some(Chars(out + r.value.value, r.value.rest))
  }

  lemma BeforeMore(out: string, piece: string, r: Option<Chars>)
    ensures Before(out, Before(piece, r)) == Before(out + piece, r)
  {
    if r.Some? { assert out + (piece + r.value.value) == out + piece + r.value.value; }
  }

  /** The \u escape behind its u: one code unit or a surrogate pair. */
  method ScanUnicode(text: string, p: nat) returns (ok: bool, q: nat, piece: string)
    requires p <= |text|
    ensures p <= q <= |text| && UnicodeEscape(text[p..]) == LeftChars(ok, piece, text, q)
  {
    piece := "";
    var codepoint;
    ok, q, codepoint := ScanHex4(text, p);
    if !ok { return; }
    Step(text, p, 4);
    if HighSurrogate(codepoint) {
      if |text| - q < 2 || text[q] != '\\' || text[q + 1] != 'u' { return false, q, ""; }
      q := q + 2;
      Step(text, p, 6);
      var low;
      ok, q, low := ScanHex4(text, q);
      if !ok || !LowSurrogate(low) { return false, q, ""; }
      Step(text, p, 10);
      codepoint := 0x1_0000 + (codepoint - 0xd800) * 1024 + (low - 0xdc00);
    } else if LowSurrogate(codepoint) {
      return false, q, "";
    }
    piece := Utf8(codepoint);
  }

  /** One element of a string that does not start with a quote. */
  method ScanPiece(text: string, p: nat) returns (ok: bool, q: nat, piece: string)
    requires p < |text| && text[p] != '"'
    ensures p < q <= |text| && NextPiece(text[p..]) == LeftChars(ok, piece, text, q)
  {
    var c := text[p];
    q := p + 1;
    Step(text, p, 1);
    if c < ' ' { return false, q, ""; }
    if c != '\\' { return true, q, [c]; }
    if q >= |text| { return false, q, ""; }
    var escaped := text[q];
    q := q + 1;
    Step(text, p, 2);
    if escaped == 'u' {
      ok, q, piece := ScanUnicode(text, q);
    } else if ShortEscape(escaped) {
      ok, piece := true, [ShortValue(escaped)];
    } else {
      ok, piece := false, "";
    }
  }

  method ScanString(text: string, p: nat) returns (ok: bool, q: nat, out: string)
    requires p <= |text|
    ensures p <= q <= |text| && ParseString(text[p..]) == LeftChars(ok, out, text, q)
    ensures ok ==> p < q
  {
    out, q := "", p;
    if !IsAt(text, p, '"') { return false, q, out; }
    Step(text, p, 1);
    ok, q, out := ScanBody(text, p + 1);
  }

  /** The loop of the string scanner, behind the opening quote. */
  method ScanBody(text: string, p: nat) returns (ok: bool, q: nat, out: string)
    requires p <= |text|
    ensures p <= q <= |text| && StringBody(text[p..]) == LeftChars(ok, out, text, q)
  {
    out, q := "", p;
    ghost var goal := StringBody(text[p..]);
    NothingBefore(goal);
    while q < |text|
      invariant p <= q <= |text| && Before(out, StringBody(text[q..])) == goal
    {
      if text[q] == '"' {
        Step(text, q, 1);
        assert out + "" == out;
        return true, q + 1, out;
      }
      var piece;
      ok, q, piece := ScanPiece(text, q);
      if !ok { return false, q, out; }
      BeforeMore(out, piece, StringBody(text[q..]));
      out := out + piece;
    }
    ok := false;
  }

  lemma NothingBefore(r: Option<Chars>)
    ensures Before("", r) == r
  {
    if r.Some? { assert "" + r.value.value == r.value.value; }
  }

  method ScanDigits(text: string, p: nat) returns (q: nat)
    requires p <= |text|
    ensures p <= q <= |text| && text[q..] == SkipDigits(text[p..])
  {
    q := p;
    while q < |text| && Digit(text[q])
      invariant p <= q <= |text| && SkipDigits(text[q..]) == SkipDigits(text[p..])
    {
      Step(text, q, 1);
      q := q + 1;
    }
  }

  method ScanNumber(text: string, p: nat) returns (ok: bool, q: nat)
    requires p <= |text|
    ensures p <= q <= |text| && SkipNumber(text[p..]) == Left(ok, text, q)
  {
    q := p;
    Step(text, p, 0);
    if IsAt(text, q, '-') {
      Step(text, p, 1);
      q := q + 1;
    }
    ok, q := ScanWhole(text, q);
    if !ok { return; }
    ok, q := ScanFraction(text, q);
    if !ok { return; }
    ok, q := ScanExponent(text, q);
  }

  method ScanWhole(text: string, p: nat) returns (ok: bool, q: nat)
    requires p <= |text|
    ensures p <= q <= |text| && SkipWhole(text[p..]) == Left(ok, text, q)
  {
    if p >= |text| { return false, p; }
    Step(text, p, 1);
    q := p;
    if text[q] == '0' { return true, q + 1; }
    if !Digit(text[q]) { return false, q; }
    q := ScanDigits(text, q + 1);
    ok := true;
  }

  method ScanFraction(text: string, p: nat) returns (ok: bool, q: nat)
    requires p <= |text|
    ensures p <= q <= |text| && SkipFraction(text[p..]) == Left(ok, text, q)
  {
    q := p;
    if !IsAt(text, q, '.') { return true, q; }
    q := q + 1;
    if q >= |text| || !Digit(text[q]) { return false, q; }
    Step(text, p, 2);
    q := ScanDigits(text, q + 1);
    ok := true;
  }

  method ScanExponent(text: string, p: nat) returns (ok: bool, q: nat)
    requires p <= |text|
    ensures p <= q <= |text| && SkipExponent(text[p..]) == Left(ok, text, q)
  {
    q := p;
    if !IsAt(text, q, 'e') && !IsAt(text, q, 'E') { return true, q; }
    q := q + 1;
    Step(text, p, 1);
    ghost var signed := q;
    if IsAt(text, q, '+') || IsAt(text, q, '-') {
      Step(text, q, 1);
      q := q + 1;
    }
    assert text[q..] == SkipSign(text[signed..]);
    if q >= |text| || !Digit(text[q]) { return false, q; }
    Step(text, q, 1);
    q := ScanDigits(text, q + 1);
    ok := true;
  }

  method ScanName(text: string, p: nat) returns (ok: bool, q: nat)
    requires p <= |text|
    ensures p <= q <= |text| && SkipName(text[p..]) == Left(ok, text, q)
  {
    var names := ["true", "false", "null"];
    var s := text[p..];
    for i := 0 to 3
      invariant forall k :: 0 <= k < i ==> !StartsWith(s, names[k])
    {
      if StartsWith(s, names[i]) {
        assert SkipName(s) == Some(s[|names[i]|..]) by {
          if i == 0 {
            assert names[i] == "true";
          } else if i == 1 {
            assert names[0] == "true" && names[i] == "false";
          } else {
            assert names[0] == "true" && names[1] == "false" && names[i] == "null";
          }
        }
        Step(text, p, |names[i]|);
        return true, p + |names[i]|;
      }
    }
    assert !StartsWith(s, names[0]) && !StartsWith(s, names[1]) && !StartsWith(s, names[2]);
    return false, p;
  }

  /** How a list goes on behind a value. */
  datatype Turn = Closed | Again | Broken

  method ScanTurn(text: string, p: nat, close: char) returns (turn: Turn, q: nat)
    requires p <= |text| && close != ','
    ensures p <= q <= |text|
    ensures var t := SkipWs(text[p..]);
      match turn
      case Closed => At(t, close) && text[q..] == t[1..] && p < q
      case Again => At(t, ',') && text[q..] == SkipWs(t[1..]) && p < q
      case Broken => !At(t, close) && !At(t, ',')
  {
    q := ScanWs(text, p);
    if IsAt(text, q, close) {
      Step(text, q, 1);
      return Closed, q + 1;
    }
    if !IsAt(text, q, ',') { return Broken, q; }
    Step(text, q, 1);
    q := ScanWs(text, q + 1);
    turn := Again;
  }

  method ScanArray(text: string, p: nat, d: int) returns (ok: bool, q: nat)
    requires p <= |text|
    ensures p <= q <= |text| && SkipArray(text[p..], d) == Left(ok, text, q)
    ensures ok ==> p < q
    decreases |text| - p, 1
  {
    q := p;
    if d > MaxDepth || !IsAt(text, q, '[') { return false, q; }
    Step(text, p, 1);
    q := ScanWs(text, q + 1);
    if IsAt(text, q, ']') {
      Step(text, q, 1);
      return true, q + 1;
    }
    ghost var goal := SkipItems(text[q..], d);
    while q < |text|
      invariant p < q <= |text| && SkipItems(text[q..], d) == goal
      decreases |text| - q
    {
      var turn;
      turn, q := ScanItem(text, q, d);
      if turn != Again { return turn == Closed, q; }
    }
    ok := false;
  }

  /** One item of an array and what follows it. */
  method ScanItem(text: string, p: nat, d: int) returns (turn: Turn, q: nat)
    requires p < |text|
    ensures p <= q <= |text| && (turn != Broken ==> p < q)
    ensures SkipItems(text[p..], d) == match turn
      case Closed => Some(text[q..])
      case Again => SkipItems(text[q..], d)
      case Broken => None
    decreases |text| - p, 3
  {
    var ok;
    ok, q := ScanValue(text, p, d + 1);
    if !ok { return Broken, q; }
    turn, q := ScanTurn(text, q, ']');
  }

  method ScanKey(text: string, p: nat) returns (ok: bool, q: nat, key: string)
    requires p <= |text|
    ensures p <= q <= |text| && ParseKey(text[p..]) == LeftChars(ok, key, text, q)
    ensures ok ==> p < q
  {
    ok, q, key := ScanString(text, p);
    if !ok { return; }
    q := ScanWs(text, q);
    if !IsAt(text, q, ':') { return false, q, key; }
    Step(text, q, 1);
    q := q + 1;
  }

  /** One member of an object and what follows it. */
  method ScanMember(text: string, p: nat, d: int, keys: set<string>) returns (turn: Turn, q: nat, key: string)
    requires p < |text|
    ensures p <= q <= |text|
    ensures SkipMembers(text[p..], d, keys) ==
      match turn
      case Closed => Some(text[q..])
      case Again => SkipMembers(text[q..], d, keys + {key})
      case Broken => None
    ensures turn != Broken ==> p < q
    decreases |text| - p, 0
  {
    var ok;
    ok, q, key := ScanKey(text, p);
    if !ok || key in keys { return Broken, q, key; }
    ok, q := ScanValue(text, q, d + 1);
    if !ok { return Broken, q, key; }
    turn, q := ScanTurn(text, q, '}');
  }

  method ScanObject(text: string, p: nat, d: int) returns (ok: bool, q: nat)
    requires p <= |text|
    ensures p <= q <= |text| && SkipObject(text[p..], d) == Left(ok, text, q)
    ensures ok ==> p < q
    decreases |text| - p, 1
  {
    q := p;
    if d > MaxDepth || !IsAt(text, q, '{') { return false, q; }
    Step(text, p, 1);
    q := ScanWs(text, q + 1);
    if IsAt(text, q, '}') {
      Step(text, q, 1);
      return true, q + 1;
    }
    var keys: set<string> := {};
    ghost var goal := SkipMembers(text[q..], d, keys);
    while q < |text|
      invariant p < q <= |text| && SkipMembers(text[q..], d, keys) == goal
      decreases |text| - q
    {
      var turn, key;
      turn, q, key := ScanMember(text, q, d, keys);
      if turn != Again { return turn == Closed, q; }
      keys := keys + {key};
    }
    ok := false;
  }

  method ScanValue(text: string, p: nat, d: int) returns (ok: bool, q: nat)
    requires p <= |text|
    ensures p <= q <= |text| && SkipValue(text[p..], d) == Left(ok, text, q)
    ensures ok ==> p < q
    decreases |text| - p, 2
  {
    if d > MaxDepth { return false, p; }
    q := ScanWs(text, p);
    if q >= |text| { return false, q; }
    var c := text[q];
    if c == '{' {
      ok, q := ScanObject(text, q, d);
    } else if c == '[' {
      ok, q := ScanArray(text, q, d);
    } else if c == '"' {
      var ignored;
      ok, q, ignored := ScanString(text, q);
    } else if c == '-' || Digit(c) {
      ok, q := ScanNumber(text, q);
    } else {
      ok, q := ScanName(text, q);
    }
  }
}
