/** The strict recursive-descent JSON reader, as functions from the text still to be read to what is
    left of it, and the exact set of texts it accepts. */
module JsonParser {
  import opened Spools
  import opened JsonGrammar

  const MaxDepth: int := 64

  function SkipWs(s: string): (r: string)
    ensures |r| <= |s|
  {
    if |s| > 0 && Ws(s[0]) then SkipWs(s[1..]) else s
  }

  predicate At(s: string, c: char) { |s| > 0 && s[0] == c }

  // ---------------------------------------------------------------- strings

  datatype Chars = Chars(value: string, rest: string)

  function Hex4Of(s: string): (r: Option<nat>)
    ensures r.Some? ==> |s| >= 4 && r.value < 0x1_0000
  {
    if |s| >= 4 && Hex4(s[..4]) then Some(HexValue(s[..4])) else None
  }

  /** What a \u escape stands for; s follows the u. */
  function UnicodeEscape(s: string): (r: Option<Chars>)
    ensures r.Some? ==> |r.value.rest| < |s|
  {
    var v := Hex4Of(s);
    if v.None? then None else
    if HighSurrogate(v.value) then
      if |s| < 6 || s[4] != '\\' || s[5] != 'u' then None else
      var low := Hex4Of(s[6..]);
      if low.None? || !LowSurrogate(low.value) then None
      else Some(Chars(Utf8(0x1_0000 + (v.value - 0xd800) * 1024 + (low.value - 0xdc00)), s[10..]))
    else if LowSurrogate(v.value) then None
    else Some(Chars(Utf8(v.value), s[4..]))
  }

  /** One element of a string. */
  function NextPiece(s: string): (r: Option<Chars>)
    ensures r.Some? ==> |r.value.rest| < |s|
  {
    if |s| == 0 || s[0] == '"' || s[0] < ' ' then None
    else if s[0] != '\\' then Some(Chars([s[0]], s[1..]))
    else if |s| == 1 then None
    else if s[1] == 'u' then UnicodeEscape(s[2..])
    else if ShortEscape(s[1]) then Some(Chars([ShortValue(s[1])], s[2..]))
    else None
  }

  /** The rest of a string after its opening quote. */
  function StringBody(s: string): (r: Option<Chars>)
    ensures r.Some? ==> |r.value.rest| < |s|
    decreases |s|
  {
    if At(s, '"') then Some(Chars("", s[1..])) else
    var piece := NextPiece(s);
    if piece.None? then None else
    var tail := StringBody(piece.value.rest);
    if tail.None? then None else Some(Chars(piece.value.value + tail.value.value, tail.value.rest))
  }

  function ParseString(s: string): (r: Option<Chars>)
    ensures r.Some? ==> |r.value.rest| < |s|
  {
    if At(s, '"') then StringBody(s[1..]) else None
  }

  // ---------------------------------------------------------------- numbers

  function SkipDigits(s: string): (r: string)
    ensures |r| <= |s|
  {
    if |s| > 0 && Digit(s[0]) then SkipDigits(s[1..]) else s
  }

  function SkipWhole(s: string): (r: Option<string>)
    ensures r.Some? ==> |r.value| < |s|
  {
    if |s| == 0 || !Digit(s[0]) then None else if s[0] == '0' then Some(s[1..]) else Some(SkipDigits(s[1..]))
  }

  function SkipFraction(s: string): (r: Option<string>)
    ensures r.Some? ==> |r.value| <= |s|
  {
    if !At(s, '.') then Some(s)
    else if |s| == 1 || !Digit(s[1]) then None else Some(SkipDigits(s[2..]))
  }

  function SkipSign(s: string): (r: string)
    ensures |r| <= |s|
  {
    if At(s, '+') || At(s, '-') then s[1..] else s
  }

  function SkipExponent(s: string): (r: Option<string>)
    ensures r.Some? ==> |r.value| <= |s|
  {
    if !At(s, 'e') && !At(s, 'E') then Some(s)
    else
      var d := SkipSign(s[1..]);
      if |d| == 0 || !Digit(d[0]) then None else Some(SkipDigits(d[1..]))
  }

  function SkipNumber(s: string): (r: Option<string>)
    ensures r.Some? ==> |r.value| < |s|
  {
    var whole := SkipWhole(if At(s, '-') then s[1..] else s);
    if whole.None? then None else
    var frac := SkipFraction(whole.value);
    if frac.None? then None else SkipExponent(frac.value)
  }

  // ---------------------------------------------------------------- values

  predicate StartsWith(s: string, t: string) { |s| >= |t| && s[..|t|] == t }

  function SkipName(s: string): (r: Option<string>)
    ensures r.Some? ==> |r.value| < |s|
  {
    if StartsWith(s, "true") then Some(s[4..])
    else if StartsWith(s, "false") then Some(s[5..])
    else if StartsWith(s, "null") then Some(s[4..])
    else None
  }

  function SkipValue(s: string, d: int): (r: Option<string>)
    ensures r.Some? ==> |r.value| < |s|
    decreases |s|, 2
  {
    if d > MaxDepth then None else
    var t := SkipWs(s);
    if |t| == 0 then None
    else if t[0] == '{' then SkipObject(t, d)
    else if t[0] == '[' then SkipArray(t, d)
    else if t[0] == '"' then var p := ParseString(t); if p.None? then None else Some(p.value.rest)
    else if t[0] == '-' || Digit(t[0]) then SkipNumber(t)
    else SkipName(t)
  }

  function SkipArray(s: string, d: int): (r: Option<string>)
    ensures r.Some? ==> |r.value| < |s|
    decreases |s|, 1
  {
    if d > MaxDepth || !At(s, '[') then None else
    var t := SkipWs(s[1..]);
    if At(t, ']') then Some(t[1..]) else SkipItems(t, d)
  }

  function SkipItems(s: string, d: int): (r: Option<string>)
    ensures r.Some? ==> |r.value| < |s|
    decreases |s|, 3
  {
    var value := SkipValue(s, d + 1);
    if value.None? then None else
    var t := SkipWs(value.value);
    if At(t, ']') then Some(t[1..]) else if !At(t, ',') then None else SkipItems(SkipWs(t[1..]), d)
  }

  function SkipObject(s: string, d: int): (r: Option<string>)
    ensures r.Some? ==> |r.value| < |s|
    decreases |s|, 1
  {
    if d > MaxDepth || !At(s, '{') then None else
    var t := SkipWs(s[1..]);
    if At(t, '}') then Some(t[1..]) else SkipMembers(t, d, {})
  }

  /** The member key and what follows its colon. */
  function ParseKey(s: string): (r: Option<Chars>)
    ensures r.Some? ==> |r.value.rest| < |s|
  {
    var key := ParseString(s);
    if key.None? then None else
    var t := SkipWs(key.value.rest);
    if At(t, ':') then Some(Chars(key.value.value, t[1..])) else None
  }

  function SkipMembers(s: string, d: int, keys: set<string>): (r: Option<string>)
    ensures r.Some? ==> |r.value| < |s|
    decreases |s|, 3
  {
    var key := ParseKey(s);
    if key.None? || key.value.value in keys then None else
    var value := SkipValue(key.value.rest, d + 1);
    if value.None? then None else
    var t := SkipWs(value.value);
    if At(t, '}') then Some(t[1..]) else if !At(t, ',') then None
    else SkipMembers(SkipWs(t[1..]), d, keys + {key.value.value})
  }
}
