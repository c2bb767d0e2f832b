/** JSON texts as RFC 8259 (sections 2 to 7) builds them, written down as concrete syntax:
    every value keeps the characters and the white space it was written with. Texts are
    sequences of 8-bit characters; characters above 127 are not looked into. */
module JsonGrammar {

  predicate Ws(c: char) { c == ' ' || c == '\n' || c == '\t' || c == '\r' }

  predicate AllWs(s: string) { forall i :: 0 <= i < |s| ==> Ws(s[i]) }

  predicate Digit(c: char) { '0' <= c <= '9' }

  predicate AllDigits(s: string) { forall i :: 0 <= i < |s| ==> Digit(s[i]) }

  // ---------------------------------------------------------------- strings

  predicate Hex(c: char) { Digit(c) || 'a' <= c <= 'f' || 'A' <= c <= 'F' }

  function HexDigit(c: char): nat
    requires Hex(c)
  {
    if Digit(c) then c as int - '0' as int
    else if 'a' <= c <= 'f' then c as int - 'a' as int + 10
    else c as int - 'A' as int + 10
  }

  predicate Hex4(h: string) { |h| == 4 && Hex(h[0]) && Hex(h[1]) && Hex(h[2]) && Hex(h[3]) }

  function HexValue(h: string): (v: nat)
    requires Hex4(h)
    ensures v < 0x1_0000
  {
    0x1000 * HexDigit(h[0]) + 0x100 * HexDigit(h[1]) + 0x10 * HexDigit(h[2]) + HexDigit(h[3])
  }

  predicate HighSurrogate(v: nat) { 0xd800 <= v <= 0xdbff }

  predicate LowSurrogate(v: nat) { 0xdc00 <= v <= 0xdfff }

  /** One element of a string: a plain character, a short escape, a \u escape or a surrogate pair. */
  datatype Piece = Plain(c: char) | Short(c: char) | Unit(hex: string) | Pair(high: string, low: string)

  predicate ShortEscape(c: char) {
    c == '"' || c == '\\' || c == '/' || c == 'b' || c == 'f' || c == 'n' || c == 'r' || c == 't'
  }

  /** Unpaired surrogates are excluded, which the RFC leaves open. */
  predicate PieceOk(p: Piece) {
    match p
    case Plain(c) => c >= ' ' && c != '"' && c != '\\'
    case Short(c) => ShortEscape(c)
    case Unit(h) => Hex4(h) && !HighSurrogate(HexValue(h)) && !LowSurrogate(HexValue(h))
    case Pair(h, l) => Hex4(h) && Hex4(l) && HighSurrogate(HexValue(h)) && LowSurrogate(HexValue(l))
  }

  function PieceText(p: Piece): (t: string)
    ensures |t| > 0
  {
    match p
    case Plain(c) => [c]
    case Short(c) => ['\\', c]
    case Unit(h) => ['\\', 'u'] + h
    case Pair(h, l) => ['\\', 'u'] + h + (['\\', 'u'] + l)
  }

  function ShortValue(c: char): char {
    if c == 'b' then 8 as char else if c == 'f' then 12 as char else if c == 'n' then '\n'
    else if c == 'r' then '\r' else if c == 't' then '\t' else c
  }

  /** The UTF-8 form of a code point. */
  function Utf8(v: nat): string
    requires v < 0x11_0000
  {
    if v <= 0x7f then [v as char]
    else if v <= 0x7ff then [(0xc0 + v / 64) as char, (0x80 + v % 64) as char]
    else if v <= 0xffff then [(0xe0 + v / 4096) as char, (0x80 + v / 64 % 64) as char, (0x80 + v % 64) as char]
    else [(0xf0 + v / 262144) as char, (0x80 + v / 4096 % 64) as char, (0x80 + v / 64 % 64) as char,
      (0x80 + v % 64) as char]
  }

  function PieceValue(p: Piece): string
    requires PieceOk(p)
  {
    match p
    case Plain(c) => [c]
    case Short(c) => [ShortValue(c)]
    case Unit(h) => Utf8(HexValue(h))
    case Pair(h, l) => Utf8(0x1_0000 + (HexValue(h) - 0xd800) * 1024 + (HexValue(l) - 0xdc00))
  }

  predicate CharsOk(ps: seq<Piece>) { forall i :: 0 <= i < |ps| ==> PieceOk(ps[i]) }

  function CharsText(ps: seq<Piece>): string {
    if |ps| == 0 then "" else PieceText(ps[0]) + CharsText(ps[1..])
  }

  function CharsValue(ps: seq<Piece>): string
    requires CharsOk(ps)
  {
    if |ps| == 0 then "" else PieceValue(ps[0]) + CharsValue(ps[1..])
  }

  function StringText(ps: seq<Piece>): string { ['"'] + CharsText(ps) + ['"'] }

  // ---------------------------------------------------------------- values

  datatype Json =
    | Name(text: string)
    | Number(minus: bool, whole: string, frac: string, exp: string)
    | Str(chars: seq<Piece>)
    | EmptyArray(pad: string)
    | Array(items: Items)
    | EmptyObject(pad: string)
    | Object(members: Members)

  datatype Items = LastItem(before: string, value: Json, after: string)
    | NextItem(before: string, value: Json, after: string, rest: Items)

  datatype Members = LastMember(before: string, key: seq<Piece>, gap: string, pad: string, value: Json, after: string)
    | NextMember(before: string, key: seq<Piece>, gap: string, pad: string, value: Json, after: string, rest: Members)

  predicate WholeOk(s: string) { |s| > 0 && AllDigits(s) && (s[0] == '0' ==> |s| == 1) }

  predicate FracOk(s: string) { s == "" || (|s| > 1 && s[0] == '.' && AllDigits(s[1..])) }

  predicate ExpOk(s: string) {
    || s == ""
    || (|s| > 1 && (s[0] == 'e' || s[0] == 'E')
        && (AllDigits(s[1..]) || (|s| > 2 && (s[1] == '+' || s[1] == '-') && AllDigits(s[2..]))))
  }

  predicate JsonOk(j: Json) {
    match j
    case Name(t) => t == "true" || t == "false" || t == "null"
    case Number(_, w, f, e) => WholeOk(w) && FracOk(f) && ExpOk(e)
    case Str(ps) => CharsOk(ps)
    case EmptyArray(pad) => AllWs(pad)
    case Array(items) => ItemsOk(items)
    case EmptyObject(pad) => AllWs(pad)
    case Object(members) => MembersOk(members, {})
  }

  predicate ItemsOk(i: Items) {
    AllWs(i.before) && JsonOk(i.value) && AllWs(i.after) && (i.NextItem? ==> ItemsOk(i.rest))
  }

  /** `seen` holds the decoded keys of the members before; no key is repeated. */
  predicate MembersOk(m: Members, seen: set<string>) {
    && AllWs(m.before) && CharsOk(m.key) && AllWs(m.gap) && AllWs(m.pad) && JsonOk(m.value) && AllWs(m.after)
    && CharsValue(m.key) !in seen
    && (m.NextMember? ==> MembersOk(m.rest, seen + {CharsValue(m.key)}))
  }

  function JsonText(j: Json): string {
    match j
    case Name(t) => t
    case Number(minus, w, f, e) => (if minus then "-" else "") + w + f + e
    case Str(ps) => StringText(ps)
    case EmptyArray(pad) => ['['] + pad + [']']
    case Array(items) => ['['] + ItemsText(items) + [']']
    case EmptyObject(pad) => ['{'] + pad + ['}']
    case Object(members) => ['{'] + MembersText(members) + ['}']
  }

  function ItemsText(i: Items): string {
    i.before + JsonText(i.value) + i.after + if i.NextItem? then [','] + ItemsText(i.rest) else ""
  }

  function MembersText(m: Members): string {
    m.before + StringText(m.key) + m.gap + [':'] + m.pad + JsonText(m.value) + m.after
    + if m.NextMember? then [','] + MembersText(m.rest) else ""
  }

  /** How many arrays and objects are nested below the value. */
  function Depth(j: Json): nat {
    match j
    case Array(items) => 1 + ItemsDepth(items)
    case Object(members) => 1 + MembersDepth(members)
    case _ => 0
  }

  function Deeper(a: nat, b: nat): nat { if a < b then b else a }

  function ItemsDepth(i: Items): nat {
    if i.NextItem? then Deeper(Depth(i.value), ItemsDepth(i.rest)) else Depth(i.value)
  }

  function MembersDepth(m: Members): nat {
    if m.NextMember? then Deeper(Depth(m.value), MembersDepth(m.rest)) else Depth(m.value)
  }
}
