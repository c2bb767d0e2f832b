/** Which header texts the reader accepts: RFC 8259 objects, and texts cut off behind an opening brace
    or a comma. */
module SafetensorsJson {
  import opened Spools
  import opened Bytes
  import opened Decimals
  import opened JsonGrammar
  import opened JsonParser
  import opened JsonExact
  import opened Safetensors

  // ---------------------------------------------------------------- tensor members are JSON

  function Plain(digits: string): Json { Number(false, digits, "", "") }

  lemma PlainText(digits: string)
    ensures JsonText(Plain(digits)) == digits && Depth(Plain(digits)) == 0
    ensures WholeOk(digits) ==> JsonOk(Plain(digits))
  {
    assert "" + digits + "" + "" == digits;
  }

  lemma {:induction false} UintDigitsSound(s: string, value: nat) returns (ds: string)
    requires UintDigits(s, value).Some?
    ensures AllDigits(ds) && s == ds + UintDigits(s, value).value.rest
    ensures |UintDigits(s, value).value.rest| == 0 || !Digit(UintDigits(s, value).value.rest[0])
    decreases |s|
  {
    if |s| > 0 && Digit(s[0]) {
      var v := value * 10 + DigitOf(s[0]);
      var rest := UintDigits(s, value).value.rest;
      assert UintDigits(s, value) == UintDigits(s[1..], v);
      var more := UintDigitsSound(s[1..], v);
      ds := [s[0]] + more;
      Group3([s[0]], more, rest);
      assert s == [s[0]] + s[1..];
    } else {
      ds := "";
    }
  }

  lemma UintSound(s: string) returns (w: string, digits: string)
    requires ParseUint(s).Some?
    ensures AllWs(w) && WholeOk(digits) && s == w + (digits + ParseUint(s).value.rest)
  {
    w := WsSplit(s);
    var t := SkipWs(s);
    var ds := UintDigitsSound(t[1..], DigitOf(t[0]));
    digits := [t[0]] + ds;
    assert t == [t[0]] + t[1..];
    if |ds| > 0 { assert t[1..][0] == ds[0] && Digit(t[1]); }
  }

  lemma {:induction false} ShapeItemsSound(s: string, dims: seq<nat>) returns (i: Items)
    requires ShapeItems(s, dims).Some?
    ensures ItemsOk(i) && ItemsDepth(i) == 0 && s == ItemsText(i) + ([']'] + ShapeItems(s, dims).value.rest)
    decreases |s|
  {
    var w, digits := UintSound(s);
    var dim := ParseUint(s).value;
    PlainText(digits);
    var after := WsSplit(dim.rest);
    var t := SkipWs(dim.rest);
    Group4(w, digits, after, t);
    if At(t, ']') {
      i := LastItem(w, Plain(digits), after);
      assert t == [']'] + t[1..];
      assert ItemsText(i) == w + digits + after;
    } else {
      var pad := WsSplit(t[1..]);
      var rest := ShapeItemsSound(SkipWs(t[1..]), dims + [dim.value]);
      ItemsPad(pad, rest);
      i := NextItem(w, Plain(digits), after, rest.(before := pad + rest.before));
      NextJoin(s, w + digits + after, t, pad, ItemsText(rest), [']'] + ShapeItems(s, dims).value.rest);
    }
  }

  lemma ArrayMade(pad: string, i: Items, rest: string) returns (j: Json)
    requires AllWs(pad) && ItemsOk(i)
    ensures JsonOk(j) && Depth(j) == 1 + ItemsDepth(i)
    ensures ['['] + (pad + (ItemsText(i) + ([']'] + rest))) == JsonText(j) + rest
  {
    ItemsPad(pad, i);
    var padded := i.(before := pad + i.before);
    j := Array(padded);
    Group3(pad, ItemsText(i), [']'] + rest);
    Group4(['['], ItemsText(padded), [']'], rest);
  }

  lemma ShapeSound(s: string) returns (j: Json)
    requires ParseShape(s).Some?
    ensures JsonOk(j) && s == JsonText(j) + ParseShape(s).value.rest
  {
    var pad := WsSplit(s[1..]);
    var t := SkipWs(s[1..]);
    assert s == ['['] + s[1..];
    if At(t, ']') {
      j := EmptyArray(pad);
      assert t == [']'] + t[1..];
      Group4(['['], pad, [']'], t[1..]);
    } else {
      var i := ShapeItemsSound(t, []);
      j := ArrayMade(pad, i, ParseShape(s).value.rest);
    }
  }

  lemma OffsetsSound(s: string) returns (j: Json)
    requires ParseOffsets(s).Some?
    ensures JsonOk(j) && s == JsonText(j) + ParseOffsets(s).value.rest
  {
    var w, first := UintSound(s[1..]);
    var r := ParseUint(s[1..]).value.rest;
    var after := WsSplit(r);
    var t := SkipWs(r);
    var w2, end := UintSound(t[1..]);
    var r2 := ParseUint(t[1..]).value.rest;
    var after2 := WsSplit(r2);
    var u := SkipWs(r2);
    PlainText(first);
    PlainText(end);
    var last := LastItem(w2, Plain(end), after2);
    var i := NextItem(w, Plain(first), after, last);
    assert s == ['['] + s[1..];
    assert t == [','] + t[1..];
    assert u == [']'] + u[1..];
    Group4(w, first, after, t);
    Group4(w2, end, after2, u);
    assert ItemsText(last) == w2 + end + after2;
    Group3([','], ItemsText(last), u);
    Group3(w + first + after, [','] + ItemsText(last), u);
    j := ArrayMade("", i, u[1..]);
    assert "" + (ItemsText(i) + u) == ItemsText(i) + u;
  }

  lemma FieldSound(key: string, s: string, f: Fields) returns (w: string, j: Json)
    requires ParseField(key, s, f).Some?
    ensures AllWs(w) && JsonOk(j) && s == w + (JsonText(j) + ParseField(key, s, f).value.rest)
  {
    w := "";
    if key == "dtype" {
      var ps := StringSound(s);
      j := Str(ps);
    } else if key == "shape" {
      j := ShapeSound(s);
    } else if key == "data_offsets" {
      j := OffsetsSound(s);
    } else {
      w, j := ValueSound(s, 1);
    }
    if key == "dtype" || key == "shape" || key == "data_offsets" {
      var rest := JsonText(j) + ParseField(key, s, f).value.rest;
      assert "" + rest == rest;
    }
  }

  /** A member whose value is read behind skipped white space. */
  lemma MemberSplit(s: string, v: string, j: Json, w: string, rest: string)
    returns (ps: seq<Piece>, gap: string, pad: string, after: string, t: string)
    requires ParseKey(s).Some? && v == SkipWs(ParseKey(s).value.rest)
    requires AllWs(w) && v == w + (JsonText(j) + rest)
    ensures CharsOk(ps) && CharsValue(ps) == ParseKey(s).value.value && AllWs(gap) && AllWs(pad) && AllWs(after)
    ensures t == SkipWs(rest) && s == MemberText(ps, gap, pad, j, after) + t
  {
    ps, gap := KeySound(s);
    var r := ParseKey(s).value.rest;
    var p := WsSplit(r);
    pad := p + w;
    after := WsSplit(rest);
    t := SkipWs(rest);
    Group3(p, w, JsonText(j) + rest);
    MemberJoin(s, ps, gap, r, pad, j, rest, after, t);
  }

  lemma {:induction false} TensorMembersSound(s: string, keys: set<string>, f: Fields)
    returns (closed: bool, m: Members)
    requires TensorMembers(s, keys, f).Some?
    ensures closed ==> MembersOk(m, keys) && s == MembersText(m) + (['}'] + TensorMembers(s, keys, f).value.rest)
    ensures !closed ==> TensorMembers(s, keys, f).value.rest == ""
    decreases |s|
  {
    m := *;
    closed := false;
    if |s| > 0 {
      var key := ParseKey(s).value;
      var v := SkipWs(key.rest);
      var field := ParseField(key.value, v, f).value;
      var w, j := FieldSound(key.value, v, f);
      var ps, gap, pad, after, t := MemberSplit(s, v, j, w, field.rest);
      if At(t, '}') {
        closed := true;
        m := MembersMade(ps, gap, pad, j, after, keys, "", None);
        HeadTail(t);
      } else {
        var rest;
        closed, rest := TensorMembersSound(SkipWs(t[1..]), keys + {key.value}, field.fields);
        if closed {
          var pad2 := WsSplit(t[1..]);
          m := MembersMade(ps, gap, pad, j, after, keys, pad2, Some(rest));
          NextJoin(s, MemberText(ps, gap, pad, j, after), t, pad2, MembersText(rest),
            ['}'] + TensorMembers(s, keys, f).value.rest);
        }
      }
    }
  }

  lemma ObjectMade(pad: string, m: Members, rest: string) returns (j: Json)
    requires AllWs(pad) && MembersOk(m, {})
    ensures j.Object? && JsonOk(j) && ['{'] + (pad + (MembersText(m) + (['}'] + rest))) == JsonText(j) + rest
  {
    MembersPad(pad, m, {});
    var padded := m.(before := pad + m.before);
    j := Object(padded);
    Group3(pad, MembersText(m), ['}'] + rest);
    Group4(['{'], MembersText(padded), ['}'], rest);
  }

  /** The metadata or tensor behind a header key is a JSON object, unless the text ends inside it. */
  lemma HeaderMemberSound(key: string, s: string, found: Found, dataStart: nat, dataSize: nat)
    returns (closed: bool, j: Json)
    requires HeaderMember(key, s, found, dataStart, dataSize).Some?
    ensures closed ==> JsonOk(j) && s == JsonText(j) + HeaderMember(key, s, found, dataStart, dataSize).value.rest
    ensures !closed ==> HeaderMember(key, s, found, dataStart, dataSize).value.rest == ""
  {
    if key == Metadata {
      closed := true;
      j := ObjectSound(s, 1);
    } else {
      var t := SkipWs(s[1..]);
      var pad := WsSplit(s[1..]);
      var m;
      closed, m := TensorMembersSound(t, {}, NoFields);
      j := Name("");
      if closed {
        assert s == ['{'] + s[1..];
        j := ObjectMade(pad, m, TensorMembers(t, {}, NoFields).value.rest);
      }
    }
  }

  // ---------------------------------------------------------------- the header is JSON, or cut off

  /** The last character that is no white space. */
  function LastInk(s: string): Option<char> {
    if |s| == 0 then None
    else if Ws(s[|s| - 1]) then LastInk(s[..|s| - 1])
    else Some(s[|s| - 1])
  }

  lemma {:induction false} InkOver(a: string, w: string)
    requires AllWs(w)
    ensures LastInk(a + w) == LastInk(a)
  {
    if |w| > 0 {
      assert (a + w)[..|a + w| - 1] == a + w[..|w| - 1];
      InkOver(a, w[..|w| - 1]);
    } else {
      assert a + w == a;
    }
  }

  lemma InkAfter(a: string, c: char, w: string)
    requires AllWs(w) && !Ws(c)
    ensures LastInk(a + ([c] + w)) == Some(c)
  {
    InkOver(a + [c], w);
    Group3(a, [c], w);
    assert (a + [c])[|a|] == c;
  }

  function Seen(found: Found): set<string> { found.tensors.Keys + if found.metadata then {Metadata} else {} }

  /** s is nothing, or ends in a comma and white space. */
  ghost predicate CutOff(s: string) { s == "" || LastInk(s) == Some(',') }

  /** The reader's own steps for one header member. */
  lemma HeaderUnfold(s: string, found: Found, dataStart: nat, dataSize: nat)
    returns (key: string, v: string, read: HeaderRead, t: string)
    requires |s| > 0 && HeaderMembers(s, found, dataStart, dataSize).Some?
    ensures ParseKey(s).Some? && key == ParseKey(s).value.value && v == SkipWs(ParseKey(s).value.rest) && |v| < |s|
    ensures HeaderMember(key, v, found, dataStart, dataSize) == Some(read)
    ensures t == SkipWs(read.rest) && 0 < |t| < |s|
    ensures t[0] == '}' ==> HeaderMembers(s, found, dataStart, dataSize).value.rest == t[1..]
    ensures t[0] != '}' ==> t[0] == ','
    ensures t[0] != '}' ==>
      HeaderMembers(s, found, dataStart, dataSize) == HeaderMembers(SkipWs(t[1..]), read.found, dataStart, dataSize)
  {
    key := ParseKey(s).value.value;
    v := SkipWs(ParseKey(s).value.rest);
    read := HeaderMember(key, v, found, dataStart, dataSize).value;
    t := SkipWs(read.rest);
  }

  /** What one header member is made of. */
  lemma HeaderStep(s: string, found: Found, dataStart: nat, dataSize: nat, key: string, v: string, read: HeaderRead)
    returns (ps: seq<Piece>, gap: string, pad: string, j: Json, after: string)
    requires ParseKey(s).Some? && key == ParseKey(s).value.value && v == SkipWs(ParseKey(s).value.rest)
    requires HeaderMember(key, v, found, dataStart, dataSize) == Some(read) && |SkipWs(read.rest)| > 0
    ensures CharsOk(ps) && AllWs(gap) && AllWs(pad) && JsonOk(j) && AllWs(after) && CharsValue(ps) == key
    ensures s == MemberText(ps, gap, pad, j, after) + SkipWs(read.rest)
  {
    var whole;
    whole, j := HeaderMemberSound(key, v, found, dataStart, dataSize);
    assert whole;
    assert "" + (JsonText(j) + read.rest) == JsonText(j) + read.rest;
    var t;
    ps, gap, pad, after, t := MemberSplit(s, v, j, "", read.rest);
  }

  lemma SeenMore(key: string, s: string, found: Found, dataStart: nat, dataSize: nat)
    requires HeaderMember(key, s, found, dataStart, dataSize).Some? && Metadata !in found.tensors
    ensures key !in Seen(found) && Seen(HeaderMember(key, s, found, dataStart, dataSize).value.found)
      == Seen(found) + {key}
    ensures Metadata !in HeaderMember(key, s, found, dataStart, dataSize).value.found.tensors
  {
  }

  lemma {:induction false} HeaderMembersSound(s: string, found: Found, dataStart: nat, dataSize: nat)
    returns (closed: bool, m: Members)
    requires HeaderMembers(s, found, dataStart, dataSize).Some? && Metadata !in found.tensors
    ensures closed ==>
      MembersOk(m, Seen(found)) && s == MembersText(m)
      + (['}'] + HeaderMembers(s, found, dataStart, dataSize).value.rest)
    ensures !closed ==> CutOff(s) && HeaderMembers(s, found, dataStart, dataSize).value.rest == ""
    decreases |s|
  {
    closed, m := false, LastMember("", [], "", "", Name(""), "");
    if |s| > 0 {
      var key, v, read, t := HeaderUnfold(s, found, dataStart, dataSize);
      var ps, gap, pad, j, after := HeaderStep(s, found, dataStart, dataSize, key, v, read);
      SeenMore(key, v, found, dataStart, dataSize);
      var end := HeaderMembers(s, found, dataStart, dataSize).value.rest;
      if t[0] == '}' {
        closed := true;
        m := MembersMade(ps, gap, pad, j, after, Seen(found), "", None);
        HeadTail(t);
      } else {
        var rest;
        var pad2 := WsSplit(t[1..]);
        closed, rest := HeaderMembersSound(SkipWs(t[1..]), read.found, dataStart, dataSize);
        if closed {
          m := MembersMade(ps, gap, pad, j, after, Seen(found), pad2, Some(rest));
          NextJoin(s, MemberText(ps, gap, pad, j, after), t, pad2, MembersText(rest), ['}'] + end);
        } else {
          CutMore(s, MemberText(ps, gap, pad, j, after), t, pad2, SkipWs(t[1..]));
        }
      }
    }
  }

  lemma CutMore(s: string, one: string, t: string, pad: string, rest: string)
    requires s == one + t && |t| > 0 && t[0] == ',' && t[1..] == pad + rest && AllWs(pad) && CutOff(rest)
    ensures CutOff(s)
  {
    assert t == [','] + t[1..];
    if rest == "" {
      assert pad + rest == pad;
      InkAfter(one, ',', pad);
    } else {
      Group3([','], pad, rest);
      Group3(one, [','] + pad, rest);
      InkSuffix(one + ([','] + pad), rest);
    }
  }

  lemma {:induction false} InkSuffix(a: string, s: string)
    requires LastInk(s).Some?
    ensures LastInk(a + s) == LastInk(s)
  {
    if Ws(s[|s| - 1]) {
      InkSuffix(a, s[..|s| - 1]);
      assert (a + s)[..|a + s| - 1] == a + s[..|s| - 1];
    }
  }

  /** s is one JSON object with white space around it. */
  ghost predicate ObjectIn(s: string, w: string, j: Json, w2: string) {
    AllWs(w) && AllWs(w2) && JsonOk(j) && (j.Object? || j.EmptyObject?) && s == w + (JsonText(j) + w2)
  }

  lemma AllSkipped(s: string)
    requires SkipWs(s) == ""
    ensures AllWs(s)
  {
    var w := WsSplit(s);
    assert w + "" == w;
  }

  /** An accepted header is an RFC 8259 object without repeated keys exactly when its last character
      other than white space is a closing brace. */
  lemma AcceptedHeaderIsJson(s: string, dataStart: nat, dataSize: nat)
    requires HeaderText(s, dataStart, dataSize).Some?
    ensures (exists w, j, w2 :: ObjectIn(s, w, j, w2)) <==> LastInk(s) == Some('}')
    ensures LastInk(s) != Some('}') ==> LastInk(s) == Some('{') || LastInk(s) == Some(',')
  {
    if exists w, j, w2 :: ObjectIn(s, w, j, w2) {
      var w, j, w2 :| ObjectIn(s, w, j, w2);
      ObjectInk(s, w, j, w2);
    }
    var closed, j := HeaderTextSound(s, dataStart, dataSize);
    if closed {
      var w := WsSplit(s);
      var w2 := HeaderRest(s, dataStart, dataSize);
      AllSkipped(w2);
      assert ObjectIn(s, w, j, w2);
      ObjectInk(s, w, j, w2);
    }
  }

  lemma ObjectInk(s: string, w: string, j: Json, w2: string)
    requires ObjectIn(s, w, j, w2)
    ensures LastInk(s) == Some('}')
  {
    var body := JsonText(j)[..|JsonText(j)| - 1];
    assert JsonText(j) == body + ['}'];
    Group3(body, ['}'], w2);
    Group3(w, body, ['}'] + w2);
    InkAfter(w + body, '}', w2);
  }

  function HeaderRest(s: string, dataStart: nat, dataSize: nat): string
    requires HeaderText(s, dataStart, dataSize).Some?
  {
    var u := SkipWs(SkipWs(s)[1..]);
    if At(u, '}') then u[1..] else HeaderMembers(u, Nothing, dataStart, dataSize).value.rest
  }

  lemma HeaderTextSound(s: string, dataStart: nat, dataSize: nat) returns (closed: bool, j: Json)
    requires HeaderText(s, dataStart, dataSize).Some?
    ensures closed ==>
      JsonOk(j) && (j.Object? || j.EmptyObject?) && SkipWs(s) == JsonText(j) + HeaderRest(s, dataStart, dataSize)
    ensures !closed ==> LastInk(s) == Some('{') || LastInk(s) == Some(',')
  {
    var t := SkipWs(s);
    var u := SkipWs(t[1..]);
    var pad := WsSplit(t[1..]);
    assert t == ['{'] + t[1..];
    closed, j := true, EmptyObject(pad);
    if At(u, '}') {
      assert u == ['}'] + u[1..];
      Group4(['{'], pad, ['}'], u[1..]);
    } else {
      var m;
      closed, m := HeaderMembersSound(u, Nothing, dataStart, dataSize);
      if closed {
        assert Seen(Nothing) == {};
        j := ObjectMade(pad, m, HeaderRest(s, dataStart, dataSize));
      } else {
        var w := WsSplit(s);
        OpenInk(s, w, t, pad, u);
      }
    }
  }

  lemma OpenInk(s: string, w: string, t: string, pad: string, u: string)
    requires s == w + t && t == ['{'] + (pad + u) && AllWs(pad) && CutOff(u)
    ensures LastInk(s) == Some('{') || LastInk(s) == Some(',')
  {
    if u == "" {
      assert pad + u == pad;
      InkAfter(w, '{', pad);
    } else {
      Group3(['{'], pad, u);
      Group3(w, ['{'] + pad, u);
      InkSuffix(w + (['{'] + pad), u);
    }
  }

  lemma OneLe()
    ensures PutLe(1, 8) == [1, 0, 0, 0, 0, 0, 0, 0]
  {
    assert PutLe(1, 8) == [1] + PutLe(0, 7);
    assert PutLe(0, 7) == [0] + PutLe(0, 6);
    assert PutLe(0, 6) == [0] + PutLe(0, 5);
    assert PutLe(0, 5) == [0] + PutLe(0, 4);
    assert PutLe(0, 4) == [0] + PutLe(0, 3);
    assert PutLe(0, 3) == [0] + PutLe(0, 2);
    assert PutLe(0, 2) == [0] + PutLe(0, 1);
    assert PutLe(0, 1) == [0] + PutLe(0, 0);
  }

  /** A file whose header is one opening brace is accepted. */
  lemma OpenBraceAccepted()
    ensures ParseHeader([1, 0, 0, 0, 0, 0, 0, 0, 123]) == Some(map[])
    ensures LastInk("{") != Some('}')
  {
    var file: seq<byte> := [1, 0, 0, 0, 0, 0, 0, 0, 123];
    OneLe();
    assert file[..8] == [1, 0, 0, 0, 0, 0, 0, 0];
    Pow256Four();
    GetPut(1, 8);
    assert Text(file[8..9]) == "{";
    assert HeaderText("{", 9, 0) == Some(Nothing);
  }
}
