/** The header text both checkpoint writers print, and what the reader makes of it. */
module SafetensorsText {
  import opened Spools
  import opened Bytes
  import opened Decimals
  import opened JsonGrammar
  import opened JsonParser
  import opened JsonExact
  import opened Safetensors

  // ---------------------------------------------------------------- decimal numbers

  lemma Fits64(v: nat, d: nat)
    requires d < 10 && v * 10 + d < U64
    ensures v <= (U64 - 1 - d) / 10
  {
  }

  lemma {:induction false} DigitsRead(v: nat, s: seq<byte>, rest: string)
    requires (forall i :: 0 <= i < |s| ==> IsDigit(s[i])) && Horner(v, s) < U64 && (|rest| > 0 ==> !Digit(rest[0]))
    ensures UintDigits(Text(s) + rest, v) == Some(Uint(Horner(v, s), rest))
    decreases |s|
  {
    var t := Text(s) + rest;
    if |s| == 0 {
      assert t == rest;
    } else {
      assert IsDigit(s[0]);
      var w := v * 10 + (s[0] - 48);
      HornerGrows(w, s[1..]);
      assert t[0] as int == s[0];
      Fits64(v, DigitOf(t[0]));
      assert t[1..] == Text(s[1..]) + rest;
      DigitsRead(w, s[1..], rest);
    }
  }

  /** A printed number is read back. */
  lemma NumRead(n: nat, rest: string)
    requires n < U64 && (|rest| > 0 ==> !Digit(rest[0]))
    ensures ParseUint(Num(n) + rest) == Some(Uint(n, rest))
    ensures !Ws(Num(n)[0]) && Digit(Num(n)[0])
  {
    var s := Dec(n);
    var t := Num(n) + rest;
    HornerDec(n);
    DecFirst(n);
    assert IsDigit(s[0]) && t[0] as int == s[0];
    assert t[1..] == Text(s[1..]) + rest;
    assert Horner(0, s) == Horner(s[0] - 48, s[1..]);
    DigitsRead(s[0] - 48, s[1..], rest);
    if s[0] == 48 { assert s == [48]; assert t[1..] == rest; }
    DigitsParsed(t, Uint(n, rest));
  }

  lemma DigitsParsed(t: string, r: Uint)
    requires |t| > 0 && Digit(t[0]) && (t[0] == '0' ==> |t| == 1 || !Digit(t[1]))
    requires UintDigits(t[1..], DigitOf(t[0])) == Some(r)
    ensures ParseUint(t) == Some(r)
  {
    assert SkipWs(t) == t;
  }

  // ---------------------------------------------------------------- one entry

  datatype Listed = Listed(name: string, shape: seq<nat>, range: Range)

  function DimsText(dims: seq<nat>): string {
    if |dims| == 0 then "" else if |dims| == 1 then Num(dims[0]) else Num(dims[0]) + ([','] + DimsText(dims[1..]))
  }

  function ShapeText(dims: seq<nat>): string { ['['] + (DimsText(dims) + [']']) }

  function OffsetsText(r: Range): string { ['['] + (Num(r.first) + ([','] + (Num(r.end) + [']']))) }

  /** A quoted name and its colon. */
  function Key(name: string): string { ['"'] + name + ['"'] + [':'] }

  function ObjectText(dims: seq<nat>, r: Range): string {
    ['{'] + (Key("dtype") + ("\"F32\"" + ([',']
      + (Key("shape") + (ShapeText(dims) + ([','] + (Key("data_offsets") + (OffsetsText(r) + ['}']))))))))
  }

  function EntryText(l: Listed): string { Key(l.name) + ObjectText(l.shape, l.range) }

  function ListText(ls: seq<Listed>): string {
    if |ls| == 0 then "" else if |ls| == 1 then EntryText(ls[0]) else EntryText(ls[0]) + ([','] + ListText(ls[1..]))
  }

  // ---------------------------------------------------------------- reading one entry back

  predicate PlainChar(c: char) { ' ' <= c && c != '"' && c != '\\' && c as int < 256 }

  /** A name that needs no escapes. */
  predicate PlainName(s: string) { forall i :: 0 <= i < |s| ==> PlainChar(s[i]) }

  function Pieces(s: string): seq<Piece> { seq(|s|, i requires 0 <= i < |s| => Plain(s[i])) }

  lemma {:induction false} PiecesAre(s: string)
    requires PlainName(s)
    ensures CharsOk(Pieces(s)) && CharsText(Pieces(s)) == s && CharsValue(Pieces(s)) == s
  {
    if |s| > 0 {
      assert Pieces(s)[1..] == Pieces(s[1..]);
      PiecesAre(s[1..]);
      assert s == [s[0]] + s[1..];
    }
  }

  lemma KeyRead(name: string, rest: string)
    requires PlainName(name)
    ensures ParseKey(Key(name) + rest) == Some(Chars(name, rest))
    ensures |Key(name)| > 0 && Key(name)[0] == '"'
  {
    PiecesAre(name);
    KeyOver(Pieces(name), "", rest);
    var quoted := StringText(Pieces(name));
    assert "" + ([':'] + rest) == [':'] + rest;
    assert quoted == ['"'] + name + ['"'];
    Group3(quoted, [':'], rest);
  }

  lemma NoWs(s: string)
    requires |s| > 0 && !Ws(s[0])
    ensures SkipWs(s) == s
  {
  }

  predicate DimsOk(dims: seq<nat>) { |dims| <= MaxRank && forall i :: 0 <= i < |dims| ==> dims[i] <= I64Max }

  lemma {:induction false} DimsRead(dims: seq<nat>, before: seq<nat>, rest: string)
    requires |dims| > 0 && |before| + |dims| <= MaxRank && forall i :: 0 <= i < |dims| ==> dims[i] <= I64Max
    ensures ShapeItems(DimsText(dims) + ([']'] + rest), before) == Some(Shape(before + dims, rest))
    ensures |DimsText(dims)| > 0 && Digit(DimsText(dims)[0])
    decreases |dims|
  {
    var close := [']'] + rest;
    if |dims| == 1 {
      NumRead(dims[0], close);
      NoWs(close);
      assert close[1..] == rest;
      assert before + [dims[0]] == before + dims;
    } else {
      var more := [','] + (DimsText(dims[1..]) + close);
      Group3([','], DimsText(dims[1..]), close);
      Group3(Num(dims[0]), [','] + DimsText(dims[1..]), close);
      NumRead(dims[0], more);
      NoWs(more);
      DimsRead(dims[1..], before + [dims[0]], rest);
      assert more[1..] == DimsText(dims[1..]) + close;
      NoWs(DimsText(dims[1..]) + close);
      assert before + [dims[0]] + dims[1..] == before + dims;
    }
  }

  lemma ShapeRead(dims: seq<nat>, rest: string)
    requires DimsOk(dims)
    ensures ParseShape(ShapeText(dims) + rest) == Some(Shape(dims, rest))
  {
    var s := ShapeText(dims) + rest;
    Group3(DimsText(dims), [']'], rest);
    assert s[1..] == DimsText(dims) + ([']'] + rest);
    if |dims| == 0 {
      assert s[1..] == [']'] + rest;
      NoWs(s[1..]);
      assert s[1..][1..] == rest;
    } else {
      DimsRead(dims, [], rest);
      NoWs(s[1..]);
      assert [] + dims == dims;
    }
  }

  lemma OffsetsRead(r: Range, rest: string)
    requires r.first < U64 && r.end < U64
    ensures ParseOffsets(OffsetsText(r) + rest) == Some(Offsets(r, rest))
  {
    var s := OffsetsText(r) + rest;
    var close := [']'] + rest;
    var more := [','] + (Num(r.end) + close);
    Group3(Num(r.end), [']'], rest);
    Group3([','], Num(r.end) + [']'], rest);
    Group3(Num(r.first), [','] + (Num(r.end) + [']']), rest);
    assert s[1..] == Num(r.first) + more;
    NumRead(r.first, more);
    NoWs(more);
    assert more[1..] == Num(r.end) + close;
    NumRead(r.end, close);
    NoWs(close);
    assert close[1..] == rest;
  }

  /** One printed member: if its value is read back, so is the member. */
  lemma MemberRead(key: string, value: string, next: string, keys: set<string>, f: Fields, g: Fields)
    requires PlainName(key) && key !in keys && |value| > 0 && !Ws(value[0]) && |next| > 0 && !Ws(next[0])
    requires ParseField(key, value + next, f) == Some(FieldsRead(g, next))
    ensures var r := TensorMembers(Key(key) + (value + next), keys, f);
      && (next[0] == '}' ==> r == Some(FieldsRead(g, next[1..])))
      && (next[0] == ',' ==> r == TensorMembers(SkipWs(next[1..]), keys + {key}, g))
  {
    KeyRead(key, value + next);
    NoWs(value + next);
    NoWs(next);
  }

  lemma DtypeRead(rest: string)
    ensures ParseString("\"F32\"" + rest) == Some(Chars("F32", rest))
  {
    PiecesAre("F32");
    StringOver(Pieces("F32"), rest);
    assert StringText(Pieces("F32")) == "\"F32\"";
  }

  /** The members of a printed tensor, from the last to the first. */
  lemma LastMemberRead(r: Range, keys: set<string>, f: Fields, rest: string)
    requires r.first < U64 && r.end < U64 && "data_offsets" !in keys
    ensures TensorMembers(Key("data_offsets") + (OffsetsText(r) + (['}'] + rest)), keys, f)
      == Some(FieldsRead(f.(range := Some(r)), rest))
  {
    OffsetsRead(r, ['}'] + rest);
    MemberRead("data_offsets", OffsetsText(r), ['}'] + rest, keys, f, f.(range := Some(r)));
    assert (['}'] + rest)[1..] == rest;
  }

  lemma ShapeMemberRead(dims: seq<nat>, keys: set<string>, f: Fields, more: string)
    requires DimsOk(dims) && "shape" !in keys && |more| > 0 && more[0] == '"'
    ensures TensorMembers(Key("shape") + (ShapeText(dims) + ([','] + more)), keys, f)
         == TensorMembers(more, keys + {"shape"}, f.(shape := Some(dims)))
  {
    ShapeRead(dims, [','] + more);
    MemberRead("shape", ShapeText(dims), [','] + more, keys, f, f.(shape := Some(dims)));
    assert ([','] + more)[1..] == more;
    NoWs(more);
  }

  lemma DtypeMemberRead(keys: set<string>, f: Fields, more: string)
    requires "dtype" !in keys && |more| > 0 && more[0] == '"'
    ensures TensorMembers(Key("dtype") + ("\"F32\"" + ([','] + more)), keys, f)
         == TensorMembers(more, keys + {"dtype"}, f.(dtype := Some("F32")))
  {
    DtypeRead([','] + more);
    MemberRead("dtype", "\"F32\"", [','] + more, keys, f, f.(dtype := Some("F32")));
    assert ([','] + more)[1..] == more;
    NoWs(more);
  }

  lemma MembersRead(dims: seq<nat>, r: Range, rest: string)
    requires DimsOk(dims) && r.first < U64 && r.end < U64
    ensures TensorMembers((ObjectText(dims, r) + rest)[1..], {}, NoFields)
         == Some(FieldsRead(Fields(Some("F32"), Some(dims), Some(r)), rest))
    ensures SkipWs((ObjectText(dims, r) + rest)[1..]) == (ObjectText(dims, r) + rest)[1..]
    ensures (ObjectText(dims, r) + rest)[1] == '"'
  {
    var m3 := Key("data_offsets") + (OffsetsText(r) + (['}'] + rest));
    var m2 := Key("shape") + (ShapeText(dims) + ([','] + m3));
    var m1 := Key("dtype") + ("\"F32\"" + ([','] + m2));
    ObjectParts(dims, r, rest);
    DtypeMemberRead({}, NoFields, m2);
    ShapeMemberRead(dims, {"dtype"}, Fields(Some("F32"), None, None), m3);
    LastMemberRead(r, {"dtype", "shape"}, Fields(Some("F32"), Some(dims), None), rest);
    assert {} + {"dtype"} == {"dtype"} && {"dtype"} + {"shape"} == {"dtype", "shape"};
    NoWs(m1);
  }

  lemma ObjectParts(dims: seq<nat>, r: Range, rest: string)
    ensures ObjectText(dims, r) + rest
         == ['{'] + (Key("dtype") + ("\"F32\""
           + ([','] + (Key("shape") + (ShapeText(dims)
           + ([','] + (Key("data_offsets") + (OffsetsText(r) + (['}'] + rest)))))))))
  {
    var o3 := Key("data_offsets") + (OffsetsText(r) + ['}']);
    var o2 := Key("shape") + (ShapeText(dims) + ([','] + o3));
    Group3(OffsetsText(r), ['}'], rest);
    Group3(Key("data_offsets"), OffsetsText(r) + ['}'], rest);
    Group3([','], o3, rest);
    Group3(ShapeText(dims), [','] + o3, rest);
    Group3(Key("shape"), ShapeText(dims) + ([','] + o3), rest);
    Group3([','], o2, rest);
    Group3("\"F32\"", [','] + o2, rest);
    Group3(Key("dtype"), "\"F32\"" + ([','] + o2), rest);
    Group3(['{'], Key("dtype") + ("\"F32\"" + ([','] + o2)), rest);
  }

  // ---------------------------------------------------------------- reading a list of entries back

  /** A listed tensor the reader can hold: dimensions and range it can represent, and the right size. */
  predicate ListedOk(l: Listed, dataStart: nat, dataSize: nat) {
    && DimsOk(l.shape) && LayoutOf(l.shape).Some?
    && l.range.first <= l.range.end <= dataSize && dataStart + dataSize < U64
    && l.range.end - l.range.first == 4 * LayoutOf(l.shape).value.elements
  }

  function TensorOf(l: Listed, dataStart: nat): Tensor
    requires LayoutOf(l.shape).Some? && l.range.first <= l.range.end
  {
    Tensor(l.name, "F32", l.shape, LayoutOf(l.shape).value.strides, dataStart + l.range.first,
      l.range.end - l.range.first)
  }

  /** What one listed tensor adds; the metadata name adds no tensor. */
  function Add(found: Found, l: Listed, dataStart: nat): Found
    requires LayoutOf(l.shape).Some? && l.range.first <= l.range.end
  {
    if l.name == Metadata then found.(metadata := true)
    else found.(tensors := found.tensors[l.name := TensorOf(l, dataStart)], ranges := found.ranges + [l.range])
  }

  lemma TensorRead(l: Listed, dataStart: nat, dataSize: nat, rest: string)
    requires ListedOk(l, dataStart, dataSize)
    ensures ParseTensor(ObjectText(l.shape, l.range) + rest, l.name, dataStart, dataSize)
         == Some(Safetensors.TensorRead(Placed(TensorOf(l, dataStart), l.range), rest))
  {
    MembersRead(l.shape, l.range, rest);
    FinishRead(l, dataStart, dataSize);
    assert (ObjectText(l.shape, l.range) + rest)[0] == '{';
  }

  lemma FinishRead(l: Listed, dataStart: nat, dataSize: nat)
    requires ListedOk(l, dataStart, dataSize)
    ensures Finish(l.name, Fields(Some("F32"), Some(l.shape), Some(l.range)), dataStart, dataSize)
         == Some(Placed(TensorOf(l, dataStart), l.range))
  {
  }

  // the printed tensor object as concrete syntax, for the reader of metadata

  function NumJson(n: nat): Json { Number(false, Num(n), "", "") }

  function DimsItems(dims: seq<nat>): Items
    requires |dims| > 0
  {
    if |dims| == 1 then LastItem("", NumJson(dims[0]), "") else NextItem("", NumJson(dims[0]), "", DimsItems(dims[1..]))
  }

  lemma NumJsonOk(n: nat)
    ensures JsonOk(NumJson(n)) && JsonText(NumJson(n)) == Num(n)
  {
    var s := Dec(n);
    forall i | 0 <= i < |s| ensures Digit(Num(n)[i]) { assert IsDigit(s[i]) && Num(n)[i] as int == s[i]; }
    DecFirst(n);
    assert "" + Num(n) + "" + "" == Num(n);
    if Num(n)[0] == '0' { assert Num(n)[0] as int == s[0]; }
  }

  lemma NumItems(n: nat, rest: Option<Items>)
    requires rest.Some? ==> ItemsOk(rest.value) && ItemsDepth(rest.value) == 0
    ensures var i := if rest.Some? then NextItem("", NumJson(n), "", rest.value) else LastItem("", NumJson(n), "");
      && ItemsOk(i) && ItemsDepth(i) == 0
      && ItemsText(i) == if rest.Some? then Num(n) + ([','] + ItemsText(rest.value)) else Num(n)
  {
    NumJsonOk(n);
    assert "" + Num(n) + "" == Num(n);
    assert Num(n) + "" == Num(n);
  }

  lemma ArrayText(items: Items)
    ensures JsonText(Array(items)) == ['['] + (ItemsText(items) + [']']) && Depth(Array(items)) == 1 + ItemsDepth(items)
  {
    Group3(['['], ItemsText(items), [']']);
  }

  lemma {:induction false} DimsItemsOk(dims: seq<nat>)
    requires |dims| > 0
    ensures ItemsOk(DimsItems(dims)) && ItemsDepth(DimsItems(dims)) == 0 && ItemsText(DimsItems(dims)) == DimsText(dims)
    decreases |dims|
  {
    if |dims| > 1 {
      DimsItemsOk(dims[1..]);
      NumItems(dims[0], Some(DimsItems(dims[1..])));
    } else {
      NumItems(dims[0], None);
    }
  }

  function ShapeJson(dims: seq<nat>): Json { if |dims| == 0 then EmptyArray("") else Array(DimsItems(dims)) }

  lemma ShapeJsonOk(dims: seq<nat>)
    ensures JsonOk(ShapeJson(dims)) && Depth(ShapeJson(dims)) <= 1 && JsonText(ShapeJson(dims)) == ShapeText(dims)
  {
    if |dims| == 0 {
      assert ['['] + "" + [']'] == ['['] + ("" + [']']);
    } else {
      DimsItemsOk(dims);
      ArrayText(DimsItems(dims));
    }
  }

  function OffsetsItems(r: Range): Items { NextItem("", NumJson(r.first), "", LastItem("", NumJson(r.end), "")) }

  lemma OffsetsJsonOk(r: Range)
    ensures JsonOk(Array(OffsetsItems(r))) && Depth(Array(OffsetsItems(r))) == 1
    ensures JsonText(Array(OffsetsItems(r))) == OffsetsText(r)
  {
    var last := LastItem("", NumJson(r.end), "");
    NumItems(r.end, None);
    NumItems(r.first, Some(last));
    ArrayText(OffsetsItems(r));
    Group3([','], Num(r.end), [']']);
    Group3(Num(r.first), [','] + Num(r.end), [']']);
  }

  function Member(key: string, j: Json, rest: Option<Members>): Members {
    if rest.Some? then NextMember("", Pieces(key), "", "", j, "", rest.value)
      else LastMember("", Pieces(key), "", "", j, "")
  }

  function ShapeMembers(dims: seq<nat>, r: Range): Members {
    Member("shape", ShapeJson(dims), Some(Member("data_offsets", Array(OffsetsItems(r)), None)))
  }

  function ObjectMembers(dims: seq<nat>, r: Range): Members {
    Member("dtype", Str(Pieces("F32")), Some(ShapeMembers(dims, r)))
  }

  lemma MemberOk(key: string, j: Json, rest: Option<Members>, keys: set<string>)
    requires PlainName(key) && key !in keys && JsonOk(j) && Depth(j) <= 1
    requires rest.Some? ==> MembersOk(rest.value, keys + {key}) && MembersDepth(rest.value) <= 1
    ensures MembersOk(Member(key, j, rest), keys) && MembersDepth(Member(key, j, rest)) <= 1
    ensures MembersText(Member(key, j, rest))
         == Key(key) + if rest.Some? then JsonText(j) + ([','] + MembersText(rest.value)) else JsonText(j)
  {
    PiecesAre(key);
    var tail := if rest.Some? then [','] + MembersText(rest.value) else "";
    OneMember(key, j, tail);
    assert JsonText(j) + "" == JsonText(j);
  }

  lemma OneMember(key: string, j: Json, tail: string)
    requires PlainName(key)
    ensures "" + StringText(Pieces(key)) + "" + [':'] + "" + JsonText(j) + "" + tail == Key(key) + (JsonText(j) + tail)
  {
    PiecesAre(key);
    var q := StringText(Pieces(key));
    assert "" + q + "" == q;
    assert q + [':'] + "" == Key(key);
    assert Key(key) + JsonText(j) + "" == Key(key) + JsonText(j);
    Group3(Key(key), JsonText(j), tail);
  }

  lemma ShapeMembersOk(dims: seq<nat>, r: Range)
    ensures MembersOk(ShapeMembers(dims, r), {"dtype"}) && MembersDepth(ShapeMembers(dims, r)) <= 1
    ensures MembersText(ShapeMembers(dims, r))
      == Key("shape") + (ShapeText(dims) + ([','] + (Key("data_offsets") + OffsetsText(r))))
  {
    ShapeJsonOk(dims);
    OffsetsJsonOk(r);
    MemberOk("data_offsets", Array(OffsetsItems(r)), None, {"dtype"} + {"shape"});
    MemberOk("shape", ShapeJson(dims), Some(Member("data_offsets", Array(OffsetsItems(r)), None)), {"dtype"});
  }

  lemma ObjectJsonOk(dims: seq<nat>, r: Range)
    ensures MembersOk(ObjectMembers(dims, r), {}) && MembersDepth(ObjectMembers(dims, r)) <= 1
    ensures ['{'] + MembersText(ObjectMembers(dims, r)) + ['}'] == ObjectText(dims, r)
  {
    ShapeMembersOk(dims, r);
    DtypeJson();
    assert {} + {"dtype"} == {"dtype"};
    MemberOk("dtype", Str(Pieces("F32")), Some(ShapeMembers(dims, r)), {});
    ObjectGroups(dims, r, MembersText(ShapeMembers(dims, r)), Key("data_offsets") + OffsetsText(r));
  }

  lemma DtypeJson()
    ensures JsonOk(Str(Pieces("F32"))) && JsonText(Str(Pieces("F32"))) == "\"F32\"" && Depth(Str(Pieces("F32"))) == 0
  {
    PiecesAre("F32");
    assert StringText(Pieces("F32")) == "\"F32\"";
  }

  lemma ObjectGroups(dims: seq<nat>, r: Range, m2: string, m3: string)
    requires m3 == Key("data_offsets") + OffsetsText(r)
    requires m2 == Key("shape") + (ShapeText(dims) + ([','] + m3))
    ensures ['{'] + (Key("dtype") + ("\"F32\"" + ([','] + m2))) + ['}'] == ObjectText(dims, r)
  {
    Group3(Key("data_offsets"), OffsetsText(r), ['}']);
    Group3([','], m3, ['}']);
    Group3(ShapeText(dims), [','] + m3, ['}']);
    Group3(Key("shape"), ShapeText(dims) + ([','] + m3), ['}']);
    Group3([','], m2, ['}']);
    Group3("\"F32\"", [','] + m2, ['}']);
    Group3(Key("dtype"), "\"F32\"" + ([','] + m2), ['}']);
    Group3(['{'], Key("dtype") + ("\"F32\"" + ([','] + m2)), ['}']);
  }

  lemma ObjectSkipped(dims: seq<nat>, r: Range, rest: string)
    ensures SkipObject(ObjectText(dims, r) + rest, 1) == Some(rest)
  {
    ObjectJsonOk(dims, r);
    ObjectOver(ObjectMembers(dims, r), rest, 1);
  }

  /** The name is new to what has been found. */
  predicate CanAdd(found: Found, l: Listed) { if l.name == Metadata then !found.metadata else l.name !in found.tensors }

  /** The value of a header member called like the metadata is skipped, whatever its shape. */
  lemma MetadataRead(dims: seq<nat>, r: Range, found: Found, dataStart: nat, dataSize: nat, next: string)
    requires !found.metadata
    ensures HeaderMember(Metadata, ObjectText(dims, r) + next, found, dataStart, dataSize)
         == Some(HeaderRead(found.(metadata := true), next))
  {
    ObjectSkipped(dims, r, next);
  }

  lemma MemberTaken(l: Listed, found: Found, dataStart: nat, dataSize: nat, next: string)
    requires ListedOk(l, dataStart, dataSize) && CanAdd(found, l)
    ensures HeaderMember(l.name, ObjectText(l.shape, l.range) + next, found, dataStart, dataSize)
         == Some(HeaderRead(Add(found, l, dataStart), next))
  {
    if l.name == Metadata {
      MetadataRead(l.shape, l.range, found, dataStart, dataSize, next);
    } else {
      TensorRead(l, dataStart, dataSize, next);
    }
  }

  /** A member whose key and value are read leaves the rest of the header to be read. */
  lemma MemberThen(s: string, key: string, value: string, found: Found, more: Found, dataStart: nat, dataSize: nat,
                   next: string)
    requires ParseKey(s) == Some(Chars(key, value)) && |value| > 0 && !Ws(value[0]) && |next| > 0 && !Ws(next[0])
    requires HeaderMember(key, value, found, dataStart, dataSize) == Some(HeaderRead(more, next))
    ensures var r := HeaderMembers(s, found, dataStart, dataSize);
      && (next[0] == '}' ==> r == Some(HeaderRead(more, next[1..])))
      && (next[0] == ',' ==> r == HeaderMembers(SkipWs(next[1..]), more, dataStart, dataSize))
  {
    NoWs(value);
    NoWs(next);
  }

  /** One printed entry is read back as what it adds. */
  lemma EntryRead(l: Listed, found: Found, dataStart: nat, dataSize: nat, next: string)
    requires PlainName(l.name) && ListedOk(l, dataStart, dataSize) && CanAdd(found, l) && |next| > 0 && !Ws(next[0])
    ensures var r := HeaderMembers(EntryText(l) + next, found, dataStart, dataSize);
      && (next[0] == '}' ==> r == Some(HeaderRead(Add(found, l, dataStart), next[1..])))
      && (next[0] == ',' ==> r == HeaderMembers(SkipWs(next[1..]), Add(found, l, dataStart), dataStart, dataSize))
  {
    var v := ObjectText(l.shape, l.range) + next;
    Group3(Key(l.name), ObjectText(l.shape, l.range), next);
    KeyRead(l.name, v);
    MemberTaken(l, found, dataStart, dataSize, next);
    MemberThen(EntryText(l) + next, l.name, v, found, Add(found, l, dataStart), dataStart, dataSize, next);
  }
}
