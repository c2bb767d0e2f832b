/** The safetensors header reader: what each routine reads from the text still ahead, the checks on
    shapes and ranges, and the tensors a file holds. */
module Safetensors {
  import opened Spools
  import opened Bytes
  import opened Decimals
  import opened JsonGrammar
  import opened JsonParser

  const U64: nat := 0x1_0000_0000_0000_0000
  const I64Max: nat := 0x7fff_ffff_ffff_ffff
  const MaxRank: nat := 32
  const MaxHeader: nat := 100_000_000

  datatype Tensor = Tensor(name: string, dtype: string, shape: seq<nat>, strides: seq<nat>, dataOffset: nat,
                           nbytes: nat)

  datatype Range = Range(first: nat, end: nat)

  datatype Uint = Uint(value: nat, rest: string)

  datatype Shape = Shape(dims: seq<nat>, rest: string)

  datatype Offsets = Offsets(range: Range, rest: string)

  // ---------------------------------------------------------------- numbers, shapes, offsets

  function DigitOf(c: char): nat
    requires Digit(c)
  {
    c as int - '0' as int
  }

  /** The digits ahead, appended to the value so far; None on 64-bit overflow. */
  function UintDigits(s: string, value: nat): (r: Option<Uint>)
    ensures r.Some? ==> |r.value.rest| <= |s|
  {
    if |s| == 0 || !Digit(s[0]) then Some(Uint(value, s))
    else if value > (U64 - 1 - DigitOf(s[0])) / 10 then None
    else UintDigits(s[1..], value * 10 + DigitOf(s[0]))
  }

  function ParseUint(s: string): (r: Option<Uint>)
    ensures r.Some? ==> |r.value.rest| < |s|
  {
    var t := SkipWs(s);
    if |t| == 0 || !Digit(t[0]) then None
    else if t[0] == '0' && |t| > 1 && Digit(t[1]) then None
    else UintDigits(t[1..], DigitOf(t[0]))
  }

  /** The dimensions ahead, behind those already read. */
  function ShapeItems(s: string, dims: seq<nat>): (r: Option<Shape>)
    ensures r.Some? ==> |r.value.rest| < |s|
    decreases |s|
  {
    if |dims| >= MaxRank then None else
    var dim := ParseUint(s);
    if dim.None? || dim.value.value > I64Max then None else
    var t := SkipWs(dim.value.rest);
    var more := dims + [dim.value.value];
    if At(t, ']') then Some(Shape(more, t[1..])) else if !At(t, ',') then None
    else ShapeItems(SkipWs(t[1..]), more)
  }

  function ParseShape(s: string): (r: Option<Shape>)
    ensures r.Some? ==> |r.value.rest| < |s|
  {
    if !At(s, '[') then None else
    var t := SkipWs(s[1..]);
    if At(t, ']') then Some(Shape([], t[1..])) else ShapeItems(t, [])
  }

  function ParseOffsets(s: string): (r: Option<Offsets>)
    ensures r.Some? ==> |r.value.rest| < |s|
  {
    if !At(s, '[') then None else
    var first := ParseUint(s[1..]);
    if first.None? then None else
    var t := SkipWs(first.value.rest);
    if !At(t, ',') then None else
    var end := ParseUint(t[1..]);
    if end.None? then None else
    var u := SkipWs(end.value.rest);
    if !At(u, ']') then None else Some(Offsets(Range(first.value.value, end.value.value), u[1..]))
  }

  // ---------------------------------------------------------------- one tensor

  /** What the members read so far have set. */
  datatype Fields = Fields(dtype: Option<string>, shape: Option<seq<nat>>, range: Option<Range>)

  datatype FieldsRead = FieldsRead(fields: Fields, rest: string)

  /** The value of one member. */
  function ParseField(key: string, s: string, f: Fields): (r: Option<FieldsRead>)
    ensures r.Some? ==> |r.value.rest| < |s|
  {
    if key == "dtype" then
      var r := ParseString(s);
      if r.None? then None else Some(FieldsRead(f.(dtype := Some(r.value.value)), r.value.rest))
    else if key == "shape" then
      var r := ParseShape(s);
      if r.None? then None else Some(FieldsRead(f.(shape := Some(r.value.dims)), r.value.rest))
    else if key == "data_offsets" then
      var r := ParseOffsets(s);
      if r.None? then None else Some(FieldsRead(f.(range := Some(r.value.range)), r.value.rest))
    else
      var r := SkipValue(s, 1);
      if r.None? then None else Some(FieldsRead(f, r.value))
  }

  /** The members of a tensor. A text that ends behind a comma ends the loop without an error. */
  function TensorMembers(s: string, keys: set<string>, f: Fields): (r: Option<FieldsRead>)
    ensures r.Some? ==> |r.value.rest| <= |s|
    decreases |s|
  {
    if |s| == 0 then Some(FieldsRead(f, s)) else
    var key := ParseKey(s);
    if key.None? || key.value.value in keys then None else
    var field := ParseField(key.value.value, SkipWs(key.value.rest), f);
    if field.None? then None else
    var t := SkipWs(field.value.rest);
    if At(t, '}') then Some(FieldsRead(field.value.fields, t[1..])) else
    if !At(t, ',') then None
    else TensorMembers(SkipWs(t[1..]), keys + {key.value.value}, field.value.fields)
  }

  // ---------------------------------------------------------------- checks on one tensor

  function Product(dims: seq<nat>): nat {
    if |dims| == 0 then 1 else dims[0] * Product(dims[1..])
  }

  datatype Layout = Layout(strides: seq<nat>, stride: nat, elements: nat)

  /** The stride loop, from the last dimension to the first, with its overflow checks. */
  function LayoutOf(dims: seq<nat>): (r: Option<Layout>)
    ensures r.Some? ==> |r.value.strides| == |dims|
  {
    if |dims| == 0 then Some(Layout([], 4, 1)) else
    var inner := LayoutOf(dims[1..]);
    if inner.None? || inner.value.stride > I64Max then None else
    var stride, elements := inner.value.stride * dims[0], inner.value.elements * dims[0];
    if stride >= U64 || elements >= U64 then None
    else Some(Layout([inner.value.stride] + inner.value.strides, stride, elements))
  }

  datatype Placed = Placed(tensor: Tensor, range: Range)

  /** The checks behind the members: all three fields, the type, the range and the size. */
  function Finish(name: string, f: Fields, dataStart: nat, dataSize: nat): Option<Placed> {
    if f.dtype.None? || f.shape.None? || f.range.None? || f.dtype.value != "F32" then None else
    var r := f.range.value;
    if r.first > r.end || r.end > dataSize then None else
    var layout := LayoutOf(f.shape.value);
    if layout.None? then None else
    var expected := layout.value.elements * 4;
    if expected >= U64 || r.end - r.first != expected || dataStart + r.first >= U64 then None
    else Some(Placed(Tensor(name, f.dtype.value, f.shape.value, layout.value.strides, dataStart + r.first, expected),
      r))
  }

  const NoFields := Fields(None, None, None)

  datatype TensorRead = TensorRead(placed: Placed, rest: string)

  function ParseTensor(s: string, name: string, dataStart: nat, dataSize: nat): (r: Option<TensorRead>)
    ensures r.Some? ==> |r.value.rest| < |s|
  {
    if !At(s, '{') then None else
    var t := SkipWs(s[1..]);
    if At(t, '}') then None else
    var members := TensorMembers(t, {}, NoFields);
    if members.None? then None else
    var placed := Finish(name, members.value.fields, dataStart, dataSize);
    if placed.None? then None else Some(TensorRead(placed.value, members.value.rest))
  }

  // ---------------------------------------------------------------- the header

  datatype Found = Found(tensors: map<string, Tensor>, ranges: seq<Range>, metadata: bool)

  datatype HeaderRead = HeaderRead(found: Found, rest: string)

  const Metadata: string := "__metadata__"

  /** One header member: the metadata object or a tensor with a new name. */
  function HeaderMember(key: string, s: string, found: Found, dataStart: nat, dataSize: nat): (r: Option<HeaderRead>)
    ensures r.Some? ==> |r.value.rest| < |s|
  {
    if key == Metadata then
      if found.metadata then None else
      var r := SkipObject(s, 1);
      if r.None? then None else Some(HeaderRead(found.(metadata := true), r.value))
    else
      var r := ParseTensor(s, key, dataStart, dataSize);
      if r.None? || key in found.tensors then None
      else Some(HeaderRead(found.(tensors := found.tensors[key := r.value.placed.tensor], ranges :=
        found.ranges + [r.value.placed.range]), r.value.rest))
  }

  /** The header members. Here too a text that ends behind a comma ends the loop without an error. */
  function HeaderMembers(s: string, found: Found, dataStart: nat, dataSize: nat): (r: Option<HeaderRead>)
    decreases |s|
  {
    if |s| == 0 then Some(HeaderRead(found, s)) else
    var key := ParseKey(s);
    if key.None? then None else
    var one := HeaderMember(key.value.value, SkipWs(key.value.rest), found, dataStart, dataSize);
    if one.None? then None else
    var t := SkipWs(one.value.rest);
    if At(t, '}') then Some(HeaderRead(one.value.found, t[1..])) else
    if !At(t, ',') then None else HeaderMembers(SkipWs(t[1..]), one.value.found, dataStart, dataSize)
  }

  const Nothing := Found(map[], [], false)

  /** The whole header text. */
  function HeaderText(s: string, dataStart: nat, dataSize: nat): Option<Found> {
    var t := SkipWs(s);
    if !At(t, '{') then None else
    var u := SkipWs(t[1..]);
    var r := if At(u, '}') then Some(HeaderRead(Nothing, u[1..])) else HeaderMembers(u, Nothing, dataStart, dataSize);
    if r.None? || |SkipWs(r.value.rest)| > 0 then None else Some(r.value.found)
  }

  // ---------------------------------------------------------------- coverage

  predicate RangeLe(a: Range, b: Range) { a.first < b.first || (a.first == b.first && a.end <= b.end) }

  predicate SortedRanges(s: seq<Range>) { forall i, j :: 0 <= i < j < |s| ==> RangeLe(s[i], s[j]) }

  function Insert(r: Range, s: seq<Range>): seq<Range> {
    if |s| == 0 || RangeLe(r, s[0]) then [r] + s else [s[0]] + Insert(r, s[1..])
  }

  /** `std::sort` on pairs. */
  function Sorted(s: seq<Range>): seq<Range> {
    if |s| == 0 then [] else Insert(s[0], Sorted(s[1..]))
  }

  /** Walking the ranges in order: each starts where the one before ended. */
  predicate Contiguous(s: seq<Range>, covered: nat, size: nat) {
    if |s| == 0 then covered == size
    else s[0].first == covered && s[0].first <= s[0].end && Contiguous(s[1..], s[0].end, size)
  }

  /** `parse_header` on the bytes of a file. */
  function ParseHeader(file: seq<byte>): Option<map<string, Tensor>> {
    if |file| < 8 then None else
    var length := GetLe(file[..8]);
    if length == 0 || length > MaxHeader || length > |file| - 8 then None else
    var dataStart := 8 + length;
    var dataSize := |file| - dataStart;
    var found := HeaderText(Text(file[8..dataStart]), dataStart, dataSize);
    if found.None? || !Contiguous(Sorted(found.value.ranges), 0, dataSize) then None else Some(found.value.tensors)
  }

  /** `data(name)`: the payload of a tensor, when it lies inside the file. */
  function Data(file: seq<byte>, tensors: map<string, Tensor>, name: string): Option<seq<byte>> {
    if name !in tensors || tensors[name].dataOffset > |file| || tensors[name].nbytes > |file| - tensors[name].dataOffset
      then None
    else Some(file[tensors[name].dataOffset..tensors[name].dataOffset + tensors[name].nbytes])
  }
}
