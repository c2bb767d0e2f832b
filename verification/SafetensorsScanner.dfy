/** The safetensors header reader as it is written: one cursor, maps and lists that grow. */
module SafetensorsScanner {
  import opened Spools
  import opened Bytes
  import opened Decimals
  import opened JsonGrammar
  import opened JsonParser
  import opened JsonScanner
  import opened Safetensors

  function LeftUint(ok: bool, value: nat, text: string, q: nat): Option<Uint>
    requires q <= |text|
  {
    if ok then Some(Uint(value, text[q..])) else None
  }

  method ScanUint(text: string, p: nat) returns (ok: bool, q: nat, value: nat)
    requires p <= |text|
    ensures p <= q <= |text| && ParseUint(text[p..]) == LeftUint(ok, value, text, q)
    ensures ok ==> p < q
  {
    value := 0;
    q := ScanWs(text, p);
    if q >= |text| || !Digit(text[q]) { return false, q, 0; }
    if text[q] == '0' && q + 1 < |text| && Digit(text[q + 1]) { return false, q, 0; }
    ghost var t := text[q..];
    Step(text, q, 1);
    value := DigitOf(text[q]);
    ghost var goal := UintDigits(text[q + 1..], value);
    q := q + 1;
    ok, q, value := ScanUintDigits(text, q, value);
  }

  /** The digits behind the first one. */
  method ScanUintDigits(text: string, p: nat, first: nat) returns (ok: bool, q: nat, value: nat)
    requires p <= |text|
    ensures p <= q <= |text| && UintDigits(text[p..], first) == LeftUint(ok, value, text, q)
  {
    q, value := p, first;
    while q < |text| && Digit(text[q])
      invariant p <= q <= |text| && UintDigits(text[q..], value) == UintDigits(text[p..], first)
    {
      var digit := DigitOf(text[q]);
      if value > (U64 - 1 - digit) / 10 { return false, q, value; }
      Step(text, q, 1);
      value := value * 10 + digit;
      q := q + 1;
    }
    ok := true;
  }

  function LeftShape(ok: bool, dims: seq<nat>, text: string, q: nat): Option<Shape>
    requires q <= |text|
  {
    if ok then Some(Shape(dims, text[q..])) else None
  }

  method ScanShape(text: string, p: nat) returns (ok: bool, q: nat, dims: seq<nat>)
    requires p <= |text|
    ensures p <= q <= |text| && ParseShape(text[p..]) == LeftShape(ok, dims, text, q)
  {
    q, dims := p, [];
    if !IsAt(text, q, '[') { return false, q, dims; }
    Step(text, p, 1);
    q := ScanWs(text, q + 1);
    if IsAt(text, q, ']') {
      Step(text, q, 1);
      return true, q + 1, dims;
    }
    ghost var goal := ShapeItems(text[q..], []);
    while q < |text|
      invariant p <= q <= |text| && ShapeItems(text[q..], dims) == goal
      decreases |text| - q
    {
      if |dims| >= MaxRank { return false, q, dims; }
      var dim;
      ok, q, dim := ScanUint(text, q);
      if !ok || dim > I64Max { return false, q, dims; }
      dims := dims + [dim];
      var turn;
      turn, q := ScanTurn(text, q, ']');
      if turn != Again { return turn == Closed, q, dims; }
    }
    ok := false;
  }

  /** A number and the character behind it. */
  method ScanUintThen(text: string, p: nat, c: char) returns (ok: bool, q: nat, value: nat)
    requires p <= |text|
    ensures p <= q <= |text|
    ensures ok <==> ParseUint(text[p..]).Some? && At(SkipWs(ParseUint(text[p..]).value.rest), c)
    ensures ok ==>
      value == ParseUint(text[p..]).value.value && text[q..] == SkipWs(ParseUint(text[p..]).value.rest)[1..]
  {
    ok, q, value := ScanUint(text, p);
    if !ok { return; }
    q := ScanWs(text, q);
    if !IsAt(text, q, c) { return false, q, 0; }
    Step(text, q, 1);
    q := q + 1;
  }

  method ScanOffsets(text: string, p: nat) returns (ok: bool, q: nat, start: nat, finish: nat)
    requires p <= |text|
    ensures p <= q <= |text|
    ensures ParseOffsets(text[p..]) == if ok then Some(Offsets(Range(start, finish), text[q..])) else None
  {
    q, start, finish := p, 0, 0;
    if !IsAt(text, q, '[') { return false, q, 0, 0; }
    Step(text, p, 1);
    ok, q, start := ScanUintThen(text, q + 1, ',');
    if !ok { return; }
    ok, q, finish := ScanUintThen(text, q, ']');
  }

  function LeftFields(ok: bool, f: Fields, text: string, q: nat): Option<FieldsRead>
    requires q <= |text|
  {
    if ok then Some(FieldsRead(f, text[q..])) else None
  }

  method ScanField(key: string, text: string, p: nat, f: Fields) returns (ok: bool, q: nat, g: Fields)
    requires p <= |text|
    ensures p <= q <= |text| && ParseField(key, text[p..], f) == LeftFields(ok, g, text, q)
  {
    g := f;
    if key == "dtype" {
      var dtype;
      ok, q, dtype := ScanString(text, p);
      g := f.(dtype := Some(dtype));
    } else if key == "shape" {
      var dims;
      ok, q, dims := ScanShape(text, p);
      g := f.(shape := Some(dims));
    } else if key == "data_offsets" {
      var start, finish;
      ok, q, start, finish := ScanOffsets(text, p);
      g := f.(range := Some(Range(start, finish)));
    } else {
      ok, q := ScanValue(text, p, 1);
    }
  }

  /** One member of a tensor and what follows it. */
  method ScanTensorMember(text: string, p: nat, keys: set<string>, f: Fields)
    returns (turn: Turn, q: nat, key: string, g: Fields)
    requires p < |text|
    ensures p <= q <= |text|
    ensures TensorMembers(text[p..], keys, f) ==
      match turn
      case Closed => Some(FieldsRead(g, text[q..]))
      case Again => TensorMembers(text[q..], keys + {key}, g)
      case Broken => None
    ensures turn != Broken ==> p < q
  {
    var ok;
    g := f;
    ok, q, key := ScanKey(text, p);
    if !ok || key in keys { return Broken, q, key, g; }
    q := ScanWs(text, q);
    ok, q, g := ScanField(key, text, q, f);
    if !ok { return Broken, q, key, g; }
    turn, q := ScanTurn(text, q, '}');
  }

  /** The member loop; running off the end of the text is no error here. */
  method ScanTensorMembers(text: string, p: nat) returns (ok: bool, q: nat, f: Fields)
    requires p <= |text|
    ensures p <= q <= |text| && TensorMembers(text[p..], {}, NoFields) == LeftFields(ok, f, text, q)
  {
    q, f := p, NoFields;
    var keys: set<string> := {};
    while q < |text|
      invariant p <= q <= |text| && TensorMembers(text[q..], keys, f) == TensorMembers(text[p..], {}, NoFields)
      decreases |text| - q
    {
      var turn, key;
      turn, q, key, f := ScanTensorMember(text, q, keys, f);
      if turn != Again { return turn == Closed, q, f; }
      keys := keys + {key};
    }
    ok := true;
  }

  /** Strides from the last dimension to the first. */
  method ComputeStrides(dims: seq<nat>) returns (ok: bool, strides: seq<nat>, elements: nat)
    ensures if ok then LayoutOf(dims).Some? && LayoutOf(dims).value.strides == strides
      && LayoutOf(dims).value.elements == elements
            else LayoutOf(dims).None?
  {
    var i := |dims|;
    var stride: nat := 4;
    strides, elements := [], 1;
    while i > 0
      invariant 0 <= i <= |dims| && LayoutOf(dims[i..]) == Some(Layout(strides, stride, elements))
    {
      i := i - 1;
      assert dims[i..][1..] == dims[i + 1..];
      LayoutNone(dims, i);
      if stride > I64Max { return false, strides, elements; }
      strides := [stride] + strides;
      stride, elements := stride * dims[i], elements * dims[i];
      if stride >= U64 || elements >= U64 { return false, strides, elements; }
    }
    assert dims[0..] == dims;
    ok := true;
  }

  lemma {:induction false} LayoutNone(dims: seq<nat>, i: nat)
    requires i <= |dims|
    ensures LayoutOf(dims[i..]).None? ==> LayoutOf(dims).None?
  {
    if i == 0 {
      assert dims[0..] == dims;
    } else {
      LayoutNone(dims[1..], i - 1);
      assert dims[1..][i - 1..] == dims[i..];
    }
  }

  method FinishTensor(name: string, f: Fields, dataStart: nat, dataSize: nat) returns (placed: Option<Placed>)
    ensures placed == Finish(name, f, dataStart, dataSize)
  {
    if f.dtype.None? || f.shape.None? || f.range.None? || f.dtype.value != "F32" { return None; }
    var start, finish := f.range.value.first, f.range.value.end;
    if start > finish || finish > dataSize { return None; }
    var ok, strides, elements := ComputeStrides(f.shape.value);
    if !ok || elements * 4 >= U64 || finish - start != elements * 4 || dataStart + start >= U64 { return None; }
    placed := Some(Placed(Tensor(name, f.dtype.value, f.shape.value, strides, dataStart + start, elements * 4),
      Range(start, finish)));
  }

  method ScanTensor(text: string, p: nat, name: string, dataStart: nat, dataSize: nat)
    returns (placed: Option<Placed>, q: nat)
    requires p <= |text|
    ensures p <= q <= |text|
    ensures ParseTensor(text[p..], name, dataStart, dataSize)
         == if placed.Some? then Some(TensorRead(placed.value, text[q..])) else None
  {
    q := p;
    if !IsAt(text, q, '{') { return None, q; }
    Step(text, p, 1);
    q := ScanWs(text, q + 1);
    if IsAt(text, q, '}') { return None, q; }
    var ok, f;
    ok, q, f := ScanTensorMembers(text, q);
    if !ok { return None, q; }
    placed := FinishTensor(name, f, dataStart, dataSize);
  }

  /** One header member. */
  method ScanHeaderMember(text: string, p: nat, found: Found, dataStart: nat, dataSize: nat)
    returns (turn: Turn, q: nat, more: Found)
    requires p < |text|
    ensures p <= q <= |text|
    ensures HeaderMembers(text[p..], found, dataStart, dataSize) ==
      match turn
      case Closed => Some(HeaderRead(more, text[q..]))
      case Again => HeaderMembers(text[q..], more, dataStart, dataSize)
      case Broken => None
    ensures turn != Broken ==> p < q
  {
    more := found;
    var ok, name;
    ok, q, name := ScanKey(text, p);
    if !ok { return Broken, q, more; }
    q := ScanWs(text, q);
    ok, q, more := ScanNamed(name, text, q, found, dataStart, dataSize);
    if !ok { return Broken, q, more; }
    turn, q := ScanTurn(text, q, '}');
  }

  method ScanNamed(name: string, text: string, p: nat, found: Found, dataStart: nat, dataSize: nat)
    returns (ok: bool, q: nat, more: Found)
    requires p <= |text|
    ensures p <= q <= |text|
    ensures HeaderMember(name, text[p..], found, dataStart, dataSize) == if ok then Some(HeaderRead(more, text[q..]))
      else None
  {
    more, q := found, p;
    if name == Metadata {
      if found.metadata { return false, q, more; }
      ok, q := ScanObject(text, q, 1);
      more := found.(metadata := true);
    } else {
      var placed;
      placed, q := ScanTensor(text, q, name, dataStart, dataSize);
      if placed.None? || name in found.tensors { return false, q, more; }
      more := found.(tensors := found.tensors[name := placed.value.tensor], ranges :=
        found.ranges + [placed.value.range]);
      ok := true;
    }
  }

  method ScanHeaderMembers(text: string, p: nat, dataStart: nat, dataSize: nat) returns (ok: bool, q: nat, found: Found)
    requires p <= |text|
    ensures p <= q <= |text|
    ensures HeaderMembers(text[p..], Nothing, dataStart, dataSize) == if ok then Some(HeaderRead(found, text[q..]))
      else None
  {
    q, found := p, Nothing;
    while q < |text|
      invariant p <= q <= |text|
      invariant HeaderMembers(text[q..], found, dataStart, dataSize)
        == HeaderMembers(text[p..], Nothing, dataStart, dataSize)
      decreases |text| - q
    {
      var turn;
      turn, q, found := ScanHeaderMember(text, q, found, dataStart, dataSize);
      if turn != Again { return turn == Closed, q, found; }
    }
    ok := true;
  }

  method ScanHeader(text: string, dataStart: nat, dataSize: nat) returns (found: Option<Found>)
    ensures found == HeaderText(text, dataStart, dataSize)
  {
    assert text[0..] == text;
    var p := ScanWs(text, 0);
    if !IsAt(text, p, '{') { return None; }
    Step(text, p, 1);
    p := ScanWs(text, p + 1);
    var read := Nothing;
    if IsAt(text, p, '}') {
      Step(text, p, 1);
      p := p + 1;
    } else {
      var ok;
      ok, p, read := ScanHeaderMembers(text, p, dataStart, dataSize);
      if !ok { return None; }
    }
    p := ScanWs(text, p);
    found := if p != |text| then None else Some(read);
  }

  /** Gaps, overlaps and unindexed bytes are refused. */
  method CheckCoverage(ranges: seq<Range>, size: nat) returns (ok: bool)
    ensures ok == Contiguous(ranges, 0, size)
  {
    var covered := 0;
    var i := 0;
    assert ranges[0..] == ranges;
    while i < |ranges|
      invariant 0 <= i <= |ranges| && Contiguous(ranges[i..], covered, size) == Contiguous(ranges, 0, size)
    {
      assert ranges[i..][1..] == ranges[i + 1..];
      if ranges[i].first != covered || ranges[i].end < ranges[i].first { return false; }
      covered := ranges[i].end;
      i := i + 1;
    }
    ok := covered == size;
  }

  /** Loading a file. */
  method Load(file: seq<byte>) returns (tensors: Option<map<string, Tensor>>)
    ensures tensors == ParseHeader(file)
  {
    if |file| < 8 { return None; }
    var length := GetLe(file[..8]);
    if length == 0 || length > MaxHeader || length > |file| - 8 { return None; }
    var dataStart := 8 + length;
    var dataSize := |file| - dataStart;
    var found := ScanHeader(Text(file[8..dataStart]), dataStart, dataSize);
    if found.None? { return None; }
    var contiguous := CheckCoverage(Sorted(found.value.ranges), dataSize);
    tensors := if contiguous then Some(found.value.tensors) else None;
  }
}
