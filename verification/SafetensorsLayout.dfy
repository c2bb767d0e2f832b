/** What an accepted header guarantees about the payload: row-major strides, exact sizes and a partition
    of the data section. */
module SafetensorsLayout {
  import opened Spools
  import opened Bytes
  import opened Decimals
  import opened JsonParser
  import opened Safetensors

  // ---------------------------------------------------------------- strides and sizes

  /** Every inner stride is representable and every outer size fits 64 bits. */
  ghost predicate Fits(dims: seq<nat>) {
    forall i: nat :: i < |dims| ==> FitsAt(dims, i)
  }

  ghost predicate FitsAt(dims: seq<nat>, i: nat)
    requires i < |dims|
  {
    4 * Product(dims[i..][1..]) <= I64Max && 4 * Product(dims[i..]) < U64
  }

  lemma FitsInner(dims: seq<nat>)
    requires |dims| > 0
    ensures Fits(dims) <==> FitsAt(dims, 0) && Fits(dims[1..])
  {
    var inner := dims[1..];
    forall i: nat | i < |inner| ensures FitsAt(inner, i) <==> FitsAt(dims, i + 1) {
      assert inner[i..] == dims[i + 1..];
    }
    if Fits(inner) && FitsAt(dims, 0) {
      forall i: nat | i < |dims| ensures FitsAt(dims, i) {
        if i > 0 { assert FitsAt(inner, i - 1); }
      }
    }
    if Fits(dims) {
      forall i: nat | i < |inner| ensures FitsAt(inner, i) { assert FitsAt(dims, i + 1); }
    }
  }

  lemma Scale(p: nat, d: nat)
    ensures 4 * p * d == 4 * (p * d) && d * p == p * d && p * d <= 4 * (p * d)
  {
  }

  lemma LayoutStep(dims: seq<nat>, p: nat)
    requires |dims| > 0 && p == Product(dims[1..])
    requires LayoutOf(dims[1..]).Some? ==>
      LayoutOf(dims[1..]).value.stride == 4 * p && LayoutOf(dims[1..]).value.elements == p
    ensures LayoutOf(dims).Some? <==> LayoutOf(dims[1..]).Some? && 4 * p <= I64Max && 4 * Product(dims) < U64
    ensures LayoutOf(dims).Some? ==>
      && LayoutOf(dims).value.stride == 4 * Product(dims) && LayoutOf(dims).value.elements == Product(dims)
      && LayoutOf(dims).value.strides == [4 * p] + LayoutOf(dims[1..]).value.strides
  {
    Scale(p, dims[0]);
  }

  /** Strides are row-major in bytes; the loop accepts exactly the shapes whose sizes fit. */
  lemma {:induction false} LayoutExact(dims: seq<nat>)
    ensures LayoutOf(dims).Some? <==> Fits(dims)
    ensures LayoutOf(dims).Some? ==>
      && LayoutOf(dims).value.stride == 4 * Product(dims) && LayoutOf(dims).value.elements == Product(dims)
      && RowMajor(dims, LayoutOf(dims).value.strides)
  {
    if |dims| > 0 {
      FitsInner(dims);
      LayoutExact(dims[1..]);
      assert dims[0..] == dims;
      var p := Product(dims[1..]);
      LayoutStep(dims, p);
      if LayoutOf(dims).Some? { StridesOuter(dims, LayoutOf(dims[1..]).value.strides); }
    }
  }

  ghost predicate StrideAt(dims: seq<nat>, strides: seq<nat>, i: nat)
    requires |strides| == |dims|
  {
    i < |dims| ==> strides[i] == 4 * Product(dims[i..][1..])
  }

  ghost predicate RowMajor(dims: seq<nat>, strides: seq<nat>) {
    |strides| == |dims| && forall i: nat :: StrideAt(dims, strides, i)
  }

  lemma StridesOuter(dims: seq<nat>, inner: seq<nat>)
    requires |dims| > 0 && RowMajor(dims[1..], inner)
    ensures RowMajor(dims, [4 * Product(dims[1..])] + inner)
  {
    var strides := [4 * Product(dims[1..])] + inner;
    forall i: nat ensures StrideAt(dims, strides, i) {
      if 0 < i < |dims| {
        assert StrideAt(dims[1..], inner, i - 1);
        assert dims[1..][i - 1..] == dims[i..];
      } else if i == 0 {
        assert dims[0..] == dims;
      }
    }
  }

  // ---------------------------------------------------------------- which tensors the ranges belong to

  predicate TensorOk(t: Tensor, r: Range, dataStart: nat, dataSize: nat) {
    && t.dtype == "F32" && t.dataOffset == dataStart + r.first && r.first <= r.end <= dataSize
    && t.nbytes == r.end - r.first == 4 * Product(t.shape)
    && LayoutOf(t.shape).Some? && t.strides == LayoutOf(t.shape).value.strides
  }

  /** names lists the tensors in file order, ranges their ranges. */
  ghost predicate Indexed(names: seq<string>, found: Found, dataStart: nat, dataSize: nat) {
    && |names| == |found.ranges|
    && (forall i, j :: 0 <= i < j < |names| ==> names[i] != names[j])
    && (forall name :: name in found.tensors <==> name in names)
    && (forall i :: 0 <= i < |names| ==>
          names[i] in found.tensors && TensorOk(found.tensors[names[i]], found.ranges[i], dataStart, dataSize))
  }

  lemma FinishOk(name: string, f: Fields, dataStart: nat, dataSize: nat)
    requires Finish(name, f, dataStart, dataSize).Some?
    ensures var p := Finish(name, f, dataStart, dataSize).value; TensorOk(p.tensor, p.range, dataStart, dataSize)
  {
    LayoutExact(f.shape.value);
  }

  lemma IndexedMore(names: seq<string>, found: Found, key: string, p: Placed, dataStart: nat, dataSize: nat)
    requires Indexed(names, found, dataStart, dataSize) && key !in found.tensors
      && TensorOk(p.tensor, p.range, dataStart, dataSize)
    ensures Indexed(names + [key],
                    found.(tensors := found.tensors[key := p.tensor], ranges := found.ranges + [p.range]), dataStart,
                      dataSize)
  {
  }

  lemma MemberIndexed(key: string, s: string, names: seq<string>, found: Found, dataStart: nat, dataSize: nat)
    returns (more: seq<string>)
    requires Indexed(names, found, dataStart, dataSize) && HeaderMember(key, s, found, dataStart, dataSize).Some?
    ensures Indexed(more, HeaderMember(key, s, found, dataStart, dataSize).value.found, dataStart, dataSize)
  {
    more := names;
    if key != Metadata {
      var r := ParseTensor(s, key, dataStart, dataSize);
      FinishOk(key, TensorMembers(SkipWs(s[1..]), {}, NoFields).value.fields, dataStart, dataSize);
      IndexedMore(names, found, key, r.value.placed, dataStart, dataSize);
      more := names + [key];
    }
  }

  lemma {:induction false} MembersIndexed(s: string, names: seq<string>, found: Found, dataStart: nat, dataSize: nat)
    returns (all: seq<string>)
    requires Indexed(names, found, dataStart, dataSize) && HeaderMembers(s, found, dataStart, dataSize).Some?
    ensures Indexed(all, HeaderMembers(s, found, dataStart, dataSize).value.found, dataStart, dataSize)
    decreases |s|
  {
    all := names;
    if |s| > 0 {
      var key := ParseKey(s).value;
      var v := SkipWs(key.rest);
      all := MemberIndexed(key.value, v, names, found, dataStart, dataSize);
      var one := HeaderMember(key.value, v, found, dataStart, dataSize).value;
      var t := SkipWs(one.rest);
      if !At(t, '}') { all := MembersIndexed(SkipWs(t[1..]), all, one.found, dataStart, dataSize); }
    }
  }

  lemma TextIndexed(s: string, dataStart: nat, dataSize: nat) returns (all: seq<string>)
    requires HeaderText(s, dataStart, dataSize).Some?
    ensures Indexed(all, HeaderText(s, dataStart, dataSize).value, dataStart, dataSize)
  {
    var u := SkipWs(SkipWs(s)[1..]);
    all := [];
    if !At(u, '}') { all := MembersIndexed(u, [], Nothing, dataStart, dataSize); }
  }

  // ---------------------------------------------------------------- the partition

  predicate Holds(r: Range, b: nat) { r.first <= b < r.end }

  /** How many ranges hold byte b. */
  function Holders(s: seq<Range>, b: nat): nat {
    if |s| == 0 then 0 else (if Holds(s[0], b) then 1 else 0) + Holders(s[1..], b)
  }

  lemma {:induction false} InsertHolders(r: Range, s: seq<Range>, b: nat)
    ensures Holders(Insert(r, s), b) == (if Holds(r, b) then 1 else 0) + Holders(s, b)
  {
    if |s| > 0 && !RangeLe(r, s[0]) {
      InsertHolders(r, s[1..], b);
      assert Insert(r, s)[1..] == Insert(r, s[1..]);
    } else {
      assert Insert(r, s)[1..] == s;
    }
  }

  lemma {:induction false} SortHolders(s: seq<Range>, b: nat)
    ensures Holders(Sorted(s), b) == Holders(s, b)
  {
    if |s| > 0 {
      SortHolders(s[1..], b);
      InsertHolders(s[0], Sorted(s[1..]), b);
    }
  }

  lemma {:induction false} InsertSorted(r: Range, s: seq<Range>)
    requires SortedRanges(s)
    ensures SortedRanges(Insert(r, s)) && multiset(Insert(r, s)) == multiset(s) + multiset{r}
  {
    if |s| > 0 && !RangeLe(r, s[0]) {
      InsertSorted(r, s[1..]);
      var tail := Insert(r, s[1..]);
      assert s == [s[0]] + s[1..];
      forall j | 0 <= j < |tail| ensures RangeLe(s[0], tail[j]) {
        assert tail[j] in multiset(tail);
        if tail[j] != r { assert tail[j] in s[1..]; }
      }
    } else if |s| > 0 {
      assert s == [s[0]] + s[1..];
    }
  }

  /** The sort is one. */
  lemma {:induction false} SortSorts(s: seq<Range>)
    ensures SortedRanges(Sorted(s)) && multiset(Sorted(s)) == multiset(s)
  {
    if |s| > 0 {
      SortSorts(s[1..]);
      InsertSorted(s[0], Sorted(s[1..]));
      assert s == [s[0]] + s[1..];
    }
  }

  lemma {:induction false} ContiguousHolders(s: seq<Range>, covered: nat, size: nat, b: nat)
    requires Contiguous(s, covered, size)
    ensures covered <= size && Holders(s, b) == if covered <= b < size then 1 else 0
  {
    if |s| > 0 { ContiguousHolders(s[1..], s[0].end, size, b); }
  }

  lemma {:induction false} OnlyHolder(s: seq<Range>, b: nat) returns (i: nat)
    requires Holders(s, b) == 1
    ensures i < |s| && Holds(s[i], b) && forall j: nat :: j < |s| && j != i ==> !Holds(s[j], b)
  {
    if Holds(s[0], b) {
      i := 0;
      forall j: nat | 0 < j < |s| ensures !Holds(s[j], b) { NoHolder(s[1..], b, j - 1); }
    } else {
      var k := OnlyHolder(s[1..], b);
      i := k + 1;
      forall j: nat | j < |s| && j != i ensures !Holds(s[j], b) {
        if j > 0 { assert j - 1 != k && !Holds(s[1..][j - 1], b); }
      }
    }
  }

  lemma {:induction false} NoHolder(s: seq<Range>, b: nat, j: nat)
    requires Holders(s, b) == 0 && j < |s|
    ensures !Holds(s[j], b)
  {
    if j > 0 { NoHolder(s[1..], b, j - 1); }
  }

  predicate Owns(t: Tensor, b: nat) { t.dataOffset <= b < t.dataOffset + t.nbytes }

  /** Every payload byte of an accepted file belongs to exactly one tensor. */
  lemma PayloadPartition(file: seq<byte>, b: nat) returns (owner: string)
    requires ParseHeader(file).Some? && 8 + GetLe(file[..8]) <= b < |file|
    ensures owner in ParseHeader(file).value && Owns(ParseHeader(file).value[owner], b)
    ensures forall name :: name in ParseHeader(file).value && name != owner ==> !Owns(ParseHeader(file).value[name], b)
  {
    var dataStart := 8 + GetLe(file[..8]);
    var dataSize := |file| - dataStart;
    var found := HeaderText(Text(file[8..dataStart]), dataStart, dataSize).value;
    var names := TextIndexed(Text(file[8..dataStart]), dataStart, dataSize);
    SortHolders(found.ranges, b - dataStart);
    ContiguousHolders(Sorted(found.ranges), 0, dataSize, b - dataStart);
    var i := OnlyHolder(found.ranges, b - dataStart);
    owner := names[i];
    forall name | name in found.tensors && name != owner ensures !Owns(found.tensors[name], b) {
      var j: nat :| j < |names| && names[j] == name;
      assert !Holds(found.ranges[j], b - dataStart);
    }
  }

  /** Every tensor of an accepted file has F32 data of exactly its shape inside the file, with row-major strides. */
  lemma TensorsFit(file: seq<byte>, name: string)
    requires ParseHeader(file).Some? && name in ParseHeader(file).value
    ensures var t := ParseHeader(file).value[name];
      && t.dtype == "F32" && t.nbytes == 4 * Product(t.shape) && RowMajor(t.shape, t.strides)
      && 8 + GetLe(file[..8]) <= t.dataOffset && t.dataOffset + t.nbytes <= |file|
    ensures Data(file, ParseHeader(file).value, name).Some?
    ensures |Data(file, ParseHeader(file).value, name).value| == 4 * Product(ParseHeader(file).value[name].shape)
  {
    var found, dataSize := FoundIn(file);
    var names := FoundIndexed(file, found, dataSize);
    IndexedFits(file, names, found, 8 + GetLe(file[..8]), dataSize, name);
  }

  /** What the reader has found in an accepted file. */
  ghost predicate HasFound(file: seq<byte>, found: Found, dataSize: nat) {
    forall k {:trigger Sealed(k)} :: Sealed(k) ==>
      && |file| >= 8 && |file| == 8 + GetLe(file[..8]) + dataSize
      && HeaderText(Text(file[8..8 + GetLe(file[..8])]), 8 + GetLe(file[..8]), dataSize) == Some(found)
  }

  /** A sealed fact is taken apart only where some Sealed term is written down. */
  ghost predicate Sealed(k: int) { true }

  lemma FoundIn(file: seq<byte>) returns (found: Found, dataSize: nat)
    requires ParseHeader(file).Some?
    ensures HasFound(file, found, dataSize) && ParseHeader(file) == Some(found.tensors)
    ensures |file| >= 8 && |file| == 8 + GetLe(file[..8]) + dataSize
  {
    dataSize := |file| - (8 + GetLe(file[..8]));
    found := HeaderText(Text(file[8..8 + GetLe(file[..8])]), 8 + GetLe(file[..8]), dataSize).value;
  }

  lemma FoundIndexed(file: seq<byte>, found: Found, dataSize: nat) returns (names: seq<string>)
    requires |file| >= 8 && |file| == 8 + GetLe(file[..8]) + dataSize && HasFound(file, found, dataSize)
    ensures Indexed(names, found, 8 + GetLe(file[..8]), dataSize)
  {
    assert Sealed(0);
    names := TextIndexed(Text(file[8..8 + GetLe(file[..8])]), 8 + GetLe(file[..8]), dataSize);
  }

  lemma IndexedFits(file: seq<byte>, names: seq<string>, found: Found, dataStart: nat, dataSize: nat, name: string)
    requires Indexed(names, found, dataStart, dataSize) && name in found.tensors && |file| == dataStart + dataSize
    ensures var t := found.tensors[name];
      && t.dtype == "F32" && t.nbytes == 4 * Product(t.shape) && RowMajor(t.shape, t.strides)
      && dataStart <= t.dataOffset && t.dataOffset + t.nbytes <= |file|
    ensures Data(file, found.tensors, name).Some?
    ensures |Data(file, found.tensors, name).value| == 4 * Product(found.tensors[name].shape)
  {
    var i: nat :| i < |names| && names[i] == name;
    LayoutExact(found.tensors[name].shape);
  }
}
