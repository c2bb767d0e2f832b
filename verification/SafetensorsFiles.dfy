/** Whole safetensors files as the writers lay them out, and how the reader takes them. */
module SafetensorsFiles {
  import opened Spools
  import opened Bytes
  import opened Decimals
  import opened JsonGrammar
  import opened JsonParser
  import opened JsonExact
  import opened Safetensors
  import opened SafetensorsLayout
  import opened SafetensorsText

  // ---------------------------------------------------------------- lists of entries

  predicate AllOk(ls: seq<Listed>, dataStart: nat, dataSize: nat) {
    forall i :: 0 <= i < |ls| ==> ListedOk(ls[i], dataStart, dataSize)
  }

  predicate Distinct(ls: seq<Listed>) { forall i, j :: 0 <= i < j < |ls| ==> ls[i].name != ls[j].name }

  /** None of the names has been read yet. */
  predicate AllNew(found: Found, ls: seq<Listed>) { forall i :: 0 <= i < |ls| ==> CanAdd(found, ls[i]) }

  predicate PlainNames(ls: seq<Listed>) { forall i :: 0 <= i < |ls| ==> PlainName(ls[i].name) }

  function AddAll(found: Found, ls: seq<Listed>, dataStart: nat, dataSize: nat): Found
    requires AllOk(ls, dataStart, dataSize)
    decreases |ls|
  {
    if |ls| == 0 then found else AddAll(Add(found, ls[0], dataStart), ls[1..], dataStart, dataSize)
  }

  lemma TailNew(found: Found, ls: seq<Listed>, dataStart: nat, dataSize: nat)
    requires |ls| > 0 && AllOk(ls, dataStart, dataSize) && Distinct(ls) && AllNew(found, ls)
    ensures CanAdd(found, ls[0]) && ListedOk(ls[0], dataStart, dataSize)
    ensures AllOk(ls[1..], dataStart, dataSize) && Distinct(ls[1..]) && AllNew(Add(found, ls[0], dataStart), ls[1..])
  {
    var more := Add(found, ls[0], dataStart);
    forall i | 0 <= i < |ls| - 1 ensures CanAdd(more, ls[1..][i]) {
      assert ls[1..][i] == ls[i + 1] && CanAdd(found, ls[i + 1]) && ls[0].name != ls[i + 1].name;
    }
  }

  lemma {:induction false} ListRead(ls: seq<Listed>, found: Found, dataStart: nat, dataSize: nat, pad: string)
    requires |ls| > 0 && PlainNames(ls) && AllOk(ls, dataStart, dataSize) && Distinct(ls) && AllNew(found, ls)
    ensures HeaderMembers(ListText(ls) + (['}'] + pad), found, dataStart, dataSize)
         == Some(HeaderRead(AddAll(found, ls, dataStart, dataSize), pad))
    ensures ListText(ls)[0] == '"'
    decreases |ls|
  {
    var close := ['}'] + pad;
    TailNew(found, ls, dataStart, dataSize);
    if |ls| == 1 {
      EntryRead(ls[0], found, dataStart, dataSize, close);
      assert close[1..] == pad;
    } else {
      var more := ListText(ls[1..]) + close;
      Group3(EntryText(ls[0]), [','] + ListText(ls[1..]), close);
      Group3([','], ListText(ls[1..]), close);
      EntryRead(ls[0], found, dataStart, dataSize, [','] + more);
      assert ([','] + more)[1..] == more;
      ListRead(ls[1..], Add(found, ls[0], dataStart), dataStart, dataSize, pad);
      NoWs(more);
    }
  }

  // ---------------------------------------------------------------- what the list adds up to

  /** The ranges of the tensors proper, in order. */
  function Ranges(ls: seq<Listed>): seq<Range> {
    if |ls| == 0 then [] else (if ls[0].name == Metadata then [] else [ls[0].range]) + Ranges(ls[1..])
  }

  lemma {:induction false} AddedRanges(found: Found, ls: seq<Listed>, dataStart: nat, dataSize: nat)
    requires AllOk(ls, dataStart, dataSize)
    ensures AddAll(found, ls, dataStart, dataSize).ranges == found.ranges + Ranges(ls)
    decreases |ls|
  {
    if |ls| > 0 { AddedRanges(Add(found, ls[0], dataStart), ls[1..], dataStart, dataSize); }
  }

  /** Names already read stay as they are. */
  lemma {:induction false} AddKeeps(found: Found, ls: seq<Listed>, dataStart: nat, dataSize: nat, name: string)
    requires AllOk(ls, dataStart, dataSize) && Distinct(ls) && AllNew(found, ls) && name in found.tensors
    ensures var all := AddAll(found, ls, dataStart, dataSize).tensors; name in all && all[name] == found.tensors[name]
    decreases |ls|
  {
    if |ls| > 0 {
      TailNew(found, ls, dataStart, dataSize);
      assert ls[0].name != name || ls[0].name == Metadata;
      AddKeeps(Add(found, ls[0], dataStart), ls[1..], dataStart, dataSize, name);
    }
  }

  lemma {:induction false} AddedTensor(found: Found, ls: seq<Listed>, dataStart: nat, dataSize: nat, i: nat)
    requires AllOk(ls, dataStart, dataSize) && Distinct(ls) && AllNew(found, ls) && i < |ls| && ls[i].name != Metadata
    ensures ListedOk(ls[i], dataStart, dataSize)
    ensures var all := AddAll(found, ls, dataStart, dataSize).tensors;
      ls[i].name in all && all[ls[i].name] == TensorOf(ls[i], dataStart)
    decreases |ls|
  {
    TailNew(found, ls, dataStart, dataSize);
    var more := Add(found, ls[0], dataStart);
    if i == 0 {
      AddKeeps(more, ls[1..], dataStart, dataSize, ls[0].name);
    } else {
      AddedTensor(more, ls[1..], dataStart, dataSize, i - 1);
    }
  }

  predicate Named(ls: seq<Listed>, name: string) { exists i :: 0 <= i < |ls| && ls[i].name == name }

  lemma {:induction false} AddedNames(found: Found, ls: seq<Listed>, dataStart: nat, dataSize: nat, name: string)
    requires AllOk(ls, dataStart, dataSize) && name in AddAll(found, ls, dataStart, dataSize).tensors
    ensures name in found.tensors || Named(ls, name)
    decreases |ls|
  {
    if |ls| > 0 {
      AddedNames(Add(found, ls[0], dataStart), ls[1..], dataStart, dataSize, name);
      NamedTail(ls, name);
    }
  }

  // ---------------------------------------------------------------- coverage

  /** The ranges follow each other from `from` to `to`. */
  predicate Laid(ls: seq<Listed>, from: nat, to: nat) {
    if |ls| == 0 then from == to
    else ls[0].range.first == from && from <= ls[0].range.end && Laid(ls[1..], ls[0].range.end, to)
  }

  lemma NamedTail(ls: seq<Listed>, name: string)
    requires |ls| > 0
    ensures Named(ls[1..], name) ==> Named(ls, name)
  {
    if Named(ls[1..], name) {
      var i :| 0 <= i < |ls| - 1 && ls[1..][i].name == name;
      assert ls[i + 1].name == name;
    }
  }

  lemma {:induction false} LaidContiguous(ls: seq<Listed>, from: nat, to: nat)
    requires Laid(ls, from, to) && !Named(ls, Metadata)
    ensures Contiguous(Ranges(ls), from, to)
    decreases |ls|
  {
    if |ls| > 0 {
      assert ls[0].name != Metadata;
      NamedTail(ls, Metadata);
      LaidContiguous(ls[1..], ls[0].range.end, to);
      assert Ranges(ls)[1..] == Ranges(ls[1..]);
    }
  }

  lemma {:induction false} ContiguousSorted(s: seq<Range>, covered: nat, size: nat)
    requires Contiguous(s, covered, size)
    ensures Sorted(s) == s
  {
    if |s| > 0 {
      ContiguousSorted(s[1..], s[0].end, size);
      assert s == [s[0]] + s[1..];
    }
  }

  lemma {:induction false} LaidAfter(ls: seq<Listed>, from: nat, to: nat, b: nat)
    requires Laid(ls, from, to) && b < from
    ensures Holders(Ranges(ls), b) == 0
    decreases |ls|
  {
    if |ls| > 0 {
      LaidAfter(ls[1..], ls[0].range.end, to, b);
      if ls[0].name != Metadata {
        assert Ranges(ls)[1..] == Ranges(ls[1..]);
      } else {
        assert Ranges(ls) == Ranges(ls[1..]);
      }
    }
  }

  /** Nothing covers the bytes of an entry that was read as metadata. */
  lemma {:induction false} MetadataUncovered(ls: seq<Listed>, from: nat, to: nat, m: nat)
    requires Laid(ls, from, to) && m < |ls| && ls[m].name == Metadata && ls[m].range.first < ls[m].range.end
    ensures from <= ls[m].range.first < to && Holders(Ranges(ls), ls[m].range.first) == 0
    decreases |ls|
  {
    LaidEnd(ls[1..], ls[0].range.end, to);
    if m == 0 {
      LaidAfter(ls[1..], ls[0].range.end, to, ls[0].range.first);
      assert Ranges(ls) == Ranges(ls[1..]);
    } else {
      MetadataUncovered(ls[1..], ls[0].range.end, to, m - 1);
      if ls[0].name != Metadata {
        assert Ranges(ls)[1..] == Ranges(ls[1..]);
      } else {
        assert Ranges(ls) == Ranges(ls[1..]);
      }
    }
  }

  lemma {:induction false} LaidEnd(ls: seq<Listed>, from: nat, to: nat)
    requires Laid(ls, from, to)
    ensures from <= to
    decreases |ls|
  {
    if |ls| > 0 { LaidEnd(ls[1..], ls[0].range.end, to); }
  }

  /** The walk over the ranges accepts a laid-out list exactly when none of its entries is called like the metadata. */
  lemma CoverageExact(ls: seq<Listed>, size: nat)
    requires Laid(ls, 0, size) && forall i :: 0 <= i < |ls| ==> ls[i].range.first < ls[i].range.end
    ensures Contiguous(Sorted(Ranges(ls)), 0, size) <==> !Named(ls, Metadata)
  {
    if Named(ls, Metadata) {
      var m: nat :| m < |ls| && ls[m].name == Metadata;
      MetadataUncovered(ls, 0, size, m);
      SortHolders(Ranges(ls), ls[m].range.first);
      if Contiguous(Sorted(Ranges(ls)), 0, size) { ContiguousHolders(Sorted(Ranges(ls)), 0, size, ls[m].range.first); }
    } else {
      LaidContiguous(ls, 0, size);
      ContiguousSorted(Ranges(ls), 0, size);
    }
  }

  // ---------------------------------------------------------------- the file

  /** How many spaces bring n characters to a multiple of eight. */
  function PadLength(n: nat): nat { if n >= 8 then PadLength(n - 8) else if n == 0 then 0 else 8 - n }

  /** With n == 8q + r, it is what r lacks of eight, if anything. */
  lemma {:induction false} PadOf(q: nat, r: nat)
    requires r < 8
    ensures PadLength(8 * q + r) == if r == 0 then 0 else 8 - r
  {
    if q > 0 {
      assert 8 * q + r - 8 == 8 * (q - 1) + r;
      PadOf(q - 1, r);
    }
  }

  lemma PadLengthIs(n: nat)
    ensures PadLength(n) == (8 - n % 8) % 8 && (n + PadLength(n)) % 8 == 0
  {
    var q, r := n / 8, n % 8;
    assert n == 8 * q + r;
    PadOf(q, r);
    if r == 0 {
      assert n + PadLength(n) == 8 * q;
    } else {
      assert n + PadLength(n) == 8 * (q + 1);
      assert (8 - r) % 8 == 8 - r;
    }
  }

  /** The JSON header, padded with spaces. */
  function HeaderOf(ls: seq<Listed>): string {
    var json := ['{'] + ListText(ls) + ['}'];
    json + Spaces(PadLength(|json|))
  }

  function Spaces(n: nat): string { seq(n, _ => ' ') }

  lemma HeaderAligned(ls: seq<Listed>)
    ensures |HeaderOf(ls)| % 8 == 0 && |HeaderOf(ls)| >= 2
  {
    PadLengthIs(2 + |ListText(ls)|);
  }

  lemma HeaderIsRead(ls: seq<Listed>, dataStart: nat, dataSize: nat)
    requires PlainNames(ls) && AllOk(ls, dataStart, dataSize) && Distinct(ls)
    ensures HeaderText(HeaderOf(ls), dataStart, dataSize) == Some(AddAll(Nothing, ls, dataStart, dataSize))
  {
    var json := ['{'] + ListText(ls) + ['}'];
    PaddedIsRead(ls, dataStart, dataSize, Spaces(PadLength(|json|)));
  }

  lemma PaddedIsRead(ls: seq<Listed>, dataStart: nat, dataSize: nat, pad: string)
    requires PlainNames(ls) && AllOk(ls, dataStart, dataSize) && Distinct(ls) && AllWs(pad)
    ensures HeaderText(['{'] + ListText(ls) + ['}'] + pad, dataStart, dataSize)
      == Some(AddAll(Nothing, ls, dataStart, dataSize))
  {
    var body := ListText(ls) + (['}'] + pad);
    var h := ['{'] + ListText(ls) + ['}'] + pad;
    Group4(['{'], ListText(ls), ['}'], pad);
    assert h == ['{'] + body;
    NoWs(h);
    WsOver(pad, "");
    assert pad + "" == pad;
    BodyIsRead(ls, dataStart, dataSize, pad, body);
    assert h[1..] == body;
  }

  lemma BodyIsRead(ls: seq<Listed>, dataStart: nat, dataSize: nat, pad: string, body: string)
    requires PlainNames(ls) && AllOk(ls, dataStart, dataSize) && Distinct(ls) && body == ListText(ls) + (['}'] + pad)
    ensures SkipWs(body) == body && |body| > 0
    ensures var all := AddAll(Nothing, ls, dataStart, dataSize);
      if body[0] == '}' then body[1..] == pad && all == Nothing
      else HeaderMembers(body, Nothing, dataStart, dataSize) == Some(HeaderRead(all, pad))
  {
    if |ls| == 0 {
      assert body == ['}'] + pad;
      NoWs(body);
    } else {
      FullBodyIsRead(ls, dataStart, dataSize, pad);
    }
  }

  lemma FullBodyIsRead(ls: seq<Listed>, dataStart: nat, dataSize: nat, pad: string)
    requires PlainNames(ls) && AllOk(ls, dataStart, dataSize) && Distinct(ls) && |ls| > 0
    ensures var body := ListText(ls) + (['}'] + pad);
      && SkipWs(body) == body && |body| > 0 && body[0] == '"'
      && HeaderMembers(body, Nothing, dataStart, dataSize)
        == Some(HeaderRead(AddAll(Nothing, ls, dataStart, dataSize), pad))
  {
    var body := ListText(ls) + (['}'] + pad);
    forall i | 0 <= i < |ls| ensures CanAdd(Nothing, ls[i]) {}
    ListRead(ls, Nothing, dataStart, dataSize, pad);
    assert body[0] == ListText(ls)[0];
    NoWs(body);
  }

  function FileOf(header: string, payload: seq<byte>): seq<byte> {
    PutLe(|header|, 8) + Ascii(header) + payload
  }

  predicate Narrow(s: string) { forall i :: 0 <= i < |s| ==> s[i] as int < 256 }

  lemma TextOfAscii(s: string)
    requires Narrow(s)
    ensures Text(Ascii(s)) == s
  {
    forall i | 0 <= i < |s| ensures Text(Ascii(s))[i] == s[i] {
      assert Ascii(s)[i] == s[i] as int;
    }
  }

  lemma NumNarrow(n: nat)
    ensures Narrow(Num(n))
  {
    forall i | 0 <= i < |Num(n)| ensures Num(n)[i] as int < 256 { assert Num(n)[i] as int == Dec(n)[i]; }
  }

  lemma NarrowSum(a: string, b: string)
    requires Narrow(a) && Narrow(b)
    ensures Narrow(a + b)
  {
  }

  lemma {:induction false} DimsNarrow(dims: seq<nat>)
    ensures Narrow(DimsText(dims))
  {
    if |dims| > 0 {
      NumNarrow(dims[0]);
      DimsNarrow(dims[1..]);
      NarrowSum([','], DimsText(dims[1..]));
      NarrowSum(Num(dims[0]), [','] + DimsText(dims[1..]));
    }
  }

  lemma ObjectNarrow(dims: seq<nat>, r: Range)
    ensures Narrow(ObjectText(dims, r))
  {
    DimsNarrow(dims);
    NumNarrow(r.first);
    NumNarrow(r.end);
    NarrowSum(Num(r.end), [']']);
    NarrowSum([','], Num(r.end) + [']']);
    NarrowSum(Num(r.first), [','] + (Num(r.end) + [']']));
    NarrowSum(['['], Num(r.first) + ([','] + (Num(r.end) + [']'])));
    NarrowSum(DimsText(dims), [']']);
    NarrowSum(['['], DimsText(dims) + [']']);
    ObjectNarrowParts(dims, r);
  }

  lemma ObjectNarrowParts(dims: seq<nat>, r: Range)
    requires Narrow(ShapeText(dims)) && Narrow(OffsetsText(r))
    ensures Narrow(ObjectText(dims, r))
  {
    var o := OffsetsText(r) + ['}'];
    NarrowSum(OffsetsText(r), ['}']);
    assert Narrow(Key("data_offsets")) && Narrow(Key("shape")) && Narrow(Key("dtype"));
    NarrowSum(Key("data_offsets"), o);
    var o3 := Key("data_offsets") + o;
    NarrowSum([','], o3);
    NarrowSum(ShapeText(dims), [','] + o3);
    NarrowSum(Key("shape"), ShapeText(dims) + ([','] + o3));
    var o2 := Key("shape") + (ShapeText(dims) + ([','] + o3));
    NarrowSum([','], o2);
    NarrowSum("\"F32\"", [','] + o2);
    NarrowSum(Key("dtype"), "\"F32\"" + ([','] + o2));
    NarrowSum(['{'], Key("dtype") + ("\"F32\"" + ([','] + o2)));
  }

  predicate NarrowNames(ls: seq<Listed>) { forall i :: 0 <= i < |ls| ==> Narrow(ls[i].name) }

  lemma {:induction false} ListNarrow(ls: seq<Listed>)
    requires NarrowNames(ls)
    ensures Narrow(ListText(ls))
    decreases |ls|
  {
    if |ls| > 0 {
      ObjectNarrow(ls[0].shape, ls[0].range);
      KeyNarrow(ls[0].name);
      NarrowSum(Key(ls[0].name), ObjectText(ls[0].shape, ls[0].range));
      ListNarrow(ls[1..]);
      NarrowSum([','], ListText(ls[1..]));
      NarrowSum(EntryText(ls[0]), [','] + ListText(ls[1..]));
    }
  }

  lemma KeyNarrow(name: string)
    requires Narrow(name)
    ensures Narrow(Key(name))
  {
  }

  lemma HeaderNarrow(ls: seq<Listed>)
    requires NarrowNames(ls)
    ensures Narrow(HeaderOf(ls))
  {
    ListNarrow(ls);
    NarrowSum(['{'], ListText(ls));
  }

  lemma FileParts(header: string, payload: seq<byte>)
    requires Narrow(header) && |header| < U64
    ensures var file := FileOf(header, payload); var n := |header|;
      && |file| == 8 + n + |payload| && GetLe(file[..8]) == n
      && Text(file[8..8 + n]) == header && file[8 + n..] == payload
  {
    var file, n := FileOf(header, payload), |header|;
    Pow256Four();
    GetPut(n, 8);
    assert file[..8] == PutLe(n, 8);
    assert file[8..8 + n] == Ascii(header);
    TextOfAscii(header);
  }

  /** The reader on a file whose parts are known. */
  lemma ParseParts(file: seq<byte>, n: nat, h: string, size: nat, found: Found)
    requires |file| == 8 + n + size && n > 0 && GetLe(file[..8]) == n && Text(file[8..8 + n]) == h
    requires HeaderText(h, 8 + n, size) == Some(found)
    ensures ParseHeader(file) == if n > MaxHeader || !Contiguous(Sorted(found.ranges), 0, size) then None
      else Some(found.tensors)
  {
  }

  /** The header the writers print for a list of entries. */
  predicate Heads(header: string, ls: seq<Listed>, dataSize: nat) {
    && AllOk(ls, 8 + |header|, dataSize) && 0 < |header| < U64 && Narrow(header)
    && HeaderText(header, 8 + |header|, dataSize) == Some(AddAll(Nothing, ls, 8 + |header|, dataSize))
  }

  lemma HeaderHeads(ls: seq<Listed>, header: string, dataSize: nat)
    requires header == HeaderOf(ls) && PlainNames(ls) && AllOk(ls, 8 + |header|, dataSize) && Distinct(ls)
      && |header| < U64
    ensures Heads(header, ls, dataSize)
  {
    HeaderAligned(ls);
    HeaderIsRead(ls, 8 + |header|, dataSize);
    forall i | 0 <= i < |ls| ensures Narrow(ls[i].name) { assert PlainName(ls[i].name); }
    HeaderNarrow(ls);
  }

  /** Print, then parse: a laid-out file of non-empty tensors with plain distinct names is accepted exactly when no
      tensor is called like the metadata and the header is within the limit, and then it holds exactly the listed
      tensors. */
  lemma FileIsRead(ls: seq<Listed>, header: string, payload: seq<byte>)
    requires Heads(header, ls, |payload|) && Laid(ls, 0, |payload|)
    requires forall i :: 0 <= i < |ls| ==> ls[i].range.first < ls[i].range.end
    ensures ParseHeader(FileOf(header, payload)) ==
      if Named(ls, Metadata) || |header| > MaxHeader then None
      else Some(AddAll(Nothing, ls, 8 + |header|, |payload|).tensors)
  {
    FileParts(header, payload);
    var found := AddAll(Nothing, ls, 8 + |header|, |payload|);
    FoundCovers(ls, 8 + |header|, |payload|);
    ParseParts(FileOf(header, payload), |header|, header, |payload|, found);
  }

  lemma FoundCovers(ls: seq<Listed>, dataStart: nat, size: nat)
    requires AllOk(ls, dataStart, size) && Laid(ls, 0, size)
    requires forall i :: 0 <= i < |ls| ==> ls[i].range.first < ls[i].range.end
    ensures Contiguous(Sorted(AddAll(Nothing, ls, dataStart, size).ranges), 0, size) <==> !Named(ls, Metadata)
  {
    AddedRanges(Nothing, ls, dataStart, size);
    assert [] + Ranges(ls) == Ranges(ls);
    CoverageExact(ls, size);
  }

  /** The payload of a listed tensor is read back bit for bit. */
  lemma DataIsRead(ls: seq<Listed>, header: string, payload: seq<byte>, i: nat)
    requires Heads(header, ls, |payload|) && Distinct(ls) && i < |ls| && ls[i].name != Metadata
    ensures ls[i].range.first <= ls[i].range.end <= |payload|
    ensures Data(FileOf(header, payload), AddAll(Nothing, ls, 8 + |header|, |payload|).tensors, ls[i].name)
         == Some(payload[ls[i].range.first..ls[i].range.end])
  {
    FileParts(header, payload);
    DataAt(ls, FileOf(header, payload), 8 + |header|, payload, i);
  }

  lemma DataAt(ls: seq<Listed>, file: seq<byte>, start: nat, payload: seq<byte>, i: nat)
    requires AllOk(ls, start, |payload|) && Distinct(ls) && i < |ls| && ls[i].name != Metadata
    requires |file| == start + |payload| && file[start..] == payload
    ensures ls[i].range.first <= ls[i].range.end <= |payload|
    ensures Data(file, AddAll(Nothing, ls, start, |payload|).tensors, ls[i].name)
         == Some(payload[ls[i].range.first..ls[i].range.end])
  {
    AddedTensor(Nothing, ls, start, |payload|, i);
    TensorData(file, AddAll(Nothing, ls, start, |payload|).tensors, ls[i], start, payload);
  }

  lemma TensorData(file: seq<byte>, tensors: map<string, Tensor>, l: Listed, start: nat, payload: seq<byte>)
    requires ListedOk(l, start, |payload|) && l.name in tensors && tensors[l.name] == TensorOf(l, start)
    requires |file| == start + |payload| && file[start..] == payload
    ensures Data(file, tensors, l.name) == Some(payload[l.range.first..l.range.end])
  {
    PayloadSlice(file, start, payload, l.range.first, l.range.end);
  }

  lemma PayloadSlice(file: seq<byte>, start: nat, payload: seq<byte>, a: nat, b: nat)
    requires start <= |file| && file[start..] == payload && a <= b <= |payload|
    ensures file[start + a..start + b] == payload[a..b]
  {
    assert file[start..][a..b] == file[start + a..start + b];
  }
}
