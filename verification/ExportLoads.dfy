/** Which files of the two writers the reader refuses, and what it makes of the others: the generator exporter
    lets names through that read as other names or not at all, repeated names and too many dimensions, and both
    writers let the reserved name through. */
module ExportLoads {
  import opened Spools
  import opened Bytes
  import opened Decimals
  import opened JsonGrammar
  import opened JsonParser
  import opened JsonExact
  import opened Safetensors
  import opened SafetensorsLayout
  import opened SafetensorsText
  import opened SafetensorsFiles
  import opened SafetensorsWriters
  import opened CheckpointWriters

  // ---------------------------------------------------------------- names between quotes

  /** A name the writer can put between quotes: bytes, none of them a quote. */
  predicate QuoteFree(s: string) { forall i :: 0 <= i < |s| ==> s[i] != '"' && s[i] as int < 256 }

  /** What the reader makes of a name printed between quotes as it is: None if a control character or a bad escape
      is in it. */
  function AsKey(name: string): Option<string>
    decreases |name|
  {
    if |name| == 0 then Some("") else
    var piece := NextPiece(name);
    if piece.None? then None else
    var tail := AsKey(piece.value.rest);
    if tail.None? then None else Some(piece.value.value + tail.value)
  }

  /** A name without control characters and backslashes stands for itself. */
  lemma {:induction false} PlainAsKey(name: string)
    requires PlainName(name)
    ensures AsKey(name) == Some(name)
  {
    if |name| > 0 {
      PlainAsKey(name[1..]);
      assert name == [name[0]] + name[1..];
    }
  }

  function Grown(c: Option<Chars>, tail: string): Option<Chars> {
    if c.None? then None else Some(Chars(c.value.value, c.value.rest + tail))
  }

  lemma HexHere(s: string, tail: string)
    requires QuoteFree(s) && At(tail, '"')
    ensures Hex4Of(s + tail) == Hex4Of(s)
  {
    var t := s + tail;
    if |s| >= 4 {
      assert t[..4] == s[..4];
    } else {
      assert t[|s|] == '"';
      if |t| >= 4 { assert t[..4][|s|] == '"'; }
    }
  }

  lemma DropHere(s: string, tail: string, k: nat)
    requires QuoteFree(s) && k <= |s|
    ensures QuoteFree(s[k..]) && (s + tail)[k..] == s[k..] + tail
  {
  }

  lemma UnicodeHere(s: string, tail: string)
    requires QuoteFree(s) && At(tail, '"')
    ensures UnicodeEscape(s + tail) == Grown(UnicodeEscape(s), tail)
    ensures UnicodeEscape(s).Some? ==> QuoteFree(UnicodeEscape(s).value.rest)
  {
    HexHere(s, tail);
    if Hex4Of(s).Some? {
      DropHere(s, tail, 4);
      if HighSurrogate(Hex4Of(s).value) { PairHere(s, tail); }
    }
  }

  lemma PairHere(s: string, tail: string)
    requires QuoteFree(s) && At(tail, '"') && |s| >= 4 && Hex4Of(s + tail) == Hex4Of(s) && Hex4Of(s).Some?
    requires HighSurrogate(Hex4Of(s).value)
    ensures UnicodeEscape(s + tail) == Grown(UnicodeEscape(s), tail)
    ensures UnicodeEscape(s).Some? ==> QuoteFree(UnicodeEscape(s).value.rest)
  {
    var t := s + tail;
    if |s| >= 6 {
      DropHere(s, tail, 6);
      HexHere(s[6..], tail);
      if |s| >= 10 { DropHere(s, tail, 10); }
    } else {
      assert t[|s|] == '"';
    }
  }

  /** One element of a name, with the closing quote behind the name. */
  lemma PieceHere(name: string, tail: string)
    requires QuoteFree(name) && At(tail, '"') && |name| > 0 && name != "\\"
    ensures NextPiece(name + tail) == Grown(NextPiece(name), tail)
    ensures NextPiece(name).Some? ==> QuoteFree(NextPiece(name).value.rest)
  {
    DropHere(name, tail, 1);
    if name[0] == '\\' {
      assert |name| > 1;
      DropHere(name, tail, 2);
      if name[1] == 'u' { UnicodeHere(name[2..], tail); }
    }
  }

  lemma {:induction false} BodyRead(name: string, rest: string)
    requires QuoteFree(name) && AsKey(name).Some?
    ensures StringBody(name + (['"'] + rest)) == Some(Chars(AsKey(name).value, rest))
    decreases |name|
  {
    var tail := ['"'] + rest;
    if |name| == 0 {
      assert name + tail == tail && tail[1..] == rest;
    } else {
      PieceHere(name, tail);
      BodyRead(NextPiece(name).value.rest, rest);
    }
  }

  /** If the name is not read, nothing is read before the next quote. */
  lemma {:induction false} BodyRefused(name: string, more: string)
    requires QuoteFree(name) && AsKey(name).None?
    ensures var r := StringBody(name + "\":{\"" + more); r.Some? ==> r.value.rest == more
    decreases |name|
  {
    var tail := "\":{\"" + more;
    assert name + "\":{\"" + more == name + tail;
    if name == "\\" {
      LoneBackslash(more);
    } else {
      PieceHere(name, tail);
      if NextPiece(name).Some? {
        var rest := NextPiece(name).value.rest;
        BodyRefused(rest, more);
        assert rest + "\":{\"" + more == rest + tail;
      }
    }
  }

  lemma LoneBackslash(more: string)
    ensures var r := StringBody("\\" + "\":{\"" + more); r.Some? && r.value.rest == more
  {
    var last, open := "\"" + more, "{\"" + more;
    var colon := ":{\"" + more;
    var t := "\\" + "\":{\"" + more;
    assert last[1..] == more;
    assert StringBody(last) == Some(Chars("", more));
    assert open[1..] == last;
    assert StringBody(open).Some? && StringBody(open).value.rest == more;
    assert colon[1..] == open;
    assert StringBody(colon).Some? && StringBody(colon).value.rest == more;
    assert t[2..] == colon;
    assert NextPiece(t) == Some(Chars(['"'], colon));
  }

  lemma KeyFrom(s: string, body: string, v: string, rest: string)
    requires s == ['"'] + body && StringBody(body) == Some(Chars(v, [':'] + rest))
    ensures ParseKey(s) == Some(Chars(v, rest))
  {
    assert s[1..] == body;
    NoWs([':'] + rest);
    assert ([':'] + rest)[1..] == rest;
  }

  lemma KeyReads(name: string, rest: string)
    requires QuoteFree(name) && AsKey(name).Some?
    ensures ParseKey(Key(name) + rest) == Some(Chars(AsKey(name).value, rest))
  {
    var tail := [':'] + rest;
    BodyRead(name, tail);
    assert Key(name) + rest == ['"'] + (name + (['"'] + tail));
    KeyFrom(Key(name) + rest, name + (['"'] + tail), AsKey(name).value, rest);
  }

  lemma KeyRefused(name: string, more: string)
    requires QuoteFree(name) && AsKey(name).None? && |more| > 0 && !Ws(more[0]) && more[0] != ':'
    ensures ParseKey(Key(name) + "{\"" + more).None?
  {
    var body := name + "\":{\"" + more;
    assert Key(name) + "{\"" + more == ['"'] + body;
    BodyRefused(name, more);
    NoWs(more);
  }

  // ---------------------------------------------------------------- entries the reader refuses

  /** More dimensions than the reader takes. */
  lemma {:induction false} TooManyDims(dims: seq<nat>, before: seq<nat>, rest: string)
    requires |before| <= MaxRank < |before| + |dims| && forall i :: 0 <= i < |dims| ==> dims[i] <= I64Max
    ensures ShapeItems(DimsText(dims) + ([']'] + rest), before).None?
    ensures |DimsText(dims)| > 0 && Digit(DimsText(dims)[0])
    decreases |dims|
  {
    var close := [']'] + rest;
    NumRead(dims[0], close);
    if |dims| > 1 {
      var more := [','] + (DimsText(dims[1..]) + close);
      Group3([','], DimsText(dims[1..]), close);
      Group3(Num(dims[0]), [','] + DimsText(dims[1..]), close);
      NumRead(dims[0], more);
      NoWs(more);
      assert more[1..] == DimsText(dims[1..]) + close;
      if |before| < MaxRank {
        TooManyDims(dims[1..], before + [dims[0]], rest);
        NoWs(DimsText(dims[1..]) + close);
      }
    }
  }

  lemma ShapeRefused(dims: seq<nat>, rest: string)
    requires |dims| > MaxRank && forall i :: 0 <= i < |dims| ==> dims[i] <= I64Max
    ensures ParseShape(ShapeText(dims) + rest).None?
  {
    var s := ShapeText(dims) + rest;
    Group3(DimsText(dims), [']'], rest);
    assert s[1..] == DimsText(dims) + ([']'] + rest);
    TooManyDims(dims, [], rest);
    NoWs(s[1..]);
  }

  lemma ShapeMemberRefused(dims: seq<nat>, keys: set<string>, f: Fields, more: string)
    requires |dims| > MaxRank && forall i :: 0 <= i < |dims| ==> dims[i] <= I64Max
    ensures TensorMembers(Key("shape") + (ShapeText(dims) + more), keys, f).None?
  {
    ShapeRefused(dims, more);
    KeyRead("shape", ShapeText(dims) + more);
    NoWs(ShapeText(dims) + more);
  }

  lemma TensorRefused(l: Listed, dataStart: nat, dataSize: nat, rest: string)
    requires |l.shape| > MaxRank && forall i :: 0 <= i < |l.shape| ==> l.shape[i] <= I64Max
    ensures ParseTensor(ObjectText(l.shape, l.range) + rest, l.name, dataStart, dataSize).None?
  {
    var m3 := Key("data_offsets") + (OffsetsText(l.range) + (['}'] + rest));
    var m2 := Key("shape") + (ShapeText(l.shape) + ([','] + m3));
    ObjectParts(l.shape, l.range, rest);
    DtypeMemberRead({}, NoFields, m2);
    ShapeMemberRefused(l.shape, {} + {"dtype"}, NoFields.(dtype := Some("F32")), [','] + m3);
    NoWs(Key("dtype") + ("\"F32\"" + ([','] + m2)));
  }

  // ---------------------------------------------------------------- one entry as it is read

  /** The entry under the name it is read with. */
  function Read(l: Listed): Listed { l.(name := if AsKey(l.name).Some? then AsKey(l.name).value else l.name) }

  /** An entry in order but for its rank and for what its name reads as. */
  predicate SizedOk(l: Listed, dataStart: nat, dataSize: nat) {
    && QuoteFree(l.name) && (forall i :: 0 <= i < |l.shape| ==> l.shape[i] <= I64Max) && LayoutOf(l.shape).Some?
    && l.range.first <= l.range.end <= dataSize && dataStart + dataSize < U64
    && l.range.end - l.range.first == 4 * LayoutOf(l.shape).value.elements
  }

  predicate AllSized(ls: seq<Listed>, dataStart: nat, dataSize: nat) {
    forall i :: 0 <= i < |ls| ==> SizedOk(ls[i], dataStart, dataSize)
  }

  /** The name is read, it is a new one, and the rank is within the limit unless it is the metadata's. */
  predicate Taken(l: Listed, found: Found) {
    AsKey(l.name).Some? && CanAdd(found, Read(l)) && (Read(l).name == Metadata || |l.shape| <= MaxRank)
  }

  /** The member is refused, or adds the entry. */
  lemma MemberOutcome(l: Listed, found: Found, dataStart: nat, dataSize: nat, next: string)
    requires SizedOk(l, dataStart, dataSize) && AsKey(l.name).Some?
    ensures HeaderMember(Read(l).name, ObjectText(l.shape, l.range) + next, found, dataStart, dataSize)
         == if Taken(l, found) then Some(HeaderRead(Add(found, Read(l), dataStart), next)) else None
  {
    if Read(l).name == Metadata {
      if !found.metadata { MetadataRead(l.shape, l.range, found, dataStart, dataSize, next); }
    } else if |l.shape| > MaxRank {
      TensorRefused(Read(l), dataStart, dataSize, next);
    } else if CanAdd(found, Read(l)) {
      MemberTaken(Read(l), found, dataStart, dataSize, next);
    }
  }

  /** A printed entry ends the reading, or is read as what it adds. */
  lemma EntryOutcome(l: Listed, found: Found, dataStart: nat, dataSize: nat, next: string)
    requires SizedOk(l, dataStart, dataSize) && (At(next, '}') || At(next, ','))
    ensures HeaderMembers(EntryText(l) + next, found, dataStart, dataSize)
         == if !Taken(l, found) then None
            else if next[0] == '}' then Some(HeaderRead(Add(found, Read(l), dataStart), next[1..]))
            else HeaderMembers(SkipWs(next[1..]), Add(found, Read(l), dataStart), dataStart, dataSize)
  {
    var v := ObjectText(l.shape, l.range) + next;
    Group3(Key(l.name), ObjectText(l.shape, l.range), next);
    if AsKey(l.name).None? {
      EntryUnread(l, next);
    } else {
      KeyReads(l.name, v);
      MemberOutcome(l, found, dataStart, dataSize, next);
      NoWs(v);
      if Taken(l, found) {
        MemberThen(Key(l.name) + v, Read(l).name, v, found, Add(found, Read(l), dataStart), dataStart, dataSize, next);
      }
    }
  }

  lemma EntryUnread(l: Listed, next: string)
    requires QuoteFree(l.name) && AsKey(l.name).None?
    ensures ParseKey(Key(l.name) + (ObjectText(l.shape, l.range) + next)).None?
  {
    var v := ObjectText(l.shape, l.range) + next;
    ObjectParts(l.shape, l.range, next);
    var more := v[2..];
    assert v[0] == '{' && v[1] == '"' && v[2] == 'd';
    assert v == "{\"" + more;
    KeyRefused(l.name, more);
    assert Key(l.name) + "{\"" + more == Key(l.name) + v;
  }

  // ---------------------------------------------------------------- a list of entries

  /** What a printed list adds, entry by entry, unless one of them ends the reading. */
  function Outcome(ls: seq<Listed>, found: Found, dataStart: nat, dataSize: nat): Option<Found>
    requires AllSized(ls, dataStart, dataSize)
    decreases |ls|
  {
    if |ls| == 0 then Some(found) else
    assert SizedOk(ls[0], dataStart, dataSize);
    if !Taken(ls[0], found) then None
    else Outcome(ls[1..], Add(found, Read(ls[0]), dataStart), dataStart, dataSize)
  }

  lemma {:induction false} ListOutcome(ls: seq<Listed>, found: Found, dataStart: nat, dataSize: nat, pad: string)
    requires AllSized(ls, dataStart, dataSize) && |ls| > 0
    ensures var f := Outcome(ls, found, dataStart, dataSize);
      HeaderMembers(ListText(ls) + (['}'] + pad), found, dataStart, dataSize) == if f.None? then None
        else Some(HeaderRead(f.value, pad))
    ensures |ListText(ls)| > 0 && ListText(ls)[0] == '"'
    decreases |ls|
  {
    var close := ['}'] + pad;
    assert SizedOk(ls[0], dataStart, dataSize);
    ListParts(ls, close);
    EntryOutcome(ls[0], found, dataStart, dataSize, Behind(ls, close));
    if |ls| > 1 {
      var more := ls[1..];
      ListOutcome(more, Add(found, Read(ls[0]), dataStart), dataStart, dataSize, pad);
      NoWs(ListText(more) + close);
    } else {
      assert close[1..] == pad;
    }
  }

  /** What stands behind the first entry of a printed list. */
  function Behind(ls: seq<Listed>, close: string): string
    requires |ls| > 0
  {
    if |ls| == 1 then close else [','] + (ListText(ls[1..]) + close)
  }

  lemma ListParts(ls: seq<Listed>, close: string)
    requires |ls| > 0
    ensures ListText(ls) + close == EntryText(ls[0]) + Behind(ls, close)
    ensures |ls| > 1 ==> Behind(ls, close)[1..] == ListText(ls[1..]) + close
  {
    if |ls| > 1 {
      Group3(EntryText(ls[0]), [','] + ListText(ls[1..]), close);
      Group3([','], ListText(ls[1..]), close);
    }
  }

  lemma HeaderOutcome(ls: seq<Listed>, dataStart: nat, dataSize: nat)
    requires AllSized(ls, dataStart, dataSize)
    ensures HeaderText(HeaderOf(ls), dataStart, dataSize) == Outcome(ls, Nothing, dataStart, dataSize)
  {
    var pad := Spaces(PadLength(|['{'] + ListText(ls) + ['}']|));
    var body := ListText(ls) + (['}'] + pad);
    Group4(['{'], ListText(ls), ['}'], pad);
    assert HeaderOf(ls) == ['{'] + body;
    NoWs(HeaderOf(ls));
    assert HeaderOf(ls)[1..] == body;
    WsOver(pad, "");
    assert pad + "" == pad;
    BodyOutcome(ls, dataStart, dataSize, pad);
  }

  lemma BodyOutcome(ls: seq<Listed>, dataStart: nat, dataSize: nat, pad: string)
    requires AllSized(ls, dataStart, dataSize)
    ensures var body := ListText(ls) + (['}'] + pad); var f := Outcome(ls, Nothing, dataStart, dataSize);
      && SkipWs(body) == body && |body| > 0
      && if body[0] == '}' then f == Some(Nothing) && body[1..] == pad
         else HeaderMembers(body, Nothing, dataStart, dataSize) == if f.None? then None
           else Some(HeaderRead(f.value, pad))
  {
    var body := ListText(ls) + (['}'] + pad);
    if |ls| == 0 {
      assert body == ['}'] + pad && body[1..] == pad;
    } else {
      ListOutcome(ls, Nothing, dataStart, dataSize, pad);
      assert body[0] == ListText(ls)[0];
    }
    NoWs(body);
  }

  // ---------------------------------------------------------------- the lists that are read

  function AllRead(ls: seq<Listed>): (rs: seq<Listed>)
    ensures |rs| == |ls| && forall i :: 0 <= i < |rs| ==> rs[i] == Read(ls[i])
  {
    if |ls| == 0 then [] else [Read(ls[0])] + AllRead(ls[1..])
  }

  predicate Clean(ls: seq<Listed>) { forall i :: 0 <= i < |ls| ==> AsKey(ls[i].name).Some? && |ls[i].shape| <= MaxRank }

  /** The entries found have the ranges of the list; without the metadata among them they are all new and within the
      rank. */
  lemma {:induction false} OutcomeHas(ls: seq<Listed>, found: Found, dataStart: nat, dataSize: nat)
    requires AllSized(ls, dataStart, dataSize) && Outcome(ls, found, dataStart, dataSize).Some?
    ensures Outcome(ls, found, dataStart, dataSize).value.ranges == found.ranges + Ranges(AllRead(ls))
    ensures !Named(AllRead(ls), Metadata) ==> Clean(ls) && Distinct(AllRead(ls)) && AllNew(found, AllRead(ls))
    decreases |ls|
  {
    if |ls| > 0 {
      assert SizedOk(ls[0], dataStart, dataSize);
      OutcomeHas(ls[1..], Add(found, Read(ls[0]), dataStart), dataStart, dataSize);
      RangesMore(found, ls, dataStart);
      if !Named(AllRead(ls), Metadata) {
        ReadTail(ls);
        TailDecides(found, ls, dataStart);
      }
    }
  }

  lemma ReadTail(ls: seq<Listed>)
    requires |ls| > 0
    ensures AllRead(ls)[1..] == AllRead(ls[1..])
    ensures !Named(AllRead(ls), Metadata) ==> Read(ls[0]).name != Metadata && !Named(AllRead(ls[1..]), Metadata)
  {
    assert AllRead(ls)[1..] == AllRead(ls[1..]);
    NamedTail(AllRead(ls), Metadata);
    if !Named(AllRead(ls), Metadata) { assert AllRead(ls)[0].name != Metadata; }
  }

  lemma {:induction false} RangesMore(found: Found, ls: seq<Listed>, dataStart: nat)
    requires |ls| > 0 && LayoutOf(ls[0].shape).Some? && ls[0].range.first <= ls[0].range.end
    ensures Add(found, Read(ls[0]), dataStart).ranges + Ranges(AllRead(ls[1..])) == found.ranges + Ranges(AllRead(ls))
  {
    ReadTail(ls);
  }

  lemma {:induction false} TailDecides(found: Found, ls: seq<Listed>, dataStart: nat)
    requires |ls| > 0 && Taken(ls[0], found) && Read(ls[0]).name != Metadata
    requires LayoutOf(ls[0].shape).Some? && ls[0].range.first <= ls[0].range.end
    requires Clean(ls[1..]) && Distinct(AllRead(ls[1..]))
      && AllNew(Add(found, Read(ls[0]), dataStart), AllRead(ls[1..]))
    ensures Clean(ls) && Distinct(AllRead(ls)) && AllNew(found, AllRead(ls))
  {
    var tail, rs, more := AllRead(ls[1..]), AllRead(ls), Add(found, Read(ls[0]), dataStart);
    forall i | 0 <= i < |ls| ensures AsKey(ls[i].name).Some? && |ls[i].shape| <= MaxRank {
      if i > 0 { assert ls[1..][i - 1] == ls[i]; }
    }
    forall i | 0 <= i < |rs|
      ensures CanAdd(found, rs[i]) && (i > 0 ==> rs[i] == tail[i - 1] && rs[0].name != rs[i].name)
    {
      if i > 0 { assert tail[i - 1] == rs[i] && CanAdd(more, tail[i - 1]); }
    }
    forall i, j | 0 <= i < j < |rs| ensures rs[i].name != rs[j].name {
      assert tail[j - 1] == rs[j];
      if i > 0 { assert tail[i - 1] == rs[i]; }
    }
  }

  lemma {:induction false} CleanIsRead(ls: seq<Listed>, found: Found, dataStart: nat, dataSize: nat)
    requires AllSized(ls, dataStart, dataSize) && Clean(ls) && Distinct(AllRead(ls)) && AllNew(found, AllRead(ls))
    ensures AllOk(AllRead(ls), dataStart, dataSize)
    ensures Outcome(ls, found, dataStart, dataSize) == Some(AddAll(found, AllRead(ls), dataStart, dataSize))
    decreases |ls|
  {
    var rs := AllRead(ls);
    forall i | 0 <= i < |ls| ensures ListedOk(rs[i], dataStart, dataSize) {
      assert SizedOk(ls[i], dataStart, dataSize);
    }
    if |ls| > 0 {
      TailNew(found, rs, dataStart, dataSize);
      assert rs[1..] == AllRead(ls[1..]);
      forall i | 0 <= i < |ls| - 1 ensures AsKey(ls[1..][i].name).Some? && |ls[1..][i].shape| <= MaxRank {
        assert ls[1..][i] == ls[i + 1];
      }
      CleanIsRead(ls[1..], Add(found, rs[0], dataStart), dataStart, dataSize);
    }
  }

  // ---------------------------------------------------------------- whole files

  lemma {:induction false} LaidRead(ls: seq<Listed>, from: nat, to: nat)
    requires Laid(ls, from, to)
    ensures Laid(AllRead(ls), from, to)
    decreases |ls|
  {
    if |ls| > 0 {
      LaidRead(ls[1..], ls[0].range.end, to);
      assert AllRead(ls)[1..] == AllRead(ls[1..]);
    }
  }

  /** A list that can be loaded: names that are read, distinct and not the reserved one, and ranks within the limit. */
  predicate Good(ls: seq<Listed>) { Clean(ls) && Distinct(AllRead(ls)) && !Named(AllRead(ls), Metadata) }

  /** A laid-out list of entries that are in order but for their names and ranks. */
  predicate Printed(ls: seq<Listed>, header: string, size: nat) {
    && header == HeaderOf(ls) && 8 + |header| + size < U64 && AllSized(ls, 8 + |header|, size) && Laid(ls, 0, size)
    && forall i :: 0 <= i < |ls| ==> ls[i].range.first < ls[i].range.end
  }

  lemma PrintedNarrow(ls: seq<Listed>, header: string, size: nat)
    requires Printed(ls, header, size)
    ensures Narrow(header) && 0 < |header| < U64
  {
    forall i | 0 <= i < |ls| ensures Narrow(ls[i].name) { assert SizedOk(ls[i], 8 + |header|, size); }
    HeaderNarrow(ls);
    HeaderAligned(ls);
  }

  lemma GoodHeads(ls: seq<Listed>, header: string, size: nat)
    requires Printed(ls, header, size) && Good(ls)
    ensures Heads(header, AllRead(ls), size)
  {
    PrintedNarrow(ls, header, size);
    HeaderOutcome(ls, 8 + |header|, size);
    forall i | 0 <= i < |ls| ensures CanAdd(Nothing, AllRead(ls)[i]) {}
    CleanIsRead(ls, Nothing, 8 + |header|, size);
  }

  lemma GoodIsRead(ls: seq<Listed>, header: string, payload: seq<byte>)
    requires Printed(ls, header, |payload|) && Good(ls)
    ensures Heads(header, AllRead(ls), |payload|)
    ensures ParseHeader(FileOf(header, payload))
         == if |header| > MaxHeader then None else Some(AddAll(Nothing, AllRead(ls), 8 + |header|, |payload|).tensors)
  {
    var rs := AllRead(ls);
    GoodHeads(ls, header, |payload|);
    LaidRead(ls, 0, |payload|);
    forall i | 0 <= i < |rs| ensures rs[i].range.first < rs[i].range.end { assert ls[i].range == rs[i].range; }
    FileIsRead(rs, header, payload);
  }

  lemma OthersRefused(ls: seq<Listed>, header: string, payload: seq<byte>)
    requires Printed(ls, header, |payload|) && !Good(ls)
    ensures ParseHeader(FileOf(header, payload)).None?
  {
    PrintedNarrow(ls, header, |payload|);
    FileParts(header, payload);
    OthersUncovered(ls, 8 + |header|, |payload|);
    PartsRefused(FileOf(header, payload), |header|, header, |payload|);
  }

  lemma OthersUncovered(ls: seq<Listed>, dataStart: nat, size: nat)
    requires AllSized(ls, dataStart, size) && !Good(ls) && Laid(ls, 0, size)
    requires forall i :: 0 <= i < |ls| ==> ls[i].range.first < ls[i].range.end
    ensures Uncovered(HeaderText(HeaderOf(ls), dataStart, size), size)
  {
    var rs := AllRead(ls);
    HeaderOutcome(ls, dataStart, size);
    if Outcome(ls, Nothing, dataStart, size).Some? {
      OutcomeHas(ls, Nothing, dataStart, size);
      assert [] + Ranges(rs) == Ranges(rs);
      LaidRead(ls, 0, size);
      forall i | 0 <= i < |rs| ensures rs[i].range.first < rs[i].range.end { assert ls[i].range == rs[i].range; }
      CoverageExact(rs, size);
    }
  }

  /** If anything was found, it does not cover the payload. */
  predicate Uncovered(f: Option<Found>, size: nat) { f.Some? ==> !Contiguous(Sorted(f.value.ranges), 0, size) }

  lemma PartsRefused(file: seq<byte>, n: nat, h: string, size: nat)
    requires |file| == 8 + n + size && GetLe(file[..8]) == n && Text(file[8..8 + n]) == h
    requires Uncovered(HeaderText(h, 8 + n, size), size)
    ensures ParseHeader(file).None?
  {
  }

  // ---------------------------------------------------------------- exported files

  /** What the exporter is given, without quotes in the names and within the sizes a file can have. */
  predicate Exported(es: seq<Source>, header: string) {
    && AllPositive(es) && AllFill(es) && header == HeaderOf(Listing(es))
    && TotalBytes(es) <= I64Max && 8 + |header| + TotalBytes(es) < U64
    && forall i :: 0 <= i < |es| ==> QuoteFree(es[i].name)
  }

  lemma {:induction false} DimsWithin(dims: seq<nat>)
    requires (forall i :: 0 <= i < |dims| ==> dims[i] > 0) && 4 * Product(dims) <= I64Max
    ensures Product(dims) > 0 && forall i :: 0 <= i < |dims| ==> dims[i] <= I64Max
    decreases |dims|
  {
    if |dims| > 0 {
      LayoutFits(dims);
      FactorsWithin(dims[0], Product(dims[1..]));
      DimsWithin(dims[1..]);
      forall i | 0 <= i < |dims| ensures dims[i] <= I64Max { if i > 0 { assert dims[1..][i - 1] == dims[i]; } }
    }
  }

  lemma FactorsWithin(d: nat, p: nat)
    requires d > 0 && d * p > 0
    ensures d <= d * p && p <= d * p
  {
  }

  lemma ExportSized(es: seq<Source>, header: string, i: nat)
    requires Exported(es, header) && i < |es|
    ensures var l := Listing(es)[i];
      SizedOk(l, 8 + |header|, TotalBytes(es)) && l.range.first < l.range.end && l.name == es[i].name
        && |l.shape| == |es[i].shape|
  {
    ListingAt(es, i);
    TotalGrows(es, i);
    LayoutFits(Nats(es[i].shape));
    DimsWithin(Nats(es[i].shape));
  }

  lemma ExportPrinted(es: seq<Source>, header: string)
    requires Exported(es, header)
    ensures Printed(Listing(es), header, |Payload(es)|)
    ensures forall i :: 0 <= i < |es| ==> Listing(es)[i].name == es[i].name && |Listing(es)[i].shape| == |es[i].shape|
  {
    var ls := Listing(es);
    PayloadLength(es);
    ListingLaid(es);
    forall i | 0 <= i < |ls|
      ensures SizedOk(ls[i], 8 + |header|, TotalBytes(es)) && ls[i].range.first < ls[i].range.end
        && ls[i].name == es[i].name
        && |ls[i].shape| == |es[i].shape|
    {
      ExportSized(es, header, i);
    }
  }

  /** The exports whose files can be loaded: every name is read, none as the reserved one and no two as the same,
      and no rank is above the limit. */
  predicate Loadable(es: seq<Source>) {
    && (forall i :: 0 <= i < |es| ==>
      AsKey(es[i].name).Some? && AsKey(es[i].name).value != Metadata && |es[i].shape| <= MaxRank)
    && (forall i, j :: 0 <= i < j < |es| ==> AsKey(es[i].name) != AsKey(es[j].name))
  }

  lemma LoadableGood(es: seq<Source>, ls: seq<Listed>)
    requires |ls| == |es| && forall i :: 0 <= i < |es| ==> ls[i].name == es[i].name && |ls[i].shape| == |es[i].shape|
    ensures Loadable(es) <==> Good(ls)
  {
    var rs := AllRead(ls);
    if Loadable(es) {
      forall i | 0 <= i < |ls| ensures AsKey(ls[i].name).Some? && |ls[i].shape| <= MaxRank && rs[i].name != Metadata {
        assert AsKey(es[i].name).Some?;
      }
      forall i, j | 0 <= i < j < |rs| ensures rs[i].name != rs[j].name {
        assert AsKey(es[i].name) != AsKey(es[j].name);
      }
    }
    if Good(ls) {
      forall i | 0 <= i < |es|
        ensures AsKey(es[i].name).Some? && AsKey(es[i].name).value != Metadata && |es[i].shape| <= MaxRank
      {
        assert ls[i].name == es[i].name && rs[i].name != Metadata;
      }
      forall i, j | 0 <= i < j < |es| ensures AsKey(es[i].name) != AsKey(es[j].name) {
        assert rs[i].name != rs[j].name;
      }
    }
  }

  /** An exported file without quotes in its names loads exactly when every name is read, none as `__metadata__` and
      no two alike, every rank is within the reader's limit, and so is the header. */
  lemma GeneratorLoads(es: seq<Source>, header: string)
    requires Exported(es, header)
    ensures ParseHeader(FileFor(es)).Some? <==> Loadable(es) && |header| <= MaxHeader
    ensures ParseHeader(FileFor(es)).Some? ==>
      && Heads(header, AllRead(Listing(es)), |Payload(es)|) && Good(Listing(es))
      && ParseHeader(FileFor(es)) == Some(AddAll(Nothing, AllRead(Listing(es)), 8 + |header|, |Payload(es)|).tensors)
  {
    var ls := Listing(es);
    ExportPrinted(es, header);
    LoadableGood(es, ls);
    if Loadable(es) {
      GoodIsRead(ls, header, Payload(es));
    } else {
      OthersRefused(ls, header, Payload(es));
    }
  }

  /** What a loaded export gives for one entry: its shape and its values bit for bit, under the name its own reads
      as. */
  lemma GeneratorRoundTrip(es: seq<Source>, header: string, i: nat)
    requires Exported(es, header) && ParseHeader(FileFor(es)).Some? && i < |es|
    ensures AsKey(es[i].name).Some?
    ensures var tensors := ParseHeader(FileFor(es)).value; var name := AsKey(es[i].name).value;
      && name in tensors && tensors[name].name == name && tensors[name].dtype == "F32"
      && tensors[name].shape == Nats(es[i].shape) && RowMajor(tensors[name].shape, tensors[name].strides)
      && Data(FileFor(es), tensors, name) == Some(PutWords(es[i].values))
  {
    var ls := Listing(es);
    GeneratorLoads(es, header);
    ListingAt(es, i);
    assert AsKey(ls[i].name).Some?;
    EntryReadBack(es, AllRead(ls), header, i);
  }

  /** And it holds nothing else. */
  lemma GeneratorNames(es: seq<Source>, header: string, name: string)
    requires Exported(es, header) && ParseHeader(FileFor(es)).Some?
    ensures name in ParseHeader(FileFor(es)).value <==> exists i :: 0 <= i < |es| && AsKey(es[i].name) == Some(name)
  {
    var rs := AllRead(Listing(es));
    GeneratorLoads(es, header);
    if name in ParseHeader(FileFor(es)).value { NoOther(es, rs, header, |Payload(es)|, name); }
    if i :| 0 <= i < |es| && AsKey(es[i].name) == Some(name) { GeneratorRoundTrip(es, header, i); }
  }

  lemma NoOther(es: seq<Source>, rs: seq<Listed>, header: string, size: nat, name: string)
    requires AllPositive(es) && Good(Listing(es)) && rs == AllRead(Listing(es)) && Heads(header, rs, size)
    requires name in AddAll(Nothing, rs, 8 + |header|, size).tensors
    ensures exists i :: 0 <= i < |es| && AsKey(es[i].name) == Some(name)
  {
    AddedNames(Nothing, rs, 8 + |header|, size, name);
    NamedEntry(es, name);
  }

  lemma {:induction false} NamedEntry(es: seq<Source>, name: string)
    requires AllPositive(es) && Good(Listing(es)) && Named(AllRead(Listing(es)), name)
    ensures exists i :: 0 <= i < |es| && AsKey(es[i].name) == Some(name)
  {
    var ls := Listing(es);
    var i :| 0 <= i < |ls| && AllRead(ls)[i].name == name;
    ListingAt(es, i);
    assert AsKey(ls[i].name).Some?;
    assert AsKey(es[i].name) == Some(name);
  }

  // ---------------------------------------------------------------- the reserved name

  lemma ShortEntry(l: Listed, n: nat)
    requires l == Listed(l.name, [1], Range(n, n + 4)) && n < 5
    ensures |EntryText(l)| <= |l.name| + 80
  {
    assert |Num(1)| == 1 && |Num(n)| == 1 && |Num(n + 4)| == 1;
    assert |ObjectText([1], l.range)| <= 70;
  }

  lemma OneWord(e: Source)
    requires e.shape == [1]
    ensures Positive(e.shape) && Nats(e.shape) == [1] && BytesOf(e) == 4 && JointElements(e.shape) == Some(1)
  {
    assert e.shape[1..] == [];
    assert Nats([]) == [] && Nats(e.shape) == [1];
    var one: seq<nat> := [1];
    assert one[1..] == [] && Product([]) == 1;
    assert Product(one) == 1;
    assert MaxBytes / 4 == 0x2000_0000;
    assert Elements([], 1, MaxBytes / 4) == Some(1);
    assert Elements(e.shape, 1, MaxBytes / 4) == Elements(e.shape[1..], 1 * e.shape[0], MaxBytes / 4);
  }

  lemma TwoWords(a: Source, b: Source)
    requires a.shape == [1] && b.shape == [1] && |a.name| <= 12 && |b.name| <= 12
    ensures AllPositive([a, b]) && TotalBytes([a]) == 4 && |HeaderOf(Listing([a, b]))| <= 300
  {
    OneListed(a);
    OneWord(b);
    AllMore([a], b);
    assert [a] + [b] == [a, b];
    assert [EntryAt(a, 0)] + [EntryAt(b, 4)] == [EntryAt(a, 0), EntryAt(b, 4)];
    TwoEntries(EntryAt(a, 0), EntryAt(b, 4));
  }

  lemma OneListed(a: Source)
    requires a.shape == [1]
    ensures AllPositive([a]) && TotalBytes([a]) == 4 && Listing([a]) == [EntryAt(a, 0)]
      && EntryAt(a, 0) == Listed(a.name, [1], Range(0, 4))
  {
    OneWord(a);
    AllMore([], a);
    assert [] + [a] == [a];
  }

  lemma TwoEntries(a: Listed, b: Listed)
    requires a == Listed(a.name, [1], Range(0, 4)) && b == Listed(b.name, [1], Range(4, 8)) && |a.name| <= 12
      && |b.name| <= 12
    ensures |HeaderOf([a, b])| <= 300
  {
    ShortEntry(a, 0);
    ShortEntry(b, 4);
    assert [a, b][1..] == [b];
    assert |ListText([a, b])| == |EntryText(a)| + 1 + |EntryText(b)|;
    PadLengthIs(2 + |ListText([a, b])|);
  }

  /** The joint writer writes a tensor called like the metadata, and the file it is in does not load. */
  lemma ReservedNameIsLost(float: byte -> Word)
    ensures var e := Source(Metadata, [1], [0]); var all := [e] + [StateSource([0], float)];
      JointAccepts([e], [0], float) && AllPositive(all) && ParseHeader(FileFor(all)).None?
  {
    var e, state := Source(Metadata, [1], [0]), StateSource([0], float);
    TwoWords(e, state);
    assert [e] + [state] == [e, state];
    ReservedHeader(e);
    var all, file := JointLoads([e], [0], float);
    Has([e], 0);
  }

  lemma ReservedHeader(e: Source)
    requires e == Source(Metadata, [1], [0])
    ensures JointHeader([e], 0, {}) && Writable(e)
  {
    OneWord(e);
    assert [e][1..] == [];
    assert JointName(Metadata);
    assert CanWrite(e, {}, 0);
  }

  // ---------------------------------------------------------------- exports that cannot be loaded

  lemma OneExported(e: Source, offset: nat)
    requires e.shape == [1] && e.values == [0] && offset <= 4
    ensures Exportable(e, offset) && Fills(e)
  {
    OneWord(e);
    assert Elements([], 1, U64 - 1) == Some(1);
    assert Elements(e.shape, 1, U64 - 1) == Elements(e.shape[1..], 1 * e.shape[0], U64 - 1);
    assert AllFinite(e.values);
  }

  /** The exporter takes a list that names a tensor twice, and its file does not load. */
  lemma RepeatedNameIsLost()
    ensures var e := Source("a", [1], [0]);
      ExportHeader([e, e], 0) && AllPositive([e, e]) && ParseHeader(FileFor([e, e])).None?
  {
    var e := Source("a", [1], [0]);
    var es := [e, e];
    OneExported(e, 0);
    OneExported(e, 4);
    assert es[1..] == [e] && es[1..][1..] == [];
    TwoWords(e, e);
    assert [e] + [e] == es;
    AllMore([e], e);
    GeneratorLoads(es, HeaderOf(Listing(es)));
    assert AsKey(es[0].name) == AsKey(es[1].name);
  }

  function Ones(n: nat): (s: seq<CInt>)
    ensures |s| == n
  {
    if n == 0 then [] else [1] + Ones(n - 1)
  }

  lemma {:induction false} OnesCount(n: nat)
    ensures Elements(Ones(n), 1, U64 - 1) == Some(1) && Positive(Ones(n)) && Product(Nats(Ones(n))) == 1
    ensures |DimsText(Nats(Ones(n)))| <= 2 * n
  {
    if n > 0 {
      OnesCount(n - 1);
      assert Ones(n)[1..] == Ones(n - 1);
      assert Nats(Ones(n))[1..] == Nats(Ones(n - 1));
      assert |Num(1)| == 1;
    }
  }

  /** It takes a tensor of any number of dimensions, and from thirty-three on its file does not load. */
  lemma RankIsLost(n: nat)
    requires MaxRank < n <= 0x1_0000_0000
    ensures var e := Source("a", Ones(n), [0]);
      ExportHeader([e], 0) && AllPositive([e]) && ParseHeader(FileFor([e])).None?
  {
    var e := Source("a", Ones(n), [0]);
    OnesCount(n);
    OneWide(e);
    GeneratorLoads([e], HeaderOf(Listing([e])));
  }

  lemma OneWide(e: Source)
    requires e.values == [0] && Positive(e.shape) && Product(Nats(e.shape)) == 1
      && Elements(e.shape, 1, U64 - 1) == Some(1)
    ensures ExportHeader([e], 0) && AllPositive([e]) && TotalBytes([e]) == 4
    ensures |HeaderOf(Listing([e]))| <= |e.name| + |DimsText(Nats(e.shape))| + 100
  {
    assert AllFinite(e.values);
    assert [e][1..] == [];
    AllMore([], e);
    assert [] + [e] == [e];
    assert Listing([e]) == [EntryAt(e, 0)];
    RankText(EntryAt(e, 0));
  }

  lemma RankText(l: Listed)
    requires l.range == Range(0, 4)
    ensures |HeaderOf([l])| <= |l.name| + |DimsText(l.shape)| + 100
  {
    assert |Num(0)| == 1 && |Num(4)| == 1;
    assert |OffsetsText(l.range)| <= 10;
    assert |ListText([l])| == |EntryText(l)|;
    PadLengthIs(2 + |ListText([l])|);
  }

  /** Two names that differ in the list can be the same to the reader: a letter, and the escape that stands for it. */
  lemma NamesMeet()
    ensures QuoteFree("a") && QuoteFree("\\u0061") && AsKey("a") == AsKey("\\u0061") == Some("a")
  {
    var s := "\\u0061";
    PlainAsKey("a");
    assert s[2..] == "0061";
    assert s[2..][..4] == "0061" && s[2..][4..] == "";
    assert HexValue("0061") == 0x61;
    assert NextPiece(s) == Some(Chars("a", ""));
  }
}
