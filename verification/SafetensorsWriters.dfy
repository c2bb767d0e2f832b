/** The two checkpoint writers, and the identity of printing followed by parsing. */
module SafetensorsWriters {
  import opened Spools
  import opened Bytes
  import opened JsonExact
  import opened Safetensors
  import opened SafetensorsLayout
  import opened SafetensorsText
  import opened SafetensorsFiles

  /** The dimension type of both writers, a 32-bit integer. */
  type CInt = d: int | -0x8000_0000 <= d < 0x8000_0000

  /** A tensor to be written. */
  datatype Source = Source(name: string, shape: seq<CInt>, values: seq<Word>)

  const MaxBytes: nat := 0x8000_0000
  const MaxText: nat := 160 * 1024

  predicate Positive(shape: seq<CInt>) { forall i :: 0 <= i < |shape| ==> shape[i] > 0 }

  function Nats(shape: seq<CInt>): (dims: seq<nat>)
    requires Positive(shape)
    ensures |dims| == |shape| && forall i :: 0 <= i < |dims| ==> dims[i] == shape[i]
  {
    if |shape| == 0 then [] else [shape[0]] + Nats(shape[1..])
  }

  predicate AllPositive(es: seq<Source>) { forall i :: 0 <= i < |es| ==> Positive(es[i].shape) }

  function BytesOf(e: Source): nat
    requires Positive(e.shape)
  {
    4 * Product(Nats(e.shape))
  }

  function TotalBytes(es: seq<Source>): nat
    requires AllPositive(es)
  {
    if |es| == 0 then 0 else TotalBytes(es[..|es| - 1]) + BytesOf(es[|es| - 1])
  }

  function EntryAt(e: Source, offset: nat): Listed
    requires Positive(e.shape)
  {
    Listed(e.name, Nats(e.shape), Range(offset, offset + BytesOf(e)))
  }

  /** The header entries: tensors one behind the other. */
  function Listing(es: seq<Source>): (ls: seq<Listed>)
    requires AllPositive(es)
    ensures |ls| == |es|
  {
    if |es| == 0 then [] else Listing(es[..|es| - 1]) + [EntryAt(es[|es| - 1], TotalBytes(es[..|es| - 1]))]
  }

  function Payload(es: seq<Source>): seq<byte> {
    if |es| == 0 then [] else Payload(es[..|es| - 1]) + PutWords(es[|es| - 1].values)
  }

  lemma {:induction false} ListTextSnoc(ls: seq<Listed>, l: Listed)
    ensures ListText(ls + [l]) == ListText(ls) + ((if |ls| == 0 then "" else ",") + EntryText(l))
    decreases |ls|
  {
    var all := ls + [l];
    if |ls| == 0 {
      assert all == [l];
      assert "" + ("" + EntryText(l)) == EntryText(l);
    } else if |ls| == 1 {
      assert all[1..] == [l];
      assert [','] + EntryText(l) == "," + EntryText(l);
    } else {
      assert all[1..] == ls[1..] + [l];
      ListTextSnoc(ls[1..], l);
      Group3([','], ListText(ls[1..]), "," + EntryText(l));
      Group3(EntryText(ls[0]), [','] + ListText(ls[1..]), "," + EntryText(l));
    }
  }

  /** The header text grows by one entry. */
  lemma HeaderSnoc(header: string, ls: seq<Listed>, l: Listed, comma: string)
    requires header == ['{'] + ListText(ls) && comma == if |ls| == 0 then "" else ","
    ensures header + (comma + EntryText(l)) == ['{'] + ListText(ls + [l])
  {
    ListTextSnoc(ls, l);
    Group3(['{'], ListText(ls), comma + EntryText(l));
  }

  // ---------------------------------------------------------------- what is listed is what is written

  /** The values fill the shape, and the reader can represent it. */
  predicate Fills(e: Source) { Positive(e.shape) && |e.values| == Product(Nats(e.shape)) }

  predicate AllFill(es: seq<Source>) { forall i :: 0 <= i < |es| ==> Fills(es[i]) }

  predicate Names(es: seq<Source>) {
    && (forall i :: 0 <= i < |es| ==> PlainName(es[i].name) && |es[i].shape| <= MaxRank)
    && (forall i, j :: 0 <= i < j < |es| ==> es[i].name != es[j].name)
  }

  lemma {:induction false} PayloadLength(es: seq<Source>)
    requires AllFill(es) && AllPositive(es)
    ensures |Payload(es)| == TotalBytes(es)
    decreases |es|
  {
    if |es| > 0 { PayloadLength(es[..|es| - 1]); }
  }

  lemma {:induction false} TotalGrows(es: seq<Source>, i: nat)
    requires AllPositive(es) && i < |es|
    ensures TotalBytes(es[..i]) + BytesOf(es[i]) <= TotalBytes(es)
    decreases |es|
  {
    var front := es[..|es| - 1];
    if i == |es| - 1 {
      assert es[..i] == front;
    } else {
      assert front[..i] == es[..i] && front[i] == es[i];
      TotalGrows(front, i);
    }
  }

  lemma {:induction false} ListingAt(es: seq<Source>, i: nat)
    requires AllPositive(es) && i < |es|
    ensures Listing(es)[i] == EntryAt(es[i], TotalBytes(es[..i]))
    decreases |es|
  {
    var front := es[..|es| - 1];
    if i == |es| - 1 {
      assert es[..i] == front;
    } else {
      assert front[..i] == es[..i] && front[i] == es[i];
      ListingAt(front, i);
    }
  }

  lemma {:induction false} PayloadAt(es: seq<Source>, i: nat)
    requires AllPositive(es) && AllFill(es) && i < |es|
    ensures TotalBytes(es[..i]) + BytesOf(es[i]) <= |Payload(es)|
    ensures Payload(es)[TotalBytes(es[..i])..TotalBytes(es[..i]) + BytesOf(es[i])] == PutWords(es[i].values)
    decreases |es|
  {
    var front := es[..|es| - 1];
    PayloadLength(front);
    if i == |es| - 1 {
      assert es[..i] == front;
      JoinEnd(Payload(front), PutWords(es[i].values));
    } else {
      assert front[..i] == es[..i] && front[i] == es[i];
      PayloadAt(front, i);
      JoinFront(Payload(front), PutWords(es[|es| - 1].values), TotalBytes(es[..i]),
        TotalBytes(es[..i]) + BytesOf(es[i]));
    }
  }

  lemma JoinEnd(a: seq<byte>, b: seq<byte>)
    ensures (a + b)[|a|..|a| + |b|] == b
  {
  }

  lemma JoinFront(a: seq<byte>, b: seq<byte>, i: nat, j: nat)
    requires i <= j <= |a|
    ensures (a + b)[i..j] == a[i..j]
  {
  }

  lemma {:induction false} LaidSnoc(ls: seq<Listed>, from: nat, mid: nat, l: Listed)
    requires Laid(ls, from, mid) && l.range.first == mid <= l.range.end
    ensures Laid(ls + [l], from, l.range.end)
    decreases |ls|
  {
    var all := ls + [l];
    if |ls| == 0 {
      assert all[1..] == [];
    } else {
      assert all[1..] == ls[1..] + [l];
      LaidSnoc(ls[1..], ls[0].range.end, mid, l);
    }
  }

  lemma {:induction false} ListingLaid(es: seq<Source>)
    requires AllPositive(es)
    ensures Laid(Listing(es), 0, TotalBytes(es))
    decreases |es|
  {
    if |es| > 0 {
      var front := es[..|es| - 1];
      ListingLaid(front);
      LaidSnoc(Listing(front), 0, TotalBytes(front), EntryAt(es[|es| - 1], TotalBytes(front)));
    }
  }

  lemma PositiveProduct(p: nat, d: nat)
    requires d > 0
    ensures p <= p * d && (p > 0 ==> p * d > 0)
  {
  }

  /** Positive dimensions within 63 bits pass the stride loop. */
  lemma {:induction false} LayoutFits(dims: seq<nat>)
    requires (forall i :: 0 <= i < |dims| ==> dims[i] > 0) && 4 * Product(dims) <= I64Max
    ensures LayoutOf(dims).Some? && LayoutOf(dims).value.elements == Product(dims)
      && LayoutOf(dims).value.stride == 4 * Product(dims)
    ensures Product(dims) > 0
    decreases |dims|
  {
    if |dims| > 0 {
      var p := Product(dims[1..]);
      Scale(p, dims[0]);
      PositiveProduct(p, dims[0]);
      LayoutFits(dims[1..]);
      LayoutStep(dims, p);
    }
  }

  /** Every listed tensor is one the reader takes. */
  lemma {:induction false} ListingOk(es: seq<Source>, dataStart: nat, i: nat)
    requires AllPositive(es) && Names(es) && i < |es| && TotalBytes(es) <= I64Max && dataStart + TotalBytes(es) < U64
    ensures ListedOk(Listing(es)[i], dataStart, TotalBytes(es)) && PlainName(Listing(es)[i].name)
    ensures Listing(es)[i].range.first < Listing(es)[i].range.end
  {
    ListingAt(es, i);
    TotalGrows(es, i);
    LayoutFits(Nats(es[i].shape));
  }

  lemma ListingDistinct(es: seq<Source>)
    requires AllPositive(es) && Names(es)
    ensures Distinct(Listing(es))
  {
    var ls := Listing(es);
    forall i, j | 0 <= i < j < |ls| ensures ls[i].name != ls[j].name {
      ListingAt(es, i);
      ListingAt(es, j);
    }
  }

  /** The file both writers produce. */
  function FileFor(es: seq<Source>): seq<byte>
    requires AllPositive(es)
  {
    FileOf(HeaderOf(Listing(es)), Payload(es))
  }

  predicate HasName(es: seq<Source>, name: string) { exists i :: 0 <= i < |es| && es[i].name == name }

  lemma Has(es: seq<Source>, i: nat)
    requires i < |es|
    ensures HasName(es, es[i].name)
  {
  }

  lemma NamedListing(es: seq<Source>, name: string)
    requires AllPositive(es)
    ensures Named(Listing(es), name) <==> HasName(es, name)
  {
    var ls := Listing(es);
    if Named(ls, name) {
      var i :| 0 <= i < |ls| && ls[i].name == name;
      ListingAt(es, i);
      assert es[i].name == name;
    }
    if HasName(es, name) {
      var i :| 0 <= i < |es| && es[i].name == name;
      ListingAt(es, i);
      assert ls[i].name == name;
    }
  }

  /** The facts about a written file the reader needs. */
  predicate Written(es: seq<Source>, header: string) {
    && AllPositive(es) && AllFill(es) && Names(es)
    && header == HeaderOf(Listing(es)) && TotalBytes(es) <= I64Max && 8 + |header| + TotalBytes(es) < U64
  }

  lemma WrittenHeads(es: seq<Source>, header: string)
    requires Written(es, header)
    ensures Heads(header, Listing(es), |Payload(es)|) && Laid(Listing(es), 0, |Payload(es)|) && Distinct(Listing(es))
    ensures forall i :: 0 <= i < |es| ==> Listing(es)[i].range.first < Listing(es)[i].range.end
  {
    var ls := Listing(es);
    PayloadLength(es);
    ListingLaid(es);
    ListingDistinct(es);
    forall i | 0 <= i < |ls|
      ensures ListedOk(ls[i], 8 + |header|, TotalBytes(es)) && PlainName(ls[i].name)
        && ls[i].range.first < ls[i].range.end
    {
      ListingOk(es, 8 + |header|, i);
    }
    HeaderHeads(ls, header, TotalBytes(es));
  }

  /** Acceptance: a written file loads exactly when no tensor is named like the metadata and its header is within the
      limit. */
  lemma WrittenLoads(es: seq<Source>, header: string)
    requires Written(es, header)
    ensures ParseHeader(FileFor(es)).Some? <==> !HasName(es, Metadata) && |header| <= MaxHeader
    ensures ParseHeader(FileFor(es)).Some? ==>
      Heads(header, Listing(es), |Payload(es)|)
      && ParseHeader(FileFor(es)) == Some(AddAll(Nothing, Listing(es), 8 + |header|, |Payload(es)|).tensors)
  {
    WrittenHeads(es, header);
    FileIsRead(Listing(es), header, Payload(es));
    NamedListing(es, Metadata);
  }

  /** Identity: a loaded tensor has the name, shape and values it was written with. */
  lemma TensorReadBack(es: seq<Source>, header: string, i: nat)
    requires Written(es, header) && ParseHeader(FileFor(es)).Some? && i < |es|
    ensures var all := ParseHeader(FileFor(es)).value; var name := es[i].name;
      && name in all && all[name].name == name && all[name].dtype == "F32" && all[name].shape == Nats(es[i].shape)
      && RowMajor(all[name].shape, all[name].strides)
    ensures Data(FileFor(es), ParseHeader(FileFor(es)).value, es[i].name) == Some(PutWords(es[i].values))
  {
    WrittenLoads(es, header);
    WrittenHeads(es, header);
    Has(es, i);
    ListingAt(es, i);
    EntryReadBack(es, Listing(es), header, i);
  }

  /** The same for a list that gives the i-th entry under any name. */
  lemma EntryReadBack(es: seq<Source>, ls: seq<Listed>, header: string, i: nat)
    requires AllPositive(es) && AllFill(es) && i < |es| && i < |ls|
    requires ls[i].name != Metadata && EntryAt(es[i], TotalBytes(es[..i])) == ls[i].(name := es[i].name)
    requires Heads(header, ls, |Payload(es)|) && Distinct(ls)
    ensures var all := AddAll(Nothing, ls, 8 + |header|, |Payload(es)|).tensors; var name := ls[i].name;
      && name in all && all[name].name == name && all[name].dtype == "F32" && all[name].shape == Nats(es[i].shape)
      && RowMajor(all[name].shape, all[name].strides)
    ensures Data(FileOf(header, Payload(es)), AddAll(Nothing, ls, 8 + |header|, |Payload(es)|).tensors, ls[i].name)
         == Some(PutWords(es[i].values))
  {
    var payload, size, l := Payload(es), |Payload(es)|, ls[i];
    PayloadAt(es, i);
    assert payload[l.range.first..l.range.end] == PutWords(es[i].values);
    EntryTensor(ls, 8 + |header|, size, i);
    DataIsRead(ls, header, payload, i);
  }

  lemma EntryTensor(ls: seq<Listed>, dataStart: nat, size: nat, i: nat)
    requires AllOk(ls, dataStart, size) && Distinct(ls) && i < |ls| && ls[i].name != Metadata
    ensures var all := AddAll(Nothing, ls, dataStart, size).tensors; var name := ls[i].name;
      && name in all && all[name].name == name && all[name].dtype == "F32" && all[name].shape == ls[i].shape
      && RowMajor(all[name].shape, all[name].strides)
  {
    AddedTensor(Nothing, ls, dataStart, size, i);
    LayoutExact(ls[i].shape);
  }

  /** No other tensor is loaded. */
  lemma NamesReadBack(es: seq<Source>, header: string, name: string)
    requires Written(es, header) && ParseHeader(FileFor(es)).Some?
    ensures name in ParseHeader(FileFor(es)).value <==> HasName(es, name)
  {
    WrittenLoads(es, header);
    if name in ParseHeader(FileFor(es)).value {
      AddedNames(Nothing, Listing(es), 8 + |header|, |Payload(es)|, name);
      NamedListing(es, name);
    }
    if HasName(es, name) {
      var i: nat :| i < |es| && es[i].name == name;
      TensorReadBack(es, header, i);
    }
  }
}
