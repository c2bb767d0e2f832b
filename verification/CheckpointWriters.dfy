/** `write_joint_checkpoint` and the generator exporter as they are written, and what a load of their
    files gives back. */
module CheckpointWriters {
  import opened Spools
  import opened Bytes
  import opened Safetensors
  import opened SafetensorsText
  import opened SafetensorsFiles
  import opened SafetensorsWriters

  // ---------------------------------------------------------------- element counts

  /** The element count built up dimension by dimension under a limit; None for a bad dimension or over the limit. */
  function Elements(shape: seq<CInt>, n: nat, limit: nat): Option<nat> {
    if |shape| == 0 then Some(n)
    else if shape[0] <= 0 || n > limit / shape[0] then None
    else Elements(shape[1..], n * shape[0], limit)
  }

  lemma OverLimit(n: nat, limit: nat, d: int)
    requires d > 0
    ensures n > limit / d <==> n * d > limit
  {
    var q := limit / d;
    assert limit == q * d + limit % d;
    if n <= q {
      assert n * d <= q * d by { ScaleLe(n, q, d); }
    } else {
      assert (q + 1) * d <= n * d by { ScaleLe(q + 1, n, d); }
    }
  }

  lemma ScaleLe(a: nat, b: nat, d: nat)
    requires a <= b
    ensures a * d <= b * d
  {
  }

  lemma Regroup3(n: nat, d: nat, p: nat)
    ensures n * d * p == n * (d * p)
  {
  }

  /** The count is the product of the shape. */
  lemma {:induction false} ElementsAre(shape: seq<CInt>, n: nat, limit: nat)
    requires Elements(shape, n, limit).Some? && n <= limit
    ensures Positive(shape) && Elements(shape, n, limit).value == n * Product(Nats(shape)) <= limit
    decreases |shape|
  {
    if |shape| > 0 {
      OverLimit(n, limit, shape[0]);
      ElementsAre(shape[1..], n * shape[0], limit);
      assert Nats(shape)[1..] == Nats(shape[1..]);
      Regroup3(n, shape[0], Product(Nats(shape[1..])));
      forall i | 0 <= i < |shape| ensures shape[i] > 0 { if i > 0 { assert shape[1..][i - 1] == shape[i]; } }
    }
  }

  method CountElements(shape: seq<CInt>, limit: nat) returns (count: Option<nat>)
    ensures count == Elements(shape, 1, limit)
  {
    var n: nat := 1;
    var i := 0;
    assert shape[0..] == shape;
    while i < |shape|
      invariant 0 <= i <= |shape| && Elements(shape[i..], n, limit) == Elements(shape, 1, limit)
    {
      assert shape[i..][1..] == shape[i + 1..];
      if shape[i] <= 0 || n > limit / shape[i] { return None; }
      n := n * shape[i];
      i := i + 1;
    }
    count := Some(n);
  }

  // ---------------------------------------------------------------- the joint checkpoint

  predicate JointChar(c: char) { 'a' <= c <= 'z' || 'A' <= c <= 'Z' || '0' <= c <= '9' || c == '_' || c == '.' }

  predicate JointName(s: string) { |s| > 0 && (forall i :: 0 <= i < |s| ==> JointChar(s[i])) && s != "state" }

  /** `checkpoint_elements`. */
  function JointElements(shape: seq<CInt>): Option<nat> {
    if |shape| == 0 || |shape| > 4 then None else Elements(shape, 1, MaxBytes / 4)
  }

  /** The checks on one header entry. */
  predicate CanWrite(e: Source, names: set<string>, offset: nat) {
    && JointName(e.name) && e.name !in names && JointElements(e.shape).Some?
    && offset <= MaxBytes && 4 * JointElements(e.shape).value <= MaxBytes - offset
  }

  /** The checks of the header loop from an entry on. */
  predicate JointHeader(es: seq<Source>, offset: nat, names: set<string>)
    decreases |es|
  {
    |es| == 0 ||
    (CanWrite(es[0], names, offset) && JointHeader(es[1..], offset + 4 * JointElements(es[0].shape).value,
      names + {es[0].name}))
  }

  lemma JointStep(es: seq<Source>, i: nat, offset: nat, names: set<string>)
    requires i < |es|
    ensures JointHeader(es[i..], offset, names) <==>
      CanWrite(es[i], names, offset) && JointHeader(es[i + 1..], offset + 4 * JointElements(es[i].shape).value,
        names + {es[i].name})
  {
    assert es[i..][1..] == es[i + 1..];
  }

  lemma TakeMore<T>(s: seq<T>, i: nat)
    requires i < |s|
    ensures s[..i + 1] == s[..i] + [s[i]]
  {
  }

  predicate Writable(e: Source) { JointElements(e.shape) == Some(|e.values|) && AllFinite(e.values) }

  /** The text as one float per byte. */
  function StateSource(text: seq<byte>, float: byte -> Word): Source
    requires |text| <= MaxText
  {
    Source("state", [|text|], seq(|text|, i requires 0 <= i < |text| => float(text[i])))
  }

  lemma JointPositive(e: Source)
    requires JointElements(e.shape).Some?
    ensures Positive(e.shape) && BytesOf(e) == 4 * JointElements(e.shape).value && |e.shape| <= 4
  {
    ElementsAre(e.shape, 1, MaxBytes / 4);
  }

  /** What the header loop has established for the entries so far. */
  predicate JointSoFar(es: seq<Source>) {
    && AllPositive(es) && TotalBytes(es) <= MaxBytes
    && (forall i :: 0 <= i < |es| ==> JointName(es[i].name) && JointElements(es[i].shape).Some?)
    && (forall i, j :: 0 <= i < j < |es| ==> es[i].name != es[j].name)
  }

  lemma JointMore(es: seq<Source>, e: Source, names: set<string>)
    requires JointSoFar(es) && names == NamesOf(es)
    requires JointName(e.name) && e.name !in names && JointElements(e.shape).Some?
    requires 4 * JointElements(e.shape).value <= MaxBytes - TotalBytes(es)
    ensures JointSoFar(es + [e]) && NamesOf(es + [e]) == names + {e.name}
    ensures TotalBytes(es + [e]) == TotalBytes(es) + 4 * JointElements(e.shape).value
    ensures Listing(es + [e]) == Listing(es) + [EntryAt(e, TotalBytes(es))]
  {
    JointPositive(e);
    var all := es + [e];
    assert all[..|all| - 1] == es;
    forall name ensures name in NamesOf(all) <==> name in names + {e.name} {
      if name in names + {e.name} {
        if name == e.name { assert all[|es|].name == name; } else {
          var i :| 0 <= i < |es| && es[i].name == name;
          assert all[i].name == name;
        }
      }
    }
  }

  ghost function NamesOf(es: seq<Source>): set<string> { set i | 0 <= i < |es| :: es[i].name }

  /** The header loop: text, offset and names grow together. */
  method JointHeaderText(es: seq<Source>) returns (header: Option<string>, offset: nat)
    ensures header.Some? <==> JointHeader(es, 0, {})
    ensures header.Some? ==> JointSoFar(es) && offset == TotalBytes(es) && header.value == ['{'] + ListText(Listing(es))
    ensures header.Some? ==> (offset > 0 <==> |es| > 0)
  {
    var text := "{";
    offset := 0;
    var names: set<string> := {};
    var i := 0;
    ghost var goal := JointHeader(es, 0, {});
    JointStart(es);
    while i < |es|
      invariant 0 <= i <= |es| && JointTurned(es, i, offset, names, text, goal)
    {
      var entry;
      entry, offset := JointTurn(es, i, names, offset, text, goal);
      if entry.None? { return None, offset; }
      text := entry.value;
      names := names + {es[i].name};
      i := i + 1;
    }
    JointEnd(es, offset, names, text, goal);
    header := Some(text);
  }

  lemma JointEnd(es: seq<Source>, offset: nat, names: set<string>, text: string, goal: bool)
    requires JointTurned(es, |es|, offset, names, text, goal)
    ensures goal && JointSoFar(es) && offset == TotalBytes(es) && text == ['{'] + ListText(Listing(es))
      && (offset > 0 <==> |es| > 0)
  {
    WholeTaken(es);
  }

  /** The first i entries are in the header, and the rest decides as the whole list does. */
  ghost predicate JointTurned(es: seq<Source>, i: nat, offset: nat, names: set<string>, text: string, goal: bool) {
    && i <= |es| && JointHeader(es[i..], offset, names) == goal
    && JointState(es[..i], offset, names) && text == ['{'] + ListText(Listing(es[..i]))
  }

  lemma JointStart(es: seq<Source>)
    ensures JointTurned(es, 0, 0, {}, "{", JointHeader(es, 0, {}))
  {
    JointNone();
    WholeTaken(es);
  }

  lemma WholeTaken<T>(s: seq<T>)
    ensures s[0..] == s && s[..|s|] == s && s[..0] == []
  {
  }

  lemma JointNone()
    ensures JointState([], 0, {}) && ['{'] + ListText(Listing([])) == "{"
  {
  }

  ghost predicate JointState(done: seq<Source>, offset: nat, names: set<string>) {
    JointSoFar(done) && offset == TotalBytes(done) && names == NamesOf(done) && (offset > 0 <==> |done| > 0)
  }

  /** One entry: its checks, and the header text grown by it, with a comma unless it is the first. */
  method JointEntry(e: Source, names: set<string>, ghost done: seq<Source>, offset: nat, header: string)
    returns (entry: Option<string>, next: nat)
    requires JointState(done, offset, names) && header == ['{'] + ListText(Listing(done))
    ensures entry.Some? <==> CanWrite(e, names, offset)
    ensures entry.Some? ==>
      && JointState(done + [e], next, names + {e.name}) && next == offset + 4 * JointElements(e.shape).value
      && entry.value == ['{'] + ListText(Listing(done + [e]))
  {
    next := offset;
    if !JointName(e.name) || e.name in names || |e.shape| == 0 || |e.shape| > 4 { return None, next; }
    var count := CountElements(e.shape, MaxBytes / 4);
    if count.None? || 4 * count.value > MaxBytes - offset { return None, next; }
    JointMore(done, e, names);
    JointPositive(e);
    ElementsPositive(e.shape);
    next := offset + 4 * count.value;
    var l := Listed(e.name, Nats(e.shape), Range(offset, next));
    var comma := if offset > 0 then "," else "";
    HeaderSnoc(header, Listing(done), l, comma);
    entry := Some(header + (comma + EntryText(l)));
  }

  /** One turn of the header loop. */
  method JointTurn(es: seq<Source>, i: nat, names: set<string>, offset: nat, header: string, ghost goal: bool)
    returns (entry: Option<string>, next: nat)
    requires i < |es| && JointTurned(es, i, offset, names, header, goal)
    ensures entry.None? ==> !goal
    ensures entry.Some? ==> JointTurned(es, i + 1, next, names + {es[i].name}, entry.value, goal)
  {
    var e := es[i];
    entry, next := JointEntry(e, names, es[..i], offset, header);
    TakeMore(es, i);
    JointAfter(es, i, offset, names, e, entry.Some?, next, goal);
  }

  lemma JointAfter(es: seq<Source>, i: nat, offset: nat, names: set<string>, e: Source, ok: bool, next: nat, goal: bool)
    requires i < |es| && e == es[i] && JointHeader(es[i..], offset, names) == goal
      && (ok <==> CanWrite(e, names, offset))
    requires ok ==> next == offset + 4 * JointElements(e.shape).value
    ensures if ok then JointHeader(es[i + 1..], next, names + {e.name}) == goal else !goal
  {
    JointStep(es, i, offset, names);
  }

  lemma ElementsPositive(shape: seq<CInt>)
    requires JointElements(shape).Some?
    ensures JointElements(shape).value > 0
  {
    ElementsAre(shape, 1, MaxBytes / 4);
    LayoutFits(Nats(shape));
  }

  /** The calls of the joint writer that do not throw. */
  predicate JointAccepts(es: seq<Source>, text: seq<byte>, float: byte -> Word) {
    && 0 < |text| <= MaxText && JointHeader(es, 0, {}) && AllPositive(es)
    && TotalBytes(es) <= MaxBytes
    && |HeaderOf(Listing(es + [StateSource(text, float)]))| + 8 + 4 * |text| <= MaxBytes - TotalBytes(es)
    && (forall i :: 0 <= i < |es| ==> Writable(es[i]))
  }

  lemma StatePositive(text: seq<byte>, float: byte -> Word)
    requires |text| <= MaxText && |text| > 0
    ensures Fills(StateSource(text, float)) && BytesOf(StateSource(text, float)) == 4 * |text|
    ensures PlainName("state")
  {
    assert Nats([|text|])[1..] == [];
  }

  lemma AllMore(es: seq<Source>, e: Source)
    requires AllPositive(es) && Positive(e.shape)
    ensures AllPositive(es + [e]) && TotalBytes(es + [e]) == TotalBytes(es) + BytesOf(e)
    ensures Listing(es + [e]) == Listing(es) + [EntryAt(e, TotalBytes(es))]
      && Payload(es + [e]) == Payload(es) + PutWords(e.values)
  {
    assert (es + [e])[..|es|] == es;
  }

  method WriteJoint(es: seq<Source>, text: seq<byte>, float: byte -> Word) returns (file: Option<seq<byte>>)
    ensures file.Some? <==> JointAccepts(es, text, float)
    ensures file.Some? ==>
      AllPositive(es + [StateSource(text, float)]) && file.value == FileFor(es + [StateSource(text, float)])
  {
    if |text| == 0 || |text| > MaxText { return None; }
    var state := StateSource(text, float);
    var header, offset := JointHeaderText(es);
    if header.None? { return None; }
    StatePositive(text, float);
    AllMore(es, state);
    var json := ClosedHeader(es, state, header.value, offset);
    if |json| + 8 + |text| * 4 > MaxBytes - offset { return None; }
    var payload := JointPayload(es);
    if payload.None? { return None; }
    file := Some(FileOf(json, payload.value + PutWords(state.values)));
  }

  /** The state entry, the closing brace and the padding. */
  method ClosedHeader(ghost es: seq<Source>, state: Source, header: string, offset: nat) returns (json: string)
    requires AllPositive(es) && Positive(state.shape) && offset == TotalBytes(es) && (offset > 0 <==> |es| > 0)
    requires header == ['{'] + ListText(Listing(es))
    ensures AllPositive(es + [state]) && json == HeaderOf(Listing(es + [state]))
  {
    AllMore(es, state);
    var l := EntryAt(state, offset);
    var comma := if offset > 0 then "," else "";
    HeaderSnoc(header, Listing(es), l, comma);
    json := Close(es + [state], header + (comma + EntryText(l)));
  }

  method JointPayload(es: seq<Source>) returns (payload: Option<seq<byte>>)
    ensures payload.Some? <==> forall i :: 0 <= i < |es| ==> Writable(es[i])
    ensures payload.Some? ==> payload.value == Payload(es)
  {
    var bytes := [];
    var i := 0;
    while i < |es|
      invariant 0 <= i <= |es| && bytes == Payload(es[..i])
      invariant forall k :: 0 <= k < i ==> Writable(es[k])
    {
      var n := if |es[i].shape| == 0 || |es[i].shape| > 4 then None else Some(0);
      if n.Some? { n := CountElements(es[i].shape, MaxBytes / 4); }
      if n != Some(|es[i].values|) || !AllFinite(es[i].values) { return None; }
      assert es[..i + 1][..i] == es[..i];
      bytes := bytes + PutWords(es[i].values);
      i := i + 1;
    }
    assert es[..|es|] == es;
    payload := Some(bytes);
  }

  lemma WriteableFills(e: Source)
    requires Writable(e)
    ensures Fills(e) && |e.shape| <= 4
  {
    JointPositive(e);
  }

  /** What the joint writer writes satisfies the reader's needs. */
  lemma JointWritten(es: seq<Source>, text: seq<byte>, float: byte -> Word)
    requires JointAccepts(es, text, float) && JointSoFar(es)
    ensures AllPositive(es + [StateSource(text, float)])
    ensures Written(es + [StateSource(text, float)], HeaderOf(Listing(es + [StateSource(text, float)])))
  {
    var state := StateSource(text, float);
    var all := es + [state];
    StatePositive(text, float);
    AllMore(es, state);
    forall i | 0 <= i < |all| ensures Fills(all[i]) && PlainName(all[i].name) && |all[i].shape| <= MaxRank {
      if i < |es| { WriteableFills(es[i]); }
    }
    forall i, j | 0 <= i < j < |all| ensures all[i].name != all[j].name {
      if j == |es| { assert JointName(es[i].name); }
    }
  }

  lemma {:induction false} JointChecked(done: seq<Source>, es: seq<Source>, offset: nat, names: set<string>)
    requires JointState(done, offset, names) && JointHeader(es, offset, names)
    ensures JointSoFar(done + es)
    decreases |es|
  {
    if |es| == 0 {
      assert done + es == done;
    } else {
      JointMore(done, es[0], names);
      ElementsPositive(es[0].shape);
      JointChecked(done + [es[0]], es[1..], offset + 4 * JointElements(es[0].shape).value, names + {es[0].name});
      assert done + [es[0]] + es[1..] == done + es;
    }
  }

  /** Print, then parse: for everything the joint writer writes, the load succeeds exactly when no tensor is called
      `__metadata__` and the header is within the parser's limit. */
  lemma JointLoads(es: seq<Source>, text: seq<byte>, float: byte -> Word) returns (all: seq<Source>, file: seq<byte>)
    requires JointAccepts(es, text, float)
    ensures all == es + [StateSource(text, float)] && AllPositive(all) && file == FileFor(all)
    ensures ParseHeader(file).Some? <==> !HasName(es, Metadata) && |HeaderOf(Listing(all))| <= MaxHeader
  {
    all := es + [StateSource(text, float)];
    JointNone();
    JointChecked([], es, 0, {});
    assert [] + es == es;
    JointWritten(es, text, float);
    file := FileFor(all);
    WrittenLoads(all, HeaderOf(Listing(all)));
    HasMore(es, StateSource(text, float));
  }

  lemma HasMore(es: seq<Source>, e: Source)
    requires e.name != Metadata
    ensures HasName(es + [e], Metadata) <==> HasName(es, Metadata)
  {
    var all := es + [e];
    if HasName(es, Metadata) {
      var i :| 0 <= i < |es| && es[i].name == Metadata;
      assert all[i].name == Metadata;
    }
    if HasName(all, Metadata) {
      var i :| 0 <= i < |all| && all[i].name == Metadata;
      assert es[i].name == Metadata;
    }
  }

  /** A loaded joint checkpoint holds exactly the tensors written, the state text among them, bit for bit. */
  lemma JointReadBack(es: seq<Source>, text: seq<byte>, float: byte -> Word, i: nat)
    requires JointAccepts(es, text, float) && i <= |es|
    requires AllPositive(es + [StateSource(text, float)]) && ParseHeader(FileFor(es + [StateSource(text, float)])).Some?
    ensures var all := es + [StateSource(text, float)]; var tensors := ParseHeader(FileFor(all)).value;
      && (forall name :: name in tensors <==> HasName(all, name))
      && all[i].name in tensors && tensors[all[i].name].shape == Nats(all[i].shape)
        && tensors[all[i].name].dtype == "F32"
      && Data(FileFor(all), tensors, all[i].name) == Some(PutWords(all[i].values))
  {
    var all := es + [StateSource(text, float)];
    JointNone();
    JointChecked([], es, 0, {});
    assert [] + es == es;
    JointWritten(es, text, float);
    var header := HeaderOf(Listing(all));
    TensorReadBack(all, header, i);
    forall name ensures name in ParseHeader(FileFor(all)).value <==> HasName(all, name) {
      NamesReadBack(all, header, name);
    }
  }

  /** `checkpoint_tensor`: one tensor of the expected shape; `allowed` are its value checks, on optimizer variances
      and weight norms. */
  function CheckpointTensor(file: seq<byte>, tensors: map<string, Tensor>, name: string, shape: seq<CInt>,
                            allowed: (string, seq<CInt>, seq<Word>) -> bool): Option<seq<Word>> {
    var n := JointElements(shape);
    if n.None? || name !in tensors then None else
      JointPositive(Source(name, shape, []));
      var data := Data(file, tensors, name);
      if tensors[name].dtype != "F32" || tensors[name].shape != Nats(shape) || tensors[name].nbytes != 4 * n.value
        || data.None? then None
      else
        var values := GetWords(data.value);
        if AllFinite(values) && allowed(name, shape, values) then Some(values) else None
  }

  /** What a restore reads of a tensor of a loaded joint checkpoint: the values written, provided it asks for the
      shape they were written with and they pass its checks; any other request is refused. */
  lemma RestoreExact(es: seq<Source>, text: seq<byte>, float: byte -> Word, i: nat, shape: seq<CInt>,
                     allowed: (string, seq<CInt>, seq<Word>) -> bool)
    requires JointAccepts(es, text, float) && i < |es|
    requires AllPositive(es + [StateSource(text, float)]) && ParseHeader(FileFor(es + [StateSource(text, float)])).Some?
    ensures var file := FileFor(es + [StateSource(text, float)]);
      CheckpointTensor(file, ParseHeader(file).value, es[i].name, shape, allowed)
        == if shape == es[i].shape && allowed(es[i].name, shape, es[i].values) then Some(es[i].values) else None
  {
    JointReadBack(es, text, float, i);
    var file := FileFor(es + [StateSource(text, float)]);
    assert Writable(es[i]);
    RestoredFrom(file, ParseHeader(file).value, es[i], shape, allowed);
  }

  lemma RestoredFrom(file: seq<byte>, tensors: map<string, Tensor>, e: Source, shape: seq<CInt>,
                     allowed: (string, seq<CInt>, seq<Word>) -> bool)
    requires Writable(e) && Positive(e.shape) && e.name in tensors && tensors[e.name].dtype == "F32"
    requires tensors[e.name].shape == Nats(e.shape) && Data(file, tensors, e.name) == Some(PutWords(e.values))
    ensures CheckpointTensor(file, tensors, e.name, shape, allowed)
         == if shape == e.shape && allowed(e.name, shape, e.values) then Some(e.values) else None
  {
    GetPutWords(e.values);
    if JointElements(shape).Some? {
      JointPositive(Source(e.name, shape, []));
      SameShape(shape, e.shape);
    }
  }

  lemma SameShape(a: seq<CInt>, b: seq<CInt>)
    requires Positive(a) && Positive(b)
    ensures Nats(a) == Nats(b) ==> a == b
  {
  }

  // ---------------------------------------------------------------- the generator export

  /** The checks of the exporter's header loop on one entry: no name is looked at. */
  predicate Exportable(e: Source, offset: nat) {
    && Elements(e.shape, 1, U64 - 1) == Some(|e.values|) && |e.values| <= (U64 - 1) / 4 && AllFinite(e.values)
    && offset <= U64 - 1 - 4 * |e.values|
  }

  predicate ExportHeader(es: seq<Source>, offset: nat)
    decreases |es|
  {
    |es| == 0 || (Exportable(es[0], offset) && ExportHeader(es[1..], offset + 4 * |es[0].values|))
  }

  lemma ExportFills(e: Source, offset: nat)
    requires Exportable(e, offset)
    ensures Fills(e) && BytesOf(e) == 4 * |e.values|
  {
    ElementsAre(e.shape, 1, U64 - 1);
  }

  lemma ExportStep(es: seq<Source>, i: nat, offset: nat)
    requires i < |es|
    ensures ExportHeader(es[i..], offset) <==>
      Exportable(es[i], offset) && ExportHeader(es[i + 1..], offset + 4 * |es[i].values|)
  {
    assert es[i..][1..] == es[i + 1..];
  }

  /** The checks on one entry, and its size in bytes. */
  method ExportSize(e: Source, offset: nat) returns (size: Option<nat>)
    ensures size.Some? <==> Exportable(e, offset)
    ensures size.Some? ==> size.value == 4 * |e.values|
  {
    var n := CountElements(e.shape, U64 - 1);
    if n != Some(|e.values|) || n.value > (U64 - 1) / 4 || !AllFinite(e.values) || offset > U64 - 1 - 4 * n.value {
      return None;
    }
    size := Some(4 * n.value);
  }

  /** One turn of the exporter's header loop: the checks, the grown header and payload, and the next offset. */
  method ExportTurn(es: seq<Source>, i: nat, ghost done: seq<Source>, json: string, payload: seq<byte>, offset: nat,
                    first: bool, ghost goal: bool)
    returns (next: Option<nat>, json1: string, payload1: seq<byte>)
    requires i < |es| && ExportHeader(es[i..], offset) == goal && ExportState(done, json, payload, offset)
      && first == (|done| == 0)
    ensures next.None? ==> !goal
    ensures next.Some? ==>
      ExportHeader(es[i + 1..], next.value) == goal && ExportState(done + [es[i]], json1, payload1, next.value)
  {
    json1, payload1 := json, payload;
    var e := es[i];
    var size := ExportSize(e, offset);
    ExportAfter(es, i, offset, e, goal);
    if size.None? { return None, json1, payload1; }
    json1, payload1 := ExportEntry(done, e, json, payload, offset, first);
    next := Some(offset + size.value);
  }

  lemma ExportAfter(es: seq<Source>, i: nat, offset: nat, e: Source, goal: bool)
    requires i < |es| && e == es[i] && ExportHeader(es[i..], offset) == goal
    ensures if Exportable(e, offset) then ExportHeader(es[i + 1..], offset + 4 * |e.values|) == goal else !goal
  {
    ExportStep(es, i, offset);
  }

  /** The exporter: header and payload of entries that fill their shapes. */
  method WriteGenerator(es: seq<Source>) returns (file: Option<seq<byte>>)
    ensures file.Some? <==> ExportHeader(es, 0)
    ensures file.Some? ==> AllPositive(es) && AllFill(es) && file.value == FileFor(es)
  {
    var json, payload, offset: nat, first := "{", [], 0, true;
    var i := 0;
    ghost var done: seq<Source> := [];
    WholeTaken(es);
    assert ['{'] + ListText(Listing([])) == "{";
    ghost var goal := ExportHeader(es, 0);
    while i < |es|
      invariant 0 <= i <= |es| && ExportHeader(es[i..], offset) == goal && first == (i == 0) && done == es[..i]
      invariant ExportState(done, json, payload, offset)
    {
      TakeMore(es, i);
      var next;
      next, json, payload := ExportTurn(es, i, done, json, payload, offset, first, goal);
      if next.None? { return None; }
      first := false;
      done := done + [es[i]];
      offset := next.value;
      i := i + 1;
    }
    WholeTaken(es);
    json := Close(es, json);
    file := Some(FileOf(json, payload));
  }

  /** The closing brace and the padding. */
  method Close(ghost es: seq<Source>, open: string) returns (json: string)
    requires AllPositive(es) && open == ['{'] + ListText(Listing(es))
    ensures json == HeaderOf(Listing(es))
  {
    json := open + "}";
    var pad := Padding(|json|);
    json := json + Spaces(pad);
  }

  method Padding(length: nat) returns (pad: nat)
    ensures pad == PadLength(length)
  {
    PadLengthIs(length);
    pad := (8 - length % 8) % 8;
  }

  ghost predicate ExportState(done: seq<Source>, json: string, payload: seq<byte>, offset: nat) {
    && AllPositive(done) && AllFill(done) && json == ['{'] + ListText(Listing(done))
    && payload == Payload(done) && offset == TotalBytes(done)
  }

  method ExportEntry(ghost done: seq<Source>, e: Source, json: string, payload: seq<byte>, offset: nat, first: bool)
    returns (json1: string, payload1: seq<byte>)
    requires ExportState(done, json, payload, offset) && Exportable(e, offset) && first == (|done| == 0)
    ensures ExportState(done + [e], json1, payload1, offset + 4 * |e.values|)
  {
    ExportFills(e, offset);
    AllMore(done, e);
    FillMore(done, e);
    var l := Listed(e.name, Nats(e.shape), Range(offset, offset + 4 * |e.values|));
    assert l == EntryAt(e, TotalBytes(done));
    var comma := if first then "" else ",";
    HeaderSnoc(json, Listing(done), l, comma);
    json1, payload1 := json + (comma + EntryText(l)), payload + PutWords(e.values);
  }

  lemma FillMore(done: seq<Source>, e: Source)
    requires AllFill(done) && Fills(e)
    ensures AllFill(done + [e])
  {
  }
}
