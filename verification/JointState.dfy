/** A whole joint checkpoint: the trainer's tensors and its text in one file, and what restoring that file gives. */
module JointState {
  import opened Spools
  import opened Bytes
  import opened Decimals
  import opened RunState
  import opened RunText
  import opened Safetensors
  import opened SafetensorsFiles
  import opened SafetensorsScanner
  import opened SafetensorsWriters
  import opened CheckpointWriters
  import opened CheckpointText

  /** How a byte of text is held in a float, and read back. */
  datatype ByteFloats = ByteFloats(up: byte -> Word, down: Word -> Option<byte>)

  ghost predicate ByteLaw(b: ByteFloats, x: byte) { b.down(b.up(x)) == Some(x) && Finite(b.up(x)) }

  ghost predicate ValidBytes(b: ByteFloats) { forall x: byte :: ByteLaw(b, x) }

  /** The tensors a model has, by name and shape, and the checks a restored value has to pass. */
  datatype Format = Format(text: FloatText, bytes: ByteFloats, manifest: seq<(string, seq<CInt>)>,
                           allowed: (string, seq<CInt>, seq<Word>) -> bool)

  ghost predicate StateAllowed(fm: Format, shape: seq<CInt>, v: seq<Word>) { fm.allowed("state", shape, v) }

  ghost predicate ValidFormat(fm: Format, o: Oracle) {
    ValidFloats(fm.text, o) && ValidBytes(fm.bytes) && forall shape, v :: StateAllowed(fm, shape, v)
  }

  datatype Snapshot = Snapshot(meta: Meta, tensors: seq<Source>)

  // ---------------------------------------------------------------- the text as floats

  function Decoded(b: ByteFloats, words: seq<Word>): (r: Option<seq<byte>>)
    ensures r.Some? ==> |r.value| == |words|
  {
    if |words| == 0 then Some([]) else
    var x := b.down(words[0]);
    var more := Decoded(b, words[1..]);
    if x.None? || more.None? then None else Some([x.value] + more.value)
  }

  lemma {:induction false} DecodedBack(b: ByteFloats, text: seq<byte>, words: seq<Word>)
    requires ValidBytes(b) && |words| == |text| && forall i :: 0 <= i < |text| ==> words[i] == b.up(text[i])
    ensures Decoded(b, words) == Some(text)
    decreases |text|
  {
    if |text| > 0 {
      assert ByteLaw(b, text[0]);
      DecodedBack(b, text[1..], words[1..]);
      assert text == [text[0]] + text[1..];
    }
  }

  method Decode(b: ByteFloats, words: seq<Word>) returns (text: Option<seq<byte>>)
    ensures text == Decoded(b, words)
  {
    var out: seq<byte> := [];
    var i := 0;
    ghost var goal := Decoded(b, words);
    NothingRead(goal);
    assert words[0..] == words;
    while i < |words|
      invariant 0 <= i <= |words| && After(out, Decoded(b, words[i..])) == goal
    {
      assert words[i..][1..] == words[i + 1..];
      var x := b.down(words[i]);
      if x.None? { return None; }
      OneRead(out, x.value, Decoded(b, words[i + 1..]));
      out := out + [x.value];
      i := i + 1;
    }
    assert out + [] == out;
    text := Some(out);
  }

  /** What is read once `out` has been read before it. */
  ghost function After<T>(out: seq<T>, r: Option<seq<T>>): Option<seq<T>> {
    if r.None? then None else Some(out + r.value)
  }

  lemma NothingRead<T>(r: Option<seq<T>>)
    ensures After([], r) == r
  {
    if r.Some? { assert [] + r.value == r.value; }
  }

  lemma OneRead<T>(out: seq<T>, x: T, r: Option<seq<T>>)
    ensures After(out, if r.None? then None else Some([x] + r.value)) == After(out + [x], r)
  {
    if r.Some? { assert out + ([x] + r.value) == out + [x] + r.value; }
  }

  /** The state text of a loaded joint checkpoint comes back byte for byte. */
  lemma TextBack(es: seq<Source>, text: seq<byte>, b: ByteFloats)
    requires ValidBytes(b) && JointAccepts(es, text, b.up)
    requires AllPositive(es + [StateSource(text, b.up)]) && ParseHeader(FileFor(es + [StateSource(text, b.up)])).Some?
    ensures var file := FileFor(es + [StateSource(text, b.up)]);
      var data := Data(file, ParseHeader(file).value, "state");
      data.Some? && |data.value| % 4 == 0 && Decoded(b, GetWords(data.value)) == Some(text)
  {
    var state := StateSource(text, b.up);
    JointReadBack(es, text, b.up, |es|);
    GetPutWords(state.values);
    DecodedBack(b, text, state.values);
  }

  // ---------------------------------------------------------------- restoring

  /** `load_checkpoint`: the text first, then the whole manifest and nothing besides. */
  function Restored(fm: Format, o: Oracle, file: seq<byte>): Option<Snapshot> {
    if |file| > MaxBytes || ParseHeader(file).None? then None else
    var tensors := ParseHeader(file).value;
    var meta := RestoredMeta(fm, o, file, tensors);
    if meta.None? || |tensors| != |fm.manifest| + 1 then None else
    var values := RestoredTensors(fm, file, tensors, fm.manifest);
    if values.None? then None else Some(Snapshot(meta.value, values.value))
  }

  function RestoredMeta(fm: Format, o: Oracle, file: seq<byte>, tensors: map<string, Tensor>): Option<Meta> {
    if "state" !in tensors || |tensors["state"].shape| != 1
      || !(0 < tensors["state"].shape[0] <= SafetensorsWriters.MaxText) then None else
    var words := CheckpointTensor(file, tensors, "state", [tensors["state"].shape[0]], fm.allowed);
    if words.None? || Decoded(fm.bytes, words.value).None? then None
    else ParsedMeta(fm.text, o, Text(Decoded(fm.bytes, words.value).value))
  }

  function RestoredTensors(fm: Format, file: seq<byte>, tensors: map<string, Tensor>,
                           manifest: seq<(string, seq<CInt>)>): Option<seq<Source>>
    decreases |manifest|
  {
    if |manifest| == 0 then Some([]) else
    var values := CheckpointTensor(file, tensors, manifest[0].0, manifest[0].1, fm.allowed);
    var more := RestoredTensors(fm, file, tensors, manifest[1..]);
    if values.None? || more.None? then None else Some([Source(manifest[0].0, manifest[0].1, values.value)] + more.value)
  }

  /** The tensors are those of the manifest, with values that may be restored. */
  predicate Matches(fm: Format, es: seq<Source>, manifest: seq<(string, seq<CInt>)>) {
    && |es| == |manifest|
    && forall i :: 0 <= i < |es| ==>
      es[i].name == manifest[i].0 && es[i].shape == manifest[i].1 && fm.allowed(es[i].name, es[i].shape, es[i].values)
  }

  /** The text of a snapshot, in bytes. */
  function StateBytes(fm: Format, m: Meta): seq<byte> { Ascii(MetaText(fm.text, m)) }

  /** The snapshots the format can hold: readable text, the manifest's tensors, a file within the bounds of writer and
      parser. */
  ghost predicate Saveable(fm: Format, o: Oracle, sn: Snapshot) {
    ValidMeta(o, sn.meta) && Narrow(sn.meta.run) && TensorsFit(fm, sn)
  }

  ghost predicate TensorsFit(fm: Format, sn: Snapshot) {
    && Matches(fm, sn.tensors, fm.manifest)
    && JointAccepts(sn.tensors, StateBytes(fm, sn.meta), fm.bytes.up) && !HasName(sn.tensors, Metadata)
    && |HeaderOf(Listing(sn.tensors + [StateSource(StateBytes(fm, sn.meta), fm.bytes.up)]))| <= MaxHeader
  }

  /** The file of a snapshot. */
  ghost function FileOfSnapshot(fm: Format, sn: Snapshot): seq<byte>
    requires |StateBytes(fm, sn.meta)| <= SafetensorsWriters.MaxText
    requires AllPositive(sn.tensors + [StateSource(StateBytes(fm, sn.meta), fm.bytes.up)])
  {
    FileFor(sn.tensors + [StateSource(StateBytes(fm, sn.meta), fm.bytes.up)])
  }

  /** A loaded file of a saveable snapshot, in terms of its parts. */
  ghost predicate Loaded(fm: Format, es: seq<Source>, text: seq<byte>, file: seq<byte>, tensors: map<string, Tensor>) {
    && JointAccepts(es, text, fm.bytes.up) && AllPositive(es + [StateSource(text, fm.bytes.up)])
    && file == FileFor(es + [StateSource(text, fm.bytes.up)]) && ParseHeader(file) == Some(tensors)
  }

  lemma TensorAt(fm: Format, es: seq<Source>, text: seq<byte>, file: seq<byte>, tensors: map<string, Tensor>, i: nat)
    requires Loaded(fm, es, text, file, tensors) && Matches(fm, es, fm.manifest) && i < |es|
    ensures ReadAt(fm, es, file, tensors, i)
  {
    RestoreExact(es, text, fm.bytes.up, i, es[i].shape, fm.allowed);
  }

  /** Tensor i of the manifest is restored as tensor i of the list. */
  ghost predicate ReadAt(fm: Format, es: seq<Source>, file: seq<byte>, tensors: map<string, Tensor>, i: nat) {
    i < |es| && i < |fm.manifest| ==>
      && es[i].name == fm.manifest[i].0 && es[i].shape == fm.manifest[i].1
      && CheckpointTensor(file, tensors, fm.manifest[i].0, fm.manifest[i].1, fm.allowed) == Some(es[i].values)
  }

  lemma {:induction false} TensorsBack(fm: Format, es: seq<Source>, file: seq<byte>, tensors: map<string, Tensor>,
                                       from: nat)
    requires |es| == |fm.manifest| && from <= |es| && forall i: nat :: ReadAt(fm, es, file, tensors, i)
    ensures RestoredTensors(fm, file, tensors, fm.manifest[from..]) == Some(es[from..])
    decreases |es| - from
  {
    if from < |es| {
      TensorsBack(fm, es, file, tensors, from + 1);
      assert ReadAt(fm, es, file, tensors, from);
      Rest(fm.manifest, from);
      Rest(es, from);
    }
  }

  lemma Rest<T>(s: seq<T>, i: nat)
    requires i < |s|
    ensures s[i..] == [s[i]] + s[i + 1..] && s[i..][0] == s[i] && s[i..][1..] == s[i + 1..]
  {
  }

  /** The names of a loaded file are those written, each once. */
  lemma TensorCount(fm: Format, es: seq<Source>, text: seq<byte>, file: seq<byte>, tensors: map<string, Tensor>)
    requires Loaded(fm, es, text, file, tensors)
    ensures |tensors| == |es| + 1
  {
    var all := es + [StateSource(text, fm.bytes.up)];
    JointReadBack(es, text, fm.bytes.up, |es|);
    DistinctNames(es, text, fm.bytes.up);
    NameCount(all);
    assert tensors.Keys == NamesOf(all) by {
      forall name ensures name in tensors <==> name in NamesOf(all) {
        assert name in tensors <==> HasName(all, name);
      }
    }
  }

  lemma DistinctNames(es: seq<Source>, text: seq<byte>, float: byte -> Word)
    requires JointAccepts(es, text, float)
    ensures var all := es + [StateSource(text, float)]; forall i, j :: 0 <= i < j < |all| ==> all[i].name != all[j].name
  {
    JointNone();
    JointChecked([], es, 0, {});
    assert [] + es == es;
    var all := es + [StateSource(text, float)];
    forall i, j | 0 <= i < j < |all| ensures all[i].name != all[j].name {
      if j == |es| { assert JointName(es[i].name); }
    }
  }

  lemma {:induction false} NameCount(es: seq<Source>)
    requires forall i, j :: 0 <= i < j < |es| ==> es[i].name != es[j].name
    ensures |NamesOf(es)| == |es|
    decreases |es|
  {
    if |es| > 0 {
      var last := |es| - 1;
      NameCount(es[..last]);
      assert NamesOf(es) == NamesOf(es[..last]) + {es[last].name};
      assert es[last].name !in NamesOf(es[..last]);
    } else {
      assert NamesOf(es) == {};
    }
  }

  lemma FileSize(fm: Format, es: seq<Source>, text: seq<byte>, file: seq<byte>, tensors: map<string, Tensor>)
    requires Loaded(fm, es, text, file, tensors)
    ensures |file| <= MaxBytes
  {
    var state := StateSource(text, fm.bytes.up);
    var all := es + [state];
    JointNone();
    JointChecked([], es, 0, {});
    assert [] + es == es;
    JointWritten(es, text, fm.bytes.up);
    StatePositive(text, fm.bytes.up);
    AllMore(es, state);
    PayloadLength(all);
  }

  lemma MetaRestored(fm: Format, o: Oracle, m: Meta, es: seq<Source>, file: seq<byte>, tensors: map<string, Tensor>)
    requires ValidFormat(fm, o) && ValidMeta(o, m) && Narrow(m.run) && Loaded(fm, es, StateBytes(fm, m), file, tensors)
    ensures RestoredMeta(fm, o, file, tensors) == Some(m)
  {
    var text := StateBytes(fm, m);
    WordsRestored(fm, o, text, es, file, tensors);
    DecodedBack(fm.bytes, text, StateSource(text, fm.bytes.up).values);
    MetaFromBytes(fm, o, m);
  }

  lemma WordsRestored(fm: Format, o: Oracle, text: seq<byte>, es: seq<Source>, file: seq<byte>, tensors: map<string,
                      Tensor>)
    requires ValidFormat(fm, o) && Loaded(fm, es, text, file, tensors)
    ensures "state" in tensors && tensors["state"].shape == [|text|] && 0 < |text| <= SafetensorsWriters.MaxText
    ensures CheckpointTensor(file, tensors, "state", [|text|], fm.allowed)
      == Some(StateSource(text, fm.bytes.up).values)
  {
    var state := StateSource(text, fm.bytes.up);
    JointReadBack(es, text, fm.bytes.up, |es|);
    StateWritable(fm.bytes, text);
    assert StateAllowed(fm, state.shape, state.values);
    assert SafetensorsWriters.Nats(state.shape) == [|text|];
    RestoredFrom(file, tensors, state, state.shape, fm.allowed);
  }

  lemma MetaFromBytes(fm: Format, o: Oracle, m: Meta)
    requires ValidFormat(fm, o) && ValidMeta(o, m) && Narrow(m.run)
    ensures ParsedMeta(fm.text, o, Text(StateBytes(fm, m))) == Some(m)
  {
    MetaFits(fm.text, o, m);
    TextOfAscii(MetaText(fm.text, m));
    MetaBack(fm.text, o, m);
  }

  lemma StateWritable(b: ByteFloats, text: seq<byte>)
    requires ValidBytes(b) && 0 < |text| <= SafetensorsWriters.MaxText
    ensures Writable(StateSource(text, b.up)) && Positive(StateSource(text, b.up).shape)
  {
    var state := StateSource(text, b.up);
    forall i | 0 <= i < |text| ensures Finite(state.values[i]) { assert ByteLaw(b, text[i]); }
    assert state.shape[1..] == [];
    assert Elements(state.shape, 1, MaxBytes / 4) == Elements([], |text|, MaxBytes / 4);
  }

  /** Save, then restore: every snapshot the format can hold comes back, text, noise generator and all tensors. */
  lemma SnapshotBack(fm: Format, o: Oracle, sn: Snapshot)
    requires ValidFormat(fm, o) && Saveable(fm, o, sn)
    ensures |StateBytes(fm, sn.meta)| <= SafetensorsWriters.MaxText
      && AllPositive(sn.tensors + [StateSource(StateBytes(fm, sn.meta), fm.bytes.up)])
    ensures Restored(fm, o, FileOfSnapshot(fm, sn)) == Some(sn)
  {
    var all, file := JointLoads(sn.tensors, StateBytes(fm, sn.meta), fm.bytes.up);
    LoadedBack(fm, o, sn, file, ParseHeader(file).value);
  }

  lemma LoadedBack(fm: Format, o: Oracle, sn: Snapshot, file: seq<byte>, tensors: map<string, Tensor>)
    requires ValidFormat(fm, o) && ValidMeta(o, sn.meta) && Narrow(sn.meta.run) && Matches(fm, sn.tensors, fm.manifest)
    requires Loaded(fm, sn.tensors, StateBytes(fm, sn.meta), file, tensors)
    ensures Restored(fm, o, file) == Some(sn)
  {
    FileSize(fm, sn.tensors, StateBytes(fm, sn.meta), file, tensors);
    MetaRestored(fm, o, sn.meta, sn.tensors, file, tensors);
    TensorCount(fm, sn.tensors, StateBytes(fm, sn.meta), file, tensors);
    AllTensorsBack(fm, sn.tensors, StateBytes(fm, sn.meta), file, tensors);
  }

  lemma AllTensorsBack(fm: Format, es: seq<Source>, text: seq<byte>, file: seq<byte>, tensors: map<string, Tensor>)
    requires Loaded(fm, es, text, file, tensors) && Matches(fm, es, fm.manifest)
    ensures RestoredTensors(fm, file, tensors, fm.manifest) == Some(es)
  {
    forall i: nat ensures ReadAt(fm, es, file, tensors, i) {
      if i < |es| { TensorAt(fm, es, text, file, tensors, i); }
    }
    TensorsBack(fm, es, file, tensors, 0);
    assert fm.manifest[0..] == fm.manifest && es[0..] == es;
  }

  // ---------------------------------------------------------------- the two operations

  /** `save_checkpoint`, up to the file it publishes: it succeeds exactly on a run text within the bound and on what
      the joint writer accepts, and a saveable snapshot can be restored from its file. */
  method Save(fm: Format, o: Oracle, sn: Snapshot) returns (file: Option<seq<byte>>)
    requires ValidFormat(fm, o)
    ensures file.Some? <==>
      |sn.meta.run| <= RunText.MaxText && JointAccepts(sn.tensors, StateBytes(fm, sn.meta), fm.bytes.up)
    ensures Saveable(fm, o, sn) ==> file.Some? && Restored(fm, o, file.value) == Some(sn)
    ensures Saveable(fm, o, sn) ==> SaveableParts(fm, o, sn) && file.value == FileOfSnapshot(fm, sn)
  {
    if |sn.meta.run| > RunText.MaxText { return None; }
    file := WriteJoint(sn.tensors, StateBytes(fm, sn.meta), fm.bytes.up);
    if Saveable(fm, o, sn) { SnapshotBack(fm, o, sn); }
  }

  /** What a file of a snapshot needs to be written at all. */
  ghost predicate SaveableParts(fm: Format, o: Oracle, sn: Snapshot) {
    |StateBytes(fm, sn.meta)| <= SafetensorsWriters.MaxText
      && AllPositive(sn.tensors + [StateSource(StateBytes(fm, sn.meta), fm.bytes.up)])
  }

  /** `load_checkpoint`. */
  method Restore(fm: Format, o: Oracle, file: seq<byte>) returns (sn: Option<Snapshot>)
    ensures sn == Restored(fm, o, file)
  {
    if |file| > MaxBytes { return None; }
    var loaded := Load(file);
    if loaded.None? { return None; }
    var tensors := loaded.value;
    var meta := RestoreMeta(fm, o, file, tensors);
    if meta.None? || |tensors| != |fm.manifest| + 1 { return None; }
    var values := RestoreTensors(fm, file, tensors);
    sn := if values.None? then None else Some(Snapshot(meta.value, values.value));
  }

  method RestoreMeta(fm: Format, o: Oracle, file: seq<byte>, tensors: map<string, Tensor>) returns (meta: Option<Meta>)
    ensures meta == RestoredMeta(fm, o, file, tensors)
  {
    if "state" !in tensors { return None; }
    var shape := tensors["state"].shape;
    if |shape| != 1 || shape[0] <= 0 || shape[0] > SafetensorsWriters.MaxText { return None; }
    var words := CheckpointTensor(file, tensors, "state", [shape[0]], fm.allowed);
    if words.None? { return None; }
    var text := Decode(fm.bytes, words.value);
    if text.None? { return None; }
    meta := ParsedMeta(fm.text, o, Text(text.value));
  }

  /** The manifest, tensor by tensor. */
  method RestoreTensors(fm: Format, file: seq<byte>, tensors: map<string, Tensor>) returns (r: Option<seq<Source>>)
    ensures r == RestoredTensors(fm, file, tensors, fm.manifest)
  {
    var out: seq<Source> := [];
    var i := 0;
    ghost var goal := RestoredTensors(fm, file, tensors, fm.manifest);
    NothingRead(goal);
    assert fm.manifest[0..] == fm.manifest;
    while i < |fm.manifest|
      invariant 0 <= i <= |fm.manifest| && After(out, RestoredTensors(fm, file, tensors, fm.manifest[i..])) == goal
    {
      Rest(fm.manifest, i);
      var values := CheckpointTensor(file, tensors, fm.manifest[i].0, fm.manifest[i].1, fm.allowed);
      if values.None? { return None; }
      var e := Source(fm.manifest[i].0, fm.manifest[i].1, values.value);
      OneRead(out, e, RestoredTensors(fm, file, tensors, fm.manifest[i + 1..]));
      out := out + [e];
      i := i + 1;
    }
    assert out + [] == out;
    r := Some(out);
  }
}
