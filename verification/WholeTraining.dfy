/** Training from nothing: the run is begun and checked, its first checkpoint is published however often the start is
    stopped, and the sessions after it visit what the uncut run visits. */
module WholeTraining {
  import opened Spools
  import opened Bytes
  import opened Decimals
  import opened RunState
  import opened RunText
  import opened Safetensors
  import opened SafetensorsText
  import opened SafetensorsFiles
  import opened SafetensorsWriters
  import opened CheckpointWriters
  import opened CheckpointText
  import opened JointState
  import opened TrainingCampaign
  import D = TrainingDirectory
  import R = Retention

  // ---------------------------------------------------------------- the same directory by entries and by names

  /** The file name of an entry. */
  function FileName(e: D.Entry): R.Name {
    match e
    case Lock => Ascii(".lock")
    case Identity => Ascii("identity.txt")
    case IdentityTemp(suffix) => Ascii("identity.txt") + Ascii(".tmp.") + Ascii(suffix)
    case StateFile(step) => R.StateName(step)
    case StateTemp(step, suffix) => R.TempName(step, Ascii(suffix))
    case Candidate(epoch) => Ascii("candidate_epoch_") + R.Padded(Dec(epoch), 10) + R.Suffix
    case Other(text) => Ascii(text)
  }

  /** g is the directory f, by file names. */
  ghost predicate Named(f: D.Files, g: R.Files) {
    && (forall e :: e in f ==> FileName(e) in g && g[FileName(e)] == f[e])
    && (forall n :: n in g ==> exists e :: e in f && FileName(e) == n)
  }

  /** The directory a start leaves holds one checkpoint, the state it published. */
  lemma PublishedCheckpoint(f: D.Files, id: seq<byte>, state: seq<byte>, g: R.Files)
    requires D.Published(f, id, state) && Named(f, g)
    ensures R.Checkpoints(g) == {R.StateName(0)} && g[R.StateName(0)] == state
  {
    R.NameOfStep(0);
    OneCheckpoint(f, g, FileName, R.StateName(0));
  }

  /** Of the three names only that of the state is the name of a checkpoint. */
  lemma OneCheckpoint(f: D.Files, g: R.Files, name: D.Entry -> R.Name, first: R.Name)
    requires f.Keys == {D.Lock, D.Identity, D.StateFile(0)} && name(D.StateFile(0)) == first && R.CheckpointName(first)
    requires |name(D.Lock)| < 33 && |name(D.Identity)| < 33
    requires forall e :: e in f ==> name(e) in g && g[name(e)] == f[e]
    requires forall n :: n in g ==> exists e :: e in f && name(e) == n
    ensures R.Checkpoints(g) == {first} && first in g && g[first] == f[D.StateFile(0)]
  {
    assert D.StateFile(0) in f;
    forall n | n in R.Checkpoints(g) ensures n == first {
      var e :| e in f && name(e) == n;
    }
  }

  /** What the start of a run leaves is progress to resume from: the checkpoint of step zero. */
  lemma PublishedIsProgress(p: Plan, f: D.Files, id: seq<byte>, state: seq<byte>, g: R.Files)
    requires ValidPlan(p) && D.Published(f, id, state) && Restores(p, 0, state) && Named(f, g)
      && id == Ascii(p.start.identity)
    ensures Progress(p, g)
  {
    PublishedCheckpoint(f, id, state, g);
    assert FileName(D.Identity) == MarkerName && D.Identity in f;
    FirstCheckpoint(p, g);
  }

  method NameFiles(f: D.Files, ghost id: seq<byte>, ghost state: seq<byte>) returns (g: R.Files)
    requires D.Published(f, id, state)
    ensures Named(f, g)
  {
    var first := R.StateName(0);
    R.NameOfStep(0);
    g := map[FileName(D.Lock) := f[D.Lock], FileName(D.Identity) := f[D.Identity], first := f[D.StateFile(0)]];
    assert |FileName(D.Lock)| == 5 && |FileName(D.Identity)| == 12 && |first| == 33;
  }

  // ---------------------------------------------------------------- a run from nothing

  /** What a training process is asked for. */
  datatype Recipe = Recipe(o: Oracle, id: string, epochs: nat, seed: nat, lr: Word, decay: Word, frames: seq<nat>,
                           format: Format, speaker: nat, noise: State -> Rng, tensors: State -> seq<Source>)

  function PlanOf(r: Recipe, s: State): Plan {
    Plan(Training(r.o, r.frames), r.o, s, r.frames, r.format, r.speaker, r.noise, r.tensors)
  }

  /** The operations and the checkpoint format of a process: float laws, and tensors that fit the format along the
      run. */
  ghost predicate ValidRecipe(r: Recipe) {
    && ValidOracle(r.o) && ValidFormat(r.format, r.o)
    && forall s, k: nat :: k <= Total(s) ==> RecipeFits(r, s, k)
  }

  ghost predicate RecipeFits(r: Recipe, s: State, k: nat) {
    Begin(r.o, r.id, |r.frames|, r.epochs, r.seed, r.lr, r.decay) == Some(s) ==> FitsFormat(PlanOf(r, s), k)
  }

  /** The checks of a start: a speaker of the model, aligned clips, and a schedule whose last rate is positive. */
  predicate Checked(r: Recipe) {
    && r.speaker < Speakers && (forall i :: 0 <= i < |r.frames| ==> 32 <= r.frames[i] <= 600)
    && Begin(r.o, r.id, |r.frames|, r.epochs, r.seed, r.lr, r.decay).Some?
      && r.o.positive(Decayed(r.o, r.lr, r.decay, r.epochs))
  }

  /** A run that passes the checks has a valid plan. */
  lemma CheckedIsValid(r: Recipe, s: State)
    requires ValidRecipe(r) && Checked(r) && Begin(r.o, r.id, |r.frames|, r.epochs, r.seed, r.lr, r.decay) == Some(s)
    ensures ValidPlan(PlanOf(r, s)) && HexDigest(s.identity)
  {
    var p := PlanOf(r, s);
    BeginIsPlanned(r.o, r.id, |r.frames|, r.epochs, r.seed, r.lr, r.decay);
    StepsInEpochs(s);
    forall k: nat | k <= Total(s) ensures FitsFormat(p, k) { assert RecipeFits(r, s, k); }
    assert PlanLaws(p);
  }

  lemma StepsInEpochs(s: State)
    requires s.epochs >= 0
    ensures Total(s) >= 0
  {
  }

  lemma DigestBytes(id: string)
    requires HexDigest(id)
    ensures D.HexDigest(Ascii(id))
  {
    forall i | 0 <= i < 64 ensures D.HexByte(Ascii(id)[i]) { assert Ascii(id)[i] == id[i] as int; }
  }

  /** A run from nothing to its end. Its start may be stopped, its sessions cancelled, failed or killed, any number of
      times and anywhere; the session that is left alone finishes the schedule and makes exactly the visits of the uncut
      run from the newest checkpoint on. */
  method TrainFromNothing(r: Recipe, stops: nat, starts: (nat, nat) -> string, sessions: nat,
                          suffixes: nat -> seq<byte>, last: seq<byte>)
    returns (start: Option<State>, before: R.Files, outcome: Outcome, visits: seq<Visit>, from: nat, after: R.Files)
    requires ValidRecipe(r) && |last| == 6 && forall i :: |suffixes(i)| == 6
    ensures start.Some? <==> Checked(r)
    ensures start.Some? ==>
      && Begin(r.o, r.id, |r.frames|, r.epochs, r.seed, r.lr, r.decay) == start && ValidPlan(PlanOf(r, start.value))
      && Progress(PlanOf(r, start.value), before) && R.UpTo(before, from)
      && (Unused(before, last) ==>
        outcome == Finished && from <= Total(start.value) && visits == Uncut(PlanOf(r, start.value))[from..])
      && Progress(PlanOf(r, start.value), after)
      && (outcome == Finished ==> Total(start.value) >= 0 && R.StateName(Total(start.value)) in after)
  {
    start, before, outcome, visits, from, after := None, map[], Failed, [], 0, map[];
    if !Checked(r) { return; }
    start := Begin(r.o, r.id, |r.frames|, r.epochs, r.seed, r.lr, r.decay);
    var p := PlanOf(r, start.value);
    CheckedIsValid(r, start.value);
    DigestBytes(start.value.identity);
    var state := Content(p, start.value, 0);
    ContentSize(p, state);
    var files, attempts := D.StartUntilSaved(Ascii(start.value.identity), state, stops, starts);
    before := NameFiles(files, Ascii(start.value.identity), state);
    PublishedIsProgress(p, files, Ascii(start.value.identity), state, before);
    before, outcome, visits, from, after := TrainToEnd(p, before, sessions, suffixes, last);
  }

  /** The visits such a run makes: the first order is the shuffle of the clips as they are listed, under the generator
      of the seed; each later one is the shuffle of the one before, under the generator its crops have left. */
  lemma SeededVisits(r: Recipe, s: State, e: nat, j: nat)
    requires ValidRecipe(r) && Checked(r) && Begin(r.o, r.id, |r.frames|, r.epochs, r.seed, r.lr, r.decay) == Some(s)
    requires e < r.epochs && j < |r.frames|
    ensures ValidPlan(PlanOf(r, s)) && 0 <= e * |r.frames| + j < |Uncut(PlanOf(r, s))|
    ensures var (first, random0) := r.o.shuffle(Iota(|r.frames|), r.o.seed(r.seed));
      var (order, random) := EpochStart(r.o, r.frames, first, random0, e);
      && |order| == |r.frames|
      && Uncut(PlanOf(r, s))[e * |r.frames| + j]
        == Visit(order[j], r.o.draw(AfterCrops(r.o, r.frames, order, random, j), LastStart(r.frames, order[j])).0,
          Decayed(r.o, r.lr, r.decay, e))
  {
    var p := PlanOf(r, s);
    CheckedIsValid(r, s);
    BeginIsPlanned(r.o, r.id, |r.frames|, r.epochs, r.seed, r.lr, r.decay);
    UncutVisit(p.l, r.o, s, r.frames, e, j);
  }

  lemma ContentSize(p: Plan, content: seq<byte>)
    requires Restores(p, 0, content)
    ensures |content| <= 4 * D.Gib
  {
    assert Unseal(0);
  }

  // ---------------------------------------------------------------- the laws can be met

  /** Floats printed as the numbers of their bits. */
  function PlainText(): FloatText {
    FloatText((w: Word) => Num(w), (t: string) =>
      var n := ReadNat(t, 0xffff_ffff);
      if n.None? then None else Some(n.value.value))
  }

  function PlainBytes(): ByteFloats { ByteFloats((x: byte) => x, (w: Word) => if w < 256 then Some(w) else None) }

  /** A format without tensors besides the text. */
  function PlainFormat(): Format {
    Format(PlainText(), PlainBytes(), [], (name: string, shape: seq<CInt>, v: seq<Word>) => true)
  }

  lemma PlainFormatIsValid()
    ensures ValidFormat(PlainFormat(), PlainOracle())
  {
    forall w ensures FloatLaw(PlainText(), PlainOracle(), w) { PlainFloat(w); }
    forall x: byte ensures ByteLaw(PlainBytes(), x) {}
    assert forall shape, v :: StateAllowed(PlainFormat(), shape, v);
  }

  lemma PlainFloat(w: Word)
    ensures FloatLaw(PlainText(), PlainOracle(), w)
  {
    NatBack("", w, "", 0xffff_ffff);
    assert "" + (Num(w) + "") == Num(w);
    assert Pow10(10) == 10 * Pow10(9) && Pow10(9) == 10 * Pow10(8) && Pow10(8) == 10 * Pow10(7)
      && Pow10(7) == 10 * Pow10(6);
    NumLength(w, 10);
  }

  /** A text of any size a state can have fits a file with nothing else in it. */
  lemma TextAlone(fm: Format, o: Oracle, m: Meta)
    requires ValidFormat(fm, o) && ValidMeta(o, m) && Narrow(m.run) && fm.manifest == []
    ensures TensorsFit(fm, Snapshot(m, []))
  {
    MetaFits(fm.text, o, m);
    var text := StateBytes(fm, m);
    var state := StateSource(text, fm.bytes.up);
    StatePositive(text, fm.bytes.up);
    AllMore([], state);
    assert [] + [state] == [state];
    assert Listing([]) + [EntryAt(state, 0)] == [EntryAt(state, 0)];
    StateHeader(|text|, EntryAt(state, 0));
  }

  lemma StateHeader(n: nat, l: Listed)
    requires 0 < n <= 160 * 1024 && l == Listed("state", [n], Range(0, 4 * n))
    ensures |HeaderOf([l])| <= 200
  {
    NumSize(n);
    NumSize(0);
    NumSize(4 * n);
    assert |DimsText([n])| <= 10;
    assert |ObjectText(l.shape, l.range)| <= 120;
    assert ListText([l]) == EntryText(l);
    PadLengthIs(|['{'] + ListText([l]) + ['}']|);
  }

  /** There are operations, a format and a run of one clip that meet every demand made here. */
  lemma RecipeExists() returns (r: Recipe)
    ensures ValidRecipe(r) && Checked(r)
  {
    var s := OracleExists();
    PlainFormatIsValid();
    r := Recipe(PlainOracle(), seq(64, _ => '0'), 1, 0, One, One, [32], PlainFormat(), 0, (t: State) => t.random,
      (t: State) => []);
    forall t, k: nat | k <= Total(t) ensures RecipeFits(r, t, k) { if t == s { PlainFits(r, s, k); } }
    assert Decayed(r.o, One, One, 0) == One && Decayed(r.o, One, One, 1) == One;
  }

  lemma PlainFits(r: Recipe, s: State, k: nat)
    requires r.o == PlainOracle() && ValidOracle(r.o) && r.format == PlainFormat() && r.speaker == 0
      && r.tensors == ((t: State) => [])
    requires Planned(r.o, s) && s.step == 0 && Clips(r.frames, s) && k <= Total(s)
    ensures FitsFormat(PlanOf(r, s), k)
  {
    PlainFormatIsValid();
    var p := PlanOf(r, s);
    var t := At(p, k);
    RunKeeps(p.l, p.o, s, r.frames, k);
    if Printable(t) {
      ParseSerialized(r.format.text, r.o, t);
      SerializedNarrow(r.format.text, r.o, t);
      TotalBound(s.epochs, |s.order|);
      TextAlone(r.format, r.o, SnapshotOf(p, t).meta);
    }
  }
}
