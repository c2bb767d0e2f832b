/** A whole training run over its checkpoint directory: sessions that may be cancelled or killed anywhere, each
    resumed from the newest checkpoint it finds. */
module TrainingCampaign {
  import opened Spools
  import opened Bytes
  import opened Disks
  import opened RunState
  import opened RunText
  import opened SafetensorsWriters
  import opened CheckpointText
  import opened JointState
  import TrainingRun
  import R = Retention

  /** A run from its first step: the loop, the operations it uses, its initial state and the lengths of its clips; and
      what the trainer adds to its checkpoints, as it stands at each state of the run. */
  datatype Plan = Plan(l: Loop<State, Visit>, o: Oracle, start: State, frames: seq<nat>,
                       format: Format, speaker: nat, noise: State -> Rng, tensors: State -> seq<Source>)

  predicate Printable(s: State) {
    s.epochs >= 0 && s.step >= 0 && |s.order| > 0 && forall i :: 0 <= i < |s.order| ==> s.order[i] >= 0
  }

  /** What a save of the state puts into its checkpoint. */
  function SnapshotOf(p: Plan, s: State): Snapshot
    requires Printable(s)
  {
    Snapshot(Meta(p.speaker, s.step, Rate(p.o, s), p.noise(s), Serialized(p.format.text, s)), p.tensors(s))
  }

  /** The trainer's tensors fit the checkpoint format after k steps. */
  ghost predicate FitsFormat(p: Plan, k: nat) { Printable(At(p, k)) ==> TensorsFit(p.format, SnapshotOf(p, At(p, k))) }

  /** A sealed fact is taken apart only where some Unseal term is written down. */
  ghost predicate Unseal(k: int) { true }

  ghost predicate ValidPlan(p: Plan) {
    Total(p.start) >= 0 && forall u {:trigger Unseal(u)} :: Unseal(u) ==> PlanLaws(p)
  }

  ghost predicate PlanLaws(p: Plan) {
    && ValidOracle(p.o) && ValidFormat(p.format, p.o) && p.speaker < Speakers
      && (forall k: nat :: k <= Total(p.start) ==> FitsFormat(p, k))
    && Planned(p.o, p.start) && p.start.step == 0 && Clips(p.frames, p.start) && Turns(p.l, p.o, p.frames)
  }

  /** The state after k steps, and everything the uncut run visits. */
  ghost function At(p: Plan, k: nat): State { Run(p.l, p.start, k) }

  ghost function Uncut(p: Plan): seq<Visit>
    requires ValidPlan(p)
  {
    Trace(p.l, p.start, Total(p.start))
  }

  /** The bytes restore to what the run saves after k steps. */
  ghost predicate Restores(p: Plan, k: nat, content: seq<byte>) {
    k <= Total(p.start) && forall u {:trigger Unseal(u)} :: Unseal(u) ==>
      Printable(At(p, k)) && Restored(p.format, p.o, content) == Some(SnapshotOf(p, At(p, k)))
  }

  /** f[n] is the checkpoint of the step in its name. */
  ghost predicate True(p: Plan, f: R.Files, n: R.Name)
    requires n in f && R.CheckpointName(n)
  {
    Restores(p, R.StepOf(n), f[n])
  }

  const MarkerName: R.Name := Ascii("identity.txt")

  function MarkerTemp(suffix: seq<byte>): R.Name { MarkerName + Ascii(".tmp.") + suffix }

  /** The marker of a run: its identity and a line end. */
  function MarkerOf(p: Plan): seq<byte> { Ascii(p.start.identity) + [10] }

  ghost predicate Marked(p: Plan, f: R.Files) { MarkerName in f ==> f[MarkerName] == MarkerOf(p) }

  /** There is a checkpoint, every one is true to this run, and so is the marker. */
  ghost predicate Progress(p: Plan, f: R.Files) {
    R.Checkpoints(f) != {} && Marked(p, f) && forall n :: n in R.Checkpoints(f) ==> True(p, f, n)
  }

  ghost predicate ProgressSince(p: Plan, history: seq<R.Files>, from: nat) {
    forall i :: from <= i < |history| ==> Progress(p, history[i])
  }

  // ---------------------------------------------------------------- the states of a run

  lemma StateAt(p: Plan, k: nat)
    requires ValidPlan(p) && k <= Total(p.start)
    ensures var s := At(p, k);
      && Planned(p.o, s) && Clips(p.frames, s) && Printable(s) && Continues(p.start, s, k) && Total(s) == Total(p.start)
      && s.step == k < 0x7fff_ffff
  {
    assert Unseal(0);
    RunKeeps(p.l, p.o, p.start, p.frames, k);
    OrderValues(p.o, At(p, k));
    TotalBound(p.start.epochs, |p.start.order|);
  }

  lemma TotalBound(epochs: int, clips: int)
    requires 0 <= epochs <= 2000 && 0 <= clips <= 4096
    ensures epochs * clips <= 8_192_000
  {
    Times(epochs, 2000, clips);
  }

  /** Every state of the run can be saved, and what is saved of it is the state itself. */
  lemma StateSaved(p: Plan, k: nat)
    requires ValidPlan(p) && k <= Total(p.start)
    ensures Printable(At(p, k)) && Saveable(p.format, p.o, SnapshotOf(p, At(p, k)))
    ensures Parsed(p.format.text, p.o, SnapshotOf(p, At(p, k)).meta.run) == Some(At(p, k))
  {
    StateAt(p, k);
    assert Unseal(0);
    var s := At(p, k);
    ParseSerialized(p.format.text, p.o, s);
    SerializedNarrow(p.format.text, p.o, s);
    assert FitsFormat(p, k);
  }

  // ---------------------------------------------------------------- saving keeps progress

  lemma {:induction false} Highest(f: R.Files, names: set<R.Name>) returns (high: R.Name)
    requires names != {} && names <= R.Checkpoints(f)
    ensures high in names && forall n :: n in names ==> R.StepOf(n) <= R.StepOf(high)
    decreases |names|
  {
    high :| high in names;
    if names != {high} {
      var rest := Highest(f, names - {high});
      if R.StepOf(rest) > R.StepOf(high) { high := rest; }
    }
  }

  /** At every moment of a save of the state at step k the directory keeps a checkpoint, and only true ones. */
  lemma SaveKeepsProgress(p: Plan, f0: R.Files, k: nat, suffix: seq<byte>, content: seq<byte>, f: R.Files)
    requires ValidPlan(p) && |suffix| == 6 && Progress(p, f0) && Restores(p, k, content)
    requires R.Saving(f0, k, suffix, content, f)
    ensures Progress(p, f)
  {
    StateAt(p, k);
    R.NameOfStep(k);
    var newest := Highest(f0, R.Checkpoints(f0));
    assert R.Newer(f0, R.StepOf(newest)) == {} by {
      assert forall n :: n in R.Newer(f0, R.StepOf(newest)) ==> n in R.Checkpoints(f0);
    }
    R.NewestSurvives(f0, k, suffix, content, f, newest);
    assert newest in R.Checkpoints(f);
    R.OtherKept(f0, k, suffix, content, f, MarkerName);
    forall n | n in R.Checkpoints(f) ensures True(p, f, n) {
      R.SavedOrKept(f0, k, suffix, content, f, n);
      assert n in R.Checkpoints(f0) ==> True(p, f0, n);
    }
  }

  // ---------------------------------------------------------------- one session

  /** The temporary names of a process are free. */
  ghost predicate Unused(f: R.Files, suffix: seq<byte>) {
    MarkerTemp(suffix) !in f && forall n :: n in f ==> |n| != 44 || n[38..] != suffix
  }

  lemma StaysUnused(f0: R.Files, k: nat, content: seq<byte>, suffix: seq<byte>, g: R.Files)
    requires Unused(f0, suffix) && |suffix| == 6 && k < 0x8000_0000 && R.Pruned(f0[R.StateName(k) := content], g)
    ensures Unused(g, suffix)
  {
    R.NameOfStep(k);
    assert |MarkerTemp(suffix)| == 23;
  }

  lemma TempIsFree(f: R.Files, suffix: seq<byte>, k: nat)
    requires Unused(f, suffix) && |suffix| == 6 && k < 0x8000_0000
    ensures R.TempName(k, suffix) !in f
  {
    R.NameOfStep(k);
    var n := R.TempName(k, suffix);
    assert |n| == 44 && n[38..] == suffix;
  }

  // ---------------------------------------------------------------- the marker

  /** `std::getline`. */
  function FirstLine(text: seq<byte>): seq<byte> {
    if |text| == 0 || text[0] == 10 then [] else [text[0]] + FirstLine(text[1..])
  }

  lemma {:induction false} LineBack(line: seq<byte>)
    requires 10 !in line
    ensures FirstLine(line + [10]) == line
    decreases |line|
  {
    if |line| > 0 {
      assert (line + [10])[1..] == line[1..] + [10];
      LineBack(line[1..]);
      assert line == [line[0]] + line[1..];
    }
  }

  /** A marker that is there names this run. */
  predicate MarkerAgrees(p: Plan, f: R.Files) {
    MarkerName in f ==> |f[MarkerName]| <= 128 && FirstLine(f[MarkerName]) == Ascii(p.start.identity)
  }

  lemma MarkedAgrees(p: Plan, f: R.Files)
    requires ValidPlan(p) && Marked(p, f)
    ensures MarkerAgrees(p, f)
  {
    StateAt(p, 0);
    var id := p.start.identity;
    assert At(p, 0) == p.start && HexDigest(id);
    forall i | 0 <= i < |id| ensures Ascii(id)[i] != 10 { assert Ascii(id)[i] == id[i] as int; }
    LineBack(Ascii(id));
  }

  /** At every moment of rewriting the marker the checkpoints stand, and the marker names this run. */
  lemma MarkerKeeps(p: Plan, f0: R.Files, suffix: seq<byte>, f: R.Files)
    requires Progress(p, f0) && |suffix| == 6 && Replacing(f0, MarkerTemp(suffix), MarkerName, MarkerOf(p), f)
    ensures Progress(p, f) && R.Checkpoints(f) == R.Checkpoints(f0)
  {
    assert |MarkerTemp(suffix)| == 23 && |MarkerName| == 12;
    forall n ensures n in R.Checkpoints(f) <==> n in R.Checkpoints(f0) {}
    forall n | n in R.Checkpoints(f) ensures True(p, f, n) { assert n in R.Checkpoints(f0) && True(p, f0, n); }
  }

  lemma MarkerSince(p: Plan, f0: R.Files, suffix: seq<byte>, history: seq<R.Files>, from: nat)
    requires Progress(p, f0) && |suffix| == 6 && ReplacingSince(history, from, f0, MarkerTemp(suffix), MarkerName,
      MarkerOf(p))
    ensures ProgressSince(p, history, from)
  {
    forall i | from <= i < |history| ensures Progress(p, history[i]) { MarkerKeeps(p, f0, suffix, history[i]); }
  }

  /** Every session writes the marker anew. */
  method WriteMarker(p: Plan, disk: Disk<R.Name>, suffix: seq<byte>) returns (ok: bool)
    requires |suffix| == 6 && disk.Valid() && Progress(p, disk.files)
    modifies disk
    ensures disk.Valid() && old(disk.history) <= disk.history && ProgressSince(p, disk.history, |old(disk.history)|)
    ensures Progress(p, disk.files) && R.Checkpoints(disk.files) == R.Checkpoints(old(disk.files))
    ensures ok ==> MarkerName in disk.files && (Unused(old(disk.files), suffix) ==> Unused(disk.files, suffix))
    ensures !ok ==> disk.mayFail || !Unused(old(disk.files), suffix)
  {
    ghost var f0, h0 := disk.files, disk.history;
    assert |MarkerTemp(suffix)| == 23 && |MarkerName| == 12;
    ok := ReplaceFile(disk, MarkerTemp(suffix), MarkerName, MarkerOf(p), false);
    MarkerKeeps(p, f0, suffix, disk.files);
    MarkerSince(p, f0, suffix, disk.history, |h0|);
  }

  /** The newest checkpoint, and the state it holds. */
  method LoadNewest(p: Plan, f: R.Files) returns (s: State, k: nat)
    requires ValidPlan(p) && Progress(p, f)
    ensures k <= Total(p.start) && s == At(p, k) && R.UpTo(f, k)
    ensures exists n :: n in R.Checkpoints(f) && R.StepOf(n) == k
  {
    var names := R.SortedCheckpoints(f);
    LastIsNewest(f, names);
    var n := names[|names| - 1];
    assert True(p, f, n);
    k := R.StepOf(n);
    StateSaved(p, k);
    assert Unseal(0);
    var sn := Restore(p.format, p.o, f[n]);
    var parsed := TrainingRun.Parse(p.format.text, p.o, sn.value.meta.run);
    s := parsed.value;
    StateAt(p, k);
    assert SameRun(p, s, sn.value.meta);
  }

  /** The checks of a resume: the same dataset, recipe, step and learning rate. */
  predicate SameRun(p: Plan, s: State, m: Meta) {
    && s.identity == p.start.identity && s.epochs == p.start.epochs && |s.order| == |p.start.order| && |s.order| > 0
      && s.step >= 0
    && s.lr == p.start.lr && s.decay == p.start.decay && s.step == m.steps && Rate(p.o, s) == m.lr
  }

  lemma LastIsNewest(f: R.Files, names: seq<R.Name>)
    requires R.Increasing(names) && (set n | n in names) == R.Checkpoints(f) != {}
    ensures names != [] && names[|names| - 1] in R.Checkpoints(f) && R.UpTo(f, R.StepOf(names[|names| - 1]))
  {
    var one :| one in R.Checkpoints(f);
    assert one in names;
    var last := names[|names| - 1];
    assert last in names;
    forall m | m in R.Checkpoints(f) ensures R.StepOf(m) <= R.StepOf(last) {
      assert m in names;
      var i :| 0 <= i < |names| && names[i] == m;
    }
  }

  /** The content of a save: a file that restores to the state it was made of. */
  method Content(p: Plan, s: State, ghost k: nat) returns (content: seq<byte>)
    requires ValidPlan(p) && k <= Total(p.start) && s == At(p, k)
    ensures Restores(p, k, content)
  {
    StateAt(p, k);
    StateSaved(p, k);
    assert Unseal(0);
    var file := Save(p.format, p.o, SnapshotOf(p, s));
    content := file.value;
  }

  /** Every state since the save began keeps progress. */
  lemma SavesKeepProgress(p: Plan, f0: R.Files, k: nat, suffix: seq<byte>, content: seq<byte>, history: seq<R.Files>,
                          from: nat)
    requires ValidPlan(p) && |suffix| == 6 && Progress(p, f0) && Restores(p, k, content)
    requires R.SavingSince(history, from, f0, k, suffix, content)
    ensures ProgressSince(p, history, from)
  {
    forall i | from <= i < |history| ensures Progress(p, history[i]) {
      SaveKeepsProgress(p, f0, k, suffix, content, history[i]);
    }
  }

  /** A save within a session. */
  method SaveAt(p: Plan, disk: Disk<R.Name>, s: State, ghost k: nat, suffix: seq<byte>) returns (ok: bool)
    requires ValidPlan(p) && k <= Total(p.start) && s == At(p, k) && |suffix| == 6
    requires disk.Valid() && Progress(p, disk.files) && R.UpTo(disk.files, k)
    modifies disk
    ensures disk.Valid() && old(disk.history) <= disk.history && ProgressSince(p, disk.history, |old(disk.history)|)
    ensures Progress(p, disk.files)
    ensures ok ==> R.UpTo(disk.files, k) && R.StateName(k) in disk.files && |R.Checkpoints(disk.files)| <= 2
    ensures ok && Unused(old(disk.files), suffix) ==> Unused(disk.files, suffix)
    ensures !ok ==> disk.mayFail || !Unused(old(disk.files), suffix)
  {
    ghost var f0, h0 := disk.files, disk.history;
    StateAt(p, k);
    var content := Content(p, s, k);
    if Unused(f0, suffix) { TempIsFree(f0, suffix, k); }
    ok := R.SaveState(disk, s.step, content, suffix);
    SaveKeepsProgress(p, f0, k, suffix, content, disk.files);
    SavesKeepProgress(p, f0, k, suffix, content, disk.history, |h0|);
    if ok {
      R.InOrderIsKept(f0, k, k, content, disk.files);
      if Unused(f0, suffix) { StaysUnused(f0, k, content, suffix, disk.files); }
    }
  }

  datatype Outcome = Finished | Stopped | Failed

  /** The states of a session so far: the run stands at step k, having visited what the uncut run visits from `from`
      on. */
  ghost predicate UnderWay(p: Plan, disk: Disk<R.Name>, s: State, from: nat, k: nat, visits: seq<Visit>)
    reads disk
    requires ValidPlan(p)
  {
    && from <= k <= Total(p.start) && s == At(p, k) && disk.Valid() && Progress(p, disk.files) && R.UpTo(disk.files, k)
    && visits == Uncut(p)[from..k]
  }

  /** What a session has done when it ends at step k. */
  ghost predicate Ended(p: Plan, disk: Disk<R.Name>, from: nat, k: nat, visits: seq<Visit>)
    reads disk
    requires ValidPlan(p)
  {
    from <= k <= Total(p.start) && disk.Valid() && Progress(p, disk.files) && visits == Uncut(p)[from..k]
  }

  /** One training process: it checks the marker, restores the newest checkpoint, writes the marker anew and trains on,
      saving every fifth epoch and at the end; when it is cancelled it saves where it stands. */
  method Session(p: Plan, disk: Disk<R.Name>, suffix: seq<byte>, mayCancel: bool)
    returns (outcome: Outcome, visits: seq<Visit>, from: nat, ghost k: nat)
    requires ValidPlan(p) && |suffix| == 6 && disk.Valid() && Progress(p, disk.files)
    modifies disk
    ensures old(disk.history) <= disk.history && ProgressSince(p, disk.history, |old(disk.history)|)
      && Ended(p, disk, from, k, visits)
    ensures R.UpTo(old(disk.files), from) && exists n :: n in R.Checkpoints(old(disk.files)) && R.StepOf(n) == from
    ensures outcome == Finished ==> k == Total(p.start) && R.StateName(k) in disk.files
    ensures outcome == Stopped ==> mayCancel && R.StateName(k) in disk.files
    ensures outcome == Failed ==> disk.mayFail || !Unused(old(disk.files), suffix)
  {
    ghost var h0, f0 := disk.history, disk.files;
    MarkedAgrees(p, f0);
    var agrees := MarkerAgrees(p, disk.files);
    var restored;
    restored, from := LoadNewest(p, disk.files);
    visits, k := [], from;
    outcome := Failed;
    if !agrees { return; }
    var run := new TrainingRun.Run.Restore(p.o, restored);
    var ok := WriteMarker(p, disk, suffix);
    if !ok { return; }
    ghost var h1 := disk.history;
    StillUpTo(f0, disk.files, from);
    StillThere(p, f0, disk.files, from);
    outcome, visits, k := TrainOn(p, disk, run, suffix, mayCancel, from);
    SinceJoin(p, h0, h1, disk.history);
  }

  lemma StillUpTo(f0: R.Files, f: R.Files, k: nat)
    requires R.UpTo(f0, k) && R.Checkpoints(f) == R.Checkpoints(f0)
    ensures R.UpTo(f, k)
  {
  }

  lemma StillThere(p: Plan, f0: R.Files, f: R.Files, k: nat)
    requires ValidPlan(p) && k <= Total(p.start) && R.Checkpoints(f) == R.Checkpoints(f0)
    requires exists n :: n in R.Checkpoints(f0) && R.StepOf(n) == k
    ensures R.StateName(k) in f
  {
    var n :| n in R.Checkpoints(f0) && R.StepOf(n) == k;
    StateAt(p, k);
    R.NameOfStep(k);
    R.NameOrder(n, R.StateName(k));
    assert n in R.Checkpoints(f);
  }

  /** The training loop. */
  method TrainOn(p: Plan, disk: Disk<R.Name>, run: TrainingRun.Run, suffix: seq<byte>, mayCancel: bool, ghost from: nat)
    returns (outcome: Outcome, visits: seq<Visit>, ghost k: nat)
    requires ValidPlan(p) && |suffix| == 6 && run.oracle == p.o && UnderWay(p, disk, run.Value(), from, from, [])
    requires R.StateName(from) in disk.files
    modifies disk, run
    ensures old(disk.history) <= disk.history && ProgressSince(p, disk.history, |old(disk.history)|)
      && Ended(p, disk, from, k, visits)
    ensures outcome == Finished ==> k == Total(p.start) && R.StateName(k) in disk.files
    ensures outcome == Stopped ==> mayCancel && R.StateName(k) in disk.files
    ensures outcome == Failed ==> disk.mayFail || !Unused(old(disk.files), suffix)
  {
    ghost var h0, free, total := disk.history, Unused(disk.files, suffix), Total(p.start);
    visits, k := [], from;
    var done := IsDone(p, run, k);
    while !done
      invariant UnderWay(p, disk, run.Value(), from, k, visits) && run.oracle == p.o && (done <==> k == total)
      invariant h0 <= disk.history && ProgressSince(p, disk.history, |h0|) && (free ==> Unused(disk.files, suffix))
      invariant k == total ==> R.StateName(k) in disk.files
      decreases total - k
    {
      ghost var h1 := disk.history;
      var end;
      end, visits, k := LoopBody(p, disk, run, suffix, mayCancel, from, k, visits);
      SinceJoin(p, h0, h1, disk.history);
      if end.Some? { return end.value, visits, k; }
      done := IsDone(p, run, k);
    }
    ghost var h1 := disk.history;
    outcome := LastPoll(p, disk, run, suffix, mayCancel, k);
    SinceJoin(p, h0, h1, disk.history);
  }

  /** The poll behind the loop: a cancelled run saves once more. */
  method LastPoll(p: Plan, disk: Disk<R.Name>, run: TrainingRun.Run, suffix: seq<byte>, mayCancel: bool, ghost k: nat)
    returns (outcome: Outcome)
    requires ValidPlan(p) && |suffix| == 6 && k == Total(p.start) && run.Value() == At(p, k)
    requires disk.Valid() && Progress(p, disk.files) && R.UpTo(disk.files, k)
    modifies disk
    ensures disk.Valid() && old(disk.history) <= disk.history && ProgressSince(p, disk.history, |old(disk.history)|)
    ensures Progress(p, disk.files)
    ensures outcome == Finished ==> disk.files == old(disk.files)
    ensures outcome == Stopped ==> mayCancel && R.StateName(k) in disk.files
    ensures outcome == Failed ==> disk.mayFail || !Unused(old(disk.files), suffix)
  {
    var cancelled := false;
    if mayCancel { cancelled := *; }
    if !cancelled { return Finished; }
    var saved := SaveAt(p, disk, run.Value(), k, suffix);
    outcome := if saved then Stopped else Failed;
  }

  /** One pass of the loop: the poll, and the turn unless the run is cancelled there. */
  method LoopBody(p: Plan, disk: Disk<R.Name>, run: TrainingRun.Run, suffix: seq<byte>, mayCancel: bool,
                  ghost from: nat, ghost k0: nat, visits0: seq<Visit>)
    returns (end: Option<Outcome>, visits: seq<Visit>, ghost k: nat)
    requires ValidPlan(p) && |suffix| == 6 && k0 < Total(p.start) && run.oracle == p.o
    requires UnderWay(p, disk, run.Value(), from, k0, visits0)
    modifies disk, run
    ensures old(disk.history) <= disk.history && ProgressSince(p, disk.history, |old(disk.history)|)
      && Ended(p, disk, from, k, visits)
    ensures end.None? ==> k == k0 + 1 && UnderWay(p, disk, run.Value(), from, k, visits)
    ensures end.None? && Unused(old(disk.files), suffix) ==> Unused(disk.files, suffix)
    ensures end.None? && k == Total(p.start) ==> R.StateName(k) in disk.files
    ensures end != Some(Finished)
    ensures end == Some(Stopped) ==> mayCancel && R.StateName(k) in disk.files
    ensures end == Some(Failed) ==> disk.mayFail || !Unused(old(disk.files), suffix)
  {
    var cancelled := false;
    if mayCancel { cancelled := *; }
    var saved;
    if cancelled {
      visits, k := visits0, k0;
      saved := SaveAt(p, disk, run.Value(), k, suffix);
      end := Some(if saved then Stopped else Failed);
    } else {
      k := k0 + 1;
      LastIsDue(p);
      saved, visits := TurnAndSave(p, disk, run, suffix, from, k0, visits0);
      end := if saved then None else Some(Failed);
    }
  }

  method IsDone(p: Plan, run: TrainingRun.Run, ghost k: nat) returns (done: bool)
    requires ValidPlan(p) && k <= Total(p.start) && run.Value() == At(p, k)
    ensures done <==> k == Total(p.start)
  {
    StateAt(p, k);
    done := run.step == run.epochs * |run.order|;
  }

  /** One turn of the training loop: the next visit of the uncut run. */
  method TurnOnce(p: Plan, run: TrainingRun.Run, ghost from: nat, ghost k: nat, ghost visits: seq<Visit>)
    returns (visit: Visit)
    requires ValidPlan(p) && from <= k < Total(p.start) && run.oracle == p.o && run.Value() == At(p, k)
      && visits == Uncut(p)[from..k]
    modifies run
    ensures run.Value() == At(p, k + 1) && visits + [visit] == Uncut(p)[from..k + 1]
  {
    StateAt(p, k);
    ghost var now := run.Value();
    assert Unseal(0);
    visit := run.Turn(p.frames);
    VisitAt(p, k, now, visit, run.Value(), from, visits);
  }

  /** A checkpoint is due behind every fifth epoch and behind the last. */
  ghost predicate Due(p: Plan, k: nat)
    requires ValidPlan(p)
  {
    exists e: nat :: DueBehind(|p.start.order|, p.start.epochs, k, e)
  }

  /** Step k is the end of the first e epochs, and e one of those numbers. */
  predicate DueBehind(n: nat, epochs: int, k: nat, e: nat) { k == e * n && (e % 5 == 0 || e == epochs) }

  /** One turn of the training loop, and the save that is due after it. */
  method TurnAndSave(p: Plan, disk: Disk<R.Name>, run: TrainingRun.Run, suffix: seq<byte>, ghost from: nat,
                     ghost k: nat, visits0: seq<Visit>)
    returns (ok: bool, visits: seq<Visit>)
    requires ValidPlan(p) && |suffix| == 6 && k < Total(p.start) && run.oracle == p.o
    requires UnderWay(p, disk, run.Value(), from, k, visits0)
    modifies disk, run
    ensures disk.Valid() && old(disk.history) <= disk.history && ProgressSince(p, disk.history, |old(disk.history)|)
    ensures Progress(p, disk.files) && |visits| == |visits0| + 1 && visits == Uncut(p)[from..k + 1]
    ensures ok ==>
      UnderWay(p, disk, run.Value(), from, k + 1, visits)
      && (Unused(old(disk.files), suffix) ==> Unused(disk.files, suffix))
    ensures ok && Due(p, k + 1) ==> R.StateName(k + 1) in disk.files
    ensures ok && !Due(p, k + 1) ==> disk.history == old(disk.history)
    ensures !ok ==> disk.mayFail || !Unused(old(disk.files), suffix)
  {
    var visit := TurnOnce(p, run, from, k, visits0);
    visits := visits0 + [visit];
    StateAt(p, k + 1);
    UpToMore(disk.files, k);
    ok := true;
    DueAt(p, k + 1);
    if run.step % |run.order| == 0 && (run.step / |run.order| % 5 == 0 || run.step == run.epochs * |run.order|) {
      ok := SaveAt(p, disk, run.Value(), k + 1, suffix);
    }
  }

  lemma DueAt(p: Plan, k: nat)
    requires ValidPlan(p) && k <= Total(p.start)
    ensures var s := At(p, k);
      |s.order| > 0
      && (Due(p, k) <==> k % |s.order| == 0 && (k / |s.order| % 5 == 0 || k == s.epochs * |s.order|))
  {
    StateAt(p, k);
    var n, epochs := |p.start.order|, p.start.epochs;
    forall e: nat | DueBehind(n, epochs, k, e)
      ensures k % n == 0 && (k / n % 5 == 0 || k == epochs * n)
    {
      DueStep(n, epochs, k, e);
    }
    if k % n == 0 {
      var e: nat := k / n;
      assert k == e * n;
      DueStep(n, epochs, k, e);
    }
  }

  lemma DueStep(n: nat, epochs: int, k: nat, e: nat)
    requires n > 0 && k == e * n
    ensures k % n == 0 && k / n == e
    ensures DueBehind(n, epochs, k, e) <==> k / n % 5 == 0 || k == epochs * n
  {
    SlotInEpoch(e, 0, n);
    EpochsLeft(e, epochs, n);
  }

  lemma LastIsDue(p: Plan)
    requires ValidPlan(p)
    ensures Due(p, Total(p.start))
  {
    StateAt(p, 0);
    assert DueBehind(|p.start.order|, p.start.epochs, Total(p.start), p.start.epochs);
  }

  lemma UpToMore(f: R.Files, k: nat)
    requires R.UpTo(f, k)
    ensures R.UpTo(f, k + 1)
  {
  }

  lemma SinceJoin(p: Plan, h0: seq<R.Files>, h1: seq<R.Files>, h2: seq<R.Files>)
    requires h0 <= h1 <= h2 && ProgressSince(p, h1, |h0|) && ProgressSince(p, h2, |h1|)
    ensures ProgressSince(p, h2, |h0|)
  {
    forall i | |h0| <= i < |h2| ensures Progress(p, h2[i]) { if i < |h1| { assert h1[i] == h2[i]; } }
  }

  /** A turn of the loop is the next visit of the uncut run. */
  lemma VisitAt(p: Plan, k: nat, now: State, visit: Visit, after: State, from: nat, visits: seq<Visit>)
    requires ValidPlan(p) && from <= k < Total(p.start) && now == At(p, k) && visits == Uncut(p)[from..k]
    requires Shaped(p.o, now) && !Done(now) && Clips(p.frames, now)
    requires visit == VisitOf(p.o, now, p.frames) && after == Next(p.o, now, p.frames)
    ensures after == At(p, k + 1) && visits + [visit] == Uncut(p)[from..k + 1]
  {
    assert Unseal(0);
    assert TurnsAt(p.l, p.o, p.frames, now);
    TraceAt(p.l, p.start, Total(p.start), k);
    assert Uncut(p)[from..k + 1] == Uncut(p)[from..k] + [Uncut(p)[k]];
  }

  // ---------------------------------------------------------------- any number of sessions

  /** The first checkpoint of a run is its initial state. */
  lemma FirstCheckpoint(p: Plan, f: R.Files)
    requires ValidPlan(p) && R.Checkpoints(f) == {R.StateName(0)} && Restores(p, 0, f[R.StateName(0)]) && Marked(p, f)
    ensures Progress(p, f)
  {
    R.NameOfStep(0);
    OnlyCheckpoint(p, f, R.StateName(0));
  }

  lemma OnlyCheckpoint(p: Plan, f: R.Files, first: R.Name)
    requires R.Checkpoints(f) == {first} && R.StepOf(first) == 0 && Restores(p, 0, f[first]) && Marked(p, f)
    ensures Progress(p, f)
  {
    assert first in R.Checkpoints(f);
    forall n | n in R.Checkpoints(f) ensures True(p, f, n) { assert n == first; }
  }

  /** A session killed in any state its directory goes through leaves a directory to resume from. */
  method KilledSession(p: Plan, files: R.Files, suffix: seq<byte>) returns (left: R.Files)
    requires ValidPlan(p) && |suffix| == 6 && Progress(p, files)
    ensures Progress(p, left)
  {
    var disk := new Disk<R.Name>(files, true);
    ghost var h0 := disk.history;
    var outcome, visits, from, k := Session(p, disk, suffix, true);
    var at: nat :| at < |disk.history|;
    left := disk.history[at];
    assert disk.history[0] == h0[0] == files;
  }

  /** After any number of sessions, each cancelled, failed or killed anywhere, one that is left alone restores some step
      of the run and visits exactly what the uncut run visits from there to its end. */
  method TrainToEnd(p: Plan, files: R.Files, sessions: nat, suffixes: nat -> seq<byte>, last: seq<byte>)
    returns (before: R.Files, outcome: Outcome, visits: seq<Visit>, from: nat, after: R.Files)
    requires ValidPlan(p) && Progress(p, files) && |last| == 6 && forall i :: |suffixes(i)| == 6
    ensures Progress(p, before) && R.UpTo(before, from) && exists n :: n in R.Checkpoints(before) && R.StepOf(n) == from
    ensures Unused(before, last) ==> outcome == Finished && from <= Total(p.start) && visits == Uncut(p)[from..]
    ensures Progress(p, after) && (outcome == Finished ==> R.StateName(Total(p.start)) in after)
  {
    before := files;
    for i := 0 to sessions
      invariant Progress(p, before)
    {
      before := KilledSession(p, before, suffixes(i));
    }
    var disk := new Disk<R.Name>(before, false);
    ghost var k;
    outcome, visits, from, k := Session(p, disk, last, false);
    after := disk.files;
  }
}
