/** Whole attempts, and any sequence of attempts that are paused, fail or are killed at any step. */
module Campaign {
  import opened Spools
  import opened Bytes
  import opened StoreFiles
  import opened Disks
  import opened BlockCheckpoints
  import opened TrueStore
  import opened ConversionJob
  import opened Conversion
  import opened CheckpointedRun
  import Quiet = QuietCores

  // ---------------------------------------------------------------- the planner drives the cores

  /** The planner has handed out the first i cores. */
  ghost predicate PlannerAt(p: Quiet.Planner<Word>, bounds: seq<nat>, i: nat)
    reads p, p.source
  {
    p.Valid() && i < |bounds| && p.previous == bounds[i] && p.Pending() == bounds[i + 1..]
  }

  method NextCore(p: Quiet.Planner<Word>, ghost bounds: seq<nat>, ghost i: nat) returns (step: Quiet.Step)
    requires PlannerAt(p, bounds, i)
    modifies p
    ensures step.Done? ==> i + 1 == |bounds|
    ensures step.Failed? ==> i + 1 < |bounds| && bounds[i + 1] - bounds[i] > p.hardCore
    ensures step.Core? ==>
      CoreAt(bounds, i, step.start, step.end) && step.end - step.start <= p.hardCore && PlannerAt(p, bounds, i + 1)
  {
    step := p.Next();
    assert i + 1 < |bounds| ==> bounds[i + 1..][1..] == bounds[i + 1 + 1..];
  }

  method StartPlanner(job: Job, source: Spool<Word>) returns (p: Quiet.Planner<Word>)
    requires ValidJob(job) && source.samples == job.source
    ensures fresh(p) && p.source == source && p.hardCore == job.config.hardCore && PlannerAt(p, JobBounds(job), 0)
  {
    p := new Quiet.Planner(job.meter, source, job.config.chunk, job.config.query, job.config.hardCore);
    assert ([0] + p.Pending())[1..] == p.Pending();
  }

  /** The next core of the plan, if there is one. */
  method NextStep(job: Job, p: Quiet.Planner<Word>, raw: Spool<Word>, f0: Spool<Word>, out: Spool<Word>,
                  store: BlockCheckpoint?, ghost truth: Truth, mayPause: bool, ghost bounds: seq<nat>, ghost i: nat,
                  ghost rest: nat -> Option<seq<Word>>)
    returns (s: CheckpointedRun.Step, done: bool)
    requires ValidJob(job) && p.source.samples == job.source && p.hardCore == job.config.hardCore
    requires p.source !in {p, out} + Touched(store) && raw !in {p, out} + Touched(store)
      && f0 !in {p, out} + Touched(store)
    requires p !in {out} + Touched(store) && out !in Touched(store)
    requires Prepared(truth, job, store) && CoresReady(truth, job, raw.samples, f0.samples, bounds, rest)
    requires PlannerAt(p, bounds, i) && |out.samples| == OutPos(bounds[i])
    modifies p, out, Touched(store)
    ensures s.Advanced? ==> Prepared(truth, job, store)
    ensures s.Advanced? && done ==> rest(i) == Some([]) && out.samples == old(out.samples)
    ensures s.Advanced? && !done ==>
      && PlannerAt(p, bounds, i + 1) && |out.samples| == OutPos(bounds[i + 1])
      && Append(out.samples, rest(i + 1)) == Append(old(out.samples), rest(i))
    ensures s.Failed? && Reliable(truth, store) ==> rest(i).None?
    ensures s.PausedRun? ==> mayPause && store != null
    ensures KeptGood(truth, store, old(HistoryOf(store)))
  {
    done := false;
    KeptStart(truth, job, store);
    var step := NextCore(p, bounds, i);
    if step.Done? {
      CoresEnd(rest, job, raw.samples, f0.samples, bounds, i);
      return Advanced, true;
    }
    if step.Failed? {
      CoresStep(rest, job, raw.samples, f0.samples, bounds, i, bounds[i], bounds[i + 1]);
      return CheckpointedRun.Failed, false;
    }
    s := CoreStep(job, p.source, raw, f0, out, store, truth, mayPause, bounds, i, step.start, step.end, rest);
  }

  /** All cores in order. */
  method SynthesizeAll(job: Job, p: Quiet.Planner<Word>, raw: Spool<Word>, f0: Spool<Word>, out: Spool<Word>,
                       store: BlockCheckpoint?, ghost truth: Truth, mayPause: bool, ghost bounds: seq<nat>,
                       ghost rest: nat -> Option<seq<Word>>)
    returns (s: CheckpointedRun.Step)
    requires ValidJob(job) && p.source.samples == job.source && p.hardCore == job.config.hardCore && out.samples == []
    requires p.source !in {p, out} + Touched(store) && raw !in {p, out} + Touched(store)
      && f0 !in {p, out} + Touched(store)
    requires p !in {out} + Touched(store) && out !in Touched(store)
    requires Prepared(truth, job, store) && CoresReady(truth, job, raw.samples, f0.samples, bounds, rest)
    requires PlannerAt(p, bounds, 0) && bounds[0] == 0
    modifies p, out, Touched(store)
    ensures s.Advanced? ==> rest(0) == Some(out.samples) && Prepared(truth, job, store)
    ensures s.Failed? && Reliable(truth, store) ==> rest(0).None?
    ensures s.PausedRun? ==> mayPause && store != null
    ensures KeptGood(truth, store, old(HistoryOf(store)))
  {
    ghost var i := 0;
    ghost var before := HistoryOf(store);
    KeptStart(truth, job, store);
    AppendNone(rest(0));
    while true
      invariant p.source.samples == job.source && raw.samples == old(raw.samples) && f0.samples == old(f0.samples)
      invariant PlannerAt(p, bounds, i)
      invariant Prepared(truth, job, store) && KeptGood(truth, store, before)
      invariant |out.samples| == OutPos(bounds[i]) && Append(out.samples, rest(i)) == rest(0)
      decreases |bounds| - i
    {
      ghost var mid, was := HistoryOf(store), FilesOf(store);
      var done;
      s, done := NextStep(job, p, raw, f0, out, store, truth, mayPause, bounds, i, rest);
      KeptJoin(truth, store, before, mid, was);
      if !s.Advanced? { return; }
      if done {
        assert out.samples + [] == out.samples;
        return;
      }
      i := i + 1;
    }
  }

  // ---------------------------------------------------------------- one attempt

  /** The raw synthesis of one uninterrupted run without a store; None when that run fails. */
  ghost function Uninterrupted(job: Job): Option<seq<Word>>
    requires ValidJob(job)
  {
    if Processed(job).None? then None else
    BoundsAreEnds(job);
    Synthesis(job, RawF0(job).value, Processed(job).value, 0, JobBounds(job)[1..])
  }

  lemma UninterruptedIs(job: Job, raw: seq<Word>, f0: seq<Word>) returns (rest: nat -> Option<seq<Word>>)
    requires ValidJob(job) && PitchReady(job, raw, f0)
    ensures CoresOf(rest, job, raw, f0, JobBounds(job)) && Tiling(|job.source|, JobBounds(job))
    ensures rest(0) == Uninterrupted(job)
  {
    rest := SomeCores(job, raw, f0, JobBounds(job));
    JobTiling(job);
    assert TileAt(|job.source|, JobBounds(job), 0) && CoresAt(rest, job, raw, f0, JobBounds(job), 0);
  }

  lemma UninterruptedLength(job: Job)
    requires ValidJob(job) && Uninterrupted(job).Some?
    ensures |Uninterrupted(job).value| == |job.source| * OutputRate / InputRate
  {
    BoundsAreEnds(job);
    SynthesisLength(job, RawF0(job).value, Processed(job).value, 0, JobBounds(job)[1..]);
  }

  /** The synthesis half of an attempt, up to the length check. */
  method SynthesizeJob(job: Job, source: Spool<Word>, raw: Spool<Word>, f0: Spool<Word>, out: Spool<Word>,
                       store: BlockCheckpoint?, ghost truth: Truth, mayPause: bool)
    returns (s: CheckpointedRun.Step)
    requires ValidJob(job) && source.samples == job.source && out.samples == [] && TruthOf(truth, job)
    requires source !in {out} + Touched(store) && raw !in {out} + Touched(store) && f0 !in {out} + Touched(store)
    requires out !in Touched(store) && Prepared(truth, job, store) && PitchReady(job, raw.samples, f0.samples)
    modifies out, Touched(store)
    ensures s.Advanced? ==> Uninterrupted(job) == Some(out.samples)
    ensures s.Failed? && Reliable(truth, store) ==> Uninterrupted(job).None?
    ensures s.PausedRun? ==> mayPause && store != null
    ensures KeptGood(truth, store, old(HistoryOf(store)))
  {
    ghost var rest := UninterruptedIs(job, raw.samples, f0.samples);
    JobCoresTrue(truth, job, raw.samples, f0.samples);
    var p := StartPlanner(job, source);
    s := SynthesizeAll(job, p, raw, f0, out, store, truth, mayPause, JobBounds(job), rest);
    if s.Advanced? {
      UninterruptedLength(job);
      if |out.samples| != |job.source| * OutputRate / InputRate { assert false; }
    }
  }

  /** One attempt over an open store, or without one. */
  method Convert(job: Job, store: BlockCheckpoint?, ghost truth: Truth, mayPause: bool)
    returns (s: CheckpointedRun.Step, out: Spool<Word>)
    requires ValidJob(job) && TruthOf(truth, job) && Prepared(truth, job, store)
    modifies Touched(store)
    ensures fresh(out)
    ensures s.Advanced? ==> Uninterrupted(job) == Some(out.samples)
    ensures s.Failed? && Reliable(truth, store) ==> Uninterrupted(job).None?
    ensures s.PausedRun? ==> mayPause && store != null
    ensures KeptGood(truth, store, old(HistoryOf(store)))
  {
    var source := SpoolOf(job.source);
    out := new Spool<Word>();
    var raw := new Spool<Word>();
    ghost var before := HistoryOf(store);
    var f0;
    s, f0 := PitchHalf(job, source, raw, store, truth, mayPause);
    if s.Advanced? {
      ghost var mid, was := HistoryOf(store), FilesOf(store);
      s := SynthesizeJob(job, source, raw, f0, out, store, truth, mayPause);
      KeptJoin(truth, store, before, mid, was);
    }
  }

  method SpoolOf(samples: seq<Word>) returns (spool: Spool<Word>)
    ensures fresh(spool) && spool.samples == samples
  {
    spool := new Spool<Word>();
    spool.Append(samples);
    assert [] + samples == samples;
  }

  /** The pitch half of an attempt: the raw sequence, and the processed one. */
  method PitchHalf(job: Job, source: Spool<Word>, raw: Spool<Word>, store: BlockCheckpoint?, ghost truth: Truth,
                   mayPause: bool)
    returns (s: CheckpointedRun.Step, f0: Spool<Word>)
    requires ValidJob(job) && source.samples == job.source && raw.samples == [] && source !in {raw} + Touched(store)
    requires raw !in Touched(store) && TruthOf(truth, job) && Prepared(truth, job, store)
    modifies raw, Touched(store)
    ensures fresh(f0) && f0 !in Touched(store)
    ensures s.Advanced? ==> Prepared(truth, job, store) && PitchReady(job, raw.samples, f0.samples)
    ensures s.Failed? && Reliable(truth, store) ==> Uninterrupted(job).None?
    ensures s.PausedRun? ==> mayPause && store != null
    ensures KeptGood(truth, store, old(HistoryOf(store)))
  {
    ghost var rest := SomeRest(job);
    RestWhole(rest, job);
    f0 := new Spool<Word>();
    s := BuildRawF0(job, source, raw, store, truth, mayPause, rest);
    if !s.Advanced? { return; }
    var processed := job.process(raw.samples);
    if processed.None? { return CheckpointedRun.Failed, f0; }
    f0 := SpoolOf(processed.value);
  }

  // ---------------------------------------------------------------- any sequence of attempts

  /** Every state the disk has been through is one a later attempt may start from. */
  ghost predicate Restartable(truth: Truth, st: Store, history: seq<Files>) {
    forall k {:trigger Unseal(k)} :: Unseal(k) ==> forall i | 0 <= i < |history| :: Good(truth, st, history[i])
  }

  lemma EmptyRestartable(truth: Truth, st: Store)
    requires ValidLimits(st.limits)
    ensures Restartable(truth, st, [map[]])
  {
    EmptySound(st);
    assert Good(truth, st, map[]);
  }

  lemma RestartFrom(truth: Truth, st: Store, history: seq<Files>, at: nat)
    requires Restartable(truth, st, history) && at < |history|
    ensures Restartable(truth, st, [history[at]])
  {
    assert Unseal(0);
  }

  lemma RestartJoin(truth: Truth, st: Store, before: seq<Files>, after: seq<Files>, f: Files)
    requires Restartable(truth, st, before) && before <= after && GoodStates(truth, st, after, |before|, f)
    ensures Restartable(truth, st, after)
  {
    assert Unseal(0);
    forall i | 0 <= i < |after| ensures Good(truth, st, after[i]) {
      if i < |before| { assert before[i] == after[i]; }
    }
  }

  /** The store of an attempt, created or resumed. */
  method OpenStore(job: Job, disk: Disk<Name>, st: Store, mode: Mode, ghost truth: Truth)
    returns (store: BlockCheckpoint?)
    requires ValidJob(job) && TruthOf(truth, job) && Functional(truth) && ValidLimits(st.limits)
    requires disk.Valid() && Restartable(truth, st, disk.history) && mode != ReadOnly
    requires mode == CreateNew ==> disk.files == map[]
    modifies disk
    ensures disk.Valid() && old(disk.history) <= disk.history && Restartable(truth, st, disk.history)
    ensures store != null ==> fresh(store) && store.disk == disk && store.st == st && Prepared(truth, job, store)
    ensures !disk.mayFail ==> store != null
  {
    ghost var h0 := disk.history;
    assert Unseal(0);
    var r := OpenGood(disk, truth, st, mode);
    RestartJoin(truth, st, h0, disk.history, disk.files);
    store := if r.Some? then r.value else null;
  }

  /** One attempt: the store is created or resumed, then the conversion runs over it. */
  method Attempt(job: Job, disk: Disk<Name>, st: Store, mode: Mode, ghost truth: Truth, mayPause: bool)
    returns (s: CheckpointedRun.Step, out: seq<Word>)
    requires ValidJob(job) && TruthOf(truth, job) && Functional(truth) && ValidLimits(st.limits)
    requires disk.Valid() && Restartable(truth, st, disk.history) && mode != ReadOnly
    requires mode == CreateNew ==> disk.files == map[]
    modifies disk
    ensures disk.Valid() && old(disk.history) <= disk.history && Restartable(truth, st, disk.history)
    ensures s.Advanced? ==> Uninterrupted(job) == Some(out)
    ensures s.Failed? && !disk.mayFail && Ample(truth, st) ==> Uninterrupted(job).None?
    ensures s.PausedRun? ==> mayPause
  {
    out := [];
    var store := OpenStore(job, disk, st, mode, truth);
    if store == null { return CheckpointedRun.Failed, []; }
    ghost var h1 := disk.history;
    var spool;
    s, spool := Convert(job, store, truth, mayPause);
    out := spool.samples;
    RestartJoin(truth, st, h1, disk.history, disk.files);
  }

  /** An attempt that may be killed: the directory is then left in any state it went through. */
  method KillableAttempt(job: Job, files: Files, st: Store, mode: Mode, ghost truth: Truth)
    returns (finished: bool, out: seq<Word>, left: Files)
    requires ValidJob(job) && TruthOf(truth, job) && Functional(truth) && ValidLimits(st.limits)
    requires Restartable(truth, st, [files]) && mode != ReadOnly && (mode == CreateNew ==> files == map[])
    ensures finished ==> Uninterrupted(job) == Some(out)
    ensures Restartable(truth, st, [left])
  {
    var mayFail: bool, mayPause: bool, killed: bool := *, *, *;
    var disk := new Disk<Name>(files, mayFail);
    var s;
    s, out := Attempt(job, disk, st, mode, truth, mayPause);
    var at: int := *;
    if !killed || at < 0 || at >= |disk.history| { at := |disk.history| - 1; }
    left := disk.history[at];
    RestartFrom(truth, st, disk.history, at);
    finished := !killed && s.Advanced?;
  }

  /** Any number of attempts with the same identity, each of which may be paused, meet I/O errors or be
      killed in any state its disk goes through: an attempt that finishes returns what the
      uninterrupted run returns. */
  method Run(job: Job, st: Store, attempts: nat) returns (finished: bool, out: seq<Word>)
    requires ValidJob(job) && ValidLimits(st.limits)
    ensures finished ==> Uninterrupted(job) == Some(out)
  {
    ghost var truth := SomeTruth(job);
    EmptyRestartable(truth, st);
    var files: Files := map[];
    finished, out := false, [];
    var k := 0;
    while k < attempts && !finished
      invariant Restartable(truth, st, [files]) && (k == 0 ==> files == map[])
      invariant finished ==> Uninterrupted(job) == Some(out)
    {
      finished, out, files := KillableAttempt(job, files, st, if k == 0 then CreateNew else Resume, truth);
      k := k + 1;
    }
  }

  /** The limits of the store leave room for every block of this conversion. */
  ghost predicate Roomy(job: Job, st: Store)
    requires ValidJob(job)
  {
    forall truth {:trigger TruthOf(truth, job)} :: TruthOf(truth, job) ==> Ample(truth, st)
  }

  /** After any number of such attempts, one that is left alone ends as the uninterrupted run ends, in success or
      failure. */
  method RunToEnd(job: Job, st: Store, attempts: nat) returns (out: Option<seq<Word>>)
    requires ValidJob(job) && ValidLimits(st.limits) && Roomy(job, st)
    ensures out == Uninterrupted(job)
  {
    ghost var truth := SomeTruth(job);
    EmptyRestartable(truth, st);
    var files: Files := map[];
    var k := 0;
    while k < attempts
      invariant Restartable(truth, st, [files]) && (k == 0 ==> files == map[])
    {
      var finished, partial;
      finished, partial, files := KillableAttempt(job, files, st, if k == 0 then CreateNew else Resume, truth);
      k := k + 1;
    }
    var disk := new Disk<Name>(files, false);
    var s, last := Attempt(job, disk, st, if k == 0 then CreateNew else Resume, truth, false);
    out := if s.Advanced? then Some(last) else None;
  }
}
