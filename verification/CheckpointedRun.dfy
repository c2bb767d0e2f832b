/** One conversion attempt over an optional block store, and any sequence of attempts. */
module CheckpointedRun {
  import opened Spools
  import opened Bytes
  import opened Reflection
  import opened StoreFiles
  import opened BlockCheckpoints
  import opened TrueStore
  import opened ConversionJob
  import opened Conversion
  import F0 = F0Windows

  datatype Step = Advanced | PausedRun | Failed

  function Touched(store: BlockCheckpoint?): set<object> {
    if store == null then {} else {store, store.disk}
  }

  /** A sealed fact is taken apart only where some Unseal term is written down. */
  ghost predicate Unseal(k: int) { true }

  /** The store is usable and truth files exactly the blocks of this conversion. */
  ghost predicate Prepared(truth: Truth, job: Job, store: BlockCheckpoint?)
    requires ValidJob(job)
    reads store, if store == null then {} else {store.disk}
  {
    store != null ==> forall k {:trigger Unseal(k)} :: Unseal(k) ==>
      TruthOf(truth, job) && Functional(truth) && Usable(truth, store)
  }

  ghost function HistoryOf(store: BlockCheckpoint?): seq<Files>
    reads store, if store == null then {} else {store.disk}
  {
    if store == null then [] else store.disk.history
  }

  ghost function FilesOf(store: BlockCheckpoint?): Files
    reads store, if store == null then {} else {store.disk}
  {
    if store == null then map[] else store.disk.files
  }

  /** The disk kept what it had gone through before, and every state since is good. */
  ghost predicate KeptGood(truth: Truth, store: BlockCheckpoint?, before: seq<Files>)
    reads store, if store == null then {} else {store.disk}
  {
    store != null ==>
      && store.disk.Valid() && before <= store.disk.history
      && GoodStates(truth, store.st, store.disk.history, |before|, store.disk.files)
  }

  ghost predicate GoodStates(truth: Truth, st: Store, history: seq<Files>, from: nat, f: Files) {
    forall k {:trigger Unseal(k)} :: Unseal(k) ==> GoodSince(truth, st, history, from) && Good(truth, st, f)
  }

  lemma KeptStart(truth: Truth, job: Job, store: BlockCheckpoint?)
    requires ValidJob(job) && Prepared(truth, job, store)
    ensures KeptGood(truth, store, HistoryOf(store))
  {
    assert Unseal(0);
  }

  lemma KeptJoin(truth: Truth, store: BlockCheckpoint?, before: seq<Files>, mid: seq<Files>, f: Files)
    requires store != null ==> before <= mid && GoodStates(truth, store.st, mid, |before|, f)
    requires KeptGood(truth, store, mid)
    ensures KeptGood(truth, store, before)
  {
    if store != null {
      assert Unseal(0);
      forall i | |before| <= i < |store.disk.history| ensures Good(truth, store.st, store.disk.history[i]) {
        if i < |mid| { assert mid[i] == store.disk.history[i]; }
      }
    }
  }

  /** Storage cannot be the reason of a failure. */
  ghost predicate Reliable(truth: Truth, store: BlockCheckpoint?) {
    store == null || (!store.disk.mayFail && Ample(truth, store.st))
  }

  lemma OffsetsFit(job: Job)
    requires ValidJob(job)
    ensures Pow256(8) == U64 && |Padded(job)| < U64 && 0 < |Padded(job)|
    ensures F0.CoreSamples + 2 * job.context < U64
  {
    Pow256Four();
  }

  lemma F0BlockTruth(truth: Truth, job: Job, first: nat, data: seq<Word>)
    requires ValidJob(job) && TruthOf(truth, job) && WindowStart(first)
    ensures truth(F0Key(first), first, data) <==> F0Block(job, first) == Some(data)
  {
    assert TrueAt(truth, job, F0Key(first), first, data);
    KeysInjective(first, first);
  }

  lemma CoreBlockTruth(truth: Truth, job: Job, i: nat, start: nat, end: nat, data: seq<Word>)
    requires ValidJob(job) && TruthOf(truth, job) && CoreAt(JobBounds(job), i, start, end)
      && start < end <= |job.source|
    requires Processed(job).Some?
    ensures truth(SynthKey(start), start, data) <==>
      SynthBlock(job, RawF0(job).value, Processed(job).value, start, end) == Some(data)
  {
    assert TrueAt(truth, job, SynthKey(start), start, data);
    KeysInjective(start, start);
    if CoreBlock(job, i, start, end, data) {
      assert Belongs(job, SynthKey(start), start, data);
    }
    if Belongs(job, SynthKey(start), start, data) {
      var i2, end2 :| CoreBlock(job, i2, start, end2, data);
      BoundsIncrease(job);
      SameCore(JobBounds(job), i, i2);
    }
  }

  /** A pause point: false when the run has to stop here. */
  method PausePoint(store: BlockCheckpoint, mayPause: bool) returns (go: bool)
    requires store.healthy
    ensures !go ==> mayPause
  {
    var requested := false;
    if mayPause {
      if * { requested := true; }
    }
    var b := store.AtBoundary(requested);
    go := b == Continue;
  }

  // ---------------------------------------------------------------- raw F0

  /** A window read through the reflected reader, extracted and cropped. */
  method ComputeF0(job: Job, source: Spool<Word>, first: nat, plan: F0.WindowPlan) returns (block: Option<seq<Word>>)
    requires ValidJob(job) && source.samples == job.source
    requires F0.PlanWindow(|Padded(job)|, first, job.context) == Some(plan)
    ensures block == F0Block(job, first)
  {
    F0.PlanCovers(|Padded(job)|, first, job.context);
    if plan.inputSamples > F0.CoreSamples + 2 * job.context { assert false; }
    var window := ReadReflected(source, job.config.pad, plan.inputStart, plan.inputSamples);
    if window.None? { assert false; }
    block := F0.Crop(Extraction(job), window.value, plan);
  }

  lemma AmpleStores(truth: Truth, st: Store, key: string, o: nat, d: seq<Word>)
    requires Ample(truth, st) && truth(key, o, d)
    ensures Storable(st, key, o, d)
  {
    assert RoomFor(truth, st, map[], key, o, d);
  }

  /** The store's answer for one block of the conversion that the spool has room for. */
  method FetchBlock(store: BlockCheckpoint, ghost truth: Truth, key: string, offset: nat, count: nat,
                    ghost expected: Option<seq<Word>>)
    returns (r: Loaded)
    requires Usable(truth, store) && Functional(truth) && offset < Pow256(8)
    requires forall data :: truth(key, offset, data) <==> expected == Some(data)
    requires expected.Some? ==> |expected.value| == count
    modifies store`hits
    ensures Usable(truth, store)
    ensures r.Present? ==> expected == Some(r.data)
    ensures r.Bad? && Ample(truth, store.st) ==> expected.None?
  {
    r := Fetch(store, truth, key, offset, count);
    if expected.Some? {
      if Ample(truth, store.st) { AmpleStores(truth, store.st, key, offset, expected.value); }
    }
  }

  /** The pause point before a block and the attempt to take it from the store; `cached` tells whether it was there. */
  method FetchAndPause(store: BlockCheckpoint, ghost truth: Truth, key: string, offset: nat, count: nat,
                       ghost expected: Option<seq<Word>>, spool: Spool<Word>, mayPause: bool)
    returns (s: Step, cached: bool)
    requires Usable(truth, store) && Functional(truth) && offset < Pow256(8)
    requires forall data :: truth(key, offset, data) <==> expected == Some(data)
    requires expected.Some? ==> |expected.value| == count
    requires spool !in {store, store.disk}
    modifies store`hits, spool
    ensures Usable(truth, store)
    ensures s.Advanced? ==>
      if cached then expected.Some? && spool.samples == old(spool.samples) + expected.value
        else spool.samples == old(spool.samples)
    ensures s.Failed? && Ample(truth, store.st) ==> expected.None?
    ensures s.PausedRun? ==> mayPause
  {
    cached := false;
    var go := PausePoint(store, mayPause);
    if !go { return PausedRun, false; }
    var r := FetchBlock(store, truth, key, offset, count, expected);
    if r.Bad? { return Failed, false; }
    if r.Present? {
      spool.Append(r.data);
      go := PausePoint(store, mayPause);
      return if go then Advanced else PausedRun, true;
    }
    s := Advanced;
  }

  /** Filing one block of the conversion, and the pause point behind it. */
  method FileAndPause(store: BlockCheckpoint, ghost truth: Truth, key: string, offset: nat, data: seq<Word>,
                      mayPause: bool)
    returns (s: Step)
    requires Usable(truth, store) && Functional(truth) && truth(key, offset, data) && offset < Pow256(8)
    modifies store, store.disk
    ensures s.Advanced? ==> Usable(truth, store)
    ensures s.Failed? ==> store.disk.mayFail || !Ample(truth, store.st)
    ensures s.PausedRun? ==> mayPause
    ensures store.disk.Valid() && old(store.disk.history) <= store.disk.history
    ensures GoodSince(truth, store.st, store.disk.history, |old(store.disk.history)|)
      && Good(truth, store.st, store.disk.files)
  {
    var outcome := TrueStore.FileBlock(store, truth, key, offset, data);
    if outcome.Rejected? || outcome.Broken? { return Failed; }
    var go := PausePoint(store, mayPause);
    s := if go then Advanced else PausedRun;
  }

  /** One window of a conversion with a store: taken from it, or read, extracted, cropped and filed. */
  method StoredF0(job: Job, source: Spool<Word>, raw: Spool<Word>, store: BlockCheckpoint, ghost truth: Truth,
                  mayPause: bool, first: nat, plan: F0.WindowPlan) returns (s: Step)
    requires ValidJob(job) && source.samples == job.source && source !in {raw, store, store.disk}
      && raw !in {store, store.disk}
    requires TruthOf(truth, job) && Functional(truth) && Usable(truth, store)
    requires WindowStart(first) && F0.PlanWindow(|Padded(job)|, first, job.context) == Some(plan)
    modifies raw, store, store.disk
    ensures s.Advanced? ==>
      && F0Block(job, first).Some? && raw.samples == old(raw.samples) + F0Block(job, first).value
        && Usable(truth, store)
    ensures s.Failed? && Reliable(truth, store) ==> F0Block(job, first).None?
    ensures s.PausedRun? ==> mayPause
    ensures KeptGood(truth, store, old(HistoryOf(store)))
  {
    ghost var expected := F0Block(job, first);
    F0Expected(truth, job, first, plan);
    OffsetsFit(job);
    var cached;
    s, cached := FetchAndPause(store, truth, F0Key(first), first, plan.cropCount, expected, raw, mayPause);
    if !s.Advanced? || cached { return; }
    var block := ComputeF0(job, source, first, plan);
    if block.None? { return Failed; }
    raw.Append(block.value);
    s := FileAndPause(store, truth, F0Key(first), first, block.value, mayPause);
  }

  /** One window of a conversion without a store. */
  method PlainF0(job: Job, source: Spool<Word>, raw: Spool<Word>, first: nat, plan: F0.WindowPlan) returns (s: Step)
    requires ValidJob(job) && source.samples == job.source && source != raw
    requires F0.PlanWindow(|Padded(job)|, first, job.context) == Some(plan)
    modifies raw
    ensures !s.PausedRun? && (s.Advanced? <==> F0Block(job, first).Some?)
    ensures s.Advanced? ==> raw.samples == old(raw.samples) + F0Block(job, first).value
  {
    var block := ComputeF0(job, source, first, plan);
    if block.None? { return Failed; }
    raw.Append(block.value);
    s := Advanced;
  }

  /** One window, with or without a store. */
  method TakeWindow(job: Job, source: Spool<Word>, raw: Spool<Word>, store: BlockCheckpoint?, ghost truth: Truth,
                    mayPause: bool, first: nat, plan: F0.WindowPlan) returns (s: Step)
    requires ValidJob(job) && source.samples == job.source && source !in {raw} + Touched(store)
      && Prepared(truth, job, store)
    requires WindowStart(first) && F0.PlanWindow(|Padded(job)|, first, job.context) == Some(plan)
    modifies raw, Touched(store)
    ensures s.Advanced? ==>
      && F0Block(job, first).Some? && raw.samples == old(raw.samples) + F0Block(job, first).value
        && Prepared(truth, job, store)
    ensures s.Failed? && Reliable(truth, store) ==> F0Block(job, first).None?
    ensures s.PausedRun? ==> mayPause && store != null
    ensures KeptGood(truth, store, old(HistoryOf(store)))
  {
    if store == null {
      s := PlainF0(job, source, raw, first, plan);
    } else {
      assert Unseal(0);
      s := StoredF0(job, source, raw, store, truth, mayPause, first, plan);
    }
  }

  /** One window and its place among those still to come. */
  method F0Step(job: Job, source: Spool<Word>, raw: Spool<Word>, store: BlockCheckpoint?, ghost truth: Truth,
                mayPause: bool, first: nat, ghost rest: nat -> Option<seq<Word>>) returns (s: Step, next: nat)
    requires ValidJob(job) && source.samples == job.source && source !in {raw} + Touched(store)
      && Prepared(truth, job, store)
    requires RestOf(rest, job) && first < (|job.source| + 2 * job.config.pad) / Hop + 1 && WindowStart(first)
    modifies raw, Touched(store)
    ensures s.Advanced? ==>
      && first < next && Prepared(truth, job, store) && EndOfWindow(job, first, next)
      && (next >= (|job.source| + 2 * job.config.pad) / Hop + 1 ==> rest(next) == Some([]))
      && Append(raw.samples, rest(next)) == Append(old(raw.samples), rest(first))
    ensures s.Failed? && Reliable(truth, store) ==> rest(first).None?
    ensures s.PausedRun? ==> mayPause && store != null
    ensures KeptGood(truth, store, old(HistoryOf(store)))
  {
    next := first;
    RestStep(rest, job, first);
    var planned := F0.PlanWindow(|source.samples| + 2 * job.config.pad, first, job.context);
    if planned.None? {
      KeptStart(truth, job, store);
      return Failed, first;
    }
    next := planned.value.endFrame;
    ghost var expected := F0Block(job, first);
    if expected.Some? { AppendMore(raw.samples, expected.value, rest(next)); }
    s := TakeWindow(job, source, raw, store, truth, mayPause, first, planned.value);
  }

  /** Every window but the last is full, so the next one starts where windows of a clip start. */
  lemma NextWindow(job: Job, first: nat, next: nat)
    requires WindowStart(first) && EndOfWindow(job, first, next)
    ensures next < (|job.source| + 2 * job.config.pad) / Hop + 1 ==> WindowStart(next)
  {
  }

  ghost predicate EndOfWindow(job: Job, first: nat, next: nat) {
    var plan := F0.PlanWindow(|job.source| + 2 * job.config.pad, first, job.context);
    plan.Some? && plan.value.endFrame == next
  }

  lemma F0Expected(truth: Truth, job: Job, first: nat, plan: F0.WindowPlan)
    requires WindowStart(first) && ValidJob(job) && TruthOf(truth, job)
      && F0.PlanWindow(|Padded(job)|, first, job.context) == Some(plan)
    ensures first < U64
    ensures forall data :: truth(F0Key(first), first, data) <==> F0Block(job, first) == Some(data)
    ensures F0Block(job, first).Some? ==> |F0Block(job, first).value| == plan.cropCount
  {
    forall data ensures truth(F0Key(first), first, data) <==> F0Block(job, first) == Some(data) {
      F0BlockTruth(truth, job, first, data);
    }
    if F0Block(job, first).Some? { F0.BlockLength(Extraction(job), Padded(job), job.context, first); }
  }

  /** The whole raw F0 spool. */
  method BuildRawF0(job: Job, source: Spool<Word>, raw: Spool<Word>, store: BlockCheckpoint?, ghost truth: Truth,
                    mayPause: bool, ghost rest: nat -> Option<seq<Word>>)
    returns (s: Step)
    requires ValidJob(job) && source.samples == job.source && source !in {raw} + Touched(store) && raw.samples == []
    requires Prepared(truth, job, store) && RestOf(rest, job)
    modifies raw, Touched(store)
    ensures s.Advanced? ==> rest(0) == Some(raw.samples) && Prepared(truth, job, store)
    ensures s.Failed? && Reliable(truth, store) ==> rest(0).None?
    ensures s.PausedRun? ==> mayPause && store != null
    ensures KeptGood(truth, store, old(HistoryOf(store)))
  {
    var totalFrames := (|source.samples| + 2 * job.config.pad) / Hop + 1;
    var first := 0;
    ghost var before := HistoryOf(store);
    KeptStart(truth, job, store);
    AppendNone(rest(0));
    while first < totalFrames
      invariant source.samples == job.source && Prepared(truth, job, store)
      invariant Append(raw.samples, rest(first)) == rest(0)
      invariant if first >= totalFrames then rest(first) == Some([]) else WindowStart(first)
      invariant KeptGood(truth, store, before)
      decreases totalFrames - first
    {
      var next;
      ghost var mid, was := HistoryOf(store), FilesOf(store);
      s, next := F0Step(job, source, raw, store, truth, mayPause, first, rest);
      KeptJoin(truth, store, before, mid, was);
      if !s.Advanced? { return; }
      NextWindow(job, first, next);
      first := next;
    }
    assert raw.samples + [] == raw.samples;
    s := Advanced;
  }

  lemma RestWhole(rest: nat -> Option<seq<Word>>, job: Job)
    requires ValidJob(job) && RestOf(rest, job)
    ensures rest(0) == RawF0(job)
  {
    assert RestAt(rest, job, 0);
  }

  /** rest(first) is what the windows from `first` on contribute. */
  ghost predicate RestAt(rest: nat -> Option<seq<Word>>, job: Job, first: nat)
    requires ValidJob(job)
  {
    rest(first) == F0.Streamed(Extraction(job), Padded(job), job.context, first)
  }

  ghost predicate RestOf(rest: nat -> Option<seq<Word>>, job: Job)
    requires ValidJob(job)
  {
    forall first: nat :: RestAt(rest, job, first)
  }

  lemma SomeRest(job: Job) returns (rest: nat -> Option<seq<Word>>)
    requires ValidJob(job)
    ensures RestOf(rest, job)
  {
    rest := first => F0.Streamed(Extraction(job), Padded(job), job.context, first);
    forall first: nat ensures RestAt(rest, job, first) {}
  }

  lemma RestStep(rest: nat -> Option<seq<Word>>, job: Job, first: nat)
    requires ValidJob(job) && RestOf(rest, job) && first < |Padded(job)| / Hop + 1
    ensures F0Block(job, first).None? ==> rest(first).None?
    ensures F0Block(job, first).Some? ==>
      && F0.PlanWindow(|Padded(job)|, first, job.context).Some?
      && var next := F0.PlanWindow(|Padded(job)|, first, job.context).value.endFrame;
         first < next && rest(first) == Append(F0Block(job, first).value, rest(next))
         && (next >= |Padded(job)| / Hop + 1 ==> rest(next) == Some([]))
  {
    assert RestAt(rest, job, first);
    if F0Block(job, first).Some? {
      F0.BlockLength(Extraction(job), Padded(job), job.context, first);
      assert RestAt(rest, job, F0.PlanWindow(|Padded(job)|, first, job.context).value.endFrame);
    }
  }

  // ---------------------------------------------------------------- synthesis

  /** Reads one segment and its pitch, synthesises it and checks the piece. */
  method ComputePiece(job: Job, source: Spool<Word>, raw: Spool<Word>, f0: Spool<Word>, start: nat, end: nat)
    returns (piece: Option<seq<Word>>)
    requires ValidJob(job) && source.samples == job.source && start < end <= |job.source|
    ensures OutPos(start) < OutPos(end)
    ensures SynthBlock(job, raw.samples, f0.samples, start, end) ==
      if piece.None? then None else Some(Trimmed(piece.value, OutPos(job.config.pad), OutPos(end) - OutPos(start)))
  {
    OutPosIncreases(start, end);
    var segmentEnd := Min(|source.samples| + 2 * job.config.pad, end + 2 * job.config.pad + Hop);
    if segmentEnd <= start || segmentEnd - start > job.config.hardSegment || segmentEnd - start > ContentMaximum {
      return None;
    }
    var segment := ReadReflected(source, job.config.pad, start, segmentEnd - start);
    var firstF0 := start / Hop;
    var endF0 := Min(|f0.samples|, segmentEnd / Hop);
    if endF0 <= firstF0 { return None; }
    var f := f0.Read(firstF0, endF0 - firstF0);
    var r := raw.Read(firstF0, endF0 - firstF0);
    if r.None? { return None; }
    var samples := job.synth(segment.value, f.value, Unvoiced(job, r.value), firstF0);
    if |samples| == 0 || !AllFinite(samples) { return None; }
    piece := Some(samples);
  }

  /** Appends the core part of a piece, zero-filled in blocks up to the core length. */
  method AppendCore(out: Spool<Word>, piece: seq<Word>, left: nat, length: nat)
    modifies out
    ensures out.samples == old(out.samples) + Trimmed(piece, left, length)
  {
    var available := if |piece| > left then |piece| - left else 0;
    var take := Min(length, available);
    ghost var before := out.samples;
    if take > 0 { out.Append(piece[left..left + take]); }
    ghost var kept := if take > 0 then piece[left..left + take] else [];
    assert out.samples == before + kept;
    AppendRepeated(out, 0 as Word, length - take);
    assert before + kept + seq(length - take, _ => 0 as Word) == before + (kept + seq(length - take, _ => 0 as Word));
  }

  lemma Tail<T>(whole: seq<T>, a: seq<T>, b: seq<T>)
    requires whole == a + b
    ensures whole[|a|..|a| + |b|] == b
  {
  }

  /** One core without a store. */
  method PlainCore(job: Job, source: Spool<Word>, raw: Spool<Word>, f0: Spool<Word>, out: Spool<Word>, start: nat,
                   end: nat)
    returns (s: Step)
    requires ValidJob(job) && source.samples == job.source && start < end <= |job.source| && out !in {source, raw, f0}
    requires |out.samples| == OutPos(start)
    modifies out
    ensures s == if SynthBlock(job, raw.samples, f0.samples, start, end).Some? then Advanced else Failed
    ensures s.Advanced? ==> out.samples == old(out.samples) + SynthBlock(job, raw.samples, f0.samples, start, end).value
  {
    var piece := ComputePiece(job, source, raw, f0, start, end);
    if piece.None? { return Failed; }
    var outputStart, outputEnd := OutPos(start), OutPos(end);
    if |out.samples| != outputStart || outputEnd < outputStart { assert false; }
    AppendCore(out, piece.value, OutPos(job.config.pad), outputEnd - outputStart);
    s := Advanced;
  }

  /** One core, read back from the spool once it is complete. */
  method CommittedCore(job: Job, source: Spool<Word>, raw: Spool<Word>, f0: Spool<Word>, out: Spool<Word>, start: nat,
                       end: nat)
    returns (committed: Option<seq<Word>>)
    requires ValidJob(job) && source.samples == job.source && start < end <= |job.source| && out !in {source, raw, f0}
    requires |out.samples| == OutPos(start)
    modifies out
    ensures committed == SynthBlock(job, old(raw.samples), old(f0.samples), start, end)
    ensures committed.Some? ==> out.samples == old(out.samples) + committed.value
  {
    ghost var expected := SynthBlock(job, raw.samples, f0.samples, start, end);
    var s := PlainCore(job, source, raw, f0, out, start, end);
    if s.Failed? { return None; }
    Tail(out.samples, old(out.samples), expected.value);
    OutPosIncreases(start, end);
    committed := out.Read(OutPos(start), OutPos(end) - OutPos(start));
  }

  /** One core with a store: taken from it, or synthesised, read back from the spool and filed. */
  method StoredCore(job: Job, source: Spool<Word>, raw: Spool<Word>, f0: Spool<Word>, out: Spool<Word>,
                    store: BlockCheckpoint, ghost truth: Truth, mayPause: bool, key: string, start: nat, end: nat,
                    ghost expected: Option<seq<Word>>) returns (s: Step)
    requires ValidJob(job) && source.samples == job.source && start < end <= |job.source| && start < U64
    requires out !in {source, raw, f0, store, store.disk}
    requires |out.samples| == OutPos(start) && Functional(truth) && Usable(truth, store)
    requires expected == SynthBlock(job, raw.samples, f0.samples, start, end)
    requires forall data :: truth(key, start, data) <==> expected == Some(data)
    modifies out, store, store.disk
    ensures s.Advanced? ==> expected.Some? && out.samples == old(out.samples) + expected.value && Usable(truth, store)
    ensures s.Failed? && Reliable(truth, store) ==> expected.None?
    ensures s.PausedRun? ==> mayPause
    ensures KeptGood(truth, store, old(HistoryOf(store)))
  {
    OffsetsFit(job);
    OutPosIncreases(start, end);
    var cached;
    s, cached := FetchAndPause(store, truth, key, start, OutPos(end) - OutPos(start), expected, out, mayPause);
    if !s.Advanced? || cached { return; }
    var committed := CommittedCore(job, source, raw, f0, out, start, end);
    if committed.None? { return Failed; }
    s := FileAndPause(store, truth, key, start, committed.value, mayPause);
  }

  // ---------------------------------------------------------------- the synthesis loop

  ghost predicate TileAt(n: nat, bounds: seq<nat>, i: nat) {
    i < |bounds| ==> Ends(n, bounds[i], bounds[i + 1..])
  }

  /** From every bound on, the remaining bounds tile the rest of the clip. */
  ghost predicate Tiling(n: nat, bounds: seq<nat>) { forall i: nat :: TileAt(n, bounds, i) }

  lemma {:induction false} EndsTile(n: nat, bounds: seq<nat>, i: nat)
    requires |bounds| > 0 && Ends(n, bounds[0], bounds[1..])
    ensures TileAt(n, bounds, i)
  {
    if 0 < i < |bounds| {
      EndsTile(n, bounds, i - 1);
      assert bounds[i..][1..] == bounds[i + 1..];
    }
  }

  lemma JobTiling(job: Job)
    requires ValidJob(job)
    ensures Tiling(|job.source|, JobBounds(job))
  {
    BoundsAreEnds(job);
    forall i: nat ensures TileAt(|job.source|, JobBounds(job), i) { EndsTile(|job.source|, JobBounds(job), i); }
  }

  /** rest(i) is what the cores from the i-th on contribute. */
  ghost predicate CoresAt(rest: nat -> Option<seq<Word>>, job: Job, raw: seq<Word>, f0: seq<Word>, bounds: seq<nat>,
                          i: nat)
    requires ValidJob(job)
  {
    i < |bounds| && TileAt(|job.source|, bounds, i) ==> rest(i) == Synthesis(job, raw, f0, bounds[i], bounds[i + 1..])
  }

  ghost predicate CoresOf(rest: nat -> Option<seq<Word>>, job: Job, raw: seq<Word>, f0: seq<Word>, bounds: seq<nat>)
    requires ValidJob(job)
  {
    forall i: nat :: CoresAt(rest, job, raw, f0, bounds, i)
  }

  lemma SomeCores(job: Job, raw: seq<Word>, f0: seq<Word>, bounds: seq<nat>) returns (rest: nat -> Option<seq<Word>>)
    requires ValidJob(job)
    ensures CoresOf(rest, job, raw, f0, bounds)
  {
    rest := (i: nat) => if i < |bounds| && TileAt(|job.source|, bounds, i)
      then Synthesis(job, raw, f0, bounds[i], bounds[i + 1..]) else None;
    forall i: nat ensures CoresAt(rest, job, raw, f0, bounds, i) {}
  }

  lemma CoresStep(rest: nat -> Option<seq<Word>>, job: Job, raw: seq<Word>, f0: seq<Word>, bounds: seq<nat>, i: nat,
                  start: nat, end: nat)
    requires ValidJob(job) && CoresOf(rest, job, raw, f0, bounds) && Tiling(|job.source|, bounds)
      && CoreAt(bounds, i, start, end)
    ensures start < end <= |job.source|
    ensures end - start > job.config.hardCore ==> rest(i).None?
    ensures end - start <= job.config.hardCore ==>
      var block := SynthBlock(job, raw, f0, start, end);
      if block.None? then rest(i).None? else rest(i) == Append(block.value, rest(i + 1))
  {
    assert TileAt(|job.source|, bounds, i) && TileAt(|job.source|, bounds, i + 1);
    assert CoresAt(rest, job, raw, f0, bounds, i) && CoresAt(rest, job, raw, f0, bounds, i + 1);
    assert bounds[i + 1..][1..] == bounds[i + 1 + 1..];
  }

  lemma CoresEnd(rest: nat -> Option<seq<Word>>, job: Job, raw: seq<Word>, f0: seq<Word>, bounds: seq<nat>, i: nat)
    requires ValidJob(job) && CoresOf(rest, job, raw, f0, bounds) && Tiling(|job.source|, bounds) && i + 1 == |bounds|
    ensures rest(i) == Some([]) && bounds[i] == |job.source|
  {
    assert TileAt(|job.source|, bounds, i) && CoresAt(rest, job, raw, f0, bounds, i);
  }

  /** The spools hold the F0 of an uninterrupted run. */
  ghost predicate PitchReady(job: Job, raw: seq<Word>, f0: seq<Word>)
    requires ValidJob(job)
  {
    RawF0(job) == Some(raw) && Processed(job) == Some(f0)
  }

  ghost predicate CoreTrueAt(truth: Truth, job: Job, raw: seq<Word>, f0: seq<Word>, bounds: seq<nat>, i: nat,
                             start: nat, end: nat, data: seq<Word>)
    requires ValidJob(job)
  {
    CoreAt(bounds, i, start, end) && start < end <= |job.source| ==>
      (truth(SynthKey(start), start, data) <==> SynthBlock(job, raw, f0, start, end) == Some(data))
  }

  /** truth files under each core's key exactly what that core contributes. */
  ghost predicate CoresTrue(truth: Truth, job: Job, raw: seq<Word>, f0: seq<Word>, bounds: seq<nat>)
    requires ValidJob(job)
  {
    forall i: nat, start: nat, end: nat, data :: CoreTrueAt(truth, job, raw, f0, bounds, i, start, end, data)
  }

  lemma JobCoresTrue(truth: Truth, job: Job, raw: seq<Word>, f0: seq<Word>)
    requires ValidJob(job) && TruthOf(truth, job) && PitchReady(job, raw, f0)
    ensures CoresTrue(truth, job, raw, f0, JobBounds(job))
  {
    forall i: nat, start: nat, end: nat, data
      ensures CoreTrueAt(truth, job, raw, f0, JobBounds(job), i, start, end, data)
    {
      if CoreAt(JobBounds(job), i, start, end) && start < end <= |job.source| {
        CoreBlockTruth(truth, job, i, start, end, data);
      }
    }
  }

  /** Everything the synthesis of the cores relies on. */
  ghost predicate CoresReady(truth: Truth, job: Job, raw: seq<Word>, f0: seq<Word>, bounds: seq<nat>,
                             rest: nat -> Option<seq<Word>>)
    requires ValidJob(job)
  {
    Tiling(|job.source|, bounds) && CoresOf(rest, job, raw, f0, bounds) && CoresTrue(truth, job, raw, f0, bounds)
  }

  /** One core, with or without a store. */
  method CoreStep(job: Job, source: Spool<Word>, raw: Spool<Word>, f0: Spool<Word>, out: Spool<Word>,
                  store: BlockCheckpoint?, ghost truth: Truth, mayPause: bool, ghost bounds: seq<nat>, ghost i: nat,
                  start: nat, end: nat, ghost rest: nat -> Option<seq<Word>>) returns (s: Step)
    requires ValidJob(job) && source.samples == job.source && out !in {source, raw, f0} + Touched(store)
    requires Prepared(truth, job, store) && CoresReady(truth, job, raw.samples, f0.samples, bounds, rest)
    requires CoreAt(bounds, i, start, end) && |out.samples| == OutPos(start) && end - start <= job.config.hardCore
    modifies out, Touched(store)
    ensures s.Advanced? ==>
      && |out.samples| == OutPos(end) && Prepared(truth, job, store)
      && Append(out.samples, rest(i + 1)) == Append(old(out.samples), rest(i))
    ensures s.Failed? && Reliable(truth, store) ==> rest(i).None?
    ensures s.PausedRun? ==> mayPause && store != null
    ensures KeptGood(truth, store, old(HistoryOf(store)))
  {
    ghost var expected := CoreExpected(truth, job, raw.samples, f0.samples, bounds, i, start, end, rest);
    OutPosIncreases(start, end);
    if expected.Some? { AppendMore(out.samples, expected.value, rest(i + 1)); }
    if store == null {
      s := PlainCore(job, source, raw, f0, out, start, end);
    } else {
      assert Unseal(0);
      s := StoredCore(job, source, raw, f0, out, store, truth, mayPause, SynthKey(start), start, end, expected);
    }
  }

  lemma CoreExpected(truth: Truth, job: Job, raw: seq<Word>, f0: seq<Word>, bounds: seq<nat>, i: nat, start: nat,
                     end: nat, rest: nat -> Option<seq<Word>>)
    returns (expected: Option<seq<Word>>)
    requires ValidJob(job) && CoresReady(truth, job, raw, f0, bounds, rest)
    requires CoreAt(bounds, i, start, end) && end - start <= job.config.hardCore
    ensures start < end <= |job.source| && start < U64
    ensures expected == SynthBlock(job, raw, f0, start, end)
    ensures forall data :: truth(SynthKey(start), start, data) <==> expected == Some(data)
    ensures expected.Some? ==> |expected.value| == OutPos(end) - OutPos(start)
    ensures if expected.None? then rest(i).None? else rest(i) == Append(expected.value, rest(i + 1))
  {
    CoresStep(rest, job, raw, f0, bounds, i, start, end);
    expected := SynthBlock(job, raw, f0, start, end);
    forall data ensures truth(SynthKey(start), start, data) <==> expected == Some(data) {
      assert CoreTrueAt(truth, job, raw, f0, bounds, i, start, end, data);
    }
  }
}
