/** A preview of edited pitch: the store of a finished conversion seeds the store of the edited one with all pitch
    windows and with every core the edit does not touch. */
module PreviewSeed {
  import opened Spools
  import opened Bytes
  import opened StoreFiles
  import opened Disks
  import opened BlockCheckpoints
  import opened TrueStore
  import opened ConversionJob
  import opened Conversion
  import opened CheckpointedRun
  import opened Campaign
  import F0 = F0Windows

  /** The same conversion with other pitch edits. */
  function Reedited(job: Job, process: seq<Word> -> Option<seq<Word>>): Job { job.(process := process) }

  // ---------------------------------------------------------------- what an edit leaves alone

  /** The frames a core is synthesised from, as the seeding computes them. */
  function FirstFrame(start: nat): nat { start / Hop }

  function LastFrame(n: nat, pad: nat, frames: nat, end: nat): nat {
    Min(frames, Min(n + 2 * pad, end + 2 * pad + Hop) / Hop)
  }

  /** The seeding takes a padding of two seconds for granted. */
  function EvidencePad(job: Job): nat
    requires ValidJob(job)
  {
    Min(32000, |job.source| - 1)
  }

  function EvidenceFrames(job: Job): nat
    requires ValidJob(job)
  {
    (|job.source| + 2 * EvidencePad(job)) / Hop + 1
  }

  /** The conversion was padded as the seeding takes it to be. */
  predicate PaddedAsTaken(job: Job)
    requires ValidJob(job)
  {
    job.config.pad == EvidencePad(job)
  }

  ghost predicate SameFrames(a: seq<Word>, b: seq<Word>, first: nat, last: nat) {
    |a| == |b| && forall k: nat :: first <= k < last && k < |a| ==> a[k] == b[k]
  }

  lemma SameSlice(a: seq<Word>, b: seq<Word>, first: nat, last: nat)
    requires SameFrames(a, b, first, last) && first <= last <= |a|
    ensures a[first..last] == b[first..last]
  {
  }

  /** A core whose frames keep their pitch is synthesised to the same samples. */
  lemma UntouchedCore(job: Job, process: seq<Word> -> Option<seq<Word>>, raw: seq<Word>, f0: seq<Word>, f1: seq<Word>,
                      start: nat, end: nat)
    requires ValidJob(job) && start < end <= |job.source| && |f0| == |f1| == |raw|
    requires SameFrames(f0, f1, FirstFrame(start), LastFrame(|job.source|, job.config.pad, |raw|, end))
    ensures ValidJob(Reedited(job, process)) && SynthBlock(Reedited(job, process), raw, f1, start, end)
      == SynthBlock(job, raw, f0, start, end)
  {
    var first, last := FirstFrame(start), LastFrame(|job.source|, job.config.pad, |raw|, end);
    if first < last { SameSlice(f0, f1, first, last); }
  }

  /** The two conversions have the same pitch windows and the same cores. */
  lemma SameClip(job: Job, process: seq<Word> -> Option<seq<Word>>)
    requires ValidJob(job)
    ensures var edited := Reedited(job, process);
      && ValidJob(edited) && RawF0(edited) == RawF0(job) && JobBounds(edited) == JobBounds(job)
      && forall first: nat {:trigger F0Block(job, first)} :: F0Block(edited, first) == F0Block(job, first)
  {
  }

  /** A core of the old store that the edit does not touch is a core of the edited conversion. */
  lemma CoreStaysTrue(base: Truth, truth: Truth, job: Job, process: seq<Word> -> Option<seq<Word>>, raw: seq<Word>,
                      f0: seq<Word>, f1: seq<Word>, start: nat, end: nat, data: seq<Word>)
    requires ValidJob(job) && TruthOf(base, job) && ValidJob(Reedited(job, process))
      && TruthOf(truth, Reedited(job, process))
    requires RawF0(job) == Some(raw) && job.process(raw) == Some(f0) && process(raw) == Some(f1)
      && |f0| == |f1| == |raw|
    requires start < end <= |job.source| && base(SynthKey(start), start, data) && |data| == OutPos(end) - OutPos(start)
    requires SameFrames(f0, f1, FirstFrame(start), LastFrame(|job.source|, job.config.pad, |raw|, end))
    ensures truth(SynthKey(start), start, data)
  {
    var edited := Reedited(job, process);
    SameClip(job, process);
    assert TrueAt(base, job, SynthKey(start), start, data) && TrueAt(truth, edited, SynthKey(start), start, data);
    KeysInjective(start, start);
    var i, end2 :| CoreBlock(job, i, start, end2, data);
    SameEnd(start, end, end2);
    UntouchedCore(job, process, raw, f0, f1, start, end);
    assert CoreBlock(edited, i, start, end, data);
  }

  /** The length of a core's samples tells where it ends. */
  lemma SameEnd(start: nat, end: nat, end2: nat)
    requires start < end && start < end2 && OutPos(end) - OutPos(start) == OutPos(end2) - OutPos(start)
    ensures end == end2
  {
    if end < end2 { OutPosIncreases(end, end2); }
    if end2 < end { OutPosIncreases(end2, end); }
  }

  // ---------------------------------------------------------------- reading the old store

  /** A store opened for reading only, over blocks of its conversion. */
  ghost predicate Readable(store: BlockCheckpoint, truth: Truth)
    reads store, store.disk
  {
    forall k {:trigger Unseal(k)} :: Unseal(k) ==>
      store.Valid() && store.healthy && Good(truth, store.st, store.disk.files)
  }

  method Look(store: BlockCheckpoint, ghost truth: Truth, key: string, offset: nat, count: nat)
    returns (r: Option<seq<Word>>)
    requires Readable(store, truth) && offset < Pow256(8)
    modifies store`hits
    ensures Readable(store, truth)
    ensures r.Some? ==> truth(key, offset, r.value) && |r.value| == count && AllFinite(r.value)
  {
    assert Unseal(0);
    var loaded := store.Load(key, offset, count);
    if loaded.Present? {
      TrueAnswer(truth, store.st, store.disk.files, key, offset, count);
      return Some(loaded.data);
    }
    r := None;
  }

  lemma WindowFits(job: Job, first: nat, data: seq<Word>)
    requires ValidJob(job) && WindowStart(first) && first < Frames(job) && F0Block(job, first) == Some(data)
    ensures first < U64 && |data| == Min(F0.CoreFrames, Frames(job) - first)
  {
    OffsetsFit(job);
    F0.BlockLength(Extraction(job), Padded(job), job.context, first);
    F0.PlanCovers(|Padded(job)|, first, job.context);
  }

  /** One window, and the windows behind it. */
  lemma NextRest(rest: nat -> Option<seq<Word>>, job: Job, first: nat, data: seq<Word>)
    requires ValidJob(job) && RestOf(rest, job) && WindowStart(first) && first < Frames(job)
      && F0Block(job, first) == Some(data)
    ensures WindowStart(first + F0.CoreFrames) && rest(first) == Append(data, rest(first + F0.CoreFrames))
    ensures first + F0.CoreFrames >= Frames(job) ==> rest(first + F0.CoreFrames) == Some([])
  {
    NextStart(first);
    RestStep(rest, job, first);
    F0.PlanCovers(|Padded(job)|, first, job.context);
    if first + F0.CoreFrames >= Frames(job) { NothingBehind(rest, job, first + F0.CoreFrames); }
  }

  lemma NextStart(first: nat)
    requires WindowStart(first)
    ensures WindowStart(first + F0.CoreFrames)
  {
  }

  lemma NothingBehind(rest: nat -> Option<seq<Word>>, job: Job, first: nat)
    requires ValidJob(job) && RestOf(rest, job) && first >= Frames(job)
    ensures rest(first) == Some([])
  {
    assert RestAt(rest, job, first);
  }

  lemma EvidenceFits(job: Job)
    requires ValidJob(job)
    ensures EvidenceFrames(job) < U64
  {
  }

  lemma InFrames(job: Job, first: nat, data: seq<Word>)
    requires ValidJob(job) && F0Block(job, first) == Some(data)
    ensures first < Frames(job)
  {
    F0.BlockLength(Extraction(job), Padded(job), job.context, first);
    F0.PlanCovers(|Padded(job)|, first, job.context);
  }

  /** The windows taken for the whole pitch are all of it, or end with a full one before its end. */
  ghost predicate Cut(job: Job)
    requires ValidJob(job)
  {
    EvidenceFrames(job) == Frames(job) || (WindowStart(EvidenceFrames(job)) && EvidenceFrames(job) < Frames(job))
  }

  lemma CutAt(job: Job, i: nat)
    requires ValidJob(job) && WindowStart(i + F0.CoreFrames) && i < EvidenceFrames(job) && i < Frames(job)
    requires Min(F0.CoreFrames, EvidenceFrames(job) - i) == Min(F0.CoreFrames, Frames(job) - i)
    ensures i + F0.CoreFrames >= EvidenceFrames(job) ==> Cut(job)
  {
    if i + F0.CoreFrames == EvidenceFrames(job) { assert WindowStart(EvidenceFrames(job)); }
  }

  /** The window at i, and what stands behind it. */
  method ReadWindow(job: Job, store: BlockCheckpoint, ghost truth: Truth, ghost rest: nat -> Option<seq<Word>>,
                    out: seq<Word>, i: nat)
    returns (longer: Option<seq<Word>>)
    requires ValidJob(job) && Readable(store, truth) && TruthOf(truth, job) && RestOf(rest, job)
    requires WindowStart(i) && i < EvidenceFrames(job)
    modifies store`hits
    ensures Readable(store, truth)
    ensures longer.Some? ==>
      && WindowStart(i + F0.CoreFrames) && Append(longer.value, rest(i + F0.CoreFrames)) == Append(out, rest(i))
      && (i + F0.CoreFrames >= Frames(job) ==> rest(i + F0.CoreFrames) == Some([]))
      && (i + F0.CoreFrames >= EvidenceFrames(job) ==> Cut(job))
  {
    OffsetsFit(job);
    EvidenceFits(job);
    var block := Look(store, truth, F0Key(i), i, Min(F0.CoreFrames, EvidenceFrames(job) - i));
    if block.None? { return None; }
    F0BlockTruth(truth, job, i, block.value);
    InFrames(job, i, block.value);
    WindowFits(job, i, block.value);
    NextStart(i);
    CutAt(job, i);
    NextRest(rest, job, i, block.value);
    AppendMore(out, block.value, rest(i + F0.CoreFrames));
    longer := Some(out + block.value);
  }

  /** The raw pitch of the finished conversion, window by window. A store of another number of frames is refused, unless
      the frames looked for end with a full window before the end. */
  method ReadEvidence(job: Job, store: BlockCheckpoint, ghost truth: Truth) returns (raw: Option<seq<Word>>)
    requires ValidJob(job) && Readable(store, truth) && TruthOf(truth, job)
    modifies store`hits
    ensures Readable(store, truth)
    ensures raw.Some? ==> Cut(job)
    ensures raw.Some? && EvidenceFrames(job) == Frames(job) ==> RawF0(job) == raw
  {
    if EvidenceFrames(job) > 61100 { return None; }
    ghost var rest := SomeRest(job);
    RestWhole(rest, job);
    AppendNone(rest(0));
    var out, i, count := [], 0, EvidenceFrames(job);
    while i < count
      invariant Readable(store, truth) && Append(out, rest(i)) == rest(0) && WindowStart(i)
      invariant i >= count ==> Cut(job) && (count == Frames(job) ==> rest(i) == Some([]))
      decreases count - i
    {
      var longer := ReadWindow(job, store, truth, rest, out, i);
      if longer.None? { return None; }
      out := longer.value;
      i := i + F0.CoreFrames;
    }
    assert out + [] == out;
    raw := Some(out);
  }

  // ---------------------------------------------------------------- what has changed

  ghost predicate IsChanged(changed: seq<nat>, f0: seq<Word>, f1: seq<Word>, count: nat)
    requires |f0| == |f1| && count <= |f0|
  {
    && (forall i, j :: 0 <= i < j < |changed| ==> changed[i] < changed[j])
    && (forall i :: 0 <= i < |changed| ==> changed[i] < count)
    && (forall k: nat :: k < count && f0[k] != f1[k] ==> k in changed)
  }

  /** The seconds a preview plays. */
  datatype Span = Span(start: real, end: real)

  predicate SpanOk(span: Span, n: nat) {
    0.0 <= span.start < span.end && span.end - span.start <= 15.0 && span.end <= n as real / InputRate as real
  }

  /** Frame k of the padded clip lies in the span, give or take a frame. */
  predicate Near(span: Span, pad: nat, k: nat) {
    var t := k as real / 100.0 - pad as real / InputRate as real;
    span.start - 0.011 <= t <= span.end + 0.011
  }

  ghost predicate ChangesNear(span: Span, pad: nat, f0: seq<Word>, f1: seq<Word>, count: nat)
    requires |f0| == |f1| && count <= |f0|
  {
    forall k: nat :: k < count && f0[k] != f1[k] ==> Near(span, pad, k)
  }

  /** The frames that differ; None when one of them lies outside the span. */
  method ChangedFrames(f0: seq<Word>, f1: seq<Word>, span: Span, pad: nat) returns (changed: Option<seq<nat>>)
    requires |f0| == |f1|
    ensures changed.Some? <==> ChangesNear(span, pad, f0, f1, |f0|)
    ensures changed.Some? ==> IsChanged(changed.value, f0, f1, |f0|)
  {
    var found: seq<nat> := [];
    for i := 0 to |f0|
      invariant IsChanged(found, f0, f1, i) && ChangesNear(span, pad, f0, f1, i)
    {
      if f0[i] != f1[i] {
        if !Near(span, pad, i) { return None; }
        found := found + [i];
      }
    }
    changed := Some(found);
  }

  /** Whether a changed frame lies in [first, last): the least one from `first` on decides. */
  method IsAffected(changed: seq<nat>, f0: seq<Word>, f1: seq<Word>, first: nat, last: nat) returns (affected: bool)
    requires |f0| == |f1| && IsChanged(changed, f0, f1, |f0|)
    ensures !affected ==> SameFrames(f0, f1, first, last)
  {
    var i := 0;
    while i < |changed| && changed[i] < first
      invariant 0 <= i <= |changed| && forall j :: 0 <= j < i ==> changed[j] < first
    {
      i := i + 1;
    }
    affected := i < |changed| && changed[i] < last;
    if !affected {
      forall k: nat | k < |f0| && f0[k] != f1[k] ensures k < first || last <= k {
        assert k in changed;
        var j :| 0 <= j < |changed| && changed[j] == k;
        if j >= i { assert changed[i] <= changed[j]; }
      }
    }
  }

  // ---------------------------------------------------------------- the cores

  datatype Core = Core(offset: nat, count: nat)

  function CoreEnd(job: Job, cores: seq<Core>, i: nat): nat
    requires i < |cores|
  {
    if i + 1 < |cores| then cores[i + 1].offset else |job.source|
  }

  /** One core of the list: where the next one begins, with as many samples as fit between. */
  predicate CoreFits(job: Job, cores: seq<Core>, i: nat)
    requires i < |cores|
  {
    && cores[i].offset < CoreEnd(job, cores, i) <= |job.source|
    && OutPos(cores[i].offset) <= OutPos(CoreEnd(job, cores, i))
    && cores[i].count == OutPos(CoreEnd(job, cores, i)) - OutPos(cores[i].offset)
  }

  /** What is known of core i: it fits, and unless it is to be made anew, its frames keep their pitch. */
  ghost predicate Judged(job: Job, cores: seq<Core>, f0: seq<Word>, f1: seq<Word>, invalid: seq<bool>, i: nat)
    requires ValidJob(job)
  {
    i < |cores| && i < |invalid| ==>
      CoreFits(job, cores, i) && (!invalid[i] ==>
        SameFrames(f0, f1, FirstFrame(cores[i].offset),
        LastFrame(|job.source|, EvidencePad(job), |f0|, CoreEnd(job, cores, i))))
  }

  /** The checks of one core. */
  method JudgeCore(job: Job, store: BlockCheckpoint, ghost truth: Truth, cores: seq<Core>, f0: seq<Word>, f1: seq<Word>,
                   changed: seq<nat>, i: nat)
    returns (ok: bool, affected: bool)
    requires ValidJob(job) && Readable(store, truth) && i < |cores| && |f0| == |f1| && IsChanged(changed, f0, f1, |f0|)
    modifies store`hits
    ensures Readable(store, truth)
    ensures ok ==> CoreFits(job, cores, i)
    ensures ok && !affected ==> SameFrames(f0, f1, FirstFrame(cores[i].offset),
      LastFrame(|job.source|, EvidencePad(job), |f0|, CoreEnd(job, cores, i)))
  {
    var end := CoreEnd(job, cores, i);
    affected := false;
    if end <= cores[i].offset || end > |job.source| { return false, false; }
    OutPosIncreases(cores[i].offset, end);
    if cores[i].count != OutPos(end) - OutPos(cores[i].offset) { return false, false; }
    affected := IsAffected(changed, f0, f1, FirstFrame(cores[i].offset),
      LastFrame(|job.source|, EvidencePad(job), |f0|, end));
    OffsetsFit(job);
    var present := Look(store, truth, SynthKey(cores[i].offset), cores[i].offset, cores[i].count);
    ok := present.Some?;
  }

  function Trues(s: seq<bool>): nat { if |s| == 0 then 0 else Trues(s[..|s| - 1]) + if s[|s| - 1] then 1 else 0 }

  /** All cores: which of them the edit touches, and how many. */
  method JudgeCores(job: Job, store: BlockCheckpoint, ghost truth: Truth, cores: seq<Core>, f0: seq<Word>,
                    f1: seq<Word>, span: Span)
    returns (invalid: Option<seq<bool>>, recompute: nat)
    requires ValidJob(job) && Readable(store, truth) && |f0| == |f1|
    modifies store`hits
    ensures Readable(store, truth)
    ensures invalid.Some? ==> |invalid.value| == |cores| && recompute == Trues(invalid.value)
    ensures invalid.Some? ==> ChangesNear(span, EvidencePad(job), f0, f1, |f0|)
    ensures invalid.Some? ==> forall i: nat :: Judged(job, cores, f0, f1, invalid.value, i)
  {
    recompute := 0;
    var frames := ChangedFrames(f0, f1, span, EvidencePad(job));
    if frames.None? { return None, 0; }
    var changed := frames.value;
    var out: seq<bool> := [];
    while |out| < |cores|
      invariant |out| <= |cores| && Readable(store, truth) && recompute == Trues(out)
        && forall i: nat :: Judged(job, cores, f0, f1, out, i)
      decreases |cores| - |out|
    {
      var ok, affected := JudgeCore(job, store, truth, cores, f0, f1, changed, |out|);
      if !ok { return None, 0; }
      JudgedMore(job, cores, f0, f1, out, affected);
      assert (out + [affected])[..|out|] == out;
      out := out + [affected];
      if affected { recompute := recompute + 1; }
    }
    invalid := Some(out);
  }

  lemma JudgedMore(job: Job, cores: seq<Core>, f0: seq<Word>, f1: seq<Word>, out: seq<bool>, affected: bool)
    requires ValidJob(job) && |out| < |cores| && CoreFits(job, cores, |out|)
      && forall i: nat :: Judged(job, cores, f0, f1, out, i)
    requires !affected ==> SameFrames(f0, f1, FirstFrame(cores[|out|].offset),
      LastFrame(|job.source|, EvidencePad(job), |f0|, CoreEnd(job, cores, |out|)))
    ensures forall i: nat :: Judged(job, cores, f0, f1, out + [affected], i)
  {
    forall i: nat ensures Judged(job, cores, f0, f1, out + [affected], i) {
      assert Judged(job, cores, f0, f1, out, i);
    }
  }

  // ---------------------------------------------------------------- the pitch windows, cut again

  lemma {:induction false} TailLength(rest: nat -> Option<seq<Word>>, job: Job, first: nat, tail: seq<Word>)
    requires ValidJob(job) && RestOf(rest, job) && WindowStart(first) && first < Frames(job)
      && rest(first) == Some(tail)
    ensures |tail| == Frames(job) - first && F0Block(job, first).Some?
    decreases Frames(job) - first
  {
    RestStep(rest, job, first);
    var d := F0Block(job, first).value;
    WindowFits(job, first, d);
    NextRest(rest, job, first, d);
    if first + F0.CoreFrames < Frames(job) {
      TailLength(rest, job, first + F0.CoreFrames, rest(first + F0.CoreFrames).value);
    }
  }

  /** Cutting the whole pitch at the windows' starts gives the windows back. */
  lemma {:induction false} WindowSlice(rest: nat -> Option<seq<Word>>, job: Job, first: nat, tail: seq<Word>, i: nat)
    requires ValidJob(job) && RestOf(rest, job) && WindowStart(first) && WindowStart(i) && first <= i < Frames(job)
      && rest(first) == Some(tail)
    ensures |tail| == Frames(job) - first
    ensures F0Block(job, i) == Some(tail[i - first..Min(i + F0.CoreFrames, Frames(job)) - first])
    decreases i - first
  {
    TailLength(rest, job, first, tail);
    var d := F0Block(job, first).value;
    WindowFits(job, first, d);
    NextRest(rest, job, first, d);
    var more := rest(first + F0.CoreFrames).value;
    assert tail == d + more;
    if i > first {
      WindowsApart(first, i);
      WindowSlice(rest, job, first + F0.CoreFrames, more, i);
      SliceBehind(d, more, first, i, Frames(job));
    } else {
      SliceFront(d, more, Min(first + F0.CoreFrames, Frames(job)) - first);
    }
  }

  lemma SliceFront(a: seq<Word>, b: seq<Word>, n: int)
    requires n == |a|
    ensures (a + b)[0..n] == a
  {
  }

  lemma WindowsApart(first: nat, i: nat)
    requires WindowStart(first) && WindowStart(i) && first < i
    ensures first + F0.CoreFrames <= i
  {
  }

  lemma SliceBehind(a: seq<Word>, b: seq<Word>, first: nat, i: nat, n: nat)
    requires |a| == F0.CoreFrames && |a| + |b| == n - first && first + F0.CoreFrames <= i < n
    ensures var end := Min(i + F0.CoreFrames, n);
      (a + b)[i - first..end - first] == b[i - first - F0.CoreFrames..end - first - F0.CoreFrames]
  {
  }

  /** All windows of the pitch, filed under their keys. */
  method SeedWindows(job: Job, target: BlockCheckpoint, ghost truth: Truth, raw: seq<Word>) returns (ok: bool)
    requires ValidJob(job) && Prepared(truth, job, target) && RawF0(job) == Some(raw)
    modifies target, target.disk
    ensures KeptGood(truth, target, old(target.disk.history))
    ensures ok ==>
      Prepared(truth, job, target) && old(target.disk.files).Keys <= target.disk.files.Keys
      && Filed(job, target.disk.files, Frames(job))
    ensures !ok ==> target.disk.mayFail || !Ample(truth, target.st)
  {
    ghost var rest := SomeRest(job);
    RestWhole(rest, job);
    TailLength(rest, job, 0, raw);
    KeptStart(truth, job, target);
    ghost var before, f0 := target.disk.history, target.disk.files;
    var i := 0;
    while i < |raw|
      invariant WindowStart(i) && Prepared(truth, job, target) && KeptGood(truth, target, before)
      invariant f0.Keys <= target.disk.files.Keys && Filed(job, target.disk.files, i)
      decreases |raw| - i
    {
      ok := SeedWindow(job, target, truth, raw, i, rest, before);
      if !ok { return; }
      i := i + F0.CoreFrames;
    }
    ok := true;
  }

  /** The windows that start before frame `count` are filed. */
  ghost predicate Filed(job: Job, f: Files, count: nat) {
    forall i: nat :: WindowStart(i) && i < count && i < Frames(job) ==> Block(F0Key(i)) in f
  }

  method SeedWindow(job: Job, target: BlockCheckpoint, ghost truth: Truth, raw: seq<Word>, i: nat,
                    ghost rest: nat -> Option<seq<Word>>, ghost before: seq<Files>)
    returns (ok: bool)
    requires ValidJob(job) && Prepared(truth, job, target) && RestOf(rest, job) && rest(0) == Some(raw)
    requires WindowStart(i) && i < |raw| == Frames(job) && KeptGood(truth, target, before)
      && Filed(job, target.disk.files, i)
    modifies target, target.disk
    ensures KeptGood(truth, target, before)
    ensures ok ==>
      Prepared(truth, job, target) && WindowStart(i + F0.CoreFrames) && Filed(job, target.disk.files, i + F0.CoreFrames)
    ensures ok ==> old(target.disk.files).Keys <= target.disk.files.Keys
    ensures !ok ==> target.disk.mayFail || !Ample(truth, target.st)
  {
    ghost var was := target.disk.files;
    var data := raw[i..Min(i + F0.CoreFrames, |raw|)];
    assert TruthOf(truth, job) by { assert Unseal(0); }
    WindowData(job, truth, rest, raw, i, data);
    ok := FileGood(job, target, truth, F0Key(i), i, data, before);
    if ok { FiledMore(job, was, target.disk.files, i); }
  }

  lemma WindowData(job: Job, truth: Truth, rest: nat -> Option<seq<Word>>, raw: seq<Word>, i: nat, data: seq<Word>)
    requires ValidJob(job) && TruthOf(truth, job) && RestOf(rest, job) && rest(0) == Some(raw)
    requires WindowStart(i) && i < |raw| == Frames(job) && data == raw[i..Min(i + F0.CoreFrames, |raw|)]
    ensures truth(F0Key(i), i, data) && i < Pow256(8)
  {
    WindowSlice(rest, job, 0, raw, i);
    WindowFits(job, i, data);
    F0BlockTruth(truth, job, i, data);
    OffsetsFit(job);
  }

  lemma FiledMore(job: Job, f0: Files, f: Files, i: nat)
    requires WindowStart(i) && Filed(job, f0, i) && f0.Keys <= f.Keys && Block(F0Key(i)) in f
    ensures WindowStart(i + F0.CoreFrames) && Filed(job, f, i + F0.CoreFrames)
  {
    forall k: nat | WindowStart(k) && k < i + F0.CoreFrames && k < Frames(job) ensures Block(F0Key(k)) in f {
      if k > i { WindowsApart(i, k); }
    }
  }

  /** A block filed; anything but a saved or equal block ends the seeding. */
  method FileGood(ghost job: Job, target: BlockCheckpoint, ghost truth: Truth, key: string, offset: nat,
                  data: seq<Word>, ghost before: seq<Files>)
    returns (ok: bool)
    requires ValidJob(job) && Prepared(truth, job, target) && truth(key, offset, data) && offset < Pow256(8)
      && KeptGood(truth, target, before)
    modifies target, target.disk
    ensures KeptGood(truth, target, before)
    ensures ok ==>
      Prepared(truth, job, target) && Block(key) in target.disk.files
      && old(target.disk.files).Keys <= target.disk.files.Keys
    ensures !ok ==> target.disk.mayFail || !Ample(truth, target.st)
  {
    ghost var mid, was := target.disk.history, target.disk.files;
    assert Unseal(0);
    var outcome := FileBlock(target, truth, key, offset, data);
    KeptJoin(truth, target, before, mid, was);
    ok := outcome.Saved? || outcome.Kept?;
  }

  // ---------------------------------------------------------------- the untouched cores

  /** What the seeding knows of the two conversions. */
  ghost predicate Related(job: Job, process: seq<Word> -> Option<seq<Word>>, base: Truth, truth: Truth, raw: seq<Word>,
                          f0: seq<Word>, f1: seq<Word>)
    requires ValidJob(job)
  {
    && ValidJob(Reedited(job, process)) && |f0| == |f1| == |raw|
    && forall k {:trigger Unseal(k)} :: Unseal(k) ==>
      && TruthOf(base, job) && TruthOf(truth, Reedited(job, process))
      && RawF0(job) == Some(raw) && job.process(raw) == Some(f0) && process(raw) == Some(f1)
  }

  lemma CoreSeed(job: Job, process: seq<Word> -> Option<seq<Word>>, base: Truth, truth: Truth, raw: seq<Word>,
                 f0: seq<Word>, f1: seq<Word>, start: nat, end: nat, data: seq<Word>)
    requires ValidJob(job) && Related(job, process, base, truth, raw, f0, f1)
    requires start < end <= |job.source| && base(SynthKey(start), start, data) && |data| == OutPos(end) - OutPos(start)
    requires SameFrames(f0, f1, FirstFrame(start), LastFrame(|job.source|, job.config.pad, |raw|, end))
    ensures truth(SynthKey(start), start, data)
  {
    assert Unseal(0);
    CoreStaysTrue(base, truth, job, process, raw, f0, f1, start, end, data);
  }

  /** Core i, loaded once more and filed. */
  method SeedCore(job: Job, process: seq<Word> -> Option<seq<Word>>, store: BlockCheckpoint, ghost base: Truth,
                  target: BlockCheckpoint, ghost truth: Truth, ghost raw: seq<Word>, ghost f0: seq<Word>,
                  ghost f1: seq<Word>, cores: seq<Core>, i: nat, ghost before: seq<Files>)
    returns (ok: bool)
    requires ValidJob(job) && Related(job, process, base, truth, raw, f0, f1) && Readable(store, base)
      && Prepared(truth, Reedited(job, process), target)
    requires store != target && store.disk != target.disk && KeptGood(truth, target, before) && i < |cores|
      && CoreFits(job, cores, i)
    requires SameFrames(f0, f1, FirstFrame(cores[i].offset),
      LastFrame(|job.source|, EvidencePad(job), |f0|, CoreEnd(job, cores, i)))
    requires PaddedAsTaken(job)
    modifies store`hits, target, target.disk
    ensures Readable(store, base) && KeptGood(truth, target, before)
    ensures ok ==>
      Prepared(truth, Reedited(job, process), target) && Block(SynthKey(cores[i].offset)) in target.disk.files
      && old(target.disk.files).Keys <= target.disk.files.Keys
  {
    OffsetsFit(job);
    var data := Look(store, base, SynthKey(cores[i].offset), cores[i].offset, cores[i].count);
    if data.None? { return false; }
    CoreSeed(job, process, base, truth, raw, f0, f1, cores[i].offset, CoreEnd(job, cores, i), data.value);
    ok := FileGood(Reedited(job, process), target, truth, SynthKey(cores[i].offset), cores[i].offset, data.value,
      before);
  }

  /** The first `count` cores are filed, but for those to be made anew. */
  ghost predicate CoresFiled(cores: seq<Core>, invalid: seq<bool>, f: Files, count: nat) {
    forall i: nat :: i < count && i < |cores| && i < |invalid| && !invalid[i] ==> Block(SynthKey(cores[i].offset)) in f
  }

  method SeedCores(job: Job, process: seq<Word> -> Option<seq<Word>>, store: BlockCheckpoint, ghost base: Truth,
                   target: BlockCheckpoint, ghost truth: Truth, ghost raw: seq<Word>, ghost f0: seq<Word>,
                   ghost f1: seq<Word>, cores: seq<Core>, invalid: seq<bool>)
    returns (ok: bool)
    requires ValidJob(job) && Related(job, process, base, truth, raw, f0, f1) && Readable(store, base)
      && Prepared(truth, Reedited(job, process), target)
    requires PaddedAsTaken(job) && store != target && store.disk != target.disk && |invalid| == |cores|
      && forall i: nat :: Judged(job, cores, f0, f1, invalid, i)
    modifies store`hits, target, target.disk
    ensures Readable(store, base) && KeptGood(truth, target, old(target.disk.history))
    ensures ok ==>
      && Prepared(truth, Reedited(job, process), target) && old(target.disk.files).Keys <= target.disk.files.Keys
      && CoresFiled(cores, invalid, target.disk.files, |cores|)
  {
    KeptStart(truth, Reedited(job, process), target);
    ghost var before, g0 := target.disk.history, target.disk.files;
    var i := 0;
    while i < |cores|
      invariant 0 <= i <= |cores| && Readable(store, base) && Prepared(truth, Reedited(job, process), target)
        && KeptGood(truth, target, before)
      invariant g0.Keys <= target.disk.files.Keys && CoresFiled(cores, invalid, target.disk.files, i)
    {
      if !invalid[i] {
        assert Judged(job, cores, f0, f1, invalid, i);
        ok := SeedCore(job, process, store, base, target, truth, raw, f0, f1, cores, i, before);
        if !ok { return; }
      }
      i := i + 1;
    }
    ok := true;
  }

  // ---------------------------------------------------------------- the seeding

  /** The two pitch curves, frame by frame of the raw pitch. */
  method Curves(job: Job, process: seq<Word> -> Option<seq<Word>>, raw: seq<Word>)
    returns (r: Option<(seq<Word>, seq<Word>)>)
    ensures r.Some? ==>
      job.process(raw) == Some(r.value.0) && process(raw) == Some(r.value.1) && |r.value.0| == |r.value.1| == |raw|
  {
    var f0 := job.process(raw);
    var f1 := process(raw);
    if f0.None? || f1.None? || |f0.value| != |raw| || |f1.value| != |raw| { return None; }
    r := Some((f0.value, f1.value));
  }

  /** `seed_preview` up to the first write: the pitch of the finished conversion, both curves, and what they leave of
      its cores. */
  method PlanSeed(job: Job, process: seq<Word> -> Option<seq<Word>>, store: BlockCheckpoint, ghost base: Truth,
                  ghost truth: Truth, cores: seq<Core>, span: Span)
    returns (plan: Option<Plan>)
    requires ValidJob(job) && PaddedAsTaken(job) && TruthOf(base, job) && ValidJob(Reedited(job, process))
      && TruthOf(truth, Reedited(job, process)) && Readable(store, base)
    modifies store`hits
    ensures Readable(store, base)
    ensures plan.Some? ==>
      && Related(job, process, base, truth, plan.value.raw, plan.value.f0, plan.value.f1)
        && RawF0(Reedited(job, process)) == Some(plan.value.raw)
      && |plan.value.invalid| == |cores| && Trues(plan.value.invalid) == plan.value.recompute <= 2
      && SpanOk(span, |job.source|) && ChangesNear(span, job.config.pad, plan.value.f0, plan.value.f1, |plan.value.f0|)
      && forall i: nat :: Judged(job, cores, plan.value.f0, plan.value.f1, plan.value.invalid, i)
  {
    var raw := ReadEvidence(job, store, base);
    if raw.None? || !SpanOk(span, |job.source|) { return None; }
    var curves := Curves(job, process, raw.value);
    if curves.None? || |cores| == 0 || |cores| > 1024 || cores[0].offset != 0 { return None; }
    var judged, count := JudgeCores(job, store, base, cores, curves.value.0, curves.value.1, span);
    if judged.None? || count > 2 { return None; }
    SameClip(job, process);
    plan := Some(Plan(raw.value, curves.value.0, curves.value.1, judged.value, count));
  }

  datatype Plan = Plan(raw: seq<Word>, f0: seq<Word>, f1: seq<Word>, invalid: seq<bool>, recompute: nat)

  /** `seed_preview` over an opened target: the pitch windows and every core without a changed frame. Whatever happens
      on the way, the target holds only blocks that the edited conversion itself would file. */
  method SeedPreview(job: Job, process: seq<Word> -> Option<seq<Word>>, store: BlockCheckpoint, ghost base: Truth,
                     target: BlockCheckpoint, ghost truth: Truth, cores: seq<Core>, span: Span)
    returns (plan: Option<Plan>)
    requires ValidJob(job) && PaddedAsTaken(job) && TruthOf(base, job) && ValidJob(Reedited(job, process))
      && TruthOf(truth, Reedited(job, process))
    requires Readable(store, base) && Prepared(truth, Reedited(job, process), target) && store != target
      && store.disk != target.disk
    modifies store`hits, target, target.disk
    ensures Readable(store, base) && KeptGood(truth, target, old(target.disk.history))
    ensures plan.Some? ==>
      && Trues(plan.value.invalid) == plan.value.recompute <= 2 && Prepared(truth, Reedited(job, process), target)
        && Filed(job, target.disk.files, Frames(job))
      && |plan.value.invalid| == |cores| && CoresFiled(cores, plan.value.invalid, target.disk.files, |cores|)
      && |plan.value.f0| == |plan.value.f1| && ChangesNear(span, job.config.pad, plan.value.f0, plan.value.f1,
        |plan.value.f0|)
  {
    KeptStart(truth, Reedited(job, process), target);
    ghost var before := target.disk.history;
    plan := PlanSeed(job, process, store, base, truth, cores, span);
    if plan.None? { return; }
    var ok := SeedBoth(job, process, store, base, target, truth, cores, plan.value);
    if !ok { plan := None; }
  }

  /** The writes: all windows, then the cores. */
  method SeedBoth(job: Job, process: seq<Word> -> Option<seq<Word>>, store: BlockCheckpoint, ghost base: Truth,
                  target: BlockCheckpoint, ghost truth: Truth, cores: seq<Core>, plan: Plan)
    returns (ok: bool)
    requires ValidJob(job) && PaddedAsTaken(job) && Related(job, process, base, truth, plan.raw, plan.f0, plan.f1)
      && RawF0(Reedited(job, process)) == Some(plan.raw)
    requires |plan.invalid| == |cores| && forall i: nat :: Judged(job, cores, plan.f0, plan.f1, plan.invalid, i)
    requires Readable(store, base) && Prepared(truth, Reedited(job, process), target) && store != target
      && store.disk != target.disk
    modifies store`hits, target, target.disk
    ensures Readable(store, base) && KeptGood(truth, target, old(target.disk.history))
    ensures ok ==>
      && Prepared(truth, Reedited(job, process), target) && Filed(job, target.disk.files, Frames(job))
      && CoresFiled(cores, plan.invalid, target.disk.files, |cores|)
  {
    ghost var before := target.disk.history;
    ok := SeedWindows(Reedited(job, process), target, truth, plan.raw);
    if !ok { return; }
    ghost var mid, was := target.disk.history, target.disk.files;
    ok := SeedCores(job, process, store, base, target, truth, plan.raw, plan.f0, plan.f1, cores, plan.invalid);
    KeptJoin(truth, target, before, mid, was);
    if ok { StillFiled(job, process, was, target.disk.files); }
  }

  lemma StillFiled(job: Job, process: seq<Word> -> Option<seq<Word>>, f0: Files, f: Files)
    requires Filed(Reedited(job, process), f0, Frames(job)) && f0.Keys <= f.Keys
    ensures Filed(job, f, Frames(job))
  {
    forall i: nat | WindowStart(i) && i < Frames(job) ensures Block(F0Key(i)) in f {
      assert i < Frames(Reedited(job, process));
    }
  }

  /** From whatever a seeding leaves in its store, complete or torn, any number of interrupted attempts and one that is
      left alone give the result of converting the edited clip from the start. */
  method PreviewToEnd(job: Job, st: Store, seeded: Files, attempts: nat, ghost truth: Truth)
    returns (out: Option<seq<Word>>)
    requires ValidJob(job) && TruthOf(truth, job) && Functional(truth) && ValidLimits(st.limits)
      && Good(truth, st, seeded) && Ample(truth, st)
    ensures out == Uninterrupted(job)
  {
    var files := seeded;
    assert Restartable(truth, st, [files]);
    for k := 0 to attempts
      invariant Restartable(truth, st, [files])
    {
      var finished, partial;
      finished, partial, files := KillableAttempt(job, files, st, Resume, truth);
    }
    var disk := new Disk<Name>(files, false);
    var s, last := Attempt(job, disk, st, Resume, truth, false);
    out := if s.Advanced? then Some(last) else None;
  }

  /** A preview from its seeding to its end: the store is seeded, stopped or broken off in any state, and the conversion
      of the edited clip is run over what is there. */
  method Preview(job: Job, process: seq<Word> -> Option<seq<Word>>, store: BlockCheckpoint, ghost base: Truth,
                 st: Store, cores: seq<Core>, span: Span, attempts: nat)
    returns (out: Option<seq<Word>>)
    requires ValidJob(job) && PaddedAsTaken(job) && TruthOf(base, job) && ValidJob(Reedited(job, process))
      && Readable(store, base)
    requires ValidLimits(st.limits) && Roomy(Reedited(job, process), st)
    modifies store`hits
    ensures out == Uninterrupted(Reedited(job, process))
  {
    var edited := Reedited(job, process);
    ghost var truth := SomeTruth(edited);
    EmptyRestartable(truth, st);
    var disk := new Disk<Name>(map[], true);
    var target := OpenStore(edited, disk, st, CreateNew, truth);
    if target != null {
      ghost var h1 := disk.history;
      var plan := SeedPreview(job, process, store, base, target, truth, cores, span);
      RestartJoin(truth, st, h1, disk.history, disk.files);
    }
    var at: int := *;
    if at < 0 || at >= |disk.history| { at := |disk.history| - 1; }
    var seeded := disk.history[at];
    RestartGood(truth, st, disk.history, at);
    out := PreviewToEnd(edited, st, seeded, attempts, truth);
  }

  lemma RestartGood(truth: Truth, st: Store, history: seq<Files>, at: nat)
    requires Restartable(truth, st, history) && at < |history|
    ensures Good(truth, st, history[at])
  {
    assert Unseal(0);
  }
}
