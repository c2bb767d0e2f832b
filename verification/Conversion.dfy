/** The checkpointed conversion loops: every block is either loaded from the store or
    computed and filed, with a pause point on both sides. */
module Conversion {
  import opened Spools
  import opened Bytes
  import opened Decimals
  import opened TrueStore
  import opened ConversionJob
  import F0 = F0Windows
  import Quiet = QuietCores

  // ---------------------------------------------------------------- which block belongs under which key

  function F0Key(first: nat): string { "f0_" + Text(Dec(first)) }

  function SynthKey(start: nat): string { "synth_" + Text(Dec(start)) }

  lemma KeysInjective(a: nat, b: nat)
    ensures F0Key(a) == F0Key(b) ==> a == b
    ensures SynthKey(a) == SynthKey(b) ==> a == b
    ensures F0Key(a) != SynthKey(b)
  {
    if F0Key(a) == F0Key(b) {
      assert F0Key(a)[3..] == Text(Dec(a)) && F0Key(b)[3..] == Text(Dec(b));
      TextInjective(Dec(a), Dec(b));
      DecInjective(a, b);
    }
    if SynthKey(a) == SynthKey(b) {
      assert SynthKey(a)[6..] == Text(Dec(a)) && SynthKey(b)[6..] == Text(Dec(b));
      TextInjective(Dec(a), Dec(b));
      DecInjective(a, b);
    }
    assert F0Key(a)[0] == 'f' && SynthKey(b)[0] == 's';
  }

  ghost function JobBounds(job: Job): (b: seq<nat>)
    requires ValidJob(job)
    ensures |b| >= 2 && b[0] == 0
  {
    Quiet.Bounds(job.meter, job.source, job.config.chunk, job.config.query)
  }

  /** [start, end) is the i-th core of the clip. */
  ghost predicate CoreAt(bounds: seq<nat>, i: nat, start: nat, end: nat) {
    i + 1 < |bounds| && bounds[i] == start && bounds[i + 1] == end
  }

  /** The processed F0 an uninterrupted run works with. */
  function Processed(job: Job): Option<seq<Word>>
    requires ValidJob(job)
  {
    if RawF0(job).None? then None else job.process(RawF0(job).value)
  }

  ghost predicate CoreBlock(job: Job, i: nat, start: nat, end: nat, data: seq<Word>)
    requires ValidJob(job)
  {
    && CoreAt(JobBounds(job), i, start, end) && start < end <= |job.source|
    && Processed(job).Some? && SynthBlock(job, RawF0(job).value, Processed(job).value, start, end) == Some(data)
  }

  /** The first frames of the windows of a whole clip. */
  predicate WindowStart(first: nat) { first % F0.CoreFrames == 0 }

  ghost predicate Belongs(job: Job, key: string, offset: nat, data: seq<Word>)
    requires ValidJob(job)
  {
    || (key == F0Key(offset) && WindowStart(offset) && F0Block(job, offset) == Some(data))
    || (key == SynthKey(offset) && exists i, end :: CoreBlock(job, i, offset, end, data))
  }

  ghost predicate TrueAt(truth: Truth, job: Job, key: string, offset: nat, data: seq<Word>)
    requires ValidJob(job)
  {
    truth(key, offset, data) <==> Belongs(job, key, offset, data)
  }

  /** truth files exactly the blocks of this conversion. */
  ghost predicate TruthOf(truth: Truth, job: Job)
    requires ValidJob(job)
  {
    forall key, offset: nat, data :: TrueAt(truth, job, key, offset, data)
  }

  lemma SomeTruth(job: Job) returns (truth: Truth)
    requires ValidJob(job)
    ensures TruthOf(truth, job) && Functional(truth)
  {
    truth := (key, offset: nat, data) => Belongs(job, key, offset, data);
    forall key, offset: nat, data ensures TrueAt(truth, job, key, offset, data) {}
    forall key, o: nat, d, o2: nat, d2 ensures SameBlock(truth, key, o, d, o2, d2) {
      if truth(key, o, d) && truth(key, o2, d2) { BelongsOnce(job, key, o, d, o2, d2); }
    }
  }

  lemma BelongsOnce(job: Job, key: string, o: nat, d: seq<Word>, o2: nat, d2: seq<Word>)
    requires ValidJob(job) && Belongs(job, key, o, d) && Belongs(job, key, o2, d2)
    ensures o == o2 && d == d2
  {
    KeysInjective(o, o2);
    KeysInjective(o2, o);
    if key == SynthKey(o) {
      var i, end :| CoreBlock(job, i, o, end, d);
      var i2, end2 :| CoreBlock(job, i2, o2, end2, d2);
      BoundsIncrease(job);
      SameCore(JobBounds(job), i, i2);
    }
  }

  ghost predicate Increasing(b: seq<nat>) { forall i, j :: 0 <= i < j < |b| ==> b[i] < b[j] }

  lemma SameCore(b: seq<nat>, i: nat, j: nat)
    requires Increasing(b) && i < |b| && j < |b| && b[i] == b[j]
    ensures i == j
  {
  }

  lemma {:induction false} EndsIncrease(n: nat, start: nat, ends: seq<nat>)
    requires Ends(n, start, ends)
    ensures Increasing([start] + ends) && start <= n
    decreases |ends|
  {
    if |ends| > 0 {
      EndsIncrease(n, ends[0], ends[1..]);
      var b, r := [start] + ends, [ends[0]] + ends[1..];
      forall i, j | 0 <= i < j < |b| ensures b[i] < b[j] {
        assert r[j - 1] == b[j];
        if i > 0 { assert r[i - 1] == b[i]; } else if j > 1 { assert r[0] < r[j - 1]; }
      }
    }
  }

  lemma {:induction false} CutsAreEnds(cut: nat -> nat, n: nat, chunk: nat, target: nat, last: nat)
    requires chunk > 0 && last < n
    ensures Ends(n, last, Quiet.Cuts(cut, n, chunk, target, last) + [n])
    decreases n - target
  {
    var cuts := Quiet.Cuts(cut, n, chunk, target, last);
    if target < n && cut(target) > last && cut(target) < n {
      CutsAreEnds(cut, n, chunk, target + chunk, cut(target));
      assert (cuts + [n])[1..] == Quiet.Cuts(cut, n, chunk, target + chunk, cut(target)) + [n];
    } else if target < n {
      CutsAreEnds(cut, n, chunk, target + chunk, last);
    } else {
      assert cuts + [n] == [n];
      assert [n][1..] == [];
    }
  }

  lemma BoundsAreEnds(job: Job)
    requires ValidJob(job)
    ensures Ends(|job.source|, 0, JobBounds(job)[1..])
  {
    var cut := Quiet.Search(job.meter, job.source, job.config.chunk, job.config.query);
    CutsAreEnds(cut, |job.source|, job.config.chunk, job.config.chunk, 0);
    assert JobBounds(job)[1..] == Quiet.Cuts(cut, |job.source|, job.config.chunk, job.config.chunk, 0) + [|job.source|];
  }

  lemma BoundsIncrease(job: Job)
    requires ValidJob(job)
    ensures Increasing(JobBounds(job))
  {
    BoundsAreEnds(job);
    EndsIncrease(|job.source|, 0, JobBounds(job)[1..]);
    assert [0] + JobBounds(job)[1..] == JobBounds(job);
  }
}
