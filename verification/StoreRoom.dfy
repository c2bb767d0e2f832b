/** How many blocks, and of what size, a conversion files; and the limits that are always enough for them. */
module StoreRoom {
  import opened Spools
  import opened Bytes
  import opened Decimals
  import opened StoreFiles
  import opened BlockCheckpoints
  import opened TrueStore
  import opened ConversionJob
  import opened Conversion
  import opened CheckpointedRun
  import opened Campaign
  import F0 = F0Windows
  import Quiet = QuietCores

  // ---------------------------------------------------------------- a list of blocks as a budget

  /** A block that may be filed, and the size of its file. */
  datatype Unit = Unit(key: string, bytes: nat)

  function Sum(units: seq<Unit>): nat {
    if |units| == 0 then 0 else Sum(units[..|units| - 1]) + units[|units| - 1].bytes
  }

  ghost predicate Budgeted(units: seq<Unit>, key: string, bytes: nat) {
    exists i :: 0 <= i < |units| && units[i] == Unit(key, bytes)
  }

  ghost predicate KeyInBudget(units: seq<Unit>, m: map<string, seq<byte>>, key: string) {
    key in m ==> Budgeted(units, key, |m[key]|)
  }

  ghost predicate WithinBudget(units: seq<Unit>, m: map<string, seq<byte>>) { forall key :: KeyInBudget(units, m, key) }

  lemma {:induction false} BudgetHolds(units: seq<Unit>, m: map<string, seq<byte>>)
    requires WithinBudget(units, m)
    ensures |m| <= |units| && Total(m) <= Sum(units)
    decreases |units|
  {
    if |units| == 0 {
      forall key ensures key !in m { assert KeyInBudget(units, m, key); }
      assert m == map[];
    } else {
      var last, rest := units[|units| - 1], units[..|units| - 1];
      var less := if last.key in m && |m[last.key]| == last.bytes then m - {last.key} else m;
      forall key ensures KeyInBudget(rest, less, key) {
        assert KeyInBudget(units, m, key);
        if key in less {
          var i :| 0 <= i < |units| && units[i] == Unit(key, |m[key]|);
          assert rest[i] == units[i];
        }
      }
      BudgetHolds(rest, less);
      if less != m {
        TotalRemove(m, last.key);
        assert |m| == |less| + 1;
      }
    }
  }

  lemma SumMore(units: seq<Unit>, u: Unit)
    ensures Sum(units + [u]) == Sum(units) + u.bytes
  {
    assert (units + [u])[..|units|] == units;
  }

  // ---------------------------------------------------------------- the blocks of a conversion

  function Windows(job: Job): nat { (Frames(job) - 1) / F0.CoreFrames + 1 }

  function WindowUnit(job: Job, i: nat): Unit
    requires i < Windows(job)
  {
    Unit(F0Key(i * F0.CoreFrames), HeaderSize + 4 * Min(F0.CoreFrames, Frames(job) - i * F0.CoreFrames))
  }

  function WindowUnits(job: Job, count: nat): (units: seq<Unit>)
    requires count <= Windows(job)
    ensures |units| == count && forall i :: 0 <= i < count ==> units[i] == WindowUnit(job, i)
  {
    if count == 0 then [] else WindowUnits(job, count - 1) + [WindowUnit(job, count - 1)]
  }

  lemma {:induction false} WindowSum(job: Job, count: nat)
    requires count <= Windows(job)
    ensures Sum(WindowUnits(job, count)) == HeaderSize * count + 4 * Min(count * F0.CoreFrames, Frames(job))
  {
    if count > 0 {
      WindowSum(job, count - 1);
      SumMore(WindowUnits(job, count - 1), WindowUnit(job, count - 1));
    }
  }

  ghost function CoreUnit(bounds: seq<nat>, i: nat): Unit
    requires i + 1 < |bounds| && Increasing(bounds)
  {
    OutPosIncreases(bounds[i], bounds[i + 1]);
    Unit(SynthKey(bounds[i]), HeaderSize + 4 * (OutPos(bounds[i + 1]) - OutPos(bounds[i])))
  }

  ghost function CoreUnits(bounds: seq<nat>, count: nat): (units: seq<Unit>)
    requires count < |bounds| && Increasing(bounds)
    ensures |units| == count && forall i :: 0 <= i < count ==> units[i] == CoreUnit(bounds, i)
  {
    if count == 0 then [] else CoreUnits(bounds, count - 1) + [CoreUnit(bounds, count - 1)]
  }

  lemma {:induction false} CoreSum(bounds: seq<nat>, count: nat)
    requires count < |bounds| && Increasing(bounds)
    ensures OutPos(bounds[0]) <= OutPos(bounds[count])
    ensures Sum(CoreUnits(bounds, count)) == HeaderSize * count + 4 * (OutPos(bounds[count]) - OutPos(bounds[0]))
  {
    if count > 0 {
      CoreSum(bounds, count - 1);
      OutPosIncreases(bounds[count - 1], bounds[count]);
      SumMore(CoreUnits(bounds, count - 1), CoreUnit(bounds, count - 1));
    }
  }

  /** Every block a conversion can ever file. */
  ghost function AllUnits(job: Job): seq<Unit>
    requires ValidJob(job)
  {
    BoundsIncrease(job);
    WindowUnits(job, Windows(job)) + CoreUnits(JobBounds(job), |JobBounds(job)| - 1)
  }

  lemma {:induction false} SumJoin(a: seq<Unit>, b: seq<Unit>)
    ensures Sum(a + b) == Sum(a) + Sum(b)
    decreases |b|
  {
    if |b| == 0 {
      assert a + b == a;
    } else {
      var rest := b[..|b| - 1];
      SumJoin(a, rest);
      assert a + b == (a + rest) + [b[|b| - 1]];
      SumMore(a + rest, b[|b| - 1]);
    }
  }

  /** The chunks begun in n samples. */
  function Chunks(n: nat, chunk: nat): nat
    requires chunk > 0
    decreases n
  {
    if n == 0 then 0 else 1 + Chunks(n - Min(n, chunk), chunk)
  }

  /** Cores are at most one for every chunk begun. */
  lemma {:induction false} CutCount(cut: nat -> nat, n: nat, chunk: nat, target: nat, last: nat)
    requires chunk > 0
    ensures |Quiet.Cuts(cut, n, chunk, target, last)| <= Chunks(n - Min(n, target), chunk)
    decreases n - target
  {
    if target < n {
      CutCount(cut, n, chunk, target + chunk, if cut(target) > last && cut(target) < n then cut(target) else last);
    }
  }

  lemma {:induction false} FewChunks(n: nat, chunk: nat, most: nat)
    requires chunk > 0 && n <= most * chunk
    ensures Chunks(n, chunk) <= most
    decreases most
  {
    assert 0 * chunk == 0;
    if n > 0 {
      assert (most - 1) * chunk == most * chunk - chunk;
      FewChunks(n - Min(n, chunk), chunk, most - 1);
    }
  }

  lemma CoreCount(job: Job)
    requires ValidJob(job)
    ensures |JobBounds(job)| - 1 <= Chunks(|job.source|, job.config.chunk)
  {
    var c := job.config.chunk;
    CutCount(Quiet.Search(job.meter, job.source, c, job.config.query), |job.source|, c, c, 0);
  }

  /** The number of blocks, at most. */
  function BlockCount(job: Job): nat
    requires ValidJob(job)
  {
    Windows(job) + Chunks(|job.source|, job.config.chunk)
  }

  /** The bytes of so many blocks together: one header each, the frames and the output samples. */
  function Needed(blocks: nat, frames: nat, samples: nat): nat { HeaderSize * blocks + 4 * (frames + OutPos(samples)) }

  lemma UnitsNeeded(job: Job)
    requires ValidJob(job)
    ensures |AllUnits(job)| <= BlockCount(job)
      && Sum(AllUnits(job)) <= Needed(BlockCount(job), Frames(job), |job.source|)
  {
    var b := JobBounds(job);
    WindowsCost(job);
    BoundsIncrease(job);
    CoreCount(job);
    BoundsSpan(job);
    CoresCost(b, |job.source|);
    Bill(WindowUnits(job, Windows(job)), CoreUnits(b, |b| - 1), Windows(job), Chunks(|job.source|, job.config.chunk),
      Frames(job), |job.source|);
  }

  lemma WindowsCost(job: Job)
    ensures Sum(WindowUnits(job, Windows(job))) <= HeaderSize * Windows(job) + 4 * Frames(job)
  {
    WindowSum(job, Windows(job));
  }

  lemma BoundsSpan(job: Job)
    requires ValidJob(job)
    ensures JobBounds(job)[|JobBounds(job)| - 1] == |job.source|
  {
  }

  lemma CoresCost(b: seq<nat>, n: nat)
    requires Increasing(b) && |b| > 0 && b[0] == 0 && b[|b| - 1] == n
    ensures Sum(CoreUnits(b, |b| - 1)) == HeaderSize * (|b| - 1) + 4 * OutPos(n)
  {
    CoreSum(b, |b| - 1);
  }

  lemma Bill(a: seq<Unit>, b: seq<Unit>, windows: nat, cores: nat, frames: nat, samples: nat)
    requires |a| == windows && Sum(a) <= HeaderSize * windows + 4 * frames
    requires |b| <= cores && Sum(b) == HeaderSize * |b| + 4 * OutPos(samples)
    ensures |a + b| <= windows + cores && Sum(a + b) <= Needed(windows + cores, frames, samples)
  {
    SumJoin(a, b);
  }

  // ---------------------------------------------------------------- every true block is in the budget

  lemma WindowOf(job: Job, first: nat) returns (i: nat)
    requires ValidJob(job) && WindowStart(first) && F0Block(job, first).Some?
    ensures i < Windows(job) && first == i * F0.CoreFrames && first < U64
    ensures var d := F0Block(job, first).value;
      && WindowUnit(job, i) == Unit(F0Key(first), HeaderSize + 4 * |d|) && 0 < |d| <= F0.CoreFrames && AllFinite(d)
  {
    i := first / F0.CoreFrames;
    OffsetsFit(job);
    F0.BlockLength(Extraction(job), Padded(job), job.context, first);
    F0.PlanCovers(|Padded(job)|, first, job.context);
    forall j | 0 <= j < |F0Block(job, first).value| ensures Finite(F0Block(job, first).value[j]) {
      assert Extraction(job).accept(F0Block(job, first).value[j]);
    }
  }

  lemma SegmentBound(job: Job, raw: seq<Word>, f0: seq<Word>, start: nat, end: nat)
    requires ValidJob(job) && start < end <= |job.source| && SynthBlock(job, raw, f0, start, end).Some?
    ensures var d := SynthBlock(job, raw, f0, start, end).value;
      0 < |d| == OutPos(end) - OutPos(start) <= OutPos(job.config.hardCore + Hop) + 1 && AllFinite(d)
  {
    OutPosIncreases(start, end);
    OutPosWithin(start, end, job.config.hardCore + Hop);
  }

  lemma OutPosWithin(start: nat, end: nat, length: nat)
    requires start <= end <= start + length
    ensures OutPos(end) - OutPos(start) <= OutPos(length) + 1
  {
  }

  /** No block of a conversion is larger than the limit. */
  predicate BlocksFit(job: Job, l: Limits) {
    4 * F0.CoreFrames <= l.blockBytes && 4 * (OutPos(job.config.hardCore + Hop) + 1) <= l.blockBytes
  }

  /** A block the conversion files can be stored and is in the budget. */
  lemma TrueUnit(truth: Truth, job: Job, st: Store, key: string, o: nat, d: seq<Word>)
    requires ValidJob(job) && TruthOf(truth, job) && truth(key, o, d) && BlocksFit(job, st.limits)
    ensures Storable(st, key, o, d) && Budgeted(AllUnits(job), key, HeaderSize + 4 * |d|)
  {
    var units := AllUnits(job);
    assert TrueAt(truth, job, key, o, d);
    OffsetsFit(job);
    if key == F0Key(o) && WindowStart(o) && F0Block(job, o) == Some(d) {
      var i := WindowOf(job, o);
      KeyLength(o);
      assert units[i] == WindowUnit(job, i);
    } else {
      var i, end :| CoreBlock(job, i, o, end, d);
      BoundsIncrease(job);
      SegmentBound(job, RawF0(job).value, Processed(job).value, o, end);
      KeyLength(o);
      assert units[Windows(job) + i] == CoreUnit(JobBounds(job), i);
    }
  }

  lemma KeyLength(n: nat)
    requires n < U64
    ensures ValidKey(F0Key(n)) && ValidKey(SynthKey(n))
  {
    TwentyDigits();
    DecLength(n, 20);
    assert forall i :: 0 <= i < |Dec(n)| ==> IsDigit(Dec(n)[i]);
  }

  lemma TwentyDigits()
    ensures U64 <= Pow10(20)
  {
    assert Pow10(2) == 100;
    assert Pow10(4) == 10_000;
    assert Pow10(6) == 1_000_000;
    assert Pow10(8) == 100_000_000;
    assert Pow10(10) == 10_000_000_000;
    assert Pow10(12) == 1_000_000_000_000;
    assert Pow10(14) == 100_000_000_000_000;
    assert Pow10(16) == 10_000_000_000_000_000;
    assert Pow10(18) == 1_000_000_000_000_000_000;
  }

  /** Limits for so many blocks of such sizes leave room for every block of the conversion, whatever is stored
      already. */
  lemma RoomyByCount(job: Job, st: Store)
    requires ValidJob(job) && BlocksFit(job, st.limits)
    requires BlockCount(job) <= st.limits.blocks
      && Needed(BlockCount(job), Frames(job), |job.source|) <= st.limits.totalBytes
    ensures Roomy(job, st)
  {
    UnitsNeeded(job);
    forall truth | TruthOf(truth, job) ensures Ample(truth, st) { AmpleByBudget(truth, job, st); }
  }

  lemma AmpleByBudget(truth: Truth, job: Job, st: Store)
    requires ValidJob(job) && TruthOf(truth, job) && BlocksFit(job, st.limits)
    requires |AllUnits(job)| <= st.limits.blocks && Sum(AllUnits(job)) <= st.limits.totalBytes
    ensures Ample(truth, st)
  {
    forall f, key, o: nat, d ensures RoomFor(truth, st, f, key, o, d) {
      if truth(key, o, d) {
        TrueUnit(truth, job, st, key, o, d);
        if Good(truth, st, f) && Block(key) !in f { OneMoreFits(truth, job, st, f, key, o, d); }
      }
    }
  }

  lemma OneMoreFits(truth: Truth, job: Job, st: Store, f: Files, key: string, o: nat, d: seq<Word>)
    requires ValidJob(job) && TruthOf(truth, job) && truth(key, o, d) && Good(truth, st, f) && Block(key) !in f
    requires BlocksFit(job, st.limits)
    requires |AllUnits(job)| <= st.limits.blocks && Sum(AllUnits(job)) <= st.limits.totalBytes
    ensures Fits(st, |BlocksOf(f)|, StoreFiles.Total(BlocksOf(f)), d)
  {
    var blocks, bytes := BlocksOf(f), BlockBytes(st, key, o, d);
    var more := blocks[key := bytes];
    forall k ensures KeyInBudget(AllUnits(job), more, k) {
      if k == key {
        TrueUnit(truth, job, st, key, o, d);
      } else if k in blocks {
        assert TrueBlock(truth, st, k, blocks[k]);
        var o2: nat, d2 :| truth(k, o2, d2) && Storable(st, k, o2, d2) && blocks[k] == BlockBytes(st, k, o2, d2);
        TrueUnit(truth, job, st, k, o2, d2);
      }
    }
    BudgetHolds(AllUnits(job), more);
    TotalAdd(blocks, key, bytes);
  }

  // ---------------------------------------------------------------- the limits of the program

  /** The limits a store has unless told otherwise. */
  const DefaultLimits: Limits := Limits(32 * 1024 * 1024, 2 * 1024 * 1024 * 1024, 4096)

  /** They are enough for an hour of speech in cores of a second or more. */
  lemma DefaultIsRoomy(job: Job, st: Store)
    requires ValidJob(job) && st.limits == DefaultLimits && |job.source| <= 3600 * InputRate
      && InputRate <= job.config.chunk
    ensures ValidLimits(st.limits) && Roomy(job, st)
  {
    FewCores(|job.source|, job.config.chunk);
    FewWindows(job);
    RoomyByCount(job, st);
  }

  lemma FewWindows(job: Job)
    requires ValidJob(job) && |job.source| <= 3600 * InputRate
    ensures Windows(job) <= 460 && Frames(job) <= 370_000 && OutPos(|job.source|) <= 144_000_000
    ensures OutPos(job.config.hardCore + Hop) <= 1_600_000
  {
  }

  lemma FewCores(n: nat, chunk: nat)
    requires n <= 3600 * InputRate && InputRate <= chunk
    ensures Chunks(n, chunk) <= 3600
  {
    assert 3600 * InputRate <= 3600 * chunk;
    FewChunks(n, chunk, 3600);
  }
}
