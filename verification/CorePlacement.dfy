/** Where the samples of a conversion come from: every core is cut out of its own synthesised segment at its own place,
    so that cores put one behind the other go on as the segments themselves do. */
module CorePlacement {
  import opened Spools
  import opened Bytes
  import opened Reflection
  import opened ConversionJob
  import opened Conversion
  import opened Campaign
  import F0 = F0Windows
  import Quiet = QuietCores

  // ---------------------------------------------------------------- one core

  /** The output sample at input sample s: 40000 for every 16000. */
  lemma OutPosIs(s: nat)
    ensures OutPos(s) == 5 * s / 2
  {
  }

  /** The segment of core [s, e): the padded clip from s, that is from one padding before the core, to one padding and a
      hop behind it, with the pitch frames of that stretch. Empty when there are none. */
  function Segment(job: Job, raw: seq<Word>, f0: seq<Word>, s: nat, e: nat): seq<Word>
    requires ValidJob(job) && s < e <= |job.source|
  {
    var pad := job.config.pad;
    var end := Min(|job.source| + 2 * pad, e + 2 * pad + 160);
    var first, last := s / 160, Min(Min(|f0|, |raw|), end / 160);
    if last <= first then []
    else job.synth(Reflected(job.source, pad)[s..end], f0[first..last],
      seq(last - first, j requires 0 <= j < last - first => !job.voiced(raw[first + j])), first)
  }

  /** Sample t of a core is the sample of its segment that many places behind the padding; silence behind its end. */
  predicate CutAt(segment: seq<Word>, pad: nat, t: nat, w: Word) {
    w == if 5 * pad / 2 + t < |segment| then segment[5 * pad / 2 + t] else 0
  }

  predicate CutFrom(segment: seq<Word>, pad: nat, s: nat, e: nat, block: seq<Word>)
    requires s <= e
  {
    |block| == 5 * e / 2 - 5 * s / 2 && forall t: nat :: t < |block| ==> CutAt(segment, pad, t, block[t])
  }

  lemma TrimmedIsCut(piece: seq<Word>, pad: nat, s: nat, e: nat)
    requires s <= e
    ensures 5 * s / 2 <= 5 * e / 2 && CutFrom(piece, pad, s, e, Trimmed(piece, 5 * pad / 2, 5 * e / 2 - 5 * s / 2))
  {
  }

  lemma UnvoicedIs(job: Job, raw: seq<Word>, first: nat, last: nat)
    requires first <= last <= |raw|
    ensures Unvoiced(job, raw[first..last])
      == seq(last - first, j requires 0 <= j < last - first => !job.voiced(raw[first + j]))
  {
  }

  lemma BlockIsCut(job: Job, raw: seq<Word>, f0: seq<Word>, s: nat, e: nat)
    requires ValidJob(job) && s < e <= |job.source| && SynthBlock(job, raw, f0, s, e).Some?
    ensures CutFrom(Segment(job, raw, f0, s, e), job.config.pad, s, e, SynthBlock(job, raw, f0, s, e).value)
  {
    var first, last := s / Hop, Min(|f0|, SegmentEnd(job, e) / Hop);
    UnvoicedIs(job, raw, first, last);
    OutPosIs(s);
    OutPosIs(e);
    OutPosIs(job.config.pad);
    TrimmedIsCut(Segment(job, raw, f0, s, e), job.config.pad, s, e);
  }

  /** The whole-array path cuts the same way; a core without pitch frames it leaves out. */
  lemma StitchIsCut(job: Job, raw: seq<Word>, f0: seq<Word>, s: nat, e: nat)
    requires ValidJob(job) && s < e <= |job.source| && |raw| == |f0|
    ensures var b := StitchBlock(job, raw, f0, s, e);
      var frames := Min(|f0|, Min(|job.source| + 2 * job.config.pad, e + 2 * job.config.pad + 160) / 160);
      && (frames <= s / 160 ==> b == Some([]))
      && (frames > s / 160 ==> (b.None? <==> Segment(job, raw, f0, s, e) == []))
      && (frames > s / 160 && b.Some? ==> CutFrom(Segment(job, raw, f0, s, e), job.config.pad, s, e, b.value))
  {
    var end := SegmentEnd(job, e);
    var first, last := s / Hop, Min(|f0|, end / Hop);
    if first < last {
      UnvoicedIs(job, raw, first, last);
      assert Unvoiced(job, raw)[first..last] == Unvoiced(job, raw[first..last]);
      OutPosIs(s);
      OutPosIs(e);
      OutPosIs(job.config.pad);
      TrimmedIsCut(Segment(job, raw, f0, s, e), job.config.pad, s, e);
    }
  }

  // ---------------------------------------------------------------- all cores

  function StartOf(start: nat, ends: seq<nat>, k: nat): nat
    requires k < |ends|
  {
    if k == 0 then start else ends[k - 1]
  }

  lemma {:induction false} CoreInside(n: nat, start: nat, ends: seq<nat>, k: nat)
    requires Ends(n, start, ends) && k < |ends|
    ensures start <= StartOf(start, ends, k) < ends[k] <= n
    decreases |ends|
  {
    if k > 0 {
      CoreInside(n, ends[0], ends[1..], k - 1);
      assert ends[1..][k - 1] == ends[k];
    }
  }

  /** The stretch of an output that belongs to core [s, e), cut out of that core's segment; the output begins at
      `start`. */
  ghost predicate Placed(job: Job, raw: seq<Word>, f0: seq<Word>, start: nat, out: seq<Word>, s: nat, e: nat)
    requires ValidJob(job)
  {
    && start <= s < e <= |job.source| && 5 * e / 2 - 5 * start / 2 <= |out|
    && CutFrom(Segment(job, raw, f0, s, e), job.config.pad, s, e,
      out[5 * s / 2 - 5 * start / 2..5 * e / 2 - 5 * start / 2])
  }

  /** Every core of an output is placed so. */
  lemma {:induction false} CoreSamples(job: Job, raw: seq<Word>, f0: seq<Word>, start: nat, ends: seq<nat>, k: nat)
    requires ValidJob(job) && Ends(|job.source|, start, ends) && Synthesis(job, raw, f0, start, ends).Some?
    requires k < |ends|
    ensures Placed(job, raw, f0, start, Synthesis(job, raw, f0, start, ends).value, StartOf(start, ends, k), ends[k])
    decreases |ends|
  {
    var block := SynthBlock(job, raw, f0, start, ends[0]).value;
    var rest := Synthesis(job, raw, f0, ends[0], ends[1..]).value;
    if k == 0 {
      FirstPlaced(job, raw, f0, start, ends[0], block, rest);
    } else {
      CoreSamples(job, raw, f0, ends[0], ends[1..], k - 1);
      BlockIsCut(job, raw, f0, start, ends[0]);
      PlacedBehind(job, raw, f0, start, ends[0], block, rest, StartOf(start, ends, k), ends[k]);
    }
  }

  lemma FirstPlaced(job: Job, raw: seq<Word>, f0: seq<Word>, s: nat, e: nat, block: seq<Word>, rest: seq<Word>)
    requires ValidJob(job) && s < e <= |job.source| && SynthBlock(job, raw, f0, s, e) == Some(block)
    ensures Placed(job, raw, f0, s, block + rest, s, e)
  {
    BlockIsCut(job, raw, f0, s, e);
    assert (block + rest)[0..|block|] == block;
  }

  /** What is placed behind a core is placed behind it still when that core is put before it. */
  lemma PlacedBehind(job: Job, raw: seq<Word>, f0: seq<Word>, start: nat, mid: nat, block: seq<Word>, rest: seq<Word>,
                     s: nat, e: nat)
    requires ValidJob(job) && start <= mid && |block| == 5 * mid / 2 - 5 * start / 2
    requires Placed(job, raw, f0, mid, rest, s, e)
    ensures Placed(job, raw, f0, start, block + rest, s, e)
  {
    Later(block, rest, 5 * s / 2 - 5 * mid / 2, 5 * e / 2 - 5 * mid / 2);
  }

  lemma Later(a: seq<Word>, b: seq<Word>, i: nat, j: nat)
    requires i <= j <= |b|
    ensures (a + b)[|a| + i..|a| + j] == b[i..j]
  {
  }

  // ---------------------------------------------------------------- a synthesiser of one signal

  /** The segment of core [s, e) is long enough, and its sample u is that of the signal at u behind the place of s. */
  ghost predicate Plays(job: Job, raw: seq<Word>, f0: seq<Word>, g: nat -> Word, s: nat, e: nat)
    requires ValidJob(job)
  {
    s < e <= |job.source| ==>
      && |Segment(job, raw, f0, s, e)| >= 5 * job.config.pad / 2 + (5 * e / 2 - 5 * s / 2)
      && forall u: nat :: u < |Segment(job, raw, f0, s, e)| ==> Segment(job, raw, f0, s, e)[u] == g(5 * s / 2 + u)
  }

  ghost predicate PlaysAll(job: Job, raw: seq<Word>, f0: seq<Word>, g: nat -> Word, start: nat, ends: seq<nat>)
    requires ValidJob(job)
  {
    forall k: nat :: k < |ends| ==> Plays(job, raw, f0, g, StartOf(start, ends, k), ends[k])
  }

  lemma PlaysRest(job: Job, raw: seq<Word>, f0: seq<Word>, g: nat -> Word, start: nat, ends: seq<nat>)
    requires ValidJob(job) && |ends| > 0 && PlaysAll(job, raw, f0, g, start, ends)
    ensures Plays(job, raw, f0, g, start, ends[0]) && PlaysAll(job, raw, f0, g, ends[0], ends[1..])
  {
    assert Plays(job, raw, f0, g, StartOf(start, ends, 0), ends[0]);
    forall k: nat | k < |ends[1..]| ensures Plays(job, raw, f0, g, StartOf(ends[0], ends[1..], k), ends[1..][k]) {
      assert Plays(job, raw, f0, g, StartOf(start, ends, k + 1), ends[k + 1]);
    }
  }

  /** The samples of the signal from `from` on. */
  ghost predicate IsSignal(out: seq<Word>, g: nat -> Word, from: nat) {
    forall t: nat :: t < |out| ==> out[t] == g(from + t)
  }

  /** If every segment plays one signal, the output is that signal without a seam, whatever the cuts. */
  lemma {:induction false} OneSignal(job: Job, raw: seq<Word>, f0: seq<Word>, g: nat -> Word, start: nat,
                                     ends: seq<nat>, from: nat)
    requires ValidJob(job) && Ends(|job.source|, start, ends) && Synthesis(job, raw, f0, start, ends).Some?
    requires PlaysAll(job, raw, f0, g, start, ends) && from == 5 * job.config.pad / 2 + 5 * start / 2
    ensures IsSignal(Synthesis(job, raw, f0, start, ends).value, g, from)
    decreases |ends|
  {
    if |ends| > 0 {
      PlaysRest(job, raw, f0, g, start, ends);
      var first, rest, next := FirstSignal(job, raw, f0, g, start, ends, from);
      OneSignal(job, raw, f0, g, ends[0], ends[1..], next);
      SignalJoin(first, rest, g, from, next);
    }
  }

  lemma FirstSignal(job: Job, raw: seq<Word>, f0: seq<Word>, g: nat -> Word, start: nat, ends: seq<nat>, from: nat)
    returns (first: seq<Word>, rest: seq<Word>, next: nat)
    requires ValidJob(job) && Ends(|job.source|, start, ends) && Synthesis(job, raw, f0, start, ends).Some?
    requires |ends| > 0 && Plays(job, raw, f0, g, start, ends[0]) && from == 5 * job.config.pad / 2 + 5 * start / 2
    ensures Synthesis(job, raw, f0, start, ends) == Some(first + rest) && IsSignal(first, g, from)
    ensures Synthesis(job, raw, f0, ends[0], ends[1..]) == Some(rest)
    ensures next == from + |first| == 5 * job.config.pad / 2 + 5 * ends[0] / 2
  {
    first := SynthBlock(job, raw, f0, start, ends[0]).value;
    rest := Synthesis(job, raw, f0, ends[0], ends[1..]).value;
    next := from + |first|;
    BlockSignal(job, raw, f0, g, start, ends[0], from);
  }

  lemma BlockSignal(job: Job, raw: seq<Word>, f0: seq<Word>, g: nat -> Word, s: nat, e: nat, from: nat)
    requires ValidJob(job) && s < e <= |job.source| && SynthBlock(job, raw, f0, s, e).Some?
      && Plays(job, raw, f0, g, s, e)
    requires from == 5 * job.config.pad / 2 + 5 * s / 2
    ensures var b := SynthBlock(job, raw, f0, s, e).value; |b| == 5 * e / 2 - 5 * s / 2 && IsSignal(b, g, from)
  {
    var b := SynthBlock(job, raw, f0, s, e).value;
    BlockIsCut(job, raw, f0, s, e);
    forall t: nat | t < |b| ensures b[t] == g(from + t) {
      assert CutAt(Segment(job, raw, f0, s, e), job.config.pad, t, b[t]);
    }
  }

  lemma SignalJoin(a: seq<Word>, b: seq<Word>, g: nat -> Word, from: nat, next: nat)
    requires IsSignal(a, g, from) && IsSignal(b, g, next) && next == from + |a|
    ensures IsSignal(a + b, g, from)
  {
    forall t: nat | t < |a + b| ensures (a + b)[t] == g(from + t) {
      if t >= |a| { assert b[t - |a|] == g(next + (t - |a|)); }
    }
  }

  // ---------------------------------------------------------------- whole conversions

  /** 400 output samples for every pitch frame, with sample u of the frames from `first` on that of the signal there. */
  ghost predicate RendersAt(job: Job, g: nat -> Word, x: seq<Word>, f: seq<Word>, uv: seq<bool>, first: nat) {
    var p := job.synth(x, f, uv, first);
    |p| == 400 * |f| && forall u: nat :: u < |p| ==> p[u] == g(400 * first + u)
  }

  ghost predicate Renders(job: Job, g: nat -> Word) {
    forall x, f, uv, first: nat :: RendersAt(job, g, x, f, uv, first)
  }

  /** With the pitch of the whole padded clip such a synthesiser plays its signal in every core that begins on a
      frame. */
  lemma RendersPlays(job: Job, raw: seq<Word>, f0: seq<Word>, g: nat -> Word, s: nat, e: nat)
    requires ValidJob(job) && Renders(job, g) && job.config.pad >= 160 && s % 160 == 0 && s < e <= |job.source|
    requires |f0| == |raw| == Frames(job)
    ensures Plays(job, raw, f0, g, s, e)
  {
    var pad := job.config.pad;
    var end := Min(|job.source| + 2 * pad, e + 2 * pad + 160);
    var first, last := s / 160, Min(Min(|f0|, |raw|), end / 160);
    assert last == end / 160 > first;
    assert RendersAt(job, g, Reflected(job.source, pad)[s..end], f0[first..last],
      seq(last - first, j requires 0 <= j < last - first => !job.voiced(raw[first + j])), first);
    LongEnough(|job.source|, pad, s, e, end);
  }

  lemma LongEnough(n: nat, pad: nat, s: nat, e: nat, end: nat)
    requires pad >= 160 && s % 160 == 0 && s < e <= n && end == Min(n + 2 * pad, e + 2 * pad + 160)
    ensures 400 * (end / 160 - s / 160) >= 5 * pad / 2 + (5 * e / 2 - 5 * s / 2)
    ensures 400 * (s / 160) == 5 * s / 2
  {
    var k := s / 160;
    assert s == 160 * k;
    assert 160 * (end / 160) >= end - 159;
  }

  /** Cuts lie on the pitch lattice, whatever the lengths. */
  lemma {:induction false} CutsOnLattice(job: Job, cut: nat -> nat, target: nat, last: nat)
    requires ValidJob(job) && job.config.chunk <= target
    requires cut == Quiet.Search(job.meter, job.source, job.config.chunk, job.config.query)
    ensures forall k: nat :: k < |Quiet.Cuts(cut, |job.source|, job.config.chunk, target, last)| ==>
      Quiet.Cuts(cut, |job.source|, job.config.chunk, target, last)[k] % 160 == 0
    decreases |job.source| - target
  {
    if target < |job.source| {
      var next := if cut(target) > last && cut(target) < |job.source| then cut(target) else last;
      CutsOnLattice(job, cut, target + job.config.chunk, next);
      assert Quiet.Searchable(|job.source|, job.config.chunk, job.config.query, target);
      assert cut(target) % 160 == 0;
    }
  }

  lemma StartsOnLattice(job: Job, k: nat)
    requires ValidJob(job) && k < |JobBounds(job)[1..]|
    ensures StartOf(0, JobBounds(job)[1..], k) % 160 == 0
  {
    var cut := Quiet.Search(job.meter, job.source, job.config.chunk, job.config.query);
    var cuts := Quiet.Cuts(cut, |job.source|, job.config.chunk, job.config.chunk, 0);
    CutsOnLattice(job, cut, job.config.chunk, 0);
    assert JobBounds(job)[1..] == cuts + [|job.source|];
    if k > 0 { assert JobBounds(job)[1..][k - 1] == cuts[k - 1]; }
  }

  lemma {:induction false} PitchLength(job: Job, first: nat)
    requires ValidJob(job) && first <= Frames(job)
    requires F0.Streamed(Extraction(job), Padded(job), job.context, first).Some?
    ensures |F0.Streamed(Extraction(job), Padded(job), job.context, first).value| == Frames(job) - first
    decreases Frames(job) - first
  {
    if first < Frames(job) {
      F0.BlockLength(Extraction(job), Padded(job), job.context, first);
      F0.PlanCovers(|Padded(job)|, first, job.context);
      PitchLength(job, F0.PlanWindow(|Padded(job)|, first, job.context).value.endFrame);
    }
  }

  /** A conversion whose synthesiser plays one signal, frame by frame, gives that signal from the first sample of the
      clip on: nothing is shifted, repeated or lost at any cut. */
  lemma ConversionPlays(job: Job, g: nat -> Word)
    requires ValidJob(job) && Renders(job, g) && job.config.pad >= 160
    requires Uninterrupted(job).Some? && |Processed(job).value| == |RawF0(job).value|
    ensures |Uninterrupted(job).value| == 5 * |job.source| / 2
    ensures IsSignal(Uninterrupted(job).value, g, 5 * job.config.pad / 2)
  {
    var raw, f0, ends := RawF0(job).value, Processed(job).value, JobBounds(job)[1..];
    BoundsAreEnds(job);
    PitchLength(job, 0);
    RendersAll(job, raw, f0, g, ends);
    OneSignal(job, raw, f0, g, 0, ends, 5 * job.config.pad / 2);
    UninterruptedLength(job);
  }

  lemma RendersAll(job: Job, raw: seq<Word>, f0: seq<Word>, g: nat -> Word, ends: seq<nat>)
    requires ValidJob(job) && Renders(job, g) && job.config.pad >= 160 && |f0| == |raw| == Frames(job)
    requires ends == JobBounds(job)[1..] && Ends(|job.source|, 0, ends)
    ensures PlaysAll(job, raw, f0, g, 0, ends)
  {
    forall k: nat | k < |ends| ensures Plays(job, raw, f0, g, StartOf(0, ends, k), ends[k]) {
      CoreInside(|job.source|, 0, ends, k);
      StartsOnLattice(job, k);
      RendersPlays(job, raw, f0, g, StartOf(0, ends, k), ends[k]);
    }
  }

  /** Every output sample of a conversion, for any networks: the one its core's segment has behind the padding. */
  lemma ConversionSamples(job: Job, k: nat)
    requires ValidJob(job) && Uninterrupted(job).Some? && k + 1 < |JobBounds(job)|
    ensures Placed(job, RawF0(job).value, Processed(job).value, 0, Uninterrupted(job).value,
      JobBounds(job)[k], JobBounds(job)[k + 1])
  {
    var ends := JobBounds(job)[1..];
    BoundsAreEnds(job);
    CoreSamples(job, RawF0(job).value, Processed(job).value, 0, ends, k);
    assert StartOf(0, ends, k) == JobBounds(job)[k] && ends[k] == JobBounds(job)[k + 1];
  }
}
