/** The bounded conversion and the whole-array conversion give the same synthesis. */
module WholeConversion {
  import opened Spools
  import opened Bytes
  import opened ConversionJob
  import opened Conversion
  import opened CheckpointedRun
  import opened Campaign
  import F0 = F0Windows
  import Quiet = QuietCores

  predicate PieceOk(piece: seq<Word>) { |piece| > 0 && AllFinite(piece) }

  /** The frames a core is synthesised from. */
  function FramesOf(job: Job, start: nat, end: nat, count: nat): (nat, nat)
    requires ValidJob(job)
  {
    (start / Hop, Min(count, SegmentEnd(job, end) / Hop))
  }

  /** The piece synthesised for the i-th core is non-empty and finite. */
  ghost predicate CoreAnswers(job: Job, raw: seq<Word>, f0: seq<Word>, bounds: seq<nat>, i: nat)
    requires ValidJob(job)
  {
    i + 1 < |bounds| && bounds[i] < bounds[i + 1] <= |job.source| && |raw| == |f0| ==>
      var start, b, frames := bounds[i], SegmentEnd(job, bounds[i + 1]), FramesOf(job, bounds[i], bounds[i + 1], |f0|);
      frames.0 < frames.1 ==>
        PieceOk(job.synth(Padded(job)[start..b], f0[frames.0..frames.1], Unvoiced(job, raw[frames.0..frames.1]),
          frames.0))
  }

  /** The synthesiser answers on every core of the run. */
  ghost predicate SynthOk(job: Job, raw: seq<Word>, f0: seq<Word>, bounds: seq<nat>)
    requires ValidJob(job)
  {
    forall i: nat :: CoreAnswers(job, raw, f0, bounds, i)
  }

  /** What the networks and the pitch processing have to do on this clip for the two paths to be comparable. */
  ghost predicate Comparable(job: Job)
    requires ValidJob(job)
  {
    && LocalPitch(job) && KeepsLength(job.process(WholeF0(job)), |WholeF0(job)|)
    && SynthOk(job, WholeF0(job), job.process(WholeF0(job)).value, JobBounds(job))
    && Quiet.Steady(job.config.chunk, job.config.query)
  }

  /** On the padded clip the extractor is local and gives values a spool accepts. */
  ghost predicate LocalPitch(job: Job)
    requires ValidJob(job)
  {
    F0.Local(job.infer, job.context, Padded(job)) && F0.Accepted(Extraction(job), job.infer(Padded(job)))
  }

  ghost predicate KeepsLength(r: Option<seq<Word>>, n: nat) { r.Some? && |r.value| == n }

  /** The pitch of the whole clip in one pass, as the whole-array path extracts it. */
  function WholeF0(job: Job): seq<Word>
    requires ValidJob(job)
  {
    job.infer(Padded(job))
  }

  lemma StreamedF0IsWhole(job: Job)
    requires ValidJob(job) && LocalPitch(job)
    ensures RawF0(job) == Some(WholeF0(job)) && |WholeF0(job)| == |Padded(job)| / Hop + 1
  {
    F0.StreamedIsWhole(Extraction(job), Padded(job), job.context, 0);
    assert WholeF0(job)[0..] == WholeF0(job);
  }

  lemma CoreSucceeds(job: Job, raw: seq<Word>, f0: seq<Word>, bounds: seq<nat>, i: nat, start: nat, end: nat)
    requires ValidJob(job) && SynthOk(job, raw, f0, bounds) && |raw| == |f0| == |Padded(job)| / Hop + 1
    requires CoreAt(bounds, i, start, end) && start < end <= |job.source| && start % Hop == 0
      && end - start <= job.config.hardCore
    ensures SynthBlock(job, raw, f0, start, end).Some? <==> |job.source| + 2 * job.config.pad >= start + Hop
  {
    SegmentFits(job, start, end);
    var b := SegmentEnd(job, end);
    var fs, fe := start / Hop, Min(|f0|, b / Hop);
    assert fe <= fs <==> |job.source| + 2 * job.config.pad < start + Hop;
    assert CoreAnswers(job, raw, f0, bounds, i);
  }

  lemma {:induction false} CoresSucceed(job: Job, raw: seq<Word>, f0: seq<Word>, bounds: seq<nat>, i: nat)
    requires ValidJob(job) && SynthOk(job, raw, f0, bounds) && |raw| == |f0| == |Padded(job)| / Hop + 1
    requires i < |bounds| && Tiling(|job.source|, bounds) && Quiet.CoresFit(bounds, job.config.hardCore)
    requires |job.source| + 2 * job.config.pad >= Hop
    ensures Ends(|job.source|, bounds[i], bounds[i + 1..])
    ensures Synthesis(job, raw, f0, bounds[i], bounds[i + 1..]).Some?
    decreases |bounds| - i
  {
    assert TileAt(|job.source|, bounds, i);
    if i + 1 < |bounds| {
      CoreSucceeds(job, raw, f0, bounds, i, bounds[i], bounds[i + 1]);
      CoresSucceed(job, raw, f0, bounds, i + 1);
      assert bounds[i + 1..][1..] == bounds[i + 1 + 1..];
    }
  }

  lemma SynthesisIffHop(job: Job, raw: seq<Word>, f0: seq<Word>, bounds: seq<nat>)
    requires ValidJob(job) && SynthOk(job, raw, f0, bounds) && |raw| == |f0| == |Padded(job)| / Hop + 1
    requires |bounds| >= 2 && bounds[0] == 0
    requires Tiling(|job.source|, bounds) && Quiet.CoresFit(bounds, job.config.hardCore)
    ensures Ends(|job.source|, 0, bounds[1..])
    ensures var r := Synthesis(job, raw, f0, 0, bounds[1..]);
      && (r.Some? <==> |job.source| + 2 * job.config.pad >= Hop)
      && (r.Some? ==> r == Stitched(job, raw, f0, 0, bounds[1..]))
  {
    assert TileAt(|job.source|, bounds, 0);
    if |job.source| + 2 * job.config.pad >= Hop {
      CoresSucceed(job, raw, f0, bounds, 0);
      SynthesisIsStitched(job, raw, f0, 0, bounds[1..]);
    } else {
      CoreSucceeds(job, raw, f0, bounds, 0, 0, bounds[1]);
    }
  }

  lemma UninterruptedAt(job: Job, raw: seq<Word>, f0: seq<Word>)
    requires ValidJob(job) && RawF0(job) == Some(raw) && job.process(raw) == Some(f0)
    ensures Ends(|job.source|, 0, JobBounds(job)[1..])
    ensures Uninterrupted(job) == Synthesis(job, raw, f0, 0, JobBounds(job)[1..])
  {
    BoundsAreEnds(job);
  }

  lemma JobBoundsFit(job: Job) returns (bounds: seq<nat>)
    requires ValidJob(job) && Quiet.Steady(job.config.chunk, job.config.query)
    ensures bounds == JobBounds(job) && |bounds| >= 2 && bounds[0] == 0
    ensures Tiling(|job.source|, bounds) && Quiet.CoresFit(bounds, job.config.hardCore)
  {
    bounds := JobBounds(job);
    JobTiling(job);
    Quiet.BoundsFit(job.meter, job.source, job.config.chunk, job.config.query);
  }

  /** When the networks answer on this clip and the lengths are steady, the bounded conversion succeeds exactly when the
      padded clip holds one hop, and then it equals the whole-array conversion. */
  lemma BoundedIsWhole(job: Job) returns (f0: seq<Word>)
    requires ValidJob(job) && Comparable(job)
    ensures Uninterrupted(job).Some? <==> |job.source| + 2 * job.config.pad >= Hop
    ensures job.process(WholeF0(job)) == Some(f0) && |f0| == |WholeF0(job)|
    ensures Ends(|job.source|, 0, JobBounds(job)[1..])
    ensures Uninterrupted(job).Some? ==> Uninterrupted(job) == Stitched(job, WholeF0(job), f0, 0, JobBounds(job)[1..])
  {
    StreamedF0IsWhole(job);
    var raw := WholeF0(job);
    f0 := job.process(raw).value;
    var bounds := JobBoundsFit(job);
    UninterruptedAt(job, raw, f0);
    SynthesisIffHop(job, raw, f0, bounds);
  }

  /** A padded clip below one hop is never converted, whatever the networks do. */
  lemma ShortClipFails(job: Job)
    requires ValidJob(job) && |job.source| + 2 * job.config.pad < Hop
    ensures Uninterrupted(job).None?
  {
    if RawF0(job).Some? && Processed(job).Some? {
      BoundsAreEnds(job);
      var ends := JobBounds(job)[1..];
      assert SegmentEnd(job, ends[0]) < Hop;
      assert SynthBlock(job, RawF0(job).value, Processed(job).value, 0, ends[0]).None?;
    }
  }

  /** A clip of two samples is configured with a padding of one, accepted, and not converted. */
  lemma TwoSamplesFail(job: Job, requestedChunk: nat, requestedQuery: nat, requestedPad: nat)
    requires |job.source| == 2 && Some(job.config) == Configure(2, requestedChunk, requestedQuery, requestedPad)
    requires job.context == 64000 || job.context == 32000
    ensures ValidJob(job) && job.config.pad == 1 && Uninterrupted(job).None?
  {
    ConfigureFits(2, requestedChunk, requestedQuery, requestedPad);
    ShortClipFails(job);
  }
}
