/** What one bounded file conversion computes, as functions of its inputs, and the
    whole-array stitching it is meant to equal. Networks are deterministic functions. */
module ConversionJob {
  import opened Spools
  import opened Bytes
  import opened Reflection
  import F0 = F0Windows
  import Quiet = QuietCores

  const Hop: nat := 160
  const U64: nat := 0x1_0000_0000_0000_0000
  const InputRate: nat := 16000
  const OutputRate: nat := 40000
  const ContentMaximum: nat := 640000

  // ---------------------------------------------------------------- configured bounds

  datatype Config = Config(chunk: nat, query: nat, pad: nat, hardCore: nat, hardSegment: nat)

  /** Clamping and checked bounds of the chunk configuration, with 64-bit overflow checks. */
  function Configure(n: nat, requestedChunk: nat, requestedQuery: nat, requestedPad: nat): Option<Config>
    requires n >= 2
  {
    var chunk0 := Max(requestedChunk, Hop);
    var query := Max(requestedQuery, Hop);
    var pad := Min(Max(requestedPad, Hop), n - 1);
    if 2 * query >= U64 || 2 * pad >= U64 || 2 * query + 2 * pad >= U64 || 2 * query + 2 * pad + Hop >= U64
      then None else
    var overhead := 2 * query + 2 * pad + Hop;
    if overhead >= ContentMaximum then None else
    var chunk := Min(chunk0, ContentMaximum - overhead);
    if chunk < Hop then None else
    var hardCore := chunk + 2 * query;
    var hardSegment := hardCore + 2 * pad + Hop;
    if hardSegment > ContentMaximum then None else Some(Config(chunk, query, pad, hardCore, hardSegment))
  }

  predicate Configured(c: Config, n: nat) {
    && n >= 2 && Hop <= c.chunk && Hop <= c.query && Min(Hop, n - 1) <= c.pad < n
    && c.hardCore == c.chunk + 2 * c.query && c.hardSegment == c.hardCore + 2 * c.pad + Hop <= ContentMaximum
  }

  /** A configuration is accepted exactly when one hop of core still fits beside the context, and every
      accepted one keeps whole segments within the content bound; the last bound check never fails. */
  lemma ConfigureFits(n: nat, requestedChunk: nat, requestedQuery: nat, requestedPad: nat)
    requires n >= 2
    ensures var r := Configure(n, requestedChunk, requestedQuery, requestedPad);
      && (r.Some? <==>
        2 * Max(requestedQuery, Hop) + 2 * Min(Max(requestedPad, Hop), n - 1) + 2 * Hop <= ContentMaximum)
      && (r.Some? ==> Configured(r.value, n))
  {
  }

  // ---------------------------------------------------------------- one conversion

  /** Everything a conversion depends on: the filtered clip, its bounds and the deterministic stages. */
  datatype Job = Job(
    source: seq<Word>, config: Config, context: nat,
    infer: seq<Word> -> seq<Word>,
    process: seq<Word> -> Option<seq<Word>>,
    voiced: Word -> bool,
    synth: (seq<Word>, seq<Word>, seq<bool>, nat) -> seq<Word>,
    meter: Quiet.Meter<Word>)

  predicate ValidJob(job: Job) {
    && Configured(job.config, |job.source|)
    && |job.source| * OutputRate < U64
    && (job.context == 64000 || job.context == 32000)
  }

  function Padded(job: Job): seq<Word>
    requires ValidJob(job)
  {
    Reflected(job.source, job.config.pad)
  }

  /** The pitch frames of the padded clip. */
  function Frames(job: Job): nat { (|job.source| + 2 * job.config.pad) / Hop + 1 }

  function Extraction(job: Job): F0.Extractor<Word> {
    F0.Extractor(job.infer, w => Finite(w))
  }

  function F0Block(job: Job, first: nat): Option<seq<Word>>
    requires ValidJob(job)
  {
    F0.Block(Extraction(job), Padded(job), job.context, first)
  }

  /** The raw F0 of an uninterrupted run. */
  function RawF0(job: Job): Option<seq<Word>>
    requires ValidJob(job)
  {
    F0.Streamed(Extraction(job), Padded(job), job.context, 0)
  }

  /** `s * 40000 / 16000`. */
  function OutPos(s: nat): nat { s * OutputRate / InputRate }

  lemma OutPosIncreases(a: nat, b: nat)
    requires a < b
    ensures OutPos(a) < OutPos(b)
  {
  }

  function SegmentEnd(job: Job, end: nat): nat
    requires ValidJob(job)
  {
    Min(|job.source| + 2 * job.config.pad, end + 2 * job.config.pad + Hop)
  }

  /** The core of one synthesised piece: left context dropped, then trimmed or zero-filled to the core length. */
  function Trimmed(piece: seq<Word>, left: nat, length: nat): (b: seq<Word>)
    ensures |b| == length
  {
    var available := if |piece| > left then |piece| - left else 0;
    var take := Min(length, available);
    (if take > 0 then piece[left..left + take] else []) + seq(length - take, _ => 0)
  }

  /** One synthesised core [start, end); None when any check of the loop fails. */
  function SynthBlock(job: Job, raw: seq<Word>, f0: seq<Word>, start: nat, end: nat): (b: Option<seq<Word>>)
    requires ValidJob(job) && start < end <= |job.source|
    ensures b.Some? ==> |b.value| == OutPos(end) - OutPos(start)
  {
    OutPosIncreases(start, end);
    var segmentEnd := SegmentEnd(job, end);
    if segmentEnd <= start || segmentEnd - start > job.config.hardSegment || segmentEnd - start > ContentMaximum
      then None else
    var firstF0 := start / Hop;
    var endF0 := Min(|f0|, segmentEnd / Hop);
    if endF0 <= firstF0 || endF0 > |raw| then None else
    var piece := job.synth(Padded(job)[start..segmentEnd], f0[firstF0..endF0],
                           Unvoiced(job, raw[firstF0..endF0]), firstF0);
    if |piece| == 0 || !AllFinite(piece) then None else
    Some(Trimmed(piece, OutPos(job.config.pad), OutPos(end) - OutPos(start)))
  }

  function Unvoiced(job: Job, raw: seq<Word>): seq<bool> {
    seq(|raw|, i requires 0 <= i < |raw| => !job.voiced(raw[i]))
  }

  /** Cores given by their ends, as the planner hands them out from `start`. */
  predicate Ends(n: nat, start: nat, ends: seq<nat>)
    decreases |ends|
  {
    if |ends| == 0 then start == n else start < ends[0] <= n && Ends(n, ends[0], ends[1..])
  }

  /** The raw synthesis of the cores from `start` on; None as soon as a core is too long or fails. */
  function Synthesis(job: Job, raw: seq<Word>, f0: seq<Word>, start: nat, ends: seq<nat>): (out: Option<seq<Word>>)
    requires ValidJob(job) && Ends(|job.source|, start, ends)
    decreases |ends|
  {
    if |ends| == 0 then Some([]) else
    if ends[0] - start > job.config.hardCore then None else
    var block := SynthBlock(job, raw, f0, start, ends[0]);
    if block.None? then None else
    var rest := Synthesis(job, raw, f0, ends[0], ends[1..]);
    if rest.None? then None else Some(block.value + rest.value)
  }

  /** Pieces telescope: each core begins at its absolute output position and the total is the scaled clip length. */
  lemma {:induction false} SynthesisLength(job: Job, raw: seq<Word>, f0: seq<Word>, start: nat, ends: seq<nat>)
    requires ValidJob(job) && Ends(|job.source|, start, ends) && Synthesis(job, raw, f0, start, ends).Some?
    ensures start <= |job.source| && OutPos(start) <= OutPos(|job.source|)
    ensures |Synthesis(job, raw, f0, start, ends).value| == OutPos(|job.source|) - OutPos(start)
    decreases |ends|
  {
    if |ends| > 0 {
      OutPosIncreases(start, ends[0]);
      SynthesisLength(job, raw, f0, ends[0], ends[1..]);
    }
  }

  /** A core within the hard bound always gives a segment within the segment bound. */
  lemma SegmentFits(job: Job, start: nat, end: nat)
    requires ValidJob(job) && start < end <= |job.source| && end - start <= job.config.hardCore
    ensures start < SegmentEnd(job, end) <= |Padded(job)|
    ensures SegmentEnd(job, end) - start <= job.config.hardSegment <= ContentMaximum
  {
  }

  // ---------------------------------------------------------------- the whole-array twin

  /** What one chunk adds in `convert_long`: nothing for an empty segment, None when synthesis fails. */
  function StitchBlock(job: Job, raw: seq<Word>, f0: seq<Word>, start: nat, end: nat): (b: Option<seq<Word>>)
    requires ValidJob(job) && start < end <= |job.source| && |raw| == |f0|
  {
    var b := SegmentEnd(job, end);
    var fs, fe := start / Hop, Min(|f0|, b / Hop);
    if b <= start || fe <= fs then Some([]) else
    var piece := job.synth(Padded(job)[start..b], f0[fs..fe], Unvoiced(job, raw)[fs..fe], fs);
    OutPosIncreases(start, end);
    if |piece| == 0 then None else Some(Trimmed(piece, OutPos(job.config.pad), OutPos(end) - OutPos(start)))
  }

  function Stitched(job: Job, raw: seq<Word>, f0: seq<Word>, start: nat, ends: seq<nat>): Option<seq<Word>>
    requires ValidJob(job) && Ends(|job.source|, start, ends) && |raw| == |f0|
    decreases |ends|
  {
    if |ends| == 0 then Some([]) else
    var block := StitchBlock(job, raw, f0, start, ends[0]);
    if block.None? then None else
    var rest := Stitched(job, raw, f0, ends[0], ends[1..]);
    if rest.None? then None else Some(block.value + rest.value)
  }

  lemma BlockIsStitched(job: Job, raw: seq<Word>, f0: seq<Word>, start: nat, end: nat)
    requires ValidJob(job) && start < end <= |job.source| && |raw| == |f0|
    requires SynthBlock(job, raw, f0, start, end).Some?
    ensures StitchBlock(job, raw, f0, start, end) == SynthBlock(job, raw, f0, start, end)
  {
    var b := SegmentEnd(job, end);
    var fs, fe := start / Hop, Min(|f0|, b / Hop);
    assert Unvoiced(job, raw)[fs..fe] == Unvoiced(job, raw[fs..fe]);
  }

  /** Whenever the bounded synthesis succeeds it equals the whole-array stitching of the same cores. */
  lemma {:induction false} SynthesisIsStitched(job: Job, raw: seq<Word>, f0: seq<Word>, start: nat, ends: seq<nat>)
    requires ValidJob(job) && Ends(|job.source|, start, ends) && |raw| == |f0|
    requires Synthesis(job, raw, f0, start, ends).Some?
    ensures Stitched(job, raw, f0, start, ends) == Synthesis(job, raw, f0, start, ends)
    decreases |ends|
  {
    if |ends| > 0 {
      BlockIsStitched(job, raw, f0, start, ends[0]);
      SynthesisIsStitched(job, raw, f0, ends[0], ends[1..]);
    }
  }

  /** `convert_long`: every chunk with its context, placed at its absolute output position. */
  method StitchLong(job: Job, raw: seq<Word>, f0: seq<Word>, bounds: seq<nat>) returns (out: Option<seq<Word>>)
    requires ValidJob(job) && |raw| == |f0|
    requires |bounds| > 0 && Ends(|job.source|, bounds[0], bounds[1..])
    ensures out == Stitched(job, raw, f0, bounds[0], bounds[1..])
  {
    var apad := ReflectPad(job.source, job.config.pad);
    var uv := Unvoiced(job, raw);
    var whole := [];
    var i := 0;
    ghost var all := Stitched(job, raw, f0, bounds[0], bounds[1..]);
    ghost var ends := bounds[1..];
    AppendNone(all);
    while i + 1 < |bounds|
      invariant 0 <= i < |bounds| && ends == bounds[i + 1..] && Ends(|job.source|, bounds[i], ends)
      invariant Append(whole, Stitched(job, raw, f0, bounds[i], ends)) == all
      decreases |bounds| - i
    {
      var block := StitchOne(job, raw, f0, apad, uv, bounds[i], bounds[i + 1]);
      if block.None? { return None; }
      AppendMore(whole, block.value, Stitched(job, raw, f0, bounds[i + 1], ends[1..]));
      whole := whole + block.value;
      i := i + 1;
      ends := ends[1..];
    }
    assert whole + [] == whole;
    out := Some(whole);
  }

  /** The loop body of `convert_long`. */
  method StitchOne(job: Job, ghost raw: seq<Word>, f0: seq<Word>, apad: seq<Word>, uv: seq<bool>, s: nat, e: nat)
    returns (block: Option<seq<Word>>)
    requires ValidJob(job) && |raw| == |f0| && s < e <= |job.source|
    requires apad == Padded(job) && uv == Unvoiced(job, raw)
    ensures block == StitchBlock(job, raw, f0, s, e)
  {
    var left := OutPos(job.config.pad);
    var b := Min(|apad|, e + 2 * job.config.pad + Hop);
    var fs, fe := s / Hop, Min(|f0|, b / Hop);
    if b <= s || fe <= fs { return Some([]); }
    var piece := job.synth(apad[s..b], f0[fs..fe], uv[fs..fe], fs);
    if |piece| == 0 { return None; }
    OutPosIncreases(s, e);
    var coreLength := OutPos(e) - OutPos(s);
    var take := Max(0, Min(|piece| - left, coreLength));
    block := Some((if take > 0 then piece[left..left + take] else []) + seq(coreLength - take, _ => 0));
  }

  ghost function Append(a: seq<Word>, b: Option<seq<Word>>): Option<seq<Word>> {
    if b.None? then None else Some(a + b.value)
  }

  lemma AppendNone(b: Option<seq<Word>>)
    ensures Append([], b) == b
  {
    if b.Some? { assert [] + b.value == b.value; }
  }

  lemma AppendMore(a: seq<Word>, b: seq<Word>, c: Option<seq<Word>>)
    ensures Append(a + b, c) == Append(a, Append(b, c))
  {
    if c.Some? { assert a + b + c.value == a + (b + c.value); }
  }
}
