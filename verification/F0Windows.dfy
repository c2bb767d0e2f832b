/** Raw F0 extraction in overlapping windows on the global 160-sample lattice. */
module F0Windows {
  import opened Spools

  const Hop: nat := 160
  const CoreSamples: nat := 128000
  const CoreFrames: nat := 800
  const U64: nat := 0x1_0000_0000_0000_0000

  datatype WindowPlan = WindowPlan(
    firstFrame: nat, endFrame: nat, inputStart: nat, inputSamples: nat,
    cropFirst: nat, cropCount: nat, localFrames: nat)

  /** `plan_f0_window`; the profile bound is computed in 64-bit unsigned arithmetic. */
  function PlanWindow(total: nat, first: nat, context: nat): Option<WindowPlan> {
    if total == 0 || context % Hop != 0 then None else
    var totalFrames := total / Hop + 1;
    if first >= totalFrames then None else
    var frameCount := Min(CoreFrames, totalFrames - first);
    var end := first + frameCount;
    if first > (U64 - 1) / Hop then None else
    var coreStart := first * Hop;
    var coreEnd := if end < totalFrames then end * Hop else total;
    var inputStart := if coreStart > context then coreStart - context else 0;
    var inputEnd := coreEnd + Min(context, total - coreEnd);
    if inputStart % Hop != 0 || inputEnd <= inputStart then None else
    var inputSamples := inputEnd - inputStart;
    var localFrames := inputSamples / Hop + 1;
    var cropFirst := first - inputStart / Hop;
    if cropFirst > localFrames || frameCount > localFrames - cropFirst
       || inputSamples > (CoreSamples + 2 * context) % U64 then None else
    Some(WindowPlan(first, end, inputStart, inputSamples, cropFirst, frameCount, localFrames))
  }

  /** The planner accepts exactly the frames of a non-empty clip with context on the lattice; without
      context it also needs a sample at or after the first frame. */
  lemma PlanAccepts(total: nat, first: nat, context: nat)
    requires total < U64 && CoreSamples + 2 * context < U64
    ensures PlanWindow(total, first, context).Some? <==>
      total > 0 && context % Hop == 0 && first <= total / Hop && (context > 0 || first * Hop < total)
  {
  }

  /** An accepted window holds its core frames with full context, except at the true clip edges, within the profile
      bound. */
  lemma PlanCovers(total: nat, first: nat, context: nat)
    requires PlanWindow(total, first, context).Some?
    ensures var p := PlanWindow(total, first, context).value;
      var inputEnd := p.inputStart + p.inputSamples;
      && p.firstFrame == first && p.endFrame == first + p.cropCount == Min(first + CoreFrames, total / Hop + 1)
      && p.cropCount > 0 && p.inputStart % Hop == 0 && 0 < p.inputSamples && inputEnd <= total
      && p.inputStart / Hop + p.cropFirst == first
      && p.localFrames == p.inputSamples / Hop + 1 && p.cropFirst + p.cropCount <= p.localFrames
      && p.inputSamples <= CoreSamples + 2 * context
      && (p.inputStart == 0 || first * Hop - context == p.inputStart)
      && (inputEnd == total || (p.endFrame - 1) * Hop + context <= inputEnd)
  {
  }

  // ---------------------------------------------------------------- local extractors

  /** Frame f of the window [from, to) of x agrees with frame f of x whenever the window gives it full
      context on both sides or ends at the clip edge. */
  ghost predicate FrameLocal<T>(infer: seq<T> -> seq<T>, context: nat, x: seq<T>, from: nat, to: nat, f: nat) {
    from < to <= |x| && from % Hop == 0 && from <= f * Hop <= to
    && (from == 0 || from + context <= f * Hop) && (to == |x| || f * Hop + context <= to) ==>
      && |infer(x[from..to])| == (to - from) / Hop + 1 && |infer(x)| == |x| / Hop + 1
      && infer(x[from..to])[f - from / Hop] == infer(x)[f]
  }

  ghost predicate Local<T>(infer: seq<T> -> seq<T>, context: nat, x: seq<T>) {
    forall from: nat, to: nat, f: nat :: FrameLocal(infer, context, x, from, to, f)
  }

  /** An extractor together with the values a spool accepts (finite ones). */
  datatype Extractor<!T> = Extractor(infer: seq<T> -> seq<T>, accept: T -> bool)

  predicate Accepted<T>(e: Extractor<T>, s: seq<T>) { forall i :: 0 <= i < |s| ==> e.accept(s[i]) }

  /** The frames one window contributes: extraction over its samples, cropped to the core. */
  function Crop<T>(e: Extractor<T>, window: seq<T>, p: WindowPlan): Option<seq<T>> {
    var local := e.infer(window);
    if |local| != p.localFrames || p.cropFirst > |local| || p.cropCount > |local| - p.cropFirst then None
    else
      var crop := local[p.cropFirst..p.cropFirst + p.cropCount];
      if Accepted(e, crop) then Some(crop) else None
  }

  lemma CropIsWhole<T>(e: Extractor<T>, context: nat, x: seq<T>, first: nat, p: WindowPlan)
    requires Local(e.infer, context, x) && PlanWindow(|x|, first, context) == Some(p) && Accepted(e, e.infer(x))
    ensures p.inputStart + p.inputSamples <= |x| && first <= p.endFrame <= |e.infer(x)| == |x| / Hop + 1
    ensures Crop(e, x[p.inputStart..p.inputStart + p.inputSamples], p) == Some(e.infer(x)[first..p.endFrame])
  {
    var infer := e.infer;
    PlanCovers(|x|, first, context);
    var local := infer(x[p.inputStart..p.inputStart + p.inputSamples]);
    forall j: nat ensures Agree(local, infer(x), p.cropFirst, first, p.cropCount, j) {
      WindowFrame(infer, context, x, first, p, j);
    }
    WindowFrame(infer, context, x, first, p, 0);
    SlicesAgree(local, infer(x), p.cropFirst, first, p.cropCount);
  }

  ghost predicate Agree<T>(a: seq<T>, b: seq<T>, i: nat, k: nat, count: nat, j: nat) {
    j < count ==> i + j < |a| && k + j < |b| && a[i + j] == b[k + j]
  }

  lemma SlicesAgree<T>(a: seq<T>, b: seq<T>, i: nat, k: nat, count: nat)
    requires i + count <= |a| && k + count <= |b| && forall j: nat :: Agree(a, b, i, k, count, j)
    ensures a[i..i + count] == b[k..k + count]
  {
    var s, t := a[i..i + count], b[k..k + count];
    forall j | 0 <= j < count ensures s[j] == t[j] {
      assert Agree(a, b, i, k, count, j);
    }
  }

  lemma WindowFrame<T>(infer: seq<T> -> seq<T>, context: nat, x: seq<T>, first: nat, p: WindowPlan, j: nat)
    requires Local(infer, context, x) && PlanWindow(|x|, first, context) == Some(p)
    requires p.inputStart + p.inputSamples <= |x|
    ensures var local := infer(x[p.inputStart..p.inputStart + p.inputSamples]);
      && Agree(local, infer(x), p.cropFirst, first, p.cropCount, j)
      && (j < p.cropCount ==> |local| == p.localFrames && |infer(x)| == |x| / Hop + 1)
  {
    if j < p.cropCount {
      PlanCovers(|x|, first, context);
      FrameInWindow(|x|, first, context, j);
      assert FrameLocal(infer, context, x, p.inputStart, p.inputStart + p.inputSamples, first + j);
    }
  }

  lemma FrameInWindow(total: nat, first: nat, context: nat, j: nat)
    requires PlanWindow(total, first, context).Some?
    requires j < PlanWindow(total, first, context).value.cropCount
    ensures var p := PlanWindow(total, first, context).value;
      var from, to, f := p.inputStart, p.inputStart + p.inputSamples, first + j;
      && from <= f * Hop <= to && (from == 0 || from + context <= f * Hop) && (to == total || f * Hop + context <= to)
      && f - from / Hop == p.cropFirst + j
  {
    PlanCovers(total, first, context);
  }

  // ---------------------------------------------------------------- the streamed spool

  /** What the window starting at frame `first` contributes; None when planning, extraction or storing fails. */
  function Block<T>(e: Extractor<T>, x: seq<T>, context: nat, first: nat): (b: Option<seq<T>>) {
    match PlanWindow(|x|, first, context)
    case None => None
    case Some(p) =>
      PlanCovers(|x|, first, context);
      Crop(e, x[p.inputStart..p.inputStart + p.inputSamples], p)
  }

  lemma BlockLength<T>(e: Extractor<T>, x: seq<T>, context: nat, first: nat)
    requires Block(e, x, context, first).Some?
    ensures PlanWindow(|x|, first, context).Some?
    ensures var p := PlanWindow(|x|, first, context).value;
      |Block(e, x, context, first).value| == p.cropCount > 0 && first < p.endFrame
        && Accepted(e, Block(e, x, context, first).value)
  {
    PlanCovers(|x|, first, context);
  }

  /** What the windows from frame `first` on contribute; None as soon as one of them fails. */
  function Streamed<T>(e: Extractor<T>, x: seq<T>, context: nat, first: nat): Option<seq<T>>
    decreases |x| / Hop + 1 - first
  {
    if first >= |x| / Hop + 1 then Some([]) else
    var block := Block(e, x, context, first);
    if block.None? then None else
    BlockLength(e, x, context, first);
    var rest := Streamed(e, x, context, PlanWindow(|x|, first, context).value.endFrame);
    if rest.None? then None else Some(block.value + rest.value)
  }

  /** Windowed extraction equals one extraction over the whole clip, for every extractor that is local on it, with
      storable values. */
  lemma {:induction false} StreamedIsWhole<T>(e: Extractor<T>, x: seq<T>, context: nat, first: nat)
    requires Local(e.infer, context, x) && Accepted(e, e.infer(x)) && 0 < |x| < U64 && CoreSamples + 2 * context < U64
    requires context > 0 && context % Hop == 0 && first <= |x| / Hop + 1
    ensures |e.infer(x)| == |x| / Hop + 1
    ensures Streamed(e, x, context, first) == Some(e.infer(x)[first..])
    decreases |x| / Hop + 1 - first
  {
    assert FrameLocal(e.infer, context, x, 0, |x|, 0);
    assert x[0..|x|] == x;
    if first < |x| / Hop + 1 {
      var end := BlockIsWhole(e, x, context, first);
      StreamedIsWhole(e, x, context, end);
      Rejoin(e.infer(x), first, end);
    } else {
      assert e.infer(x)[first..] == [];
    }
  }

  lemma BlockIsWhole<T>(e: Extractor<T>, x: seq<T>, context: nat, first: nat) returns (end: nat)
    requires Local(e.infer, context, x) && Accepted(e, e.infer(x)) && 0 < |x| < U64 && CoreSamples + 2 * context < U64
    requires context > 0 && context % Hop == 0 && first < |x| / Hop + 1
    ensures first < end <= |e.infer(x)| == |x| / Hop + 1
    ensures PlanWindow(|x|, first, context).Some? && PlanWindow(|x|, first, context).value.endFrame == end
    ensures Block(e, x, context, first) == Some(e.infer(x)[first..end])
  {
    PlanAccepts(|x|, first, context);
    PlanCovers(|x|, first, context);
    var p := PlanWindow(|x|, first, context).value;
    CropIsWhole(e, context, x, first, p);
    end := p.endFrame;
  }

  lemma Rejoin<T>(s: seq<T>, a: nat, b: nat)
    requires a <= b <= |s|
    ensures s[a..] == s[a..b] + s[b..]
  {
  }
}
