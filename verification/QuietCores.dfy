/** Cutting a long clip into cores at quiet frames: the eager list of the whole-array
    path and the lazy planner of the bounded path. */
module QuietCores {
  import opened Spools

  const Hop: nat := 160
  const U64: nat := 0x1_0000_0000_0000_0000
  /** The largest finite 32-bit float, where every search starts. */
  const MaxFloat: real := 340282346638528859811704183484516925440.0

  /** How one frame is measured: magnitudes are summed in double, the sum is narrowed to float. */
  datatype Meter<!T> = Meter(magnitude: T -> real, narrow: real -> real)

  function Loudness<T>(mt: Meter<T>, s: seq<T>): real {
    if |s| == 0 then 0.0 else Loudness(mt, s[..|s| - 1]) + mt.magnitude(s[|s| - 1])
  }

  function Energy<T>(mt: Meter<T>, x: seq<T>, f: nat): real
    requires (f + 1) * Hop <= |x|
  {
    mt.narrow(Loudness(mt, x[f * Hop..(f + 1) * Hop]))
  }

  // ---------------------------------------------------------------- what a frame measures

  /** The same meter without narrowing. */
  function Wide<T>(mt: Meter<T>): Meter<T> { Meter(mt.magnitude, (e: real) => e) }

  /** The measure of a frame is the narrowed sum of its 160 magnitudes and of nothing else: the sum is 160 times the
      magnitude they share in a frame of equal ones, and changes by what one sample changes. */
  lemma EnergyNarrows<T>(mt: Meter<T>, x: seq<T>, f: nat)
    requires (f + 1) * Hop <= |x|
    ensures Energy(mt, x, f) == mt.narrow(Energy(Wide(mt), x, f))
  {
    SameLoudness(mt, Wide(mt), x[f * Hop..(f + 1) * Hop]);
  }

  lemma {:induction false} SameLoudness<T>(a: Meter<T>, b: Meter<T>, s: seq<T>)
    requires a.magnitude == b.magnitude
    ensures Loudness(a, s) == Loudness(b, s)
  {
    if |s| > 0 { SameLoudness(a, b, s[..|s| - 1]); }
  }

  lemma {:induction false} EqualLoudness<T>(mt: Meter<T>, s: seq<T>, v: real)
    requires forall k :: 0 <= k < |s| ==> mt.magnitude(s[k]) == v
    ensures Loudness(mt, s) == |s| as real * v
  {
    if |s| > 0 {
      EqualLoudness(mt, s[..|s| - 1], v);
      assert (|s| - 1) as real * v + v == |s| as real * v;
    }
  }

  lemma EnergyOfEqual<T>(mt: Meter<T>, x: seq<T>, f: nat, v: real)
    requires (f + 1) * Hop <= |x| && forall k :: f * Hop <= k < (f + 1) * Hop ==> mt.magnitude(x[k]) == v
    ensures Energy(mt, x, f) == mt.narrow(160.0 * v)
  {
    var s := x[f * Hop..(f + 1) * Hop];
    assert |s| == 160;
    EqualLoudness(mt, s, v);
  }

  lemma {:induction false} LoudnessMoves<T>(mt: Meter<T>, s: seq<T>, k: nat, v: T)
    requires k < |s|
    ensures Loudness(mt, s[k := v]) == Loudness(mt, s) - mt.magnitude(s[k]) + mt.magnitude(v)
  {
    var front := s[..|s| - 1];
    if k == |s| - 1 {
      assert s[k := v][..|s| - 1] == front;
    } else {
      LoudnessMoves(mt, front, k, v);
      assert s[k := v][..|s| - 1] == front[k := v];
    }
  }

  /** Another sample in its place changes the sum by the difference of the magnitudes when it is in the frame, and not
      at all when it is in another. */
  lemma EnergyMoves<T>(mt: Meter<T>, x: seq<T>, f: nat, k: nat, v: T)
    requires (f + 1) * Hop <= |x| && k < |x|
    ensures Energy(Wide(mt), x[k := v], f) == Energy(Wide(mt), x, f)
      + if f * Hop <= k < (f + 1) * Hop then mt.magnitude(v) - mt.magnitude(x[k]) else 0.0
  {
    var s, t := x[f * Hop..(f + 1) * Hop], x[k := v][f * Hop..(f + 1) * Hop];
    if f * Hop <= k < (f + 1) * Hop {
      assert t == s[k - f * Hop := v];
      LoudnessMoves(Wide(mt), s, k - f * Hop, v);
    } else {
      assert t == s;
    }
  }

  // ---------------------------------------------------------------- the quietest frame

  /** The search state after the frames [lo, f): the frame and energy kept so far. */
  function Scan<T>(mt: Meter<T>, x: seq<T>, lo: nat, f: nat): (nat, real)
    requires lo <= f && f * Hop <= |x|
  {
    if f == lo then (lo, MaxFloat)
    else
      var (best, energy) := Scan(mt, x, lo, f - 1);
      if Energy(mt, x, f - 1) < energy then (f - 1, Energy(mt, x, f - 1)) else (best, energy)
  }

  function Quietest<T>(mt: Meter<T>, x: seq<T>, lo: nat, hi: nat): nat
    requires lo <= hi && (hi + 1) * Hop <= |x|
  {
    Scan(mt, x, lo, hi + 1).0
  }

  /** What the scan keeps: the first frame of least energy, or lo when none is below the float maximum. */
  lemma {:induction false} ScanKeepsFirstMinimum<T>(mt: Meter<T>, x: seq<T>, lo: nat, f: nat)
    requires lo <= f && f * Hop <= |x|
    ensures var (best, energy) := Scan(mt, x, lo, f);
      && (if energy == MaxFloat then best == lo else lo <= best < f && energy == Energy(mt, x, best) < MaxFloat)
      && (forall g :: lo <= g < f ==> energy <= Energy(mt, x, g))
      && (forall g :: lo <= g < f && g < best ==> energy < Energy(mt, x, g))
  {
    if f > lo { ScanKeepsFirstMinimum(mt, x, lo, f - 1); }
  }

  lemma {:induction false} ScanRange<T>(mt: Meter<T>, x: seq<T>, lo: nat, f: nat)
    requires lo < f && f * Hop <= |x|
    ensures lo <= Scan(mt, x, lo, f).0 < f
  {
    if f > lo + 1 { ScanRange(mt, x, lo, f - 1); }
  }

  // ---------------------------------------------------------------- the eager list

  /** The frames searched around one target. */
  function LowFrame(target: nat, query: nat): nat {
    (if target > query then target - query else 1) / Hop
  }

  function HighFrame(n: nat, target: nat, query: nat): nat
    requires n >= Hop
  {
    Min(n / Hop - 1, Min(n - 1, target + query) / Hop)
  }

  predicate Searchable(n: nat, chunk: nat, query: nat, target: nat) {
    chunk >= Hop && query >= Hop && chunk <= target < n
  }

  /** With both lengths at least one hop the searched range is never empty. */
  lemma RangeNotEmpty(n: nat, chunk: nat, query: nat, target: nat)
    requires Searchable(n, chunk, query, target)
    ensures LowFrame(target, query) <= HighFrame(n, target, query)
    ensures (HighFrame(n, target, query) + 1) * Hop <= n
  {
  }

  /** The sample at which the clip would be cut for this target. */
  function Candidate<T>(mt: Meter<T>, x: seq<T>, chunk: nat, query: nat, target: nat): nat
    requires Searchable(|x|, chunk, query, target)
  {
    RangeNotEmpty(|x|, chunk, query, target);
    Quietest(mt, x, LowFrame(target, query), HighFrame(|x|, target, query)) * Hop
  }

  /** cut(t) is the candidate of every target t that is searched. */
  ghost predicate CandidateAt<T>(cut: nat -> nat, mt: Meter<T>, x: seq<T>, chunk: nat, query: nat, target: nat) {
    Searchable(|x|, chunk, query, target) ==> cut(target) == Candidate(mt, x, chunk, query, target)
  }

  ghost predicate IsSearch<T>(cut: nat -> nat, mt: Meter<T>, x: seq<T>, chunk: nat, query: nat) {
    forall target: nat :: CandidateAt(cut, mt, x, chunk, query, target)
  }

  function Search<T>(mt: Meter<T>, x: seq<T>, chunk: nat, query: nat): nat -> nat {
    target => if Searchable(|x|, chunk, query, target) then Candidate(mt, x, chunk, query, target) else 0
  }

  /** The cuts still to come when the search stands at `target` and the last cut was `last`. */
  function Cuts(cut: nat -> nat, n: nat, chunk: nat, target: nat, last: nat): seq<nat>
    requires chunk > 0
    decreases n - target
  {
    if target >= n then []
    else if cut(target) > last && cut(target) < n then [cut(target)] + Cuts(cut, n, chunk, target + chunk, cut(target))
    else Cuts(cut, n, chunk, target + chunk, last)
  }

  /** The eager list of core bounds. */
  function Bounds<T>(mt: Meter<T>, x: seq<T>, chunk: nat, query: nat): seq<nat>
    requires chunk >= Hop && query >= Hop
  {
    [0] + Cuts(Search(mt, x, chunk, query), |x|, chunk, chunk, 0) + [|x|]
  }

  lemma SomeSearch<T>(mt: Meter<T>, x: seq<T>, chunk: nat, query: nat) returns (cut: nat -> nat)
    requires chunk >= Hop && query >= Hop
    ensures IsSearch(cut, mt, x, chunk, query)
    ensures [0] + Cuts(cut, |x|, chunk, chunk, 0) + [|x|] == Bounds(mt, x, chunk, query)
  {
    cut := Search(mt, x, chunk, query);
    forall target: nat ensures CandidateAt(cut, mt, x, chunk, query, target) {}
  }

  method FrameEnergies<T>(mt: Meter<T>, x: seq<T>) returns (energy: seq<real>)
    ensures |energy| == |x| / Hop
    ensures forall f :: 0 <= f < |energy| ==> energy[f] == Energy(mt, x, f)
  {
    energy := [];
    for f := 0 to |x| / Hop
      invariant |energy| == f
      invariant forall g :: 0 <= g < f ==> energy[g] == Energy(mt, x, g)
    {
      var e := FrameEnergy(mt, x[f * Hop..(f + 1) * Hop]);
      energy := energy + [e];
    }
  }

  method FrameEnergy<T>(mt: Meter<T>, frame: seq<T>) returns (e: real)
    ensures e == mt.narrow(Loudness(mt, frame))
  {
    var acc := 0.0;
    for k := 0 to |frame|
      invariant acc == Loudness(mt, frame[..k])
    {
      assert frame[..k + 1][..k] == frame[..k];
      acc := acc + mt.magnitude(frame[k]);
    }
    assert frame[..|frame|] == frame;
    e := mt.narrow(acc);
  }

  method QuietestFrame<T>(ghost mt: Meter<T>, ghost x: seq<T>, energy: seq<real>, lof: nat, hif: nat)
    returns (best: nat)
    requires lof <= hif < |energy| == |x| / Hop
    requires forall f :: 0 <= f < |energy| ==> energy[f] == Energy(mt, x, f)
    ensures best == Quietest(mt, x, lof, hif)
  {
    best := lof;
    var bestE := MaxFloat;
    for f := lof to hif + 1
      invariant (best, bestE) == Scan(mt, x, lof, f)
    {
      if energy[f] < bestE {
        bestE := energy[f];
        best := f;
      }
    }
  }

  lemma MoveHead(a: seq<nat>, b: seq<nat>)
    requires |b| > 0
    ensures a + b == a + [b[0]] + b[1..]
  {
  }

  /** The loop body of the eager search: the cut position for one target. */
  method EagerCandidate<T>(ghost mt: Meter<T>, ghost x: seq<T>, ghost cut: nat -> nat, energy: seq<real>,
                           n: nat, chunk: nat, query: nat, target: nat)
    returns (pos: nat)
    requires n == |x| && |energy| == n / Hop && Searchable(n, chunk, query, target)
    requires forall f :: 0 <= f < |energy| ==> energy[f] == Energy(mt, x, f)
    requires IsSearch(cut, mt, x, chunk, query)
    ensures pos == cut(target)
  {
    assert CandidateAt(cut, mt, x, chunk, query, target);
    RangeNotEmpty(n, chunk, query, target);
    var lo := Max(1, target - query);
    var hi := Min(n - 1, target + query);
    var best := QuietestFrame(mt, x, energy, lo / Hop, Min(n / Hop - 1, hi / Hop));
    pos := best * Hop;
  }

  /** One turn of the loop over the targets. */
  lemma CutTurn(cut: nat -> nat, n: nat, chunk: nat, target: nat, bounds: seq<nat>, rest: seq<nat>, all: seq<nat>)
    requires chunk > 0 && target < n && |bounds| > 0
    requires rest == Cuts(cut, n, chunk, target, bounds[|bounds| - 1]) && bounds + rest == [0] + all
    ensures var last, pos := bounds[|bounds| - 1], cut(target);
      if pos > last && pos < n then
        |rest| > 0 && rest[1..] == Cuts(cut, n, chunk, target + chunk, pos) && bounds + [pos] + rest[1..] == [0] + all
      else rest == Cuts(cut, n, chunk, target + chunk, last)
  {
    if cut(target) > bounds[|bounds| - 1] && cut(target) < n { MoveHead(bounds, rest); }
  }

  /** The cut planning of `convert_long`: energies of the whole clip first, then every target. */
  method CutPoints<T>(mt: Meter<T>, x: seq<T>, chunk: nat, query: nat) returns (bounds: seq<nat>)
    requires chunk >= Hop && query >= Hop
    ensures bounds == Bounds(mt, x, chunk, query)
  {
    var n := |x|;
    var energy := FrameEnergies(mt, x);
    ghost var cut := SomeSearch(mt, x, chunk, query);
    bounds := [0];
    var target := chunk;
    ghost var all := Cuts(cut, n, chunk, chunk, 0);
    ghost var rest := all;
    while target < n
      invariant chunk <= target && |bounds| > 0
      invariant rest == Cuts(cut, n, chunk, target, bounds[|bounds| - 1])
      invariant bounds + rest == [0] + all
      decreases n - target
    {
      var pos := EagerCandidate(mt, x, cut, energy, n, chunk, query, target);
      CutTurn(cut, n, chunk, target, bounds, rest, all);
      if pos > bounds[|bounds| - 1] && pos < n {
        bounds, rest := bounds + [pos], rest[1..];
      }
      target := target + chunk;
    }
    bounds := bounds + [n];
  }

  // ---------------------------------------------------------------- what the cuts guarantee

  /** Consecutive bounds are increasing, start on the hop lattice and stay within the hard core length. */
  ghost predicate CoresFit(bounds: seq<nat>, hard: nat) {
    forall i :: 0 <= i < |bounds| - 1 ==>
      bounds[i] < bounds[i + 1] && bounds[i] % Hop == 0 && bounds[i + 1] - bounds[i] <= hard
  }

  /** The chunk and query lengths under which no core can exceed the hard bound: in no residue class of the targets
      does the lowest cut of one search lie too far below the highest cut of the next. */
  predicate Steady(chunk: nat, query: nat) {
    forall r :: 0 <= r < Hop ==> StepFits(r * chunk + (Hop - 1) * query, chunk + 2 * query)
  }

  predicate StepFits(a: nat, step: nat) { a % Hop + step % Hop < Hop }

  /** Lengths whose sum is on the lattice are steady. */
  lemma AlignedIsSteady(chunk: nat, query: nat)
    requires (chunk + 2 * query) % Hop == 0
    ensures Steady(chunk, query)
  {
  }

  /** A step between the lattice points below a and below a + step is at most `step` long exactly when the remainders do
      not carry. */
  lemma LatticeStep(a: nat, step: nat)
    ensures StepFits(a, step) <==> (a + step) / Hop * Hop - a / Hop * Hop <= step
  {
  }

  /** Targets are multiples of the chunk, so what lies a query below one has a residue that `Steady` looks at. */
  lemma TargetResidue(k: nat, chunk: nat, query: nat)
    requires k * chunk >= query
    ensures (k * chunk - query) % Hop == (k % Hop * chunk + (Hop - 1) * query) % Hop
  {
    var h, r := k / Hop, k % Hop;
    Distribute(h, r, chunk);
    assert k * chunk == (Hop * h + r) * chunk;
    SameRest(k * chunk - query, r * chunk + (Hop - 1) * query, h * chunk - query);
  }

  lemma Distribute(h: nat, r: nat, chunk: nat)
    ensures (Hop * h + r) * chunk == Hop * (h * chunk) + r * chunk
  {
  }

  lemma SameRest(a: nat, b: nat, m: int)
    requires a == b + Hop * m
    ensures a % Hop == b % Hop
  {
  }

  /** Where the last cut can lie when the search stands at `target`. */
  predicate Reach(n: nat, chunk: nat, query: nat, target: nat, last: nat) {
    && last < n && last % Hop == 0 && last > target - chunk - query - Hop && target - chunk < n
    && (target > chunk ==> LowFrame(target - chunk, query) * Hop <= last)
  }

  lemma CandidateNear<T>(cut: nat -> nat, mt: Meter<T>, x: seq<T>, chunk: nat, query: nat, target: nat)
    requires IsSearch(cut, mt, x, chunk, query) && Searchable(|x|, chunk, query, target)
    ensures target - query - Hop < cut(target) <= target + query && cut(target) < |x| && cut(target) % Hop == 0
    ensures LowFrame(target, query) * Hop <= cut(target)
  {
    assert CandidateAt(cut, mt, x, chunk, query, target);
    RangeNotEmpty(|x|, chunk, query, target);
    ScanRange(mt, x, LowFrame(target, query), HighFrame(|x|, target, query) + 1);
  }

  /** The next cut is within the hard bound of the last one. */
  lemma NextCutFits(n: nat, chunk: nat, query: nat, k: nat, target: nat, last: nat, pos: nat)
    requires Steady(chunk, query) && k > 0 && target == k * chunk && chunk > 0 && Reach(n, chunk, query, target, last)
    requires pos <= target + query && pos % Hop == 0
    ensures pos - last <= chunk + 2 * query
  {
    if target - chunk > query {
      var a, step := target - chunk - query, chunk + 2 * query;
      NextTarget(k - 1, chunk);
      TargetStepFits(chunk, query, k - 1, target - chunk);
      LatticeStep(a, step);
      Below(pos, a + step);
    }
  }

  /** Steady lengths fit below every target past the query. */
  lemma TargetStepFits(chunk: nat, query: nat, k: nat, target: nat)
    requires Steady(chunk, query) && target == k * chunk && target >= query
    ensures StepFits(target - query, chunk + 2 * query)
  {
    TargetResidue(k, chunk, query);
    assert StepFits(k % Hop * chunk + (Hop - 1) * query, chunk + 2 * query);
  }

  lemma Below(pos: nat, limit: nat)
    requires pos % Hop == 0 && pos <= limit
    ensures pos <= limit / Hop * Hop
  {
  }

  lemma {:induction false} CutsFit<T>(cut: nat -> nat, mt: Meter<T>, x: seq<T>, chunk: nat, query: nat, k: nat,
                                      target: nat, last: nat)
    requires IsSearch(cut, mt, x, chunk, query) && chunk >= Hop && query >= Hop && k > 0 && target == k * chunk
    requires Steady(chunk, query) && Reach(|x|, chunk, query, target, last)
    ensures CoresFit([last] + Cuts(cut, |x|, chunk, target, last) + [|x|], chunk + 2 * query)
    decreases |x| - target
  {
    NextTarget(k, chunk);
    if target < |x| {
      var pos := cut(target);
      CandidateNear(cut, mt, x, chunk, query, target);
      if pos > last {
        NextCutFits(|x|, chunk, query, k, target, last, pos);
        CutsFit(cut, mt, x, chunk, query, k + 1, target + chunk, pos);
        var rest := Cuts(cut, |x|, chunk, target + chunk, pos);
        PrependCore(last, [pos] + rest + [|x|], chunk + 2 * query);
        Regroup(last, [pos] + rest, |x|);
      } else {
        CutsFit(cut, mt, x, chunk, query, k + 1, target + chunk, last);
      }
    }
  }

  lemma Regroup(last: nat, rest: seq<nat>, n: nat)
    ensures [last] + rest + [n] == [last] + (rest + [n])
  {
  }

  lemma NextTarget(k: nat, chunk: nat)
    ensures (k + 1) * chunk == k * chunk + chunk
    ensures k > 0 ==> k * chunk >= chunk
  {
    if k > 0 { assert (k - 1) * chunk + chunk == k * chunk; }
  }

  lemma PrependCore(a: nat, rest: seq<nat>, hard: nat)
    requires |rest| > 0 && a < rest[0] && a % Hop == 0 && rest[0] - a <= hard && CoresFit(rest, hard)
    ensures CoresFit([a] + rest, hard)
  {
    var all := [a] + rest;
    forall i | 0 <= i < |all| - 1
      ensures all[i] < all[i + 1] && all[i] % Hop == 0 && all[i + 1] - all[i] <= hard
    {
      if i > 0 { assert all[i] == rest[i - 1] && all[i + 1] == rest[i]; }
    }
  }

  /** For every non-empty clip the cores of steady lengths tile the clip within the hard bound. */
  lemma BoundsFit<T>(mt: Meter<T>, x: seq<T>, chunk: nat, query: nat)
    requires chunk >= Hop && query >= Hop && |x| > 0 && Steady(chunk, query)
    ensures CoresFit(Bounds(mt, x, chunk, query), chunk + 2 * query)
    ensures var b := Bounds(mt, x, chunk, query); b[0] == 0 && b[|b| - 1] == |x|
  {
    var cut := SomeSearch(mt, x, chunk, query);
    CutsFit(cut, mt, x, chunk, query, 1, chunk, 0);
  }

  // ---------------------------------------------------------------- the lazy planner

  datatype Step = Core(start: nat, end: nat) | Done | Failed

  class Planner<T> {
    const mt: Meter<T>
    const source: Spool<T>
    const chunk: nat
    const query: nat
    const hardCore: nat
    ghost const cut: nat -> nat
    var previous: nat
    var target: nat

    constructor (mt: Meter<T>, source: Spool<T>, chunk: nat, query: nat, hardCore: nat)
      requires chunk >= Hop && query >= Hop && 0 < |source.samples| && |source.samples| + chunk < U64
      ensures this.mt == mt && this.source == source
      ensures this.chunk == chunk && this.query == query && this.hardCore == hardCore
      ensures Valid() && previous == 0
      ensures [0] + Pending() == Bounds(mt, source.samples, chunk, query)
    {
      this.mt, this.source, this.chunk, this.query, this.hardCore := mt, source, chunk, query, hardCore;
      previous, target := 0, chunk;
      ghost var search := SomeSearch(mt, source.samples, chunk, query);
      this.cut := search;
      new;
      assert [0] + (Cuts(cut, |source.samples|, chunk, chunk, 0) + [|source.samples|])
        == Bounds(mt, source.samples, chunk, query);
    }

    ghost predicate Valid()
      reads this, source
    {
      && chunk >= Hop && query >= Hop && chunk <= target
      && |source.samples| + chunk < U64
      && previous <= |source.samples|
      && IsSearch(cut, mt, source.samples, chunk, query)
    }

    /** The ends of all cores still to be handed out. */
    ghost function Pending(): seq<nat>
      requires Valid()
      reads this, source
    {
      if previous >= |source.samples| then []
      else Cuts(cut, |source.samples|, chunk, target, previous) + [|source.samples|]
    }

    /** Hands out the next core of the eager list, reading only the frames around one target at a time;
        it fails exactly when that core is longer than the hard bound. */
    method Next() returns (step: Step)
      requires Valid()
      modifies this
      ensures Valid()
      ensures old(Pending()) == [] ==> step == Done
      ensures old(Pending()) != [] ==>
        var end := old(Pending())[0];
        if end - old(previous) > hardCore then step == Failed
        else step == Core(old(previous), end) && previous == end && Pending() == old(Pending())[1..]
    {
      var n := |source.samples|;
      if previous >= n { return Done; }
      ghost var cuts := Cuts(cut, n, chunk, target, previous);
      while target < n
        invariant Valid() && previous == old(previous) < n
        invariant cuts == Cuts(cut, n, chunk, target, previous)
        decreases n - target
      {
        var candidate := LazyCandidate();
        if chunk > U64 - 1 - target { return Failed; }
        target := target + chunk;
        if candidate.None? { continue; }
        if candidate.value <= previous || candidate.value >= n { continue; }
        HeadTail(cuts, n);
        if candidate.value - previous > hardCore { return Failed; }
        step := Core(previous, candidate.value);
        previous := candidate.value;
        return;
      }
      if n - previous > hardCore { return Failed; }
      step := Core(previous, n);
      previous := n;
    }

    /** The cut position for the current target, from one window of the spool; None when the window holds no frame. */
    method LazyCandidate() returns (candidate: Option<nat>)
      requires Valid() && target < |source.samples|
      ensures candidate == Some(cut(target))
    {
      var n := |source.samples|;
      assert CandidateAt(cut, mt, source.samples, chunk, query, target);
      RangeNotEmpty(n, chunk, query, target);
      var energyFrames := n / Hop;
      var low := if target > query then Max(1, target - query) else 1;
      var high := Min(n - 1, target + query);
      var lowFrame := low / Hop;
      var highFrame := Min(energyFrames - 1, high / Hop);
      if energyFrames == 0 || lowFrame > highFrame { return None; }
      var bestFrame := QuietestInWindow(lowFrame, highFrame);
      candidate := Some(bestFrame * Hop);
    }

    /** The energy of one frame of the window that was read. */
    method WindowEnergy(audio: seq<T>, ghost lowFrame: nat, ghost frameCount: nat, frame: nat) returns (energy: real)
      requires frame < frameCount && (lowFrame + frameCount) * Hop <= |source.samples|
      requires audio == source.samples[lowFrame * Hop..lowFrame * Hop + frameCount * Hop]
      ensures (lowFrame + frame + 1) * Hop <= |source.samples| && energy == Energy(mt, source.samples, lowFrame + frame)
    {
      WindowFrame(source.samples, lowFrame, frameCount, frame);
      energy := FrameEnergy(mt, audio[frame * Hop..(frame + 1) * Hop]);
    }

    method QuietestInWindow(lowFrame: nat, highFrame: nat) returns (bestFrame: nat)
      requires lowFrame <= highFrame && (highFrame + 1) * Hop <= |source.samples|
      ensures bestFrame == Quietest(mt, source.samples, lowFrame, highFrame)
    {
      var frameCount := highFrame - lowFrame + 1;
      var audio := source.Read(lowFrame * Hop, frameCount * Hop);
      bestFrame := lowFrame;
      var bestEnergy := MaxFloat;
      for frame := 0 to frameCount
        invariant (bestFrame, bestEnergy) == Scan(mt, source.samples, lowFrame, lowFrame + frame)
      {
        var energy := WindowEnergy(audio.value, lowFrame, frameCount, frame);
        if energy < bestEnergy {
          bestEnergy := energy;
          bestFrame := lowFrame + frame;
        }
      }
    }
  }

  lemma HeadTail(cuts: seq<nat>, n: nat)
    requires |cuts| > 0
    ensures (cuts + [n])[0] == cuts[0] && (cuts + [n])[1..] == cuts[1..] + [n]
  {
  }

  lemma SubSlice<T>(x: seq<T>, a: nat, b: nat, c: nat, d: nat)
    requires a <= b <= |x| && c <= d <= b - a
    ensures x[a..b][c..d] == x[a + c..a + d]
  {
    forall i | 0 <= i < d - c ensures x[a..b][c..d][i] == x[a + c..a + d][i] {}
  }

  lemma WindowFrame<T>(x: seq<T>, low: nat, count: nat, frame: nat)
    requires frame < count && (low + count) * Hop <= |x|
    ensures x[low * Hop..low * Hop + count * Hop][frame * Hop..(frame + 1) * Hop]
         == x[(low + frame) * Hop..(low + frame + 1) * Hop]
  {
    SubSlice(x, low * Hop, low * Hop + count * Hop, frame * Hop, (frame + 1) * Hop);
  }
}
