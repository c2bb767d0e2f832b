/** Exactly which chunk and query lengths can make the planner of quiet cuts fail. */
module QuietLimits {
  import opened QuietCores

  /** A quiet sample and a loud one: a frame of the first measures less than a frame of the second. */
  ghost predicate Contrast<T>(mt: Meter<T>, quiet: T, loud: T) {
    FrameOf(mt, quiet) < FrameOf(mt, loud) && FrameOf(mt, quiet) < MaxFloat
  }

  function FrameOf<T>(mt: Meter<T>, v: T): real { mt.narrow(Loudness(mt, seq(Hop, _ => v))) }

  /** A clip of n loud frames with two quiet ones. */
  function Clip<T>(n: nat, a: nat, b: nat, quiet: T, loud: T): (x: seq<T>)
    ensures |x| == n * Hop
  {
    seq(n * Hop, i => if i / Hop == a || i / Hop == b then quiet else loud)
  }

  lemma ClipEnergy<T>(mt: Meter<T>, n: nat, a: nat, b: nat, quiet: T, loud: T, f: nat)
    requires f < n
    ensures (f + 1) * Hop <= n * Hop
    ensures Energy(mt, Clip(n, a, b, quiet, loud), f) == FrameOf(mt, if f == a || f == b then quiet else loud)
  {
    var v := if f == a || f == b then quiet else loud;
    var x := Clip(n, a, b, quiet, loud);
    assert x[f * Hop..(f + 1) * Hop] == seq(Hop, _ => v);
  }

  /** A search that covers exactly one of the quiet frames finds it. */
  lemma FindsQuiet<T>(mt: Meter<T>, n: nat, a: nat, b: nat, quiet: T, loud: T, lo: nat, hi: nat, q: nat)
    requires Contrast(mt, quiet, loud) && lo <= q <= hi < n && (q == a || q == b)
    requires (lo <= a <= hi ==> a == q) && (lo <= b <= hi ==> b == q)
    ensures (hi + 1) * Hop <= n * Hop && Quietest(mt, Clip(n, a, b, quiet, loud), lo, hi) == q
  {
    var x := Clip(n, a, b, quiet, loud);
    ScanKeepsFirstMinimum(mt, x, lo, hi + 1);
    ClipEnergy(mt, n, a, b, quiet, loud, q);
    ClipEnergy(mt, n, a, b, quiet, loud, Quietest(mt, x, lo, hi));
  }

  /** The search around k * chunk starts at the quiet frame a, the one around the next target ends at the quiet frame
      b. */
  predicate Trap(chunk: nat, query: nat, k: nat, a: nat, b: nat) {
    && chunk >= Hop && query >= Hop && k > 0 && k * chunk > query
    && a == (k * chunk - query) / Hop && b == (k * chunk + chunk + query) / Hop
    && b * Hop - a * Hop > chunk + 2 * query
  }

  /** Where the planner cuts the trap around `late`, the target of k: at or before a until there, at a there, and at b
      next. */
  lemma TrapCuts<T>(mt: Meter<T>, x: seq<T>, chunk: nat, query: nat, late: nat, a: nat, b: nat, quiet: T, loud: T,
                    cut: nat -> nat, t: nat)
    requires chunk >= Hop && query >= Hop && late > query && a == (late - query) / Hop
      && b == (late + chunk + query) / Hop
    requires Contrast(mt, quiet, loud) && x == Clip(b + 2, a, b, quiet, loud)
    requires IsSearch(cut, mt, x, chunk, query) && chunk <= t <= late + chunk
    ensures late + chunk < |x|
    ensures t < late ==> cut(t) <= a * Hop
    ensures t == late ==> cut(t) == a * Hop
    ensures t == late + chunk ==> cut(t) == b * Hop
  {
    assert CandidateAt(cut, mt, x, chunk, query, t);
    RangeNotEmpty(|x|, chunk, query, t);
    var lo, hi := LowFrame(t, query), HighFrame(|x|, t, query);
    ScanRange(mt, x, lo, hi + 1);
    if t == late + chunk {
      FindsQuiet(mt, b + 2, a, b, quiet, loud, lo, hi, b);
    } else if t <= late && lo <= a <= hi {
      FindsQuiet(mt, b + 2, a, b, quiet, loud, lo, hi, a);
    }
  }

  /** Some core exceeds the hard bound. */
  ghost predicate OverLong(bounds: seq<nat>, hard: nat) {
    exists i :: 0 <= i < |bounds| - 1 && bounds[i + 1] - bounds[i] > hard
  }

  lemma LaterMisfit(p: nat, rest: seq<nat>, hard: nat)
    requires OverLong(rest, hard)
    ensures OverLong([p] + rest, hard)
  {
    var i :| 0 <= i < |rest| - 1 && rest[i + 1] - rest[i] > hard;
    var all := [p] + rest;
    assert all[i + 1] == rest[i] && all[i + 2] == rest[i + 1];
  }

  /** Whatever the cuts before target k are, the core after it exceeds the hard bound. */
  lemma {:induction false} TrapFails<T>(mt: Meter<T>, x: seq<T>, chunk: nat, query: nat, k: nat, a: nat, b: nat,
                                        quiet: T, loud: T, cut: nat -> nat, j: nat, t: nat, last: nat)
    requires Trap(chunk, query, k, a, b) && Contrast(mt, quiet, loud) && x == Clip(b + 2, a, b, quiet, loud)
    requires IsSearch(cut, mt, x, chunk, query) && 0 < j <= k && t == j * chunk && last <= a * Hop
    ensures OverLong([last] + Cuts(cut, |x|, chunk, t, last) + [|x|], chunk + 2 * query)
    decreases k - j
  {
    NextTarget(j, chunk);
    if j < k { Above(j, k, chunk); }
    TrapCuts(mt, x, chunk, query, k * chunk, a, b, quiet, loud, cut, t);
    if j == k {
      TrapCuts(mt, x, chunk, query, k * chunk, a, b, quiet, loud, cut, t + chunk);
      LastCore(cut, |x|, chunk, query, t, last, a, b);
    } else {
      if cut(t) > last {
        TrapFails(mt, x, chunk, query, k, a, b, quiet, loud, cut, j + 1, t + chunk, cut(t));
        CutTaken(cut, |x|, chunk, chunk + 2 * query, t, last);
      } else {
        TrapFails(mt, x, chunk, query, k, a, b, quiet, loud, cut, j + 1, t + chunk, last);
      }
    }
  }

  lemma Above(j: nat, k: nat, chunk: nat)
    requires j < k && chunk > 0
    ensures j * chunk < k * chunk
  {
    assert k * chunk == j * chunk + (k - j) * chunk;
    assert (k - j) * chunk >= chunk by { NextTarget(k - j, chunk); }
  }

  lemma CutTaken(cut: nat -> nat, n: nat, chunk: nat, hard: nat, t: nat, last: nat)
    requires chunk > 0 && t < n && last < cut(t) < n
    requires OverLong([cut(t)] + Cuts(cut, n, chunk, t + chunk, cut(t)) + [n], hard)
    ensures OverLong([last] + Cuts(cut, n, chunk, t, last) + [n], hard)
  {
    var rest := [cut(t)] + Cuts(cut, n, chunk, t + chunk, cut(t)) + [n];
    LaterMisfit(last, rest, hard);
    assert [last] + Cuts(cut, n, chunk, t, last) + [n] == [last] + rest;
  }

  /** At target k the last cut is a, and the next one is b. */
  lemma LastCore(cut: nat -> nat, n: nat, chunk: nat, query: nat, t: nat, last: nat, a: nat, b: nat)
    requires chunk > 0 && t + chunk < n && last <= a * Hop < n && a * Hop < b * Hop < n
    requires cut(t) == a * Hop && cut(t + chunk) == b * Hop && b * Hop - a * Hop > chunk + 2 * query
    ensures OverLong([last] + Cuts(cut, n, chunk, t, last) + [n], chunk + 2 * query)
  {
    var all := [a * Hop] + Cuts(cut, n, chunk, t + chunk, a * Hop) + [n];
    assert all[0] == a * Hop && all[1] == b * Hop;
    if last < a * Hop { CutTaken(cut, n, chunk, chunk + 2 * query, t, last); }
  }

  /** Lengths that are not steady have a trap, among the first 160 targets when the chunk is longer than the query. */
  lemma UnsteadyTrap(chunk: nat, query: nat) returns (k: nat, a: nat, b: nat)
    requires chunk >= Hop && query >= Hop && !Steady(chunk, query)
    ensures Trap(chunk, query, k, a, b) && (chunk > query ==> k <= Hop)
  {
    var r :| 0 <= r < Hop && !StepFits(r * chunk + (Hop - 1) * query, chunk + 2 * query);
    k := TargetOf(chunk, query, r);
    a, b := MisfitTrap(chunk, query, k, r);
  }

  /** A target of the class r past the query. */
  lemma TargetOf(chunk: nat, query: nat, r: nat) returns (k: nat)
    requires chunk >= Hop && r < Hop
    ensures k > 0 && k % Hop == r && k * chunk > query && (chunk > query ==> k <= Hop)
  {
    if chunk > query {
      k := if r == 0 then Hop else r;
      NextTarget(k, chunk);
    } else {
      k := r + Hop * (query + 1);
      ClassOf(r, query + 1);
      BeyondQuery(k, chunk, query);
    }
  }

  lemma ClassOf(r: nat, m: nat)
    requires r < Hop
    ensures (r + Hop * m) % Hop == r
  {
  }

  lemma MisfitTrap(chunk: nat, query: nat, k: nat, r: nat) returns (a: nat, b: nat)
    requires chunk >= Hop && query >= Hop && k > 0 && k * chunk > query && k % Hop == r
    requires !StepFits(r * chunk + (Hop - 1) * query, chunk + 2 * query)
    ensures Trap(chunk, query, k, a, b)
  {
    TargetResidue(k, chunk, query);
    var t := k * chunk;
    LatticeStep(t - query, chunk + 2 * query);
    a, b := (t - query) / Hop, (t + chunk + query) / Hop;
  }

  lemma BeyondQuery(k: nat, chunk: nat, query: nat)
    requires k > query && chunk > 0
    ensures k * chunk > query
  {
    NextTarget(k, chunk);
    Scaled(k, chunk);
  }

  lemma Scaled(k: nat, chunk: nat)
    requires chunk > 0
    ensures k * chunk >= k
  {
  }

  /** A trap is a clip with a core over the hard bound. */
  lemma TrapIsOverLong<T>(mt: Meter<T>, quiet: T, loud: T, chunk: nat, query: nat, k: nat, a: nat, b: nat)
    returns (x: seq<T>)
    requires Trap(chunk, query, k, a, b) && Contrast(mt, quiet, loud)
    ensures |x| == (b + 2) * Hop && OverLong(Bounds(mt, x, chunk, query), chunk + 2 * query)
  {
    x := Clip(b + 2, a, b, quiet, loud);
    var cut := SomeSearch(mt, x, chunk, query);
    TrapFails(mt, x, chunk, query, k, a, b, quiet, loud, cut, 1, chunk, 0);
  }

  /** For other lengths some clip has a core over the hard bound, on which the planner fails; when the chunk is longer
      than the query the clip is about 160 chunks long at most. */
  lemma UnsteadyFails<T>(mt: Meter<T>, quiet: T, loud: T, chunk: nat, query: nat) returns (x: seq<T>)
    requires chunk >= Hop && query >= Hop && !Steady(chunk, query) && Contrast(mt, quiet, loud)
    ensures |x| >= 2 * chunk && OverLong(Bounds(mt, x, chunk, query), chunk + 2 * query)
    ensures chunk > query ==> |x| <= 161 * chunk + query + 2 * Hop
  {
    var k, a, b := UnsteadyTrap(chunk, query);
    NextTarget(k, chunk);
    if k <= Hop { Times(k, Hop, chunk); }
    x := TrapIsOverLong(mt, quiet, loud, chunk, query, k, a, b);
  }

  lemma Times(a: nat, b: nat, n: nat)
    requires a <= b
    ensures a * n <= b * n
  {
  }

  /** On every clip all cores are ordered, on the lattice and within the hard bound exactly when the lengths are steady;
      otherwise it is the hard bound that some core exceeds. */
  lemma NeverFailsIffSteady<T(!new)>(mt: Meter<T>, quiet: T, loud: T, chunk: nat, query: nat)
    requires chunk >= Hop && query >= Hop && Contrast(mt, quiet, loud)
    ensures (forall x: seq<T> :: |x| > 0 ==> CoresFit(Bounds(mt, x, chunk, query), chunk + 2 * query)) <==>
      Steady(chunk, query)
    ensures (forall x: seq<T> :: |x| > 0 ==> !OverLong(Bounds(mt, x, chunk, query), chunk + 2 * query)) <==>
      Steady(chunk, query)
  {
    if Steady(chunk, query) {
      forall x: seq<T> | |x| > 0
        ensures CoresFit(Bounds(mt, x, chunk, query), chunk + 2 * query)
          && !OverLong(Bounds(mt, x, chunk, query), chunk + 2 * query)
      {
        BoundsFit(mt, x, chunk, query);
      }
    } else {
      var x := UnsteadyFails(mt, quiet, loud, chunk, query);
    }
  }
}
