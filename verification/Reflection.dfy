/** Reflected context at the clip edges: the whole-array padding and the bounded
    reader that serves any window of it straight from the unpadded spool. */
module Reflection {
  import opened Spools

  /** The source position shown at padded position i (edge samples are not repeated). */
  function Mirror(n: nat, pad: nat, i: nat): (j: nat)
    requires n >= 2 && pad < n && i < n + 2 * pad
    ensures j < n
  {
    if i < pad then pad - i else if i < pad + n then i - pad else 2 * n + pad - 2 - i
  }

  function Reflected<T>(x: seq<T>, pad: nat): (r: seq<T>)
    requires |x| >= 2 && pad < |x|
    ensures |r| == |x| + 2 * pad
  {
    seq(|x| + 2 * pad, i requires 0 <= i < |x| + 2 * pad => x[Mirror(|x|, pad, i)])
  }

  /** Reflecting about either edge sample leaves the padded clip unchanged, and the clip sits in the middle. */
  lemma ReflectedSymmetric<T>(x: seq<T>, pad: nat, d: nat)
    requires |x| >= 2 && pad < |x| && d <= pad
    ensures var r := Reflected(x, pad);
      && r[pad - d] == r[pad + d] && r[pad + |x| - 1 + d] == r[pad + |x| - 1 - d]
      && r[pad..pad + |x|] == x
  {
  }

  /** `reflect_pad`: the padding is clamped to n - 1; clips under two samples stay as they are. */
  method ReflectPad<T>(x: seq<T>, pad0: int) returns (out: seq<T>)
    ensures |x| < 2 || pad0 <= 0 ==> out == x
    ensures |x| >= 2 && pad0 > 0 ==> out == Reflected(x, Min(pad0, |x| - 1))
  {
    var n := |x|;
    if n < 2 || pad0 <= 0 { return x; }
    var pad := Min(pad0, n - 1);
    out := [];
    var i := 0;
    while i < pad
      invariant 0 <= i <= pad && out == Reflected(x, pad)[..i]
    {
      out := out + [x[pad - i]];
      i := i + 1;
    }
    out := out + x;
    assert out == Reflected(x, pad)[..pad + n];
    i := 0;
    while i < pad
      invariant 0 <= i <= pad && out == Reflected(x, pad)[..pad + n + i]
    {
      out := out + [x[n - 2 - i]];
      i := i + 1;
    }
  }

  lemma LeftRegion<T>(x: seq<T>, pad: nat, from: nat, to: nat)
    requires |x| >= 2 && pad < |x| && from < to <= pad
    ensures Reflected(x, pad)[from..to] == Reverse(x[pad - (to - 1)..pad - (to - 1) + (to - from)])
  {
  }

  lemma MiddleRegion<T>(x: seq<T>, pad: nat, from: nat, to: nat)
    requires |x| >= 2 && pad < |x| && pad <= from < to <= pad + |x|
    ensures Reflected(x, pad)[from..to] == x[from - pad..from - pad + (to - from)]
  {
  }

  lemma RightRegion<T>(x: seq<T>, pad: nat, from: nat, to: nat)
    requires |x| >= 2 && pad < |x| && pad + |x| <= from < to <= |x| + 2 * pad
    ensures var lowest := |x| - 2 - (from - (pad + |x|) + (to - from) - 1);
      0 <= lowest && lowest + (to - from) <= |x|
      && Reflected(x, pad)[from..to] == Reverse(x[lowest..lowest + (to - from)])
  {
  }

  lemma SliceJoin<T>(x: seq<T>, from: nat, mid: nat, to: nat)
    requires from <= mid <= to <= |x|
    ensures x[from..mid] + x[mid..to] == x[from..to]
  {
  }

  /** `read_reflected`: any window of the padded clip, gathered region by region from the spool. */
  method ReadReflected<T>(source: Spool<T>, pad: nat, first: nat, count: nat) returns (out: Option<seq<T>>)
    ensures out.Some? <==>
      |source.samples| >= 2 && pad < |source.samples| && first + count <= |source.samples| + 2 * pad
    ensures out.Some? ==> out.value == Reflected(source.samples, pad)[first..first + count]
  {
    var n := |source.samples|;
    var end := first + count;
    if n < 2 || pad >= n || end > n + 2 * pad { return None; }
    var output := [];
    var cursor := first;
    while cursor < end
      invariant first <= cursor <= end
      invariant output == Reflected(source.samples, pad)[first..cursor]
    {
      var block, next := ReadRegion(source, pad, cursor, end);
      SliceJoin(Reflected(source.samples, pad), first, cursor, next);
      output := output + block;
      cursor := next;
    }
    out := Some(output);
  }

  /** The loop body: the part of [cursor, end) that lies in the region of the cursor. */
  method ReadRegion<T>(source: Spool<T>, pad: nat, cursor: nat, end: nat) returns (block: seq<T>, next: nat)
    requires |source.samples| >= 2 && pad < |source.samples| && cursor < end <= |source.samples| + 2 * pad
    ensures cursor < next <= end && block == Reflected(source.samples, pad)[cursor..next]
  {
    var n := |source.samples|;
    var middle := pad + n;
    if cursor < pad {
      next := Min(end, pad);
      LeftRegion(source.samples, pad, cursor, next);
      var read := source.Read(pad - (next - 1), next - cursor);
      block := Reverse(read.value);
    } else if cursor < middle {
      next := Min(end, middle);
      MiddleRegion(source.samples, pad, cursor, next);
      var read := source.Read(cursor - pad, next - cursor);
      block := read.value;
    } else {
      next := end;
      RightRegion(source.samples, pad, cursor, next);
      var rightOffset := cursor - middle;
      var read := source.Read(n - 2 - (rightOffset + (next - cursor) - 1), next - cursor);
      block := Reverse(read.value);
    }
  }
}
