/** Pitch post-processing: gaps filled by straight lines, a median filter and a pitch shift; once on whole
    arrays, once streamed through spools in blocks with a halo. Pitch values are real numbers. */
module F0Post {
  import opened Spools

  // ---------------------------------------------------------------- what gap filling means

  /** The last voiced frame up to i, -1 if there is none. */
  function Left(raw: seq<real>, i: int): int
    requires -1 <= i < |raw|
    decreases i + 1
  {
    if i < 0 then -1 else if raw[i] > 0.0 then i else Left(raw, i - 1)
  }

  /** The first voiced frame from i on, the length if there is none. */
  function Right(raw: seq<real>, i: nat): nat
    requires i <= |raw|
    decreases |raw| - i
  {
    if i == |raw| then i else if raw[i] > 0.0 then i else Right(raw, i + 1)
  }

  /** The straight line from (a, fa) to (b, fb) at k. */
  function Line(fa: real, fb: real, a: int, b: int, k: int): real
    requires a < b
  {
    fa + (fb - fa) * ((k - a) as real / (b - a) as real)
  }

  function FilledAt(raw: seq<real>, i: nat): real
    requires i < |raw|
  {
    LeftIs(raw, i);
    RightIs(raw, i);
    var a, b := Left(raw, i), Right(raw, i);
    if a < 0 && b == |raw| then raw[i]
    else if a < 0 then raw[b]
    else if b == |raw| then raw[a]
    else if a == b then raw[i]
    else Line(raw[a], raw[b], a, b, i)
  }

  /** Every frame without pitch takes its value from the voiced frames around it; a clip without any is left alone. */
  function Filled(raw: seq<real>): (r: seq<real>)
    ensures |r| == |raw|
  {
    seq(|raw|, i requires 0 <= i < |raw| => FilledAt(raw, i))
  }

  lemma {:induction false} LeftIs(raw: seq<real>, i: int)
    requires -1 <= i < |raw|
    ensures -1 <= Left(raw, i) <= i
    ensures Left(raw, i) >= 0 ==> raw[Left(raw, i)] > 0.0
    ensures forall k :: Left(raw, i) < k <= i ==> raw[k] <= 0.0
    decreases i + 1
  {
    if i >= 0 && raw[i] <= 0.0 { LeftIs(raw, i - 1); }
  }

  lemma {:induction false} RightIs(raw: seq<real>, i: nat)
    requires i <= |raw|
    ensures i <= Right(raw, i) <= |raw|
    ensures Right(raw, i) < |raw| ==> raw[Right(raw, i)] > 0.0
    ensures forall k :: i <= k < Right(raw, i) ==> raw[k] <= 0.0
    decreases |raw| - i
  {
    if i < |raw| && raw[i] <= 0.0 { RightIs(raw, i + 1); }
  }

  predicate Silent(raw: seq<real>, from: int, to: int)
    requires -1 <= from && to <= |raw|
  {
    forall k :: from < k < to ==> raw[k] <= 0.0
  }

  lemma {:induction false} LeftAt(raw: seq<real>, a: nat, k: nat)
    requires a <= k < |raw| && raw[a] > 0.0 && Silent(raw, a, k + 1)
    ensures Left(raw, k) == a
    decreases k
  {
    if k > a { LeftAt(raw, a, k - 1); }
  }

  lemma {:induction false} RightAt(raw: seq<real>, k: nat, b: nat)
    requires k <= b < |raw| && raw[b] > 0.0 && Silent(raw, k - 1, b)
    ensures Right(raw, k) == b
    decreases b - k
  {
    if k < b { RightAt(raw, k + 1, b); }
  }

  lemma {:induction false} LeftNone(raw: seq<real>, k: nat)
    requires k < |raw| && Silent(raw, -1, k + 1)
    ensures Left(raw, k) == -1
    decreases k
  {
    if k > 0 { LeftNone(raw, k - 1); }
  }

  lemma {:induction false} RightNone(raw: seq<real>, k: nat)
    requires k <= |raw| && Silent(raw, k - 1, |raw|)
    ensures Right(raw, k) == |raw|
    decreases |raw| - k
  {
    if k < |raw| { RightNone(raw, k + 1); }
  }

  /** Between two neighbouring voiced frames lies their straight line. */
  lemma FilledBetween(raw: seq<real>, a: nat, b: nat, k: nat)
    requires a < k < b < |raw| && raw[a] > 0.0 && raw[b] > 0.0 && Silent(raw, a, b)
    ensures FilledAt(raw, k) == Line(raw[a], raw[b], a, b, k)
    ensures (Filled(raw)[k] - raw[a]) * (b - a) as real == (raw[b] - raw[a]) * (k - a) as real
  {
    LeftAt(raw, a, k);
    RightAt(raw, k, b);
    Proportion(raw[b] - raw[a], (k - a) as real, (b - a) as real);
  }

  lemma Proportion(rise: real, x: real, width: real)
    requires width > 0.0
    ensures rise * (x / width) * width == rise * x
  {
    assert x / width * width == x;
  }

  lemma FilledVoiced(raw: seq<real>, k: nat)
    requires k < |raw| && raw[k] > 0.0
    ensures FilledAt(raw, k) == raw[k]
  {
  }

  /** Before the first voiced frame its value is repeated. */
  lemma FilledHead(raw: seq<real>, a: nat, k: nat)
    requires k < a < |raw| && raw[a] > 0.0 && Silent(raw, -1, a)
    ensures FilledAt(raw, k) == raw[a]
  {
    LeftNone(raw, k);
    RightAt(raw, k, a);
  }

  /** Behind the last voiced frame its value is repeated. */
  lemma FilledTail(raw: seq<real>, a: nat, k: nat)
    requires a < k < |raw| && raw[a] > 0.0 && Silent(raw, a, |raw|)
    ensures FilledAt(raw, k) == raw[a]
  {
    LeftAt(raw, a, k);
    RightNone(raw, k);
  }

  lemma FilledNone(raw: seq<real>)
    requires Silent(raw, -1, |raw|)
    ensures Filled(raw) == raw
  {
    forall k: nat | k < |raw| ensures Filled(raw)[k] == raw[k] {
      LeftNone(raw, k);
      RightNone(raw, k);
    }
  }

  // ---------------------------------------------------------------- gap filling on the whole array

  /** The line as the array code groups it. */
  lemma LineGrouped(fa: real, fb: real, a: int, b: int, k: int)
    requires a < b
    ensures fa + (fb - fa) * (k - a) as real / (b - a) as real == Line(fa, fb, a, b, k)
  {
    Regroup(fb - fa, (k - a) as real, (b - a) as real);
  }

  lemma Regroup(x: real, y: real, d: real)
    requires d > 0.0
    ensures x * y / d == x * (y / d)
  {
    var q := y / d;
    assert q * d == y;
    assert x * y == x * q * d by { Assoc(x, q, d); }
    Cancel(x * q, d);
  }

  lemma Assoc(x: real, q: real, d: real)
    ensures x * (q * d) == x * q * d
  {
  }

  lemma Cancel(z: real, d: real)
    requires d > 0.0
    ensures z * d / d == z
  {
  }

  /** The first and last voiced frames, -1 when there are none. */
  method VoicedRange(f0: seq<real>) returns (first: int, last: int)
    ensures first < 0 ==> last < 0 && Silent(f0, -1, |f0|)
    ensures first >= 0 ==>
      && first <= last < |f0| && f0[first] > 0.0 && f0[last] > 0.0
      && Silent(f0, -1, first) && Silent(f0, last, |f0|)
  {
    first, last := -1, -1;
    var i := 0;
    while i < |f0|
      invariant 0 <= i <= |f0|
      invariant first < 0 ==> last < 0 && Silent(f0, -1, i)
      invariant first >= 0 ==>
        && first <= last < i && f0[first] > 0.0 && f0[last] > 0.0
        && Silent(f0, -1, first) && Silent(f0, last, i)
    {
      if f0[i] > 0.0 {
        if first < 0 { first := i; }
        last := i;
      }
      i := i + 1;
    }
  }

  /** `interp_unvoiced_f0`: in place on the array. */
  method InterpUnvoiced(f0: array<real>)
    modifies f0
    ensures f0[..] == Filled(old(f0[..]))
  {
    ghost var was := f0[..];
    var n := f0.Length;
    var first, last := VoicedRange(f0[..]);
    if first < 0 {
      FilledNone(was);
      return;
    }
    FillHead(f0, first, was);
    FillTail(f0, last, first, was);
    var i := first;
    while i <= last
      invariant first <= i <= last + 1 <= |was| && (i > first ==> was[i - 1] > 0.0 || (i <= last && was[i] > 0.0))
      invariant Filling(f0[..], was, i, last + 1)
    {
      if f0[i] > 0.0 {
        FilledKept(f0[..], was, i, last + 1);
        i := i + 1;
        continue;
      }
      assert f0[..][i] == was[i];
      i := FillGap(f0, i, last, was);
    }
    FilledAll(f0[..], was, i);
  }

  /** Filled before i and from j on, untouched between. */
  predicate Filling(f: seq<real>, was: seq<real>, i: nat, j: nat) {
    FilledUpTo(f, was, i) && RestAsWas(f, was, i, j) && FilledFrom(f, was, j)
  }

  lemma FilledKept(f: seq<real>, was: seq<real>, i: nat, j: nat)
    requires i < j <= |was| && Filling(f, was, i, j) && f[i] > 0.0
    ensures was[i] > 0.0 && Filling(f, was, i + 1, j)
  {
    FilledVoiced(was, i);
  }

  predicate FilledUpTo(f: seq<real>, was: seq<real>, i: nat) {
    |f| == |was| && i <= |was| && forall k: nat :: k < i ==> f[k] == FilledAt(was, k)
  }

  predicate FilledFrom(f: seq<real>, was: seq<real>, i: nat) {
    |f| == |was| && i <= |was| && forall k: nat :: i <= k < |was| ==> f[k] == FilledAt(was, k)
  }

  predicate RestAsWas(f: seq<real>, was: seq<real>, i: nat, j: nat) {
    |f| == |was| && j <= |was| && forall k: nat :: i <= k < j ==> f[k] == was[k]
  }

  lemma FilledAll(f: seq<real>, was: seq<real>, i: nat)
    requires FilledUpTo(f, was, i) && FilledFrom(f, was, i)
    ensures f == Filled(was)
  {
    forall k: nat | k < |f| ensures f[k] == Filled(was)[k] {}
  }

  method FillHead(f0: array<real>, first: nat, ghost was: seq<real>)
    requires f0[..] == was && first < |was| && was[first] > 0.0 && Silent(was, -1, first)
    modifies f0
    ensures FilledUpTo(f0[..], was, first) && RestAsWas(f0[..], was, first, |was|)
  {
    var i := 0;
    while i < first
      invariant 0 <= i <= first && FilledUpTo(f0[..], was, i) && RestAsWas(f0[..], was, i, |was|)
    {
      FilledHead(was, first, i);
      f0[i] := f0[first];
      i := i + 1;
    }
  }

  method FillTail(f0: array<real>, last: nat, first: nat, ghost was: seq<real>)
    requires FilledUpTo(f0[..], was, first) && RestAsWas(f0[..], was, first, |was|)
    requires first <= last < |was| && was[last] > 0.0 && Silent(was, last, |was|)
    modifies f0
    ensures Filling(f0[..], was, first, last + 1)
  {
    var i := last + 1;
    while i < f0.Length
      invariant last + 1 <= i <= f0.Length == |was| && FilledUpTo(f0[..], was, first)
        && RestAsWas(f0[..], was, first, last + 1)
      invariant forall k: nat :: last + 1 <= k < i ==> f0[k] == FilledAt(was, k)
    {
      FilledTail(was, last, i);
      f0[i] := f0[last];
      i := i + 1;
    }
  }

  /** One gap, from its first silent frame to the next voiced one. */
  method FillGap(f0: array<real>, i: nat, last: nat, ghost was: seq<real>) returns (b: nat)
    requires 0 < i <= last < |was| && was[i - 1] > 0.0 && was[i] <= 0.0 && was[last] > 0.0
    requires Filling(f0[..], was, i, last + 1)
    modifies f0
    ensures i < b <= last && was[b] > 0.0
    ensures Filling(f0[..], was, b, last + 1)
  {
    var a := i - 1;
    b := i;
    while b <= last && f0[b] <= 0.0
      invariant i <= b <= last && Silent(was, a, b)
    {
      b := b + 1;
    }
    FilledVoiced(was, a);
    var fa, fb := f0[a], f0[b];
    var k := a + 1;
    while k < b
      invariant a < k <= b && Filling(f0[..], was, k, last + 1)
    {
      LineGrouped(fa, fb, a, b, k);
      FilledBetween(was, a, b, k);
      f0[k] := fa + (fb - fa) * (k - a) as real / (b - a) as real;
      k := k + 1;
    }
  }

  // ---------------------------------------------------------------- gap filling through spools

  /** The first voiced frame, searched block by block. */
  method FindFirstVoiced(raw: Spool<real>) returns (index: Option<nat>)
    ensures index.None? ==> Silent(raw.samples, -1, |raw.samples|)
    ensures index.Some? ==>
      index.value < |raw.samples| && raw.samples[index.value] > 0.0 && Silent(raw.samples, -1, index.value)
  {
    var offset := 0;
    while offset < |raw.samples|
      invariant 0 <= offset <= |raw.samples| && Silent(raw.samples, -1, offset)
    {
      var count := Min(IoBlock, |raw.samples| - offset);
      var block := raw.Read(offset, count);
      var local := 0;
      while local < count
        invariant 0 <= local <= count && Silent(raw.samples, -1, offset + local)
      {
        assert block.value[local] == raw.samples[offset + local];
        if block.value[local] > 0.0 { return Some(offset + local); }
        local := local + 1;
      }
      offset := offset + count;
    }
    index := None;
  }

  lemma LineEnd(fa: real, fb: real, a: int, b: int)
    requires a < b
    ensures Line(fa, fb, a, b, b) == fb
  {
    var d := (b - a) as real;
    assert d / d == 1.0;
    assert (fb - fa) * 1.0 == fb - fa;
  }

  /** The line from behind `left` up to and including `right`. */
  function LinePart(leftValue: real, rightValue: real, left: int, right: int, first: int, end: int): (r: seq<real>)
    requires left < right && first <= end
    ensures |r| == end - first
  {
    seq(end - first, k requires 0 <= k < end - first => Line(leftValue, rightValue, left, right, first + k))
  }

  method AppendLinearGap(spool: Spool<real>, left: nat, leftValue: real, right: nat, rightValue: real)
    requires left < right
    modifies spool
    ensures spool.samples == old(spool.samples) + LinePart(leftValue, rightValue, left, right, left + 1, right + 1)
  {
    ghost var was := spool.samples;
    var first := left + 1;
    assert was + [] == was;
    while first <= right
      invariant left < first <= right + 1
      invariant spool.samples == was + LinePart(leftValue, rightValue, left, right, left + 1, first)
    {
      var count := Min(IoBlock, right - first + 1);
      var block := LineBlock(left, leftValue, right, rightValue, first, count);
      spool.Append(block);
      ghost var whole := LinePart(leftValue, rightValue, left, right, left + 1, first + count);
      assert LinePart(leftValue, rightValue, left, right, left + 1, first) + block == whole;
      first := first + count;
    }
  }

  lemma PartMore(leftValue: real, rightValue: real, left: int, right: int, first: int, end: int)
    requires left < right && first <= end
    ensures LinePart(leftValue, rightValue, left, right, first, end + 1)
         == LinePart(leftValue, rightValue, left, right, first, end) + [Line(leftValue, rightValue, left, right, end)]
  {
  }

  method LineBlock(left: nat, leftValue: real, right: nat, rightValue: real, first: nat, count: nat)
    returns (block: seq<real>)
    requires left < right
    ensures block == LinePart(leftValue, rightValue, left, right, first, first + count)
  {
    block := [];
    var local := 0;
    while local < count
      invariant 0 <= local <= count && block == LinePart(leftValue, rightValue, left, right, first, first + local)
    {
      var index := first + local;
      var fraction := (index - left) as real / (right - left) as real;
      var value := leftValue + (rightValue - leftValue) * fraction;
      assert value == Line(leftValue, rightValue, left, right, index);
      PartMore(leftValue, rightValue, left, right, first, index);
      block := block + [value];
      local := local + 1;
    }
  }

  /** A finished gap extends the filled prefix up to its right end. */
  lemma GapFilled(raw: seq<real>, left: nat, right: nat)
    requires left < right < |raw| && raw[left] > 0.0 && raw[right] > 0.0 && Silent(raw, left, right)
    ensures Filled(raw)[..left + 1] + LinePart(raw[left], raw[right], left, right, left + 1, right + 1)
      == Filled(raw)[..right + 1]
  {
    var part := LinePart(raw[left], raw[right], left, right, left + 1, right + 1);
    forall k | 0 <= k < right - left ensures part[k] == Filled(raw)[left + 1 + k] {
      if left + 1 + k == right {
        LineEnd(raw[left], raw[right], left, right);
        FilledVoiced(raw, right);
      } else {
        FilledBetween(raw, left, right, left + 1 + k);
      }
    }
  }

  lemma HeadFilled(raw: seq<real>, first: nat)
    requires first < |raw| && raw[first] > 0.0 && Silent(raw, -1, first)
    ensures seq(first + 1, _ => raw[first]) == Filled(raw)[..first + 1]
  {
    forall k: nat | k <= first ensures Filled(raw)[k] == raw[first] {
      if k < first { FilledHead(raw, first, k); } else { FilledVoiced(raw, first); }
    }
  }

  lemma TailFilled(raw: seq<real>, last: nat)
    requires last < |raw| && raw[last] > 0.0 && Silent(raw, last, |raw|)
    ensures Filled(raw)[..last + 1] + seq(|raw| - last - 1, _ => raw[last]) == Filled(raw)
  {
    forall k: nat | last < k < |raw| ensures Filled(raw)[k] == raw[last] { FilledTail(raw, last, k); }
  }

  /** The voiced frames of one block, each closing the gap before it. */
  method FillBlock(raw: Spool<real>, interpolated: Spool<real>, offset: nat, block: seq<real>, left0: nat)
    returns (left: nat)
    requires raw != interpolated && offset + |block| <= |raw.samples| && block == raw.samples[offset..offset + |block|]
    requires left0 < offset && raw.samples[left0] > 0.0 && Silent(raw.samples, left0, offset)
    requires interpolated.samples == Filled(raw.samples)[..left0 + 1]
    modifies interpolated
    ensures left0 <= left < offset + |block| && raw.samples[left] > 0.0 && Silent(raw.samples, left, offset + |block|)
    ensures interpolated.samples == Filled(raw.samples)[..left + 1]
  {
    left := left0;
    var leftValue := raw.samples[left];
    var local := 0;
    while local < |block|
      invariant 0 <= local <= |block| && left0 <= left < offset + local && raw.samples[left] == leftValue > 0.0
      invariant Silent(raw.samples, left, offset + local) && interpolated.samples == Filled(raw.samples)[..left + 1]
    {
      assert block[local] == raw.samples[offset + local];
      if block[local] > 0.0 {
        var right := offset + local;
        AppendLinearGap(interpolated, left, leftValue, right, block[local]);
        GapFilled(raw.samples, left, right);
        left, leftValue := right, block[local];
      }
      local := local + 1;
    }
  }

  method FillGaps(raw: Spool<real>, interpolated: Spool<real>)
    requires raw != interpolated && interpolated.samples == []
    modifies interpolated
    ensures interpolated.samples == Filled(raw.samples)
  {
    var firstVoiced := FindFirstVoiced(raw);
    if firstVoiced.None? {
      CopySpool(raw, interpolated);
      FilledNone(raw.samples);
      assert [] + raw.samples == raw.samples;
      return;
    }
    var left := firstVoiced.value;
    ghost var samples := raw.samples;
    AppendRepeated(interpolated, raw.samples[left], left + 1);
    HeadFilled(samples, left);
    assert [] + seq(left + 1, _ => samples[left]) == seq(left + 1, _ => samples[left]);
    var offset := left + 1;
    while offset < |raw.samples|
      invariant raw.samples == samples && left < offset <= |samples| && samples[left] > 0.0
        && Silent(samples, left, offset)
      invariant interpolated.samples == Filled(samples)[..left + 1]
    {
      var count := Min(IoBlock, |raw.samples| - offset);
      var block := raw.Read(offset, count);
      left := FillBlock(raw, interpolated, offset, block.value, left);
      offset := offset + count;
    }
    AppendRepeated(interpolated, raw.samples[left], |raw.samples| - left - 1);
    TailFilled(samples, left);
  }

  // ---------------------------------------------------------------- median and shift

  function InsertReal(x: real, s: seq<real>): seq<real> {
    if |s| == 0 || x <= s[0] then [x] + s else [s[0]] + InsertReal(x, s[1..])
  }

  /** `std::sort` on floats. */
  function SortReals(s: seq<real>): (r: seq<real>)
    ensures |r| == |s|
  {
    if |s| == 0 then [] else
      InsertLength(s[0], SortReals(s[1..]));
      InsertReal(s[0], SortReals(s[1..]))
  }

  lemma {:induction false} InsertLength(x: real, s: seq<real>)
    ensures |InsertReal(x, s)| == |s| + 1
  {
    if |s| > 0 && x > s[0] { InsertLength(x, s[1..]); }
  }

  predicate Ascending(s: seq<real>) { forall i, j :: 0 <= i < j < |s| ==> s[i] <= s[j] }

  lemma {:induction false} InsertBag(x: real, s: seq<real>)
    ensures multiset(InsertReal(x, s)) == multiset(s) + multiset{x}
  {
    if |s| > 0 {
      assert s == [s[0]] + s[1..];
      if x > s[0] { InsertBag(x, s[1..]); }
    }
  }

  predicate AllAbove(low: real, s: seq<real>) { forall i :: 0 <= i < |s| ==> low <= s[i] }

  lemma {:induction false} InsertAbove(low: real, x: real, s: seq<real>)
    requires low <= x && AllAbove(low, s)
    ensures AllAbove(low, InsertReal(x, s))
  {
    if |s| > 0 && x > s[0] { InsertAbove(low, x, s[1..]); }
  }

  lemma AscendingCons(x: real, s: seq<real>)
    requires AllAbove(x, s) && Ascending(s)
    ensures Ascending([x] + s)
  {
  }

  lemma {:induction false} InsertSorts(x: real, s: seq<real>)
    requires Ascending(s)
    ensures Ascending(InsertReal(x, s))
  {
    if |s| > 0 && x > s[0] {
      InsertSorts(x, s[1..]);
      InsertAbove(s[0], x, s[1..]);
      AscendingCons(s[0], InsertReal(x, s[1..]));
    } else {
      AscendingCons(x, s);
    }
  }

  /** The sort is one. */
  lemma {:induction false} SortSorts(s: seq<real>)
    ensures Ascending(SortReals(s)) && multiset(SortReals(s)) == multiset(s)
  {
    if |s| > 0 {
      SortSorts(s[1..]);
      InsertSorts(s[0], SortReals(s[1..]));
      InsertBag(s[0], SortReals(s[1..]));
      assert s == [s[0]] + s[1..];
    }
  }

  function Clamp(i: int, n: nat): nat
    requires n > 0
  {
    if i < 0 then 0 else if i >= n then n - 1 else i
  }

  /** The values within r frames of i; beyond an end of the clip its last value is repeated. */
  function Window(f0: seq<real>, i: nat, r: nat): (w: seq<real>)
    requires i < |f0|
    ensures |w| == 2 * r + 1
  {
    seq(2 * r + 1, j requires 0 <= j < 2 * r + 1 => f0[Clamp(i + j - r, |f0|)])
  }

  function MedianAt(f0: seq<real>, i: nat, r: nat): real
    requires i < |f0|
  {
    SortReals(Window(f0, i, r))[r]
  }

  /** Half the window for a configured filter size; even sizes count as the next odd one, below 3 there is no filter. */
  function RadiusOf(filter: int): nat { if filter < 3 then 0 else filter / 2 }

  function Smoothed(f0: seq<real>, r: nat): (s: seq<real>)
    ensures |s| == |f0|
  {
    if r == 0 then f0 else seq(|f0|, i requires 0 <= i < |f0| => MedianAt(f0, i, r))
  }

  /** The pitch factor of a shift in semitones, and what counts as finite. */
  datatype Tuning = Tuning(factor: int -> real, finite: real -> bool)

  /** No shift leaves pitch alone. */
  predicate ValidTuning(t: Tuning) { t.factor(0) == 1.0 }

  function ShiftOne(v: real, factor: real): real { if v > 0.0 then v * factor else v }

  function Shifted(f0: seq<real>, factor: real): (s: seq<real>)
    ensures |s| == |f0|
  {
    seq(|f0|, i requires 0 <= i < |f0| => ShiftOne(f0[i], factor))
  }

  /** The pitch sequence the median starts from. */
  function Interpolated(raw: seq<real>, interpolate: bool): seq<real> { if interpolate then Filled(raw) else raw }

  /** What post-processing means. */
  function Processed(raw: seq<real>, interpolate: bool, filter: int, shift: int, t: Tuning): (p: seq<real>)
    ensures |p| == |raw|
  {
    Shifted(Smoothed(Interpolated(raw, interpolate), RadiusOf(filter)), t.factor(shift))
  }

  /** `x | 1`. */
  function OrOne(x: nat): nat { if x % 2 == 1 then x else x + 1 }

  // ---------------------------------------------------------------- what the smoothed value is

  function CountAtMost(s: seq<real>, v: real): nat {
    if |s| == 0 then 0 else (if s[0] <= v then 1 else 0) + CountAtMost(s[1..], v)
  }

  function CountAtLeast(s: seq<real>, v: real): nat {
    if |s| == 0 then 0 else (if s[0] >= v then 1 else 0) + CountAtLeast(s[1..], v)
  }

  /** The 2r + 1 values around frame i; beyond an end of the clip the frame at that end. */
  function Around(f0: seq<real>, i: nat, r: nat): (w: seq<real>)
    requires i < |f0|
    ensures |w| == 2 * r + 1
  {
    seq(2 * r + 1, j requires 0 <= j < 2 * r + 1 => f0[Max(0, Min(i - r + j, |f0| - 1))])
  }

  /** v is one of the values around frame i; more than half of them are at most v, and more than half at least v. */
  ghost predicate IsMedian(f0: seq<real>, i: nat, r: nat, v: real)
    requires i < |f0|
  {
    v in Around(f0, i, r) && CountAtMost(Around(f0, i, r), v) > r && CountAtLeast(Around(f0, i, r), v) > r
  }

  lemma {:induction false} InsertCounts(x: real, s: seq<real>, v: real)
    ensures CountAtMost(InsertReal(x, s), v) == CountAtMost([x] + s, v)
    ensures CountAtLeast(InsertReal(x, s), v) == CountAtLeast([x] + s, v)
  {
    assert ([x] + s)[1..] == s;
    if |s| > 0 && x > s[0] {
      InsertCounts(x, s[1..], v);
      assert ([x] + s[1..])[1..] == s[1..];
      assert ([s[0]] + InsertReal(x, s[1..]))[1..] == InsertReal(x, s[1..]);
    }
  }

  /** Sorting changes no count. */
  lemma {:induction false} SortCounts(s: seq<real>, v: real)
    ensures CountAtMost(SortReals(s), v) == CountAtMost(s, v) && CountAtLeast(SortReals(s), v) == CountAtLeast(s, v)
  {
    if |s| > 0 {
      SortCounts(s[1..], v);
      InsertCounts(s[0], SortReals(s[1..]), v);
      assert ([s[0]] + SortReals(s[1..]))[1..] == SortReals(s[1..]);
    }
  }

  /** In a sorted sequence the first k + 1 values are at most the k-th one, and those from k on at least. */
  lemma {:induction false} AscendingCounts(s: seq<real>, k: nat, v: real)
    requires Ascending(s) && k < |s|
    ensures v >= s[k] ==> CountAtMost(s, v) >= k + 1
    ensures v <= s[k] ==> CountAtLeast(s, v) >= |s| - k
    decreases |s|
  {
    var rest := s[1..];
    assert forall j :: 0 <= j < |rest| ==> rest[j] == s[j + 1];
    if k > 0 {
      AscendingCounts(rest, k - 1, v);
    } else if |rest| > 0 {
      AscendingCounts(rest, 0, v);
    }
  }

  /** What the filters take out of the sorted window is the median. */
  lemma MedianIs(f0: seq<real>, i: nat, r: nat)
    requires i < |f0|
    ensures IsMedian(f0, i, r, MedianAt(f0, i, r))
  {
    var w := Window(f0, i, r);
    var t, v := SortReals(w), MedianAt(f0, i, r);
    forall j | 0 <= j < |w| ensures w[j] == Around(f0, i, r)[j] {
      assert Clamp(i + j - r, |f0|) == Max(0, Min(i - r + j, |f0| - 1));
    }
    assert w == Around(f0, i, r);
    SortSorts(w);
    assert v in multiset(t) && v in multiset(w);
    SortCounts(w, v);
    AscendingCounts(t, r, v);
  }

  lemma {:induction false} CountsApart(s: seq<real>, v: real, w: real)
    requires v < w
    ensures CountAtMost(s, v) + CountAtLeast(s, w) <= |s|
  {
    if |s| > 0 { CountsApart(s[1..], v, w); }
  }

  /** There is only one. */
  lemma MedianUnique(f0: seq<real>, i: nat, r: nat, v: real, w: real)
    requires i < |f0| && IsMedian(f0, i, r, v) && IsMedian(f0, i, r, w)
    ensures v == w
  {
    if v < w { CountsApart(Around(f0, i, r), v, w); }
    if w < v { CountsApart(Around(f0, i, r), w, v); }
  }

  /** The processed pitch of frame i: the median around it, multiplied by the factor when it is voiced. */
  ghost predicate IsProcessed(base: seq<real>, r: nat, factor: real, i: nat, p: real)
    requires i < |base|
  {
    exists v :: IsMedian(base, i, r, v) && p == if v > 0.0 then v * factor else v
  }

  lemma SmoothedIs(f0: seq<real>, r: nat, i: nat)
    requires i < |f0|
    ensures IsMedian(f0, i, r, Smoothed(f0, r)[i])
  {
    if r == 0 { OneMedian(f0, i); } else { MedianIs(f0, i, r); }
  }

  lemma OneMedian(f0: seq<real>, i: nat)
    requires i < |f0|
    ensures IsMedian(f0, i, 0, f0[i])
  {
    assert Max(0, Min(i - 0 + 0, |f0| - 1)) == i;
    assert Around(f0, i, 0)[0] == f0[i];
    assert Around(f0, i, 0) == [f0[i]];
    assert [f0[i]][1..] == [];
  }

  /** Every processed value is the shifted median of the filled pitch, or of the pitch as it is. */
  lemma ProcessedIs(raw: seq<real>, interpolate: bool, filter: int, shift: int, t: Tuning, i: nat)
    requires i < |raw|
    ensures IsProcessed(if interpolate then Filled(raw) else raw, if filter < 3 then 0 else filter / 2, t.factor(shift),
      i, Processed(raw, interpolate, filter, shift, t)[i])
  {
    SmoothedIs(Interpolated(raw, interpolate), RadiusOf(filter), i);
  }

  ghost predicate AllProcessed(base: seq<real>, r: nat, factor: real, p: seq<real>) {
    |p| == |base| && forall i: nat :: i < |base| ==> IsProcessed(base, r, factor, i, p[i])
  }

  lemma AllProcessedIs(raw: seq<real>, interpolate: bool, filter: int, shift: int, t: Tuning)
    ensures AllProcessed(if interpolate then Filled(raw) else raw, if filter < 3 then 0 else filter / 2,
      t.factor(shift), Processed(raw, interpolate, filter, shift, t))
  {
    forall i: nat | i < |raw|
      ensures IsProcessed(Interpolated(raw, interpolate), RadiusOf(filter), t.factor(shift), i,
        Processed(raw, interpolate, filter, shift, t)[i])
    {
      ProcessedIs(raw, interpolate, filter, shift, t, i);
    }
  }

  // ---------------------------------------------------------------- on whole arrays

  method MedianFilter(f0: seq<real>, kernel: nat) returns (out: seq<real>)
    requires kernel % 2 == 1
    ensures out == Smoothed(f0, if kernel < 3 then 0 else (kernel - 1) / 2)
    ensures |out| == |f0| && forall i: nat :: i < |f0| ==> IsMedian(f0, i, kernel / 2, out[i])
  {
    forall i: nat | i < |f0| ensures IsMedian(f0, i, kernel / 2, Smoothed(f0, kernel / 2)[i]) {
      SmoothedIs(f0, kernel / 2, i);
    }
    if kernel < 3 { return f0; }
    var r, n := (kernel - 1) / 2, |f0|;
    out := [];
    var i := 0;
    while i < n
      invariant 0 <= i <= n && out == Smoothed(f0, r)[..i]
    {
      var win := [];
      var j: int := -r;
      while j <= r
        invariant -r <= j <= r + 1 && win == Window(f0, i, r)[..j + r]
      {
        win := win + [f0[Clamp(i + j, n)]];
        j := j + 1;
      }
      assert win == Window(f0, i, r);
      win := SortReals(win);
      out := out + [win[|win| / 2]];
      i := i + 1;
    }
  }

  /** The pitch steps of `convert_long`. */
  method ProcessWhole(raw: seq<real>, interpolate: bool, filter: int, shift: int, t: Tuning) returns (f0: seq<real>)
    requires ValidTuning(t)
    ensures f0 == Processed(raw, interpolate, filter, shift, t)
    ensures AllProcessed(if interpolate then Filled(raw) else raw, if filter < 3 then 0 else filter / 2,
      t.factor(shift), f0)
  {
    AllProcessedIs(raw, interpolate, filter, shift, t);
    f0 := raw;
    if interpolate {
      var a := new real[|raw|](i requires 0 <= i < |raw| => raw[i]);
      assert a[..] == raw;
      InterpUnvoiced(a);
      f0 := a[..];
    }
    ghost var base := f0;
    if filter >= 3 { f0 := MedianFilter(f0, OrOne(filter)); }
    ghost var smooth := f0;
    assert smooth == Smoothed(base, RadiusOf(filter));
    if shift != 0 {
      f0 := ShiftAll(f0, t.factor(shift));
    } else {
      UnitShift(smooth);
    }
  }

  lemma UnitShift(f0: seq<real>)
    ensures Shifted(f0, 1.0) == f0
  {
  }

  method ShiftAll(f0: seq<real>, factor: real) returns (out: seq<real>)
    ensures out == Shifted(f0, factor)
  {
    out := [];
    for i := 0 to |f0|
      invariant out == Shifted(f0, factor)[..i]
    {
      var value := if f0[i] > 0.0 then f0[i] * factor else f0[i];
      assert Shifted(f0, factor)[..i + 1] == Shifted(f0, factor)[..i] + [ShiftOne(f0[i], factor)];
      out := out + [value];
    }
  }

  // ---------------------------------------------------------------- through spools

  predicate AllFinite(t: Tuning, s: seq<real>) { forall i :: 0 <= i < |s| ==> t.finite(s[i]) }

  /** The median at one frame, read from a halo that reaches at least r frames to both sides or to the clip's end. */
  method HaloMedian(ghost f0: seq<real>, halo: seq<real>, haloStart: nat, total: nat, global: nat, r: nat)
    returns (value: real)
    requires total == |f0| && global < total && haloStart + |halo| <= total && halo == f0[haloStart..haloStart + |halo|]
    requires haloStart <= Clamp(global - r, total) && Clamp(global + r, total) < haloStart + |halo|
    ensures value == MedianAt(f0, global, r) && IsMedian(f0, global, r, value)
  {
    MedianIs(f0, global, r);
    var window := [];
    var delta: int := 0 - r;
    while delta <= r
      invariant 0 <= delta + r && delta <= r + 1 && window == Window(f0, global, r)[..delta + r]
    {
      var clamped := if delta < 0 && -delta > global then 0 else Min(total - 1, global + delta);
      assert clamped == Clamp(global + delta, total);
      window := window + [halo[clamped - haloStart]];
      delta := delta + 1;
    }
    assert window == Window(f0, global, r);
    window := SortReals(window);
    value := window[r];
  }

  /** One output value from its halo. */
  method ProcessOne(ghost f0: seq<real>, halo: seq<real>, haloStart: nat, total: nat, global: nat, radius: nat,
                    factor: real)
    returns (value: real)
    requires total == |f0| && global < total && haloStart + |halo| <= total && halo == f0[haloStart..haloStart + |halo|]
    requires haloStart <= Clamp(global - radius, total) && Clamp(global + radius, total) < haloStart + |halo|
    ensures value == Shifted(Smoothed(f0, radius), factor)[global]
  {
    value := SmoothOne(f0, halo, haloStart, total, global, radius);
    OneOf(f0, radius, factor, global);
    if value > 0.0 { value := value * factor; }
  }

  /** The smoothed value of one frame: its own, or the median around it. */
  method SmoothOne(ghost f0: seq<real>, halo: seq<real>, haloStart: nat, total: nat, global: nat, radius: nat)
    returns (value: real)
    requires total == |f0| && global < total && haloStart + |halo| <= total && halo == f0[haloStart..haloStart + |halo|]
    requires haloStart <= Clamp(global - radius, total) && Clamp(global + radius, total) < haloStart + |halo|
    ensures value == if radius > 0 then MedianAt(f0, global, radius) else f0[global]
  {
    value := halo[global - haloStart];
    HaloValue(f0, halo, haloStart, global);
    if radius > 0 { value := HaloMedian(f0, halo, haloStart, total, global, radius); }
  }

  lemma HaloValue(f0: seq<real>, halo: seq<real>, haloStart: nat, global: nat)
    requires haloStart <= global < haloStart + |halo| <= |f0| && halo == f0[haloStart..haloStart + |halo|]
    ensures halo[global - haloStart] == f0[global]
  {
  }

  lemma OneOf(f0: seq<real>, radius: nat, factor: real, k: nat)
    requires k < |f0|
    ensures Shifted(Smoothed(f0, radius), factor)[k]
      == ShiftOne(if radius > 0 then MedianAt(f0, k, radius) else f0[k], factor)
  {
  }

  lemma HaloReaches(total: nat, offset: nat, count: nat, radius: nat, global: nat, start: nat, end: nat)
    requires offset <= global < offset + count <= total && end == Min(total, offset + count + radius)
    requires start == if offset > radius then offset - radius else 0
    ensures start <= Clamp(global - radius, total) && Clamp(global + radius, total) < end
  {
  }

  /** One output block from its halo; None when a value is not finite. */
  method ProcessBlock(f0: Spool<real>, offset: nat, count: nat, radius: nat, factor: real, t: Tuning)
    returns (output: Option<seq<real>>)
    requires 0 < count && offset + count <= |f0.samples|
    ensures var part := Shifted(Smoothed(f0.samples, radius), factor)[offset..offset + count];
      output == if AllFinite(t, part) then Some(part) else None
  {
    var total := |f0.samples|;
    var haloStart := if offset > radius then offset - radius else 0;
    var haloEnd := Min(total, offset + count + radius);
    var halo := f0.Read(haloStart, haloEnd - haloStart);
    ghost var part := Shifted(Smoothed(f0.samples, radius), factor)[offset..offset + count];
    var out := [];
    var local := 0;
    while local < count
      invariant 0 <= local <= count && out == part[..local] && AllFinite(t, out)
    {
      var value := ValueInBlock(f0.samples, halo.value, haloStart, total, offset, count, local, radius, factor, part);
      OneMore(t, part, local, value, out);
      if !t.finite(value) { return None; }
      out := out + [value];
      local := local + 1;
    }
    assert part[..count] == part;
    output := Some(out);
  }

  /** The halo of a block: the block and up to r frames to both sides, within the clip. */
  ghost predicate IsHalo(f0: seq<real>, halo: seq<real>, start: nat, offset: nat, count: nat, r: nat) {
    && start == (if offset > r then offset - r else 0) && start + |halo| == Min(|f0|, offset + count + r)
    && offset + count <= |f0| && start + |halo| <= |f0| && halo == f0[start..start + |halo|]
  }

  /** The value of one frame of a block. */
  method ValueInBlock(ghost f0: seq<real>, halo: seq<real>, haloStart: nat, total: nat, offset: nat, ghost count: nat,
                      local: nat, radius: nat, factor: real, ghost part: seq<real>)
    returns (value: real)
    requires total == |f0| && local < count && IsHalo(f0, halo, haloStart, offset, count, radius)
    requires part == Shifted(Smoothed(f0, radius), factor)[offset..offset + count]
    ensures value == part[local]
  {
    HaloReaches(total, offset, count, radius, offset + local, haloStart, haloStart + |halo|);
    value := ProcessOne(f0, halo, haloStart, total, offset + local, radius, factor);
  }

  lemma OneMore(t: Tuning, part: seq<real>, local: nat, value: real, out: seq<real>)
    requires local < |part| && value == part[local] && out == part[..local] && AllFinite(t, out)
    ensures out + [value] == part[..local + 1]
    ensures if t.finite(value) then AllFinite(t, out + [value]) else !AllFinite(t, part)
  {
  }

  lemma PartFinite(t: Tuning, s: seq<real>, from: nat, to: nat)
    requires from <= to <= |s| && !AllFinite(t, s[from..to])
    ensures !AllFinite(t, s)
  {
    var i :| 0 <= i < to - from && !t.finite(s[from..to][i]);
    assert s[from + i] == s[from..to][i];
  }

  /** `build_processed_f0`: the streamed post-processing succeeds exactly when the kernel is supported and all values
      stay finite, on the intermediate spool too, which refuses others; it then equals the whole-array one. */
  method BuildProcessedF0(raw: Spool<real>, interpolate: bool, filter: int, shift: int, t: Tuning)
    returns (processed: Option<Spool<real>>)
    ensures processed.Some? <==>
      2 * RadiusOf(filter) + 1 <= 31 && t.finite(t.factor(shift))
        && AllFinite(t, Interpolated(raw.samples, interpolate))
      && AllFinite(t, Processed(raw.samples, interpolate, filter, shift, t))
    ensures processed.Some? ==> processed.value.samples == Processed(raw.samples, interpolate, filter, shift, t)
    ensures processed.Some? ==>
      AllProcessed(if interpolate then Filled(raw.samples) else raw.samples, if filter < 3 then 0 else filter / 2,
        t.factor(shift), processed.value.samples)
  {
    var interpolated := new Spool<real>();
    if !interpolate {
      CopySpool(raw, interpolated);
      assert [] + raw.samples == raw.samples;
    } else {
      FillGaps(raw, interpolated);
    }
    if !AllFinite(t, interpolated.samples) { return None; }
    var radius := if filter >= 3 then OrOne(filter) / 2 else 0;
    var kernel := 2 * radius + 1;
    if kernel > 31 { return None; }
    var factor := t.factor(shift);
    if !t.finite(factor) { return None; }
    processed := ProcessSpool(interpolated, radius, factor, t);
    AllProcessedIs(raw.samples, interpolate, filter, shift, t);
  }

  method ProcessSpool(f0: Spool<real>, radius: nat, factor: real, t: Tuning) returns (processed: Option<Spool<real>>)
    ensures processed.Some? <==> AllFinite(t, Shifted(Smoothed(f0.samples, radius), factor))
    ensures processed.Some? ==> processed.value.samples == Shifted(Smoothed(f0.samples, radius), factor)
  {
    ghost var all := Shifted(Smoothed(f0.samples, radius), factor);
    ghost var samples := f0.samples;
    var spool := new Spool<real>();
    var total := |f0.samples|;
    var offset := 0;
    while offset < total
      invariant 0 <= offset <= total == |samples| && f0.samples == samples && fresh(spool)
      invariant spool.samples == all[..offset] && AllFinite(t, spool.samples)
    {
      var count := Min(IoBlock, total - offset);
      var output := ProcessBlock(f0, offset, count, radius, factor, t);
      if output.None? {
        PartFinite(t, all, offset, offset + count);
        return None;
      }
      assert all[..offset] + all[offset..offset + count] == all[..offset + count];
      spool.Append(output.value);
      offset := offset + count;
    }
    assert all[..total] == all;
    processed := Some(spool);
  }
}
