/** Pitch review: the corrected pitch curve, the search for short octave jumps and the repairs it suggests. */
module PitchReview {
  import opened Spools
  import opened F0Post

  datatype Mode = Smooth | Shift

  datatype PitchEdit = PitchEdit(mode: Mode, start: real, end: real, semitones: real)

  /** Pitch as the logarithm sees it: 12 log2 of a frequency, the factor of an interval in semitones and the
      geometric blend between two frequencies. */
  datatype Scale = Scale(level: real -> real, factor: real -> real, blend: (real, real, nat, nat) -> real)

  function Raise(s: Scale, v: real, c: real): real { v * s.factor(c) }

  ghost predicate RaiseLaw(s: Scale, v: real, c: real) {
    v > 0.0 ==> Raise(s, v, c) > 0.0 && s.level(Raise(s, v, c)) == s.level(v) + c
  }

  /** Multiplying by the factor of an interval moves the level by that interval. */
  ghost predicate ValidScale(s: Scale) { forall v, c :: RaiseLaw(s, v, c) }

  // ---------------------------------------------------------------- edits

  predicate ValidEdit(e: PitchEdit, previous: real) {
    && 0.0 <= e.start && e.end <= 600.0 && previous < e.start
    && 0.019999999 <= e.end - e.start <= 2.000000001
    && -24.0 <= e.semitones <= 24.0 && (e.mode == Smooth ==> e.semitones == 0.0)
  }

  predicate ValidFrom(edits: seq<PitchEdit>, previous: real) {
    |edits| == 0 || (ValidEdit(edits[0], previous) && ValidFrom(edits[1..], edits[0].end))
  }

  /** At most sixteen edits, in order and apart from each other. */
  predicate ValidEdits(edits: seq<PitchEdit>) { |edits| <= 16 && ValidFrom(edits, -1.0) }

  method CheckEdits(edits: seq<PitchEdit>) returns (ok: bool)
    ensures ok == ValidEdits(edits)
  {
    if |edits| > 16 { return false; }
    var previous := -1.0;
    var i := 0;
    assert edits[0..] == edits;
    while i < |edits|
      invariant 0 <= i <= |edits| && ValidFrom(edits[i..], previous) == ValidFrom(edits, -1.0)
    {
      assert edits[i..][1..] == edits[i + 1..];
      if !ValidEdit(edits[i], previous) { return false; }
      previous := edits[i].end;
      i := i + 1;
    }
    ok := true;
  }

  /** `llround` for values that are not negative. */
  function Round(x: real): int { (x + 0.5).Floor }

  function FrameOf(t: real, pad: real): int { Round((t + pad) * 100.0) }

  /** One edited frame. */
  function EditFrame(s: Scale, values: seq<real>, raw: seq<real>, e: PitchEdit, first: nat, last: nat, i: nat): real
    requires first < last < |values| == |raw| && i < |values|
  {
    if e.mode == Smooth then
      if first < i < last then s.blend(values[first], values[last], i - first, last - first) else values[i]
    else if first <= i < last && raw[i] > 0.0 then Raise(s, values[i], e.semitones) else values[i]
  }

  predicate VoicedBetween(values: seq<real>, raw: seq<real>, first: nat, last: nat)
    requires |values| == |raw|
  {
    forall i: nat :: first <= i < last && i < |values| ==> raw[i] > 0.0 && values[i] > 0.0
  }

  function EditFrames(s: Scale, values: seq<real>, raw: seq<real>, e: PitchEdit, first: nat, last: nat): (r: seq<real>)
    requires first < last < |values| == |raw|
    ensures |r| == |values|
  {
    seq(|values|, i requires 0 <= i < |values| => EditFrame(s, values, raw, e, first, last, i))
  }

  /** One edit on a curve; None when it does not fit the timeline or smooths over silence. */
  function Edited(s: Scale, values: seq<real>, raw: seq<real>, e: PitchEdit, pad: real,
                  duration: real): (r: Option<seq<real>>)
    requires |values| == |raw|
    ensures r.Some? ==> |r.value| == |raw|
  {
    var first, last := FrameOf(e.start, pad), FrameOf(e.end, pad);
    if e.end > duration || first < 0 || last >= |values| || last <= first then None
    else if e.mode == Smooth && !VoicedBetween(values, raw, first, last + 1) then None
    else Some(EditFrames(s, values, raw, e, first, last))
  }

  function AllEdited(s: Scale, values: seq<real>, raw: seq<real>, edits: seq<PitchEdit>, pad: real,
                     duration: real): (r: Option<seq<real>>)
    requires |values| == |raw|
    ensures r.Some? ==> |r.value| == |raw|
    decreases |edits|
  {
    if |edits| == 0 then Some(values) else
    var one := Edited(s, values, raw, edits[0], pad, duration);
    if one.None? then None else AllEdited(s, one.value, raw, edits[1..], pad, duration)
  }

  /** The frame nearest to a time, the later one of two. */
  lemma FrameNearest(t: real, pad: real)
    ensures -0.5 < FrameOf(t, pad) as real - (t + pad) * 100.0 <= 0.5
  {
  }

  /** A shift raises the voiced frames from its start to before its end by its semitones, and keeps the others; it is
      refused only when its times do not fit the clip. */
  lemma ShiftRaises(s: Scale, values: seq<real>, raw: seq<real>, e: PitchEdit, pad: real, duration: real)
    requires ValidScale(s) && |values| == |raw| && e.mode == Shift
    ensures var first, last := FrameOf(e.start, pad), FrameOf(e.end, pad);
      var r := Edited(s, values, raw, e, pad, duration);
      && (r.Some? <==> e.end <= duration && 0 <= first < last < |raw|)
      && (r.Some? ==> forall k: nat :: k < |raw| ==>
        if first <= k < last && raw[k] > 0.0
        then values[k] > 0.0 ==> r.value[k] > 0.0 && s.level(r.value[k]) == s.level(values[k]) + e.semitones
        else r.value[k] == values[k])
  {
    var first, last := FrameOf(e.start, pad), FrameOf(e.end, pad);
    var r := Edited(s, values, raw, e, pad, duration);
    if r.Some? {
      forall k: nat | k < |raw|
        ensures if first <= k < last && raw[k] > 0.0
          then values[k] > 0.0 ==> r.value[k] > 0.0 && s.level(r.value[k]) == s.level(values[k]) + e.semitones
          else r.value[k] == values[k]
      {
        assert RaiseLaw(s, values[k], e.semitones);
      }
    }
  }

  /** The blend lies on the straight line between the two levels. */
  ghost predicate BlendLaw(s: Scale, v: real, w: real, i: nat, n: nat) {
    v > 0.0 && w > 0.0 && 0 < i < n ==>
      s.blend(v, w, i, n) > 0.0 && (s.level(s.blend(v, w, i, n)) - s.level(v)) * n as real
        == (s.level(w) - s.level(v)) * i as real
  }

  /** A smooth edit keeps everything but the frames between its ends, whose levels it puts on a straight line; it is
      refused only when its times do not fit the clip or a frame of it is silent. */
  lemma SmoothIsStraight(s: Scale, values: seq<real>, raw: seq<real>, e: PitchEdit, pad: real, duration: real)
    requires (forall v, w, i, n :: BlendLaw(s, v, w, i, n)) && |values| == |raw| && e.mode == Smooth
    ensures var first, last := FrameOf(e.start, pad), FrameOf(e.end, pad);
      var r := Edited(s, values, raw, e, pad, duration);
      && (r.Some? <==>
        && e.end <= duration && 0 <= first < last < |raw|
        && forall k :: first <= k <= last ==> raw[k] > 0.0 && values[k] > 0.0)
      && (r.Some? ==>
        && (forall k: nat :: k < |raw| && !(first < k < last) ==> r.value[k] == values[k])
        && forall k :: first <= k <= last ==> OnLine(s, r.value, first, last, k))
  {
    var first, last := FrameOf(e.start, pad), FrameOf(e.end, pad);
    var r := Edited(s, values, raw, e, pad, duration);
    if e.end <= duration && 0 <= first < last < |raw| {
      assert VoicedBetween(values, raw, first, last + 1) <==> forall k :: first <= k <= last ==>
        raw[k] > 0.0 && values[k] > 0.0;
    }
    if r.Some? {
      forall k | first <= k <= last ensures OnLine(s, r.value, first, last, k) {
        assert BlendLaw(s, values[first], values[last], k - first, last - first);
      }
    }
  }

  /** The level at k is on the straight line between those at first and last. */
  predicate OnLine(s: Scale, values: seq<real>, first: nat, last: nat, k: nat)
    requires first <= k <= last < |values|
  {
    values[k] > 0.0 && (s.level(values[k]) - s.level(values[first])) * (last - first) as real
      == (s.level(values[last]) - s.level(values[first])) * (k - first) as real
  }

  /** The loop body of both edit loops: the frames of one edit in place. */
  method ApplyEdit(s: Scale, values: seq<real>, raw: seq<real>, e: PitchEdit, pad: real, duration: real)
    returns (r: Option<seq<real>>)
    requires |values| == |raw| && e.start >= 0.0 && pad >= 0.0
    ensures r == Edited(s, values, raw, e, pad, duration)
  {
    if e.end > duration { return None; }
    var first, last := FrameOf(e.start, pad), FrameOf(e.end, pad);
    RoundNonNegative((e.start + pad) * 100.0);
    if last >= |values| || last <= first { return None; }
    var edited := values;
    if e.mode == Smooth {
      var ok := CheckVoiced(values, raw, first, last + 1);
      if !ok { return None; }
      var i := first + 1;
      while i < last
        invariant first < i <= last && |edited| == |values|
        invariant forall k: nat :: k < |values| ==>
          edited[k] == if first < k < i then EditFrame(s, values, raw, e, first, last, k) else values[k]
      {
        edited := edited[i := s.blend(edited[first], edited[last], i - first, last - first)];
        i := i + 1;
      }
    } else {
      var i := first;
      while i < last
        invariant first <= i <= last && |edited| == |values|
        invariant forall k: nat :: k < |values| ==>
          edited[k] == if first <= k < i then EditFrame(s, values, raw, e, first, last, k) else values[k]
      {
        if raw[i] > 0.0 { edited := edited[i := edited[i] * s.factor(e.semitones)]; }
        i := i + 1;
      }
    }
    forall k: nat | k < |values| ensures edited[k] == EditFrames(s, values, raw, e, first, last)[k] {}
    assert edited == EditFrames(s, values, raw, e, first, last);
    assert e.mode == Smooth ==> VoicedBetween(values, raw, first, last + 1);
    r := Some(edited);
    assert Edited(s, values, raw, e, pad, duration).Some?;
  }

  lemma RoundNonNegative(x: real)
    requires x >= 0.0
    ensures Round(x) >= 0
  {
  }

  method CheckVoiced(values: seq<real>, raw: seq<real>, first: nat, end: nat) returns (ok: bool)
    requires |values| == |raw| && first <= end <= |values|
    ensures ok == VoicedBetween(values, raw, first, end)
  {
    var i := first;
    while i < end
      invariant first <= i <= end && VoicedBetween(values, raw, first, i)
    {
      if raw[i] <= 0.0 || values[i] <= 0.0 { return false; }
      i := i + 1;
    }
    ok := true;
  }

  method ApplyEdits(s: Scale, values0: seq<real>, raw: seq<real>, edits: seq<PitchEdit>, pad: real, duration: real)
    returns (r: Option<seq<real>>)
    requires |values0| == |raw| && pad >= 0.0 && ValidFrom(edits, -1.0)
    ensures r == AllEdited(s, values0, raw, edits, pad, duration)
  {
    var values := values0;
    var i := 0;
    ghost var previous := -1.0;
    assert edits[0..] == edits;
    while i < |edits|
      invariant 0 <= i <= |edits| && |values| == |raw| && ValidFrom(edits[i..], previous)
      invariant AllEdited(s, values, raw, edits[i..], pad, duration) == AllEdited(s, values0, raw, edits, pad, duration)
    {
      assert edits[i..][1..] == edits[i + 1..];
      var one := ApplyEdit(s, values, raw, edits[i], pad, duration);
      if one.None? { return None; }
      values := one.value;
      previous := edits[i].end;
      i := i + 1;
    }
    r := Some(values);
  }

  // ---------------------------------------------------------------- the review curve and the production curve

  predicate ValidReview(raw: seq<real>, filter: int, pad: real, duration: real) {
    && 0 < |raw| <= 61100 && 0.0 <= pad <= 5.0 && 0.0 < duration <= 600.0
    && (filter == 0 || (3 <= filter <= 31 && filter % 2 == 1))
    && (forall i :: 0 <= i < |raw| ==> 0.0 <= raw[i] <= 20000.0)
  }

  /** The curve after filter, shift and edits; None when an edit does not fit. */
  function Curve(raw: seq<real>, filter: int, shift: int, t: Tuning, s: Scale, edits: seq<PitchEdit>, pad: real,
                 duration: real): Option<seq<real>> {
    AllEdited(s, Processed(raw, false, filter, shift, t), raw, edits, pad, duration)
  }

  /** What `prepare_pitch_curve` answers: None for anything outside its ranges, and for edits it does not accept. */
  function Prepared(raw: seq<real>, filter: int, shift: int, t: Tuning, s: Scale, edits: seq<PitchEdit>, pad: real,
                    duration: real): Option<seq<real>> {
    if ValidReview(raw, filter, pad, duration) && -48 <= shift <= 48 && ValidEdits(edits)
    then Curve(raw, filter, shift, t, s, edits, pad, duration) else None
  }

  /** `prepare_pitch_curve`: on arrays, without spools and without gap filling. */
  method PreparePitchCurve(raw: seq<real>, filter: int, shift: int, t: Tuning, s: Scale, edits: seq<PitchEdit>,
                           pad: real, duration: real)
    returns (curve: Option<seq<real>>)
    ensures curve == Prepared(raw, filter, shift, t, s, edits, pad, duration)
    ensures curve.Some? ==> exists values ::
      AllProcessed(raw, if filter < 3 then 0 else filter / 2, t.factor(shift), values)
      && AllEdited(s, values, raw, edits, pad, duration) == curve
  {
    AllProcessedIs(raw, false, filter, shift, t);
    if !ValidReview(raw, filter, pad, duration) { return None; }
    var ok := CheckEdits(edits);
    if shift < -48 || shift > 48 || !ok { return None; }
    var radius := if filter >= 3 then OrOne(filter) / 2 else 0;
    var values := FilterAndShift(raw, radius, t.factor(shift));
    curve := ApplyEdits(s, values, raw, edits, pad, duration);
  }

  method FilterAndShift(raw: seq<real>, radius: nat, factor: real) returns (values: seq<real>)
    ensures values == Shifted(Smoothed(raw, radius), factor)
  {
    values := [];
    ghost var all := Shifted(Smoothed(raw, radius), factor);
    var i := 0;
    while i < |raw|
      invariant 0 <= i <= |raw| && values == all[..i]
    {
      var value := raw[i];
      if radius > 0 { value := WindowMedian(raw, i, radius); }
      value := if value > 0.0 then value * factor else value;
      assert value == all[i];
      values := values + [value];
      i := i + 1;
    }
  }

  method WindowMedian(raw: seq<real>, i: nat, radius: nat) returns (value: real)
    requires i < |raw|
    ensures value == MedianAt(raw, i, radius) && IsMedian(raw, i, radius, value)
  {
    MedianIs(raw, i, radius);
    var window := [];
    var d: int := 0 - radius;
    while d <= radius
      invariant 0 <= d + radius && d <= radius + 1 && window == Window(raw, i, radius)[..d + radius]
    {
      window := window + [raw[Clamp(i + d, |raw|)]];
      d := d + 1;
    }
    assert window == Window(raw, i, radius);
    window := SortReals(window);
    value := window[radius];
  }

  /** `process_f0` of the bounded pipeline: the streamed post-processing, then the same edits. */
  method ProcessF0(raw: Spool<real>, interpolate: bool, filter: int, shift: int, t: Tuning, s: Scale,
                   edits: seq<PitchEdit>, pad: real, duration: real) returns (curve: Option<seq<real>>)
    ensures curve.Some? ==>
      curve == AllEdited(s, Processed(raw.samples, interpolate, filter, shift, t), raw.samples, edits, pad, duration)
    ensures curve.Some? && !interpolate ==> curve == Curve(raw.samples, filter, shift, t, s, edits, pad, duration)
    ensures !interpolate && ValidReview(raw.samples, filter, pad, duration) && ValidEdits(edits)
      && FiniteRun(raw.samples, filter, shift, t, s, edits, pad, duration)
      ==> curve == Curve(raw.samples, filter, shift, t, s, edits, pad, duration)
  {
    ghost var samples := raw.samples;
    var ok := CheckEdits(edits);
    if !ok { return None; }
    var processed := BuildProcessedF0(raw, interpolate, filter, shift, t);
    if processed.None? { return None; }
    if |edits| == 0 { return Some(processed.value.samples); }
    if duration <= 0.0 || duration > 600.0 || pad < 0.0 || pad > 5.0 || |raw.samples| > 61100 { return None; }
    assert processed.value.samples == Processed(samples, interpolate, filter, shift, t);
    curve := ApplyEdits(s, processed.value.samples, raw.samples, edits, pad, duration);
    if curve.Some? && !F0Post.AllFinite(t, curve.value) { return None; }
  }

  /** Nothing on the way stops being finite. */
  ghost predicate FiniteRun(raw: seq<real>, filter: int, shift: int, t: Tuning, s: Scale, edits: seq<PitchEdit>,
                            pad: real, duration: real) {
    && t.finite(t.factor(shift)) && F0Post.AllFinite(t, raw)
      && F0Post.AllFinite(t, Processed(raw, false, filter, shift, t))
    && var c := Curve(raw, filter, shift, t, s, edits, pad, duration); c.Some? ==> F0Post.AllFinite(t, c.value)
  }

  // ---------------------------------------------------------------- the search for jumps

  function Abs(x: real): real { if x < 0.0 then -x else x }

  /** The interval from b to a in semitones. */
  function Interval(s: Scale, a: real, b: real): real { s.level(a) - s.level(b) }

  /** Frame j ends an octave jump that began at i: it returns by about an octave close to where the pitch was before. */
  predicate Returns(s: Scale, raw: seq<real>, i: nat, j: nat)
    requires 0 < i < |raw| && 0 < j < |raw|
  {
    var jump, exit := Interval(s, raw[i], raw[i - 1]), Interval(s, raw[j], raw[j - 1]);
    ((jump < 0.0 && exit > 0.0) || (jump > 0.0 && exit < 0.0)) && Abs(Abs(exit) - 12.0) < 2.0
      && Abs(Interval(s, raw[j], raw[i - 1])) <= 3.0
  }

  /** The first return from j on, unless pitch breaks off or the limit is reached. */
  function FindExit(s: Scale, raw: seq<real>, i: nat, j: nat, limit: nat): (r: Option<nat>)
    requires 0 < i < |raw| && i < j && limit <= |raw|
    ensures r.Some? ==> j <= r.value < limit && raw[r.value] > 0.0 && Returns(s, raw, i, r.value)
    decreases limit - j
  {
    if j >= limit || raw[j - 1] <= 0.0 || raw[j] <= 0.0 then None
    else if Returns(s, raw, i, j) then Some(j)
    else FindExit(s, raw, i, j + 1, limit)
  }

  /** The octave the repair would move by. */
  function Correction(s: Scale, raw: seq<real>, i: nat): real
    requires 0 < i < |raw|
  {
    if Interval(s, raw[i], raw[i - 1]) < 0.0 then 12.0 else -12.0
  }

  /** Frame k, once corrected, would fit the pitch at j. */
  predicate Wrong(s: Scale, raw: seq<real>, curve: seq<real>, j: nat, correction: real, k: nat)
    requires |curve| == |raw| && j < |raw| && k < |raw|
  {
    raw[k] > 0.0 && curve[k] > 0.0 && curve[j] > 0.0
    && Abs(s.level(Raise(s, curve[k], correction)) - s.level(curve[j])) < 3.0
  }

  predicate AllWrong(s: Scale, raw: seq<real>, curve: seq<real>, j: nat, correction: real, first: nat, last: nat)
    requires |curve| == |raw| && j < |raw| && last <= |raw|
  {
    forall k: nat :: first <= k < last ==> Wrong(s, raw, curve, j, correction, k)
  }

  /** Moving the start back over wrong frames, at most radius of them. */
  function Back(s: Scale, raw: seq<real>, curve: seq<real>, j: nat, correction: real, i: nat, first: nat, begin: nat,
                radius: nat): (r: nat)
    requires |curve| == |raw| && j < |raw| && begin <= first <= i < |raw|
    ensures begin <= r <= first && i - r <= Max(radius, i - first)
    decreases first
  {
    if first > begin && i - first < radius && Wrong(s, raw, curve, j, correction, first - 1)
    then Back(s, raw, curve, j, correction, i, first - 1, begin, radius) else first
  }

  /** Moving the end on over wrong frames. */
  function Ahead(s: Scale, raw: seq<real>, curve: seq<real>, j: nat, correction: real, last: nat, end: nat,
                 radius: nat): (r: nat)
    requires |curve| == |raw| && j <= last <= end <= |raw| && j < |raw|
    ensures last <= r <= end
    decreases end - last
  {
    if last < end && last - j < radius && Wrong(s, raw, curve, j, correction, last)
    then Ahead(s, raw, curve, j, correction, last + 1, end, radius) else last
  }

  /** A repair: frames [first, last) by `correction` semitones, for a jump that returns at `exit`. */
  datatype Repair = Repair(first: nat, last: nat, correction: real, exit: nat)

  /** What the search around frame i finds: the return frame, if any, and the repair, if it holds. */
  datatype Finding = Finding(exit: Option<nat>, repair: Option<Repair>)

  predicate OctaveJump(s: Scale, raw: seq<real>, i: nat)
    requires 0 < i < |raw|
  {
    Abs(Abs(Interval(s, raw[i], raw[i - 1])) - 12.0) < 2.0
  }

  function Search(s: Scale, raw: seq<real>, curve: seq<real>, i: nat, begin: nat, end: nat, radius: nat): (f: Finding)
    requires |curve| == |raw| && 0 < begin <= i && i + 2 < end <= |raw|
  {
    if !OctaveJump(s, raw, i) then Finding(None, None) else
    var exit := FindExit(s, raw, i, i + 2, Min(end, i + 36));
    if exit.None? then Finding(None, None) else
    var j := exit.value;
    var correction := Correction(s, raw, i);
    var first := Back(s, raw, curve, j, correction, i, i, begin, radius);
    var last := Ahead(s, raw, curve, j, correction, j, end, radius);
    if AllWrong(s, raw, curve, j, correction, first, last) && last - first >= 2
    then Finding(exit, Some(Repair(first, last, correction, j))) else Finding(exit, None)
  }

  /** The frame the pitch returns to is itself never wrong, so a repair ends right before it. */
  lemma ExitNotWrong(s: Scale, raw: seq<real>, curve: seq<real>, j: nat, correction: real)
    requires ValidScale(s) && |curve| == |raw| && j < |raw| && Abs(correction) == 12.0
    ensures !Wrong(s, raw, curve, j, correction, j)
  {
    assert RaiseLaw(s, curve[j], correction);
  }

  /** Every suggested repair lies inside the searched range, ends at the return of the pitch, covers two to fifty
      frames, all of them voiced, and moves by exactly one octave towards the pitch before the jump. */
  lemma RepairSound(s: Scale, raw: seq<real>, curve: seq<real>, i: nat, begin: nat, end: nat, radius: nat)
    requires ValidScale(s) && |curve| == |raw| && 0 < begin <= i && i + 2 < end <= |raw| && radius <= 15
    requires Search(s, raw, curve, i, begin, end, radius).repair.Some?
    ensures var r := Search(s, raw, curve, i, begin, end, radius).repair.value;
      && begin <= r.first <= i && i + 2 <= r.last == r.exit < end && 2 <= r.last - r.first <= 50
      && (r.correction == 12.0 || r.correction == -12.0)
        && AllWrong(s, raw, curve, r.exit, r.correction, r.first, r.last)
      && (forall k: nat :: r.first <= k < r.last ==> raw[k] > 0.0 && curve[k] > 0.0)
      && Abs(Interval(s, raw[r.exit], raw[i - 1])) <= 3.0
  {
    var r := Search(s, raw, curve, i, begin, end, radius).repair.value;
    ExitNotWrong(s, raw, curve, r.exit, r.correction);
    forall k: nat | r.first <= k < r.last ensures raw[k] > 0.0 && curve[k] > 0.0 {
      assert Wrong(s, raw, curve, r.exit, r.correction, k);
    }
  }

  // ---------------------------------------------------------------- repairs settle

  function EditOf(r: Repair, pad: real): PitchEdit {
    PitchEdit(Shift, r.first as real / 100.0 - pad, r.last as real / 100.0 - pad, r.correction)
  }

  lemma RoundFrame(k: nat, pad: real)
    ensures FrameOf(k as real / 100.0 - pad, pad) == k
  {
    assert (k as real / 100.0 - pad + pad) * 100.0 == k as real;
  }

  /** Applying a suggested repair is always possible, and moves exactly its frames. */
  lemma RepairApplies(s: Scale, raw: seq<real>, curve: seq<real>, r: Repair, pad: real, duration: real)
    requires |curve| == |raw| && r.first < r.last < |raw| && r.last as real / 100.0 - pad <= duration
    requires forall k: nat :: r.first <= k < r.last ==> raw[k] > 0.0
    ensures var e := Edited(s, curve, raw, EditOf(r, pad), pad, duration);
      && e.Some?
      && (forall k: nat :: k < |raw| ==>
        e.value[k] == if r.first <= k < r.last then Raise(s, curve[k], r.correction) else curve[k])
  {
    RoundFrame(r.first, pad);
    RoundFrame(r.last, pad);
  }

  lemma RaisedTwice(s: Scale, v: real, c: real, low: real)
    requires ValidScale(s) && v > 0.0 && Abs(c) == 12.0 && Abs(s.level(Raise(s, v, c)) - low) < 3.0
    ensures Raise(s, v, c) > 0.0 && Abs(s.level(Raise(s, Raise(s, v, c), c)) - low) >= 3.0
  {
    assert RaiseLaw(s, v, c);
    assert RaiseLaw(s, Raise(s, v, c), c);
  }

  /** A jump whose first frame already fits gets no repair. */
  lemma RightFrame(s: Scale, raw: seq<real>, curve: seq<real>, i: nat, begin: nat, end: nat, radius: nat, j: nat)
    requires |curve| == |raw| && 0 < begin <= i && i + 2 < end <= |raw|
    requires FindExit(s, raw, i, i + 2, Min(end, i + 36)) == Some(j)
      && !Wrong(s, raw, curve, j, Correction(s, raw, i), i)
    ensures Search(s, raw, curve, i, begin, end, radius).repair.None?
  {
  }

  /** Once its repair is applied, the same jump never gets a suggestion again. */
  lemma RepairSettles(s: Scale, raw: seq<real>, curve: seq<real>, i: nat, begin: nat, end: nat, radius: nat, pad: real,
                      duration: real)
    requires ValidScale(s) && |curve| == |raw| && 0 < begin <= i && i + 2 < end <= |raw| && radius <= 15
    requires Search(s, raw, curve, i, begin, end, radius).repair.Some?
    requires Search(s, raw, curve, i, begin, end, radius).repair.value.last as real / 100.0 - pad <= duration
    ensures var r := Search(s, raw, curve, i, begin, end, radius).repair.value;
      var fixed := Edited(s, curve, raw, EditOf(r, pad), pad, duration);
      fixed.Some? && Search(s, raw, fixed.value, i, begin, end, radius).repair.None?
  {
    var r := Search(s, raw, curve, i, begin, end, radius).repair.value;
    RepairSound(s, raw, curve, i, begin, end, radius);
    RepairApplies(s, raw, curve, r, pad, duration);
    var fixed := Edited(s, curve, raw, EditOf(r, pad), pad, duration).value;
    assert Wrong(s, raw, curve, r.exit, r.correction, i);
    RaisedTwice(s, curve[i], r.correction, s.level(curve[r.exit]));
    assert fixed[i] == Raise(s, curve[i], r.correction) && fixed[r.exit] == curve[r.exit];
    assert !Wrong(s, raw, fixed, r.exit, r.correction, i);
    RightFrame(s, raw, fixed, i, begin, end, radius, r.exit);
  }

  // ---------------------------------------------------------------- the list of issues

  datatype Reason = DroppedAnOctave | RoseAnOctave | FastChange

  datatype Issue = Issue(start: real, end: real, reason: Reason, suggestion: Option<PitchEdit>)

  /** What one scan works on: the raw pitch, the processed curve and the searched frames. */
  datatype Review = Review(raw: seq<real>, curve: seq<real>, begin: nat, end: nat, radius: nat, pad: real,
                           duration: real)

  predicate ReviewOk(v: Review) { |v.curve| == |v.raw| && 0 < v.begin && v.end <= |v.raw| && v.radius <= 15 }

  datatype Outcome = Outcome(issue: Option<Issue>, next: nat)

  predicate StillJumps(s: Scale, curve: seq<real>, i: nat)
    requires 0 < i < |curve|
  {
    curve[i] > 0.0 && curve[i - 1] > 0.0 && Abs(Interval(s, curve[i], curve[i - 1])) >= 7.0
  }

  function RepairIssue(r: Repair, pad: real): Issue {
    var e := EditOf(r, pad);
    Issue(e.start, e.end, if e.semitones > 0.0 then DroppedAnOctave else RoseAnOctave, Some(e))
  }

  function PlainIssue(i: nat, pad: real, duration: real): Issue {
    var start := i as real / 100.0 - pad;
    Issue(start, if duration < start + 0.05 then duration else start + 0.05, FastChange, None)
  }

  /** One frame of the scan: the issue found there, if any, and the frame to go on at. */
  function ScanFrame(s: Scale, v: Review, i: nat): (o: Outcome)
    requires ReviewOk(v) && v.begin <= i && i + 2 < v.end
    ensures o.next > i
  {
    if v.raw[i - 1] <= 0.0 || v.raw[i] <= 0.0 || Abs(Interval(s, v.raw[i], v.raw[i - 1])) < 7.0
      then Outcome(None, i + 1) else
    var f := Search(s, v.raw, v.curve, i, v.begin, v.end, v.radius);
    if f.repair.Some? then Outcome(Some(RepairIssue(f.repair.value, v.pad)), f.repair.value.last + 1) else
    var until := if f.exit.Some? then f.exit.value else i + 1;
    if StillJumps(s, v.curve, i) then Outcome(Some(PlainIssue(i, v.pad, v.duration)), until + 1)
      else Outcome(None, until)
  }

  /** The issues from frame i on, at most `room` of them. */
  function Scan(s: Scale, v: Review, i: nat, room: nat): (issues: seq<Issue>)
    requires ReviewOk(v) && v.begin <= i
    ensures |issues| <= room
    decreases v.end - i
  {
    if i + 2 >= v.end || room == 0 then [] else
    var o := ScanFrame(s, v, i);
    if o.issue.None? then Scan(s, v, o.next, room) else [o.issue.value] + Scan(s, v, o.next, room - 1)
  }

  function Ceil(x: real): int { -((-x).Floor) }

  function ReviewOf(raw: seq<real>, curve: seq<real>, filter: int, pad: real, duration: real): (v: Review)
    requires ValidReview(raw, filter, pad, duration) && |curve| == |raw|
    ensures ReviewOk(v) && (v.begin as real / 100.0 >= pad) && (v.end as real / 100.0 - pad <= duration)
  {
    Review(raw, curve, Max(1, Ceil(pad * 100.0)), Min(|raw|, ((pad + duration) * 100.0).Floor), if filter >= 3
      then filter / 2 else 0, pad, duration)
  }

  /** A suggestion: inside the clip, two to fifty frames, one octave, and a valid edit by itself. */
  predicate SuggestionOk(e: PitchEdit, duration: real) {
    && e.mode == Shift && 0.0 <= e.start && e.end <= duration
    && 0.02 <= e.end - e.start <= 0.5 && (e.semitones == 12.0 || e.semitones == -12.0)
    && ValidEdits([e])
  }

  lemma ScanFrameSound(s: Scale, v: Review, i: nat)
    requires ValidScale(s) && ReviewOk(v) && v.begin <= i && i + 2 < v.end && v.duration <= 600.0
    requires v.begin as real / 100.0 >= v.pad && v.end as real / 100.0 - v.pad <= v.duration
    ensures var o := ScanFrame(s, v, i); o.issue.Some? && o.issue.value.suggestion.Some? ==>
      SuggestionOk(o.issue.value.suggestion.value, v.duration)
  {
    var o := ScanFrame(s, v, i);
    if o.issue.Some? && o.issue.value.suggestion.Some? {
      RepairSound(s, v.raw, v.curve, i, v.begin, v.end, v.radius);
      var e := o.issue.value.suggestion.value;
      assert [e][1..] == [];
    }
  }

  /** Every suggestion of every scan is sound. */
  lemma {:induction false} ScanSound(s: Scale, v: Review, i: nat, room: nat)
    requires ValidScale(s) && ReviewOk(v) && v.begin <= i && v.duration <= 600.0
    requires v.begin as real / 100.0 >= v.pad && v.end as real / 100.0 - v.pad <= v.duration
    ensures forall k :: 0 <= k < |Scan(s, v, i, room)| && Scan(s, v, i, room)[k].suggestion.Some? ==>
      SuggestionOk(Scan(s, v, i, room)[k].suggestion.value, v.duration)
    decreases v.end - i
  {
    if i + 2 < v.end && room > 0 {
      var o := ScanFrame(s, v, i);
      ScanFrameSound(s, v, i);
      ScanSound(s, v, o.next, if o.issue.None? then room else room - 1);
    }
  }

  // ---------------------------------------------------------------- the scan as it is written

  method SearchExit(s: Scale, v: Review, i: nat) returns (exit: Option<nat>)
    requires ReviewOk(v) && v.begin <= i && i + 2 < v.end
    ensures exit == FindExit(s, v.raw, i, i + 2, Min(v.end, i + 36))
  {
    var j, limit := i + 2, Min(v.end, i + 36);
    while j < limit
      invariant i + 2 <= j <= limit <= |v.raw|
      invariant FindExit(s, v.raw, i, j, limit) == FindExit(s, v.raw, i, i + 2, limit)
    {
      if v.raw[j - 1] <= 0.0 || v.raw[j] <= 0.0 { return None; }
      if Returns(s, v.raw, i, j) { return Some(j); }
      j := j + 1;
    }
    exit := None;
  }

  method SearchFirst(s: Scale, v: Review, i: nat, j: nat, correction: real) returns (first: nat)
    requires ReviewOk(v) && v.begin <= i < j < |v.raw|
    ensures first == Back(s, v.raw, v.curve, j, correction, i, i, v.begin, v.radius)
  {
    first := i;
    while first > v.begin && i - first < v.radius && Wrong(s, v.raw, v.curve, j, correction, first - 1)
      invariant v.begin <= first <= i
      invariant Back(s, v.raw, v.curve, j, correction, i, first, v.begin, v.radius)
        == Back(s, v.raw, v.curve, j, correction, i, i, v.begin, v.radius)
    {
      first := first - 1;
    }
  }

  method SearchLast(s: Scale, v: Review, j: nat, correction: real) returns (last: nat)
    requires ReviewOk(v) && j < v.end
    ensures last == Ahead(s, v.raw, v.curve, j, correction, j, v.end, v.radius)
  {
    last := j;
    while last < v.end && last - j < v.radius && Wrong(s, v.raw, v.curve, j, correction, last)
      invariant j <= last <= v.end
      invariant Ahead(s, v.raw, v.curve, j, correction, last, v.end, v.radius)
        == Ahead(s, v.raw, v.curve, j, correction, j, v.end, v.radius)
    {
      last := last + 1;
    }
  }

  method CheckAllWrong(s: Scale, v: Review, j: nat, correction: real, first: nat, last: nat) returns (valid: bool)
    requires ReviewOk(v) && j < |v.raw| && first <= last <= |v.raw|
    ensures valid == AllWrong(s, v.raw, v.curve, j, correction, first, last)
  {
    var k := first;
    while k < last
      invariant first <= k <= last && AllWrong(s, v.raw, v.curve, j, correction, first, k)
    {
      if !Wrong(s, v.raw, v.curve, j, correction, k) { return false; }
      k := k + 1;
    }
    valid := true;
  }

  method SearchRepair(s: Scale, v: Review, i: nat) returns (f: Finding)
    requires ReviewOk(v) && v.begin <= i && i + 2 < v.end
    ensures f == Search(s, v.raw, v.curve, i, v.begin, v.end, v.radius)
  {
    if !OctaveJump(s, v.raw, i) { return Finding(None, None); }
    var exit := SearchExit(s, v, i);
    if exit.None? { return Finding(None, None); }
    var j := exit.value;
    var correction := Correction(s, v.raw, i);
    var first := SearchFirst(s, v, i, j, correction);
    var last := SearchLast(s, v, j, correction);
    var valid := CheckAllWrong(s, v, j, correction, first, last);
    f := Finding(exit, if valid && last - first >= 2 then Some(Repair(first, last, correction, j)) else None);
  }

  /** The body of the scan loop. */
  method ReviewFrame(s: Scale, v: Review, i: nat) returns (issue: Option<Issue>, next: nat)
    requires ReviewOk(v) && v.begin <= i && i + 2 < v.end
    ensures Outcome(issue, next) == ScanFrame(s, v, i)
  {
    if v.raw[i - 1] <= 0.0 || v.raw[i] <= 0.0 { return None, i + 1; }
    var jump := Interval(s, v.raw[i], v.raw[i - 1]);
    if Abs(jump) < 7.0 { return None, i + 1; }
    var f := SearchRepair(s, v, i);
    var until := i + 1;
    if f.repair.Some? { until := f.repair.value.last; } else if f.exit.Some? { until := f.exit.value; }
    if f.repair.None? && !StillJumps(s, v.curve, i) { return None, until; }
    issue := Some(if f.repair.Some? then RepairIssue(f.repair.value, v.pad) else PlainIssue(i, v.pad, v.duration));
    next := until + 1;
  }

  lemma IssueMoved(found: seq<Issue>, issue: Issue, rest: seq<Issue>)
    ensures found + ([issue] + rest) == found + [issue] + rest
  {
  }

  /** `find_pitch_issues`: None when an argument is invalid. */
  method FindPitchIssues(s: Scale, raw: seq<real>, curve: seq<real>, filter: int, pad: real, duration: real)
    returns (issues: Option<seq<Issue>>)
    ensures issues.Some? <==>
      ValidReview(raw, filter, pad, duration) && |curve| == |raw| && forall i :: 0 <= i < |curve| ==> curve[i] >= 0.0
    ensures issues.Some? ==> issues.value == Scan(s, ReviewOf(raw, curve, filter, pad, duration),
      ReviewOf(raw, curve, filter, pad, duration).begin, 64)
    ensures issues.Some? && ValidScale(s) ==>
      forall k :: 0 <= k < |issues.value| && issues.value[k].suggestion.Some? ==>
      SuggestionOk(issues.value[k].suggestion.value, duration)
  {
    if !ValidReview(raw, filter, pad, duration) || |curve| != |raw| { return None; }
    if exists i :: 0 <= i < |curve| && curve[i] < 0.0 { return None; }
    var v := ReviewOf(raw, curve, filter, pad, duration);
    var found := [];
    var i := v.begin;
    ghost var goal := Scan(s, v, i, 64);
    while i + 2 < v.end && |found| < 64
      invariant v.begin <= i && |found| <= 64 && found + Scan(s, v, i, 64 - |found|) == goal
      decreases v.end - i
    {
      var issue, next := ReviewFrame(s, v, i);
      if issue.Some? {
        IssueMoved(found, issue.value, Scan(s, v, next, 64 - |found| - 1));
        found := found + [issue.value];
      }
      i := next;
    }
    assert found + [] == found;
    issues := Some(found);
    if ValidScale(s) { ScanSound(s, v, v.begin, 64); }
  }
}
