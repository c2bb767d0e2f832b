/** After a suggestion is taken: the recomputed curve, and what the next scan says around the repaired frames. */
module PitchRescan {
  import opened Spools
  import opened F0Post
  import opened PitchReview

  // ---------------------------------------------------------------- the edit among the others

  lemma {:induction false} EditsInTurn(s: Scale, values: seq<real>, raw: seq<real>, a: seq<PitchEdit>,
                                       b: seq<PitchEdit>, pad: real, duration: real)
    requires |values| == |raw|
    ensures AllEdited(s, values, raw, a + b, pad, duration) ==
      (var first := AllEdited(s, values, raw, a, pad, duration);
       if first.None? then None else AllEdited(s, first.value, raw, b, pad, duration))
    decreases |a|
  {
    if |a| == 0 {
      assert a + b == b;
    } else {
      assert (a + b)[1..] == a[1..] + b;
      var one := Edited(s, values, raw, a[0], pad, duration);
      if one.Some? { EditsInTurn(s, one.value, raw, a[1..], b, pad, duration); }
    }
  }

  /** The edit begins at or behind frame `from`. */
  predicate Behind(e: PitchEdit, pad: real, from: nat) { FrameOf(e.start, pad) >= from }

  predicate AllBehind(edits: seq<PitchEdit>, pad: real, from: nat) {
    forall i :: 0 <= i < |edits| ==> Behind(edits[i], pad, from)
  }

  /** A shift that ends at or before the first frame of another edit can be made before or after it. */
  lemma ShiftCommutes(s: Scale, values: seq<real>, raw: seq<real>, e: PitchEdit, f: PitchEdit, pad: real,
                      duration: real)
    requires |values| == |raw| && e.mode == Shift && Edited(s, values, raw, e, pad, duration).Some?
    requires Behind(f, pad, FrameOf(e.end, pad))
    ensures var shifted := Edited(s, values, raw, e, pad, duration).value;
      var other := Edited(s, values, raw, f, pad, duration);
      Edited(s, shifted, raw, f, pad, duration) == if other.None? then None
        else Edited(s, other.value, raw, e, pad, duration)
  {
    var first, last := FrameOf(e.start, pad), FrameOf(e.end, pad);
    var from, to := FrameOf(f.start, pad), FrameOf(f.end, pad);
    if f.end <= duration && to < |values| && from < to {
      var shifted := EditFrames(s, values, raw, e, first, last);
      assert forall k: nat :: from <= k < |values| ==> shifted[k] == values[k];
      assert VoicedBetween(shifted, raw, from, to + 1) <==> VoicedBetween(values, raw, from, to + 1);
      var other := EditFrames(s, values, raw, f, from, to);
      assert forall k: nat :: k < from ==> other[k] == values[k];
      assert EditFrames(s, shifted, raw, f, from, to) == EditFrames(s, other, raw, e, first, last);
    }
  }

  /** Inserting a shift before later edits changes the curve as shifting it at the end does. */
  lemma {:induction false} ShiftInserted(s: Scale, values: seq<real>, raw: seq<real>, e: PitchEdit,
                                         rest: seq<PitchEdit>, pad: real, duration: real)
    requires |values| == |raw| && e.mode == Shift && Edited(s, values, raw, e, pad, duration).Some?
    requires AllBehind(rest, pad, FrameOf(e.end, pad))
    ensures var after := AllEdited(s, values, raw, rest, pad, duration);
      AllEdited(s, values, raw, [e] + rest, pad, duration) == if after.None? then None
        else Edited(s, after.value, raw, e, pad, duration)
    decreases |rest|
  {
    var shifted := Edited(s, values, raw, e, pad, duration).value;
    assert ([e] + rest)[1..] == rest;
    if |rest| > 0 {
      ShiftCommutes(s, values, raw, e, rest[0], pad, duration);
      var other := Edited(s, values, raw, rest[0], pad, duration);
      if other.Some? {
        SameFit(s, values, other.value, raw, e, pad, duration);
        ShiftInserted(s, other.value, raw, e, rest[1..], pad, duration);
        assert ([e] + rest[1..])[1..] == rest[1..];
      }
    }
  }

  /** Whether a shift fits does not depend on the curve. */
  lemma SameFit(s: Scale, a: seq<real>, b: seq<real>, raw: seq<real>, e: PitchEdit, pad: real, duration: real)
    requires |a| == |b| == |raw| && e.mode == Shift
    ensures Edited(s, a, raw, e, pad, duration).Some? <==> Edited(s, b, raw, e, pad, duration).Some?
  {
  }

  /** The recomputed curve with a suggestion put into its place in the list is the old curve with its frames shifted. */
  lemma InsertedCurve(raw: seq<real>, filter: int, shift: int, t: Tuning, s: Scale, before: seq<PitchEdit>,
                      after: seq<PitchEdit>, r: Repair, pad: real, duration: real, curve: seq<real>)
    requires Curve(raw, filter, shift, t, s, before + after, pad, duration) == Some(curve)
    requires r.first < r.last < |raw| && r.last as real / 100.0 - pad <= duration && AllBehind(after, pad, r.last)
    ensures |curve| == |raw|
    ensures Curve(raw, filter, shift, t, s, before + [EditOf(r, pad)] + after, pad, duration)
      == Edited(s, curve, raw, EditOf(r, pad), pad, duration)
  {
    var e, start := EditOf(r, pad), Processed(raw, false, filter, shift, t);
    RoundFrame(r.first, pad);
    RoundFrame(r.last, pad);
    EditsInTurn(s, start, raw, before, after, pad, duration);
    var mid := AllEdited(s, start, raw, before, pad, duration).value;
    SameFit(s, mid, curve, raw, e, pad, duration);
    assert Edited(s, mid, raw, e, pad, duration).Some?;
    ShiftInserted(s, mid, raw, e, after, pad, duration);
    EditsInTurn(s, start, raw, before, [e] + after, pad, duration);
    assert before + [e] + after == before + ([e] + after);
  }

  // ---------------------------------------------------------------- the longer list of edits

  /** Where the last of the edits ends. */
  function EndOf(edits: seq<PitchEdit>, previous: real): real {
    if |edits| == 0 then previous else edits[|edits| - 1].end
  }

  lemma {:induction false} ValidSplit(a: seq<PitchEdit>, b: seq<PitchEdit>, previous: real)
    ensures ValidFrom(a + b, previous) <==> ValidFrom(a, previous) && ValidFrom(b, EndOf(a, previous))
    decreases |a|
  {
    if |a| == 0 {
      assert a + b == b;
    } else {
      assert (a + b)[1..] == a[1..] + b;
      ValidSplit(a[1..], b, a[0].end);
    }
  }

  /** The edit lies strictly between its neighbours, and the list has room for it. */
  predicate FitsBetween(before: seq<PitchEdit>, e: PitchEdit, after: seq<PitchEdit>) {
    |before| + |after| < 16 && EndOf(before, -1.0) < e.start && (|after| > 0 ==> e.end < after[0].start)
  }

  /** A list with one more edit is accepted exactly when the edit fits between its neighbours. */
  lemma InsertedValid(before: seq<PitchEdit>, e: PitchEdit, after: seq<PitchEdit>)
    requires ValidEdits(before + after) && ValidEdits([e])
    ensures ValidEdits(before + [e] + after) <==> FitsBetween(before, e, after)
  {
    var rest := [e] + after;
    assert before + [e] + after == before + rest;
    assert rest[1..] == after && [e][1..] == [];
    ValidSplit(before, after, -1.0);
    ValidSplit(before, rest, -1.0);
  }

  lemma RoundLe(x: real, y: real)
    requires x <= y
    ensures Round(x) <= Round(y)
  {
  }

  /** Accepted edits behind a time lie behind its frame. */
  lemma {:induction false} LaterBehind(edits: seq<PitchEdit>, previous: real, pad: real, from: nat)
    requires ValidFrom(edits, previous) && FrameOf(previous, pad) == from
    ensures AllBehind(edits, pad, from)
    decreases |edits|
  {
    if |edits| > 0 {
      var e := edits[0];
      RoundLe((previous + pad) * 100.0, (e.start + pad) * 100.0);
      RoundLe((previous + pad) * 100.0, (e.end + pad) * 100.0);
      LaterBehind(edits[1..], e.end, pad, FrameOf(e.end, pad));
      forall i | 0 <= i < |edits| ensures Behind(edits[i], pad, from) {
        if i > 0 { assert edits[1..][i - 1] == edits[i] && Behind(edits[1..][i - 1], pad, FrameOf(e.end, pad)); }
      }
    }
  }

  /** The second review: the list with the suggestion put into it is accepted exactly when there is room for one more
      edit and the suggestion lies strictly between its neighbours. Then the curve that is computed anew is the old one
      with the suggested frames shifted, and gets no suggestion for the same jump. */
  lemma ReviewedAgain(raw: seq<real>, filter: int, shift: int, t: Tuning, s: Scale, before: seq<PitchEdit>,
                      after: seq<PitchEdit>, pad: real, duration: real, curve: seq<real>, v: Review, i: nat)
    requires ValidScale(s) && Prepared(raw, filter, shift, t, s, before + after, pad, duration) == Some(curve)
      && |curve| == |raw|
    requires v == ReviewOf(raw, curve, filter, pad, duration) && v.begin <= i && i + 2 < v.end
    requires Search(s, raw, curve, i, v.begin, v.end, v.radius).repair.Some?
    ensures var r := Search(s, raw, curve, i, v.begin, v.end, v.radius).repair.value; var e := EditOf(r, pad);
      var again := Prepared(raw, filter, shift, t, s, before + [e] + after, pad, duration);
      && (again.Some? <==> FitsBetween(before, e, after))
      && (again.Some? ==> again == Edited(s, curve, raw, e, pad, duration))
      && (again.Some? ==> Search(s, raw, again.value, i, v.begin, v.end, v.radius) == Finding(Some(r.exit), None))
  {
    var r := Search(s, raw, curve, i, v.begin, v.end, v.radius).repair.value;
    var e := EditOf(r, pad);
    RepairSound(s, raw, curve, i, v.begin, v.end, v.radius);
    SuggestionValid(v, r);
    InsertedValid(before, e, after);
    if FitsBetween(before, e, after) {
      BehindInserted(before, r, after, pad);
      InsertedCurve(raw, filter, shift, t, s, before, after, r, pad, duration, curve);
      RepairSettles(s, raw, curve, i, v.begin, v.end, v.radius, pad, duration);
    }
  }

  lemma SuggestionValid(v: Review, r: Repair)
    requires ReviewOk(v) && v.begin <= r.first && r.last < v.end && 2 <= r.last - r.first <= 50 && v.duration <= 600.0
    requires r.correction == 12.0 || r.correction == -12.0
    requires v.begin as real / 100.0 >= v.pad && v.end as real / 100.0 - v.pad <= v.duration
    ensures ValidEdits([EditOf(r, v.pad)]) && r.last as real / 100.0 - v.pad <= v.duration
  {
    assert [EditOf(r, v.pad)][1..] == [];
  }

  lemma BehindInserted(before: seq<PitchEdit>, r: Repair, after: seq<PitchEdit>, pad: real)
    requires ValidEdits(before + [EditOf(r, pad)] + after)
    ensures AllBehind(after, pad, r.last)
  {
    var e := EditOf(r, pad);
    var rest := [e] + after;
    assert before + [e] + after == before + rest;
    assert rest[1..] == after;
    ValidSplit(before, rest, -1.0);
    RoundFrame(r.last, pad);
    LaterBehind(after, e.end, pad, r.last);
  }

  // ---------------------------------------------------------------- the next scan

  /** At the repaired jump the next scan suggests nothing. It steps over the return edge only when the curve still jumps
      there; otherwise it goes on at the edge, which the first scan had stepped over. */
  lemma RescanAtJump(s: Scale, v: Review, i: nat, j: nat)
    requires ReviewOk(v) && v.begin <= i && i + 2 < v.end && v.raw[i - 1] > 0.0 && v.raw[i] > 0.0
    requires Search(s, v.raw, v.curve, i, v.begin, v.end, v.radius) == Finding(Some(j), None)
    ensures ScanFrame(s, v, i) ==
      if StillJumps(s, v.curve, i) then Outcome(Some(PlainIssue(i, v.pad, v.duration)), j + 1) else Outcome(None, j)
  {
    assert OctaveJump(s, v.raw, i);
  }

  /** At the edge a suggestion is made exactly when the pitch falls back once more, at some k, and every frame up to
      there would fit the pitch at k if it were moved by an octave the other way. */
  lemma RescanAtEdge(s: Scale, v: Review, i: nat, j: nat)
    requires ReviewOk(v) && v.begin <= i && i + 2 < v.end && j + 2 < v.end
      && FindExit(s, v.raw, i, i + 2, Min(v.end, i + 36)) == Some(j)
    ensures var back := FindExit(s, v.raw, j, j + 2, Min(v.end, j + 36)); var c := Correction(s, v.raw, j);
      var o := ScanFrame(s, v, j);
      && (o.issue.Some? && o.issue.value.suggestion.Some? <==>
        && back.Some?
        && AllWrong(s, v.raw, v.curve, back.value, c, Back(s, v.raw, v.curve, back.value, c, j, j, v.begin, v.radius),
                    Ahead(s, v.raw, v.curve, back.value, c, back.value, v.end, v.radius)))
      && c == -Correction(s, v.raw, i)
  {
    EdgeIsJump(s, v.raw, i, j, Min(v.end, i + 36), i + 2);
  }

  lemma {:induction false} EdgeIsJump(s: Scale, raw: seq<real>, i: nat, j: nat, limit: nat, from: nat)
    requires 0 < i < |raw| && i < from && limit <= |raw| && FindExit(s, raw, i, from, limit) == Some(j)
    ensures j < |raw| && raw[j - 1] > 0.0 && raw[j] > 0.0 && OctaveJump(s, raw, j)
      && Correction(s, raw, j) == -Correction(s, raw, i)
    decreases limit - from
  {
    if !Returns(s, raw, i, from) { EdgeIsJump(s, raw, i, j, limit, from + 1); }
  }

  /** It does happen: of two drops in a row the first one is repaired, and the next scan offers to take what lies
      between them down as well. */
  lemma RescanCanSuggestAgain(s: Scale, low: real, high: real) returns (raw: seq<real>, fixed: seq<real>)
    requires ValidScale(s) && low > 0.0 && high == Raise(s, low, 12.0)
    ensures raw == [high, high, low, low, low, high, high, high, low, low, low, low]
    ensures Search(s, raw, raw, 2, 1, 12, 0).repair == Some(Repair(2, 5, 12.0, 5))
    ensures Edited(s, raw, raw, EditOf(Repair(2, 5, 12.0, 5), 0.0), 0.0, 1.0) == Some(fixed)
    ensures Search(s, raw, fixed, 2, 1, 12, 0) == Finding(Some(5), None)
    ensures Search(s, raw, fixed, 5, 1, 12, 0).repair == Some(Repair(5, 8, -12.0, 8))
  {
    assert RaiseLaw(s, low, 12.0) && RaiseLaw(s, high, -12.0);
    raw := [high, high, low, low, low, high, high, high, low, low, low, low];
    FirstDrop(s, raw, raw, low, high);
    RepairApplies(s, raw, raw, Repair(2, 5, 12.0, 5), 0.0, 1.0);
    RepairSettles(s, raw, raw, 2, 1, 12, 0, 0.0, 1.0);
    fixed := Edited(s, raw, raw, EditOf(Repair(2, 5, 12.0, 5), 0.0), 0.0, 1.0).value;
    assert fixed == [high, high, high, high, high, high, high, high, low, low, low, low];
    Between(s, raw, fixed, low, high);
  }

  predicate TwoDrops(s: Scale, raw: seq<real>, low: real, high: real) {
    && low > 0.0 && high > 0.0 && s.level(high) == s.level(low) + 12.0
    && raw == [high, high, low, low, low, high, high, high, low, low, low, low]
  }

  lemma FirstDrop(s: Scale, raw: seq<real>, curve: seq<real>, low: real, high: real)
    requires ValidScale(s) && TwoDrops(s, raw, low, high) && curve == raw
    ensures Search(s, raw, curve, 2, 1, 12, 0) == Finding(Some(5), Some(Repair(2, 5, 12.0, 5)))
  {
    assert RaiseLaw(s, low, 12.0);
    assert !Returns(s, raw, 2, 4) && Returns(s, raw, 2, 5);
    assert FindExit(s, raw, 2, 5, 12) == Some(5);
    assert FindExit(s, raw, 2, 4, 12) == Some(5);
    assert AllWrong(s, raw, curve, 5, 12.0, 2, 5);
  }

  lemma Between(s: Scale, raw: seq<real>, curve: seq<real>, low: real, high: real)
    requires ValidScale(s) && TwoDrops(s, raw, low, high)
    requires curve == [high, high, high, high, high, high, high, high, low, low, low, low]
    ensures Search(s, raw, curve, 5, 1, 12, 0) == Finding(Some(8), Some(Repair(5, 8, -12.0, 8)))
  {
    assert RaiseLaw(s, high, -12.0);
    assert !Returns(s, raw, 5, 7) && Returns(s, raw, 5, 8);
    assert FindExit(s, raw, 5, 8, 12) == Some(8);
    assert FindExit(s, raw, 5, 7, 12) == Some(8);
    assert AllWrong(s, raw, curve, 8, -12.0, 5, 8);
  }
}
