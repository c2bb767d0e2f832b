/** The checkpoints a training run keeps: zero-padded names, and pruning after every save. */
module Retention {
  import opened Bytes
  import opened Decimals
  import opened Disks

  type Name = seq<byte>
  type Files = map<Name, seq<byte>>

  /** `std::setw` with a zero fill. */
  function Padded(d: seq<byte>, width: nat): seq<byte>
    decreases width
  {
    if |d| >= width then d else [48] + Padded(d, width - 1)
  }

  const Prefix: seq<byte> := Ascii("state_step_")
  const Suffix: seq<byte> := Ascii(".safetensors")

  function StateName(step: nat): Name { Prefix + Padded(Dec(step), 10) + Suffix }

  /** The name of a file still being written: a random suffix of six characters. */
  function TempName(step: nat, suffix: seq<byte>): Name { StateName(step) + Ascii(".tmp.") + suffix }

  predicate Digits(s: seq<byte>) { forall i :: 0 <= i < |s| ==> IsDigit(s[i]) }

  predicate CheckpointName(n: Name) { |n| == 33 && n[..11] == Prefix && n[21..] == Suffix && Digits(n[11..21]) }

  function StepOf(n: Name): nat
    requires CheckpointName(n)
  {
    Horner(0, n[11..21])
  }

  /** `std::string` order, which sorts paths of one directory. */
  predicate Before(a: seq<byte>, b: seq<byte>)
    decreases |a|
  {
    |b| > 0 && (|a| == 0 || a[0] < b[0] || (a[0] == b[0] && Before(a[1..], b[1..])))
  }

  // ---------------------------------------------------------------- names and steps

  lemma {:induction false} PaddedDigits(d: seq<byte>, width: nat)
    requires Digits(d) && |d| <= width
    ensures Digits(Padded(d, width)) && |Padded(d, width)| == width && Horner(0, Padded(d, width)) == Horner(0, d)
    decreases width
  {
    if |d| < width {
      PaddedDigits(d, width - 1);
      assert Padded(d, width)[1..] == Padded(d, width - 1);
    }
  }

  /** Every step an `int` can count has a well-formed name, from which it is read back. */
  lemma NameOfStep(step: nat)
    requires step < 0x8000_0000
    ensures CheckpointName(StateName(step)) && StepOf(StateName(step)) == step
  {
    assert Pow10(10) == 10 * Pow10(9) && Pow10(9) == 10 * Pow10(8) && Pow10(8) == 10 * Pow10(7)
      && Pow10(7) == 10 * Pow10(6);
    DecLength(step, 10);
    PaddedDigits(Dec(step), 10);
    HornerDec(step);
    var n := StateName(step);
    assert n[..11] == Prefix && n[11..21] == Padded(Dec(step), 10) && n[21..] == Suffix;
  }

  lemma {:induction false} HornerStrict(v: nat, w: nat, a: seq<byte>, b: seq<byte>)
    requires v < w && |a| == |b| && Digits(a) && Digits(b)
    ensures Horner(v, a) < Horner(w, b)
    decreases |a|
  {
    if |a| > 0 {
      assert IsDigit(a[0]) && IsDigit(b[0]);
      HornerStrict(v * 10 + (a[0] - 48), w * 10 + (b[0] - 48), a[1..], b[1..]);
    }
  }

  lemma {:induction false} DigitOrder(v: nat, a: seq<byte>, b: seq<byte>)
    requires |a| == |b| && Digits(a) && Digits(b)
    ensures Before(a, b) <==> Horner(v, a) < Horner(v, b)
    ensures Horner(v, a) == Horner(v, b) ==> a == b
    decreases |a|
  {
    if |a| > 0 {
      assert IsDigit(a[0]) && IsDigit(b[0]);
      var x, y := v * 10 + (a[0] - 48), v * 10 + (b[0] - 48);
      if a[0] == b[0] {
        DigitOrder(x, a[1..], b[1..]);
        assert a == [a[0]] + a[1..] && b == [b[0]] + b[1..];
      } else if a[0] < b[0] {
        HornerStrict(x, y, a[1..], b[1..]);
      } else {
        HornerStrict(y, x, b[1..], a[1..]);
      }
    }
  }

  lemma {:induction false} BeforePrefix(p: seq<byte>, a: seq<byte>, b: seq<byte>)
    ensures Before(p + a, p + b) <==> Before(a, b)
    decreases |p|
  {
    if |p| == 0 {
      assert p + a == a && p + b == b;
    } else {
      assert (p + a)[1..] == p[1..] + a && (p + b)[1..] == p[1..] + b;
      BeforePrefix(p[1..], a, b);
    }
  }

  lemma {:induction false} BeforeSuffix(a: seq<byte>, b: seq<byte>, t: seq<byte>)
    requires |a| == |b|
    ensures Before(a + t, b + t) <==> Before(a, b)
    decreases |a|
  {
    if |a| == 0 {
      assert a + t == t == b + t;
      NotBeforeItself(t);
    } else {
      assert (a + t)[1..] == a[1..] + t && (b + t)[1..] == b[1..] + t;
      BeforeSuffix(a[1..], b[1..], t);
    }
  }

  lemma {:induction false} NotBeforeItself(t: seq<byte>)
    ensures !Before(t, t)
    decreases |t|
  {
    if |t| > 0 { NotBeforeItself(t[1..]); }
  }

  /** The order of checkpoint names is the order of their steps, and a step has one name. */
  lemma NameOrder(m: Name, n: Name)
    requires CheckpointName(m) && CheckpointName(n)
    ensures Before(m, n) <==> StepOf(m) < StepOf(n)
    ensures StepOf(m) == StepOf(n) ==> m == n
  {
    var a, b := m[11..21], n[11..21];
    assert m == Prefix + (a + Suffix) && n == Prefix + (b + Suffix);
    BeforePrefix(Prefix, a + Suffix, b + Suffix);
    BeforeSuffix(a, b, Suffix);
    DigitOrder(0, a, b);
  }

  // ---------------------------------------------------------------- pruning

  ghost function Checkpoints(f: Files): set<Name> { set n | n in f && CheckpointName(n) }

  ghost function Newer(f: Files, step: nat): set<Name> { set n | n in f && CheckpointName(n) && StepOf(n) > step }

  /** f without the checkpoints that have two newer ones. */
  ghost predicate Pruned(f: Files, g: Files) {
    && g.Keys <= f.Keys
    && forall n :: n in f ==>
      && (n in g <==> !CheckpointName(n) || |Newer(f, StepOf(n))| < 2)
      && (n in g ==> g[n] == f[n])
  }

  ghost predicate Increasing(s: seq<Name>) {
    && (forall i :: 0 <= i < |s| ==> CheckpointName(s[i]))
    && (forall i, j :: 0 <= i < j < |s| ==> StepOf(s[i]) < StepOf(s[j]))
  }

  lemma {:induction false} DistinctCount(s: seq<Name>)
    requires Increasing(s)
    ensures |(set n | n in s)| == |s|
    decreases |s|
  {
    if |s| > 0 {
      DistinctCount(s[1..]);
      FirstApart(s);
    }
  }

  lemma FirstApart(s: seq<Name>)
    requires Increasing(s) && |s| > 0
    ensures (set n | n in s) == {s[0]} + (set n | n in s[1..]) && s[0] !in s[1..]
  {
    assert forall j :: 0 <= j < |s[1..]| ==> s[1..][j] == s[j + 1];
  }

  lemma NewerThan(f: Files, s: seq<Name>, i: nat)
    requires Increasing(s) && (set n | n in s) == Checkpoints(f) && i < |s|
    ensures |Newer(f, StepOf(s[i]))| == |s| - 1 - i
  {
    var later := s[i + 1..];
    DistinctCount(later);
    forall n | n in Newer(f, StepOf(s[i])) ensures n in later {
      assert n in Checkpoints(f) && n in s;
      var j :| 0 <= j < |s| && s[j] == n;
      assert j > i && later[j - i - 1] == n;
    }
    forall n | n in later ensures n in Newer(f, StepOf(s[i])) {
      var j :| 0 <= j < |later| && later[j] == n;
      assert s[i + 1 + j] == n && n in Checkpoints(f);
    }
    assert Newer(f, StepOf(s[i])) == (set n | n in later);
  }

  /** The checkpoint names of the directory, sorted. */
  method SortedCheckpoints(f: Files) returns (s: seq<Name>)
    ensures Increasing(s) && (set n | n in s) == Checkpoints(f)
  {
    var left := f.Keys;
    s := [];
    while left != {}
      invariant left <= f.Keys && Increasing(s) && (set n | n in s) == Checkpoints(f) - left
      decreases left
    {
      var n :| n in left;
      if CheckpointName(n) { s := Insert(s, n); }
      left := left - {n};
    }
  }

  method Insert(s: seq<Name>, n: Name) returns (t: seq<Name>)
    requires Increasing(s) && CheckpointName(n) && n !in s
    ensures Increasing(t) && (set m | m in t) == (set m | m in s) + {n}
  {
    var i := 0;
    while i < |s| && Before(s[i], n)
      invariant i <= |s| && forall j :: 0 <= j < i ==> StepOf(s[j]) < StepOf(n)
    {
      NameOrder(s[i], n);
      i := i + 1;
    }
    if i < |s| { NameOrder(s[i], n); }
    t := s[..i] + [n] + s[i..];
    InsertKeeps(s, i, n, t);
  }

  lemma InsertKeeps(s: seq<Name>, i: nat, n: Name, t: seq<Name>)
    requires Increasing(s) && CheckpointName(n) && i <= |s| && t == s[..i] + [n] + s[i..]
    requires forall j :: 0 <= j < i ==> StepOf(s[j]) < StepOf(n)
    requires i < |s| ==> StepOf(n) < StepOf(s[i])
    ensures Increasing(t) && (set m | m in t) == (set m | m in s) + {n}
  {
    InsertedAt(s, i, n, t);
    forall k | 0 <= k < |t|
      ensures CheckpointName(t[k]) && (k < i ==> StepOf(t[k]) < StepOf(n)) && (k > i ==> StepOf(n) < StepOf(t[k])) {}
    forall j, k | 0 <= j < k < |t| ensures StepOf(t[j]) < StepOf(t[k]) {}
    InsertedMembers(s, i, n, t);
  }

  lemma InsertedAt(s: seq<Name>, i: nat, n: Name, t: seq<Name>)
    requires i <= |s| && t == s[..i] + [n] + s[i..]
    ensures |t| == |s| + 1 && forall k :: 0 <= k < |t| ==>
      t[k] == if k < i then s[k] else if k == i then n else s[k - 1]
  {}

  lemma InsertedMembers(s: seq<Name>, i: nat, n: Name, t: seq<Name>)
    requires i <= |s| && t == s[..i] + [n] + s[i..]
    ensures (set m | m in t) == (set m | m in s) + {n}
  {
    assert s == s[..i] + s[i..];
    forall m ensures m in t <==> m in s || m == n {}
  }

  // ---------------------------------------------------------------- saving

  /** On the way from f to its pruned form: only checkpoints with two newer ones are gone. */
  ghost predicate Pruning(f: Files, g: Files) {
    && g.Keys <= f.Keys
    && forall n :: n in f ==> if n in g then g[n] == f[n] else CheckpointName(n) && |Newer(f, StepOf(n))| >= 2
  }

  /** The states a save of a checkpoint can pass through. */
  ghost predicate Saving(f0: Files, step: nat, suffix: seq<byte>, content: seq<byte>, f: Files) {
    Replacing(f0, TempName(step, suffix), StateName(step), content, f) || Pruning(f0[StateName(step) := content], f)
  }

  ghost predicate SavingSince(history: seq<Files>, from: nat, f0: Files, step: nat, suffix: seq<byte>,
                              content: seq<byte>) {
    forall i :: from <= i < |history| ==> Saving(f0, step, suffix, content, history[i])
  }

  ghost predicate PruningSince(history: seq<Files>, from: nat, f: Files) {
    forall i :: from <= i < |history| ==> Pruning(f, history[i])
  }

  /** f without the first i names. */
  ghost predicate Dropped(f: Files, names: seq<Name>, i: nat, g: Files)
    requires i <= |names|
  {
    g == f - (set k | 0 <= k < i :: names[k])
  }

  lemma DroppedIsPruning(f: Files, names: seq<Name>, i: nat, g: Files)
    requires Increasing(names) && (set n | n in names) == Checkpoints(f) && (i == 0 || i + 2 <= |names|)
    requires i <= |names| && Dropped(f, names, i, g)
    ensures Pruning(f, g)
  {
    forall n | n in f && n !in g ensures CheckpointName(n) && |Newer(f, StepOf(n))| >= 2 {
      var k :| 0 <= k < i && names[k] == n;
      NewerThan(f, names, k);
    }
  }

  lemma DropNext(f: Files, names: seq<Name>, i: nat, g: Files)
    requires Increasing(names) && (set n | n in names) == Checkpoints(f) && i < |names| && Dropped(f, names, i, g)
    ensures names[i] in g && Dropped(f, names, i + 1, g - {names[i]})
  {
    assert names[i] in Checkpoints(f);
  }

  /** Removing all but the two newest names, oldest first. */
  method Prune(disk: Disk<Name>) returns (ok: bool)
    requires disk.Valid()
    modifies disk
    ensures disk.Valid() && old(disk.history) <= disk.history
    ensures PruningSince(disk.history, |old(disk.history)|, old(disk.files)) && Pruning(old(disk.files), disk.files)
    ensures ok ==> Pruned(old(disk.files), disk.files)
    ensures !ok ==> disk.mayFail
  {
    ghost var f, h := disk.files, disk.history;
    var names := SortedCheckpoints(disk.files);
    var i := 0;
    assert Dropped(f, names, 0, f);
    while i + 2 < |names|
      invariant disk.Valid() && i <= |names| && h <= disk.history && (i == 0 || i + 2 <= |names|)
      invariant Dropped(f, names, i, disk.files) && Pruning(f, disk.files)
      invariant PruningSince(disk.history, |h|, f)
    {
      DropNext(f, names, i, disk.files);
      ok := disk.Unlink(names[i]);
      if !ok { return; }
      i := i + 1;
      DroppedIsPruning(f, names, i, disk.files);
    }
    PrunedAll(f, names, i, disk.files);
    ok := true;
  }

  /** `save_state`: publish the checkpoint, then prune all but the two newest names. */
  method SaveState(disk: Disk<Name>, step: nat, content: seq<byte>, suffix: seq<byte>) returns (ok: bool)
    requires disk.Valid() && step < 0x8000_0000
    modifies disk
    ensures disk.Valid() && old(disk.history) <= disk.history
    ensures SavingSince(disk.history, |old(disk.history)|, old(disk.files), step, suffix, content)
    ensures Saving(old(disk.files), step, suffix, content, disk.files)
    ensures ok ==> Pruned(old(disk.files)[StateName(step) := content], disk.files)
    ensures !ok ==> disk.mayFail || TempName(step, suffix) in old(disk.files)
  {
    ok := ReplaceFile(disk, TempName(step, suffix), StateName(step), content, false);
    if !ok { return; }
    ghost var h1 := disk.history;
    ok := Prune(disk);
    forall i | |old(disk.history)| <= i < |disk.history|
      ensures Saving(old(disk.files), step, suffix, content, disk.history[i])
    {
      if i < |h1| { assert h1[i] == disk.history[i]; }
    }
  }

  lemma PrunedAll(f: Files, s: seq<Name>, i: nat, g: Files)
    requires Increasing(s) && (set n | n in s) == Checkpoints(f) && i <= |s| && (i + 2 == |s| || (i == 0 && |s| <= 2))
    requires Dropped(f, s, i, g)
    ensures Pruned(f, g)
  {
    forall n | n in f && CheckpointName(n) ensures n in g <==> |Newer(f, StepOf(n))| < 2 {
      assert n in Checkpoints(f);
      assert n in s;
      var j :| 0 <= j < |s| && s[j] == n;
      NewerThan(f, s, j);
      assert forall k :: 0 <= k < |s| && s[k] == n ==> k == j;
    }
  }

  // ---------------------------------------------------------------- what a save keeps

  ghost predicate Newest(f: Files, step: nat) { Newer(f, step) == {} }

  /** The checkpoint just saved survives its own pruning exactly when fewer than two later steps are there. */
  lemma SavedIsKept(f0: Files, step: nat, content: seq<byte>, g: Files)
    requires step < 0x8000_0000 && Pruned(f0[StateName(step) := content], g)
    ensures StateName(step) in g <==> |Newer(f0, step)| < 2
    ensures StateName(step) in g ==> g[StateName(step)] == content
  {
    NameOfStep(step);
    var f1 := f0[StateName(step) := content];
    assert Newer(f1, step) == Newer(f0, step);
  }

  /** After any complete save at most two checkpoints remain. */
  lemma AtMostTwo(f: Files, g: Files)
    requires Pruned(f, g)
    ensures |Checkpoints(g)| <= 2
  {
    if Checkpoints(g) != {} {
      var low := Lowest(g, Checkpoints(g));
      assert low in g && low in f && |Newer(f, StepOf(low))| < 2;
      forall n | n in Checkpoints(g) - {low} ensures n in Newer(f, StepOf(low)) { NameOrder(low, n); }
      Subset(Checkpoints(g) - {low}, Newer(f, StepOf(low)));
    }
  }

  lemma {:induction false} Subset(a: set<Name>, b: set<Name>)
    requires a <= b
    ensures |a| <= |b|
    decreases |a|
  {
    if a != {} {
      var n :| n in a;
      Subset(a - {n}, b - {n});
    }
  }

  lemma {:induction false} Lowest(f: Files, names: set<Name>) returns (low: Name)
    requires names != {} && names <= Checkpoints(f)
    ensures low in names && forall n :: n in names ==> StepOf(low) <= StepOf(n)
    decreases |names|
  {
    low :| low in names;
    if names != {low} {
      var rest := Lowest(f, names - {low});
      if StepOf(rest) < StepOf(low) { low := rest; }
    }
  }

  /** At every moment of a save, a checkpoint is the one being saved or stands as it was. */
  lemma SavedOrKept(f0: Files, step: nat, suffix: seq<byte>, content: seq<byte>, f: Files, n: Name)
    requires step < 0x8000_0000 && |suffix| == 6 && Saving(f0, step, suffix, content, f) && n in Checkpoints(f)
    ensures n in f && CheckpointName(n)
    ensures (StepOf(n) == step && f[n] == content) || (n in Checkpoints(f0) && f[n] == f0[n])
  {
    NameOfStep(step);
    assert |TempName(step, suffix)| == 44;
  }

  /** A file of any other name stands as it was. */
  lemma OtherKept(f0: Files, step: nat, suffix: seq<byte>, content: seq<byte>, f: Files, n: Name)
    requires step < 0x8000_0000 && |suffix| == 6 && Saving(f0, step, suffix, content, f) && |n| != 33 && |n| != 44
    ensures n in f ==> n in f0 && f[n] == f0[n]
  {
    NameOfStep(step);
    assert |TempName(step, suffix)| == 44;
  }

  /** At every moment of a save, the newest checkpoint from before is still there complete, unless the save has
      already replaced that very name. */
  lemma NewestSurvives(f0: Files, step: nat, suffix: seq<byte>, content: seq<byte>, f: Files, newest: Name)
    requires step < 0x8000_0000 && |suffix| == 6 && Saving(f0, step, suffix, content, f)
    requires newest in f0 && CheckpointName(newest) && Newest(f0, StepOf(newest))
    ensures newest in f && (f[newest] == f0[newest] || (newest == StateName(step) && f[newest] == content))
  {
    NameOfStep(step);
    var f1 := f0[StateName(step) := content];
    assert |TempName(step, suffix)| == 44;
    if !Replacing(f0, TempName(step, suffix), StateName(step), content, f) && newest !in f {
      assert Newer(f1, StepOf(newest)) <= {StateName(step)};
      Subset(Newer(f1, StepOf(newest)), {StateName(step)});
    }
  }

  /** A fresh run, and a run resumed from its newest checkpoint, save steps in order: every save keeps the one just
      made, and no later one is ever there. */
  ghost predicate UpTo(f: Files, step: nat) { forall n :: n in Checkpoints(f) ==> StepOf(n) <= step }

  lemma InOrderIsKept(f0: Files, last: nat, step: nat, content: seq<byte>, g: Files)
    requires UpTo(f0, last) && last <= step < 0x8000_0000 && Pruned(f0[StateName(step) := content], g)
    ensures UpTo(g, step) && StateName(step) in g && g[StateName(step)] == content && |Checkpoints(g)| <= 2
  {
    assert forall n :: n in f0 && CheckpointName(n) ==> n in Checkpoints(f0);
    assert Newer(f0, step) == {};
    NameOfStep(step);
    SavedIsKept(f0, step, content, g);
    AtMostTwo(f0[StateName(step) := content], g);
    assert forall n :: n in Checkpoints(g) ==> n == StateName(step) || n in Checkpoints(f0);
  }

  datatype Saved = Saved(step: nat, content: seq<byte>, suffix: seq<byte>)

  ghost predicate InOrder(saves: seq<Saved>, last: nat) {
    && (forall i :: 0 <= i < |saves| ==> last <= saves[i].step < 0x8000_0000)
    && (forall i, j :: 0 <= i < j < |saves| ==> saves[i].step <= saves[j].step)
  }

  /** The temporary names still to be used are free. */
  ghost predicate NoTemps(f: Files, saves: seq<Saved>) {
    forall i :: 0 <= i < |saves| ==> |saves[i].suffix| == 6 && TempName(saves[i].step, saves[i].suffix) !in f
  }

  lemma NoTempsKept(f0: Files, saves: seq<Saved>, s: Saved, g: Files)
    requires NoTemps(f0, saves) && s.step < 0x8000_0000 && InOrder(saves, 0)
      && Pruned(f0[StateName(s.step) := s.content], g)
    ensures NoTemps(g, saves)
  {
    NameOfStep(s.step);
    forall i | 0 <= i < |saves| ensures TempName(saves[i].step, saves[i].suffix) !in g {
      NameOfStep(saves[i].step);
      assert |TempName(saves[i].step, saves[i].suffix)| == 44;
    }
  }

  lemma OrderedNext(saves: seq<Saved>, i: nat, last: nat)
    requires InOrder(saves, last) && i < |saves|
    ensures InOrder(saves, 0) && (if i == 0 then last else saves[i - 1].step) <= saves[i].step < 0x8000_0000
  {
  }

  /** The save is there, newest of at most two. */
  ghost predicate Latest(f: Files, s: Saved) {
    UpTo(f, s.step) && StateName(s.step) in f && f[StateName(s.step)] == s.content && |Checkpoints(f)| <= 2
  }

  /** One of the saves, not earlier than the last. */
  method SaveNext(disk: Disk<Name>, s: Saved, ghost last: nat, ghost saves: seq<Saved>) returns (ok: bool)
    requires disk.Valid() && UpTo(disk.files, last) && InOrder(saves, 0) && s in saves && last <= s.step < 0x8000_0000
    modifies disk
    ensures disk.Valid()
    ensures ok ==> Latest(disk.files, s)
    ensures NoTemps(old(disk.files), saves) ==> (ok || disk.mayFail) && (ok ==> NoTemps(disk.files, saves))
  {
    ghost var f0 := disk.files;
    ok := SaveState(disk, s.step, s.content, s.suffix);
    if ok {
      InOrderIsKept(f0, last, s.step, s.content, disk.files);
      if NoTemps(f0, saves) { NoTempsKept(f0, saves, s, disk.files); }
    }
  }

  /** All the saves of one process, in the order of training. */
  method SaveRun(disk: Disk<Name>, saves: seq<Saved>, ghost last: nat) returns (done: nat)
    requires disk.Valid() && UpTo(disk.files, last) && InOrder(saves, last)
    modifies disk
    ensures disk.Valid() && done <= |saves|
    ensures NoTemps(old(disk.files), saves) && !disk.mayFail ==> done == |saves|
    ensures done == |saves| > 0 ==> Latest(disk.files, saves[done - 1])
  {
    ghost var newest, free := last, NoTemps(disk.files, saves);
    done := 0;
    while done < |saves|
      invariant disk.Valid() && done <= |saves| && UpTo(disk.files, newest) && newest == if done == 0 then last
        else saves[done - 1].step
      invariant done > 0 ==> Latest(disk.files, saves[done - 1])
      invariant free ==> NoTemps(disk.files, saves)
    {
      var s := saves[done];
      OrderedNext(saves, done, last);
      var ok := SaveNext(disk, s, newest, saves);
      if !ok { return; }
      newest := s.step;
      done := done + 1;
    }
  }

  /** Resuming from an older checkpoint while two later ones are there loses the next one saved. */
  lemma OldResumeLosesItsSave(f0: Files, a: nat, b: nat, step: nat, content: seq<byte>, g: Files)
    requires step < a < b < 0x8000_0000 && StateName(a) in f0 && StateName(b) in f0
    requires Pruned(f0[StateName(step) := content], g)
    ensures StateName(step) !in g
  {
    NameOfStep(a);
    NameOfStep(b);
    TwoNewer(f0, step, StateName(a), StateName(b));
    SavedIsKept(f0, step, content, g);
  }

  lemma TwoNewer(f: Files, step: nat, m: Name, n: Name)
    requires m in f && n in f && CheckpointName(m) && CheckpointName(n) && step < StepOf(m) < StepOf(n)
    ensures |Newer(f, step)| >= 2
  {
    assert m != n && |{m, n}| == 2;
    Subset({m, n}, Newer(f, step));
  }
}
