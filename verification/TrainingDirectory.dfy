/** The checkpoint directory of a training run before its first checkpoint: what a stopped start leaves
    behind, what an initial resume accepts, and what its recovery removes. */
module TrainingDirectory {
  import opened Spools
  import opened Bytes
  import opened Disks

  /** A directory entry, classified by name. Temporary names carry the random suffix of their creation. */
  datatype Entry = Lock | Identity | IdentityTemp(suffix: string)
    | StateFile(step: nat) | StateTemp(step: nat, suffix: string) | Candidate(epoch: nat) | Other(text: string)

  type Files = map<Entry, seq<byte>>

  const Gib: nat := 1024 * 1024 * 1024

  predicate HexByte(b: byte) { 48 <= b <= 57 || 97 <= b <= 102 }

  predicate HexDigest(d: seq<byte>) { |d| == 64 && forall i :: 0 <= i < 64 ==> HexByte(d[i]) }

  /** The committed identity: 64 hex digits and a line end. */
  function Marker(id: seq<byte>): seq<byte> { id + [10] }

  predicate ValidMarker(b: seq<byte>) { |b| == 65 && b[64] == 10 && HexDigest(b[..64]) }

  predicate Pending(e: Entry) { e.IdentityTemp? || (e.StateTemp? && e.step == 0) }

  /** One entry an initial resume tolerates. */
  predicate Tolerated(e: Entry, content: seq<byte>) {
    match e
    case Lock => true
    case Identity => ValidMarker(content)
    case IdentityTemp(_) => |content| <= 128
    case StateTemp(step, _) => step == 0 && |content| <= 4 * Gib
    case _ => false
  }

  ghost function PendingIn(f: Files): set<Entry> { set e | e in f && Pending(e) }

  ghost function SizeOf(f: Files, es: set<Entry>): nat
    requires es <= f.Keys
  {
    if es == {} then 0 else var e :| e in es; |f[e]| + SizeOf(f, es - {e})
  }

  lemma {:induction false} SizeRemove(f: Files, es: set<Entry>, e: Entry)
    requires es <= f.Keys && e in es
    ensures SizeOf(f, es) == |f[e]| + SizeOf(f, es - {e})
    decreases |es|
  {
    var k :| k in es && SizeOf(f, es) == |f[k]| + SizeOf(f, es - {k});
    if k != e {
      SizeRemove(f, es - {k}, e);
      SizeRemove(f, es - {e}, k);
      assert es - {k} - {e} == es - {e} - {k};
    }
  }

  lemma SizeAdd(f: Files, es: set<Entry>, e: Entry)
    requires es <= f.Keys && e in f && e !in es
    ensures SizeOf(f, es + {e}) == SizeOf(f, es) + |f[e]| && |es + {e}| == |es| + 1
  {
    SizeRemove(f, es + {e}, e);
    assert es + {e} - {e} == es;
  }

  lemma {:induction false} SizeSubset(f: Files, a: set<Entry>, b: set<Entry>)
    requires a <= b <= f.Keys
    ensures SizeOf(f, a) <= SizeOf(f, b) && |a| <= |b|
    decreases |a|
  {
    if a != {} {
      var e :| e in a;
      SizeRemove(f, a, e);
      SizeRemove(f, b, e);
      SizeSubset(f, a - {e}, b - {e});
    }
  }

  /** The directories an initial resume may continue from: nothing published, nothing unknown, bounded partial writes,
      and no partial state without a committed identity. */
  ghost predicate Eligible(f: Files) {
    && |f| <= 18 && (forall e :: e in f ==> Tolerated(e, f[e]))
    && |PendingIn(f)| <= 16 && SizeOf(f, PendingIn(f)) <= 8 * Gib
    && ((exists e :: e in f && e.StateTemp?) ==> Identity in f)
  }

  // ---------------------------------------------------------------- the scan

  datatype Inspection = Inspection(identity: Option<seq<byte>>, pending: set<Entry>)

  /** The scan so far. */
  datatype Scan = Scan(identity: Option<seq<byte>>, pending: set<Entry>, bytes: nat, partial: bool, count: nat)

  /** What has been seen of a directory, and what is left. */
  ghost predicate Seen(f: Files, left: set<Entry>, s: Scan) {
    && left <= f.Keys && s.count == |f| - |left| <= 18
    && (forall e :: e in f && e !in left ==> Tolerated(e, f[e]))
    && s.pending == PendingIn(f) - left && s.bytes == SizeOf(f, s.pending) <= 8 * Gib && |s.pending| <= 16
    && (s.partial <==> exists e :: e in f && e !in left && e.StateTemp?)
    && s.identity == if Identity in f && Identity !in left then Some(f[Identity][..64]) else None
  }

  /** The inspection of `InitialDirectory`, entry by entry in any order. */
  method Inspect(f: Files) returns (r: Option<Inspection>)
    ensures r.Some? <==> Eligible(f)
    ensures r.Some? ==> r.value.pending == PendingIn(f)
    ensures r.Some? ==> r.value.identity == if Identity in f then Some(f[Identity][..64]) else None
  {
    var left := f.Keys;
    var scan := Scan(None, {}, 0, false, 0);
    while left != {}
      invariant Seen(f, left, scan)
      decreases left
    {
      var e :| e in left;
      var next := InspectEntry(f, left, scan, e);
      if next.None? { return None; }
      scan := next.value;
      left := left - {e};
    }
    AllSeen(f, scan);
    if scan.partial && scan.identity.None? { return None; }
    r := Some(Inspection(scan.identity, scan.pending));
  }

  lemma AllSeen(f: Files, scan: Scan)
    requires Seen(f, {}, scan)
    ensures scan.pending == PendingIn(f) && (Eligible(f) <==> (scan.partial ==> scan.identity.Some?))
  {
    assert PendingIn(f) - {} == PendingIn(f);
  }

  /** One entry of the scan: refused only when the directory is not eligible. */
  method InspectEntry(f: Files, ghost left: set<Entry>, scan: Scan, e: Entry) returns (next: Option<Scan>)
    requires Seen(f, left, scan) && e in left
    ensures next.Some? ==> Seen(f, left - {e}, next.value)
    ensures next.None? ==> !Eligible(f)
  {
    if scan.count >= 18 {
      TooMany(f, left);
      return None;
    }
    if !Tolerated(e, f[e]) { return None; }
    var s := scan.(count := scan.count + 1);
    if e == Identity { s := s.(identity := Some(f[Identity][..64])); }
    if Pending(e) {
      var ok := CountPending(f, left, scan.pending, scan.bytes, e);
      if !ok { return None; }
      s := s.(bytes := scan.bytes + |f[e]|, partial := scan.partial || e.StateTemp?, pending := scan.pending + {e});
    }
    SeenMore(f, left, scan, e, s);
    next := Some(s);
  }

  lemma SeenMore(f: Files, left: set<Entry>, scan: Scan, e: Entry, s: Scan)
    requires Seen(f, left, scan) && e in left && scan.count < 18 && Tolerated(e, f[e])
    requires s.count == scan.count + 1 && s.identity == if e == Identity then Some(f[Identity][..64]) else scan.identity
    requires s.partial == (scan.partial || e.StateTemp?)
    requires s.pending == (if Pending(e) then scan.pending + {e} else scan.pending)
    requires s.pending <= f.Keys && s.bytes == SizeOf(f, s.pending) <= 8 * Gib && |s.pending| <= 16
    ensures Seen(f, left - {e}, s)
  {
    assert |left - {e}| == |left| - 1;
    assert PendingIn(f) - (left - {e}) == s.pending;
  }

  /** One more partial file, within the staging limits. */
  method CountPending(f: Files, ghost left: set<Entry>, pending: set<Entry>, bytes: nat, e: Entry) returns (ok: bool)
    requires left <= f.Keys && e in left && Pending(e) && pending == PendingIn(f) - left && bytes == SizeOf(f, pending)
    ensures pending + {e} == PendingIn(f) - (left - {e})
    ensures ok ==> bytes + |f[e]| == SizeOf(f, pending + {e}) <= 8 * Gib && |pending + {e}| <= 16
    ensures !ok ==> SizeOf(f, PendingIn(f)) > 8 * Gib || |PendingIn(f)| > 16
  {
    SizeAdd(f, pending, e);
    SizeSubset(f, pending + {e}, PendingIn(f));
    ok := bytes + |f[e]| <= 8 * Gib && |pending| < 16;
  }

  lemma TooMany(f: Files, left: set<Entry>)
    requires left <= f.Keys && left != {} && |f| - |left| >= 18
    ensures |f| > 18
  {
    var e :| e in left;
    assert |left - {e}| == |left| - 1;
  }

  // ---------------------------------------------------------------- recovery

  /** f is f0 without some of its partial files. */
  ghost predicate Cleaned(f0: Files, f: Files) {
    f.Keys <= f0.Keys && forall e :: e in f0 ==> if e in f then f[e] == f0[e] else Pending(e)
  }

  ghost predicate CleanedSince(history: seq<Files>, from: nat, f0: Files) {
    forall i :: from <= i < |history| ==> Cleaned(f0, history[i])
  }

  /** `recover_initial_training_directory`: refuses another identity or an ineligible directory untouched, and
      otherwise removes the partial files and nothing else. */
  method Recover(disk: Disk<Entry>, id: seq<byte>) returns (ok: bool)
    requires disk.Valid()
    modifies disk
    ensures disk.Valid() && old(disk.history) <= disk.history
    ensures CleanedSince(disk.history, |old(disk.history)|, old(disk.files)) && Cleaned(old(disk.files), disk.files)
    ensures var f0 := old(disk.files);
      !Eligible(f0) || !HexDigest(id) || (Identity in f0 && f0[Identity][..64] != id) ==>
        !ok && disk.history == old(disk.history) && disk.files == f0
    ensures ok ==> PendingIn(disk.files) == {}
    ensures Eligible(old(disk.files)) && HexDigest(id) && !disk.mayFail ==>
      ok || (Identity in old(disk.files) && old(disk.files)[Identity][..64] != id)
  {
    ghost var f0, h0 := disk.files, disk.history;
    if !HexDigest(id) { return false; }
    var checked := Inspect(disk.files);
    if checked.None? { return false; }
    if checked.value.identity.Some? && checked.value.identity.value != id { return false; }
    var left := checked.value.pending;
    while left != {}
      invariant disk.Valid() && h0 <= disk.history && CleanedSince(disk.history, |h0|, f0) && Cleaned(f0, disk.files)
      invariant left <= PendingIn(disk.files) <= left
      decreases left
    {
      var e :| e in left;
      assert Pending(e) && e in disk.files;
      var gone := disk.Unlink(e);
      if !gone { return false; }
      left := left - {e};
    }
    ok := disk.Sync();
  }

  // ---------------------------------------------------------------- one start of training

  /** What a start leaves behind until its first checkpoint is published: nothing but the lock, the identity of
      this run and one partial file. */
  ghost predicate Starting(f: Files, id: seq<byte>, limit: nat) {
    && (forall e :: e in f ==> StartEntry(f, e, id, limit))
    && (forall a, b :: a in f && b in f && Pending(a) && Pending(b) ==> a == b)
  }

  ghost predicate StartEntry(f: Files, e: Entry, id: seq<byte>, limit: nat)
    requires e in f
  {
    match e
    case Lock => true
    case Identity => f[e] == Marker(id)
    case IdentityTemp(_) => |f[e]| <= 65
    case StateTemp(step, _) => step == 0 && |f[e]| <= limit && Identity in f
    case _ => false
  }

  /** Everything a stopped start may leave behind is eligible for an initial resume of the same run. */
  lemma StartingIsEligible(f: Files, id: seq<byte>, limit: nat)
    requires Starting(f, id, limit) && HexDigest(id) && limit <= 4 * Gib
    ensures Eligible(f) && (Identity in f ==> f[Identity][..64] == id)
  {
    forall e | e in f ensures Tolerated(e, f[e]) {
      assert StartEntry(f, e, id, limit);
      if e == Identity { assert Marker(id)[..64] == id; }
    }
    var pending := PendingIn(f);
    OnePending(f, pending);
    SmallSet(f.Keys, pending);
    if exists e :: e in f && e.StateTemp? {
      var e :| e in f && e.StateTemp?;
      assert StartEntry(f, e, id, limit);
    }
    if Identity in f {
      assert StartEntry(f, Identity, id, limit);
      assert Marker(id)[..64] == id;
    }
    if pending != {} {
      var e :| e in pending;
      assert pending == {e};
      SizeRemove(f, pending, e);
      assert StartEntry(f, e, id, limit);
    }
  }

  lemma OnePending(f: Files, pending: set<Entry>)
    requires pending == PendingIn(f) && forall a, b :: a in f && b in f && Pending(a) && Pending(b) ==> a == b
    ensures |pending| <= 1
  {
    if pending != {} {
      var e :| e in pending;
      assert pending == {e};
    }
  }

  lemma SmallSet(names: set<Entry>, pending: set<Entry>)
    requires |pending| <= 1 && forall e :: e in names ==> e in pending + {Lock, Identity}
    ensures |names| <= 3
  {
    var all := pending + {Lock, Identity};
    assert |all| <= 3;
    CountSubset(names, all);
  }

  lemma {:induction false} CountSubset(a: set<Entry>, b: set<Entry>)
    requires a <= b
    ensures |a| <= |b|
    decreases |a|
  {
    if a != {} {
      var e :| e in a;
      CountSubset(a - {e}, b - {e});
    }
  }

  lemma CleanedIsStarting(f0: Files, f: Files, id: seq<byte>, limit: nat)
    requires Starting(f0, id, limit) && Cleaned(f0, f)
    ensures Starting(f, id, limit)
  {
    forall e | e in f ensures StartEntry(f, e, id, limit) { assert StartEntry(f0, e, id, limit); }
  }

  lemma LockIsStarting(f: Files, id: seq<byte>, limit: nat)
    requires Starting(f, id, limit)
    ensures Starting(f[Lock := []], id, limit)
  {
    var g := f[Lock := []];
    forall e | e in g ensures StartEntry(g, e, id, limit) { if e in f { assert StartEntry(f, e, id, limit); } }
  }

  lemma IdentityIsStarting(f0: Files, id: seq<byte>, limit: nat, suffix: string, f: Files)
    requires Starting(f0, id, limit) && PendingIn(f0) == {} && |id| == 64
    requires Replacing(f0, IdentityTemp(suffix), Identity, Marker(id), f)
    ensures Starting(f, id, limit)
  {
    forall e | e in f ensures StartEntry(f, e, id, limit) { if e in f0 { assert StartEntry(f0, e, id, limit); } }
    forall a, b | a in f && b in f && Pending(a) && Pending(b) ensures a == b { NotPending(f0, a); NotPending(f0, b); }
  }

  lemma NotPending(f: Files, e: Entry)
    requires PendingIn(f) == {}
    ensures e in f ==> !Pending(e)
  {
    assert e in PendingIn(f) <==> e in f && Pending(e);
  }

  /** A start that left nothing partial. */
  lemma SettledKeys(f: Files, id: seq<byte>, limit: nat)
    requires Starting(f, id, limit) && PendingIn(f) == {} && Identity in f && Lock in f
    ensures f.Keys == {Lock, Identity} && f[Identity] == Marker(id)
  {
    forall e | e in f ensures e in {Lock, Identity} {
      NotPending(f, e);
      assert StartEntry(f, e, id, limit);
    }
    assert StartEntry(f, Identity, id, limit);
  }

  lemma StateIsStarting(f0: Files, id: seq<byte>, state: seq<byte>, suffix: string, f: Files)
    requires Starting(f0, id, |state|) && PendingIn(f0) == {} && Identity in f0 && Lock in f0
    requires Replacing(f0, StateTemp(0, suffix), StateFile(0), state, f)
    ensures StartedAt(f, id, state)
  {
    SettledKeys(f0, id, |state|);
    if f != f0[StateFile(0) := state] {
      forall e | e in f ensures StartEntry(f, e, id, |state|) { if e in f0 { assert StartEntry(f0, e, id, |state|); } }
      forall a, b | a in f && b in f && Pending(a) && Pending(b) ensures a == b {
        NotPending(f0, a);
        NotPending(f0, b);
      }
    }
  }

  /** Until its first checkpoint is published, a start leaves only what an initial resume accepts. */
  ghost predicate StartedSince(history: seq<Files>, from: nat, id: seq<byte>, state: seq<byte>) {
    forall i :: from <= i < |history| ==> StartedAt(history[i], id, state)
  }

  ghost predicate StartedAt(f: Files, id: seq<byte>, state: seq<byte>) {
    Starting(f, id, |state|) || Published(f, id, state)
  }

  /** The first checkpoint is there, complete, beside the identity of its run. */
  ghost predicate Published(f: Files, id: seq<byte>, state: seq<byte>) {
    f.Keys == {Lock, Identity, StateFile(0)} && f[Identity] == Marker(id) && f[StateFile(0)] == state
  }

  /** Once a checkpoint is published, no initial resume is accepted. */
  lemma PublishedIsRefused(f: Files)
    requires exists e :: e in f && e.StateFile?
    ensures !Eligible(f)
  {
    var e :| e in f && e.StateFile?;
    assert !Tolerated(e, f[e]);
  }

  /** Taking the lock and checking what is there. */
  method Admit(disk: Disk<Entry>, ghost id: seq<byte>, resume: bool, ghost state: seq<byte>) returns (ok: bool)
    requires disk.Valid() && Starting(disk.files, id, |state|) && HexDigest(id) && |state| <= 4 * Gib
    modifies disk
    ensures disk.Valid() && old(disk.history) <= disk.history
      && StartedSince(disk.history, |old(disk.history)|, id, state)
    ensures Starting(disk.files, id, |state|) && (ok ==> Lock in disk.files)
    ensures ok && !resume ==> disk.files.Keys == {Lock}
    ensures !ok ==> disk.mayFail || (!resume && exists e :: e in old(disk.files) && e != Lock)
  {
    if Lock !in disk.files {
      LockIsStarting(disk.files, id, |state|);
      ok := disk.Create(Lock);
      if !ok { return; }
    }
    if resume {
      var checked := Inspect(disk.files);
      StartingIsEligible(disk.files, id, |state|);
      ok := checked.Some?;
    } else {
      ok := disk.files.Keys == {Lock};
      OnlyLock(disk.files);
    }
  }

  lemma OnlyLock(f: Files)
    requires Lock in f
    ensures f.Keys == {Lock} <==> forall e :: e in f ==> e == Lock
  {
    assert f.Keys == {Lock} <==> forall e :: e in f.Keys <==> e in {Lock};
  }

  /** Recovery on the way of a start. */
  method RecoverStart(disk: Disk<Entry>, id: seq<byte>, ghost state: seq<byte>) returns (ok: bool)
    requires disk.Valid() && Starting(disk.files, id, |state|) && HexDigest(id) && |state| <= 4 * Gib
    modifies disk
    ensures disk.Valid() && old(disk.history) <= disk.history
      && StartedSince(disk.history, |old(disk.history)|, id, state)
    ensures Starting(disk.files, id, |state|)
    ensures ok ==> PendingIn(disk.files) == {} && (Lock in old(disk.files) ==> Lock in disk.files)
    ensures !ok ==> disk.mayFail
  {
    ghost var f0, from := disk.files, |disk.history|;
    StartingIsEligible(f0, id, |state|);
    ok := Recover(disk, id);
    CleanedIsStarting(f0, disk.files, id, |state|);
    forall i | from <= i < |disk.history| ensures StartedAt(disk.history[i], id, state) {
      CleanedIsStarting(f0, disk.history[i], id, |state|);
    }
  }

  /** Committing the identity, then the step-zero state. */
  method CommitStart(disk: Disk<Entry>, id: seq<byte>, state: seq<byte>, suffix: string, suffix2: string)
    returns (saved: bool)
    requires disk.Valid() && Starting(disk.files, id, |state|) && HexDigest(id) && PendingIn(disk.files) == {}
      && Lock in disk.files
    modifies disk
    ensures disk.Valid() && old(disk.history) <= disk.history
      && StartedSince(disk.history, |old(disk.history)|, id, state)
    ensures StartedAt(disk.files, id, state)
    ensures saved ==> Published(disk.files, id, state)
    ensures !saved ==> disk.mayFail
  {
    ghost var f0, from := disk.files, |disk.history|;
    NotPending(f0, IdentityTemp(suffix));
    saved := ReplaceFile(disk, IdentityTemp(suffix), Identity, Marker(id), false);
    ghost var f1, mid := disk.files, disk.history;
    IdentityIsStarting(f0, id, |state|, suffix, f1);
    forall i | from <= i < |mid| ensures StartedAt(mid[i], id, state) {
      IdentityIsStarting(f0, id, |state|, suffix, mid[i]);
    }
    if !saved { return; }
    assert PendingIn(f1) == {} by {
      assert forall e :: e in f1 ==> e in f0 || e == Identity;
      assert forall e :: e in f1 && Pending(e) ==> e in PendingIn(f0);
    }
    NotPending(f1, StateTemp(0, suffix2));
    saved := ReplaceFile(disk, StateTemp(0, suffix2), StateFile(0), state, false);
    StateIsStarting(f1, id, state, suffix2, disk.files);
    StatesJoin(mid, disk.history, from, f1, id, state, suffix2);
    SettledKeys(f1, id, |state|);
  }

  lemma StatesJoin(mid: seq<Files>, history: seq<Files>, from: nat, f1: Files, id: seq<byte>, state: seq<byte>,
                   suffix: string)
    requires from <= |mid| && mid <= history && StartedSince(mid, from, id, state)
    requires Starting(f1, id, |state|) && PendingIn(f1) == {} && Identity in f1 && Lock in f1
    requires ReplacingSince(history, |mid|, f1, StateTemp(0, suffix), StateFile(0), state)
    ensures StartedSince(history, from, id, state)
  {
    forall i | from <= i < |history| ensures StartedAt(history[i], id, state) {
      if i < |mid| { assert mid[i] == history[i]; } else { StateIsStarting(f1, id, state, suffix, history[i]); }
    }
  }

  lemma StartJoin(a: seq<Files>, b: seq<Files>, from: nat, id: seq<byte>, state: seq<byte>)
    requires from <= |a| && a <= b && StartedSince(a, from, id, state) && StartedSince(b, |a|, id, state)
    ensures StartedSince(b, from, id, state)
  {
    forall i | from <= i < |b| ensures StartedAt(b[i], id, state) { if i < |a| { assert a[i] == b[i]; } }
  }

  /** A start of training, fresh or as an initial resume, up to its first checkpoint. It may be stopped on the way;
      whatever state it is stopped in, an initial resume of the same run is accepted until that checkpoint is there. */
  method Start(disk: Disk<Entry>, id: seq<byte>, resume: bool, state: seq<byte>, suffix: string, suffix2: string,
               mayStop: bool)
    returns (saved: bool)
    requires disk.Valid() && Starting(disk.files, id, |state|) && HexDigest(id) && |state| <= 4 * Gib
    modifies disk
    ensures disk.Valid() && old(disk.history) <= disk.history
      && StartedSince(disk.history, |old(disk.history)|, id, state)
    ensures StartedAt(disk.files, id, state)
    ensures saved ==> Published(disk.files, id, state)
    ensures resume && !disk.mayFail && !mayStop ==> saved
    ensures !resume && (forall e :: e in old(disk.files) ==> e == Lock) && !disk.mayFail && !mayStop ==> saved
  {
    ghost var from := |disk.history|;
    saved := Admit(disk, id, resume, state);
    if !saved { return; }
    ghost var h1 := disk.history;
    if mayStop {
      if * { return false; }
    }
    if resume {
      saved := RecoverStart(disk, id, state);
      StartJoin(h1, disk.history, from, id, state);
      if !saved { return; }
    } else {
      assert PendingIn(disk.files) == {};
    }
    ghost var h2 := disk.history;
    if Identity in disk.files && disk.files[Identity] != Marker(id) {
      assert StartEntry(disk.files, Identity, id, |state|);
      return false;
    }
    if mayStop {
      if * { return false; }
    }
    saved := CommitStart(disk, id, state, suffix, suffix2);
    StartJoin(h2, disk.history, from, id, state);
  }

  /** At every moment of a start, an initial resume is accepted exactly while the first checkpoint is missing. */
  lemma AcceptedUntilPublished(f: Files, id: seq<byte>, state: seq<byte>)
    requires StartedAt(f, id, state) && HexDigest(id) && |state| <= 4 * Gib
    ensures Eligible(f) <==> StateFile(0) !in f
  {
    if StateFile(0) in f {
      PublishedIsRefused(f);
    } else {
      StartingIsEligible(f, id, |state|);
    }
  }

  /** A run that is started, then resumed from its start after each stop, for any number of stops at any step and any
      I/O errors: no checkpoint is published but the step-zero state, and once one start is left alone it is there. */
  method StartUntilSaved(id: seq<byte>, state: seq<byte>, stops: nat, suffixes: (nat, nat) -> string)
    returns (files: Files, attempts: nat)
    requires HexDigest(id) && |state| <= 4 * Gib
    ensures Published(files, id, state) && attempts <= stops
  {
    files, attempts := map[], 0;
    while attempts < stops
      invariant Starting(files, id, |state|) && attempts <= stops
    {
      var disk := new Disk(files, true);
      var saved := Start(disk, id, attempts > 0, state, suffixes(attempts, 0), suffixes(attempts, 1), true);
      var k: nat :| k < |disk.history|;
      files := disk.history[k];
      if StateFile(0) in files { return; }
      attempts := attempts + 1;
    }
    var disk := new Disk(files, false);
    var saved := Start(disk, id, true, state, suffixes(stops, 0), suffixes(stops, 1), false);
    files := disk.files;
  }
}
