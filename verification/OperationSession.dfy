/** A checkpointed operation: an owner store that carries its identity, and one store for each of its stages. */
module OperationSession {
  import opened Spools
  import opened Bytes
  import opened StoreFiles
  import opened BlockStore
  import opened BlockCheckpoints
  import opened Disks

  /** The checkpoint root: its directories by name, none while the root itself is missing. */
  type Root = Option<map<string, Files>>

  /** The checksum function, the identity of the operation and the identity each stage derives from it. */
  datatype Operation = Operation(hash: Hash, id: Digest, stageId: (Digest, string) -> Digest)

  const Owner: string := "owner"

  const DefaultLimits: Limits := Limits(32 * 1024 * 1024, 2 * 1024 * 1024 * 1024, 4096)

  function StoreOf(op: Operation, key: string): Store {
    Store(op.hash, if key == Owner then op.id else op.stageId(op.id, key), DefaultLimits)
  }

  predicate HasIdentity(dirs: map<string, Files>) { Owner in dirs && Identity in dirs[Owner] }

  ghost predicate Unseal(k: int) { true }

  /** `Sound`, unfolded on request only. */
  ghost predicate Sealed(st: Store, f: Files) { forall k {:trigger Unseal(k)} :: Unseal(k) ==> Sound(st, f) }

  /** Every directory is sound for this operation, and no stage precedes the identity of the owner. */
  ghost predicate SoundRoot(op: Operation, root: Root) {
    root.Some? ==>
      && (forall key :: key in root.value ==> Sealed(StoreOf(op, key), root.value[key]))
      && (forall key :: key in root.value && key != Owner ==> HasIdentity(root.value))
  }

  ghost predicate SoundRoots(op: Operation, seen: seq<Root>) { forall i :: 0 <= i < |seen| ==> SoundRoot(op, seen[i]) }

  function OtherDirectories(root: Root, key: string): map<string, Files> {
    if root.None? then map[] else root.value - {key}
  }

  /** No state of `seen` touched a directory other than `key`. */
  ghost predicate OthersKept(root: Root, key: string, seen: seq<Root>) {
    forall i :: 0 <= i < |seen| ==> OtherDirectories(seen[i], key) == OtherDirectories(root, key)
  }

  /** The states of the root while one of its directories goes through `history`. */
  function RootsOf(dirs: map<string, Files>, key: string, history: seq<Files>): (seen: seq<Root>)
    ensures |seen| == |history|
    ensures forall i :: 0 <= i < |history| ==> seen[i] == Some(dirs[key := history[i]])
  {
    seq(|history|, i requires 0 <= i < |history| => Some(dirs[key := history[i]]))
  }

  lemma DirectorySound(op: Operation, dirs: map<string, Files>, key: string, f: Files)
    requires SoundRoot(op, Some(dirs)) && Sealed(StoreOf(op, key), f)
    requires if key == Owner then HasIdentity(dirs) ==> Identity in f else HasIdentity(dirs)
    ensures SoundRoot(op, Some(dirs[key := f]))
  {
    var next := dirs[key := f];
    forall k | k in next ensures Sealed(StoreOf(op, k), next[k]) {}
    if exists k :: k in next && k != Owner { IdentityThere(dirs, key, f); }
  }

  lemma IdentityThere(dirs: map<string, Files>, key: string, f: Files)
    requires if key == Owner then HasIdentity(dirs) ==> Identity in f else HasIdentity(dirs)
    ensures HasIdentity(dirs) ==> HasIdentity(dirs[key := f])
  {}

  lemma OthersSame(dirs: map<string, Files>, key: string, f: Files)
    ensures OtherDirectories(Some(dirs[key := f]), key) == OtherDirectories(Some(dirs), key)
  {
    assert dirs - {key} == dirs[key := f] - {key};
  }

  ghost predicate AllSealed(st: Store, history: seq<Files>) {
    forall i :: 0 <= i < |history| ==> Sealed(st, history[i])
  }

  lemma DirectoriesSound(op: Operation, dirs: map<string, Files>, key: string, history: seq<Files>)
    requires SoundRoot(op, Some(dirs)) && AllSealed(StoreOf(op, key), history)
    requires if key == Owner then HasIdentity(dirs) ==> forall i :: 0 <= i < |history| ==>
      Identity in history[i] else HasIdentity(dirs)
    ensures SoundRoots(op, RootsOf(dirs, key, history)) && OthersKept(Some(dirs), key, RootsOf(dirs, key, history))
  {
    forall i | 0 <= i < |history| ensures SoundRoot(op, Some(dirs[key := history[i]])) {
      DirectorySound(op, dirs, key, history[i]);
    }
    forall i | 0 <= i < |history|
      ensures OtherDirectories(Some(dirs[key := history[i]]), key) == OtherDirectories(Some(dirs), key)
    {
      OthersSame(dirs, key, history[i]);
    }
  }

  /** The mode the owner is opened in; none when a resume is refused. */
  function OwnerMode(root: Root, resume: bool): Option<Mode> {
    if !resume then Some(CreateNew)
    else if root.None? then None
    else if HasIdentity(root.value) then Some(Resume)
    else if exists key :: key in root.value && key != Owner then None
    else if Owner !in root.value then Some(CreateNew)
    else Some(Resume)
  }

  /** A root this operation may be started in: none yet, or one whose owner directory is still empty. */
  predicate Startable(root: Root, resume: bool) {
    if resume then root.Some? else root.None? || Owner !in root.value || root.value[Owner] == map[]
  }

  // ---------------------------------------------------------------- one directory

  /** Every state of one directory is sound and loses none of its blocks. */
  ghost predicate Kept(st: Store, f0: Files, history: seq<Files>) {
    AllSealed(st, history) && forall i :: 0 <= i < |history| ==> Grown(f0, history[i])
  }

  /** g still has every block of f, unchanged. */
  ghost predicate Grown(f: Files, g: Files) {
    forall key :: Block(key) in f ==> Block(key) in g && g[Block(key)] == f[Block(key)]
  }

  lemma SameBlocks(f: Files, g: Files)
    requires BlocksOf(f) == BlocksOf(g)
    ensures Grown(f, g)
  {
    forall key | Block(key) in f ensures Block(key) in g && g[Block(key)] == f[Block(key)] {
      assert key in BlocksOf(f) && BlocksOf(f)[key] == f[Block(key)];
      assert key in BlocksOf(g) && BlocksOf(g)[key] == g[Block(key)];
    }
  }

  lemma OpenKeeps(st: Store, f0: Files, history: seq<Files>, f: Files)
    requires Sealed(st, f0) && |history| > 0 && history[0] == f0 && Harmless(st, f0, history, 1, f)
    ensures Kept(st, f0, history)
  {
    OpenSound(st, f0, history, f);
    forall i | 0 <= i < |history| ensures Grown(f0, history[i]) {
      if i > 0 { SameBlocks(f0, history[i]); }
    }
  }

  lemma OpenSound(st: Store, f0: Files, history: seq<Files>, f: Files)
    requires Sealed(st, f0) && |history| > 0 && history[0] == f0 && Harmless(st, f0, history, 1, f)
    ensures AllSealed(st, history)
  {
    Seal(st, f0);
    forall i | 0 <= i < |history| ensures Sealed(st, history[i]) {
      if i > 0 { Seal(st, history[i]); }
    }
  }

  lemma Seal(st: Store, f: Files)
    ensures Sealed(st, f) <==> Sound(st, f)
  {
    assert Unseal(0);
  }

  /** A directory that is created where it is missing, and its store opened. */
  method OpenDirectory(op: Operation, files: Files, key: string, mode: Mode, mayFail: bool)
    returns (store: Option<BlockCheckpoint>, disk: Disk<Name>)
    requires mode != ReadOnly
    ensures fresh(disk) && disk.Valid() && disk.mayFail == mayFail && disk.history[0] == files
    ensures Sealed(StoreOf(op, key), files) ==> Kept(StoreOf(op, key), files, disk.history)
    ensures Identity in files ==> forall i :: 0 <= i < |disk.history| ==> Identity in disk.history[i]
    ensures Identity in files && files[Identity] != Manifest(StoreOf(op, key).id) ==>
      store.None? && disk.history == [files]
    ensures !mayFail && (if mode == CreateNew then files == map[] else Sealed(StoreOf(op, key), files)) ==> store.Some?
    ensures store.Some? ==>
      && fresh(store.value) && store.value.Valid() && store.value.disk == disk && store.value.st == StoreOf(op, key)
      && store.value.healthy && !store.value.readOnly && Identity in disk.history[|disk.history| - 1]
  {
    var st := StoreOf(op, key);
    disk := new Disk<Name>(files, mayFail);
    assert Unseal(0);
    store := Open(disk, st, mode);
    if Sealed(st, files) { OpenKeeps(st, files, disk.history, disk.files); }
  }

  /** Any number of saves into an open stage, of whatever its computation produces, until one fails. */
  method Work(store: BlockCheckpoint, f0: Files, saves: nat)
    requires store.Valid() && store.healthy && !store.readOnly && store.st.limits == DefaultLimits
    requires Kept(store.st, f0, store.disk.history)
    modifies store, store.disk
    ensures store.Valid() && Kept(store.st, f0, store.disk.history)
  {
    var k := 0;
    while k < saves && store.healthy
      invariant store.Valid() && Kept(store.st, f0, store.disk.history)
    {
      SaveAny(store, f0);
      k := k + 1;
    }
  }

  method SaveAny(store: BlockCheckpoint, f0: Files)
    requires store.Valid() && store.healthy && !store.readOnly && Kept(store.st, f0, store.disk.history)
    modifies store, store.disk
    ensures store.Valid() && Kept(store.st, f0, store.disk.history)
  {
    var key: string, offset: nat, data: seq<Word> := *, *, *;
    if offset >= Pow256(8) { return; }
    ghost var f, h := store.disk.files, store.disk.history;
    assert f == h[|h| - 1];
    var outcome := store.Save(key, offset, data);
    if outcome.Saved? || outcome.Broken? {
      SavedKeeps(store.st, f0, f, h, store.disk.history, key, offset, data);
    } else {
      assert store.disk.history == h;
    }
  }

  lemma SavedKeeps(st: Store, f0: Files, f: Files, h: seq<Files>, history: seq<Files>, key: string, offset: nat,
                   data: seq<Word>)
    requires Kept(st, f0, h) && |h| > 0 && f == h[|h| - 1] && h <= history && Settled(st, f)
    requires Block(key) !in f && Storable(st, key, offset, data) && Fits(st, |BlocksOf(f)|, Total(BlocksOf(f)), data)
    requires PublishingSince(history, |h|, f, Block(key), BlockBytes(st, key, offset, data))
    ensures Kept(st, f0, history)
  {
    assert Sealed(st, f) && Grown(f0, f);
    forall i | 0 <= i < |history| ensures Sealed(st, history[i]) && Grown(f0, history[i]) {
      if i < |h| {
        assert history[i] == h[i];
      } else {
        SavedState(st, f, key, offset, data, history[i]);
      }
    }
  }

  lemma SavedState(st: Store, f: Files, key: string, offset: nat, data: seq<Word>, g: Files)
    requires Sealed(st, f) && Settled(st, f) && Block(key) !in f && Storable(st, key, offset, data)
    requires Fits(st, |BlocksOf(f)|, Total(BlocksOf(f)), data)
      && Publishing(f, Block(key), BlockBytes(st, key, offset, data), g)
    ensures Sealed(st, g) && Grown(f, g)
  {
    Seal(st, f);
    PublishIsSound(st, f, key, offset, data, g);
    Seal(st, g);
    PublishGrows(f, key, BlockBytes(st, key, offset, data), g);
  }

  lemma PublishGrows(f: Files, key: string, content: seq<byte>, g: Files)
    requires Block(key) !in f && Publishing(f, Block(key), content, g)
    ensures Grown(f, g)
  {
  }

  // ---------------------------------------------------------------- one session

  /** Every directory of a is in b with all its blocks. */
  ghost predicate GrownRoot(a: Root, b: Root) {
    a.Some? ==> b.Some? && forall key :: key in a.value ==> key in b.value && Grown(a.value[key], b.value[key])
  }

  ghost predicate GrownRoots(root: Root, seen: seq<Root>) { forall i :: 0 <= i < |seen| ==> GrownRoot(root, seen[i]) }

  lemma GrownPut(dirs: map<string, Files>, key: string, f: Files)
    requires key in dirs ==> Grown(dirs[key], f)
    ensures GrownRoot(Some(dirs), Some(dirs[key := f]))
  {
    forall k | k in dirs ensures k in dirs[key := f] && Grown(dirs[k], dirs[key := f][k]) {}
  }

  /** The states of a root while one directory, created where it was missing, goes through `history`. */
  lemma DirectoryStates(op: Operation, dirs: map<string, Files>, key: string, history: seq<Files>)
    requires SoundRoot(op, Some(dirs)) && |history| > 0
    requires Kept(StoreOf(op, key), if key in dirs then dirs[key] else map[], history)
    requires if key == Owner then HasIdentity(dirs) ==> forall i :: 0 <= i < |history| ==>
      Identity in history[i] else HasIdentity(dirs)
    ensures SoundRoots(op, RootsOf(dirs, key, history)) && GrownRoots(Some(dirs), RootsOf(dirs, key, history))
    ensures OthersKept(Some(dirs), key, RootsOf(dirs, key, history))
  {
    DirectoriesSound(op, dirs, key, history);
    forall i | 0 <= i < |history| ensures GrownRoot(Some(dirs), Some(dirs[key := history[i]])) {
      GrownPut(dirs, key, history[i]);
    }
  }

  lemma EmptyDirectory(op: Operation, key: string)
    ensures Sealed(StoreOf(op, key), map[])
  {
    EmptySound(StoreOf(op, key));
  }

  /** Starting or resuming a session opens the owner, and touches nothing else. `seen` are the states of the root on
      the way. */
  method StartSession(op: Operation, root: Root, resume: bool, mayFail: bool)
    returns (owner: Option<BlockCheckpoint>, seen: seq<Root>)
    ensures |seen| > 0 && seen[0] == root
    ensures SoundRoot(op, root) ==> SoundRoots(op, seen) && GrownRoots(root, seen) && OthersKept(root, Owner, seen)
    ensures SoundRoot(op, root) && !mayFail && Startable(root, resume) ==> owner.Some?
    ensures owner.Some? ==> seen[|seen| - 1].Some? && HasIdentity(seen[|seen| - 1].value)
    ensures root.Some? && HasIdentity(root.value) && root.value[Owner][Identity] != Manifest(op.id) ==>
      owner.None? && forall i :: 0 <= i < |seen| ==> seen[i] == root
    ensures resume && root.Some? && !HasIdentity(root.value) && (exists key :: key in root.value && key != Owner) ==>
      owner.None? && seen == [root]
  {
    seen := [root];
    var mode := OwnerMode(root, resume);
    if mode.None? { return None, seen; }
    var dirs := if root.Some? then root.value else map[];
    if root.None? { seen := seen + [Some(dirs)]; }
    var first := seen;
    var rest;
    owner, rest := OpenOwner(op, dirs, mode.value, mayFail);
    seen := first + rest;
    if SoundRoot(op, root) { SessionStates(op, root, dirs, first, rest); }
  }

  /** The owner's directory and store, in the states of the root. */
  method OpenOwner(op: Operation, dirs: map<string, Files>, mode: Mode, mayFail: bool)
    returns (owner: Option<BlockCheckpoint>, seen: seq<Root>)
    requires mode != ReadOnly
    ensures |seen| > 0
    ensures SoundRoot(op, Some(dirs)) ==>
      SoundRoots(op, seen) && GrownRoots(Some(dirs), seen) && OthersKept(Some(dirs), Owner, seen)
    ensures SoundRoot(op, Some(dirs)) && !mayFail && (mode == CreateNew ==> Owner !in dirs || dirs[Owner] == map[]) ==>
      owner.Some?
    ensures owner.Some? ==> seen[|seen| - 1].Some? && HasIdentity(seen[|seen| - 1].value)
    ensures HasIdentity(dirs) && dirs[Owner][Identity] != Manifest(op.id) ==> owner.None? && seen == [Some(dirs)]
  {
    var files := if Owner in dirs then dirs[Owner] else map[];
    OwnerSealed(op, dirs, files);
    var disk;
    owner, disk := OpenDirectory(op, files, Owner, mode, mayFail);
    seen := RootsOf(dirs, Owner, disk.history);
    OwnerStates(op, dirs, files, disk.history, seen);
  }

  lemma OwnerSealed(op: Operation, dirs: map<string, Files>, files: Files)
    requires files == if Owner in dirs then dirs[Owner] else map[]
    ensures SoundRoot(op, Some(dirs)) ==> Sealed(StoreOf(op, Owner), files)
    ensures HasIdentity(dirs) <==> Identity in files
    ensures StoreOf(op, Owner).id == op.id
  {
    EmptyDirectory(op, Owner);
  }

  lemma OwnerStates(op: Operation, dirs: map<string, Files>, files: Files, history: seq<Files>, seen: seq<Root>)
    requires |history| > 0 && files == (if Owner in dirs then dirs[Owner] else map[])
      && seen == RootsOf(dirs, Owner, history)
    requires SoundRoot(op, Some(dirs)) ==> Kept(StoreOf(op, Owner), files, history)
    requires Identity in files ==> forall i :: 0 <= i < |history| ==> Identity in history[i]
    ensures SoundRoot(op, Some(dirs)) ==>
      SoundRoots(op, seen) && GrownRoots(Some(dirs), seen) && OthersKept(Some(dirs), Owner, seen)
    ensures Identity in history[|history| - 1] ==> seen[|seen| - 1].Some? && HasIdentity(seen[|seen| - 1].value)
    ensures Identity in files && history == [files] ==> seen == [Some(dirs)]
  {
    if SoundRoot(op, Some(dirs)) { DirectoryStates(op, dirs, Owner, history); }
    LastRoot(dirs, history);
    if Owner in dirs { SameOwner(dirs); }
  }

  lemma SameOwner(dirs: map<string, Files>)
    requires Owner in dirs
    ensures RootsOf(dirs, Owner, [dirs[Owner]]) == [Some(dirs)]
  {
    assert dirs[Owner := dirs[Owner]] == dirs;
  }

  lemma LastRoot(dirs: map<string, Files>, history: seq<Files>)
    requires |history| > 0
    ensures Identity in history[|history| - 1] ==>
      var last := RootsOf(dirs, Owner, history)[|history| - 1]; last.Some? && HasIdentity(last.value)
  {}

  lemma SessionStates(op: Operation, root: Root, dirs: map<string, Files>, first: seq<Root>, rest: seq<Root>)
    requires SoundRoot(op, root) && dirs == (if root.Some? then root.value else map[])
    requires first == (if root.Some? then [root] else [root, Some(dirs)])
    requires SoundRoots(op, rest) && GrownRoots(Some(dirs), rest) && OthersKept(Some(dirs), Owner, rest)
    ensures SoundRoots(op, first + rest) && GrownRoots(root, first + rest) && OthersKept(root, Owner, first + rest)
  {
    GrownItself(root);
    assert OtherDirectories(Some(dirs), Owner) == OtherDirectories(root, Owner);
    forall i | 0 <= i < |first + rest|
      ensures SoundRoot(op, (first + rest)[i]) && GrownRoot(root, (first + rest)[i])
        && OtherDirectories((first + rest)[i], Owner) == OtherDirectories(root, Owner)
    {
      if i >= |first| { assert (first + rest)[i] == rest[i - |first|]; }
    }
  }

  lemma GrownItself(root: Root)
    ensures GrownRoot(root, root)
  {}

  /** A stage is created on first use and resumed afterwards; the owner's own directory is held by the session. */
  method OpenStage(op: Operation, dirs: map<string, Files>, key: string, mayFail: bool)
    returns (stage: Option<BlockCheckpoint>, disk: Disk<Name>)
    requires HasIdentity(dirs)
    ensures fresh(disk) && disk.Valid() && |disk.history| > 0
    ensures !ValidKey(key) || key == Owner ==> stage.None? && disk.history == [if key in dirs then dirs[key] else map[]]
    ensures SoundRoot(op, Some(dirs)) && key != Owner ==>
      Kept(StoreOf(op, key), if key in dirs then dirs[key] else map[], disk.history)
    ensures SoundRoot(op, Some(dirs)) && !mayFail && ValidKey(key) && key != Owner ==> stage.Some?
    ensures stage.Some? ==>
      && fresh(stage.value) && stage.value.Valid() && stage.value.disk == disk && stage.value.st == StoreOf(op, key)
      && stage.value.healthy && !stage.value.readOnly
  {
    var files := if key in dirs then dirs[key] else map[];
    if !ValidKey(key) || key == Owner {
      disk := new Disk<Name>(files, mayFail);
      EmptyDirectory(op, key);
      return None, disk;
    }
    EmptyDirectory(op, key);
    stage, disk := OpenDirectory(op, files, key, if key in dirs then Resume else CreateNew, mayFail);
  }

  // ---------------------------------------------------------------- any number of sessions

  /** One stage of a session, and the state of the root it is stopped in. */
  method RunStage(op: Operation, dirs: map<string, Files>, key: string, mayFail: bool, saves: nat)
    returns (left: map<string, Files>)
    requires SoundRoot(op, Some(dirs)) && HasIdentity(dirs)
    ensures SoundRoot(op, Some(left)) && HasIdentity(left) && GrownRoot(Some(dirs), Some(left))
  {
    if !ValidKey(key) || key == Owner {
      GrownItself(Some(dirs));
      return dirs;
    }
    var stage, disk := OpenStage(op, dirs, key, mayFail);
    var files := if key in dirs then dirs[key] else map[];
    if stage.Some? { Work(stage.value, files, saves); }
    var at: nat :| at < |disk.history|;
    DirectorySound(op, dirs, key, disk.history[at]);
    GrownPut(dirs, key, disk.history[at]);
    left := dirs[key := disk.history[at]];
  }

  lemma GrownTrans(a: Root, b: Root, c: Root)
    requires GrownRoot(a, b) && GrownRoot(b, c)
    ensures GrownRoot(a, c)
  {
    if a.Some? {
      forall key | key in a.value ensures key in c.value && Grown(a.value[key], c.value[key]) {
        assert key in b.value && Grown(a.value[key], b.value[key]) && Grown(b.value[key], c.value[key]);
      }
    }
  }

  /** One session over any stages, stopped in any state the root goes through: what it leaves can be resumed, and
      every block that was committed is still there. */
  method Session(op: Operation, root: Root, resume: bool, mayFail: bool, stages: seq<string>, saves: nat)
    returns (left: Root)
    requires SoundRoot(op, root)
    ensures SoundRoot(op, left) && GrownRoot(root, left)
  {
    var owner, seen := StartSession(op, root, resume, mayFail);
    var at: nat :| at < |seen|;
    left := seen[at];
    if owner.None? || at + 1 < |seen| { return; }
    var dirs := left.value;
    var k := 0;
    while k < |stages|
      invariant SoundRoot(op, Some(dirs)) && HasIdentity(dirs) && GrownRoot(root, Some(dirs)) && left == Some(dirs)
    {
      ghost var before := dirs;
      dirs := RunStage(op, dirs, stages[k], mayFail, saves);
      GrownTrans(root, Some(before), Some(dirs));
      left := Some(dirs);
      var stopped: bool := *;
      if stopped { return; }
      k := k + 1;
    }
  }

  /** After any number of sessions of one operation, each stopped anywhere and free to meet I/O errors, a session
      without such errors resumes as soon as the root exists, and opens whichever stage is asked for. */
  method ResumeAlways(op: Operation, sessions: nat, stages: seq<string>, saves: nat, key: string)
    returns (root: Root, works: bool)
    ensures SoundRoot(op, root)
    ensures root.Some? && ValidKey(key) && key != Owner ==> works
  {
    root := None;
    var k := 0;
    while k < sessions
      invariant SoundRoot(op, root)
    {
      root := Session(op, root, root.Some?, true, stages, saves);
      k := k + 1;
    }
    works := false;
    if root.Some? {
      var owner, seen := StartSession(op, root, true, false);
      var stage, disk := OpenStage(op, seen[|seen| - 1].value, key, false);
      works := stage.Some?;
    }
  }
}
