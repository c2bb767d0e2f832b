/** One open block store: the recovering scan, checked reads and idempotent saves. */
module BlockCheckpoints {
  import opened Spools
  import opened Bytes
  import opened StoreFiles
  import opened BlockStore
  import opened Disks

  // ---------------------------------------------------------------- reading one block

  /** The checks of `read` on the bytes of an existing block file. */
  function Decode(st: Store, key: string, offset: nat, count: nat, b: seq<byte>): Option<seq<Word>> {
    if |b| != HeaderSize + 4 * count then None else
    if b[..8] != Ascii("RSBLK001") || b[8..72] != st.id || GetLe(b[72..80]) != offset
       || GetLe(b[80..88]) != count || GetLe(b[152..160]) != 0 then None else
    var data := GetWords(b[160..]);
    if !AllFinite(data) || b[88..152] != st.hash(st.id, key, offset, data) then None else Some(data)
  }

  lemma Part(pre: seq<byte>, mid: seq<byte>, post: seq<byte>, h: seq<byte>)
    requires h == pre + mid + post
    ensures h[|pre|..|pre| + |mid|] == mid
  {
  }

  lemma HeaderParts(st: Store, key: string, offset: nat, data: seq<Word>)
    ensures var h := Header(st, key, offset, data);
      && h[..8] == Ascii("RSBLK001") && h[8..72] == st.id && h[72..80] == PutLe(offset, 8)
      && h[80..88] == PutLe(|data|, 8) && h[88..152] == st.hash(st.id, key, offset, data) && h[152..160] == PutLe(0, 8)
  {
    SixFields(Ascii("RSBLK001"), st.id, PutLe(offset, 8), PutLe(|data|, 8), st.hash(st.id, key, offset, data),
      PutLe(0, 8));
  }

  lemma SixFields(a: seq<byte>, b: seq<byte>, c: seq<byte>, d: seq<byte>, e: seq<byte>, g: seq<byte>)
    requires |a| == 8 && |b| == 64 && |c| == 8 && |d| == 8 && |e| == 64 && |g| == 8
    ensures var h := a + b + c + d + e + g;
      h[..8] == a && h[8..72] == b && h[72..80] == c && h[80..88] == d && h[88..152] == e && h[152..160] == g
  {
    var h := a + b + c + d + e + g;
    assert h == a + b + (c + d + e + g);
    Part(a, b, c + d + e + g, h);
    assert h == (a + b) + c + (d + e + g);
    Part(a + b, c, d + e + g, h);
    assert h == (a + b + c) + d + (e + g);
    Part(a + b + c, d, e + g, h);
    Part(a + b + c + d, e, g, h);
  }

  lemma BlockParts(st: Store, key: string, offset: nat, data: seq<Word>)
    ensures var b := BlockBytes(st, key, offset, data);
      && b[..8] == Ascii("RSBLK001") && b[8..72] == st.id && b[72..80] == PutLe(offset, 8)
      && b[80..88] == PutLe(|data|, 8) && b[88..152] == st.hash(st.id, key, offset, data) && b[152..160] == PutLe(0, 8)
      && b[160..] == PutWords(data)
  {
    HeaderParts(st, key, offset, data);
    var b, h := BlockBytes(st, key, offset, data), Header(st, key, offset, data);
    assert b[..160] == h;
    SlicePrefix(b, h, 0, 8);
    SlicePrefix(b, h, 8, 72);
    SlicePrefix(b, h, 72, 80);
    SlicePrefix(b, h, 80, 88);
    SlicePrefix(b, h, 88, 152);
    SlicePrefix(b, h, 152, 160);
  }

  lemma SlicePrefix(b: seq<byte>, h: seq<byte>, i: nat, j: nat)
    requires i <= j <= |h| <= |b| && b[..|h|] == h
    ensures b[i..j] == h[i..j]
  {
    var s, t := b[i..j], h[i..j];
    forall k | 0 <= k < j - i ensures s[k] == t[k] { assert b[..|h|][i + k] == b[i + k]; }
  }

  lemma SixParts(b: seq<byte>)
    requires |b| >= 160
    ensures b == b[..8] + b[8..72] + b[72..80] + b[80..88] + b[88..152] + b[152..160] + b[160..]
  {
  }

  /** A read returns a payload exactly when the file is the encoding of that payload: any other content is refused. */
  lemma DecodeExact(st: Store, key: string, offset: nat, count: nat, b: seq<byte>, data: seq<Word>)
    requires offset < Pow256(8) && count < Pow256(8)
    ensures Decode(st, key, offset, count, b) == Some(data)
      <==> b == BlockBytes(st, key, offset, data) && |data| == count && AllFinite(data)
  {
    if b == BlockBytes(st, key, offset, data) && |data| == count && AllFinite(data) {
      EncodeThenDecode(st, key, offset, data);
    }
    if Decode(st, key, offset, count, b) == Some(data) {
      DecodeThenEncode(st, key, offset, count, b);
    }
  }

  lemma EncodeThenDecode(st: Store, key: string, offset: nat, data: seq<Word>)
    requires offset < Pow256(8) && |data| < Pow256(8) && AllFinite(data)
    ensures Decode(st, key, offset, |data|, BlockBytes(st, key, offset, data)) == Some(data)
  {
    BlockParts(st, key, offset, data);
    GetPut(offset, 8);
    GetPut(|data|, 8);
    GetPut(0, 8);
    GetPutWords(data);
  }

  lemma DecodeThenEncode(st: Store, key: string, offset: nat, count: nat, b: seq<byte>)
    requires offset < Pow256(8) && count < Pow256(8) && Decode(st, key, offset, count, b).Some?
    ensures var data := Decode(st, key, offset, count, b).value;
      |data| == count && AllFinite(data) && b == BlockBytes(st, key, offset, data)
  {
    var data := Decode(st, key, offset, count, b).value;
    PutGet(b[72..80]);
    PutGet(b[80..88]);
    PutGet(b[152..160]);
    PutGetWords(b[160..]);
    FromParts(b, Ascii("RSBLK001"), st.id, PutLe(offset, 8), PutLe(count, 8), st.hash(st.id, key, offset, data),
      PutLe(0, 8), PutWords(data));
  }

  lemma FromParts(b: seq<byte>, magic: seq<byte>, id: seq<byte>, offset: seq<byte>, count: seq<byte>, hash: seq<byte>,
                  zero: seq<byte>, payload: seq<byte>)
    requires |b| >= 160 && b[..8] == magic && b[8..72] == id && b[72..80] == offset && b[80..88] == count
    requires b[88..152] == hash && b[152..160] == zero && b[160..] == payload
    ensures b == magic + id + offset + count + hash + zero + payload
  {
    SixParts(b);
  }

  // ---------------------------------------------------------------- the recovering scan

  datatype Mode = CreateNew | Resume | ReadOnly

  datatype Verdict = Skip | Drop | Count | Refuse

  /** What the scan does with one entry. */
  function Judge(st: Store, mode: Mode, initialize: bool, name: Name, size: nat): Verdict {
    if mode == CreateNew then Refuse
    else if name.Identity? then Skip
    else if initialize then (if name.IdentityPending? && size <= 256 then Skip else Refuse)
    else if name.BlockPending? && ValidKey(name.key) then (if mode == ReadOnly then Skip else Drop)
    else if !name.Block? || !ValidKey(name.key) || size < HeaderSize + 4 || size > HeaderSize + st.limits.blockBytes
      then Refuse
    else Count
  }

  /** f is f0 without some of its pending block files. */
  ghost predicate Pruned(f0: Files, f: Files) {
    && (forall name :: name in f ==> name in f0 && f[name] == f0[name])
    && (forall name :: name in f0 && name !in f ==> name.BlockPending?)
  }

  ghost predicate PrunedSince(history: seq<Files>, from: nat, f0: Files) {
    forall i :: from <= i < |history| ==> Pruned(f0, history[i])
  }

  lemma PrunedKeepsBlocks(f0: Files, f: Files)
    requires Pruned(f0, f)
    ensures BlocksOf(f) == BlocksOf(f0)
  {
  }

  lemma PrunedIsSound(st: Store, f0: Files, f: Files)
    requires Sound(st, f0) && Pruned(f0, f)
    ensures Sound(st, f)
  {
    PrunedKeepsBlocks(f0, f);
    forall name | name in f ensures EntryOk(st, f, name) { assert EntryOk(st, f0, name); }
  }

  lemma CardinalityBound<T>(a: set<T>, b: set<T>)
    requires a <= b
    ensures |a| <= |b|
  {
    assert b == a + (b - a);
  }

  lemma {:induction false} BlockNamesCount(f: Files, names: set<Name>)
    requires forall name :: name in names ==> name in f && name.Block?
    ensures |names| <= |BlocksOf(f)|
    decreases |names|
  {
    if names != {} {
      var name :| name in names;
      var g := f - {name};
      BlockNamesCount(g, names - {name});
      assert BlocksOf(f) == BlocksOf(g)[name.key := f[name]];
    }
  }

  lemma OnePending(names: set<Name>)
    requires forall a, b :: a in names && b in names ==> a == b
    ensures |names| <= 1
  {
    if names != {} {
      var a :| a in names;
      assert names == {a};
    }
  }

  /** A sound directory has far fewer entries than the scan bound of 8194. */
  lemma SoundIsSmall(st: Store, f: Files)
    requires Sound(st, f)
    ensures |f| <= 4098
  {
    var blocks := set name | name in f && name.Block?;
    var pending := set name | name in f && IsPending(name);
    forall name | name in f ensures name in blocks + pending + {Identity} { assert EntryOk(st, f, name); }
    BlockNamesCount(f, blocks);
    OnePending(pending);
    CardinalityBound(f.Keys, blocks + pending + {Identity});
  }

  /** Counters over the part of the directory already scanned. */
  ghost function SeenBlocks(f: Files, left: set<Name>): map<string, seq<byte>> {
    map key | key in BlockKeys(f) && Block(key) !in left :: f[Block(key)]
  }

  lemma SeenNone(f: Files)
    ensures SeenBlocks(f, f.Keys) == map[] && SeenBlocks(f, {}) == BlocksOf(f)
  {
  }

  lemma SeenOther(f: Files, left: set<Name>, name: Name)
    requires name in left && name in f && !name.Block?
    ensures SeenBlocks(f, left - {name}) == SeenBlocks(f, left)
  {
  }

  lemma SeenBlock(f: Files, left: set<Name>, key: string)
    requires Block(key) in left && Block(key) in f
    ensures var seen := SeenBlocks(f, left - {Block(key)});
      && |seen| == |SeenBlocks(f, left)| + 1 && Total(seen) == Total(SeenBlocks(f, left)) + |f[Block(key)]|
      && |seen| <= |BlocksOf(f)| && Total(seen) <= Total(BlocksOf(f))
  {
    var seen := SeenBlocks(f, left - {Block(key)});
    assert seen == SeenBlocks(f, left)[key := f[Block(key)]];
    TotalAdd(SeenBlocks(f, left), key, f[Block(key)]);
    TotalSubset(seen, BlocksOf(f));
  }

  /** Every entry of a sound directory is accepted by a resume. */
  lemma SoundEntryAccepted(st: Store, f: Files, name: Name)
    requires Sound(st, f) && name in f
    ensures Judge(st, Resume, Identity !in f, name, |f[name]|) != Refuse
  {
    assert EntryOk(st, f, name);
  }

  /** The counters and the surviving files of a scan that has dealt with every name outside `left`. */
  ghost predicate ScanState(st: Store, mode: Mode, initialize: bool, f0: Files, left: set<Name>, f: Files, blocks: nat,
                            bytes: nat) {
    && left <= f0.Keys
    && blocks == |SeenBlocks(f0, left)| && bytes == Total(SeenBlocks(f0, left))
    && blocks <= st.limits.blocks && bytes <= st.limits.totalBytes
    && (forall name :: name in f ==> name in f0 && f[name] == f0[name])
    && (forall name :: name in f0 ==> EntryScanned(st, mode, initialize, f0, left, f, name))
  }

  ghost predicate EntryScanned(st: Store, mode: Mode, initialize: bool, f0: Files, left: set<Name>, f: Files,
                               name: Name)
    requires name in f0
  {
    var v := Judge(st, mode, initialize, name, |f0[name]|);
    if name in left then name in f else v != Refuse && (name in f <==> v != Drop)
  }

  lemma ScanStart(st: Store, mode: Mode, initialize: bool, f0: Files)
    requires ValidLimits(st.limits)
    ensures ScanState(st, mode, initialize, f0, f0.Keys, f0, 0, 0)
  {
    SeenNone(f0);
  }

  /** What the disk, the counters and the error flag become when one entry has been dealt with. */
  lemma ScanOther(st: Store, mode: Mode, initialize: bool, f0: Files, left: set<Name>, f: Files, blocks: nat,
                  bytes: nat, name: Name, next: Files)
    requires ScanState(st, mode, initialize, f0, left, f, blocks, bytes) && name in left
    requires Judge(st, mode, initialize, name, |f0[name]|) == if name in next then Skip else Drop
    requires next == f || next == f - {name}
    ensures ScanState(st, mode, initialize, f0, left - {name}, next, blocks, bytes)
  {
    SeenOther(f0, left, name);
    forall other | other in f0
      ensures EntryScanned(st, mode, initialize, f0, left - {name}, next, other)
    {
      assert EntryScanned(st, mode, initialize, f0, left, f, other);
    }
  }

  lemma ScanCount(st: Store, mode: Mode, initialize: bool, f0: Files, left: set<Name>, f: Files, blocks: nat,
                  bytes: nat, name: Name)
    requires ScanState(st, mode, initialize, f0, left, f, blocks, bytes) && name in left
    requires Judge(st, mode, initialize, name, |f0[name]|) == Count
    ensures blocks + 1 <= |BlocksOf(f0)| && bytes + |f0[name]| <= Total(BlocksOf(f0))
    ensures blocks + 1 <= st.limits.blocks && bytes + |f0[name]| <= st.limits.totalBytes ==>
      ScanState(st, mode, initialize, f0, left - {name}, f, blocks + 1, bytes + |f0[name]|)
  {
    SeenBlock(f0, left, name.key);
    forall other | other in f0
      ensures EntryScanned(st, mode, initialize, f0, left - {name}, f, other)
    {
      assert EntryScanned(st, mode, initialize, f0, left, f, other);
    }
  }

  lemma ScanPruned(st: Store, mode: Mode, initialize: bool, f0: Files, left: set<Name>, f: Files, blocks: nat,
                   bytes: nat)
    requires ScanState(st, mode, initialize, f0, left, f, blocks, bytes)
    ensures Pruned(f0, f)
    ensures forall name :: name in left ==> name in f && f[name] == f0[name]
  {
    forall name | name in f0 && name !in f ensures name.BlockPending? {
      assert EntryScanned(st, mode, initialize, f0, left, f, name);
    }
    forall name | name in left ensures name in f {
      assert EntryScanned(st, mode, initialize, f0, left, f, name);
    }
  }

  /** Directories no scan may refuse. */
  ghost predicate Scannable(st: Store, mode: Mode, initialize: bool, f: Files) {
    match mode
    case CreateNew => f == map[]
    case Resume => Sound(st, f) && (initialize <==> Identity !in f)
    case ReadOnly => false
  }

  ghost predicate OverLimit(st: Store, f: Files) {
    |BlocksOf(f)| > st.limits.blocks || Total(BlocksOf(f)) > st.limits.totalBytes
  }

  lemma SureEntry(st: Store, mode: Mode, initialize: bool, f: Files, name: Name)
    requires Scannable(st, mode, initialize, f) && name in f
    ensures |f| <= 4098 && Judge(st, mode, initialize, name, |f[name]|) != Refuse && !OverLimit(st, f)
  {
    SoundEntryAccepted(st, f, name);
    SoundIsSmall(st, f);
  }

  lemma PrunedMore(h1: seq<Files>, h2: seq<Files>, from: nat, f0: Files, f: Files)
    requires from <= |h1| && PrunedSince(h1, from, f0) && Pruned(f0, f) && (h2 == h1 || h2 == h1 + [f])
    ensures PrunedSince(h2, from, f0)
  {
  }

  /** The directory scan of the constructor: refuse anything foreign, drop pending blocks, count the rest. */
  method Scan(disk: Disk<Name>, st: Store, mode: Mode, initialize: bool) returns (ok: bool, blocks: nat, bytes: nat)
    requires disk.Valid() && ValidLimits(st.limits)
    modifies disk
    ensures disk.Valid() && old(disk.history) <= disk.history
    ensures PrunedSince(disk.history, |old(disk.history)|, old(disk.files)) && Pruned(old(disk.files), disk.files)
    ensures mode != Resume ==> disk.files == old(disk.files) && disk.history == old(disk.history)
    ensures ok ==> ScanState(st, mode, initialize, old(disk.files), {}, disk.files, blocks, bytes)
    ensures !disk.mayFail && Scannable(st, mode, initialize, old(disk.files)) ==> ok
  {
    ghost var f0, h0 := disk.files, disk.history;
    blocks, bytes := 0, 0;
    var scanned := 0;
    var names := disk.files.Keys;
    ScanStart(st, mode, initialize, f0);
    while names != {}
      invariant disk.Valid() && h0 <= disk.history && scanned + |names| == |f0|
      invariant PrunedSince(disk.history, |h0|, f0)
      invariant mode != Resume ==> disk.files == f0 && disk.history == h0
      invariant ScanState(st, mode, initialize, f0, names, disk.files, blocks, bytes)
      decreases |names|
    {
      ScanPruned(st, mode, initialize, f0, names, disk.files, blocks, bytes);
      var name :| name in names;
      if Scannable(st, mode, initialize, f0) { SureEntry(st, mode, initialize, f0, name); }
      scanned := scanned + 1;
      if scanned > 8194 { return false, blocks, bytes; }
      ghost var h1 := disk.history;
      var ok1;
      ok1, blocks, bytes := ScanEntry(disk, st, mode, initialize, f0, names, name, blocks, bytes);
      PrunedMore(h1, disk.history, |h0|, f0, disk.files);
      if !ok1 { return false, blocks, bytes; }
      names := names - {name};
    }
    ScanPruned(st, mode, initialize, f0, names, disk.files, blocks, bytes);
    ok := true;
  }

  /** The loop body of the scan. */
  method ScanEntry(disk: Disk<Name>, st: Store, mode: Mode, initialize: bool, ghost f0: Files, ghost left: set<Name>,
                   name: Name, blocks0: nat, bytes0: nat) returns (ok: bool, blocks: nat, bytes: nat)
    requires disk.Valid() && name in disk.files && name in left
    requires ScanState(st, mode, initialize, f0, left, disk.files, blocks0, bytes0)
    modifies disk
    ensures disk.Valid() && Pruned(f0, disk.files)
    ensures if disk.history == old(disk.history) then disk.files == old(disk.files)
      else disk.history == old(disk.history) + [disk.files]
    ensures mode != Resume ==> disk.history == old(disk.history)
    ensures ok ==> ScanState(st, mode, initialize, f0, left - {name}, disk.files, blocks, bytes)
    ensures !ok ==> disk.mayFail || Judge(st, mode, initialize, name, |f0[name]|) == Refuse || OverLimit(st, f0)
  {
    ScanPruned(st, mode, initialize, f0, left, disk.files, blocks0, bytes0);
    blocks, bytes := blocks0, bytes0;
    var size := |disk.files[name]|;
    match Judge(st, mode, initialize, name, size) {
      case Refuse => ok := false;
      case Skip =>
        ScanOther(st, mode, initialize, f0, left, disk.files, blocks, bytes, name, disk.files);
        ok := true;
      case Drop =>
        ScanOther(st, mode, initialize, f0, left, disk.files, blocks, bytes, name, disk.files - {name});
        ScanPruned(st, mode, initialize, f0, left - {name}, disk.files - {name}, blocks, bytes);
        ok := disk.Unlink(name);
      case Count =>
        ScanCount(st, mode, initialize, f0, left, disk.files, blocks, bytes, name);
        blocks := blocks + 1;
        ok := blocks <= st.limits.blocks && size <= st.limits.totalBytes - bytes;
        if ok { bytes := bytes + size; }
    }
  }

  // ---------------------------------------------------------------- what every intermediate state keeps

  ghost predicate AllSound(st: Store, history: seq<Files>, from: nat) {
    forall i :: from <= i < |history| ==> Sound(st, history[i])
  }

  ghost predicate BlocksKept(history: seq<Files>, from: nat, blocks: map<string, seq<byte>>) {
    forall i :: from <= i < |history| ==> BlocksOf(history[i]) == blocks
  }

  /** At rest: the identity is published and nothing is pending. */
  ghost predicate Settled(st: Store, f: Files) {
    Identity in f && f[Identity] == Manifest(st.id) && forall name :: name in f ==> name.Identity? || name.Block?
  }

  lemma BlocksPut(f: Files, key: string, content: seq<byte>)
    ensures BlocksOf(f[Block(key) := content]) == BlocksOf(f)[key := content]
  {
  }

  lemma BlocksPending(f: Files, name: Name, content: seq<byte>)
    requires !name.Block?
    ensures BlocksOf(f[name := content]) == BlocksOf(f)
  {
  }

  lemma PublishBlocks(f0: Files, key: string, content: seq<byte>, f: Files)
    requires Publishing(f0, Block(key), content, f)
    ensures if f == f0[Block(key) := content] then BlocksOf(f) == BlocksOf(f0)[key := content]
      else BlocksOf(f) == BlocksOf(f0)
  {
    if f == f0[Block(key) := content] {
      BlocksPut(f0, key, content);
    } else if f != f0 {
      BlocksPending(f0, BlockPending(key), f[BlockPending(key)]);
    }
  }

  /** Any torn publication of a new block within the limits leaves a sound directory. */
  lemma PublishIsSound(st: Store, f0: Files, key: string, offset: nat, data: seq<Word>, f: Files)
    requires Sound(st, f0) && Settled(st, f0) && Block(key) !in f0 && Storable(st, key, offset, data)
    requires Fits(st, |BlocksOf(f0)|, Total(BlocksOf(f0)), data)
    requires Publishing(f0, Block(key), BlockBytes(st, key, offset, data), f)
    ensures Sound(st, f)
  {
    PublishTotals(f0, key, BlockBytes(st, key, offset, data), f);
    PublishPending(st, f0, key, BlockBytes(st, key, offset, data), f);
    forall name | name in f ensures EntryOk(st, f, name) {
      PublishEntry(st, f0, key, offset, data, f, name);
    }
  }

  lemma PublishTotals(f0: Files, key: string, content: seq<byte>, f: Files)
    requires Publishing(f0, Block(key), content, f) && Block(key) !in f0
    ensures |BlocksOf(f)| <= |BlocksOf(f0)| + 1 && Total(BlocksOf(f)) <= Total(BlocksOf(f0)) + |content|
    ensures f == f0[Block(key) := content] || BlocksOf(f) == BlocksOf(f0)
  {
    PublishBlocks(f0, key, content, f);
    TotalAdd(BlocksOf(f0), key, content);
  }

  lemma PublishPending(st: Store, f0: Files, key: string, content: seq<byte>, f: Files)
    requires Publishing(f0, Block(key), content, f) && Settled(st, f0)
    ensures forall a :: a in f && IsPending(a) ==> a == BlockPending(key)
    ensures f == f0[Block(key) := content] ==> forall a :: a in f ==> !IsPending(a)
  {
  }

  lemma PublishEntry(st: Store, f0: Files, key: string, offset: nat, data: seq<Word>, f: Files, name: Name)
    requires Sound(st, f0) && Settled(st, f0) && Storable(st, key, offset, data)
    requires Publishing(f0, Block(key), BlockBytes(st, key, offset, data), f) && name in f
    ensures EntryOk(st, f, name)
  {
    if name in f0 { assert EntryOk(st, f0, name); }
  }

  lemma EmptySound(st: Store)
    requires ValidLimits(st.limits)
    ensures BlocksOf(map[]) == map[] && Sound(st, map[])
  {
  }

  lemma IdentityIsSound(st: Store, f: Files)
    requires ValidLimits(st.limits) && Publishing(map[], Identity, Manifest(st.id), f)
    ensures Sound(st, f) && BlocksOf(f) == map[]
  {
    assert BlocksOf(f) == map[];
  }

  // ---------------------------------------------------------------- the open store

  datatype Loaded = Missing | Present(data: seq<Word>) | Bad

  datatype SaveOutcome = Saved | Kept | Rejected | Broken

  datatype Boundary = Continue | Paused | Stopped

  class BlockCheckpoint {
    const disk: Disk<Name>
    const st: Store
    const readOnly: bool
    var bytes: nat
    var hits: nat
    var blocks: nat
    var healthy: bool

    constructor (disk: Disk<Name>, st: Store, readOnly: bool, blocks: nat, bytes: nat)
      ensures this.disk == disk && this.st == st && this.readOnly == readOnly
      ensures this.blocks == blocks && this.bytes == bytes && hits == 0 && healthy
    {
      this.disk, this.st, this.readOnly := disk, st, readOnly;
      this.blocks, this.bytes, hits, healthy := blocks, bytes, 0, true;
    }

    /** While healthy the counters equal the directory contents and stay within the limits. */
    ghost predicate Valid()
      reads this, disk
    {
      && disk.Valid() && ValidLimits(st.limits)
      && (healthy ==>
        && blocks == |BlocksOf(disk.files)| && bytes == Total(BlocksOf(disk.files))
        && blocks <= st.limits.blocks && bytes <= st.limits.totalBytes
        && (!readOnly ==> Settled(st, disk.files)))
    }

    /** `read`: a missing file is a miss; anything but the exact encoding is refused. */
    method Read(key: string, offset: nat, count: nat) returns (r: Loaded)
      requires Valid()
      ensures r == if healthy then Lookup(st, disk.files, key, offset, count) else Bad
    {
      if !healthy || !ValidKey(key) || count == 0 || count > st.limits.blockBytes / 4 { return Bad; }
      if Block(key) !in disk.files { return Missing; }
      var file := disk.files[Block(key)];
      if |file| != HeaderSize + 4 * count { return Bad; }
      var h := file[..HeaderSize];
      HeaderSlices(file);
      if h[..8] != Ascii("RSBLK001") || h[8..72] != st.id || GetLe(h[72..80]) != offset
         || GetLe(h[80..88]) != count || GetLe(h[152..160]) != 0 { return Bad; }
      var data := GetWords(file[HeaderSize..]);
      if !AllFinite(data) { return Bad; }
      if h[88..152] != st.hash(st.id, key, offset, data) { return Bad; }
      r := Present(data);
    }

    method Load(key: string, offset: nat, count: nat) returns (r: Loaded)
      requires Valid()
      modifies `hits
      ensures Valid() && hits == old(hits) + if r.Present? then 1 else 0
      ensures r == if healthy then Lookup(st, disk.files, key, offset, count) else Bad
    {
      r := Read(key, offset, count);
      if r.Present? { hits := hits + 1; }
    }

    /** `save`: an equal block is kept, a different one refused, and a new one published within the limits. */
    method Save(key: string, offset: nat, data: seq<Word>) returns (outcome: SaveOutcome)
      requires Valid() && offset < Pow256(8)
      modifies this, disk
      ensures Valid() && old(disk.history) <= disk.history && hits == old(hits)
      ensures outcome.Rejected? || outcome.Kept? ==>
        && disk.files == old(disk.files) && disk.history == old(disk.history)
        && blocks == old(blocks) && bytes == old(bytes) && healthy == old(healthy)
      ensures outcome == (if readOnly || !Storable(st, key, offset, data) || !old(healthy) then Rejected
                          else if Block(key) in old(disk.files) then
                            (if old(disk.files)[Block(key)] == BlockBytes(st, key, offset, data) then Kept
                              else Rejected)
                          else if !Fits(st, old(blocks), old(bytes), data) then Rejected
                          else if healthy then Saved else Broken)
      ensures outcome.Saved? ==>
        && disk.files == old(disk.files)[Block(key) := BlockBytes(st, key, offset, data)]
        && blocks == old(blocks) + 1 && bytes == old(bytes) + HeaderSize + 4 * |data|
      ensures outcome.Saved? || outcome.Broken? ==>
        && PublishingSince(disk.history, |old(disk.history)|, old(disk.files), Block(key),
          BlockBytes(st, key, offset, data))
        && Publishing(old(disk.files), Block(key), BlockBytes(st, key, offset, data), disk.files)
      ensures outcome.Broken? ==> disk.mayFail
    {
      if readOnly { return Rejected; }
      if !ValidKey(key) || |data| == 0 || |data| > st.limits.blockBytes / 4 || !AllFinite(data) { return Rejected; }
      var existing := Read(key, offset, |data|);
      if !healthy { return Rejected; }
      LookupExact(st, disk.files, key, offset, data);
      if existing.Bad? { return Rejected; }
      if existing.Present? {
        if existing.data != data { return Rejected; }
        return Kept;
      }
      var size := HeaderSize + 4 * |data|;
      if blocks >= st.limits.blocks || size > st.limits.totalBytes - bytes { return Rejected; }
      outcome := PublishBlock(key, offset, data);
    }

    method PublishBlock(key: string, offset: nat, data: seq<Word>) returns (outcome: SaveOutcome)
      requires Valid() && healthy && !readOnly && Block(key) !in disk.files && Fits(st, blocks, bytes, data)
      modifies this, disk
      ensures Valid() && old(disk.history) <= disk.history && hits == old(hits)
      ensures outcome == if healthy then Saved else Broken
      ensures outcome.Saved? ==>
        && disk.files == old(disk.files)[Block(key) := BlockBytes(st, key, offset, data)]
        && blocks == old(blocks) + 1 && bytes == old(bytes) + HeaderSize + 4 * |data|
      ensures PublishingSince(disk.history, |old(disk.history)|, old(disk.files), Block(key),
        BlockBytes(st, key, offset, data))
      ensures Publishing(old(disk.files), Block(key), BlockBytes(st, key, offset, data), disk.files)
      ensures outcome.Broken? ==> disk.mayFail
    {
      ghost var before := disk.files;
      var ok := Publish(disk, Block(key), BlockBytes(st, key, offset, data));
      if !ok {
        healthy := false;
        return Broken;
      }
      BlocksPut(before, key, BlockBytes(st, key, offset, data));
      TotalAdd(BlocksOf(before), key, BlockBytes(st, key, offset, data));
      blocks := blocks + 1;
      bytes := bytes + HeaderSize + 4 * |data|;
      outcome := Saved;
    }

    /** `boundary`: a broken store stops the run; otherwise a requested pause takes effect here. */
    method AtBoundary(pauseRequested: bool) returns (b: Boundary)
      ensures b == if !healthy then Stopped else if pauseRequested then Paused else Continue
    {
      if !healthy { return Stopped; }
      b := if pauseRequested then Paused else Continue;
    }
  }

  predicate Fits(st: Store, blocks: nat, bytes: nat, data: seq<Word>) {
    blocks < st.limits.blocks && HeaderSize + 4 * |data| <= st.limits.totalBytes - bytes
  }

  /** What a healthy store answers for one key. */
  function Lookup(st: Store, f: Files, key: string, offset: nat, count: nat): Loaded {
    if !ValidKey(key) || count == 0 || 4 * count > st.limits.blockBytes then Bad
    else if Block(key) !in f then Missing
    else match Decode(st, key, offset, count, f[Block(key)])
      case None => Bad
      case Some(data) => Present(data)
  }

  /** A storable payload is answered exactly when the directory holds its encoding. */
  lemma LookupExact(st: Store, f: Files, key: string, offset: nat, data: seq<Word>)
    requires ValidLimits(st.limits) && Storable(st, key, offset, data)
    ensures var r := Lookup(st, f, key, offset, |data|);
      && (r == Present(data) <==> Block(key) in f && f[Block(key)] == BlockBytes(st, key, offset, data))
      && (r == Missing <==> Block(key) !in f)
  {
    Pow256Four();
    if Block(key) in f {
      DecodeExact(st, key, offset, |data|, f[Block(key)], data);
    }
  }

  lemma HeaderSlices(b: seq<byte>)
    requires |b| >= HeaderSize
    ensures var h := b[..HeaderSize];
      && h[..8] == b[..8] && h[8..72] == b[8..72] && h[72..80] == b[72..80] && h[80..88] == b[80..88]
      && h[88..152] == b[88..152] && h[152..160] == b[152..160]
  {
  }

  // ---------------------------------------------------------------- opening

  /** Every state since `from` keeps the committed blocks, and is sound if the directory was. */
  ghost predicate Harmless(st: Store, f0: Files, history: seq<Files>, from: nat, f: Files) {
    && BlocksKept(history, from, BlocksOf(f0)) && BlocksOf(f) == BlocksOf(f0)
    && (Sound(st, f0) ==> AllSound(st, history, from) && Sound(st, f))
  }

  lemma AfterScan(st: Store, f0: Files, history: seq<Files>, from: nat, f: Files)
    requires PrunedSince(history, from, f0) && Pruned(f0, f)
    ensures Harmless(st, f0, history, from, f)
  {
    PrunedKeepsBlocks(f0, f);
    forall i | from <= i < |history| ensures BlocksOf(history[i]) == BlocksOf(f0) { PrunedKeepsBlocks(f0, history[i]); }
    if Sound(st, f0) {
      PrunedIsSound(st, f0, f);
      forall i | from <= i < |history| ensures Sound(st, history[i]) { PrunedIsSound(st, f0, history[i]); }
    }
  }

  lemma HarmlessJoin(st: Store, f0: Files, h0: nat, mid: seq<Files>, f1: Files, history: seq<Files>, f2: Files)
    requires mid <= history && Harmless(st, f0, mid, h0, f1) && Harmless(st, f1, history, |mid|, f2)
    ensures Harmless(st, f0, history, h0, f2)
  {
    forall i | h0 <= i < |history| ensures BlocksOf(history[i]) == BlocksOf(f0) {
      if i < |mid| { assert history[i] == mid[i]; }
    }
    if Sound(st, f0) {
      forall i | h0 <= i < |history| ensures Sound(st, history[i]) { if i < |mid| { assert history[i] == mid[i]; } }
    }
  }

  /** A directory without blocks, between the empty one and the published identity. */
  predicate Bare(f: Files) { forall name :: name in f ==> name.IdentityPending? }

  lemma BareHasNoBlocks(f: Files)
    requires Bare(f)
    ensures BlocksOf(f) == map[] && f - {IdentityPending} == map[]
  {
  }

  lemma ScannedBare(st: Store, mode: Mode, f0: Files, f: Files, blocks: nat, bytes: nat)
    requires ScanState(st, mode, true, f0, {}, f, blocks, bytes) && Identity !in f && mode != ReadOnly
    ensures Bare(f) && blocks == 0 && bytes == 0 && (mode == CreateNew ==> f == map[])
  {
    forall name | name in f0 ensures (name.IdentityPending? && mode == Resume) || name.Identity? {
      assert EntryScanned(st, mode, true, f0, {}, f, name);
    }
    assert SeenBlocks(f0, {}) == map[];
  }

  /** Publication of the identity in a bare directory, after removing a torn one. */
  method Initialize(disk: Disk<Name>, st: Store, mode: Mode) returns (ok: bool)
    requires disk.Valid() && ValidLimits(st.limits) && Bare(disk.files)
    requires mode == CreateNew ==> disk.files == map[]
    modifies disk
    ensures disk.Valid() && old(disk.history) <= disk.history
    ensures Harmless(st, old(disk.files), disk.history, |old(disk.history)|, disk.files)
    ensures ok ==> disk.files == map[Identity := Manifest(st.id)]
    ensures !ok ==> disk.mayFail
  {
    ghost var f0, h0 := disk.files, disk.history;
    BareHasNoBlocks(f0);
    EmptySound(st);
    if IdentityPending in disk.files {
      ok := disk.Unlink(IdentityPending);
      if !ok { return false; }
    }
    assert disk.files == map[];
    ghost var h1 := disk.history;
    assert Harmless(st, f0, h1, |h0|, map[]);
    ok := Publish(disk, Identity, Manifest(st.id));
    IdentityHarmless(st, disk.history, |h1|, disk.files);
    HarmlessJoin(st, f0, |h0|, h1, map[], disk.history, disk.files);
  }

  lemma IdentityHarmless(st: Store, history: seq<Files>, from: nat, f: Files)
    requires ValidLimits(st.limits)
    requires PublishingSince(history, from, map[], Identity, Manifest(st.id))
      && Publishing(map[], Identity, Manifest(st.id), f)
    ensures Harmless(st, map[], history, from, f)
  {
    EmptySound(st);
    IdentityIsSound(st, f);
    forall i | from <= i < |history| ensures Sound(st, history[i]) && BlocksOf(history[i]) == map[] {
      IdentityIsSound(st, history[i]);
    }
  }

  lemma ScannedSettled(st: Store, f0: Files, f: Files, blocks: nat, bytes: nat)
    requires ScanState(st, Resume, false, f0, {}, f, blocks, bytes) && Identity in f0 && f0[Identity] == Manifest(st.id)
    ensures Settled(st, f)
  {
    forall name | name in f0 ensures name !in f || name.Identity? || name.Block? {
      assert EntryScanned(st, Resume, false, f0, {}, f, name);
    }
    assert EntryScanned(st, Resume, false, f0, {}, f, Identity);
  }

  /** The directories a creation or a resume must accept. */
  ghost predicate Acceptable(st: Store, mode: Mode, f: Files) {
    match mode
    case CreateNew => f == map[]
    case Resume => Sound(st, f)
    case ReadOnly => false
  }

  /** What the counters of a store opened over f start from. */
  ghost predicate Ready(st: Store, mode: Mode, f: Files, blocks: nat, bytes: nat) {
    && blocks == |BlocksOf(f)| && bytes == Total(BlocksOf(f))
    && blocks <= st.limits.blocks && bytes <= st.limits.totalBytes
    && (mode != ReadOnly ==> Settled(st, f))
  }

  /** No state since `from` lacks the identity. */
  ghost predicate IdentityKept(history: seq<Files>, from: nat) {
    forall i :: from <= i < |history| ==> Identity in history[i]
  }

  method ScanStore(disk: Disk<Name>, st: Store, mode: Mode) returns (ok: bool, blocks: nat, bytes: nat)
    requires disk.Valid() && ValidLimits(st.limits)
    requires mode != CreateNew && Identity in disk.files && disk.files[Identity] == Manifest(st.id)
    modifies disk
    ensures disk.Valid() && old(disk.history) <= disk.history
    ensures Harmless(st, old(disk.files), disk.history, |old(disk.history)|, disk.files)
    ensures mode == ReadOnly ==> disk.files == old(disk.files) && disk.history == old(disk.history)
    ensures IdentityKept(disk.history, |old(disk.history)|) && Identity in disk.files
    ensures ok ==> Ready(st, mode, disk.files, blocks, bytes)
    ensures !disk.mayFail && mode == Resume && Sound(st, old(disk.files)) ==> ok
  {
    ghost var f0, h0 := disk.files, disk.history;
    ok, blocks, bytes := Scan(disk, st, mode, false);
    AfterScan(st, f0, disk.history, |h0|, disk.files);
    SeenNone(f0);
    if ok && mode == Resume {
      ScannedSettled(st, f0, disk.files, blocks, bytes);
    }
  }

  method ScanNewStore(disk: Disk<Name>, st: Store, mode: Mode) returns (ok: bool)
    requires disk.Valid() && ValidLimits(st.limits)
    requires mode == CreateNew || (mode == Resume && Identity !in disk.files)
    modifies disk
    ensures disk.Valid() && old(disk.history) <= disk.history
    ensures Harmless(st, old(disk.files), disk.history, |old(disk.history)|, disk.files)
    ensures ok ==> Ready(st, mode, disk.files, 0, 0) && (mode == CreateNew ==> old(disk.files) == map[])
    ensures Identity in old(disk.files) ==> !ok && disk.files == old(disk.files) && disk.history == old(disk.history)
    ensures !disk.mayFail && Acceptable(st, mode, old(disk.files)) ==> ok
  {
    ghost var f0, h0 := disk.files, disk.history;
    var blocks, bytes;
    ok, blocks, bytes := Scan(disk, st, mode, true);
    AfterScan(st, f0, disk.history, |h0|, disk.files);
    if !ok { return; }
    ScannedNothing(st, mode, f0, disk.files, blocks, bytes);
    ScannedBare(st, mode, f0, disk.files, blocks, bytes);
    ghost var f1, h1 := disk.files, disk.history;
    ok := Initialize(disk, st, mode);
    HarmlessJoin(st, f0, |h0|, h1, f1, disk.history, disk.files);
    EmptySound(st);
    if ok { BlocksPending(map[], Identity, Manifest(st.id)); }
  }

  lemma ScannedNothing(st: Store, mode: Mode, f0: Files, f: Files, blocks: nat, bytes: nat)
    requires ScanState(st, mode, true, f0, {}, f, blocks, bytes) && mode != ReadOnly
    ensures mode == CreateNew ==> f0 == map[] && f == map[]
  {
    forall name | name in f0 ensures mode != CreateNew {
      assert EntryScanned(st, mode, true, f0, {}, f, name);
    }
    SubsetEmpty(f0, f);
  }

  lemma SubsetEmpty(f0: Files, f: Files)
    ensures f0.Keys == {} && f.Keys <= f0.Keys ==> f0 == map[] && f == map[]
  {
  }

  /** The constructor: identity check, recovering scan and, for a directory without identity, its publication.
      Whatever the directory held, no committed block changes in any intermediate state. */
  method Open(disk: Disk<Name>, st: Store, mode: Mode) returns (r: Option<BlockCheckpoint>)
    requires disk.Valid()
    modifies disk
    ensures disk.Valid() && old(disk.history) <= disk.history
    ensures Harmless(st, old(disk.files), disk.history, |old(disk.history)|, disk.files)
    ensures mode == ReadOnly ==> disk.files == old(disk.files) && disk.history == old(disk.history)
    ensures Identity in old(disk.files) && old(disk.files)[Identity] != Manifest(st.id) ==>
      r.None? && disk.files == old(disk.files) && disk.history == old(disk.history)
    ensures Identity in old(disk.files) ==> IdentityKept(disk.history, |old(disk.history)|) && Identity in disk.files
    ensures ValidLimits(st.limits) && !disk.mayFail && Acceptable(st, mode, old(disk.files)) ==> r.Some?
    ensures r.Some? && mode == CreateNew ==> old(disk.files) == map[]
    ensures r.Some? ==> fresh(r.value) && r.value.Valid() && r.value.disk == disk && r.value.st == st
    ensures r.Some? ==> r.value.healthy && r.value.hits == 0 && r.value.readOnly == (mode == ReadOnly)
  {
    if !ValidLimits(st.limits) { return None; }
    var ok, blocks, bytes := false, 0, 0;
    if mode == CreateNew || (mode == Resume && Identity !in disk.files) {
      ok := ScanNewStore(disk, st, mode);
    } else {
      if Identity !in disk.files || disk.files[Identity] != Manifest(st.id) { return None; }
      ok, blocks, bytes := ScanStore(disk, st, mode);
    }
    if ok && mode != ReadOnly { ok := disk.Sync(); }
    if !ok { return None; }
    var store := new BlockCheckpoint(disk, st, mode == ReadOnly, blocks, bytes);
    r := Some(store);
  }
}
