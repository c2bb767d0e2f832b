/** A block store used by a deterministic computation: every block it ever holds is one
    the computation would produce, in every state a stop can leave behind. */
module TrueStore {
  import opened Spools
  import opened Bytes
  import opened StoreFiles
  import opened BlockStore
  import opened Disks
  import opened BlockCheckpoints

  /** truth(key, offset, data): the computation files `data` at `offset` under `key`. */
  type Truth = (string, nat, seq<Word>) -> bool

  ghost predicate SameBlock(truth: Truth, key: string, o: nat, d: seq<Word>, o2: nat, d2: seq<Word>) {
    truth(key, o, d) && truth(key, o2, d2) ==> o == o2 && d == d2
  }

  /** Each key names at most one block. */
  ghost predicate Functional(truth: Truth) {
    forall key, o: nat, d, o2: nat, d2 :: SameBlock(truth, key, o, d, o2, d2)
  }

  ghost predicate TrueBlock(truth: Truth, st: Store, key: string, bytes: seq<byte>) {
    exists o: nat, d: seq<Word> :: truth(key, o, d) && Storable(st, key, o, d) && bytes == BlockBytes(st, key, o, d)
  }

  ghost predicate Truthful(truth: Truth, st: Store, blocks: map<string, seq<byte>>) {
    forall key :: key in blocks ==> TrueBlock(truth, st, key, blocks[key])
  }

  ghost predicate Good(truth: Truth, st: Store, f: Files) {
    Sound(st, f) && Truthful(truth, st, BlocksOf(f))
  }

  ghost predicate GoodSince(truth: Truth, st: Store, history: seq<Files>, from: nat) {
    forall i :: from <= i < |history| ==> Good(truth, st, history[i])
  }

  /** The limits leave room for every further block of the computation. */
  ghost predicate Ample(truth: Truth, st: Store) {
    forall f, key, o: nat, d :: RoomFor(truth, st, f, key, o, d)
  }

  ghost predicate RoomFor(truth: Truth, st: Store, f: Files, key: string, o: nat, d: seq<Word>) {
    truth(key, o, d) ==>
      Storable(st, key, o, d) && (Good(truth, st, f) && Block(key) !in f ==>
        Fits(st, |BlocksOf(f)|, Total(BlocksOf(f)), d))
  }

  ghost predicate Usable(truth: Truth, store: BlockCheckpoint)
    reads store, store.disk
  {
    store.Valid() && store.healthy && !store.readOnly && Good(truth, store.st, store.disk.files)
  }

  lemma BlockBytesInjective(st: Store, key: string, o: nat, d: seq<Word>, o2: nat, d2: seq<Word>)
    requires o < Pow256(8) && o2 < Pow256(8) && BlockBytes(st, key, o, d) == BlockBytes(st, key, o2, d2)
    ensures o == o2 && d == d2
  {
    BlockParts(st, key, o, d);
    BlockParts(st, key, o2, d2);
    GetPut(o, 8);
    GetPut(o2, 8);
    GetPutWords(d);
    GetPutWords(d2);
  }

  /** What a truthful directory answers for a key. */
  lemma TrueAnswer(truth: Truth, st: Store, f: Files, key: string, offset: nat, count: nat)
    requires Good(truth, st, f) && offset < Pow256(8) && Lookup(st, f, key, offset, count).Present?
    ensures var data := Lookup(st, f, key, offset, count).data;
      truth(key, offset, data) && |data| == count && AllFinite(data)
  {
    var data := Lookup(st, f, key, offset, count).data;
    Pow256Four();
    DecodeExact(st, key, offset, count, f[Block(key)], data);
    assert key in BlocksOf(f) && TrueBlock(truth, st, key, BlocksOf(f)[key]);
    var o: nat, d :| truth(key, o, d) && Storable(st, key, o, d) && f[Block(key)] == BlockBytes(st, key, o, d);
    BlockBytesInjective(st, key, o, d, offset, data);
  }

  /** A block of the computation is either missing or answered exactly. */
  lemma TrueAnswers(truth: Truth, st: Store, f: Files, key: string, offset: nat, data: seq<Word>)
    requires Functional(truth) && Good(truth, st, f) && truth(key, offset, data) && Storable(st, key, offset, data)
    ensures var r := Lookup(st, f, key, offset, |data|);
      if Block(key) in f then r == Present(data) && f[Block(key)] == BlockBytes(st, key, offset, data) else r == Missing
  {
    LookupExact(st, f, key, offset, data);
    if Block(key) in f {
      assert key in BlocksOf(f) && TrueBlock(truth, st, key, BlocksOf(f)[key]);
      var o: nat, d :| truth(key, o, d) && Storable(st, key, o, d) && f[Block(key)] == BlockBytes(st, key, o, d);
      assert SameBlock(truth, key, o, d, offset, data);
    }
  }

  method Fetch(store: BlockCheckpoint, ghost truth: Truth, key: string, offset: nat, count: nat) returns (r: Loaded)
    requires Usable(truth, store) && Functional(truth) && offset < Pow256(8)
    modifies store`hits
    ensures Usable(truth, store)
    ensures r == Lookup(store.st, store.disk.files, key, offset, count)
    ensures r.Present? ==> truth(key, offset, r.data) && |r.data| == count && AllFinite(r.data)
    ensures r.Bad? ==> forall data :: truth(key, offset, data) && |data| == count ==>
      !Storable(store.st, key, offset, data)
  {
    r := store.Load(key, offset, count);
    if r.Present? { TrueAnswer(truth, store.st, store.disk.files, key, offset, count); }
    forall data | truth(key, offset, data) && |data| == count && Storable(store.st, key, offset, data) ensures !r.Bad? {
      TrueAnswers(truth, store.st, store.disk.files, key, offset, data);
    }
  }

  /** A torn or completed publication of a true block keeps the directory good. */
  lemma PublishIsGood(truth: Truth, st: Store, f0: Files, key: string, offset: nat, data: seq<Word>, f: Files)
    requires Good(truth, st, f0) && Settled(st, f0) && Block(key) !in f0 && Storable(st, key, offset, data)
    requires truth(key, offset, data) && Fits(st, |BlocksOf(f0)|, Total(BlocksOf(f0)), data)
    requires Publishing(f0, Block(key), BlockBytes(st, key, offset, data), f)
    ensures Good(truth, st, f)
  {
    PublishIsSound(st, f0, key, offset, data, f);
    PublishBlocks(f0, key, BlockBytes(st, key, offset, data), f);
    assert TrueBlock(truth, st, key, BlockBytes(st, key, offset, data));
    TruthfulPut(truth, st, BlocksOf(f0), key, BlockBytes(st, key, offset, data));
  }

  lemma TruthfulPut(truth: Truth, st: Store, blocks: map<string, seq<byte>>, key: string, bytes: seq<byte>)
    requires Truthful(truth, st, blocks) && TrueBlock(truth, st, key, bytes)
    ensures Truthful(truth, st, blocks[key := bytes])
  {
  }

  method FileBlock(store: BlockCheckpoint, ghost truth: Truth, key: string, offset: nat, data: seq<Word>)
    returns (outcome: SaveOutcome)
    requires Usable(truth, store) && Functional(truth) && truth(key, offset, data) && offset < Pow256(8)
    modifies store, store.disk
    ensures store.disk.Valid() && old(store.disk.history) <= store.disk.history
    ensures GoodSince(truth, store.st, store.disk.history, |old(store.disk.history)|)
    ensures Good(truth, store.st, store.disk.files)
    ensures outcome.Broken? ==> store.disk.mayFail
    ensures !outcome.Broken? ==> Usable(truth, store)
    ensures outcome.Rejected? ==> !Ample(truth, store.st)
    ensures outcome.Saved? || outcome.Kept? ==>
      Block(key) in store.disk.files && old(store.disk.files).Keys <= store.disk.files.Keys
  {
    var st := store.st;
    ghost var f0, h0 := store.disk.files, store.disk.history;
    outcome := store.Save(key, offset, data);
    if outcome.Saved? || outcome.Broken? {
      PublishedGood(truth, st, f0, key, offset, data, store.disk.history, |h0|, store.disk.files);
    } else if outcome.Rejected? {
      Refused(truth, st, f0, key, offset, data);
    }
  }

  /** A refused save of a true block means the limits were not ample. */
  lemma Refused(truth: Truth, st: Store, f0: Files, key: string, offset: nat, data: seq<Word>)
    requires Good(truth, st, f0) && Functional(truth) && truth(key, offset, data)
    requires Storable(st, key, offset, data) ==>
      if Block(key) in f0 then f0[Block(key)] != BlockBytes(st, key, offset, data)
      else !Fits(st, |BlocksOf(f0)|, Total(BlocksOf(f0)), data)
    ensures !Ample(truth, st)
  {
    if Ample(truth, st) {
      assert RoomFor(truth, st, f0, key, offset, data);
      TrueAnswers(truth, st, f0, key, offset, data);
    }
  }

  lemma PublishedGood(truth: Truth, st: Store, f0: Files, key: string, offset: nat, data: seq<Word>,
                      history: seq<Files>, from: nat, f: Files)
    requires Good(truth, st, f0) && Settled(st, f0) && Block(key) !in f0 && Storable(st, key, offset, data)
    requires truth(key, offset, data) && Fits(st, |BlocksOf(f0)|, Total(BlocksOf(f0)), data)
    requires PublishingSince(history, from, f0, Block(key), BlockBytes(st, key, offset, data))
    requires Publishing(f0, Block(key), BlockBytes(st, key, offset, data), f)
    ensures GoodSince(truth, st, history, from) && Good(truth, st, f)
  {
    PublishIsGood(truth, st, f0, key, offset, data, f);
    forall i | from <= i < |history| ensures Good(truth, st, history[i]) {
      PublishIsGood(truth, st, f0, key, offset, data, history[i]);
    }
  }

  /** Opening a good directory keeps it good in every intermediate state. */
  method OpenGood(disk: Disk<Name>, ghost truth: Truth, st: Store, mode: Mode) returns (r: Option<BlockCheckpoint>)
    requires disk.Valid() && ValidLimits(st.limits) && mode != ReadOnly
    requires if mode == CreateNew then disk.files == map[] else Good(truth, st, disk.files)
    modifies disk
    ensures disk.Valid() && old(disk.history) <= disk.history
    ensures GoodSince(truth, st, disk.history, |old(disk.history)|) && Good(truth, st, disk.files)
    ensures r.Some? ==> fresh(r.value) && r.value.disk == disk && r.value.st == st && Usable(truth, r.value)
    ensures !disk.mayFail ==> r.Some?
  {
    ghost var f0 := disk.files;
    if mode == CreateNew { EmptySound(st); }
    r := Open(disk, st, mode);
  }
}
