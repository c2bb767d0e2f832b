/** The files of a block store: names, block encoding, and what a directory may hold after any stop. */
module StoreFiles {
  import opened Bytes

  /** 64 lower-case hex digits, as `sha256` prints them. */
  type Digest = d: seq<byte> | |d| == 64 witness seq(64, _ => 48)

  type Hash = (Digest, string, nat, seq<Word>) -> Digest

  /** A directory entry, classified as the scan does. The lock file is not listed. */
  datatype Name = Identity | IdentityPending | Block(key: string) | BlockPending(key: string) | Foreign(text: string)

  type Files = map<Name, seq<byte>>

  datatype Limits = Limits(blockBytes: nat, totalBytes: nat, blocks: nat)

  /** Everything that identifies one store: checksum function, identity and limits. */
  datatype Store = Store(hash: Hash, id: Digest, limits: Limits)

  const HeaderSize: nat := 160

  predicate ValidLimits(l: Limits) {
    && 4 <= l.blockBytes <= 32 * 1024 * 1024
    && HeaderSize + 4 <= l.totalBytes <= 2 * 1024 * 1024 * 1024
    && 1 <= l.blocks <= 4096
  }

  predicate KeyChar(c: char) { 'a' <= c <= 'z' || '0' <= c <= '9' || c == '_' || c == '-' }

  predicate ValidKey(key: string) {
    1 <= |key| <= 64 && forall i :: 0 <= i < |key| ==> KeyChar(key[i])
  }

  function Manifest(id: Digest): (m: seq<byte>)
    ensures |m| == 85
  {
    Ascii("RESONANTIA_BLOCKS 1") + [10] + id + [10]
  }

  lemma ManifestInjective(a: Digest, b: Digest)
    requires Manifest(a) == Manifest(b)
    ensures a == b
  {
    assert Manifest(a)[20..84] == a && Manifest(b)[20..84] == b;
  }

  // ---------------------------------------------------------------- one block

  function Header(st: Store, key: string, offset: nat, data: seq<Word>): (h: seq<byte>)
    ensures |h| == HeaderSize
  {
    Ascii("RSBLK001") + st.id + PutLe(offset, 8) + PutLe(|data|, 8) + st.hash(st.id, key, offset, data) + PutLe(0, 8)
  }

  function BlockBytes(st: Store, key: string, offset: nat, data: seq<Word>): (b: seq<byte>)
    ensures |b| == HeaderSize + 4 * |data|
  {
    Header(st, key, offset, data) + PutWords(data)
  }

  /** What `save` may write: a non-empty finite payload within the block limit. */
  ghost predicate Storable(st: Store, key: string, offset: nat, data: seq<Word>) {
    && ValidKey(key) && offset < Pow256(8) && 0 < |data| && 4 * |data| <= st.limits.blockBytes && AllFinite(data)
  }

  ghost predicate IsBlock(st: Store, key: string, bytes: seq<byte>) {
    exists offset: nat, data: seq<Word> :: Storable(st, key, offset, data) && bytes == BlockBytes(st, key, offset, data)
  }

  // ---------------------------------------------------------------- a whole directory

  ghost function BlocksOf(f: Files): map<string, seq<byte>> {
    map key | key in BlockKeys(f) :: f[Block(key)]
  }

  ghost function BlockKeys(f: Files): (s: set<string>)
    ensures forall key :: key in s <==> Block(key) in f
  {
    set name | name in f && name.Block? :: name.key
  }

  /** Total size of the files in m. */
  ghost function Total(m: map<string, seq<byte>>): nat
    decreases |m|
  {
    if m == map[] then 0
    else var key :| key in m; |m[key]| + Total(m - {key})
  }

  lemma {:induction false} TotalRemove(m: map<string, seq<byte>>, key: string)
    requires key in m
    ensures Total(m) == |m[key]| + Total(m - {key})
    decreases |m|
  {
    var k :| k in m && Total(m) == |m[k]| + Total(m - {k});
    if k != key {
      TotalRemove(m - {k}, key);
      TotalRemove(m - {key}, k);
      assert m - {k} - {key} == m - {key} - {k};
    }
  }

  lemma TotalAdd(m: map<string, seq<byte>>, key: string, bytes: seq<byte>)
    requires key !in m
    ensures Total(m[key := bytes]) == Total(m) + |bytes| && |m[key := bytes]| == |m| + 1
  {
    TotalRemove(m[key := bytes], key);
    assert m[key := bytes] - {key} == m;
  }

  lemma {:induction false} TotalSubset(a: map<string, seq<byte>>, b: map<string, seq<byte>>)
    requires forall key :: key in a ==> key in b && a[key] == b[key]
    ensures Total(a) <= Total(b) && |a| <= |b|
    decreases |a|
  {
    if a != map[] {
      var key :| key in a;
      TotalRemove(a, key);
      TotalRemove(b, key);
      TotalSubset(a - {key}, b - {key});
      assert |a| == |a - {key}| + 1 && |b| == |b - {key}| + 1;
    }
  }

  predicate IsPending(name: Name) { name.IdentityPending? || name.BlockPending? }

  /** One entry as this store leaves it; a pending file may hold anything a torn write left, up to its final size. */
  ghost predicate EntryOk(st: Store, f: Files, name: Name)
    requires name in f
  {
    match name
    case Identity => f[name] == Manifest(st.id)
    case IdentityPending => Identity !in f && |f[name]| <= 256
    case Block(key) => Identity in f && IsBlock(st, key, f[name])
    case BlockPending(key) => Identity in f && ValidKey(key)
    case Foreign(_) => false
  }

  /** Every directory this store can leave behind, at rest or after a stop at any step. */
  ghost predicate Sound(st: Store, f: Files) {
    && ValidLimits(st.limits)
    && (forall name :: name in f ==> EntryOk(st, f, name))
    && (forall a, b :: a in f && b in f && IsPending(a) && IsPending(b) ==> a == b)
    && |BlocksOf(f)| <= st.limits.blocks && Total(BlocksOf(f)) <= st.limits.totalBytes
  }
}
