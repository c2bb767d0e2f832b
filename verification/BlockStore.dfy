/** Publication into a block store by pending file and rename. */
module BlockStore {
  import opened Bytes
  import opened StoreFiles
  import opened Disks

  function PendingOf(name: Name): Name
    requires name.Identity? || name.Block?
  {
    if name.Identity? then IdentityPending else BlockPending(name.key)
  }

  /** The states a publication of `content` under `name` can pass through, from f0. */
  ghost predicate Publishing(f0: Files, name: Name, content: seq<byte>, f: Files)
    requires name.Identity? || name.Block?
  {
    Replacing(f0, PendingOf(name), name, content, f)
  }

  ghost predicate PublishingSince(history: seq<Files>, from: nat, f0: Files, name: Name, content: seq<byte>)
    requires name.Identity? || name.Block?
  {
    forall i :: from <= i < |history| ==> Publishing(f0, name, content, history[i])
  }

  /** `publish`. */
  method Publish(disk: Disk<Name>, name: Name, content: seq<byte>) returns (ok: bool)
    requires disk.Valid() && (name.Identity? || name.Block?)
    modifies disk
    ensures disk.Valid() && old(disk.history) <= disk.history
    ensures PublishingSince(disk.history, |old(disk.history)|, old(disk.files), name, content)
    ensures Publishing(old(disk.files), name, content, disk.files)
    ensures ok ==> disk.files == old(disk.files)[name := content]
    ensures !ok ==> disk.mayFail || PendingOf(name) in old(disk.files)
  {
    ok := ReplaceFile(disk, PendingOf(name), name, content, true);
  }
}
