/** A directory as a map from names to contents. The disk remembers every state it passed through, so a
    stop between any two steps is one of those states. */
module Disks {
  import opened Bytes

  class Disk<N(==)> {
    var files: map<N, seq<byte>>
    /** When false, no operation reports an I/O error. */
    const mayFail: bool
    var history: seq<map<N, seq<byte>>>

    constructor (files: map<N, seq<byte>>, mayFail: bool)
      ensures Valid() && this.files == files && this.mayFail == mayFail && history == [files]
    {
      this.files, this.mayFail, history := files, mayFail, [files];
    }

    ghost predicate Valid()
      reads this
    {
      |history| > 0 && history[|history| - 1] == files
    }

    /** Exclusive creation. */
    method Create(name: N) returns (ok: bool)
      requires Valid()
      modifies this
      ensures Valid()
      ensures ok ==> name !in old(files) && files == old(files)[name := []] && history == old(history) + [files]
      ensures !ok ==> files == old(files) && history == old(history)
      ensures !ok ==> mayFail || name in old(files)
    {
      if name in files { return false; }
      if mayFail {
        if * { return false; }
      }
      files := files[name := []];
      history := history + [files];
      ok := true;
    }

    /** One write call: some further part of the data reaches the file. */
    method Extend(name: N, part: seq<byte>) returns (ok: bool)
      requires Valid() && name in files
      modifies this
      ensures Valid()
      ensures ok ==> files == old(files)[name := old(files)[name] + part] && history == old(history) + [files]
      ensures !ok ==> mayFail && files == old(files) && history == old(history)
    {
      if mayFail {
        if * { return false; }
      }
      files := files[name := files[name] + part];
      history := history + [files];
      ok := true;
    }

    method Sync() returns (ok: bool)
      ensures !ok ==> mayFail
    {
      ok := true;
      if mayFail {
        if * { ok := false; }
      }
    }

    /** Atomic replacement of `to` by `from`. */
    method Rename(from: N, to: N) returns (ok: bool)
      requires Valid() && from in files && from != to
      modifies this
      ensures Valid()
      ensures ok ==> files == (old(files) - {from})[to := old(files)[from]] && history == old(history) + [files]
      ensures !ok ==> mayFail && files == old(files) && history == old(history)
    {
      if mayFail {
        if * { return false; }
      }
      files := (files - {from})[to := files[from]];
      history := history + [files];
      ok := true;
    }

    method Unlink(name: N) returns (ok: bool)
      requires Valid() && name in files
      modifies this
      ensures Valid()
      ensures ok ==> files == old(files) - {name} && history == old(history) + [files]
      ensures !ok ==> mayFail && files == old(files) && history == old(history)
    {
      if mayFail {
        if * { return false; }
      }
      files := files - {name};
      history := history + [files];
      ok := true;
    }
  }

  // ---------------------------------------------------------------- publication

  /** The states a replacement of `content` under `name` by way of `pending` can pass through, from f0. */
  ghost predicate Replacing<N>(f0: map<N, seq<byte>>, pending: N, name: N, content: seq<byte>, f: map<N, seq<byte>>) {
    || f == f0
    || f == f0[name := content]
    || (pending in f && f[pending] <= content && f == f0[pending := f[pending]])
  }

  ghost predicate ReplacingSince<N>(history: seq<map<N, seq<byte>>>, from: nat, f0: map<N, seq<byte>>, pending: N,
                                    name: N, content: seq<byte>) {
    forall i :: from <= i < |history| ==> Replacing(f0, pending, name, content, history[i])
  }

  /** Exclusive pending file, data in any number of writes, sync, rename, and a sync of the directory where it is asked
      for. A failed replacement may leave the old files, a torn pending file or, after the rename, the new file. */
  method ReplaceFile<N(==)>(disk: Disk<N>, pending: N, name: N, content: seq<byte>, syncDirectory: bool)
    returns (ok: bool)
    requires disk.Valid() && pending != name
    modifies disk
    ensures disk.Valid() && old(disk.history) <= disk.history
    ensures ReplacingSince(disk.history, |old(disk.history)|, old(disk.files), pending, name, content)
    ensures Replacing(old(disk.files), pending, name, content, disk.files)
    ensures ok ==> disk.files == old(disk.files)[name := content]
    ensures !ok ==> disk.mayFail || pending in old(disk.files)
  {
    ghost var f0, h0 := disk.files, disk.history;
    ok := disk.Create(pending);
    if !ok { return false; }
    var written := 0;
    while written < |content| && ok
      invariant disk.Valid() && h0 <= disk.history && written <= |content|
      invariant disk.files == f0[pending := content[..written]] && pending !in f0
      invariant ReplacingSince(disk.history, |h0|, f0, pending, name, content)
      invariant !ok ==> disk.mayFail
      decreases |content| - written, ok
    {
      var n: nat :| 0 < n <= |content| - written;
      ok := disk.Extend(pending, content[written..written + n]);
      if ok {
        assert content[..written] + content[written..written + n] == content[..written + n];
        written := written + n;
      }
    }
    if ok { ok := disk.Sync(); }
    if ok {
      assert content[..written] == content;
      ok := disk.Rename(pending, name);
      if ok {
        assert f0[pending := content] - {pending} == f0;
        if syncDirectory { ok := disk.Sync(); }
        return;
      }
    }
    var gone := disk.Unlink(pending);
    assert f0[pending := content[..written]] - {pending} == f0;
  }
}
