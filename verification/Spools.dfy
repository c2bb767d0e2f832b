/** Append-only sample storage with random reads, as the streamed stages use it. */
module Spools {

  datatype Option<+T> = None | Some(value: T)

  function Min(a: int, b: int): int { if a < b then a else b }

  function Max(a: int, b: int): int { if a < b then b else a }

  const IoBlock: nat := 8192

  class Spool<T> {
    var samples: seq<T>

    constructor ()
      ensures samples == []
    {
      samples := [];
    }

    method Append(block: seq<T>)
      modifies this
      ensures samples == old(samples) + block
    {
      samples := samples + block;
    }

    /** A read outside the stored range fails. */
    method Read(first: nat, count: nat) returns (block: Option<seq<T>>)
      ensures block.Some? <==> first + count <= |samples|
      ensures block.Some? ==> block.value == samples[first..first + count]
    {
      if first + count > |samples| { return None; }
      block := Some(samples[first..first + count]);
    }
  }

  /** A constant run, appended in blocks. */
  method AppendRepeated<T>(spool: Spool<T>, value: T, count: nat)
    modifies spool
    ensures spool.samples == old(spool.samples) + seq(count, _ => value)
  {
    var remaining := count;
    while remaining > 0
      invariant 0 <= remaining <= count
      invariant spool.samples == old(spool.samples) + seq(count - remaining, _ => value)
    {
      var take := Min(remaining, IoBlock);
      spool.Append(seq(take, _ => value));
      remaining := remaining - take;
    }
  }

  method CopySpool<T>(source: Spool<T>, destination: Spool<T>)
    requires source != destination
    modifies destination
    ensures destination.samples == old(destination.samples) + source.samples
  {
    var offset := 0;
    while offset < |source.samples|
      invariant offset <= |source.samples|
      invariant destination.samples == old(destination.samples) + source.samples[..offset]
    {
      var count := Min(IoBlock, |source.samples| - offset);
      var block := source.Read(offset, count);
      destination.Append(block.value);
      offset := offset + count;
    }
  }

  function Reverse<T>(s: seq<T>): (r: seq<T>)
    ensures |r| == |s|
    ensures forall i :: 0 <= i < |s| ==> r[i] == s[|s| - 1 - i]
  {
    seq(|s|, i requires 0 <= i < |s| => s[|s| - 1 - i])
  }
}
