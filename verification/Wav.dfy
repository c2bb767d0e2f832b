/** WAV files: the chunk walk, the decoding of frames, and the two readers built on them. Decoded
    samples are real numbers. */
module Wav {
  import opened Spools
  import opened Bytes

  const MaxChannels: nat := 256
  const DecodeBuffer: nat := 65536

  function U16(file: seq<byte>, at: nat): nat
    requires at + 2 <= |file|
  {
    GetLe(file[at..at + 2])
  }

  function U32(file: seq<byte>, at: nat): nat
    requires at + 4 <= |file|
  {
    GetLe(file[at..at + 4])
  }

  // ---------------------------------------------------------------- the chunks

  datatype Format = Format(audio: nat, channels: nat, rate: nat, byteRate: nat, align: nat, bits: nat)

  /** PCM16 or float32 with consistent sizes. */
  predicate ValidFormat(f: Format) {
    && ((f.audio == 1 && f.bits == 16) || (f.audio == 3 && f.bits == 32))
    && 0 < f.channels <= MaxChannels && 0 < f.rate <= 0x7fff_ffff
    && f.align == f.channels * (f.bits / 8) && f.rate * f.align < 0x1_0000_0000 && f.byteRate == f.rate * f.align
  }

  function FormatAt(file: seq<byte>, at: nat): Format
    requires at + 16 <= |file|
  {
    Format(U16(file, at), U16(file, at + 2), U32(file, at + 4), U32(file, at + 8), U16(file, at + 12),
      U16(file, at + 14))
  }

  datatype Chunk = Chunk(id: seq<byte>, data: nat, size: nat, next: nat)

  /** The chunk at `cursor`; None when it does not fit before the end, padding included. */
  function ChunkAt(file: seq<byte>, cursor: nat, end: nat): (c: Option<Chunk>)
    requires end <= |file|
    ensures c.Some? ==> c.value.data == cursor + 8 && c.value.data + c.value.size <= c.value.next <= end
  {
    if cursor + 8 > end then None else
    var size := U32(file, cursor + 4);
    var next := cursor + 8 + size + size % 2;
    if next > end then None else Some(Chunk(file[cursor..cursor + 4], cursor + 8, size, next))
  }

  datatype Data = Data(offset: nat, bytes: nat)

  /** What the walk has found so far. */
  datatype Found = Found(format: Option<Format>, data: Option<Data>)

  /** A chunk of each kind at most once; other chunks are skipped. */
  function Take(file: seq<byte>, c: Chunk, w: Found): Option<Found>
    requires c.data + c.size <= |file|
  {
    if c.id == Ascii("fmt ") then
      if w.format.Some? || c.size < 16 || !ValidFormat(FormatAt(file, c.data)) then None
      else Some(w.(format := Some(FormatAt(file, c.data))))
    else if c.id == Ascii("data") then
      if w.data.Some? then None else Some(w.(data := Some(Data(c.data, c.size))))
    else Some(w)
  }

  function Walk(file: seq<byte>, cursor: nat, end: nat, w: Found): Option<Found>
    requires end <= |file|
    decreases end - cursor
  {
    if cursor >= end then if cursor == end then Some(w) else None
    else
      var c := ChunkAt(file, cursor, end);
      if c.None? then None else
      var more := Take(file, c.value, w);
      if more.None? then None else Walk(file, c.value.next, end, more.value)
  }

  /** An opened file: its format and where its frames are. */
  datatype Meta = Meta(format: Format, data: Data, frames: nat)

  /** The end of the RIFF chunk; None for anything that is not a WAVE file. */
  function RiffEnd(file: seq<byte>): (end: Option<nat>)
    ensures end.Some? ==> 12 <= end.value <= |file|
  {
    if |file| < 12 || file[..4] != Ascii("RIFF") || file[8..12] != Ascii("WAVE") then None else
    var size := U32(file, 4);
    if size < 4 || 8 + size > |file| then None else Some(8 + size)
  }

  function Conclude(w: Found): Option<Meta> {
    if w.format.None? || w.data.None? || w.format.value.align == 0 then None
    else if w.data.value.bytes % w.format.value.align != 0 then None
    else Some(Meta(w.format.value, w.data.value, w.data.value.bytes / w.format.value.align))
  }

  /** What a file is taken for, by either reader. */
  function OpenWav(file: seq<byte>): Option<Meta> {
    var end := RiffEnd(file);
    if end.None? then None else
    var w := Walk(file, 12, end.value, Found(None, None));
    if w.None? then None else Conclude(w.value)
  }

  predicate FoundOk(file: seq<byte>, w: Found) {
    && (w.format.Some? ==> ValidFormat(w.format.value))
    && (w.data.Some? ==> w.data.value.offset + w.data.value.bytes <= |file|)
  }

  lemma {:induction false} WalkOk(file: seq<byte>, cursor: nat, end: nat, w: Found)
    requires end <= |file| && FoundOk(file, w) && Walk(file, cursor, end, w).Some?
    ensures FoundOk(file, Walk(file, cursor, end, w).value)
    decreases end - cursor
  {
    if cursor < end {
      var c := ChunkAt(file, cursor, end).value;
      WalkOk(file, c.next, end, Take(file, c, w).value);
    }
  }

  /** A chunk of any other kind is passed over with its padding byte, if it has one, and changes nothing; one that does
      not fit before the end is refused. */
  lemma {:induction false} OtherChunk(file: seq<byte>, cursor: nat, end: nat, w: Found, next: nat)
    requires end <= |file| && cursor + 8 <= end && next == PastChunk(cursor, GetLe(file[cursor + 4..cursor + 8]))
    requires file[cursor..cursor + 4] != Ascii("fmt ") && file[cursor..cursor + 4] != Ascii("data")
    ensures Walk(file, cursor, end, w) == if next <= end then Walk(file, next, end, w) else None
  {
    var c := ChunkAt(file, cursor, end);
    assert c.Some? <==> next <= end;
    if next <= end {
      assert c.value.next == next;
      assert Take(file, c.value, w) == Some(w);
    }
  }

  /** A second chunk of either kind is refused. */
  lemma {:induction false} SecondChunk(file: seq<byte>, cursor: nat, end: nat, w: Found)
    requires end <= |file| && cursor + 8 <= end
    requires (file[cursor..cursor + 4] == Ascii("fmt ") && w.format.Some?)
      || (file[cursor..cursor + 4] == Ascii("data") && w.data.Some?)
    ensures Walk(file, cursor, end, w).None?
  {
    TagsApart();
    var c := ChunkAt(file, cursor, end);
    if c.Some? { assert Take(file, c.value, w).None?; }
  }

  lemma TagsApart()
    ensures Ascii("fmt ") != Ascii("data")
  {
    assert Ascii("fmt ")[0] != Ascii("data")[0];
  }

  /** The place behind a chunk of that size and its padding byte. */
  function PastChunk(cursor: nat, size: nat): nat { cursor + 8 + if size % 2 == 1 then size + 1 else size }

  predicate MetaOk(file: seq<byte>, m: Meta) {
    && ValidFormat(m.format) && m.format.align > 0 && m.frames * m.format.align == m.data.bytes
    && m.data.offset + m.data.bytes <= |file|
  }

  lemma OpenOk(file: seq<byte>)
    requires OpenWav(file).Some?
    ensures MetaOk(file, OpenWav(file).value)
  {
    WalkOk(file, 12, RiffEnd(file).value, Found(None, None));
    var m := OpenWav(file).value;
    Divides(m.data.bytes, m.format.align);
  }

  lemma Divides(a: nat, b: nat)
    requires b > 0 && a % b == 0
    ensures a / b * b == a
  {
  }

  // ---------------------------------------------------------------- the frames

  /** How samples become real numbers: float bit patterns, the narrowing of a mix, and what is finite. */
  datatype Codec = Codec(float: Word -> real, narrow: real -> real, finite: real -> bool)

  /** A 16-bit pattern read as a signed number. */
  function Signed(bits: nat): int { if bits >= 0x8000 then bits - 0x1_0000 else bits }

  function SampleAt(c: Codec, file: seq<byte>, f: Format, at: nat): Option<real>
    requires ValidFormat(f) && at + f.bits / 8 <= |file|
  {
    if f.audio == 1 then Some(Signed(U16(file, at)) as real / 32768.0)
    else
      Pow256Four();
      var bits: Word := U32(file, at);
      if Finite(bits) then Some(c.float(bits)) else None
  }

  lemma FrameFits(f: Format, file: seq<byte>, at: nat, channel: nat)
    requires ValidFormat(f) && at + f.align <= |file| && channel < f.channels
    ensures at + channel * (f.bits / 8) + f.bits / 8 <= |file|
  {
    if f.bits == 16 { assert channel * 2 + 2 <= f.channels * 2; } else { assert channel * 4 + 4 <= f.channels * 4; }
  }

  /** The sum of the first n channels of the frame at `at`; None for a float that is not finite. */
  function MonoSum(c: Codec, file: seq<byte>, f: Format, at: nat, n: nat): Option<real>
    requires ValidFormat(f) && at + f.align <= |file| && n <= f.channels
  {
    if n == 0 then Some(0.0) else
    var before := MonoSum(c, file, f, at, n - 1);
    FrameFits(f, file, at, n - 1);
    var sample := SampleAt(c, file, f, at + (n - 1) * (f.bits / 8));
    if before.None? || sample.None? then None else Some(before.value + sample.value)
  }

  /** The mono mix of the frame at `at`. */
  function Mix(c: Codec, file: seq<byte>, f: Format, at: nat): Option<real>
    requires ValidFormat(f) && at + f.align <= |file|
  {
    var sum := MonoSum(c, file, f, at, f.channels);
    if sum.None? then None else Some(c.narrow(sum.value / f.channels as real))
  }

  /** Channel k of the frame at `at` holds v. */
  predicate ChannelIs(c: Codec, file: seq<byte>, f: Format, at: nat, k: nat, v: real)
    requires ValidFormat(f) && at + f.align <= |file| && k < f.channels
  {
    FrameFits(f, file, at, k);
    SampleAt(c, file, f, at + k * (f.bits / 8)) == Some(v)
  }

  predicate AllChannelsAre(c: Codec, file: seq<byte>, f: Format, at: nat, v: real)
    requires ValidFormat(f) && at + f.align <= |file|
  {
    forall k: nat :: k < f.channels ==> ChannelIs(c, file, f, at, k, v)
  }

  lemma ChannelAdds(c: Codec, file: seq<byte>, f: Format, at: nat, n: nat, sum: real, v: real)
    requires ValidFormat(f) && at + f.align <= |file| && n < f.channels
    requires MonoSum(c, file, f, at, n) == Some(sum) && ChannelIs(c, file, f, at, n, v)
    ensures MonoSum(c, file, f, at, n + 1) == Some(sum + v)
  {
    FrameFits(f, file, at, n);
  }

  /** v taken n times. */
  function Repeated(n: nat, v: real): real { if n == 0 then 0.0 else Repeated(n - 1, v) + v }

  lemma {:induction false} RepeatedIs(n: nat, v: real)
    ensures Repeated(n, v) == n as real * v
  {
    if n > 0 {
      RepeatedIs(n - 1, v);
      OneMore((n - 1) as real, v, Repeated(n - 1, v));
    }
  }

  lemma OneMore(n: real, v: real, sum: real)
    requires sum == n * v
    ensures sum + v == (n + 1.0) * v
  {
  }

  lemma Shared(n: nat, v: real)
    requires n > 0
    ensures Repeated(n, v) / n as real == v
  {
    RepeatedIs(n, v);
    var m := n as real;
    assert v * m / m == v;
  }

  lemma {:induction false} EqualSum(c: Codec, file: seq<byte>, f: Format, at: nat, n: nat, v: real)
    requires ValidFormat(f) && at + f.align <= |file| && n <= f.channels && AllChannelsAre(c, file, f, at, v)
    ensures MonoSum(c, file, f, at, n) == Some(Repeated(n, v))
  {
    if n > 0 {
      EqualSum(c, file, f, at, n - 1, v);
      ChannelAdds(c, file, f, at, n - 1, Repeated(n - 1, v), v);
    }
  }

  /** A frame that holds the same value in every channel is mixed to that value, however many they are. */
  lemma MixOfEqual(c: Codec, file: seq<byte>, f: Format, at: nat, v: real)
    requires ValidFormat(f) && at + f.align <= |file| && AllChannelsAre(c, file, f, at, v)
    ensures Mix(c, file, f, at) == Some(c.narrow(v))
  {
    EqualSum(c, file, f, at, f.channels, v);
    Shared(f.channels, v);
  }

  /** Two channels are mixed to the middle between them. */
  lemma MixOfTwo(c: Codec, file: seq<byte>, f: Format, at: nat, v: real, w: real)
    requires ValidFormat(f) && at + f.align <= |file| && f.channels == 2
    requires ChannelIs(c, file, f, at, 0, v) && ChannelIs(c, file, f, at, 1, w)
    ensures Mix(c, file, f, at) == Some(c.narrow((v + w) / 2.0))
  {
    ChannelAdds(c, file, f, at, 0, 0.0, v);
    ChannelAdds(c, file, f, at, 1, v, w);
    assert 0.0 + v == v;
  }

  function FrameOffset(m: Meta, k: nat): nat { m.data.offset + k * m.format.align }

  lemma FrameInside(file: seq<byte>, m: Meta, k: nat)
    requires MetaOk(file, m) && k < m.frames
    ensures FrameOffset(m, k) + m.format.align <= |file|
  {
    Monotone(k + 1, m.frames, m.format.align);
    assert (k + 1) * m.format.align == k * m.format.align + m.format.align;
  }

  lemma Monotone(a: nat, b: nat, d: nat)
    requires a <= b
    ensures a * d <= b * d
  {
  }

  /** Frame k of an opened file. */
  function FrameAt(c: Codec, file: seq<byte>, m: Meta, k: nat): Option<real>
    requires MetaOk(file, m) && k < m.frames
  {
    FrameInside(file, m, k);
    Mix(c, file, m.format, FrameOffset(m, k))
  }

  predicate GoodFrame(c: Codec, file: seq<byte>, m: Meta, k: nat)
    requires MetaOk(file, m) && k < m.frames
  {
    FrameAt(c, file, m, k).Some? && c.finite(FrameAt(c, file, m, k).value)
  }

  predicate GoodFrames(c: Codec, file: seq<byte>, m: Meta, first: nat, end: nat)
    requires MetaOk(file, m) && end <= m.frames
  {
    forall k: nat :: first <= k < end ==> GoodFrame(c, file, m, k)
  }

  /** s holds the frames from `first` on. */
  predicate Holds(c: Codec, file: seq<byte>, m: Meta, first: nat, s: seq<real>)
    requires MetaOk(file, m)
  {
    first + |s| <= m.frames && forall k: nat :: k < |s| ==> FrameAt(c, file, m, first + k) == Some(s[k])
  }

  // ---------------------------------------------------------------- the two readers

  /** The chunk walk of both readers. */
  method WalkChunks(file: seq<byte>, end: nat) returns (w: Option<Found>)
    requires 12 <= end <= |file|
    ensures w == Walk(file, 12, end, Found(None, None))
  {
    var found := Found(None, None);
    var cursor := 12;
    while cursor < end
      invariant cursor <= end && Walk(file, cursor, end, found) == Walk(file, 12, end, Found(None, None))
      decreases end - cursor
    {
      var c := ChunkAt(file, cursor, end);
      if c.None? { return None; }
      var more := Take(file, c.value, found);
      if more.None? { return None; }
      found := more.value;
      cursor := c.value.next;
    }
    w := Some(found);
  }

  method MixFrame(c: Codec, file: seq<byte>, f: Format, at: nat) returns (mixed: Option<real>)
    requires ValidFormat(f) && at + f.align <= |file|
    ensures mixed == Mix(c, file, f, at)
  {
    var mono := 0.0;
    var channel := 0;
    while channel < f.channels
      invariant 0 <= channel <= f.channels && MonoSum(c, file, f, at, channel) == Some(mono)
    {
      MonoStep(c, file, f, at, channel);
      var sample := SampleAt(c, file, f, at + channel * (f.bits / 8));
      if sample.None? {
        MonoNone(c, file, f, at, channel + 1, f.channels);
        return None;
      }
      mono := mono + sample.value;
      channel := channel + 1;
    }
    mixed := Some(c.narrow(mono / f.channels as real));
  }

  lemma {:induction false} MonoStep(c: Codec, file: seq<byte>, f: Format, at: nat, n: nat)
    requires ValidFormat(f) && at + f.align <= |file| && n < f.channels && MonoSum(c, file, f, at, n).Some?
    ensures at + n * (f.bits / 8) + f.bits / 8 <= |file|
    ensures MonoSum(c, file, f, at, n + 1) ==
      (var sample := SampleAt(c, file, f, at + n * (f.bits / 8));
       if sample.None? then None else Some(MonoSum(c, file, f, at, n).value + sample.value))
  {
    FrameFits(f, file, at, n);
  }

  lemma {:induction false} MonoNone(c: Codec, file: seq<byte>, f: Format, at: nat, n: nat, all: nat)
    requires ValidFormat(f) && at + f.align <= |file| && n <= all <= f.channels && MonoSum(c, file, f, at, n).None?
    ensures MonoSum(c, file, f, at, all).None?
    decreases all - n
  {
    if n < all { MonoNone(c, file, f, at, n + 1, all); }
  }

  /** `read_wav`: the whole file at once. A mix that is not finite is kept. */
  method ReadWav(c: Codec, file: seq<byte>) returns (meta: Option<Meta>, samples: seq<real>)
    ensures meta.Some? ==> meta == OpenWav(file) && MetaOk(file, meta.value) && |samples| == meta.value.frames
    ensures meta.Some? ==> Holds(c, file, meta.value, 0, samples)
    ensures OpenWav(file).None? ==> meta.None?
    ensures OpenWav(file).Some? ==>
      && MetaOk(file, OpenWav(file).value)
      && (meta.Some? <==> forall k: nat :: k < OpenWav(file).value.frames ==>
        FrameAt(c, file, OpenWav(file).value, k).Some?)
  {
    samples := [];
    if OpenWav(file).Some? { OpenOk(file); }
    var end := RiffEnd(file);
    if end.None? { return None, []; }
    var w := WalkChunks(file, end.value);
    if w.None? { return None, []; }
    var m := Conclude(w.value);
    if m.None? { return None, []; }
    var frame := 0;
    while frame < m.value.frames
      invariant 0 <= frame <= m.value.frames && |samples| == frame && Holds(c, file, m.value, 0, samples)
    {
      FrameInside(file, m.value, frame);
      var mixed := MixFrame(c, file, m.value.format, FrameOffset(m.value, frame));
      if mixed.None? {
        assert FrameAt(c, file, m.value, frame).None?;
        return None, [];
      }
      samples := samples + [mixed.value];
      frame := frame + 1;
    }
    meta := m;
    forall k: nat | k < m.value.frames ensures FrameAt(c, file, m.value, k).Some? {
      assert FrameAt(c, file, m.value, 0 + k) == Some(samples[k]);
    }
  }

  /** The bounded reader: an open file that does not change. */
  class WavChunkReader {
    const codec: Codec
    const file: seq<byte>
    var meta: Option<Meta>

    constructor (codec: Codec, file: seq<byte>)
      ensures this.codec == codec && this.file == file && meta.None?
    {
      this.codec, this.file, meta := codec, file, None;
    }

    ghost predicate Valid()
      reads this
    {
      meta.Some? ==> meta == OpenWav(file) && MetaOk(file, meta.value)
    }

    method Open() returns (ok: bool)
      modifies this
      ensures Valid() && meta == OpenWav(file) && ok == meta.Some?
    {
      meta := None;
      if OpenWav(file).Some? { OpenOk(file); }
      var end := RiffEnd(file);
      if end.None? { return false; }
      var w := WalkChunks(file, end.value);
      if w.None? { return false; }
      meta := Conclude(w.value);
      ok := meta.Some?;
    }

    /** A range of frames, decoded through a fixed buffer; None outside the file or for a frame that is not finite. */
    method ReadMonoFrames(first: nat, count: nat) returns (output: Option<seq<real>>)
      requires Valid()
      ensures output.Some? <==>
        meta.Some? && first + count <= meta.value.frames && GoodFrames(codec, file, meta.value, first, first + count)
      ensures output.Some? ==> |output.value| == count && Holds(codec, file, meta.value, first, output.value)
    {
      if meta.None? || first + count > meta.value.frames { return None; }
      var m := meta.value;
      var framesPerRead := Max(1, DecodeBuffer / m.format.align);
      var samples := [];
      while |samples| < count
        invariant |samples| <= count && Holds(codec, file, m, first, samples)
        invariant GoodFrames(codec, file, m, first, first + |samples|)
        decreases count - |samples|
      {
        var frames := Min(count - |samples|, framesPerRead);
        var block := DecodeBlock(codec, file, m, first + |samples|, frames);
        if block.None? { return None; }
        ghost var was := samples;
        samples := samples + block.value;
        HoldsMore(codec, file, m, first, was, block.value);
      }
      output := Some(samples);
    }
  }

  lemma HoldsMore(c: Codec, file: seq<byte>, m: Meta, first: nat, a: seq<real>, b: seq<real>)
    requires MetaOk(file, m) && Holds(c, file, m, first, a) && Holds(c, file, m, first + |a|, b)
    ensures Holds(c, file, m, first, a + b)
  {
    forall k: nat | k < |a + b| ensures FrameAt(c, file, m, first + k) == Some((a + b)[k]) {
      if k >= |a| { assert FrameAt(c, file, m, first + |a| + (k - |a|)) == Some(b[k - |a|]); }
    }
  }

  /** One buffer of frames. */
  method DecodeBlock(c: Codec, file: seq<byte>, m: Meta, first: nat, frames: nat) returns (block: Option<seq<real>>)
    requires MetaOk(file, m) && first + frames <= m.frames
    ensures block.Some? <==> GoodFrames(c, file, m, first, first + frames)
    ensures block.Some? ==> |block.value| == frames && Holds(c, file, m, first, block.value)
  {
    var out := [];
    while |out| < frames
      invariant |out| <= frames && Holds(c, file, m, first, out) && GoodFrames(c, file, m, first, first + |out|)
      decreases frames - |out|
    {
      var k := first + |out|;
      FrameInside(file, m, k);
      var mixed := MixFrame(c, file, m.format, FrameOffset(m, k));
      if mixed.None? || !c.finite(mixed.value) {
        assert !GoodFrame(c, file, m, k);
        return None;
      }
      out := out + [mixed.value];
    }
    block := Some(out);
  }
}
