/** The atomic WAV writer: samples go to a staging file whose header is completed last, and only a rename
    replaces the target. */
module WavWriter {
  import opened Spools
  import opened Bytes
  import opened Wav

  type Files = map<string, seq<byte>>

  // ---------------------------------------------------------------- the bytes of a mono PCM16 file

  /** All sizes fit their 32-bit fields. */
  predicate LayoutOk(rate: int, samples: nat) { 0 < rate <= 0x7fff_ffff && 36 + 2 * samples < 0x1_0000_0000 }

  function RiffPart(samples: nat, final: bool): (h: seq<byte>)
    ensures |h| == 20
  {
    Ascii("RIFF") + PutLe(if final then 36 + 2 * samples else 0, 4) + Ascii("WAVE") + Ascii("fmt ") + PutLe(16, 4)
  }

  function FormatPart(rate: nat): (h: seq<byte>)
    ensures |h| == 16
  {
    PutLe(1, 2) + PutLe(1, 2) + PutLe(rate, 4) + PutLe(2 * rate, 4) + PutLe(2, 2) + PutLe(16, 2)
  }

  function DataPart(samples: nat, final: bool): (h: seq<byte>)
    ensures |h| == 8
  {
    Ascii("data") + PutLe(if final then 2 * samples else 0, 4)
  }

  /** The 44-byte header; the sizes are zero until the file is complete. */
  function Header(rate: nat, samples: nat, final: bool): (h: seq<byte>)
    ensures |h| == 44
  {
    RiffPart(samples, final) + FormatPart(rate) + DataPart(samples, final)
  }

  type Pcm = p: int | -0x8000 <= p < 0x8000

  function Unsigned(p: Pcm): (u: nat)
    ensures u < 0x1_0000 && Signed(u) == p
  {
    if p < 0 then p + 0x1_0000 else p
  }

  function PcmBytes(s: seq<Pcm>): (b: seq<byte>)
    ensures |b| == 2 * |s|
  {
    if |s| == 0 then [] else PcmBytes(s[..|s| - 1]) + PutLe(Unsigned(s[|s| - 1]), 2)
  }

  function WavFile(rate: nat, s: seq<Pcm>): seq<byte> { Header(rate, |s|, true) + PcmBytes(s) }

  lemma {:induction false} PcmJoin(a: seq<Pcm>, b: seq<Pcm>)
    ensures PcmBytes(a + b) == PcmBytes(a) + PcmBytes(b)
    decreases |b|
  {
    if |b| == 0 {
      assert a + b == a;
    } else {
      assert (a + b)[..|a + b| - 1] == a + b[..|b| - 1];
      PcmJoin(a, b[..|b| - 1]);
    }
  }

  lemma {:induction false} PcmAt(s: seq<Pcm>, k: nat)
    requires k < |s|
    ensures PcmBytes(s)[2 * k..2 * k + 2] == PutLe(Unsigned(s[k]), 2)
    decreases |s|
  {
    var front := s[..|s| - 1];
    if k == |s| - 1 {
      assert |PcmBytes(front)| == 2 * k;
    } else {
      PcmAt(front, k);
      assert PcmBytes(s)[2 * k..2 * k + 2] == PcmBytes(front)[2 * k..2 * k + 2];
    }
  }

  // ---------------------------------------------------------------- reading a written file

  lemma FiveFields(a: seq<byte>, b: seq<byte>, c: seq<byte>, d: seq<byte>, e: seq<byte>)
    requires |a| == 4 && |b| == 4 && |c| == 4 && |d| == 4 && |e| == 4
    ensures var h := a + b + c + d + e;
      h[0..4] == a && h[4..8] == b && h[8..12] == c && h[12..16] == d && h[16..20] == e
  {
    Inside([], a, b + c + d + e, 0, 4);
    assert a + b + c + d + e == [] + a + (b + c + d + e);
    Inside(a, b, c + d + e, 0, 4);
    assert a + b + c + d + e == a + b + (c + d + e);
    Inside(a + b, c, d + e, 0, 4);
    assert a + b + c + d + e == a + b + c + (d + e);
  }

  lemma RiffFields(samples: nat, final: bool)
    requires 36 + 2 * samples < 0x1_0000_0000
    ensures var h := RiffPart(samples, final);
      && h[0..4] == Ascii("RIFF") && GetLe(h[4..8]) == (if final then 36 + 2 * samples else 0)
        && h[8..12] == Ascii("WAVE")
      && h[12..16] == Ascii("fmt ") && GetLe(h[16..20]) == 16
  {
    var size := if final then 36 + 2 * samples else 0;
    Pow256Four();
    GetPut(size, 4);
    GetPut(16, 4);
    FiveFields(Ascii("RIFF"), PutLe(size, 4), Ascii("WAVE"), Ascii("fmt "), PutLe(16, 4));
  }

  lemma Field(pre: seq<byte>, part: seq<byte>, post: seq<byte>, h: seq<byte>)
    requires h == pre + part + post
    ensures h[|pre|..|pre| + |part|] == part
  {
  }

  lemma SixFields(a: seq<byte>, b: seq<byte>, c: seq<byte>, d: seq<byte>, e: seq<byte>, g: seq<byte>)
    requires |a| == 2 && |b| == 2 && |c| == 4 && |d| == 4 && |e| == 2 && |g| == 2
    ensures var h := a + b + c + d + e + g;
      h[0..2] == a && h[2..4] == b && h[4..8] == c && h[8..12] == d && h[12..14] == e && h[14..16] == g
  {
    var h := a + b + c + d + e + g;
    assert h == a + b + (c + d + e + g);
    Field(a, b, c + d + e + g, h);
    assert h == (a + b) + c + (d + e + g);
    Field(a + b, c, d + e + g, h);
    assert h == (a + b + c) + d + (e + g);
    Field(a + b + c, d, e + g, h);
    Field(a + b + c + d, e, g, h);
  }

  lemma FormatFields(rate: nat)
    requires 0 < rate <= 0x7fff_ffff
    ensures FormatAt(FormatPart(rate), 0) == Format(1, 1, rate, 2 * rate, 2, 16)
  {
    Pow256Four();
    GetPut(1, 2);
    GetPut(rate, 4);
    GetPut(2 * rate, 4);
    GetPut(2, 2);
    GetPut(16, 2);
    SixFields(PutLe(1, 2), PutLe(1, 2), PutLe(rate, 4), PutLe(2 * rate, 4), PutLe(2, 2), PutLe(16, 2));
  }

  lemma DataFields(samples: nat, final: bool)
    requires 36 + 2 * samples < 0x1_0000_0000
    ensures var h := DataPart(samples, final);
      h[0..4] == Ascii("data") && GetLe(h[4..8]) == if final then 2 * samples else 0
  {
    var h := DataPart(samples, final);
    var size := if final then 2 * samples else 0;
    Pow256Four();
    GetPut(size, 4);
    assert h[4..8] == PutLe(size, 4);
  }

  /** A slice inside one part of a file is that slice of the part. */
  lemma Inside(pre: seq<byte>, part: seq<byte>, post: seq<byte>, i: nat, j: nat)
    requires i <= j <= |part|
    ensures (pre + part + post)[|pre| + i..|pre| + j] == part[i..j]
  {
  }

  /** What the reader sees of a file that starts with a header. */
  lemma FileFields(rate: nat, samples: nat, final: bool, rest: seq<byte>)
    requires LayoutOk(rate, samples)
    ensures var f := Header(rate, samples, final) + rest;
      && |f| == 44 + |rest| && f[..4] == Ascii("RIFF") && U32(f, 4) == (if final then 36 + 2 * samples else 0)
      && f[8..12] == Ascii("WAVE") && f[12..16] == Ascii("fmt ") && U32(f, 16) == 16
      && FormatAt(f, 20) == Format(1, 1, rate, 2 * rate, 2, 16)
      && f[36..40] == Ascii("data") && U32(f, 40) == (if final then 2 * samples else 0)
  {
    RiffSeen(rate, samples, final, rest);
    FormatSeen(rate, samples, final, rest);
    DataSeen(rate, samples, final, rest);
  }

  lemma Behind(a: seq<byte>, b: seq<byte>, c: seq<byte>, d: seq<byte>)
    ensures a + b + c + d == a + b + (c + d) && a + b + c + d == [] + a + (b + c + d)
  {
  }

  lemma RiffSeen(rate: nat, samples: nat, final: bool, rest: seq<byte>)
    requires LayoutOk(rate, samples)
    ensures var f := Header(rate, samples, final) + rest;
      && f[..4] == Ascii("RIFF") && U32(f, 4) == (if final then 36 + 2 * samples else 0)
      && f[8..12] == Ascii("WAVE") && f[12..16] == Ascii("fmt ") && U32(f, 16) == 16
  {
    var riff, post := RiffPart(samples, final), FormatPart(rate) + DataPart(samples, final) + rest;
    RiffFields(samples, final);
    Behind(riff, FormatPart(rate), DataPart(samples, final), rest);
    Inside([], riff, post, 0, 4);
    Inside([], riff, post, 4, 8);
    Inside([], riff, post, 8, 12);
    Inside([], riff, post, 12, 16);
    Inside([], riff, post, 16, 20);
  }

  lemma FormatInside(pre: seq<byte>, part: seq<byte>, post: seq<byte>)
    requires |part| == 16
    ensures FormatAt(pre + part + post, |pre|) == FormatAt(part, 0)
  {
    Inside(pre, part, post, 0, 2);
    Inside(pre, part, post, 2, 4);
    Inside(pre, part, post, 4, 8);
    Inside(pre, part, post, 8, 12);
    Inside(pre, part, post, 12, 14);
    Inside(pre, part, post, 14, 16);
  }

  lemma FormatSeen(rate: nat, samples: nat, final: bool, rest: seq<byte>)
    requires LayoutOk(rate, samples)
    ensures FormatAt(Header(rate, samples, final) + rest, 20) == Format(1, 1, rate, 2 * rate, 2, 16)
  {
    FormatFields(rate);
    Behind(RiffPart(samples, final), FormatPart(rate), DataPart(samples, final), rest);
    FormatInside(RiffPart(samples, final), FormatPart(rate), DataPart(samples, final) + rest);
  }

  lemma DataSeen(rate: nat, samples: nat, final: bool, rest: seq<byte>)
    requires LayoutOk(rate, samples)
    ensures var f := Header(rate, samples, final) + rest;
      f[36..40] == Ascii("data") && U32(f, 40) == (if final then 2 * samples else 0)
  {
    var pre, part := RiffPart(samples, final) + FormatPart(rate), DataPart(samples, final);
    DataFields(samples, final);
    Inside(pre, part, rest, 0, 4);
    Inside(pre, part, rest, 4, 8);
  }

  /** Before the header is completed, no reader accepts the file. */
  lemma StagingRejected(rate: nat, samples: nat, rest: seq<byte>)
    requires LayoutOk(rate, samples)
    ensures OpenWav(Header(rate, samples, false) + rest).None?
  {
    FileFields(rate, samples, false, rest);
  }

  lemma TagsDiffer()
    ensures Ascii("fmt ") != Ascii("data")
  {
    assert Ascii("fmt ")[0] == 102 && Ascii("data")[0] == 100;
  }

  /** The two chunks of a written file. */
  lemma WrittenChunks(rate: nat, n: nat, f: seq<byte>)
    requires LayoutOk(rate, n) && |f| == 44 + 2 * n
    requires f[12..16] == Ascii("fmt ") && U32(f, 16) == 16 && FormatAt(f, 20) == Format(1, 1, rate, 2 * rate, 2, 16)
    requires f[36..40] == Ascii("data") && U32(f, 40) == 2 * n
    ensures Walk(f, 12, |f|, Found(None, None))
      == Some(Found(Some(Format(1, 1, rate, 2 * rate, 2, 16)), Some(Data(44, 2 * n))))
  {
    TagsDiffer();
    var fmt := Format(1, 1, rate, 2 * rate, 2, 16);
    assert ChunkAt(f, 12, |f|) == Some(Chunk(f[12..16], 20, 16, 36));
    assert ChunkAt(f, 36, |f|) == Some(Chunk(f[36..40], 44, 2 * n, 44 + 2 * n));
    assert Take(f, Chunk(f[12..16], 20, 16, 36), Found(None, None)) == Some(Found(Some(fmt), None));
    assert Walk(f, 44 + 2 * n, |f|, Found(Some(fmt), Some(Data(44, 2 * n))))
      == Some(Found(Some(fmt), Some(Data(44, 2 * n))));
    assert Walk(f, 36, |f|, Found(Some(fmt), None)) == Some(Found(Some(fmt), Some(Data(44, 2 * n))));
  }

  /** What the reader makes of a committed file. */
  function MetaOf(rate: nat, n: nat): Meta { Meta(Format(1, 1, rate, 2 * rate, 2, 16), Data(44, 2 * n), n) }

  /** A committed file opens with the rate and the number of samples it was written with. */
  lemma WrittenOpens(rate: nat, s: seq<Pcm>)
    requires LayoutOk(rate, |s|)
    ensures OpenWav(WavFile(rate, s)) == Some(MetaOf(rate, |s|)) && MetaOk(WavFile(rate, s), MetaOf(rate, |s|))
  {
    FileFields(rate, |s|, true, PcmBytes(s));
    WrittenMeta(rate, |s|, WavFile(rate, s));
    OpenOk(WavFile(rate, s));
  }

  lemma WrittenMeta(rate: nat, n: nat, f: seq<byte>)
    requires LayoutOk(rate, n) && |f| == 44 + 2 * n && f[..4] == Ascii("RIFF") && U32(f, 4) == 36 + 2 * n
      && f[8..12] == Ascii("WAVE")
    requires f[12..16] == Ascii("fmt ") && U32(f, 16) == 16 && FormatAt(f, 20) == Format(1, 1, rate, 2 * rate, 2, 16)
    requires f[36..40] == Ascii("data") && U32(f, 40) == 2 * n
    ensures OpenWav(f) == Some(MetaOf(rate, n))
  {
    WrittenChunks(rate, n, f);
  }

  /** Decoded PCM values are floats, so narrowing keeps them. */
  ghost predicate ExactOnPcm(c: Codec) { forall p: Pcm :: KeepsPcm(c, p) }

  function Decoded(p: Pcm): real { p as real / 32768.0 }

  predicate KeepsPcm(c: Codec, p: Pcm) { c.narrow(Decoded(p)) == Decoded(p) && c.finite(Decoded(p)) }

  lemma MonoFrame(c: Codec, file: seq<byte>, f: Format, at: nat, p: Pcm)
    requires ExactOnPcm(c) && ValidFormat(f) && f.audio == 1 && f.channels == 1 && at + f.align <= |file|
    requires Signed(U16(file, at)) == p
    ensures Mix(c, file, f, at) == Some(Decoded(p))
  {
    assert KeepsPcm(c, p);
    assert SampleAt(c, file, f, at) == Some(Decoded(p));
    assert MonoSum(c, file, f, at, 0) == Some(0.0);
    assert MonoSum(c, file, f, at, 1) == Some(0.0 + Decoded(p));
    assert Decoded(p) / 1.0 == Decoded(p);
  }

  lemma InTail(pre: seq<byte>, part: seq<byte>, i: nat, j: nat)
    requires i <= j <= |part|
    ensures (pre + part)[|pre| + i..|pre| + j] == part[i..j]
  {
  }

  lemma WrittenWord(rate: nat, s: seq<Pcm>, k: nat)
    requires k < |s|
    ensures Signed(U16(WavFile(rate, s), 44 + 2 * k)) == s[k]
  {
    PcmAt(s, k);
    InTail(Header(rate, |s|, true), PcmBytes(s), 2 * k, 2 * k + 2);
    PcmRound(s[k]);
  }

  lemma PcmRound(x: Pcm)
    ensures Signed(GetLe(PutLe(Unsigned(x), 2))) == x
  {
    Pow256Four();
    GetPut(Unsigned(x), 2);
  }

  /** Every frame of a written file decodes to the sample it was written with. */
  lemma WrittenFrames(c: Codec, rate: nat, s: seq<Pcm>, file: seq<byte>, m: Meta, k: nat)
    requires ExactOnPcm(c) && LayoutOk(rate, |s|) && k < |s| && file == WavFile(rate, s) && m == MetaOf(rate, |s|)
      && MetaOk(file, m)
    ensures FrameAt(c, file, m, k) == Some(Decoded(s[k])) && GoodFrame(c, file, m, k)
  {
    FrameInside(file, m, k);
    WrittenWord(rate, s, k);
    MonoFrame(c, file, m.format, 44 + 2 * k, s[k]);
    assert KeepsPcm(c, s[k]);
  }

  lemma WrittenRange(c: Codec, rate: nat, s: seq<Pcm>, file: seq<byte>, m: Meta, first: nat, count: nat,
                     slice: Option<seq<real>>)
    requires ExactOnPcm(c) && LayoutOk(rate, |s|) && file == WavFile(rate, s) && m == MetaOf(rate, |s|)
      && MetaOk(file, m)
    requires slice.Some? <==> first + count <= m.frames && GoodFrames(c, file, m, first, first + count)
    requires slice.Some? ==> |slice.value| == count && Holds(c, file, m, first, slice.value)
    ensures slice == if first + count <= |s| then Some(AllDecoded(s)[first..first + count]) else None
  {
    if first + count <= |s| {
      forall k: nat | first <= k < first + count ensures GoodFrame(c, file, m, k) {
        WrittenFrames(c, rate, s, file, m, k);
      }
      assert slice.Some?;
      forall k: nat | k < count ensures slice.value[k] == AllDecoded(s)[first..first + count][k] {
        WrittenFrames(c, rate, s, file, m, first + k);
        assert FrameAt(c, file, m, first + k) == Some(slice.value[k]);
      }
      assert slice.value == AllDecoded(s)[first..first + count];
    }
  }

  function AllDecoded(s: seq<Pcm>): (r: seq<real>)
    ensures |r| == |s|
  {
    seq(|s|, i requires 0 <= i < |s| => Decoded(s[i]))
  }

  /** Reading any range of a written file gives exactly that slice. */
  method ReadBack(c: Codec, rate: nat, s: seq<Pcm>, first: nat, count: nat) returns (slice: Option<seq<real>>)
    requires ExactOnPcm(c) && LayoutOk(rate, |s|)
    ensures slice == if first + count <= |s| then Some(AllDecoded(s)[first..first + count]) else None
  {
    var reader := new WavChunkReader(c, WavFile(rate, s));
    WrittenOpens(rate, s);
    var ok := reader.Open();
    slice := reader.ReadMonoFrames(first, count);
    WrittenRange(c, rate, s, WavFile(rate, s), MetaOf(rate, |s|), first, count, slice);
  }

  // ---------------------------------------------------------------- the directory and the writer

  /** data written over the bytes from `at` on. */
  function Overwrite(old_: seq<byte>, at: nat, data: seq<byte>): seq<byte>
    requires at <= |old_|
  {
    old_[..at] + data + if at + |data| <= |old_| then old_[at + |data|..] else []
  }

  class Directory {
    var files: Files
    /** When false, no operation reports an I/O error. */
    const mayFail: bool

    constructor (files: Files, mayFail: bool)
      ensures this.files == files && this.mayFail == mayFail
    {
      this.files, this.mayFail := files, mayFail;
    }

    /** Exclusive creation. */
    method Create(name: string) returns (ok: bool)
      modifies this
      ensures ok ==> name !in old(files) && files == old(files)[name := []]
      ensures !ok ==> files == old(files) && (mayFail || name in old(files))
    {
      if name in files { return false; }
      if mayFail {
        if * { return false; }
      }
      files := files[name := []];
      ok := true;
    }

    /** A positional write; a failed one may have written any prefix. */
    method WriteAt(name: string, at: nat, data: seq<byte>) returns (ok: bool)
      requires name in files && at <= |files[name]|
      modifies this
      ensures ok ==> files == old(files)[name := Overwrite(old(files)[name], at, data)]
      ensures !ok ==> mayFail && name in files && files - {name} == old(files) - {name}
    {
      ok := true;
      var part := data;
      if mayFail {
        if * {
          ok := false;
          var n: int := *;
          if 0 <= n < |data| { part := data[..n]; }
        }
      }
      files := files[name := Overwrite(files[name], at, part)];
    }

    /** Atomic replacement of `to` by `from`. */
    method Rename(from: string, to: string) returns (ok: bool)
      requires from in files && from != to
      modifies this
      ensures ok ==> files == (old(files) - {from})[to := old(files)[from]]
      ensures !ok ==> mayFail && files == old(files)
    {
      if mayFail {
        if * { return false; }
      }
      files := (files - {from})[to := files[from]];
      ok := true;
    }

    method Unlink(name: string)
      modifies this
      ensures files == old(files) - {name}
    {
      files := files - {name};
    }
  }

  function Clamped(x: real): real { if x < -1.0 then -1.0 else if x > 1.0 then 1.0 else x }

  function Truncated(x: real): int { if x >= 0.0 then x.Floor else -((-x).Floor) }

  /** A decoded 16-bit value. */
  predicate IsDecoded(x: real) { -1.0 <= x <= 32767.0 / 32768.0 && (x * 32768.0).Floor as real == x * 32768.0 }

  /** The sample a value is written as. */
  function Encode(x: real, exact: bool): (p: Pcm)
    requires exact ==> IsDecoded(x)
  {
    if exact then (x * 32768.0).Floor else Truncated(Clamped(x) * 32767.0)
  }

  function EncodeAll(s: seq<real>, exact: bool): (r: seq<Pcm>)
    requires exact ==> forall i :: 0 <= i < |s| ==> IsDecoded(s[i])
    ensures |r| == |s|
  {
    seq(|s|, i requires 0 <= i < |s| => Encode(s[i], exact))
  }

  /** A value that need not be exact is cut off towards zero at 32767 steps to one, and values beyond one at one. */
  lemma EncodeNear(x: real)
    ensures var p := Encode(x, false) as real;
      var full := if x > 1.0 then 32767.0 else if x < -1.0 then -32767.0 else x * 32767.0;
      if x >= 0.0 then 0.0 <= p <= full < p + 1.0 else p - 1.0 < full <= p <= 0.0
  {
  }

  predicate Appendable(c: Codec, s: seq<real>, exact: bool) {
    forall i :: 0 <= i < |s| ==> c.finite(s[i]) && (exact ==> IsDecoded(s[i]))
  }

  /** The staging file while samples are appended. */
  function Staged(rate: nat, expected: nat, pcm: seq<Pcm>): seq<byte> { Header(rate, expected, false) + PcmBytes(pcm) }

  class AtomicWavStreamWriter {
    const codec: Codec
    const directory: Directory
    var active: bool
    var failed: bool
    var staging: string
    var target: string
    var rate: nat
    var expected: nat
    var written: nat
    ghost var pcm: seq<Pcm>

    constructor (codec: Codec, directory: Directory)
      ensures this.codec == codec && this.directory == directory && !active
    {
      this.codec, this.directory := codec, directory;
      active, failed, staging, target, rate, expected, written, pcm := false, false, "", "", 0, 0, 0, [];
    }

    /** The staging file holds the unfinished header and everything appended so far. */
    ghost predicate Valid()
      reads this, directory
    {
      active ==>
        && staging != target && staging in directory.files && LayoutOk(rate, expected) && written <= expected
        && (!failed ==> |pcm| == written && directory.files[staging] == Staged(rate, expected, pcm))
    }

    method Open(target: string, staging: string, rate: int, expected: nat) returns (ok: bool)
      requires staging != target && !active
      modifies this, directory
      ensures Valid() && ok == active
      ensures directory.files - {staging} == old(directory.files) - {staging}
      ensures ok ==>
        && !failed && LayoutOk(rate, expected) && this.target == target && this.staging == staging
        && this.rate == rate && this.expected == expected && pcm == [] && written == 0
      ensures !ok ==> !LayoutOk(rate, expected) || directory.mayFail || staging in old(directory.files)
      ensures !ok ==> directory.files == old(directory.files)
      ensures ok ==> staging !in old(directory.files)
    {
      if !LayoutOk(rate, expected) { return false; }
      ok := directory.Create(staging);
      if !ok { return; }
      FirstWrite(rate, expected);
      ok := directory.WriteAt(staging, 0, Header(rate, expected, false));
      if !ok {
        directory.Unlink(staging);
        Restored(old(directory.files), staging);
        return;
      }
      this.target, this.staging, this.rate, this.expected := target, staging, rate, expected;
      active, failed, written, pcm := true, false, 0, [];
    }

    /** Appending samples; a bad sample, too many of them or an I/O error fails the writer for good. */
    method Append(samples: seq<real>, exact: bool) returns (ok: bool)
      requires Valid()
      modifies this, directory
      ensures Valid() && active == old(active) && KeepsRest(old(directory.files), directory.files, staging)
      ensures staging == old(staging) && target == old(target) && rate == old(rate) && expected == old(expected)
      ensures ok ==>
        && active && !failed && (samples != [] ==>
          Appendable(codec, samples, exact) && old(written) + |samples| <= expected)
        && written == old(written) + |samples|
        && (samples != [] ==> pcm == old(pcm) + EncodeAll(samples, exact)) && (samples == [] ==> pcm == old(pcm))
      ensures !ok ==> !active || failed
      ensures old(active && !failed && written + |samples| <= expected) && Appendable(codec, samples, exact) ==>
        directory.mayFail || ok
    {
      if !active || failed { return false; }
      if |samples| == 0 { return true; }
      if !Appendable(codec, samples, exact) || written + |samples| > expected {
        failed := true;
        return false;
      }
      ok := WriteSamples(samples, exact);
      if !ok {
        failed := true;
        return;
      }
      written := written + |samples|;
    }

    /** Encoding through a buffer of 4096 samples, flushed whenever it is full. */
    method WriteSamples(samples: seq<real>, exact: bool) returns (ok: bool)
      requires Valid() && active && !failed && Appendable(codec, samples, exact)
      modifies `pcm, directory
      ensures staging in directory.files && KeepsRest(old(directory.files), directory.files, staging)
      ensures ok ==>
        && pcm == old(pcm) + EncodeAll(samples, exact)
        && directory.files[staging] == Staged(rate, expected, pcm)
      ensures !ok ==> directory.mayFail
    {
      ghost var before, files := pcm, directory.files;
      var i := 0;
      assert before + EncodeAll(samples, exact)[..0] == before;
      while i < |samples|
        invariant 0 <= i <= |samples| && staging in directory.files && KeepsRest(files, directory.files, staging)
        invariant pcm == before + EncodeAll(samples, exact)[..i] && |pcm| == written + i
        invariant directory.files[staging] == Staged(rate, expected, pcm)
      {
        var count := Min(4096, |samples| - i);
        ok := WriteSome(samples, exact, i, count, before);
        if !ok { return; }
        i := i + count;
      }
      assert EncodeAll(samples, exact)[..|samples|] == EncodeAll(samples, exact);
      ok := true;
    }

    /** One buffer of samples. */
    method WriteSome(samples: seq<real>, exact: bool, i: nat, count: nat, ghost before: seq<Pcm>) returns (ok: bool)
      requires i + count <= |samples| && Appendable(codec, samples, exact) && |pcm| == written + i
      requires staging in directory.files && directory.files[staging] == Staged(rate, expected, pcm)
      requires pcm == before + EncodeAll(samples, exact)[..i]
      modifies `pcm, directory
      ensures staging in directory.files && KeepsRest(old(directory.files), directory.files, staging)
      ensures ok ==>
        pcm == before + EncodeAll(samples, exact)[..i + count]
        && directory.files[staging] == Staged(rate, expected, pcm)
      ensures !ok ==> directory.mayFail
    {
      var block := EncodeBlock(samples[i..i + count], exact);
      ok := WriteBlock(block, 44 + 2 * (written + i));
      EncodeSlice(samples, exact, i, count, before);
    }

    method WriteBlock(block: seq<Pcm>, at: nat) returns (ok: bool)
      requires staging in directory.files && directory.files[staging] == Staged(rate, expected, pcm)
      requires at == 44 + 2 * |pcm|
      modifies `pcm, directory
      ensures staging in directory.files && KeepsRest(old(directory.files), directory.files, staging)
      ensures ok ==>
        pcm == old(pcm) + block && directory.files[staging] == Staged(rate, expected, pcm)
      ensures !ok ==> directory.mayFail
    {
      StagedMore(rate, expected, pcm, block);
      ok := directory.WriteAt(staging, at, PcmBytes(block));
      if ok { pcm := pcm + block; }
    }

    /** Completing the header and replacing the target; anything going wrong leaves the target as it was. */
    method Commit() returns (ok: bool)
      requires Valid()
      modifies this, directory
      ensures !active
      ensures ok ==> old(active) && !old(failed) && old(written) == old(expected)
      ensures ok ==> directory.files == (old(directory.files) - {old(staging)})[old(target) :=
        WavFile(old(rate), old(pcm))]
      ensures !ok && old(active) ==> directory.files == old(directory.files) - {old(staging)}
      ensures !ok && !old(active) ==> directory.files == old(directory.files)
      ensures old(active) && !old(failed) && old(written) == old(expected) && !directory.mayFail ==> ok
    {
      ok := false;
      if !active { return; }
      if failed || written != expected {
        Abort();
        return;
      }
      ghost var files := directory.files;
      OverwriteHeader(rate, pcm);
      ok := directory.WriteAt(staging, 0, Header(rate, expected, true));
      if ok {
        assert directory.files - {staging} == files - {staging};
        ok := Sync(directory.mayFail);
        if ok { ok := directory.Rename(staging, target); }
      }
      if ok {
        active := false;
        return;
      }
      Abort();
    }

    method Abort()
      modifies this, directory
      ensures !active
      ensures old(active) ==> directory.files == old(directory.files) - {old(staging)}
      ensures !old(active) ==> directory.files == old(directory.files)
    {
      if active { directory.Unlink(staging); }
      active := false;
    }
  }

  method Sync(mayFail: bool) returns (ok: bool)
    ensures !ok ==> mayFail
  {
    ok := true;
    if mayFail {
      if * { ok := false; }
    }
  }

  /** No file but `name` changed. */
  ghost predicate KeepsRest(before: Files, after: Files, name: string) { after - {name} == before - {name} }

  method EncodeBlock(samples: seq<real>, exact: bool) returns (block: seq<Pcm>)
    requires exact ==> forall i :: 0 <= i < |samples| ==> IsDecoded(samples[i])
    ensures block == EncodeAll(samples, exact)
  {
    block := [];
    for i := 0 to |samples|
      invariant block == EncodeAll(samples, exact)[..i]
    {
      block := block + [Encode(samples[i], exact)];
    }
  }

  lemma EncodeSlice(samples: seq<real>, exact: bool, i: nat, count: nat, before: seq<Pcm>)
    requires i + count <= |samples| && (exact ==> forall k :: 0 <= k < |samples| ==> IsDecoded(samples[k]))
    ensures before + EncodeAll(samples, exact)[..i] + EncodeAll(samples[i..i + count], exact)
         == before + EncodeAll(samples, exact)[..i + count]
  {
    var all := EncodeAll(samples, exact);
    assert all[..i + count] == all[..i] + EncodeAll(samples[i..i + count], exact);
  }

  lemma AppendBytes(h: seq<byte>, body: seq<byte>, more: seq<byte>)
    ensures Overwrite(h + body, |h| + |body|, more) == h + (body + more)
  {
  }

  lemma FirstWrite(rate: nat, expected: nat)
    ensures Overwrite([], 0, Header(rate, expected, false)) == Staged(rate, expected, [])
  {
    var h := Header(rate, expected, false);
    assert [] + h + [] == h && h + [] == h;
  }

  lemma StagedMore(rate: nat, expected: nat, pcm: seq<Pcm>, block: seq<Pcm>)
    ensures |Staged(rate, expected, pcm)| == 44 + 2 * |pcm|
    ensures Overwrite(Staged(rate, expected, pcm), 44 + 2 * |pcm|, PcmBytes(block))
      == Staged(rate, expected, pcm + block)
  {
    AppendBytes(Header(rate, expected, false), PcmBytes(pcm), PcmBytes(block));
    PcmJoin(pcm, block);
  }

  lemma OverwriteHeader(rate: nat, pcm: seq<Pcm>)
    ensures Overwrite(Header(rate, |pcm|, false) + PcmBytes(pcm), 0, Header(rate, |pcm|, true)) == WavFile(rate, pcm)
  {
    ReplaceFront(Header(rate, |pcm|, false), Header(rate, |pcm|, true), PcmBytes(pcm));
  }

  lemma ReplaceFront(a: seq<byte>, b: seq<byte>, body: seq<byte>)
    requires |a| == |b|
    ensures Overwrite(a + body, 0, b) == b + body
  {
  }

  // ---------------------------------------------------------------- excerpts

  /** `llround` for values that are not negative. */
  function Round(x: real): int { (x + 0.5).Floor }

  predicate MonoPcm(m: Meta) { m.format.audio == 1 && m.format.channels == 1 }

  /** The PCM words of a mono PCM16 file. */
  function Words(file: seq<byte>, m: Meta): (s: seq<Pcm>)
    requires MetaOk(file, m) && MonoPcm(m)
    ensures |s| == m.frames
  {
    seq(m.frames, k requires 0 <= k < m.frames =>
      (WordInside(file, m, k); Signed(WordAt(file, m, k))))
  }

  function WordAt(file: seq<byte>, m: Meta, k: nat): (w: nat)
    requires MetaOk(file, m) && MonoPcm(m) && k < m.frames
    ensures w < 0x1_0000
  {
    WordInside(file, m, k);
    Pow256Four();
    U16(file, m.data.offset + 2 * k)
  }

  lemma WordInside(file: seq<byte>, m: Meta, k: nat)
    requires MetaOk(file, m) && MonoPcm(m) && k < m.frames
    ensures m.data.offset + 2 * k + 2 <= |file| && FrameOffset(m, k) == m.data.offset + 2 * k
  {
    FrameInside(file, m, k);
  }

  /** A mono PCM16 frame decodes to its word, which encodes back to itself. */
  lemma WordDecodes(c: Codec, file: seq<byte>, m: Meta, k: nat)
    requires ExactOnPcm(c) && MetaOk(file, m) && MonoPcm(m) && k < m.frames
    ensures FrameAt(c, file, m, k) == Some(Decoded(Words(file, m)[k]))
    ensures c.finite(Decoded(Words(file, m)[k]))
  {
    WordInside(file, m, k);
    MonoFrame(c, file, m.format, FrameOffset(m, k), Words(file, m)[k]);
    assert KeepsPcm(c, Words(file, m)[k]);
  }

  lemma DecodedEncodes(p: Pcm)
    ensures IsDecoded(Decoded(p)) && Encode(Decoded(p), true) == p
  {
    assert Decoded(p) * 32768.0 == p as real;
  }

  lemma RangeEncodes(c: Codec, file: seq<byte>, m: Meta, first: nat, s: seq<real>)
    requires ExactOnPcm(c) && MetaOk(file, m) && MonoPcm(m) && Holds(c, file, m, first, s)
    ensures first + |s| <= m.frames && Appendable(c, s, true)
      && EncodeAll(s, true) == Words(file, m)[first..first + |s|]
  {
    var words := Words(file, m)[first..first + |s|];
    forall i: nat | i < |s| ensures c.finite(s[i]) && IsDecoded(s[i]) && Encode(s[i], true) == words[i] {
      WordDecodes(c, file, m, first + i);
      DecodedEncodes(words[i]);
      assert FrameAt(c, file, m, first + i) == Some(s[i]);
    }
  }

  function FramePos(t: real, rate: nat): int { Round(t * rate as real) }

  /** samples are the frames of a mono PCM16 file between two times. */
  ghost predicate IsExcerpt(file: seq<byte>, m: Meta, first: nat, last: nat, samples: seq<real>) {
    && OpenWav(file) == Some(m) && MetaOk(file, m) && MonoPcm(m) && first < last <= m.frames
    && EncodesTo(samples, Words(file, m)[first..last])
  }

  ghost predicate EncodesTo(samples: seq<real>, words: seq<Pcm>) {
    (forall i :: 0 <= i < |samples| ==> IsDecoded(samples[i])) && EncodeAll(samples, true) == words
  }

  predicate TimesOk(start: real, end: real) { 0.0 <= start < end && end - start <= 15.0 && end <= 600.0 }

  /** The requests that can be met: a mono PCM16 file that reaches `end`, and at least one frame of it. */
  predicate ExcerptOk(file: seq<byte>, start: real, end: real) {
    TimesOk(start, end) && OpenWav(file).Some? && MonoPcm(OpenWav(file).value)
      && SpanOk(OpenWav(file).value, start, end)
  }

  predicate SpanOk(m: Meta, start: real, end: real) {
    && m.format.rate > 0 && end <= m.frames as real / m.format.rate as real
    && 0 <= FramePos(start, m.format.rate) < FramePos(end, m.format.rate) <= m.frames
    && FramePos(end, m.format.rate) - FramePos(start, m.format.rate) <= 4_000_000
  }

  /** Every frame of a mono PCM16 file decodes. */
  lemma MonoPcmDecodes(c: Codec, file: seq<byte>, m: Meta)
    requires ExactOnPcm(c) && MetaOk(file, m) && MonoPcm(m)
    ensures GoodFrames(c, file, m, 0, m.frames)
  {
    forall k: nat | k < m.frames ensures GoodFrame(c, file, m, k) { WordDecodes(c, file, m, k); }
  }

  /** Opening the input and reading the frames between two times, rounded to the nearest. */
  method ReadExcerpt(c: Codec, file: seq<byte>, start: real, end: real) returns (samples: Option<seq<real>>, m: Meta)
    requires ExactOnPcm(c)
    ensures samples.Some? <==> ExcerptOk(file, start, end)
    ensures samples.Some? ==>
      && 0 <= FramePos(start, m.format.rate) && 0 <= FramePos(end, m.format.rate) && Appendable(c, samples.value, true)
      && IsExcerpt(file, m, FramePos(start, m.format.rate), FramePos(end, m.format.rate), samples.value)
  {
    samples, m := None, MetaOf(0, 0);
    if start < 0.0 || end <= start || end - start > 15.0 || end > 600.0 { return; }
    var reader := new WavChunkReader(c, file);
    var ok := reader.Open();
    if !ok { return; }
    m := reader.meta.value;
    OpenOk(file);
    if !MonoPcm(m) || end > m.frames as real / m.format.rate as real { return; }
    var first, last := FramePos(start, m.format.rate), FramePos(end, m.format.rate);
    if first < 0 || last <= first || last > m.frames || last - first > 4_000_000 { return; }
    MonoPcmDecodes(c, file, m);
    samples := reader.ReadMonoFrames(first, last - first);
    if samples.Some? { RangeEncodes(c, file, m, first, samples.value); }
  }

  /** The output header can hold the rate and size of the excerpt. */
  predicate LayoutFor(m: Meta, start: real, end: real) {
    FramePos(start, m.format.rate) <= FramePos(end, m.format.rate)
      && LayoutOk(m.format.rate, FramePos(end, m.format.rate) - FramePos(start, m.format.rate))
  }

  /** `write_audio_excerpt`: the committed file is the bit-exact slice of the input's words; otherwise the target
      stays. */
  method WriteAudioExcerpt(c: Codec, directory: Directory, input: string, output: string, staging: string, start: real,
                           end: real)
    returns (ok: bool, ghost m: Meta)
    requires ExactOnPcm(c) && staging != output && input in directory.files
    modifies directory
    ensures !ok ==> directory.files == old(directory.files)
    ensures var file := old(directory.files)[input];
      && (ok ==> ExcerptOk(file, start, end))
      && (ExcerptOk(file, start, end) && LayoutFor(OpenWav(file).value, start, end) ==>
        directory.mayFail || staging in old(directory.files) || ok)
    ensures ok ==>
      && var file := old(directory.files)[input];
        var first, last := FramePos(start, m.format.rate), FramePos(end, m.format.rate);
      && OpenWav(file) == Some(m) && MetaOk(file, m) && MonoPcm(m) && 0 <= first < last <= m.frames
      && directory.files == old(directory.files)[output := WavFile(m.format.rate, Words(file, m)[first..last])]
  {
    var file := directory.files[input];
    var samples, meta := ReadExcerpt(c, file, start, end);
    m := meta;
    if samples.None? { return false, m; }
    ok := WriteExact(c, directory, output, staging, meta.format.rate, samples.value);
  }

  lemma EmptyFront<T>(s: seq<T>)
    ensures [] + s == s
  {
  }

  /** Open, append and commit of decoded samples. */
  method WriteExact(c: Codec, directory: Directory, output: string, staging: string, rate: nat, samples: seq<real>)
    returns (ok: bool)
    requires staging != output && samples != [] && Appendable(c, samples, true)
    modifies directory
    ensures !ok ==> directory.files == old(directory.files)
    ensures !ok ==> !LayoutOk(rate, |samples|) || directory.mayFail || staging in old(directory.files)
    ensures ok ==> directory.files == old(directory.files)[output := WavFile(rate, EncodeAll(samples, true))]
  {
    var writer := new AtomicWavStreamWriter(c, directory);
    ok := writer.Open(output, staging, rate, |samples|);
    if !ok { return; }
    Restored(old(directory.files), staging);
    ok := writer.Append(samples, true);
    if !ok {
      writer.Abort();
      return;
    }
    EmptyFront(EncodeAll(samples, true));
    ok := writer.Commit();
  }

  lemma Restored(files: Files, staging: string)
    requires staging !in files
    ensures files - {staging} == files
  {
  }
}
