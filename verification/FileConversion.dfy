/** A whole file conversion: the checkpointed run, the loudness mix and the atomic writer. */
module FileConversion {
  import opened Spools
  import opened Bytes
  import opened StoreFiles
  import opened Disks
  import opened BlockCheckpoints
  import opened TrueStore
  import opened ConversionJob
  import opened Conversion
  import opened CheckpointedRun
  import opened Campaign
  import opened LoudnessMix
  import W = WavWriter
  import Wav

  /** What a file conversion writes when nothing interrupts it: the mixed samples as PCM. */
  ghost function Converted(job: Job, m: Mixer): Option<seq<W.Pcm>>
    requires ValidJob(job)
  {
    var output := Uninterrupted(job);
    if output.None? || !Mixable(m, job.source, output.value) then None
      else Some(W.EncodeAll(Mixed(m, job.source, output.value), false))
  }

  /** Where a conversion writes to: a directory, the name of the result, and the name it is staged under. */
  datatype Place = Place(directory: W.Directory, target: string, staging: string, rate: nat)

  /** The result stands under its name, and nothing else has changed. */
  ghost predicate Written(place: Place, before: W.Files, job: Job, m: Mixer)
    reads place.directory
    requires ValidJob(job)
  {
    && Converted(job, m).Some?
    && place.directory.files == before[place.target := W.WavFile(place.rate, Converted(job, m).value)]
  }

  /** The output stage: mixing into the opened writer, and the commit. */
  method Output(job: Job, m: Mixer, out: seq<Word>, writer: W.AtomicWavStreamWriter, place: Place,
                ghost before: W.Files)
    returns (ok: bool)
    requires ValidJob(job) && Uninterrupted(job) == Some(out) && writer.directory == place.directory
      && writer.codec.finite == m.finite
    requires writer.Valid() && writer.active && !writer.failed && writer.written == 0 && writer.pcm == []
    requires writer.expected == OutPos(|job.source|) && writer.target == place.target && writer.staging == place.staging
      && writer.rate == place.rate
    requires place.directory.files - {place.staging} == before && place.staging != place.target
      && place.staging !in before
    modifies writer, place.directory
    ensures if ok then Written(place, before, job, m) else place.directory.files == before
    ensures !ok && !place.directory.mayFail ==> Converted(job, m).None?
  {
    UninterruptedLength(job);
    var source := SpoolOf(job.source);
    var output := SpoolOf(out);
    ok := WriteFinalOutput(m, source, output, writer);
    ghost var staged := place.directory.files;
    StagedAside(staged, before, place.staging);
    if !ok {
      writer.Abort();
      return;
    }
    var all := W.EncodeAll(Mixed(m, job.source, out), false);
    assert Mixed(m, job.source, out)[..|out|] == Mixed(m, job.source, out);
    ok := writer.Commit();
  }

  lemma StagedAside(after: W.Files, before: W.Files, staging: string)
    requires after - {staging} == before - {staging} && staging !in before
    ensures after - {staging} == before
  {
  }

  /** `convert_file_bounded` from the filtered clip on: the staging file is opened first, the target is replaced last.
      A conversion that is paused or fails leaves every file of the directory as it was. */
  method ConvertFile(job: Job, disk: Disk<Name>, st: Store, mode: Mode, ghost truth: Truth, mayPause: bool, m: Mixer,
                     codec: Wav.Codec, place: Place)
    returns (s: CheckpointedRun.Step)
    requires ValidJob(job) && TruthOf(truth, job) && Functional(truth) && ValidLimits(st.limits)
    requires disk.Valid() && Restartable(truth, st, disk.history) && mode != ReadOnly
      && (mode == CreateNew ==> disk.files == map[])
    requires codec.finite == m.finite && place.staging != place.target
    modifies disk, place.directory
    ensures disk.Valid() && old(disk.history) <= disk.history && Restartable(truth, st, disk.history)
    ensures if s.Advanced? then Written(place, old(place.directory.files), job, m)
      else place.directory.files == old(place.directory.files)
    ensures s.PausedRun? ==> mayPause
    ensures s.Failed? && !disk.mayFail && !place.directory.mayFail && Ample(truth, st) ==>
      Converted(job, m).None? || place.staging in old(place.directory.files)
        || !W.LayoutOk(place.rate, OutPos(|job.source|))
  {
    ghost var before := place.directory.files;
    var writer := new W.AtomicWavStreamWriter(codec, place.directory);
    var ok := writer.Open(place.target, place.staging, place.rate, OutPos(|job.source|));
    if !ok { return CheckpointedRun.Failed; }
    StagedAside(place.directory.files, before, place.staging);
    var out;
    s, out := Attempt(job, disk, st, mode, truth, mayPause);
    if !s.Advanced? {
      writer.Abort();
      return;
    }
    ok := Output(job, m, out, writer, place, before);
    if !ok { s := CheckpointedRun.Failed; }
  }

  /** After any number of interrupted attempts, one that is left alone replaces the target by the converted file, or,
      when the uninterrupted conversion fails, changes nothing. */
  method ConvertToEnd(job: Job, st: Store, attempts: nat, m: Mixer, codec: Wav.Codec, place: Place) returns (ok: bool)
    requires ValidJob(job) && ValidLimits(st.limits) && Roomy(job, st) && codec.finite == m.finite
      && place.staging != place.target
    requires !place.directory.mayFail && place.staging !in place.directory.files
      && W.LayoutOk(place.rate, OutPos(|job.source|))
    modifies place.directory
    ensures ok <==> Converted(job, m).Some?
    ensures if ok then Written(place, old(place.directory.files), job, m)
      else place.directory.files == old(place.directory.files)
  {
    ghost var truth := SomeTruth(job);
    EmptyRestartable(truth, st);
    var files: Files := map[];
    var k := 0;
    while k < attempts
      invariant Restartable(truth, st, [files]) && (k == 0 ==> files == map[])
        && place.directory.files == old(place.directory.files)
    {
      var finished, partial;
      finished, partial, files := KillableAttempt(job, files, st, if k == 0 then CreateNew else Resume, truth);
      k := k + 1;
    }
    var disk := new Disk<Name>(files, false);
    var s := ConvertFile(job, disk, st, if k == 0 then CreateNew else Resume, truth, false, m, codec, place);
    ok := s.Advanced?;
  }
}
