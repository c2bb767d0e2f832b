/** The chunk settings a conversion can run with, and which of them can make the planner of quiet cuts fail. */
module ChunkSettings {
  import opened Spools
  import opened Bytes
  import opened ConversionJob
  import opened Conversion
  import opened Campaign
  import opened QuietCores
  import opened QuietLimits
  import W = WavWriter

  /** `max_chunk_sec`, `chunk_pad_sec` and `chunk_query_sec`. */
  datatype Settings = Settings(chunk: real, pad: real, query: real)

  /** The ranges that initialisation demands. */
  predicate Accepted(s: Settings) {
    1.0 <= s.chunk <= 30.0 && 0.0 <= s.pad <= 5.0 && 0.0 <= s.query <= 5.0 && s.query <= s.chunk / 2.0
  }

  const Default: Settings := Settings(30.0, 2.0, 1.0)

  function Samples(seconds: real): nat
    requires seconds >= 0.0
  {
    (seconds * InputRate as real).Floor
  }

  /** The configuration of a clip of n samples. */
  function ConfigureFor(s: Settings, n: nat): Option<Config>
    requires Accepted(s) && n >= 2
  {
    Configure(n, Samples(s.chunk), Samples(s.query), Samples(s.pad))
  }

  /** The clips a conversion starts on: two samples or more, with an output that a WAV file can hold. */
  predicate Convertible(n: nat) { n >= 2 && W.LayoutOk(OutputRate, OutPos(n)) }

  lemma SampleRanges(s: Settings)
    requires Accepted(s)
    ensures 16000 <= Samples(s.chunk) <= 480000 && Samples(s.pad) <= 80000
    ensures Samples(s.query) <= 80000 && 2 * Samples(s.query) <= Samples(s.chunk)
  {
    assert s.query * 16000.0 * 2.0 <= s.chunk * 16000.0;
  }

  /** Clips beyond this length are padded as asked for. */
  const LongClip: nat := 80001

  /** The configuration of all long clips. */
  function Effective(s: Settings): (c: Config)
    requires Accepted(s)
    ensures c.chunk > c.query >= ConversionJob.Hop && c.chunk <= 480000 && c.query <= 80000
      && c.hardCore == c.chunk + 2 * c.query
  {
    SampleRanges(s);
    ConfigureFor(s, LongClip).value
  }

  /** Accepted settings are never refused. A long clip has the configuration of all long clips; a short one has its
      chunk and query, or is no longer than a chunk. */
  lemma AcceptedConfigures(s: Settings, n: nat)
    requires Accepted(s) && n >= 2
    ensures ConfigureFor(s, n).Some?
    ensures n >= LongClip ==> ConfigureFor(s, n).value == Effective(s)
    ensures var c := ConfigureFor(s, n).value; var e := Effective(s);
      && c.chunk >= ConversionJob.Hop && c.query == e.query && c.hardCore == c.chunk + 2 * c.query
      && (c.chunk == e.chunk || (n < c.chunk && n < e.chunk))
  {
    SampleRanges(s);
  }

  /** The planner does not fail on the clip. */
  ghost predicate Plans<T>(mt: Meter<T>, x: seq<T>, s: Settings)
    requires Accepted(s) && |x| >= 2
  {
    AcceptedConfigures(s, |x|);
    var c := ConfigureFor(s, |x|).value;
    !OverLong(Bounds(mt, x, c.chunk, c.query), c.hardCore)
  }

  lemma OneCore<T>(mt: Meter<T>, x: seq<T>, chunk: nat, query: nat)
    requires chunk >= ConversionJob.Hop && query >= ConversionJob.Hop && |x| <= chunk
    ensures !OverLong(Bounds(mt, x, chunk, query), chunk + 2 * query)
  {
    assert Bounds(mt, x, chunk, query) == [0, |x|];
  }

  lemma SteadyPlans<T>(mt: Meter<T>, x: seq<T>, s: Settings)
    requires Accepted(s) && |x| >= 2 && Steady(Effective(s).chunk, Effective(s).query)
    ensures Plans(mt, x, s)
  {
    AcceptedConfigures(s, |x|);
    var c := ConfigureFor(s, |x|).value;
    if c.chunk == Effective(s).chunk {
      BoundsFit(mt, x, c.chunk, c.query);
    } else {
      OneCore(mt, x, c.chunk, c.query);
    }
  }

  /** Settings that initialisation accepts never make the planner fail, on any clip a conversion starts on, exactly when
      the chunk and query they lead to are steady. */
  lemma SettingsNeverFailIffSteady<T(!new)>(mt: Meter<T>, quiet: T, loud: T, s: Settings)
    requires Accepted(s) && Contrast(mt, quiet, loud)
    ensures (forall x: seq<T> :: Convertible(|x|) ==> Plans(mt, x, s)) <==>
      Steady(Effective(s).chunk, Effective(s).query)
  {
    if Steady(Effective(s).chunk, Effective(s).query) {
      forall x: seq<T> | Convertible(|x|) ensures Plans(mt, x, s) { SteadyPlans(mt, x, s); }
    } else {
      var x := UnsteadyClip(mt, quiet, loud, s);
    }
  }

  lemma UnsteadyClip<T>(mt: Meter<T>, quiet: T, loud: T, s: Settings) returns (x: seq<T>)
    requires Accepted(s) && Contrast(mt, quiet, loud) && !Steady(Effective(s).chunk, Effective(s).query)
    ensures Convertible(|x|) && !Plans(mt, x, s)
  {
    var e := Effective(s);
    x := UnsteadyFails(mt, quiet, loud, e.chunk, e.query);
    AcceptedConfigures(s, |x|);
  }

  /** Chunk and query on the lattice together are enough, and the settings a pipeline has unless told otherwise are
      such. */
  lemma AlignedNeverFails<T>(mt: Meter<T>, x: seq<T>, s: Settings)
    requires Accepted(s) && |x| >= 2 && (Effective(s).chunk + 2 * Effective(s).query) % ConversionJob.Hop == 0
    ensures Plans(mt, x, s)
  {
    AlignedIsSteady(Effective(s).chunk, Effective(s).query);
    SteadyPlans(mt, x, s);
  }

  lemma DefaultNeverFails<T>(mt: Meter<T>, x: seq<T>)
    requires |x| >= 2
    ensures Accepted(Default) && Plans(mt, x, Default)
  {
    assert Samples(30.0) == 480000 && Samples(2.0) == 32000 && Samples(1.0) == 16000;
    assert Effective(Default).chunk == 480000 && Effective(Default).query == 16000;
    AlignedNeverFails(mt, x, Default);
  }

  /** Settings that are accepted and not steady: the default ones but for a query of 1.0625 seconds. On a clip of 61
      seconds a core exceeds the hard bound. */
  lemma OffLatticeIsUnsteady<T>(mt: Meter<T>, quiet: T, loud: T) returns (x: seq<T>)
    requires Contrast(mt, quiet, loud)
    ensures var s := Settings(30.0, 2.0, 1.0625);
      && Accepted(s) && !Steady(Effective(s).chunk, Effective(s).query) && |x| == 977280 && Convertible(|x|)
      && ConfigureFor(s, |x|) == Some(Config(480000, 17000, 32000, 514000, 578160))
      && OverLong(Bounds(mt, x, 480000, 17000), 514000)
  {
    assert Samples(30.0) == 480000 && Samples(2.0) == 32000 && Samples(1.0625) == 17000;
    assert !StepFits(0 * 480000 + 159 * 17000, 480000 + 34000);
    assert Trap(480000, 17000, 1, 2893, 6106);
    x := TrapIsOverLong(mt, quiet, loud, 480000, 17000, 1, 2893, 6106);
  }

  // ---------------------------------------------------------------- what a failing planner means

  lemma {:induction false} LongCoreFails(job: Job, raw: seq<Word>, f0: seq<Word>, start: nat, ends: seq<nat>)
    requires ValidJob(job) && Ends(|job.source|, start, ends) && OverLong([start] + ends, job.config.hardCore)
    ensures Synthesis(job, raw, f0, start, ends).None?
    decreases |ends|
  {
    var b := [start] + ends;
    var i :| 0 <= i < |b| - 1 && b[i + 1] - b[i] > job.config.hardCore;
    if i > 0 {
      var rest := [ends[0]] + ends[1..];
      assert rest[i - 1] == b[i] && rest[i] == b[i + 1];
      LongCoreFails(job, raw, f0, ends[0], ends[1..]);
    }
  }

  /** A clip with a core over the hard bound is not converted, whatever the networks do. */
  lemma OverLongFails(job: Job)
    requires ValidJob(job) && OverLong(JobBounds(job), job.config.hardCore)
    ensures Uninterrupted(job).None?
  {
    if RawF0(job).Some? && Processed(job).Some? {
      BoundsAreEnds(job);
      assert [0] + JobBounds(job)[1..] == JobBounds(job);
      LongCoreFails(job, RawF0(job).value, Processed(job).value, 0, JobBounds(job)[1..]);
    }
  }
}
