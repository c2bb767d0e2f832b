# A verified model of the voice conversion and training core

This project models, in Dafny 4.11, the parts of the repository in which a hard algorithm is paired with a simple one,
or in which a protocol has to survive being stopped at any step. It proves that the pairs agree and that the protocols
keep what they promise. `dafny verify dfyconfig.toml` checks all of it.

What is modelled, by area:

- **Streamed conversion against the whole-array one** (`Reflection`, `F0Windows`, `QuietCores`, `QuietLimits`,
  `ChunkSettings`, `Highpass`, `F0Post`, `Snapshot`, `ConversionJob`, `CorePlacement`, `WholeConversion`,
  `LoudnessMix`). A clip goes through sample spools in blocks of 8192, pitch windows of eight seconds and cores cut at
  quiet frames. Each streamed stage is a method over spools, each whole-array stage a method over arrays or sequences,
  and both are proved against one specification, which is then characterised on its own: the filter by its difference
  equation and the odd signal it is fed, the median by counting, the resampled clip by its neighbours, each core by
  its place in its segment.
- **Checkpointed computation** (`Disks`, `StoreFiles`, `BlockStore`, `BlockCheckpoints`, `TrueStore`, `Conversion`,
  `CheckpointedRun`, `Campaign`, `StoreRoom`, `FileConversion`, `PreviewSeed`, `OperationSession`). A directory is a
  map from names to bytes. The disk object remembers every state it passed through, so a process killed between any
  two steps leaves one of those states. Over any sequence of pauses, kills, I/O errors and resumes a conversion that
  finishes returns the uninterrupted result, and its file replaces the target in one step or not at all. A preview
  that reuses the blocks of a finished conversion ends with what converting the edited clip from the start would give.
- **Safetensors printers and parser** (`JsonGrammar` to `CheckpointWriters`, `ExportLoads`). The header parser is
  stated twice, as functions on the remaining text and as methods on a cursor that compute them. The grammar of
  sections 4 to 7 of RFC 8259 is a datatype of syntax trees with their texts; the skipper accepts exactly those texts.
  Both writers are proved against the parser.
- **The in-place Fourier transforms** (`Rings`, `Fft`, `FftSplit`), over any commutative ring with a suitable root.
- **Training** (`RunState`, `RunText`, `TrainingRun`, `CheckpointText`, `JointState`, `TrainingDirectory`,
  `Retention`, `TrainingCampaign`, `WholeTraining`, `TrainingCancel`): shuffled epochs, the text form of a run and of
  its checkpoints, whole checkpoint files, start-up recovery, checkpoint retention, whole runs from an empty directory
  over many sessions, and the cancel channel under every interleaving. The files of a run are those of the joint
  writer.
- **WAV files** (`Wav`, `WavWriter`) and **pitch review** (`PitchReview`, `PitchRescan`).

## How the model reads the code

- Samples are reals where only their order and exact arithmetic matter (filter, pitch, resampling), and 32-bit float
  patterns where bits matter (block store, checkpoints). Narrowing to float, finiteness, logarithms and powers are
  parameters of the stage, with the few laws a proof needs as named predicates. Settings in seconds are reals too.
- Networks, the checksum, the random generator, shuffling and the text form of floats are deterministic functions
  given as parameters. What is demanded of them: a positive float is read back from its own text, a shuffle permutes,
  a product with a positive factor is positive only when the other factor is, and a byte is read back from its float.
  `RunState.OracleExists` and `WholeTraining.RecipeExists` give operations that do all this.
- A bit test on a counter is written as a remainder; the running twiddle is the power of an abstract root.
- A directory is read in any order. Files that belong to no protocol are one constructor of the name datatypes. The
  lock is an entry that is never removed; its exclusion of other processes, file identity checks and the moment at
  which a sync takes effect are not part of this model.
- Text of the JSON parser is a sequence of characters standing for bytes; bytes from 128 on are ordinary characters.
- A 64-bit or `int` overflow check of the code is written out wherever it can decide a result.

## What turned out to be so

- The header parser accepts some texts that are not JSON: a lone opening brace, and an object that stops after a
  comma. `SafetensorsJson.AcceptedHeaderIsJson` says exactly which, and `SafetensorsJson.OpenBraceAccepted` is one.
- The joint writer accepts a tensor called `__metadata__`, and the file it then writes does not load;
  `CheckpointWriters.JointLoads` gives the exact condition, `ExportLoads.ReservedNameIsLost` one such list. The
  generator exporter also writes repeated names, ranks above 32 and names that read as others or not at all;
  `ExportLoads.GeneratorLoads` says that these are what keeps its files from loading, `ExportLoads.RepeatedNameIsLost`
  and `ExportLoads.RankIsLost` are such lists.
- The planner of quiet cuts can exceed its own hard bound when chunk and query are off the 160-sample lattice;
  `QuietLimits.NeverFailsIffSteady` gives the exact condition on the two lengths,
  `ChunkSettings.SettingsNeverFailIffSteady` the same for the settings the pipeline accepts. The default settings meet
  it; 1.0625 seconds of search instead of 1 do not (`ChunkSettings.OffLatticeIsUnsteady`, a clip of 61 seconds).
- A padded clip shorter than one hop makes the streamed conversion fail, as the whole-array path then has no output
  either; `WholeConversion.SynthesisIffHop` shows that nothing else in the loop can fail by itself, and
  `WholeConversion.TwoSamplesFail` is such a clip.
- A training run resumed from a checkpoint with two later ones beside it loses the next checkpoint it saves;
  `Retention.SavedIsKept` gives the exact condition.
- After a suggested octave repair the next scan looks at the frame where the repaired stretch ends and may offer to
  move what follows; `PitchRescan.RescanAtEdge` says when, `PitchRescan.RescanCanSuggestAgain` is a curve on which it
  does.

## Model

| member | source | states |
|---|---|---|
| `Fft.NextReversed` | src/f0/fcpe.cpp:94-96 | the carry loop takes the running counter from rev(i) to rev(i + 1), for every i below n - 1 |
| `Fft.BitReverse` | src/f0/fcpe.cpp:93-98 | the swapping loop leaves element rev(i) of the original array in slot i, for every power-of-two length |
| `Fft.RevInvolution` | src/f0/fcpe.cpp:93-98 | reversing the bits of an index twice gives the index back |
| `Fft.PolySplit` | src/f0/fcpe.cpp:105-107 | a transform sum splits into its even-indexed half and z times its odd-indexed half, both at z squared |
| `Fft.Butterfly` | src/f0/fcpe.cpp:103-109 | between two stages of partial transforms, slots k and k + len/2 of a block are u + w^k v and u - w^k v |
| `Fft.PolyIsDft` | src/f0/fcpe.cpp:91-112 | the polynomial form of the last stage is the transform sum, over any commutative ring |
| `Fft.Block` | src/f0/fcpe.cpp:103-109 | the innermost loop turns one block into its next stage in place, with the running twiddle, and leaves the other blocks |
| `Fft.Pass` | src/f0/fcpe.cpp:99-111 | one pass over the blocks takes the whole array from one stage to the next |
| `Fft.Transform` | src/f0/fcpe.cpp:91-112 | the in-place transform leaves the sum of a[i] w^(ik) of the original array in every slot k, for any lawful ring and root w with w^(n/2) = -1 |
| `FftSplit.TransformSplit` | src/f0/rmvpe.cpp:56-82 | the transform on separate real and imaginary arrays leaves the same complex sums, with its four-product multiplication |
| `Rings.ComplexIsLawful` | src/f0/rmvpe.cpp:72-78 | the complex products written out on pairs obey the laws the transform needs |
| `Reflection.ReflectedSymmetric` | src/pipeline/pipeline.cpp:140-149 | the reflected clip contains the clip and is symmetric about its first and last samples, without repeating them |
| `Reflection.ReflectPad` | src/pipeline/pipeline.cpp:140-149 | the whole-array padding, with its clamp to one less than the length and its early returns |
| `Reflection.ReadReflected` | src/pipeline/bounded_pipeline.cpp:371-441 | a streamed read of any range succeeds exactly inside the padded clip and equals that slice of the reflected array |
| `F0Windows.PlanAccepts` | src/pipeline/bounded_pipeline_detail.h:41-81 | the plan exists exactly when the clip is non-empty, the context is on the lattice and the first frame exists; with positive context it never fails |
| `F0Windows.PlanCovers` | src/pipeline/bounded_pipeline_detail.h:41-81 | an accepted window is inside the clip, holds its frames and their full context, crops to them, and is at most core + 2 context long |
| `F0Windows.CropIsWhole` | src/pipeline/bounded_pipeline.cpp:535-610 | for an extractor that looks no further than the context, the cropped window equals the same frames of one extraction of the whole clip |
| `F0Windows.StreamedIsWhole` | src/pipeline/bounded_pipeline.cpp:535-610 | concatenating the cropped windows equals one extraction of the whole clip, for every length and every positive context on the lattice |
| `QuietCores.ScanKeepsFirstMinimum` | src/pipeline/pipeline.cpp:472-498 | the strict comparison keeps the first frame of least energy, or the first frame when none is below the float maximum |
| `QuietCores.EnergyOfEqual` | src/pipeline/pipeline.cpp:472-481 | a frame of 160 samples of one magnitude measures 160 times that magnitude |
| `QuietCores.EnergyMoves` | src/pipeline/pipeline.cpp:472-481 | another sample changes the sum by the difference of the magnitudes when it is in the frame, and not at all otherwise |
| `QuietCores.EnergyNarrows` | src/pipeline/pipeline.cpp:472-481 | what is compared is that sum, narrowed once |
| `QuietCores.RangeNotEmpty` | src/pipeline/bounded_pipeline.cpp:467-478 | with chunk and query at least a hop the searched range is never empty, so the branch that skips an empty one is dead |
| `QuietCores.CutPoints` | src/pipeline/pipeline.cpp:472-498 | the eager loop of the whole-array path produces the list of bounds |
| `QuietCores.Planner.Next` | src/pipeline/bounded_pipeline.cpp:450-519 | the lazy planner hands out exactly the remaining bounds in order, and fails exactly on a core over the hard bound |
| `QuietCores.Planner.constructor` | src/pipeline/bounded_pipeline.cpp:443-449 | a fresh planner is about to hand out the eager list of the same chunk and query |
| `QuietCores.Planner.QuietestInWindow` | src/pipeline/bounded_pipeline.cpp:480-506 | the energies summed from one spool read pick the frame that the eager search picks |
| `QuietCores.LatticeStep` | src/pipeline/bounded_pipeline.cpp:457-513 | two cuts a search step apart stay within the step exactly when the remainders modulo 160 do not carry |
| `QuietCores.BoundsFit` | src/pipeline/bounded_pipeline.cpp:443-533 | for steady chunk and query the cores of every clip tile it in order, start on the lattice and stay within the hard bound |
| `QuietLimits.UnsteadyFails` | src/pipeline/bounded_pipeline.cpp:509-523 | for any other chunk and query there is a clip with a core longer than the hard bound, on which the planner fails; with a chunk longer than the query, which all accepted settings give, the clip has at most 161 chunks, a query and two frames |
| `QuietLimits.NeverFailsIffSteady` | src/pipeline/bounded_pipeline.cpp:443-533 | on every clip the cores are ordered, on the lattice and within the hard bound if and only if chunk and query are steady, a check on residues modulo 160; otherwise it is the hard bound that some core exceeds |
| `ChunkSettings.AcceptedConfigures` | src/pipeline/bounded_pipeline.cpp:1086-1120 | settings within the ranges the pipeline accepts are never refused by the configuration of a conversion, and every clip of more than five seconds gets the same chunk and query |
| `ChunkSettings.SettingsNeverFailIffSteady` | src/pipeline/pipeline.cpp:273-280 | for accepted settings, the planner fails on no clip whose output the writer can hold if and only if the effective chunk and query are steady |
| `ChunkSettings.AlignedNeverFails` | src/pipeline/pipeline.cpp:273-280 | accepted settings whose effective chunk plus two queries is on the lattice make the planner fail on no clip |
| `ChunkSettings.DefaultNeverFails` | include/voxmutatio/core/types.h:101-103 | the default settings of 30 seconds, 2 seconds of padding and 1 second of search make the planner fail on no clip |
| `ChunkSettings.OffLatticeIsUnsteady` | src/pipeline/pipeline.cpp:273-280 | accepted settings of 30 seconds, 2 seconds of padding and 1.0625 seconds of search, and a clip of 61 seconds on which a core exceeds the hard bound |
| `ChunkSettings.OverLongFails` | src/pipeline/bounded_pipeline.cpp:509-523 | a core over the hard bound means that the conversion has no output |
| `ConversionJob.ConfigureFits` | src/pipeline/bounded_pipeline.cpp:1092-1120 | a configuration is accepted exactly when query, padding and two hops fit the content bound, and the last bound check never fails |
| `ConversionJob.SegmentFits` | src/pipeline/bounded_pipeline.cpp:1186-1200 | every core within the hard bound gives a non-empty segment within the padded clip and within the 40-second content bound |
| `ConversionJob.SynthesisLength` | src/pipeline/bounded_pipeline.cpp:1253-1296 | trimmed or zero-filled pieces telescope: what is synthesised from a core on is exactly floor(5n/2) minus the output position of that core |
| `ConversionJob.SynthesisIsStitched` | src/pipeline/bounded_pipeline.cpp:1162-1292 | wherever the streamed synthesis succeeds the whole-array stitching gives the same samples, of which `CorePlacement.BlockIsCut` and `StitchIsCut` say where they come from |
| `ConversionJob.StitchLong` | src/pipeline/pipeline.cpp:500-534 | the whole-array loop over the bounds computes the stitched clip |
| `CorePlacement.BlockIsCut` | src/pipeline/bounded_pipeline.cpp:1262-1292 | sample t of a core is the sample of its synthesised segment that many places behind the padding, and silence where the segment has ended; the segment is what the synthesiser makes of the padded clip from one padding before the core to one padding and a hop behind it |
| `CorePlacement.StitchIsCut` | src/pipeline/pipeline.cpp:509-533 | the whole-array path takes the same samples, leaves out a core without pitch frames, and fails exactly on an empty segment |
| `CorePlacement.ConversionSamples` | src/pipeline/bounded_pipeline.cpp:1162-1292 | in the output of a whole conversion every core stands at five halves of its place in the clip and is cut so out of its segment |
| `CorePlacement.OneSignal` | src/pipeline/bounded_pipeline.cpp:1253-1292 | if every segment plays one signal from its own place on, the output is that signal without a seam, wherever the cuts are |
| `CorePlacement.ConversionPlays` | src/pipeline/bounded_pipeline.cpp:1086-1296 | with 400 samples for every pitch frame and a padding of a hop or more this holds for every conversion: output sample t is the signal at t behind the padding |
| `Disks.ReplaceFile` | src/io/block_checkpoint.cpp:129-145 | publication through a pending file: every state on the way is the old directory, a torn pending file or the new directory; success installs the whole content |
| `BlockStore.Publish` | src/io/block_checkpoint.cpp:129-145 | the same for blocks and identity of a store, failing only on I/O errors or a leftover pending file |
| `StoreFiles.ManifestInjective` | src/io/block_checkpoint.cpp:79-92 | two identities never share a manifest |
| `BlockCheckpoints.DecodeExact` | src/io/block_checkpoint.cpp:147-173 | a block file is accepted for a key, offset and count exactly when it is the encoding of that many finite values under them |
| `BlockCheckpoints.EncodeThenDecode` | src/io/block_checkpoint.cpp:179-195 | what save writes, read accepts and returns |
| `BlockCheckpoints.DecodeThenEncode` | src/io/block_checkpoint.cpp:147-173 | what read returns, save would have written byte for byte |
| `BlockCheckpoints.Scan` | src/io/block_checkpoint.cpp:93-119 | the constructor's scan removes only partial blocks, counts the rest, and never refuses a directory this store left behind |
| `BlockCheckpoints.Initialize` | src/io/block_checkpoint.cpp:120-125 | finishing an interrupted identity publication leaves exactly the identity |
| `BlockCheckpoints.Open` | src/io/block_checkpoint.cpp:63-127 | opening never changes a committed block in any intermediate state, refuses another identity untouched, creates only in an empty directory, and succeeds on every directory this store can leave behind |
| `BlockCheckpoints.SoundIsSmall` | src/io/block_checkpoint.cpp:93-104 | such a directory is always below the scan limit |
| `BlockCheckpoints.PublishIsSound` | src/io/block_checkpoint.cpp:129-145 | every torn or complete publication of a block within the limits leaves such a directory |
| `BlockCheckpoints.BlockCheckpoint.Read` | src/io/block_checkpoint.cpp:147-173 | a healthy store answers a key by its committed block, and a pending file is never read as one |
| `BlockCheckpoints.BlockCheckpoint.Load` | src/io/block_checkpoint.cpp:176-178 | a load is a read that counts its hits |
| `BlockCheckpoints.BlockCheckpoint.Save` | src/io/block_checkpoint.cpp:179-195 | saving keeps an equal block, refuses a different one and anything over the limits untouched, publishes the rest; the counters equal the directory while healthy |
| `BlockCheckpoints.BlockCheckpoint.AtBoundary` | src/io/block_checkpoint.cpp:196-199 | a broken store stops the run, otherwise a requested pause takes effect |
| `BlockCheckpoints.LookupExact` | src/io/block_checkpoint.cpp:147-173 | for storable data the store answers present exactly when it holds its encoding and missing exactly when it holds no file of the key |
| `Conversion.KeysInjective` | src/pipeline/bounded_pipeline.cpp:1171-1171 | distinct window and core positions have distinct block keys, and the two kinds never collide |
| `Conversion.SomeTruth` | src/pipeline/bounded_pipeline.cpp:553-607 | the blocks of one conversion form a single-valued table by key |
| `TrueStore.TrueAnswer` | src/pipeline/bounded_pipeline.cpp:1172-1184 | a store that only ever received blocks of this conversion answers a key only with that conversion's block |
| `TrueStore.PublishIsGood` | src/pipeline/bounded_pipeline.cpp:1284-1289 | a torn or complete publication of such a block keeps the store in that state |
| `CheckpointedRun.StoredF0` | src/pipeline/bounded_pipeline.cpp:553-607 | one window, loaded or computed and saved, appends the same frames either way |
| `CheckpointedRun.BuildRawF0` | src/pipeline/bounded_pipeline.cpp:535-610 | the checkpointed pitch loop that finishes leaves the uninterrupted pitch sequence |
| `CheckpointedRun.StoredCore` | src/pipeline/bounded_pipeline.cpp:1171-1291 | one core, loaded or computed, committed and read back, appends the same samples either way |
| `CheckpointedRun.CoreStep` | src/pipeline/bounded_pipeline.cpp:1162-1292 | one turn of the synthesis loop, with or without a store; the output stands exactly at the output position of the next core, so the alignment failures are unreachable |
| `Campaign.UninterruptedLength` | src/pipeline/bounded_pipeline.cpp:1293-1296 | a conversion that succeeds has exactly floor(40000 n / 16000) samples, so the final length check never fails |
| `Campaign.SynthesizeAll` | src/pipeline/bounded_pipeline.cpp:1162-1296 | the whole synthesis loop over the lazy planner produces the uninterrupted samples |
| `Campaign.Attempt` | src/pipeline/bounded_pipeline.cpp:1123-1304 | one attempt that finishes returns what a run without a checkpoint returns; one that fails without I/O errors and with room in the store fails because that run fails |
| `Campaign.KillableAttempt` | src/io/block_checkpoint.cpp:63-145 | an attempt killed in any state its directory goes through leaves a directory the next one can resume |
| `Campaign.Run` | src/pipeline/bounded_pipeline.cpp:1162-1307 | over any sequence of pauses, kills, I/O errors and resumes, the attempt that finishes returns the uninterrupted result |
| `Campaign.RunToEnd` | src/pipeline/bounded_pipeline.cpp:1162-1307 | after any such sequence an attempt that is left alone ends exactly as the uninterrupted run, in success or failure |
| `WholeConversion.StreamedF0IsWhole` | src/pipeline/pipeline.cpp:455-462 | the streamed pitch of a conversion is one extraction over the padded clip |
| `WholeConversion.SynthesisIffHop` | src/pipeline/bounded_pipeline.cpp:1215-1221 | when the synthesiser answers on every core of the run, the streamed synthesis fails exactly when the padded clip is shorter than one hop |
| `WholeConversion.BoundedIsWhole` | src/pipeline/pipeline.cpp:440-545 | when the networks answer on the cores of this clip, and for steady lengths, the streamed conversion succeeds exactly when the padded clip has a hop, and then equals the whole-array one |
| `WholeConversion.ShortClipFails` | src/pipeline/bounded_pipeline.cpp:1215-1221 | a padded clip below one hop is not converted, whatever the networks do |
| `WholeConversion.TwoSamplesFail` | src/pipeline/bounded_pipeline.cpp:1051-1118 | a clip of two samples is accepted with a padding of one, and is such a clip |
| `StoreRoom.UnitsNeeded` | src/pipeline/bounded_pipeline.cpp:535-610 | a conversion files at most one block for every window of 800 frames and one for every chunk begun, and their files add up to at most 160 bytes each plus four per frame and output sample |
| `StoreRoom.RoomyByCount` | src/io/block_checkpoint.cpp:179-195 | limits of that many blocks and bytes, with a block size for the longest core, leave room for every block at every moment, so no save is refused |
| `StoreRoom.DefaultIsRoomy` | include/voxmutatio/io/block_checkpoint.h:35-39 | the default limits are enough for an hour of audio in chunks of a second or more |
| `LoudnessMix.ComputeRecords` | src/pipeline/bounded_pipeline.cpp:777-810 | the streamed loudness records are those of the whole array, and it fails exactly on an empty clip or a record that is not finite |
| `LoudnessMix.EnvelopeCursor.Value` | src/pipeline/bounded_pipeline.cpp:812-850 | the cursor that keeps two records answers every position with the interpolated envelope of the whole array |
| `LoudnessMix.ChangeEnvelope` | src/pipeline/pipeline.cpp:172-207 | the whole-array path scales every sample by the two envelopes |
| `LoudnessMix.EnvelopeIs` | src/pipeline/pipeline.cpp:191-197 | records stand at the middles of equal parts of the length; the envelope is the straight line between them, and the first and the last record before and behind |
| `LoudnessMix.RecordOfEqual` | src/pipeline/pipeline.cpp:175-190 | the record of a stretch of equal amplitude is the root of its square |
| `LoudnessMix.MixedIsScaled` | src/pipeline/pipeline.cpp:199-206 | a mixed sample is the output's sample times the factor for the source's envelope there and the output's, the latter at least a millionth |
| `LoudnessMix.WriteFinalOutput` | src/pipeline/bounded_pipeline.cpp:852-905 | the block loop hands exactly the mixed samples to the writer, and fails only on a wrong length, a value that is not finite or an I/O error |
| `FileConversion.Output` | src/pipeline/bounded_pipeline.cpp:1293-1308 | mixing and commit either install the whole converted file or leave the directory as it was before the conversion |
| `FileConversion.ConvertFile` | src/pipeline/bounded_pipeline.cpp:998-1332 | a conversion that is paused or fails leaves every file of the output directory as it was; one that succeeds changes the target only, to the mixed uninterrupted samples |
| `FileConversion.ConvertToEnd` | src/pipeline/bounded_pipeline.cpp:998-1332 | after any number of interrupted attempts one that is left alone writes that file exactly when the uninterrupted conversion has one, and otherwise changes nothing |
| `PreviewSeed.UntouchedCore` | tools/web/pitch_review.cpp:91-95 | a core between whose first and last frame no pitch changes is synthesised to the same samples |
| `PreviewSeed.CoreStaysTrue` | tools/web/pitch_review.cpp:91-96 | a stored core of the finished conversion with such frames is the one the edited conversion files under that key |
| `PreviewSeed.ReadEvidence` | tools/web/pitch_review.cpp:22-41 | with the two seconds of padding that the code counts frames by, the pitch read back window by window is that of the uninterrupted conversion; another number of frames is refused unless the frames counted end with a full window |
| `PreviewSeed.ChangedFrames` | tools/web/pitch_review.cpp:77-80 | the list of changed frames exists exactly when every change lies within the previewed seconds, give or take 11 ms, and holds them all in order |
| `PreviewSeed.IsAffected` | tools/web/pitch_review.cpp:93-95 | a core is called untouched only when no changed frame lies in its range |
| `PreviewSeed.JudgeCores` | tools/web/pitch_review.cpp:90-97 | every core fits between its neighbours, those not marked keep their pitch, and the count is that of the marks |
| `PreviewSeed.SeedWindows` | tools/web/pitch_review.cpp:108-110 | the pitch cut at multiples of 800 frames gives every window of the edited conversion |
| `PreviewSeed.SeedPreview` | tools/web/pitch_review.cpp:53-121 | in every state on the way the seeded store holds only blocks of the edited conversion; a complete one holds all windows and all but at most two cores, and its edits change nothing outside the previewed seconds |
| `PreviewSeed.Preview` | tools/web/pitch_review.cpp:53-121 | seeding that is broken off anywhere, and any interrupted attempts after it, end with the result of converting the edited clip from the start |
| `OperationSession.OpenDirectory` | tools/app_support/operation_checkpoint.h:63-75 | creating and opening one directory of a session keeps all its blocks in every intermediate state |
| `OperationSession.StartSession` | tools/app_support/operation_checkpoint.h:49-66 | start and resume open the owner and touch no stage; a sound root that exists always resumes; another identity is refused untouched; stage data without an owner identity is refused |
| `OperationSession.OpenStage` | tools/app_support/operation_checkpoint.h:67-76 | a valid stage key other than the owner always opens in a sound session |
| `OperationSession.Session` | tools/app_support/operation_checkpoint.h:43-88 | a session over any stages, stopped in any state, leaves a sound root with every committed block still there |
| `OperationSession.ResumeAlways` | tools/app_support/operation_checkpoint.h:43-76 | after any number of sessions stopped anywhere, a session without I/O errors resumes once the root exists and opens any stage |
| `JsonExact.StringSound` | src/io/safetensors.cpp:186-228 | a parsed string is the text of a JSON string of section 7 of RFC 8259 with that value, surrogate pairs included |
| `JsonExact.StringOver` | src/io/safetensors.cpp:186-228 | every such string is parsed to its value |
| `JsonExact.ValueSound` | src/io/safetensors.cpp:244-324 | what the recursive skipper passes over is white space and one RFC 8259 value, with distinct keys in every object and within the depth limit |
| `JsonExact.ValueOver` | src/io/safetensors.cpp:244-324 | every such value is passed over exactly |
| `JsonExact.AcceptsExactly` | src/io/safetensors.cpp:244-324 | a whole text is skipped if and only if it is such a value with leading white space |
| `JsonScanner.ScanString` | src/io/safetensors.cpp:186-228 | the cursor loop reads exactly what the string function reads and leaves the cursor behind it |
| `JsonScanner.ScanNumber` | src/io/safetensors.cpp:283-305 | the same for numbers |
| `JsonScanner.ScanArray` | src/io/safetensors.cpp:246-260 | the same for arrays, terminating on every input |
| `JsonScanner.ScanObject` | src/io/safetensors.cpp:262-281 | the same for objects, terminating on every input |
| `JsonScanner.ScanValue` | src/io/safetensors.cpp:307-324 | the same for values, terminating on every input |
| `SafetensorsScanner.ScanUint` | src/io/safetensors.cpp:230-242 | the integer loop and its overflow checks compute the 64-bit reading |
| `SafetensorsScanner.ScanShape` | src/io/safetensors.cpp:326-345 | the shape loop computes the shape reading |
| `SafetensorsScanner.ScanOffsets` | src/io/safetensors.cpp:347-358 | the offsets reading |
| `SafetensorsScanner.ComputeStrides` | src/io/safetensors.cpp:407-418 | the downward stride loop computes the layout of a shape |
| `SafetensorsScanner.ScanTensor` | src/io/safetensors.cpp:360-427 | the field loop with its duplicate and missing field checks computes the tensor reading |
| `SafetensorsScanner.ScanHeader` | src/io/safetensors.cpp:444-480 | the member loop computes the header reading |
| `SafetensorsScanner.CheckCoverage` | src/io/safetensors.cpp:481-488 | the coverage loop decides contiguity of the sorted ranges |
| `SafetensorsScanner.Load` | src/io/safetensors.cpp:429-489 | the whole loader is the parsing function the theorems below are about |
| `SafetensorsLayout.LayoutExact` | src/io/safetensors.cpp:407-421 | a layout exists exactly when no partial product overflows, its byte count is four times the shape product and its strides are row-major |
| `SafetensorsLayout.SortSorts` | src/io/safetensors.cpp:480-482 | the ranges are sorted and none is lost |
| `SafetensorsLayout.PayloadPartition` | src/io/safetensors.cpp:480-488 | in every accepted file each payload byte belongs to exactly one tensor |
| `SafetensorsLayout.TensorsFit` | src/io/safetensors.cpp:631-638 | every accepted tensor is F32, row-major, four bytes per element, and its data lies inside the file |
| `SafetensorsJson.AcceptedHeaderIsJson` | src/io/safetensors.cpp:444-480 | an accepted header is an RFC 8259 object if and only if its last character other than white space is the closing brace; otherwise it ends in an opening brace or a comma |
| `SafetensorsJson.OpenBraceAccepted` | src/io/safetensors.cpp:444-480 | a file whose header is a single opening brace is accepted |
| `SafetensorsText.NumRead` | src/training/generator_trainer.cpp:210-215 | a printed number is read back |
| `SafetensorsText.EntryRead` | src/training/joint_checkpoint.h:77-80 | a printed header entry is read back as that name, shape and range, and as metadata under the reserved name |
| `SafetensorsFiles.CoverageExact` | src/io/safetensors.cpp:478-489 | entries laid end to end cover the payload exactly when none of them has the reserved name |
| `SafetensorsFiles.FileIsRead` | src/io/safetensors.cpp:429-489 | a file of consecutive entries loads exactly when none has the reserved name and its header is within the limit |
| `SafetensorsFiles.DataIsRead` | src/io/safetensors.cpp:631-638 | each loaded entry gives back its own bytes |
| `SafetensorsWriters.WrittenLoads` | src/io/safetensors.cpp:429-489 | the same for any list of arrays as the writers lay them out, padding included |
| `SafetensorsWriters.TensorReadBack` | src/io/safetensors.cpp:631-638 | each array reads back with its name, shape, row-major strides and bits |
| `SafetensorsWriters.NamesReadBack` | src/io/safetensors.cpp:619-629 | no other tensor is loaded |
| `CheckpointWriters.ElementsAre` | src/training/joint_checkpoint.h:27-36 | the bounded element count is the product of the shape |
| `CheckpointWriters.JointHeaderText` | src/training/joint_checkpoint.h:70-81 | the header loop accepts exactly the legal lists, with distinct plain names and bounded sizes, and prints their entries and running offsets |
| `CheckpointWriters.WriteJoint` | src/training/joint_checkpoint.h:65-99 | the joint writer succeeds exactly on accepted input and writes the laid-out file with the state text as its last tensor |
| `CheckpointWriters.JointLoads` | src/training/joint_checkpoint.h:65-99 | a file it writes loads if and only if no tensor is called `__metadata__` and the header is within the parser's limit |
| `CheckpointWriters.JointReadBack` | src/training/joint_checkpoint.h:65-99 | a loaded checkpoint holds exactly the tensors written, state included, bit for bit |
| `CheckpointWriters.RestoreExact` | src/training/joint_checkpoint.h:100-118 | the restoring reader returns the values written, exactly when it asks for their shape and its value checks allow them |
| `CheckpointWriters.WriteGenerator` | src/training/generator_trainer.cpp:187-230 | the exporter succeeds exactly when every entry fills its shape with finite values and no size overflows, and writes the laid-out file |
| `ExportLoads.GeneratorRoundTrip` | src/training/generator_trainer.cpp:187-230 | a loaded export gives every entry back with its shape and its values bit for bit, under the name that its printed name reads as |
| `ExportLoads.GeneratorNames` | src/training/generator_trainer.cpp:187-230 | a loaded export holds no tensor besides those of its entries |
| `ExportLoads.PlainAsKey` | src/training/generator_trainer.cpp:202-202 | a name without quotes, backslashes and control characters reads as itself |
| `ExportLoads.KeyRefused` | src/training/generator_trainer.cpp:202-202 | a printed name with a control character or a bad escape, a last backslash among them, is not read as a key |
| `ExportLoads.GeneratorLoads` | src/training/generator_trainer.cpp:187-230 | an exported file without quotes in its names loads if and only if every name is read, none as `__metadata__` and no two alike, the ranks are at most 32 and the header is within the limit; the exporter itself checks none of these |
| `ExportLoads.ReservedNameIsLost` | src/training/joint_checkpoint.h:70-81 | a list of one tensor called `__metadata__` that the joint writer accepts and whose file does not load |
| `ExportLoads.RepeatedNameIsLost` | src/training/generator_trainer.cpp:187-230 | a list that names a tensor twice, which the exporter accepts and whose file does not load |
| `ExportLoads.RankIsLost` | src/training/generator_trainer.cpp:187-230 | a tensor of 33 or more dimensions of one is such a list too |
| `ExportLoads.NamesMeet` | src/training/generator_trainer.cpp:202-202 | two different names that the reader takes for one |
| `CheckpointText.QuotedBack` | src/training/joint_trainer.cpp:431-431 | a quoted text is read back, whatever quotes and backslashes it holds |
| `CheckpointText.MetaBack` | src/training/joint_trainer.cpp:466-474 | the text of a checkpoint gives back speaker, step, learning rate, noise generator and run text |
| `CheckpointText.MetaFits` | src/training/joint_trainer.cpp:427-431 | that text is never empty and always within the 160 KiB the writer allows |
| `JointState.TextBack` | src/training/joint_trainer.cpp:460-465 | the text of a loaded joint checkpoint comes back byte for byte from its floats |
| `JointState.SnapshotBack` | src/training/joint_trainer.cpp:422-505 | what is saved is restored: text, generator and every tensor of the manifest |
| `JointState.Save` | src/training/joint_trainer.cpp:422-449 | saving succeeds exactly on a run text within the bound and on what the joint writer accepts, and the file restores to the snapshot |
| `JointState.Restore` | src/training/joint_trainer.cpp:451-505 | restoring reads the text, then exactly the manifest and nothing besides, and refuses everything else |
| `Highpass.FilterArray` | src/pipeline/pipeline.cpp:117-129 | the whole-array recurrence |
| `Highpass.IirPrefix` | src/pipeline/bounded_pipeline.cpp:210-230 | the filter is causal: a prefix of its output is the output of the prefix |
| `Highpass.IirState.Process` | src/pipeline/bounded_pipeline.cpp:210-230 | the shift register extends the filtered sequence by the recurrence's next sample |
| `Highpass.HighpassFiltfilt` | src/pipeline/pipeline.cpp:110-137 | the in-place whole-array filter is the zero-phase filter, leaving short clips alone |
| `Highpass.ExtendedIsOdd` | src/pipeline/pipeline.cpp:129-131 | the signal fed to the filter is the one sequence that has the clip in the middle and is odd about its first and last sample, 18 samples to both sides |
| `Highpass.PassAnswers` | src/pipeline/pipeline.cpp:118-126 | a sequence is the result of a pass if and only if the sums of six samples in and six out, weighted by the two sets of coefficients, agree at every sample |
| `Highpass.ZeroPhaseIs` | src/pipeline/pipeline.cpp:110-137 | a sequence is the filtered clip if and only if it is the clip's part of the answer, taken from the end to the start, to the answer to the oddly extended clip; clips below 40 samples stay |
| `Highpass.ForwardPass` | src/pipeline/bounded_pipeline.cpp:258-309 | the streamed forward pass over odd reflection, clip and odd reflection equals the filtered extended clip, and fails exactly on a value that is not finite |
| `Highpass.BackwardPass` | src/pipeline/bounded_pipeline.cpp:311-342 | reading blocks from the end and filtering them equals filtering the reversed clip |
| `Highpass.OutputPass` | src/pipeline/bounded_pipeline.cpp:344-369 | reversing block by block and cutting off the padding gives the zero-phase output |
| `Highpass.BuildFilteredSource` | src/pipeline/bounded_pipeline.cpp:232-369 | the streamed filter equals the whole-array one for every clip, and fails exactly when a value stops being finite |
| `F0Post.FilledBetween` | src/pipeline/pipeline.cpp:152-169 | inside a gap the filled curve is the straight line between its voiced neighbours, in proportion to the distances |
| `F0Post.FilledHead` | src/pipeline/pipeline.cpp:152-169 | before the first voiced frame it is that frame |
| `F0Post.FilledTail` | src/pipeline/pipeline.cpp:152-169 | after the last voiced frame it is that frame |
| `F0Post.InterpUnvoiced` | src/pipeline/pipeline.cpp:152-169 | the in-place loops compute the filled curve |
| `F0Post.FillGaps` | src/pipeline/bounded_pipeline.cpp:612-717 | so does the streamed filling, with gaps across block boundaries |
| `F0Post.SortSorts` | src/pipeline/pipeline.cpp:95-107 | the window is sorted and keeps its values |
| `F0Post.MedianIs` | src/pipeline/pipeline.cpp:95-107 | the value taken is one of the 2r + 1 around the frame; at least r + 1 of them are at most it, and at least r + 1 at least it |
| `F0Post.MedianUnique` | src/pipeline/pipeline.cpp:95-107 | only one value is so |
| `F0Post.MedianFilter` | src/pipeline/pipeline.cpp:95-107 | every value of the result is the median, by counting, of the values around its frame, the ends repeated |
| `F0Post.HaloMedian` | src/pipeline/bounded_pipeline.cpp:733-760 | the value taken from a clamped halo is the median, by counting, around that frame of the whole clip |
| `F0Post.ProcessWhole` | src/pipeline/pipeline.cpp:463-468 | fill, median and shift in sequence on arrays; every value is the median around its frame, multiplied by the factor when it is voiced |
| `F0Post.BuildProcessedF0` | src/pipeline/bounded_pipeline.cpp:662-775 | the streamed processing gives the same for every pitch sequence, filter and shift, medians by counting included, and fails exactly on an oversized filter or a value that is not finite |
| `PitchReview.CheckEdits` | include/voxmutatio/core/pitch_edit.h:15-25 | edits are accepted exactly when they are ordered, disjoint and within their ranges |
| `PitchReview.ApplyEdits` | src/f0/pitch_review.cpp:29-43 | the edit loop applies each edit to its voiced frames and fails exactly on one that has none or leaves the range |
| `PitchReview.ShiftRaises` | src/f0/pitch_review.cpp:38-41 | a shift raises the level of the voiced frames from its start to before its end by its semitones and keeps the others; it is refused exactly when its times do not fit |
| `PitchReview.SmoothIsStraight` | src/f0/pitch_review.cpp:34-37 | a smooth edit puts the levels of its frames on the straight line between its ends and keeps all others; it is refused exactly when its times do not fit or a frame of it is silent |
| `PitchReview.PreparePitchCurve` | src/f0/pitch_review.cpp:14-44 | for exactly the requests within its ranges and lists of edits it accepts: the edits, in turn, on the shifted medians by counting |
| `PitchReview.ProcessF0` | src/pipeline/bounded_pipeline.cpp:944-985 | the production path applies the edits to the streamed processing, and without unvoiced interpolation gives the review's curve |
| `PitchReview.RepairSound` | src/f0/pitch_review.cpp:57-76 | a repair covers 2 to 50 voiced frames inside the clip, shifts by exactly 12 semitones, and every frame in it contradicts the frame it leads to |
| `PitchReview.RepairApplies` | src/f0/pitch_review.cpp:29-43 | applying the suggestion shifts exactly the frames of the repair |
| `PitchReview.RepairSettles` | src/f0/pitch_review.cpp:57-85 | once it is applied no repair is offered again for that jump |
| `PitchRescan.ShiftInserted` | src/f0/pitch_review.cpp:29-42 | a shift put before later edits of the list changes the curve as one made after them |
| `PitchRescan.InsertedValid` | include/voxmutatio/core/pitch_edit.h:15-25 | an accepted list with one more valid edit is accepted exactly when it had fewer than sixteen and the edit lies strictly between its neighbours |
| `PitchRescan.ReviewedAgain` | src/f0/pitch_review.cpp:14-44 | the list with the suggestion put into it is accepted exactly under that condition; then the curve computed anew is the old one with the suggested frames shifted, and gets no suggestion for the same jump |
| `PitchRescan.RescanAtJump` | src/f0/pitch_review.cpp:78-85 | there the next scan goes on at the return edge, which the first one stepped over, exactly when the curve no longer jumps |
| `PitchRescan.RescanAtEdge` | src/f0/pitch_review.cpp:57-76 | at that edge it suggests a repair exactly when the pitch falls back once more and every frame up to there fits an octave the other way |
| `PitchRescan.RescanCanSuggestAgain` | src/f0/pitch_review.cpp:53-86 | a curve of two drops in a row on which it does |
| `PitchReview.ReviewFrame` | src/f0/pitch_review.cpp:53-86 | the loop body with its searches decides one frame as the specification does |
| `PitchReview.ScanSound` | src/f0/pitch_review.cpp:45-88 | every suggestion of a scan lies inside the clip, is 0.02 to 0.5 seconds long and shifts by exactly 12 semitones |
| `PitchReview.FindPitchIssues` | src/f0/pitch_review.cpp:45-88 | the scan terminates with at most 64 issues, refuses exactly the invalid input, and its suggestions are sound |
| `Wav.OpenOk` | src/io/bounded_audio_io.cpp:267-384 | what an accepted file announces lies inside the file |
| `Wav.WalkChunks` | src/io/bounded_audio_io.cpp:297-366 | the chunk loop is the walk that both readers share |
| `Wav.OtherChunk` | src/io/audio_io.cpp:145-175 | a chunk of any other kind is passed over with its padding byte and changes nothing, unless it does not fit |
| `Wav.SecondChunk` | src/io/audio_io.cpp:145-185 | a second format or data chunk is refused |
| `Wav.ReadWav` | src/io/audio_io.cpp:109-231 | the whole-file reader accepts a file exactly when the chunk reader opens it and every frame decodes, with the same metadata and the decoded frames |
| `Wav.MixOfEqual` | src/io/audio_io.cpp:201-222 | a frame with the same value in every channel is mixed to that value, however many channels there are |
| `Wav.MixOfTwo` | src/io/audio_io.cpp:201-222 | two channels are mixed to the middle between them |
| `Wav.WavChunkReader.Open` | src/io/bounded_audio_io.cpp:267-384 | the chunk reader opens a file exactly when the shared walk accepts it |
| `Wav.WavChunkReader.ReadMonoFrames` | src/io/bounded_audio_io.cpp:405-489 | a range read succeeds exactly inside the file on finite frames, and gives those frames |
| `WavWriter.StagingRejected` | src/io/bounded_audio_io.cpp:230-246 | before the header is patched the staging file is rejected by the reader, whatever follows the header |
| `WavWriter.WrittenOpens` | src/io/bounded_audio_io.cpp:230-246 | a committed file opens with the same rate and sample count |
| `WavWriter.WrittenFrames` | src/io/bounded_audio_io.cpp:728-794 | each of its frames decodes to the sample written |
| `WavWriter.EncodeNear` | src/io/bounded_audio_io.cpp:755-770 | a value that need not be exact is cut off towards zero at 32767 steps to one, and beyond one at one |
| `WavWriter.ReadBack` | src/io/bounded_audio_io.cpp:405-489 | every range of a committed file reads back as exactly that slice |
| `WavWriter.AtomicWavStreamWriter.Open` | src/io/bounded_audio_io.cpp:667-720 | opening touches no file but the staging file, which starts as an unpatched header |
| `WavWriter.AtomicWavStreamWriter.Append` | src/io/bounded_audio_io.cpp:728-794 | appending in any split extends the encoded samples, touching only the staging file; a bad sample or too many fail the writer for good |
| `WavWriter.AtomicWavStreamWriter.Commit` | src/io/bounded_audio_io.cpp:796-838 | the target becomes the complete file in one rename exactly when all samples were written; otherwise the target is untouched and the staging file is gone |
| `WavWriter.AtomicWavStreamWriter.Abort` | src/io/bounded_audio_io.cpp:840-840 | aborting removes the staging file and nothing else |
| `WavWriter.ReadExcerpt` | src/io/audio_excerpt.cpp:21-30 | an excerpt of a mono PCM16 file is read exactly for the requests that can be met |
| `WavWriter.WriteAudioExcerpt` | src/io/audio_excerpt.cpp:21-33 | the excerpt file is the bit-exact slice of the input's words; otherwise the target is untouched |
| `Snapshot.ResampledSame` | src/io/audio_io.cpp:490-493 | at equal rates resampling is the identity on float samples, as the early return claims |
| `Snapshot.ResampledBetween` | src/io/audio_io.cpp:505-516 | output i lies i times the one rate divided by the other into the input, in whole samples and a part of one: between two neighbours in that proportion, and at the last sample behind it |
| `Snapshot.ResampledOnSample` | src/pipeline/bounded_pipeline.cpp:172-190 | an output on an input sample is that sample |
| `Snapshot.ResampledLine` | src/pipeline/bounded_pipeline.cpp:172-190 | a straight line stays the same straight line at the other rate |
| `Snapshot.ResampleLinear` | src/io/audio_io.cpp:490-520 | the whole-array resampler |
| `Snapshot.NativeCache.SampleAt` | src/pipeline/bounded_pipeline.cpp:148-163 | the sliding cache answers every index with the file's frame |
| `Snapshot.BuildSnapshot` | src/pipeline/bounded_pipeline.cpp:135-208 | the streamed snapshot of a file of finite frames is the resampled frames, and fails exactly when one of them is not finite |
| `Snapshot.ReadAndResample` | src/io/audio_io.cpp:109-231 | reading and resampling the whole file fails exactly when it does not open or a frame does not decode, gives the resampled frames or nothing when there are too many, and for files of finite frames the samples of the snapshot |
| `RunState.PlannedIsValid` | tools/app_support/joint_full_training.cpp:112-114 | a schedule whose last learning rate is positive is valid at every step |
| `RunState.OracleExists` | tools/app_support/joint_run_state.h:40-55 | operations that meet every law demanded here although, as with floats, two negative factors have a positive product; and a run that begins under them |
| `RunState.BeginIsPlanned` | tools/app_support/joint_full_training.cpp:110-114 | a run that begins and whose last learning rate is positive is planned, from step zero |
| `RunState.NextKeeps` | tools/app_support/joint_run_state.h:46-55 | one turn keeps a valid state and moves exactly one step on |
| `RunState.TraceSplit` | tools/app_support/joint_full_training.cpp:199-217 | running on is running from where a cut run stands |
| `RunState.RunKeeps` | tools/app_support/joint_full_training.cpp:199-217 | every state of a run is valid |
| `RunState.OrderHolds` | tools/app_support/joint_run_state.h:52-53 | the clip order does not change within an epoch |
| `RunState.EpochVisitsEachClipOnce` | tools/app_support/joint_run_state.h:35-53 | every epoch visits every clip exactly once, for any shuffle |
| `RunState.TurnDraws` | tools/app_support/joint_run_state.h:47-55 | a turn draws its crop for the clip of its slot; behind the last slot of an epoch that another one follows, order and generator are those of a shuffle, and otherwise the crop alone moves the generator |
| `RunState.EpochEnds` | tools/app_support/joint_run_state.h:52-53 | the next epoch has the shuffled order, under the generator this epoch's crops have left; behind the last epoch nothing is shuffled |
| `RunState.EpochStarts` | tools/app_support/joint_run_state.h:52-53 | so every epoch of a whole run starts with the order and the generator that all the shuffles and crops before it have left |
| `RunState.UncutVisit` | tools/app_support/joint_full_training.cpp:199-209 | the j-th visit of epoch e: the j-th clip of that order, a crop drawn after those before it, and the rate of that epoch |
| `RunState.EpochDecays` | tools/app_support/joint_run_state.h:54-55 | the rate of the first epoch is that of the start, and each later one is the one before times the decay |
| `RunText.SerializedLength` | tools/app_support/joint_run_state.h:64-69 | the text of any valid state stays below 28000 characters, so the 65536 limit is never hit |
| `RunText.ParseSerialized` | tools/app_support/joint_run_state.h:64-79 | parsing what was serialised gives the state back |
| `RunText.ResumeIsInvisible` | tools/app_support/joint_full_training.cpp:179-217 | a run cut at any step, saved, restored and resumed visits the same clips, crops and learning rates as an uncut run |
| `TrainingRun.Run.CurrentClip` | tools/app_support/joint_run_state.h:49-49 | the clip of the current slot, refused when done |
| `TrainingRun.Run.Crop` | tools/app_support/joint_run_state.h:50-51 | a crop draws from the generator and is refused outside 32 to 600 frames or when done |
| `TrainingRun.Run.Advance` | tools/app_support/joint_run_state.h:52-53 | a step forward takes order and generator from a shuffle exactly at the end of an epoch that is not the last, keeps both otherwise, and is refused when done |
| `TrainingRun.Run.LearningRate` | tools/app_support/joint_run_state.h:54-55 | the decay loop, refusing an underflow |
| `TrainingRun.Run.Finish` | tools/app_support/joint_full_training.cpp:199-217 | the training loop ends done, having made exactly the visits that `RunState.UncutVisit` describes |
| `TrainingRun.Serialize` | tools/app_support/joint_run_state.h:64-69 | the printing loops produce the text of every valid state and refuse the others |
| `TrainingRun.Parse` | tools/app_support/joint_run_state.h:70-79 | the reading loops accept exactly what the parser of the round trip accepts, with the same state |
| `TrainingDirectory.Inspect` | tools/app_support/joint_initialization.cpp:24-63 | the scan accepts, in any order of entries, exactly the eligible directories, and reports the identity and the partial files |
| `TrainingDirectory.Recover` | tools/app_support/joint_initialization.cpp:68-77 | recovery refuses ineligible directories and other identities untouched, and otherwise removes the partial files and nothing else |
| `TrainingDirectory.StartingIsEligible` | tools/app_support/joint_initialization.cpp:24-63 | everything a stopped start leaves behind before its first checkpoint is eligible for the same run |
| `TrainingDirectory.PublishedIsRefused` | tools/app_support/joint_initialization.cpp:54-55 | once any checkpoint is published an initial resume is refused |
| `TrainingDirectory.AcceptedUntilPublished` | tools/app_support/joint_full_training.cpp:117-192 | in every state of a start, an initial resume is accepted if and only if the step-zero checkpoint is missing |
| `TrainingDirectory.CommitStart` | tools/app_support/joint_full_training.cpp:191-192 | the identity, then the step-zero state, each through a temporary file; every state on the way is one a resume accepts, or the published one |
| `TrainingDirectory.Start` | tools/app_support/joint_full_training.cpp:116-192 | a start or initial resume stopped anywhere leaves only such states, and one that is left alone publishes the first checkpoint |
| `TrainingDirectory.StartUntilSaved` | tools/app_support/joint_full_training.cpp:116-192 | after any number of stops and I/O errors the directory ends with exactly the lock, the identity and the complete step-zero state |
| `Retention.NameOfStep` | tools/app_support/joint_full_training.cpp:69-75 | every step an int can count has a recognised name from which it is read back |
| `Retention.NameOrder` | tools/app_support/joint_full_training.cpp:69-85 | name order is step order, and a step has one name |
| `Retention.SaveState` | tools/app_support/joint_full_training.cpp:76-86 | a save publishes its checkpoint, then removes exactly those with two newer ones; every state on the way is known |
| `Retention.SavedIsKept` | tools/app_support/joint_full_training.cpp:76-86 | the checkpoint just saved survives its own pruning if and only if fewer than two later steps are there |
| `Retention.AtMostTwo` | tools/app_support/joint_full_training.cpp:80-85 | at most two checkpoints remain after a save |
| `Retention.NewestSurvives` | tools/app_support/joint_full_training.cpp:76-86 | at every moment of a save the newest earlier checkpoint is still there complete |
| `Retention.InOrderIsKept` | tools/app_support/joint_full_training.cpp:76-86 | saving in step order keeps the one just saved and never a later one |
| `Retention.SaveRun` | tools/app_support/joint_full_training.cpp:199-217 | all the saves of a fresh run, or of one resumed from its newest checkpoint, keep it so |
| `Retention.OldResumeLosesItsSave` | tools/app_support/joint_full_training.cpp:76-86 | with two later checkpoints there, a run resumed from an older one loses its next save |
| `TrainingCampaign.StateSaved` | tools/app_support/joint_full_training.cpp:76-79 | every state of a run can be saved, and the run text in its checkpoint is read back as that state |
| `TrainingCampaign.SaveKeepsProgress` | tools/app_support/joint_full_training.cpp:76-86 | at every moment of a save the directory holds a checkpoint, and only true ones of this run |
| `TrainingCampaign.LoadNewest` | tools/app_support/joint_full_training.cpp:179-187 | the newest name restores to the newest state, and passes the checks of dataset, recipe, step and learning rate |
| `TrainingCampaign.TurnAndSave` | tools/app_support/joint_full_training.cpp:199-217 | one turn makes the uncut run's next visit; behind every fifth epoch and the last its checkpoint is there, behind any other step nothing is written, and the directory stays true |
| `TrainingCampaign.TrainOn` | tools/app_support/joint_full_training.cpp:195-218 | the loop with its cancellation, and the poll behind it, visits a stretch of the uncut run; finished means to its end and with the last checkpoint there, stopped means that its last step is saved, failed means an I/O error or a name collision |
| `TrainingCampaign.LastPoll` | tools/app_support/joint_full_training.cpp:218-218 | a run cancelled when it is done has saved its last step once more, and only true checkpoints are there at every moment |
| `TrainingCampaign.Session` | tools/app_support/joint_full_training.cpp:179-218 | the same for a process that checks the marker, restores the newest checkpoint and writes the marker anew |
| `TrainingCampaign.WriteMarker` | tools/app_support/joint_full_training.cpp:191-191 | the marker is written through its own temporary file; no checkpoint changes, and it fails only on an I/O error or a name collision |
| `TrainingCampaign.KilledSession` | tools/app_support/joint_full_training.cpp:76-86 | a process killed in any state of its directory leaves one to resume from |
| `TrainingCampaign.TrainToEnd` | tools/app_support/joint_full_training.cpp:179-218 | after any number of sessions cancelled, failed or killed anywhere, one that is left alone makes exactly the visits that the uncut run makes from its restored step to the end, and leaves the checkpoint of the end |
| `WholeTraining.PublishedIsProgress` | tools/app_support/joint_full_training.cpp:190-192 | the directory a start leaves is one the sessions can resume from, at step zero |
| `WholeTraining.CheckedIsValid` | tools/app_support/joint_full_training.cpp:96-114 | a recipe that passes the checks of a start meets every demand the results on runs make |
| `WholeTraining.TrainFromNothing` | tools/app_support/joint_full_training.cpp:96-218 | a run from an empty directory, its start stopped and its sessions cancelled, failed or killed any number of times, ends with exactly the visits of the uncut run and with its last checkpoint |
| `WholeTraining.SeededVisits` | tools/app_support/joint_run_state.h:40-55 | those visits by seed: the first order is the shuffle of the clips under the generator of the seed, each later one the shuffle of the one before under the generator its crops have left |
| `WholeTraining.RecipeExists` | tools/app_support/joint_full_training.cpp:96-114 | there are such operations, a checkpoint format and a recipe |
| `TrainingCancel.AfterDelivery` | tools/app_support/training_cancel.h:44-56 | after a delivered request, in every interleaving, at most the body already past its poll completes, and the job stops within its next poll as cancelled, or as an error when that body or poll fails |
| `TrainingCancel.CompletedRanAll` | tools/app_support/training_cancel.h:44-56 | completion implies all steps ran in order, and no request was delivered before the final poll |
| `TrainingCancel.ErrorIsFailure` | tools/app_support/training_cancel.h:41-56 | a job errs exactly when a body or a poll failed, and is cancelled only on request |
| `TrainingCancel.ClosedIsQuiet` | tools/app_support/training_cancel.h:30-42 | after close returns no call changes the channel |
| `TrainingCancel.CancelReader.Poll` | tools/app_support/training_cancel.cpp:23-35 | a poll reports the byte in the channel; an error is sticky, and comes only from a failed read or another content |
| `TrainingCancel.CancelSource.Request` | tools/app_support/training_cancel.cpp:50-62 | a request is delivered exactly when the source is open and unbroken, and then the channel says 1 |
| `TrainingCancel.CancelSource.Close` | tools/app_support/training_cancel.cpp:63-72 | closing happens once and keeps the first error |
| `TrainingCancel.RunTrainingIterations` | tools/app_support/training_cancel.h:44-56 | the loop, with any calls of other threads before each of its steps, follows one of the interleavings above |
| `TrainingCancel.RunResult` | tools/app_support/training_cancel.h:44-56 | what each result means, whatever the other threads did |
| `TrainingCampaign.LoopBody` | tools/app_support/joint_full_training.cpp:200-216 | one pass: cancelled at its poll it saves where it stands, otherwise it makes the next visit |

## Left out

- The networks' forward and backward passes, losses, mel filterbanks and device code: numerics over operators that the algorithms here only call.
- Rounding of floating-point arithmetic in the filter, the pitch stages, the resampler and the loudness mix, whose twins are compared over the reals.
- The web interface beyond the seeding of previews, HTTP server, command line, progress lines, model registry and batch driver: plumbing.
- The feature cache of training, candidate exports and the final export: one file each, written once.
- POSIX detail (interrupted calls, file identity and links, mapping, locks between processes).
- `load_snapshot` and the memory mapping of the loader: the same parser over a copied or mapped file.
- UTF-8 validity of JSON strings, which the parser does not look at.
- WholeConversion.BoundedIsWhole: assumes that on this clip the extractor looks no further than the context, the synthesiser answers every core with finite samples and pitch processing keeps the length, because the two paths call them on different inputs. The filtered clip and the pitch processing are parameters here; `Highpass`, `F0Post` and `Snapshot` prove their own twins equal.
- FileConversion.ConvertFile: starts from the filtered clip and does not follow a kill of the process inside the output directory, where only the staging file differs until the commit (`WavWriter`).
- ExportLoads.GeneratorLoads: says nothing of names with quotes, which the exporter prints as they are and which can end a name early, nor of files whose length would not fit 64 bits.
- PitchRescan.ReviewedAgain: is about the jump the suggestion was made for, because a repair may move a neighbouring jump.
- RunText.ParseSerialized: the reader of numbers takes no sign, and floats as whole words, because the printer writes none.
- JointState.Restore: the value checks on optimizer variances and weight norms are a parameter, the tensors a list in the order of the manifest, and the two optimizers one step count and rate.
- TrainingDirectory.Start: takes the first checkpoint as one byte sequence of at most 4 GiB, which is the limit the recovery puts on a partial file.
- TrainingCampaign.Session: one random suffix serves all temporary files of a process, where the code draws one for each file.
- TrainingCampaign.TrainToEnd: the weights and the noise generator of each checkpoint are functions of the run's state; what is followed is the position of the run.
- WholeTraining.TrainFromNothing: the process that publishes the first checkpoint hands over to a session that restores it, where the code trains on with the equal state in memory.
- PreviewSeed.SeedPreview: takes the sorted list of cores and the two processed curves as given (without gap filling `PitchReview.ProcessF0` shows that they are those of the review), is for jobs whose padding is the two seconds (or the clip less one sample) by which the code judges cores, and leaves out the comparison of recipes and files, and the rename of the finished seed.
- OperationSession.StartSession: an entry of the root is a directory; links and plain files in its place are refused by the code before any of this.
