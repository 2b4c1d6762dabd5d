/** `split_and_filter` and `process_all`: segment a recording, export the
    chunks under temporary names, keep the ones that pass the quality gate,
    keep the first of each cluster of similar chunks, and move the survivors
    to numbered output names. The file-system effects are returned as a list
    of moves; measurements of an exported chunk are functions of its content. */
module Pipeline {
  import opened Wrappers
  import opened Sequences
  import opened Chunking
  import opened Naming
  import opened QualityGate
  import opened Similarity
  import opened Uniqueness

  /** The tunable limits of `split_and_filter`. */
  datatype Settings = Settings(threshold: real, minDuration: real, silenceRms: real)

  const Defaults: Settings := Settings(DefaultThreshold, DefaultMinDuration, DefaultSilenceRms)

  /** What the audio libraries report about the file holding a chunk, as
      functions of the chunk's content; `None` when the call raises. */
  datatype Probes<!T> = Probes(
    rms: seq<T> -> Option<real>,
    duration: seq<T> -> Option<real>,
    fingerprint: seq<T> -> Option<seq<real>>)

  /** An exported chunk: its temporary path and its content. */
  datatype Chunk<T> = Chunk(path: string, samples: seq<T>)

  /** `shutil.move(source, target)`. */
  datatype Move = Move(source: string, target: string)

  /** What `process_all` did: the moves made, and whether an input failed to
      decode, which ends the batch. */
  datatype BatchOutcome = BatchOutcome(moves: seq<Move>, aborted: bool)

  /** The quality-gate condition for one exported chunk. */
  predicate Keeps<T>(probes: Probes<T>, settings: Settings, c: Chunk<T>)
  {
    Passes(probes.rms(c.samples), probes.duration(c.samples), settings.silenceRms, settings.minDuration)
  }

  /** `is_similar(a, b, threshold)` for two exported chunks. */
  predicate SimilarChunks<T>(probes: Probes<T>, settings: Settings, a: Chunk<T>, b: Chunk<T>)
  {
    IsSimilar(Score(probes.fingerprint(a.samples), probes.fingerprint(b.samples)), settings.threshold)
  }

  function KeepTest<T>(probes: Probes<T>, settings: Settings): Chunk<T> -> bool
  {
    c => Keeps(probes, settings, c)
  }

  function SimilarTest<T>(probes: Probes<T>, settings: Settings): (Chunk<T>, Chunk<T>) -> bool
  {
    (a, b) => SimilarChunks(probes, settings, a, b)
  }

  /** The chunks after export: chunk `i` (from 0) is written to `_part{i+1}`. */
  function Exported<T>(base: string, chunks: seq<seq<T>>): (r: seq<Chunk<T>>)
    ensures |r| == |chunks|
  {
    seq(|chunks|, i requires 0 <= i < |chunks| => Chunk(TempPath(base, i + 1), chunks[i]))
  }

  /** The chunks that survive the quality gate, in order. */
  function Candidates<T>(base: string, audio: seq<T>, probes: Probes<T>, settings: Settings): seq<Chunk<T>>
  {
    Filter(Exported(base, Chunks(audio)), KeepTest(probes, settings))
  }

  /** `unique_chunks`. */
  function Accepted<T>(base: string, audio: seq<T>, probes: Probes<T>, settings: Settings): seq<Chunk<T>>
  {
    Greedy(Candidates(base, audio, probes, settings), SimilarTest(probes, settings))
  }

  /** The moves of the final loop: the `k`-th accepted chunk (from 1) goes to
      `_unique{k}`. */
  function Placement<T>(outputFolder: string, base: string, accepted: seq<Chunk<T>>): (r: seq<Move>)
    ensures |r| == |accepted|
  {
    seq(|accepted|, k requires 0 <= k < |accepted| => Move(accepted[k].path, OutputPath(outputFolder, base, k + 1)))
  }

  lemma PlacementAt<T>(outputFolder: string, base: string, accepted: seq<Chunk<T>>, k: nat)
    requires k < |accepted|
    ensures Placement(outputFolder, base, accepted)[k] == Move(accepted[k].path, OutputPath(outputFolder, base, k + 1))
  {
  }

  /** Everything `split_and_filter` moves for one recording. */
  function Plan<T>(filePath: string, outputFolder: string, audio: seq<T>, probes: Probes<T>, settings: Settings): (r: seq<Move>)
    ensures |r| <= WindowCount(|audio|)
    ensures |audio| == 0 ==> r == []
  {
    var base := RecordingBase(filePath);
    Placement(outputFolder, base, Accepted(base, audio, probes, settings))
  }

  /** The per-file step of `process_all`: `split_and_filter` with the batch's
      output folder and settings. */
  function SplitStep<T>(outputFolder: string, probes: Probes<T>, settings: Settings): (string, seq<T>) -> seq<Move>
  {
    (filePath, audio) => Plan(filePath, outputFolder, audio, probes, settings)
  }

  /** The moves of `process_all` over the selected files, each decoded by
      `load` and handled by `step`, stopping at the first file that fails to
      decode. */
  function BatchPlan<A>(files: seq<string>, load: string -> Option<A>, step: (string, A) -> seq<Move>): BatchOutcome
  {
    if files == [] then BatchOutcome([], false)
    else match load(files[0])
      case None => BatchOutcome([], true)
      case Some(audio) =>
        var rest := BatchPlan(files[1..], load, step);
        BatchOutcome(step(files[0], audio) + rest.moves, rest.aborted)
  }

  /** `moves` are the moves of the files before position `i`, none of
      which failed to decode. */
  ghost predicate BatchPrefix<A>(files: seq<string>, i: nat, moves: seq<Move>,
                                 load: string -> Option<A>, step: (string, A) -> seq<Move>)
    requires i <= |files|
  {
    var rest := BatchPlan(files[i..], load, step);
    BatchPlan(files, load, step) == BatchOutcome(moves + rest.moves, rest.aborted)
  }

  /** The first file of a batch either ends it or contributes its moves
      ahead of the rest. */
  lemma BatchPlanFirst<A>(files: seq<string>, load: string -> Option<A>, step: (string, A) -> seq<Move>)
    requires files != []
    ensures load(files[0]).None? ==> BatchPlan(files, load, step) == BatchOutcome([], true)
    ensures load(files[0]).Some? ==>
      BatchPlan(files, load, step) ==
        BatchOutcome(step(files[0], load(files[0]).value) + BatchPlan(files[1..], load, step).moves,
                     BatchPlan(files[1..], load, step).aborted)
  {
  }

  /** Decoding file `i` either ends the batch with the moves made so far or
      extends them by that file's moves. */
  lemma BatchPlanAt<A>(files: seq<string>, i: nat, moves: seq<Move>,
                       load: string -> Option<A>, step: (string, A) -> seq<Move>)
    requires i < |files| && BatchPrefix(files, i, moves, load, step)
    ensures load(files[i]).None? ==> BatchPlan(files, load, step) == BatchOutcome(moves, true)
    ensures load(files[i]).Some? ==>
      BatchPrefix(files, i + 1, moves + step(files[i], load(files[i]).value), load, step)
  {
    var here := files[i..];
    assert here[0] == files[i] && here[1..] == files[i + 1..];
    BatchPlanFirst(here, load, step);
    if load(files[i]).None? {
      assert moves + [] == moves;
    } else {
      var m := step(files[i], load(files[i]).value);
      var rest := BatchPlan(files[i + 1..], load, step);
      assert moves + (m + rest.moves) == (moves + m) + rest.moves;
    }
  }

  // ---------- the imperative loops ----------

  /** The export loop building `chunk_paths`. */
  method ExportChunks<T>(base: string, chunks: seq<seq<T>>) returns (exported: seq<Chunk<T>>)
    ensures exported == Exported(base, chunks)
  {
    exported := [];
    for i := 0 to |chunks|
      invariant exported == Exported(base, chunks[..i])
    {
      var outPath := Join(TempFolder, PartName(base, i + 1));
      exported := exported + [Chunk(outPath, chunks[i])];
    }
    assert chunks[..|chunks|] == chunks;
  }

  /** The loop moving each accepted chunk to its final name. */
  method PlaceOutputs<T>(outputFolder: string, base: string, unique: seq<Chunk<T>>) returns (moves: seq<Move>)
    ensures moves == Placement(outputFolder, base, unique)
  {
    moves := [];
    for idx := 0 to |unique|
      invariant moves == Placement(outputFolder, base, unique[..idx])
    {
      var finalPath := Join(outputFolder, UniqueName(base, idx + 1));
      moves := moves + [Move(unique[idx].path, finalPath)];
    }
    assert unique[..|unique|] == unique;
  }

  method SplitAndFilter<T>(filePath: string, outputFolder: string, audio: seq<T>, probes: Probes<T>, settings: Settings)
    returns (moves: seq<Move>)
    ensures moves == Plan(filePath, outputFolder, audio, probes, settings)
  {
    var base := RecordingBase(filePath);
    var chunks := Chunks(audio);
    var chunkPaths := ExportChunks(base, chunks);
    chunkPaths := Filter(chunkPaths, KeepTest(probes, settings));
    var uniqueChunks := UniqueChunks(chunkPaths, SimilarTest(probes, settings));
    moves := PlaceOutputs(outputFolder, base, uniqueChunks);
  }

  method ProcessAll<T>(inputFolder: string, outputFolder: string, listing: seq<string>,
                       load: string -> Option<seq<T>>, probes: Probes<T>, settings: Settings)
    returns (outcome: BatchOutcome)
    ensures outcome == BatchPlan(SelectInputs(inputFolder, listing), load, SplitStep(outputFolder, probes, settings))
  {
    var allFiles := SelectInputs(inputFolder, listing);
    ghost var step := SplitStep(outputFolder, probes, settings);
    var moves: seq<Move> := [];
    assert allFiles[0..] == allFiles;
    var i := 0;
    while i < |allFiles|
      invariant 0 <= i <= |allFiles|
      invariant BatchPrefix(allFiles, i, moves, load, step)
    {
      BatchPlanAt(allFiles, i, moves, load, step);
      var audio := load(allFiles[i]);
      if audio.None? {
        return BatchOutcome(moves, true);
      }
      var m := SplitAndFilter(allFiles[i], outputFolder, audio.value, probes, settings);
      assert m == step(allFiles[i], audio.value);
      moves := moves + m;
      i := i + 1;
    }
    assert allFiles[i..] == [];
    assert moves + [] == moves;
    outcome := BatchOutcome(moves, false);
  }
}
