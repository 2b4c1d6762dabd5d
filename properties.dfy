/** What `split_and_filter` and `process_all` promise end to end, stated over
    the functional model of the pipeline. */
module PipelineProperties {
  import opened Wrappers
  import opened Sequences
  import opened Chunking
  import opened Naming
  import opened Similarity
  import opened Uniqueness
  import opened Pipeline

  /** Chunk `i` is exported to `_part{i+1}` holding exactly its own content,
      and no two chunks share a temporary path. */
  lemma ExportedChunksDistinct<T>(base: string, chunks: seq<seq<T>>)
    requires '/' !in base
    ensures forall i :: 0 <= i < |chunks| ==>
      Exported(base, chunks)[i].path == TempPath(base, i + 1) && Exported(base, chunks)[i].samples == chunks[i]
    ensures forall i, j :: 0 <= i < j < |chunks| ==> Exported(base, chunks)[i].path != Exported(base, chunks)[j].path
  {
    forall i, j | 0 <= i < j < |chunks|
      ensures Exported(base, chunks)[i].path != Exported(base, chunks)[j].path
    {
      TempPathsDistinct(base, i + 1, j + 1);
    }
  }

  /** The moves of one recording, described by the chunk positions `idx` they
      take: chunk positions strictly increase; the `k`-th move (from 0) takes
      chunk `idx[k]` from `_part{idx[k]+1}` to `_unique{k+1}`; and a chunk is
      moved exactly when it passes the quality gate and is not similar to any
      chunk moved before it. */
  lemma PlanSelectsChunks<T>(filePath: string, outputFolder: string, audio: seq<T>,
                             probes: Probes<T>, settings: Settings)
    returns (idx: seq<nat>)
    ensures IsIndexing(idx, |Chunks(audio)|)
    ensures |Plan(filePath, outputFolder, audio, probes, settings)| == |idx|
    ensures forall k :: 0 <= k < |idx| ==>
      Plan(filePath, outputFolder, audio, probes, settings)[k] ==
        Move(TempPath(RecordingBase(filePath), idx[k] + 1), OutputPath(outputFolder, RecordingBase(filePath), k + 1))
    ensures forall i :: 0 <= i < |Chunks(audio)| ==>
      (i in idx <==>
        Keeps(probes, settings, Exported(RecordingBase(filePath), Chunks(audio))[i]) &&
        !MatchedBefore(Exported(RecordingBase(filePath), Chunks(audio)), idx, i, SimilarTest(probes, settings)))
  {
    var base := RecordingBase(filePath);
    var e := Exported(base, Chunks(audio));
    idx := FilteredGreedy(e, KeepTest(probes, settings), SimilarTest(probes, settings));
    var acc := Accepted(base, audio, probes, settings);
    assert acc == Pick(e, idx);
    var moves := Plan(filePath, outputFolder, audio, probes, settings);
    assert moves == Placement(outputFolder, base, acc);
    forall k | 0 <= k < |idx|
      ensures moves[k] == Move(TempPath(base, idx[k] + 1), OutputPath(outputFolder, base, k + 1))
    {
      PlacementAt(outputFolder, base, acc, k);
      assert acc[k] == e[idx[k]];
      assert e[idx[k]].path == TempPath(base, idx[k] + 1);
    }
    forall i | 0 <= i < |e|
      ensures KeepTest(probes, settings)(e[i]) == Keeps(probes, settings, e[i])
    {
    }
  }

  /** Moves that take strictly increasing chunk positions to consecutive
      output numbers have distinct sources and distinct targets. */
  lemma NumberedMovesDistinct(outputFolder: string, base: string, idx: seq<nat>, n: nat, moves: seq<Move>)
    requires '/' !in base && IsIndexing(idx, n) && |moves| == |idx|
    requires forall k :: 0 <= k < |idx| ==> moves[k] == Move(TempPath(base, idx[k] + 1), OutputPath(outputFolder, base, k + 1))
    ensures forall j, k :: 0 <= j < k < |moves| ==> moves[j].source != moves[k].source && moves[j].target != moves[k].target
  {
    forall j, k | 0 <= j < k < |moves|
      ensures moves[j].source != moves[k].source && moves[j].target != moves[k].target
    {
      TempPathsDistinct(base, idx[j] + 1, idx[k] + 1);
      OutputPathsDistinct(outputFolder, base, j + 1, k + 1);
    }
  }

  /** No two moves of one recording share a source or a target, so no
      output overwrites another output of the same recording. */
  lemma PlanMovesDistinct<T>(filePath: string, outputFolder: string, audio: seq<T>, probes: Probes<T>, settings: Settings)
    ensures forall j, k :: 0 <= j < k < |Plan(filePath, outputFolder, audio, probes, settings)| ==>
      Plan(filePath, outputFolder, audio, probes, settings)[j].source != Plan(filePath, outputFolder, audio, probes, settings)[k].source &&
      Plan(filePath, outputFolder, audio, probes, settings)[j].target != Plan(filePath, outputFolder, audio, probes, settings)[k].target
  {
    var idx := PlanSelectsChunks(filePath, outputFolder, audio, probes, settings);
    NumberedMovesDistinct(outputFolder, RecordingBase(filePath), idx, |Chunks(audio)|, Plan(filePath, outputFolder, audio, probes, settings));
  }

  /** The 12-second example: a 12-second recording whose first two 5-second
      windows are the same audible tone (unit fingerprint `v`) and whose last
      2 seconds are silent. */
  predicate TwelveSecondScenario<T>(audio: seq<T>, probes: Probes<T>, v: seq<real>)
  {
    |audio| == 12000 &&
    probes.rms(audio[..5000]) == Some(0.5) && probes.rms(audio[5000..10000]) == Some(0.5) &&
    probes.rms(audio[10000..]) == Some(0.0) &&
    probes.duration(audio[..5000]) == Some(5.0) && probes.duration(audio[5000..10000]) == Some(5.0) &&
    probes.duration(audio[10000..]) == Some(2.0) &&
    probes.fingerprint(audio[..5000]) == Some(v) && probes.fingerprint(audio[5000..10000]) == Some(v) &&
    Dot(v, v) == 1.0
  }

  /** The three windows of the 12-second example and what the gate and the
      similarity test say about them. */
  lemma TwelveSecondWindows<T>(base: string, audio: seq<T>, probes: Probes<T>, v: seq<real>)
    requires TwelveSecondScenario(audio, probes, v)
    ensures |Chunks(audio)| == 3
    ensures Keeps(probes, Defaults, Exported(base, Chunks(audio))[0])
    ensures Keeps(probes, Defaults, Exported(base, Chunks(audio))[1])
    ensures !Keeps(probes, Defaults, Exported(base, Chunks(audio))[2])
    ensures SimilarChunks(probes, Defaults, Exported(base, Chunks(audio))[1], Exported(base, Chunks(audio))[0])
  {
    var c := Chunks(audio);
    assert |c| == 3;
    assert c[0] == audio[..5000] && c[1] == audio[5000..10000] && c[2] == audio[10000..];
  }

  /** Of three positions, where the first passes the gate, the second
      matches the first and the third fails the gate, only the first is
      kept. */
  lemma OnlyFirstKept<X>(e: seq<X>, idx: seq<nat>, keep: X -> bool, similar: (X, X) -> bool)
    requires |e| == 3 && IsIndexing(idx, 3)
    requires forall i :: 0 <= i < 3 ==> (i in idx <==> keep(e[i]) && !MatchedBefore(e, idx, i, similar))
    requires keep(e[0]) && !keep(e[2]) && similar(e[1], e[0])
    ensures idx == [0]
  {
    assert !MatchedBefore(e, idx, 0, similar);
    assert 0 in idx && 2 !in idx;
    var k0 :| 0 <= k0 < |idx| && idx[k0] == 0;
    assert MatchedBefore(e, idx, 1, similar);
    forall k | 0 <= k < |idx| ensures idx[k] == 0 {
      assert idx[k] in idx;
    }
    IndexingLength(idx, 1);
  }

  /** In the 12-second example only the first exported window survives the
      gate and the similarity filter. */
  lemma TwelveSecondAccepted<T>(base: string, audio: seq<T>, probes: Probes<T>, v: seq<real>)
    requires TwelveSecondScenario(audio, probes, v)
    ensures |Chunks(audio)| == 3
    ensures Accepted(base, audio, probes, Defaults) == [Exported(base, Chunks(audio))[0]]
  {
    TwelveSecondWindows(base, audio, probes, v);
    var e := Exported(base, Chunks(audio));
    var idx := FilteredGreedy(e, KeepTest(probes, Defaults), SimilarTest(probes, Defaults));
    OnlyFirstKept(e, idx, KeepTest(probes, Defaults), SimilarTest(probes, Defaults));
    assert Pick(e, idx) == [e[0]];
  }

  /** The 12-second example with default settings: two identical 5-second
      tones and a 2-second silence give exactly one output, the first tone
      window; the second is a near-duplicate and the third is silent. */
  lemma TwelveSecondExample<T>(filePath: string, outputFolder: string, audio: seq<T>, probes: Probes<T>, v: seq<real>)
    requires TwelveSecondScenario(audio, probes, v)
    ensures Plan(filePath, outputFolder, audio, probes, Defaults) ==
      [Move(TempPath(RecordingBase(filePath), 1), OutputPath(outputFolder, RecordingBase(filePath), 1))]
  {
    var base := RecordingBase(filePath);
    TwelveSecondAccepted(base, audio, probes, v);
    var e0 := Exported(base, Chunks(audio))[0];
    assert e0.path == TempPath(base, 1);
    PlacementAt(outputFolder, base, [e0], 0);
  }

  /** The batch stops exactly when some selected file fails to decode. */
  lemma {:induction false} BatchAbortsOnDecodeFailure<A>(files: seq<string>, load: string -> Option<A>,
                                                        step: (string, A) -> seq<Move>)
    ensures BatchPlan(files, load, step).aborted <==>
      exists i :: 0 <= i < |files| && load(files[i]).None?
  {
    if files != [] && load(files[0]).Some? {
      BatchAbortsOnDecodeFailure(files[1..], load, step);
      assert forall i :: 1 <= i < |files| ==> files[i] == files[1..][i - 1];
      if exists i :: 0 <= i < |files| && load(files[i]).None? {
        var i :| 0 <= i < |files| && load(files[i]).None?;
        assert files[1..][i - 1] == files[i];
      }
    }
  }

  /** An input directory without recognised audio files leads to no moves and
      no error. */
  lemma NoAudioFilesNoOutput<T>(inputFolder: string, outputFolder: string, listing: seq<string>,
                                load: string -> Option<seq<T>>, probes: Probes<T>, settings: Settings)
    requires forall i :: 0 <= i < |listing| ==> !IsAudioFile(listing[i])
    ensures BatchPlan(SelectInputs(inputFolder, listing), load, SplitStep(outputFolder, probes, settings)) == BatchOutcome([], false)
  {
    var idx := SelectInputsExactly(inputFolder, listing);
  }
}
