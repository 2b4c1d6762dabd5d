# audio-split-tool: verified model of the chunk filtering pipeline

`converter.py` cuts every audio file of an input folder into 5-second chunks,
drops the chunks that are silent or too short, drops each chunk that sounds
like one already kept, and moves the survivors into an output folder as
`<base>_unique<k>.wav`. This project models the decision logic of that
pipeline in Dafny and proves what it promises:

- `Chunking`: the chunk comprehension `[audio[i:i+5000] for i in range(0, len(audio), 5000)]`
  over a recording seen as a sequence of milliseconds. The chunks partition
  the recording. There are ceil(len/5000) of them. All but the last are
  5000 ms long, and the last is truncated, never padded.
- `QualityGate`: `is_silent_or_quiet`, `is_too_short` and the filter that
  combines them. A measurement is an `Option<real>`, where `None` means the
  measurement raised. Both comparisons are strict. A failed RMS counts as
  audible, while a failed duration counts as too short.
- `Similarity`: the decision `np.dot(fp1, fp2) > threshold` of `is_similar`.
  Fingerprints are opaque vectors. Any failure, including a dot product of
  vectors of different lengths, means "not similar".
- `Uniqueness`: the greedy loop that builds `unique_chunks`. It is a method
  (an outer loop plus the short-circuiting `any`) proved equal to the
  function `Greedy`. The lemmas about `Greedy` say that the result is an
  order-preserving subsequence, that the first candidate wins, that kept
  chunks are pairwise dissimilar, and that every skipped chunk matched a
  kept one.
- `Naming`: `os.path.basename`, `os.path.splitext`, `os.path.join` (POSIX),
  the space-to-underscore base name, the `_part{i}` and `_unique{k}` names,
  and the case-insensitive `.wav`/`.mp3`/`.flac` selection of `process_all`.
  Within one recording, temporary paths are pairwise distinct, and so are
  output paths.
- `Pipeline`: `split_and_filter` and `process_all` as methods with loops,
  each proved equal to a specification function (`Plan`, `BatchPlan`). The
  file moves they would make are returned as a list of `Move`s.
  `PipelineProperties` states the end-to-end facts: which chunks are moved
  where, no move collides with another of the same recording, and the
  12-second example gives exactly one output.

Measurements of an exported chunk (RMS, duration, fingerprint) are modelled
as functions of the chunk's content (`Probes`). This matches the code:
`ExportedChunksDistinct` proves that each chunk is written to its own
temporary path, so reading a path back gives that chunk. The functions are
deterministic, so the model assumes that re-measuring a file gives the same
answer.

Behaviour of the code that the model keeps:

- `process_all` does not catch a file that fails to decode
  (`AudioSegment.from_file` raising). That file ends the whole batch, and
  the outputs of earlier files stay in place. `BatchPlan` records this with
  `aborted`, and `BatchAbortsOnDecodeFailure` states when it happens.
- `np.dot` raises on fingerprints of different lengths, for example the
  truncated last chunk against a full one. `is_similar` catches that error,
  so such pairs are never similar (`Score` returns `None`).
- The extension filter is case-insensitive and needs the dot: `f.lower()`
  must end in `.wav`, `.mp3` or `.flac`.

The model also shows that different input files can share a base name
(`BaseNamesCollide`: "a b.wav" and "a_b.mp3" both give `a_b`). Their outputs
then get the same `_unique{k}` paths, and the later move replaces the
earlier file. Within one recording no two moves collide (`PlanMovesDistinct`).

## Model

| member | source | states |
|---|---|---|
| Sequences.Filter | converter.py:79-82 | the list comprehension keeps no more elements than it is given, and every element it keeps satisfies the condition |
| Sequences.FilterIsSubsequence | converter.py:79-82 | the filter returns the order-preserving subsequence at exactly the positions whose element satisfies the condition |
| Chunking.Starts | converter.py:71 | `range(0, len, 5000)` has ceil(len/5000) elements; the k-th is k*5000 and lies below len |
| Chunking.Window | converter.py:71 | `audio[i:i+5000]` is the slice of the recording starting at i: at most 5000 ms long, non-empty when i is inside the recording, and shorter only when it reaches the end |
| Chunking.Chunks | converter.py:66-71 | there are ceil(len/5000) chunks, and chunk k is the recording from k*5000 to min((k+1)*5000, len) |
| Chunking.ChunkCount | converter.py:71 | no chunks exactly for an empty recording; count*5000 covers the recording and (count-1)*5000 does not |
| Chunking.ChunkSizes | converter.py:66-71 | every chunk but the last is 5000 ms long; the last is non-empty and at most 5000 ms long (truncated, not padded) |
| Chunking.ChunksPrefix | converter.py:71 | the first j chunks concatenate to the first min(j*5000, len) milliseconds |
| Chunking.ChunksPartition | converter.py:71 | concatenating the chunks gives back the recording |
| Naming.Decimal | converter.py:75 | the numeral written by `f"{i+1}"` is a non-empty string of digits, with no leading zero |
| Naming.DecimalRoundTrip | converter.py:75 | reading the numeral back gives the number |
| Naming.DecimalInjective | converter.py:92 | different numbers have different numerals |
| Naming.LastIndexOf | converter.py:64 | `rfind` returns nothing exactly when the character is absent, otherwise an occurrence with none after it |
| Naming.BaseName | converter.py:64 | `os.path.basename` is the part of the path after its last '/': a suffix with no '/', preceded by a '/' whenever it is shorter than the path |
| Naming.Join | converter.py:75 | POSIX `os.path.join(dir, name)`: an absolute name replaces the directory; otherwise the name follows the directory, with one '/' between them unless the directory is empty or already ends in '/' |
| Naming.JoinEnds | converter.py:92 | the joined path ends with the name, and begins with the directory whenever the name is relative |
| Naming.BaseNameOfJoin | converter.py:104-106 | the basename of `os.path.join(folder, f)` is `f` for a listed name `f` |
| Naming.JoinInjective | converter.py:75 | joining different relative names to one folder gives different paths |
| Naming.StripExtension | converter.py:64 | `splitext(name)[0]` is a prefix of the name; if it is shorter, a '.' follows it, no '.' comes after that one, and it is not all dots |
| Naming.StripExtensionOf | converter.py:64 | for "stem.ext" where ext has no '.' and stem is not all dots, the root is the stem |
| Naming.ReplaceSpaces | converter.py:65 | `replace(" ", "_")` keeps the length, leaves no space and keeps every other character |
| Naming.RecordingBase | converter.py:64-65 | the base name contains neither spaces nor '/' |
| Naming.RecordingBaseOf | converter.py:64-65 | the base name of `folder/stem.ext` is the stem with spaces replaced by underscores |
| Naming.ReplaceSpacesStem | converter.py:65 | underscoring is idempotent and keeps a valid stem valid |
| Naming.BaseNamesCollide | converter.py:64-65 | a stem and its underscored form, under any extensions, give the same base name, so their outputs share names |
| Naming.NumberedNameInjective | converter.py:92 | `prefix + numeral + ".wav"` determines the number |
| Naming.PartName | converter.py:75 | the temporary file name `{base}_part{i}.wav` |
| Naming.UniqueName | converter.py:92 | the output file name `{base}_unique{k}.wav` |
| Naming.TempPath | converter.py:75 | the temporary path `_temp_chunks/{base}_part{i}.wav` |
| Naming.OutputPath | converter.py:92 | the output path `{output_folder}/{base}_unique{k}.wav` |
| Naming.TempPathsDistinct | converter.py:74-77 | `_temp_chunks/{base}_part{i}.wav` differ for different i |
| Naming.OutputPathsDistinct | converter.py:91-93 | `{output}/{base}_unique{k}.wav` differ for different k |
| Naming.SelectInputs | converter.py:104-106 | the selection has no more entries than the listing |
| Naming.SelectInputsExactly | converter.py:104-106 | in listing order, the selection is exactly the names whose lower-cased form ends in .wav, .mp3 or .flac, each joined to the input folder |
| Naming.LowerChar | converter.py:106 | `str.lower()` on one character: an ASCII capital becomes its small letter, every other character is unchanged |
| Naming.Lower | converter.py:106 | `f.lower()`, character by character, keeping the length |
| Naming.EndsWith | converter.py:106 | `str.endswith(suffix)`: the string is at least as long as the suffix and ends with it |
| Naming.IsAudioFile | converter.py:106 | a listed name is selected when its lower-cased form ends in `.wav`, `.mp3` or `.flac` |
| Naming.IsAudioFileAnyCase | converter.py:106 | any name ending in any capitalisation of .wav, .mp3 or .flac is selected |
| Naming.IsAudioFileNeedsDot | converter.py:106 | a name ending in "wav" without the dot is not selected |
| QualityGate.IsSilentOrQuiet | converter.py:43-50 | `is_silent_or_quiet`: a measured RMS strictly below `silence_rms` is silent; a failed measurement is not |
| QualityGate.IsTooShort | converter.py:52-59 | `is_too_short`: a measured duration strictly below `min_duration` is too short; so is a failed measurement |
| QualityGate.Passes | converter.py:81 | the filter condition: not silent and not too short |
| QualityGate.ErrorDefaults | converter.py:48-59 | a failed RMS measurement means not silent; a failed duration measurement means too short and rejects the chunk |
| QualityGate.BoundariesPass | converter.py:43-59 | RMS equal to `silence_rms` is not silent; duration equal to `min_duration` is not too short |
| QualityGate.PassesMonotone | converter.py:81 | lowering either limit never rejects a chunk that was kept |
| Similarity.Dot | converter.py:37 | `np.dot` of two vectors of the same length, the sum of their pairwise products; a vector's dot product with itself is never negative |
| Similarity.Score | converter.py:37 | the dot product exists exactly when both fingerprints exist and have the same length |
| Similarity.IsSimilar | converter.py:33-41 | `is_similar`: a score that exists and is strictly above the threshold; a failed score is "not similar" |
| Similarity.FailureIsNotSimilar | converter.py:33-41 | a failed fingerprint or a length mismatch gives "not similar" |
| Similarity.ThresholdIsStrict | converter.py:38 | a score equal to the threshold is not similar |
| Similarity.ThresholdMonotone | converter.py:38 | similar at threshold t1 implies similar at every t2 < t1 |
| Similarity.DotSymmetric | converter.py:37 | the dot product does not depend on argument order |
| Similarity.SimilarSymmetric | converter.py:33-41 | `is_similar(a, b)` equals `is_similar(b, a)` |
| Similarity.SelfSimilar | converter.py:31-38 | a unit-normalised fingerprint is similar to itself at the default threshold 0.90 |
| Uniqueness.Greedy | converter.py:84-89 | no more chunks are accepted than are offered |
| Uniqueness.AnyMatch | converter.py:86 | the short-circuiting `any` is true exactly when the candidate is similar to some accepted chunk |
| Uniqueness.UniqueChunks | converter.py:84-89 | the loop builds exactly the greedy result |
| Uniqueness.GreedyIsSubsequence | converter.py:84-89 | the result is the order-preserving subsequence of positions whose candidate is not similar to any candidate kept before it |
| Uniqueness.FilteredGreedy | converter.py:79-89 | the quality filter followed by the greedy loop keeps, in order, exactly the positions that pass the gate and are not similar to an earlier kept one |
| Uniqueness.GreedyKeepsFirst | converter.py:84-89 | the first candidate is always accepted and stays first |
| Uniqueness.GreedyPairwiseDissimilar | converter.py:84-89 | no accepted chunk is similar to one accepted before it |
| Uniqueness.GreedyCovers | converter.py:84-89 | every candidate is accepted or similar to an accepted chunk |
| Uniqueness.FirstOfClusterWins | converter.py:84-89 | with a and b similar and c distinct, [a, b, c] keeps [a, c] and [b, a, c] keeps [b, c] |
| Pipeline.Exported | converter.py:74-77 | one temporary file per chunk |
| Pipeline.Keeps | converter.py:79-82 | the gate condition of converter.py:81 for one exported chunk, on the RMS and duration measured from its samples |
| Pipeline.SimilarChunks | converter.py:33-41 | `is_similar(cp, uc, threshold)` as called at converter.py:86: both fingerprints, measured from the chunks' samples, their `np.dot`, and the strict comparison with the threshold |
| Pipeline.Candidates | converter.py:79-82 | `chunk_paths` after the quality filter: the exported chunks that pass the gate, in order |
| Pipeline.Accepted | converter.py:84-89 | `unique_chunks`: the greedy uniqueness filter over the candidates |
| Pipeline.Placement | converter.py:91-93 | one move per accepted chunk |
| Pipeline.Plan | converter.py:62-96 | the moves `split_and_filter` makes for one recording: at most ceil(len/5000) of them, and none for an empty recording |
| Pipeline.SplitStep | converter.py:110 | the per-file call of `process_all`: `split_and_filter` with the batch's output folder and settings |
| Pipeline.BatchPlan | converter.py:104-113 | the moves of `process_all`: each selected file in listing order contributes its moves, and the first file that fails to decode ends the batch with `aborted` set |
| Pipeline.ExportChunks | converter.py:72-77 | the export loop writes chunk i to `_part{i+1}` in order |
| Pipeline.PlaceOutputs | converter.py:91-93 | the move loop produces exactly the placement of the accepted chunks |
| Pipeline.SplitAndFilter | converter.py:62-96 | the imperative `split_and_filter` makes exactly the moves of the specification `Plan` |
| Pipeline.BatchPlanAt | converter.py:109-110 | a file that fails to decode ends the batch with the moves made so far; otherwise its moves are appended |
| Pipeline.ProcessAll | converter.py:99-113 | the imperative `process_all` gives exactly `BatchPlan` over the selected files, with `split_and_filter` as the per-file step |
| PipelineProperties.ExportedChunksDistinct | converter.py:74-77 | chunk i is exported to `_part{i+1}` holding its own content, and no two chunks share a path |
| PipelineProperties.PlanSelectsChunks | converter.py:62-93 | the k-th output takes a chunk at strictly increasing position to `_unique{k+1}`, and a chunk is output exactly when it passes the gate and is not similar to an earlier output chunk |
| PipelineProperties.NumberedMovesDistinct | converter.py:91-93 | moves numbered consecutively from increasing chunk positions have distinct sources and targets |
| PipelineProperties.PlanMovesDistinct | converter.py:74-93 | no two moves of one recording share a source or a target |
| PipelineProperties.OnlyFirstKept | converter.py:79-89 | of three chunks where the first passes the gate, the second matches the first and the third fails the gate, only the first is kept |
| PipelineProperties.TwelveSecondWindows | converter.py:66-82 | in the 12-second example the two tone windows pass the gate, the silent one fails, and the second tone matches the first |
| PipelineProperties.TwelveSecondAccepted | converter.py:79-89 | in the 12-second example only the first window survives the gate and the similarity filter |
| PipelineProperties.TwelveSecondExample | converter.py:62-96 | the 12-second example with default settings produces exactly one output, the first tone window as `_unique1` |
| PipelineProperties.BatchAbortsOnDecodeFailure | converter.py:104-110 | the batch is aborted exactly when some selected file fails to decode |
| PipelineProperties.NoAudioFilesNoOutput | converter.py:104-113 | a folder with no recognised audio files gives no moves and no error |

## Left out

- `ensure_package` and the install loop (converter.py:8-18): these call pip in a subprocess and change the environment.
- Feature extraction in `audio_fingerprint` (converter.py:26-31): loading, resampling, the mel spectrogram, decibel scaling and L2 normalisation are floating-point work inside librosa and numpy. A fingerprint is an opaque `Option<seq<real>>`, and the dot product is exact real arithmetic.
- The RMS and duration computations (converter.py:45-46, 54-55): these are foreign numeric calls, modelled as opaque `Option<real>` results.
- Audio decoding and WAV export through pydub (converter.py:63, 76): a recording is a sequence of millisecond units. The rounding of pydub's frame-to-millisecond conversion is not modelled.
- File-system effects (converter.py:68-69, 93, 95, 100-102, 105, 112): creating and removing the folders, `os.listdir` (its listing is an input, in whatever order the system returns it), the actual moves (returned as `Move` values), and the final count of `.wav` files on disk.
- All `print` output (warnings, skip notices, summaries): it carries no decision.
- `os.path` is modelled with POSIX rules only ('/' separator). Windows drive letters and '\\' are not modelled.
- `LowerChar`: `str.lower()` is modelled on ASCII letters only. The selected extensions are all ASCII, so the selection of names made only of ASCII characters is exact.
