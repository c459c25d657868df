# Audio preprocessing planner

This project models the decision logic of `audio_preprocessing.py` from the meeting-notes
repository. That script prepares recordings for transcription by running FFmpeg with a
generated filter chain. Three pieces of the script are modelled:

- **Filter-chain compiler** (`FilterChain`, `filter_chain.dfy`). It turns the
  `preprocessing` section of the configuration into one FFmpeg filter expression.
  - The optional stages are `afftdn` noise reduction, `loudnorm` normalisation, an
    `acompressor` stage and the `equalizer` bands of a preset.
  - They always come in that order and are joined with commas.
  - `BuildFilterChain` appends to a local list the way the program does. It is proved
    equal to the function `Chain`, and the lemmas state the properties of `Chain`.
- **Per-file planner** (`FilePlanner`, `planner.dfy`). For one input file it covers:
  - the output file name `stem + suffix + "." + format`;
  - the early skip when the output already exists;
  - the encoding options;
  - the FFmpeg argument vector
    `ffmpeg -i <in> [-filter_complex <chain>] <encoding options> -y <out>`.

  The file system is the set of paths that exist. FFmpeg is a function from the argument
  vector to an `EngineRun`: it exited with a status code, or it could not be started.
- **Directory selection and batch driver** (`AudioSelection` in `selection.dfy`,
  `BatchDriver` in `batch.dfy`).
  - A directory's entries are searched once per audio extension, in the order
    `.wav, .mp3, .m4a, .aac, .ogg, .flac`, and the matches are concatenated.
  - Every selected file is then processed. The worker pool becomes a sequential loop in
    which every file sees the same snapshot of existing paths.

`AudioConfig` (`config.dfy`) holds the configuration record and the default
configuration. `Text` (`text.dfy`) holds string helpers: `str.endswith`, `sep.join`, and
`str.split` as the inverse of join.

Two behaviours of the code are easy to misread, and the model follows the code in both:

- **Idempotence.** The comment on line 134 and the message on line 136 say the check is
  meant to skip a file whose output already exists, so that a file already processed is not
  processed again. The check looks for the output path in the *base* format (line 129). That path is
  computed before compression switches the extension (lines 149-151). So with the default
  configuration, which compresses wav to m4a, a rerun processes again every file that the
  previous run produced. See
  "Findings" below.
- **Launch failures.** A non-zero FFmpeg exit is caught and ends in the `return None`
  of lines 190-192. Only `subprocess.SubprocessError` is caught there, so the
  `FileNotFoundError` raised when the executable is missing escapes `_process_single_file`:
  - for a single input file, it propagates to the caller;
  - in a directory run, the batch loop catches it.

  The model keeps both outcomes apart: `Failed` is a non-zero exit and `Raised` is a
  launch failure.

## Model

| member | source | states |
|---|---|---|
| FilterChain.NoiseAmount | audio_preprocessing.py:203-209 | the strength lookup is total. `low` gives 0.2, `high` gives 0.6, and every other name (including `medium` and unknown names) gives 0.4; the result is always one of the three |
| FilterChain.EqBands | audio_preprocessing.py:231-247 | preset `speech` has 5 bands, `music` has 4, and any other preset has none |
| FilterChain.PresetBands | audio_preprocessing.py:234-246 | every band of every preset is an `equalizer=` stage that is non-empty, holds no comma and does not end with one |
| FilterChain.DenoiseShape | audio_preprocessing.py:199-210 | the noise-reduction stage is an `afftdn=` stage with no comma, ending with the fixed noise floor `:nf=-25` |
| FilterChain.LoudnormShape | audio_preprocessing.py:213-218 | the normalisation stage is a `loudnorm=` stage ending with `:LRA=7`; it holds a comma only if a configured value does |
| FilterChain.CompressorShape | audio_preprocessing.py:220-228 | the compressor stage is an `acompressor=` stage ending with `:release=` and the configured release value; it holds a comma only if a configured value does |
| FilterChain.BuildFilterChain | audio_preprocessing.py:194-256 | appending the enabled stages one by one and joining them with commas gives exactly `Chain`, the comma-join of the stage list |
| FilterChain.StageAt | audio_preprocessing.py:196-247 | position by position, the stage list holds noise reduction, loudnorm and the compressor (each only when enabled), then the preset's bands |
| FilterChain.StagesInOrder | audio_preprocessing.py:196-247 | along the chain the stage kind never goes back (noise reduction, then loudnorm, then compressor, then bands); only bands repeat |
| FilterChain.StageCounts | audio_preprocessing.py:196-247 | each of the first three stages appears once when enabled and never otherwise, the bands appear once per preset band, and nothing else appears |
| FilterChain.StageContents | audio_preprocessing.py:199-247 | each emitted stage carries its configured values verbatim, with the mapped noise amount and `nf=-25`, `LRA=7` and `dB` fixed, and every band comes from the configured preset |
| FilterChain.ChainEmptyIff | audio_preprocessing.py:252-256 | the chain is `""` exactly when no stage is emitted, e.g. when all four sections are disabled |
| FilterChain.ChainStartsWithStage | audio_preprocessing.py:252-254 | a non-empty chain does not start with a comma |
| FilterChain.ChainEndsWithStage | audio_preprocessing.py:252-254 | a non-empty chain does not end with a comma |
| FilterChain.ChainSplitsIntoStages | audio_preprocessing.py:196-256 | splitting the chain at its commas gives back exactly the emitted stages |
| FilterChain.UnknownStrengthActsAsMedium | audio_preprocessing.py:203-209 | an unknown strength yields the same chain as `medium` |
| FilterChain.DefaultStages | audio_preprocessing.py:33-67 | the default configuration emits medium noise reduction and then loudnorm at -16 / -1.5, and nothing else |
| Text.SplitJoin | audio_preprocessing.py:254 | splitting a comma-join of one or more parts at its commas gives back the parts, when no part holds a comma |
| FilePlanner.Stem | audio_preprocessing.py:129 | the stem is a prefix of the last path component |
| FilePlanner.StemOfAudioName | audio_preprocessing.py:129 | the stem of a name made of a base and an audio extension is the base |
| FilePlanner.JoinPath | audio_preprocessing.py:130 | the joined path ends with the file name |
| FilePlanner.JoinPathInjective | audio_preprocessing.py:130 | one directory joined with two different names gives two different paths |
| FilePlanner.FileNameOfJoin | audio_preprocessing.py:130 | the last component of a directory joined with a slash-free name is that name |
| FilePlanner.OutputFormat | audio_preprocessing.py:143-151 | the written container is the compression format when compression is enabled, and the base format otherwise |
| FilePlanner.OutputPathFormat | audio_preprocessing.py:129-151 | the output file name is stem, suffix, a dot, and the compression format (compression enabled) or the base format (compression disabled) |
| FilePlanner.CompressionFormatWins | audio_preprocessing.py:143-151 | stem `clip`, suffix `_processed`, base `wav` and compression to `m4a` give `clip_processed.m4a`, while the skip check looks for `clip_processed.wav` |
| FilePlanner.OutputPathIsBasePathIff | audio_preprocessing.py:129-151 | the written path equals the path the skip check tests exactly when the container stays the base format |
| FilePlanner.EncodingOptions | audio_preprocessing.py:143-164 | compression enabled gives `-c:a <codec> -b:a <bitrate>`; otherwise a wav output gives `-c:a pcm_s16le` and any other output gives no options |
| FilePlanner.CommandShape | audio_preprocessing.py:167-177 | the command starts with `ffmpeg -i <input>`, has `-filter_complex <chain>` exactly when the chain is non-empty, then the encoding options, and ends with `-y <output path>` |
| FilePlanner.ProcessSingleFile | audio_preprocessing.py:123-192 | the method computes the planner's outcome, and hands FFmpeg the planned command or nothing when it skips |
| FilePlanner.SkipOnlyOnBasePath | audio_preprocessing.py:129-192 | a file is skipped, with no command run, exactly when its base-format path exists. Otherwise FFmpeg runs once on the file's command, and the file succeeds (with the written path) exactly when the exit status is 0 |
| FilePlanner.RerunSkipsWhenFormatKept | audio_preprocessing.py:129-151 | when the container stays the base format, a rerun after a success skips and starts no FFmpeg |
| FilePlanner.RerunSkipsOnceDone | audio_preprocessing.py:129-151 | when the container stays the base format, a file that succeeded or was skipped is skipped by any later run that still sees its output, and no FFmpeg is started for it |
| FilePlanner.RerunRepeatsWhenFormatChanges | audio_preprocessing.py:129-151 | when compression switches the container, a rerun after a success runs the same command again |
| FilePlanner.DefaultPaths | audio_preprocessing.py:129-151 | with the default configuration, `talk.wav` is written to `processed_audio/talk_processed.m4a` and the skip check tests `processed_audio/talk_processed.wav` |
| FilePlanner.DefaultConfigNeverSkips | audio_preprocessing.py:129-151 | with the default configuration and no existing files, `talk.wav` succeeds with `processed_audio/talk_processed.m4a` when FFmpeg exits 0, and a second run that sees that file still starts FFmpeg |
| FilePlanner.DefaultConfigAlwaysReruns | audio_preprocessing.py:129-151 | with the default configuration, for every input and every set of existing files, the output of a successful run does not make the next run skip: FFmpeg is started again on the same command |
| FilePlanner.CorrectedRerunSkips | audio_preprocessing.py:134-137 | with the skip check on the written path, a rerun after a success always skips |
| FilePlanner.CorrectedAgreesWhenFormatKept | audio_preprocessing.py:134-137 | the corrected check and the program's check agree whenever the container stays the base format |
| AudioSelection.SelectAudioFiles | audio_preprocessing.py:98-102 | extending the list with one glob per extension builds the selection `SelectAudio` |
| AudioSelection.GlobMembers | audio_preprocessing.py:102 | a glob keeps exactly the listed names that end in its extension |
| AudioSelection.AudioExtensionsSuffixFree | audio_preprocessing.py:98 | no audio extension is a suffix of another, so a name matches at most one of them |
| AudioSelection.SelectByMembership | audio_preprocessing.py:98-102 | a name is selected exactly when it is listed and ends in one of the extensions |
| AudioSelection.SelectByPermutation | audio_preprocessing.py:98-102 | the selection holds each matching name exactly as often as the listing does (a permutation of a single filtering pass) |
| AudioSelection.SelectByGrouped | audio_preprocessing.py:98-102 | the selection is grouped by extension, with the groups in extension-list order |
| AudioSelection.SelectAudioSpec | audio_preprocessing.py:98-102 | the three properties above, for the six audio extensions |
| AudioSelection.ScenarioSelection | audio_preprocessing.py:98-106 | of `a.wav`, `b.mp3` and `readme.txt`, exactly `a.wav` and then `b.mp3` are selected |
| BatchDriver.DirectoryFiles | audio_preprocessing.py:101-102 | there is one path per selected entry, and the last component of the i-th path is the i-th selected entry's own name, so the planner derives the output stem from that entry |
| BatchDriver.BatchOutcomes | audio_preprocessing.py:110-119 | a batch has one outcome per file, in file order, and each is the planner's outcome for that file alone against the same snapshot of existing paths |
| BatchDriver.ProcessBatch | audio_preprocessing.py:110-119 | the loop produces exactly one outcome per file, and each is that file's planner outcome |
| BatchDriver.ProcessAudioFiles | audio_preprocessing.py:90-121 | the driver reports what `Run` says: one file's outcome, a batch, no audio files, or an input that is neither a regular file nor a directory (missing, or a FIFO, socket or broken link) |
| BatchDriver.BatchIsolation | audio_preprocessing.py:110-119 | a file's outcome in a batch depends only on that file and FFmpeg's result for its own command, not on its position or its siblings |
| BatchDriver.BatchOutcomeCases | audio_preprocessing.py:110-119 | each file is skipped, succeeds, fails or has a caught launch failure, decided only by its own base path and its own FFmpeg run |
| BatchDriver.BatchRerunSkips | audio_preprocessing.py:110-137 | when the container stays the base format, rerunning a batch skips every file that succeeded or was skipped, and starts no FFmpeg for it |
| BatchDriver.BatchRerunIsNoOp | audio_preprocessing.py:110-137 | if every file of the first run succeeded or was skipped, a second run with the base format kept starts FFmpeg for none of them |
| BatchDriver.DirectoryRun | audio_preprocessing.py:96-119 | a directory run reports "no audio files" exactly when no entry has an audio extension; otherwise it pairs every selected file with its outcome |
| BatchDriver.ScenarioRun | audio_preprocessing.py:96-119 | a directory holding `a.wav`, `b.mp3` and `readme.txt` gives a batch of exactly two files |

## Left out

- YAML loading, `generate_config_file`, `main` and argument parsing: configuration and command-line glue. The default values are kept as `AudioConfig.DefaultConfig`.
- `os.makedirs` and `_check_dependencies`: they only create a directory, or stop the process when FFmpeg is missing.
- The FFmpeg child process: it becomes the function parameter `engine`. Its output streams and the bytes it writes are not modelled.
- The thread pool and `as_completed`: concurrency. A sequential loop replaces them, and completion order is not modelled.
- BatchDriver.ProcessBatch: every file is checked against the paths that existed before the batch. Outputs written by sibling files during the batch are not seen. Two inputs sharing a stem (`a.wav` and `a.mp3`) target the same output, and which one runs last is not modelled.
- Logging, including the messages for "no audio files" and "input path does not exist" (the model returns `NoAudioFiles` and `NotFound` instead).
- Python's rendering of numeric configuration values (`-1.5`, `4`): they are kept as the strings that end up in the filter expression.
- Missing or mistyped configuration keys (`KeyError`): the configuration record is always complete.
- FilePlanner.Stem: `pathlib` edge cases are not modelled (repeated or trailing separators, `..`). The stem is the last path component cut at its last dot, when that dot is neither its first nor its last character.
- FilePlanner.JoinPath: `pathlib` normalisation is not modelled. `Path("./d") / n` renders as `d/n` and `Path("d//") / n` as `d/n`, while the model keeps the directory string as given (only `""` and `"."` are dropped, and one trailing slash is not doubled).
- FilePlanner.Command: the `-i` argument is the input path as given, not `str(Path(file_path))`, which normalises it (`./talk.wav` becomes `talk.wav`); the output path is `JoinPath`'s rendering, with the limits above.
- `glob` details: case-insensitive file systems, and directories whose names end in an audio extension. The listing is given as a sequence of entry names, in listing order.
- FilterChain.ChainEndsWithStage: proved only when the configured compressor release value does not itself end with a comma, since that value is inserted verbatim as the last characters of the compressor stage.
- FilterChain.ChainSplitsIntoStages: proved only when no configured value holds a comma. A value with a comma splits its own stage.

## Findings

| source | as written | input that shows it | evidently intended | confidence | as-written member | corrected member |
|---|---|---|---|---|---|---|
| audio_preprocessing.py:129-137 | the skip check tests the output path in the base format, built before compression switches the extension at lines 149-151 | default configuration, input `talk.wav`: the first run writes `processed_audio/talk_processed.m4a`, and the second run looks for `processed_audio/talk_processed.wav` and runs FFmpeg again | the skip check tests the path FFmpeg writes, so that a rerun skips every file already produced | high (not executed) | FilePlanner.DefaultConfigNeverSkips | FilePlanner.CorrectedRerunSkips |

`FilePlanner.CorrectedOutcome` is the corrected per-file outcome. `FilePlanner.CorrectedAgreesWhenFormatKept` shows that it differs from the program only when compression changes the container. The batch driver keeps the skip check as written, so the model stays faithful to the program.
