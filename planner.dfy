/** The per-file decisions made before FFmpeg runs: the output path, the early skip when
    an output already exists, the encoding options, and the FFmpeg argument vector.
    The file system is the set of paths that exist when the file is looked at; the
    FFmpeg child process is a function from the argument vector to what the process did. */
module FilePlanner {
  import opened Text
  import opened AudioConfig
  import opened FilterChain

  datatype Option<T> = None | Some(value: T)

  /** What the FFmpeg child process did: it exited with a status code, or it could not be
      started at all. */
  datatype EngineRun = Exited(code: int) | LaunchFailed

  /** How processing one file ended. `Failed` is a non-zero exit, which is caught and
      reported as "no output"; `Raised` is a launch failure, which the per-file code does
      not catch and which therefore escapes to its caller. */
  datatype FileOutcome = Skipped(path: string) | Succeeded(path: string) | Failed | Raised

  /** Index of the last `c` in `s`, or -1 when there is none (Python's `rfind`). */
  function LastIndexOf(s: string, c: char): (i: int)
    ensures -1 <= i < |s|
    ensures i >= 0 ==> s[i] == c
    ensures forall k :: i < k < |s| ==> s[k] != c
    decreases |s|
  {
    if |s| == 0 then -1
    else if s[|s| - 1] == c then |s| - 1
    else LastIndexOf(s[..|s| - 1], c)
  }

  /** The final component of a path: everything after the last slash. */
  function FileName(path: string): (name: string)
    ensures '/' !in name && EndsWith(path, name)
  {
    path[LastIndexOf(path, '/') + 1..]
  }

  /** The final component without its extension. As with `pathlib`, a leading dot (a
      hidden file) or a trailing dot is not an extension. */
  function Stem(path: string): (stem: string)
    ensures StartsWith(FileName(path), stem)
  {
    var name := FileName(path);
    var i := LastIndexOf(name, '.');
    if 0 < i < |name| - 1 then name[..i] else name
  }

  /** A directory joined with a name, as `pathlib`'s `/` renders it. */
  function JoinPath(directory: string, name: string): (path: string)
    ensures EndsWith(path, name)
  {
    if directory == "" || directory == "." then name
    else if directory[|directory| - 1] == '/' then directory + name
    else directory + "/" + name
  }

  /** The last component of a joined path is the joined name, so the planner works on the
      directory entry's own name whatever the directory. */
  lemma FileNameOfJoin(directory: string)
    ensures forall name :: '/' !in name ==> FileName(JoinPath(directory, name)) == name
  {
    forall name | '/' !in name
      ensures FileName(JoinPath(directory, name)) == name
    {
      var path := JoinPath(directory, name);
      var m := |path| - |name|;
      var i := LastIndexOf(path, '/');
      assert path[m..] == name;
      assert forall k :: m <= k < |path| ==> path[k] == name[k - m];
      if m > 0 {
        assert path[m - 1] == '/';
      }
      assert i == m - 1;
    }
  }

  /** `stem`, then the configured suffix, a dot and the container format. */
  function OutputFileName(stem: string, suffix: string, format: string): string {
    stem + suffix + "." + format
  }

  /** The path looked for by the skip check: always in the base output format. */
  function BaseOutputPath(c: Config, input: string): string {
    JoinPath(c.output.directory, OutputFileName(Stem(input), c.output.suffix, c.output.format))
  }

  /** The container actually written: the compression format whenever compression is on. */
  function OutputFormat(c: Config): (format: string)
    ensures format == if c.compression.enabled then c.compression.format else c.output.format
  {
    if c.compression.enabled && c.compression.format != c.output.format then c.compression.format
    else c.output.format
  }

  /** The path FFmpeg is told to write. */
  function OutputPath(c: Config, input: string): string {
    JoinPath(c.output.directory, OutputFileName(Stem(input), c.output.suffix, OutputFormat(c)))
  }

  /** Encoder arguments: the configured codec and bitrate when compressing, 16-bit PCM for
      an uncompressed wav output, and nothing (FFmpeg's default encoder) otherwise. */
  function EncodingOptions(c: Config): (options: seq<string>)
    ensures |options| == if c.compression.enabled then 4 else if c.output.format == "wav" then 2 else 0
    ensures options != [] ==> options[0] == "-c:a"
    ensures c.compression.enabled ==>
      options[1] == c.compression.codec && options[2] == "-b:a" && options[3] == c.compression.bitrate
    ensures !c.compression.enabled && c.output.format == "wav" ==> options[1] == "pcm_s16le"
  {
    if c.compression.enabled then ["-c:a", c.compression.codec, "-b:a", c.compression.bitrate]
    else if c.output.format == "wav" then ["-c:a", "pcm_s16le"]
    else []
  }

  /** `-filter_complex` and the chain, only when the chain is not empty. */
  function FilterArgs(chain: string): seq<string> {
    if chain == "" then [] else ["-filter_complex", chain]
  }

  /** The FFmpeg argument vector for one input file. */
  function Command(c: Config, input: string): seq<string> {
    ["ffmpeg", "-i", input] + FilterArgs(Chain(c.preprocessing)) + EncodingOptions(c)
      + ["-y", OutputPath(c, input)]
  }

  /** The command run for `input`, or none when the skip check fires. */
  function Invocation(c: Config, existing: set<string>, input: string): Option<seq<string>> {
    if BaseOutputPath(c, input) in existing then None else Some(Command(c, input))
  }

  /** How processing `input` ends, given the paths that exist and what FFmpeg does. */
  function Outcome(c: Config, existing: set<string>, input: string, engine: seq<string> -> EngineRun): FileOutcome {
    if BaseOutputPath(c, input) in existing then Skipped(BaseOutputPath(c, input))
    else match engine(Command(c, input))
      case Exited(code) => if code == 0 then Succeeded(OutputPath(c, input)) else Failed
      case LaunchFailed => Raised
  }

  /** Processes one file: derives the output path, skips when it exists, otherwise builds
      the filter chain, the encoding options and the command, and runs FFmpeg once.
      `invoked` is the argument vector handed to FFmpeg, if any. */
  method ProcessSingleFile(c: Config, existing: set<string>, input: string, engine: seq<string> -> EngineRun)
    returns (outcome: FileOutcome, invoked: Option<seq<string>>)
    ensures invoked == Invocation(c, existing, input)
    ensures outcome == Outcome(c, existing, input, engine)
  {
    var stem := Stem(input);
    var outputFilename := stem + c.output.suffix + "." + c.output.format;
    var outputPath := JoinPath(c.output.directory, outputFilename);
    if outputPath in existing {
      return Skipped(outputPath), None;
    }
    var filterChain := BuildFilterChain(c.preprocessing);
    var encodingOptions: seq<string>;
    if c.compression.enabled {
      var outputFormat := c.compression.format;
      if outputFormat != c.output.format {
        outputFilename := stem + c.output.suffix + "." + outputFormat;
        outputPath := JoinPath(c.output.directory, outputFilename);
      }
      encodingOptions := ["-c:a", c.compression.codec, "-b:a", c.compression.bitrate];
    } else if c.output.format == "wav" {
      encodingOptions := ["-c:a", "pcm_s16le"];
    } else {
      encodingOptions := [];
    }
    assert outputPath == OutputPath(c, input);
    assert encodingOptions == EncodingOptions(c);
    var cmd := ["ffmpeg", "-i", input];
    if filterChain != "" {
      cmd := cmd + ["-filter_complex", filterChain];
    }
    cmd := cmd + encodingOptions;
    cmd := cmd + ["-y", outputPath];
    assert cmd == Command(c, input);
    invoked := Some(cmd);
    match engine(cmd) {
      case Exited(code) =>
        outcome := if code == 0 then Succeeded(outputPath) else Failed;
      case LaunchFailed =>
        outcome := Raised;
    }
  }

  /** The stem of a name made of a base and an audio extension (a dot followed by
      characters that are neither dots nor slashes) is the base. */
  lemma StemOfAudioName(base: string, ext: string)
    requires base != "" && '/' !in base
    requires |ext| >= 2 && ext[0] == '.' && '.' !in ext[1..] && '/' !in ext
    ensures Stem(base + ext) == base
  {
    var name := base + ext;
    assert '/' !in name;
    assert FileName(name) == name;
    forall k | |base| < k < |name|
      ensures name[k] != '.'
    {
      assert name[k] == ext[1..][k - |base| - 1];
    }
    assert name[|base|] == '.';
    assert LastIndexOf(name, '.') == |base|;
    assert name[..|base|] == base;
  }

  /** Joining one directory with two names gives one path only for one name. */
  lemma JoinPathInjective(directory: string, a: string, b: string)
    requires JoinPath(directory, a) == JoinPath(directory, b)
    ensures a == b
  {
    var pa := JoinPath(directory, a);
    var head := |pa| - |a|;
    assert |a| == |b|;
    assert a == pa[head..] == b;
  }

  /** The output file name is the stem, the suffix, a dot and the compression format when
      compression is enabled, or the base output format when it is not. */
  lemma OutputPathFormat(c: Config, input: string)
    ensures OutputPath(c, input) == JoinPath(c.output.directory,
      Stem(input) + c.output.suffix + "." + (if c.compression.enabled then c.compression.format else c.output.format))
  {
  }

  /** A file with stem `clip`, suffix `_processed`, base format `wav` and compression to
      `m4a` is written as `clip_processed.m4a`: the compression format wins. */
  lemma CompressionFormatWins(c: Config, input: string)
    requires Stem(input) == "clip" && c.output.suffix == "_processed" && c.output.format == "wav"
    requires c.compression.enabled && c.compression.format == "m4a"
    ensures OutputPath(c, input) == JoinPath(c.output.directory, "clip_processed.m4a")
    ensures BaseOutputPath(c, input) == JoinPath(c.output.directory, "clip_processed.wav")
  {
    ClipFileName(Stem(input), c.output.suffix, OutputFormat(c));
    ClipFileName(Stem(input), c.output.suffix, c.output.format);
  }

  lemma ClipFileName(stem: string, suffix: string, format: string)
    requires stem == "clip" && suffix == "_processed"
    ensures format == "m4a" ==> OutputFileName(stem, suffix, format) == "clip_processed.m4a"
    ensures format == "wav" ==> OutputFileName(stem, suffix, format) == "clip_processed.wav"
  {
    assert stem + suffix + "." == "clip_processed.";
  }

  /** The path FFmpeg writes is the one the skip check looks for exactly when the output
      container stays the base format. */
  lemma {:induction false} OutputPathIsBasePathIff(c: Config, input: string)
    ensures OutputPath(c, input) == BaseOutputPath(c, input) <==> OutputFormat(c) == c.output.format
  {
    if OutputPath(c, input) == BaseOutputPath(c, input) {
      var prefix := Stem(input) + c.output.suffix + ".";
      JoinPathInjective(c.output.directory, prefix + OutputFormat(c), prefix + c.output.format);
      assert OutputFormat(c) == (prefix + OutputFormat(c))[|prefix|..];
    }
  }

  /** The command starts `ffmpeg -i <input>`, carries `-filter_complex <chain>` right after
      that exactly when the chain is not empty, then the encoding options, and ends with
      `-y <output path>`. */
  lemma CommandShape(c: Config, input: string)
    ensures var cmd := Command(c, input);
      var chain := Chain(c.preprocessing);
      var f := if chain == "" then 0 else 2;
      && |cmd| == 5 + f + |EncodingOptions(c)|
      && cmd[..3] == ["ffmpeg", "-i", input]
      && (cmd[3] == "-filter_complex" <==> chain != "")
      && (chain != "" ==> cmd[4] == chain)
      && cmd[3 + f..|cmd| - 2] == EncodingOptions(c)
      && cmd[|cmd| - 2..] == ["-y", OutputPath(c, input)]
  {
    var cmd := Command(c, input);
    var chain := Chain(c.preprocessing);
    var opts := EncodingOptions(c);
    var f := FilterArgs(chain);
    assert cmd == ["ffmpeg", "-i", input] + f + opts + ["-y", OutputPath(c, input)];
    if chain == "" {
      assert cmd[3] == if opts == [] then "-y" else "-c:a";
    }
    assert cmd[3 + |f|..|cmd| - 2] == opts;
  }

  /** The skip check: the file is skipped, with the base-format path and without running
      FFmpeg, exactly when that path exists; otherwise FFmpeg runs exactly once, on the
      command for the file. */
  lemma SkipOnlyOnBasePath(c: Config, existing: set<string>, input: string, engine: seq<string> -> EngineRun)
    ensures Outcome(c, existing, input, engine).Skipped? <==> BaseOutputPath(c, input) in existing
    ensures Outcome(c, existing, input, engine).Skipped? ==>
      Outcome(c, existing, input, engine).path == BaseOutputPath(c, input) && Invocation(c, existing, input) == None
    ensures !Outcome(c, existing, input, engine).Skipped? ==> Invocation(c, existing, input) == Some(Command(c, input))
    ensures Outcome(c, existing, input, engine).Succeeded? <==>
      BaseOutputPath(c, input) !in existing && engine(Command(c, input)) == Exited(0)
    ensures Outcome(c, existing, input, engine).Succeeded? ==> Outcome(c, existing, input, engine).path == OutputPath(c, input)
  {
  }

  /** Re-running after a success is a no-op when the output container is the base format:
      the file just written is the one the skip check looks for. */
  lemma RerunSkipsWhenFormatKept(c: Config, existing: set<string>, input: string,
                                 engine: seq<string> -> EngineRun, engine': seq<string> -> EngineRun)
    requires OutputFormat(c) == c.output.format
    requires Outcome(c, existing, input, engine).Succeeded?
    ensures var written := Outcome(c, existing, input, engine).path;
      Outcome(c, existing + {written}, input, engine') == Skipped(written)
      && Invocation(c, existing + {written}, input) == None
  {
    OutputPathIsBasePathIff(c, input);
  }

  /** With the base format kept, a file that succeeded or was skipped is skipped by any
      later run that sees the paths seen before plus the file's output, and FFmpeg is not
      started for it. */
  lemma RerunSkipsOnceDone(c: Config, existing: set<string>, after: set<string>, input: string,
                           engine: seq<string> -> EngineRun, engine': seq<string> -> EngineRun)
    requires OutputFormat(c) == c.output.format && existing <= after
    requires Outcome(c, existing, input, engine).Succeeded? || Outcome(c, existing, input, engine).Skipped?
    requires Outcome(c, existing, input, engine).Succeeded? ==> Outcome(c, existing, input, engine).path in after
    ensures Outcome(c, after, input, engine') == Skipped(BaseOutputPath(c, input))
    ensures Invocation(c, after, input) == None
  {
    OutputPathIsBasePathIff(c, input);
  }

  /** As written, re-running after a success is NOT a no-op when compression switches the
      container: the compressed file is written, the base-format path is still missing, so
      FFmpeg runs again on the same command. */
  lemma RerunRepeatsWhenFormatChanges(c: Config, existing: set<string>, input: string, engine: seq<string> -> EngineRun)
    requires c.compression.enabled && c.compression.format != c.output.format
    requires Outcome(c, existing, input, engine).Succeeded?
    ensures var written := Outcome(c, existing, input, engine).path;
      Invocation(c, existing + {written}, input) == Some(Command(c, input))
      && Outcome(c, existing + {written}, input, engine) == Outcome(c, existing, input, engine)
  {
    OutputPathIsBasePathIff(c, input);
  }

  lemma TalkStem()
    ensures Stem("talk.wav") == "talk"
  {
    StemOfAudioName("talk", ".wav");
    assert "talk" + ".wav" == "talk.wav";
  }

  /** The default output and skip paths for a file whose stem is `stem`. */
  lemma DefaultPathsOf(input: string, stem: string)
    requires Stem(input) == stem
    ensures OutputPath(DefaultConfig, input) == "processed_audio/" + stem + "_processed.m4a"
    ensures BaseOutputPath(DefaultConfig, input) == "processed_audio/" + stem + "_processed.wav"
  {
    var c := DefaultConfig;
    assert c.output == OutputConfig("wav", "processed_audio", "_processed");
    assert OutputFormat(c) == "m4a";
    DefaultFileJoin(stem, "m4a");
    DefaultFileJoin(stem, "wav");
  }

  lemma DefaultFileJoin(stem: string, format: string)
    ensures JoinPath("processed_audio", OutputFileName(stem, "_processed", format))
         == "processed_audio/" + stem + "_processed." + format
  {
    var dir := "processed_audio";
    assert dir != "" && dir != "." && dir[|dir| - 1] != '/';
  }

  /** Where the default configuration puts the output for `talk.wav`, and where its skip
      check looks. */
  lemma DefaultPaths()
    ensures OutputPath(DefaultConfig, "talk.wav") == "processed_audio/talk_processed.m4a"
    ensures BaseOutputPath(DefaultConfig, "talk.wav") == "processed_audio/talk_processed.wav"
  {
    TalkStem();
    DefaultPathsOf("talk.wav", Stem("talk.wav"));
    TalkPaths(Stem("talk.wav"));
  }

  lemma TalkPaths(stem: string)
    requires stem == "talk"
    ensures "processed_audio/" + stem + "_processed.m4a" == "processed_audio/talk_processed.m4a"
    ensures "processed_audio/" + stem + "_processed.wav" == "processed_audio/talk_processed.wav"
  {
  }

  /** With the default configuration (wav output, compression to m4a) a file is processed
      again on every run: after `talk.wav` has produced `processed_audio/talk_processed.m4a`
      the skip check still looks for `processed_audio/talk_processed.wav`. */
  lemma DefaultConfigNeverSkips(engine: seq<string> -> EngineRun)
    requires engine(Command(DefaultConfig, "talk.wav")) == Exited(0)
    ensures Outcome(DefaultConfig, {}, "talk.wav", engine) == Succeeded("processed_audio/talk_processed.m4a")
    ensures Invocation(DefaultConfig, {"processed_audio/talk_processed.m4a"}, "talk.wav").Some?
  {
    DefaultPaths();
    RerunRepeatsWhenFormatChanges(DefaultConfig, {}, "talk.wav", engine);
  }

  /** The same for every input and every file system: under the default configuration
      the output of a successful run never satisfies the next run's skip check, so FFmpeg
      is started again on the same command. */
  lemma DefaultConfigAlwaysReruns(existing: set<string>, input: string, engine: seq<string> -> EngineRun)
    requires Outcome(DefaultConfig, existing, input, engine).Succeeded?
    ensures var written := Outcome(DefaultConfig, existing, input, engine).path;
      Invocation(DefaultConfig, existing + {written}, input) == Some(Command(DefaultConfig, input))
  {
    var c := DefaultConfig;
    assert c.compression.enabled && c.compression.format == "m4a" && c.output.format == "wav";
    assert c.compression.format != c.output.format by {
      assert c.compression.format[0] != c.output.format[0];
    }
    RerunRepeatsWhenFormatChanges(c, existing, input, engine);
  }

  /** The skip check as evidently intended: look for the path FFmpeg would write. */
  function CorrectedOutcome(c: Config, existing: set<string>, input: string, engine: seq<string> -> EngineRun): FileOutcome {
    if OutputPath(c, input) in existing then Skipped(OutputPath(c, input))
    else match engine(Command(c, input))
      case Exited(code) => if code == 0 then Succeeded(OutputPath(c, input)) else Failed
      case LaunchFailed => Raised
  }

  /** With the corrected check, re-running after a success never runs FFmpeg again, for
      every configuration. */
  lemma CorrectedRerunSkips(c: Config, existing: set<string>, input: string,
                            engine: seq<string> -> EngineRun, engine': seq<string> -> EngineRun)
    requires CorrectedOutcome(c, existing, input, engine).Succeeded?
    ensures var written := CorrectedOutcome(c, existing, input, engine).path;
      CorrectedOutcome(c, existing + {written}, input, engine') == Skipped(written)
  {
  }

  /** The corrected check differs from the program only when compression switches the
      container. */
  lemma CorrectedAgreesWhenFormatKept(c: Config, existing: set<string>, input: string, engine: seq<string> -> EngineRun)
    requires OutputFormat(c) == c.output.format
    ensures CorrectedOutcome(c, existing, input, engine) == Outcome(c, existing, input, engine)
  {
    OutputPathIsBasePathIff(c, input);
  }
}
