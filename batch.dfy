/** The batch driver: resolve the input path, pick the audio files of a directory, then
    process every picked file, each on its own. The worker pool is modelled as a
    sequential loop whose per-file outcomes do not depend on one another. */
module BatchDriver {
  import opened AudioConfig
  import opened FilePlanner
  import opened AudioSelection

  /** What the input path names: a regular file, a directory with its entry names in
      listing order, or anything else. `Other` covers a path that does not exist and also
      one that exists but is neither a regular file nor a directory (a FIFO, a socket, a
      broken symbolic link): the driver treats both as missing. */
  datatype InputPath = RegularFile(path: string) | Directory(path: string, entries: seq<string>) | Other(path: string)

  /** What a call to the driver comes to. A single file's outcome is returned as is (a
      launch failure escapes to the caller); a batch pairs each selected file with its
      outcome; the two remaining cases are logged and return nothing. */
  datatype Report =
    | Single(outcome: FileOutcome)
    | Batch(files: seq<string>, outcomes: seq<FileOutcome>)
    | NoAudioFiles
    | NotFound

  /** The paths a directory run hands to the per-file code: the directory joined with each
      selected entry name. Each path's last component is the entry's own name, so the
      planner derives the output stem from the entry. */
  function DirectoryFiles(directory: string, entries: seq<string>): (files: seq<string>)
    ensures |files| == |SelectAudio(entries)|
    ensures forall i :: 0 <= i < |files| && '/' !in SelectAudio(entries)[i] ==>
      FileName(files[i]) == SelectAudio(entries)[i]
  {
    var selected := SelectAudio(entries);
    FileNameOfJoin(directory);
    seq(|selected|, i requires 0 <= i < |selected| => JoinPath(directory, selected[i]))
  }

  lemma DirectoryFilesSnoc(directory: string, entries: seq<string>, k: nat)
    requires k < |SelectAudio(entries)|
    ensures DirectoryFiles(directory, entries)[..k + 1]
         == DirectoryFiles(directory, entries)[..k] + [JoinPath(directory, SelectAudio(entries)[k])]
  {
  }

  /** Each file of a batch handed to `process`, the results in file order: the results
      for all files but the last, then the result for the last. */
  function MapFiles(process: string -> FileOutcome, files: seq<string>): seq<FileOutcome>
    decreases |files|
  {
    if files == [] then []
    else MapFiles(process, files[..|files| - 1]) + [process(files[|files| - 1])]
  }

  /** One result per file, and the i-th result is what `process` makes of the i-th file. */
  lemma {:induction false} MapFilesAt(process: string -> FileOutcome, files: seq<string>)
    ensures |MapFiles(process, files)| == |files|
    ensures forall i :: 0 <= i < |files| ==> MapFiles(process, files)[i] == process(files[i])
    decreases |files|
  {
    if files != [] {
      var init := files[..|files| - 1];
      MapFilesAt(process, init);
      forall i | 0 <= i < |init|
        ensures init[i] == files[i]
      {
      }
    }
  }

  lemma MapFilesSnoc(process: string -> FileOutcome, files: seq<string>, k: nat)
    requires k < |files|
    ensures MapFiles(process, files[..k + 1]) == MapFiles(process, files[..k]) + [process(files[k])]
  {
    assert files[..k + 1][..k] == files[..k];
  }

  /** The per-file processing of a batch: every file is checked against the same snapshot
      of existing paths. */
  function PerFile(c: Config, existing: set<string>, engine: seq<string> -> EngineRun): string -> FileOutcome {
    file => Outcome(c, existing, file, engine)
  }

  /** The outcome of every file of a batch: one per file, in file order, and each is the
      planner's outcome for that file alone against the same snapshot of existing paths. */
  function BatchOutcomes(c: Config, existing: set<string>, files: seq<string>, engine: seq<string> -> EngineRun)
    : (outcomes: seq<FileOutcome>)
    ensures |outcomes| == |files|
    ensures forall i :: 0 <= i < |files| ==> outcomes[i] == Outcome(c, existing, files[i], engine)
  {
    MapFilesAt(PerFile(c, existing, engine), files);
    MapFiles(PerFile(c, existing, engine), files)
  }

  /** Runs every file of a batch, one after the other. A launch failure of one file is
      caught and recorded; it does not stop the files after it. */
  method ProcessBatch(c: Config, existing: set<string>, files: seq<string>, engine: seq<string> -> EngineRun)
    returns (outcomes: seq<FileOutcome>)
    ensures outcomes == BatchOutcomes(c, existing, files, engine)
  {
    var process := PerFile(c, existing, engine);
    outcomes := [];
    for k := 0 to |files|
      invariant outcomes == MapFiles(process, files[..k])
    {
      var outcome, _ := ProcessSingleFile(c, existing, files[k], engine);
      MapFilesSnoc(process, files, k);
      outcomes := outcomes + [outcome];
    }
    assert files[..|files|] == files;
  }

  /** What a call to the driver reports, for an input path. */
  function Run(c: Config, existing: set<string>, input: InputPath, engine: seq<string> -> EngineRun): Report {
    match input
    case RegularFile(path) => Single(Outcome(c, existing, path, engine))
    case Directory(path, entries) =>
      var files := DirectoryFiles(path, entries);
      if files == [] then NoAudioFiles else Batch(files, BatchOutcomes(c, existing, files, engine))
    case Other(_) => NotFound
  }

  /** Processes a file or every audio file of a directory. */
  method ProcessAudioFiles(c: Config, existing: set<string>, input: InputPath, engine: seq<string> -> EngineRun)
    returns (report: Report)
    ensures report == Run(c, existing, input, engine)
  {
    match input {
      case RegularFile(path) =>
        var outcome, _ := ProcessSingleFile(c, existing, path, engine);
        report := Single(outcome);
      case Directory(path, entries) =>
        var names := SelectAudioFiles(entries);
        var audioFiles := [];
        for k := 0 to |names|
          invariant audioFiles == DirectoryFiles(path, entries)[..k]
        {
          DirectoryFilesSnoc(path, entries, k);
          audioFiles := audioFiles + [JoinPath(path, names[k])];
        }
        if audioFiles == [] {
          report := NoAudioFiles;
        } else {
          var outcomes := ProcessBatch(c, existing, audioFiles, engine);
          report := Batch(audioFiles, outcomes);
        }
      case Other(_) =>
        report := NotFound;
    }
  }

  /** A file's outcome in a batch depends on nothing but the file itself and what FFmpeg
      does with that file's own command: not on its position, nor on the other files, nor
      on what FFmpeg does for them. */
  lemma BatchIsolation(c: Config, existing: set<string>,
                       files: seq<string>, engine: seq<string> -> EngineRun, i: nat,
                       files': seq<string>, engine': seq<string> -> EngineRun, j: nat)
    requires i < |files| && j < |files'| && files[i] == files'[j]
    requires engine(Command(c, files[i])) == engine'(Command(c, files[i]))
    ensures BatchOutcomes(c, existing, files, engine)[i] == BatchOutcomes(c, existing, files', engine')[j]
    ensures BatchOutcomes(c, existing, files, engine)[i] == Outcome(c, existing, files[i], engine)
  {
  }

  /** Every file of a batch ends in one of the four outcomes on its own terms: skipped when
      its base output exists, otherwise succeeded exactly when its own FFmpeg run exits
      with status 0. A launch failure is recorded for that file alone. */
  lemma BatchOutcomeCases(c: Config, existing: set<string>, files: seq<string>,
                          engine: seq<string> -> EngineRun, i: nat)
    requires i < |files|
    ensures var o := BatchOutcomes(c, existing, files, engine)[i];
      && (o.Skipped? <==> BaseOutputPath(c, files[i]) in existing)
      && (o.Succeeded? <==> BaseOutputPath(c, files[i]) !in existing && engine(Command(c, files[i])) == Exited(0))
      && (o.Raised? <==> BaseOutputPath(c, files[i]) !in existing && engine(Command(c, files[i])) == LaunchFailed)
      && (o.Succeeded? ==> o.path == OutputPath(c, files[i]))
  {
    SkipOnlyOnBasePath(c, existing, files[i], engine);
  }

  /** The paths a batch wrote: the output of every file that succeeded. */
  function Written(outcomes: seq<FileOutcome>): set<string> {
    set i | 0 <= i < |outcomes| && outcomes[i].Succeeded? :: outcomes[i].path
  }

  /** Re-running a batch after it finished, with the same configuration and with the base
      format kept, skips every file that succeeded or was skipped the first time and
      hands it to FFmpeg no more, whatever FFmpeg would now do. */
  lemma BatchRerunSkips(c: Config, existing: set<string>, files: seq<string>,
                        engine: seq<string> -> EngineRun, engine': seq<string> -> EngineRun)
    requires OutputFormat(c) == c.output.format
    ensures var first := BatchOutcomes(c, existing, files, engine);
      var second := BatchOutcomes(c, existing + Written(first), files, engine');
      forall i :: 0 <= i < |files| && (first[i].Succeeded? || first[i].Skipped?) ==>
        second[i] == Skipped(BaseOutputPath(c, files[i]))
        && Invocation(c, existing + Written(first), files[i]) == None
  {
    var first := BatchOutcomes(c, existing, files, engine);
    var after := existing + Written(first);
    var second := BatchOutcomes(c, after, files, engine');
    forall i | 0 <= i < |files| && (first[i].Succeeded? || first[i].Skipped?)
      ensures second[i] == Skipped(BaseOutputPath(c, files[i]))
      ensures Invocation(c, after, files[i]) == None
    {
      assert first[i] == Outcome(c, existing, files[i], engine);
      assert second[i] == Outcome(c, after, files[i], engine');
      if first[i].Succeeded? {
        assert first[i].path in Written(first);
      }
      RerunSkipsOnceDone(c, existing, after, files[i], engine, engine');
    }
  }

  /** When every file of a first run succeeded or was skipped, a second run with the base
      format kept starts FFmpeg for none of them. */
  lemma BatchRerunIsNoOp(c: Config, existing: set<string>, files: seq<string>,
                         engine: seq<string> -> EngineRun)
    requires OutputFormat(c) == c.output.format
    requires forall i :: 0 <= i < |files| ==>
      BatchOutcomes(c, existing, files, engine)[i].Succeeded? || BatchOutcomes(c, existing, files, engine)[i].Skipped?
    ensures forall i :: 0 <= i < |files| ==>
      Invocation(c, existing + Written(BatchOutcomes(c, existing, files, engine)), files[i]) == None
  {
    BatchRerunSkips(c, existing, files, engine, engine);
  }

  /** A directory run reports that there is nothing to do exactly when no entry ends in an
      audio extension; otherwise it processes each selected entry once, under the
      directory, in selection order. */
  lemma DirectoryRun(c: Config, existing: set<string>, directory: string, entries: seq<string>,
                     engine: seq<string> -> EngineRun)
    ensures var r := Run(c, existing, Directory(directory, entries), engine);
      && (r == NoAudioFiles <==> forall k :: 0 <= k < |entries| ==> !Matches(entries[k], AudioExtensions))
      && (r.Batch? ==>
            |r.files| == |r.outcomes| == |SelectAudio(entries)|
            && (forall i :: 0 <= i < |r.files| ==>
                  r.files[i] == JoinPath(directory, SelectAudio(entries)[i])
                  && r.outcomes[i] == Outcome(c, existing, r.files[i], engine)))
      && (r.Batch? || r == NoAudioFiles)
  {
    NothingSelectedIff(entries);
    DirectoryFilesAt(directory, entries);
  }

  lemma NothingSelectedIff(entries: seq<string>)
    ensures SelectAudio(entries) == [] <==> forall k :: 0 <= k < |entries| ==> !Matches(entries[k], AudioExtensions)
  {
    var selected := SelectAudio(entries);
    if selected != [] {
      SelectByMembership(entries, AudioExtensions, selected[0]);
      var k :| 0 <= k < |entries| && entries[k] == selected[0];
    } else {
      forall k | 0 <= k < |entries|
        ensures !Matches(entries[k], AudioExtensions)
      {
        SelectByMembership(entries, AudioExtensions, entries[k]);
      }
    }
  }

  lemma DirectoryFilesAt(directory: string, entries: seq<string>)
    ensures forall i :: 0 <= i < |DirectoryFiles(directory, entries)| ==>
      DirectoryFiles(directory, entries)[i] == JoinPath(directory, SelectAudio(entries)[i])
  {
  }

  /** A directory holding `a.wav`, `b.mp3` and `readme.txt` yields exactly two files to
      process, `a.wav` first. */
  lemma ScenarioRun(c: Config, existing: set<string>, directory: string, engine: seq<string> -> EngineRun)
    ensures var r := Run(c, existing, Directory(directory, ["a.wav", "b.mp3", "readme.txt"]), engine);
      r.Batch? && r.files == [JoinPath(directory, "a.wav"), JoinPath(directory, "b.mp3")]
  {
    ScenarioSelection();
    ScenarioFiles(c, existing, directory, ["a.wav", "b.mp3", "readme.txt"], "a.wav", "b.mp3", engine);
  }

  lemma ScenarioFiles(c: Config, existing: set<string>, directory: string, entries: seq<string>,
                      x: string, y: string, engine: seq<string> -> EngineRun)
    requires SelectAudio(entries) == [x, y]
    ensures var r := Run(c, existing, Directory(directory, entries), engine);
      r.Batch? && r.files == [JoinPath(directory, x), JoinPath(directory, y)]
  {
    assert DirectoryFiles(directory, entries) == [JoinPath(directory, x), JoinPath(directory, y)];
  }

}
