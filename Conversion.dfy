/**
 * The DICOM-to-NIfTI conversion driver, `pre_processing/dicom_to_nii.py`: for each subfolder of
 * the DICOM root and each group folder inside it, the DICOM series folders whose name is not
 * listed in the matching output folder are converted, each to `<folder name>.nii.gz`, by a pool
 * whose results are all retrieved, with every exception logged and none re-raised.
 *
 * The SimpleITK stages (series reading, reorientation to RAS, writing) are foreign calls; each
 * folder's behaviour is given by an oracle `beh` keyed by the submitted folder path. The pool is
 * run sequentially in submission order.
 */
module Conversion {
  import opened Wrappers
  import opened Paths
  import opened FileSystem
  import opened Walker

  // ---------------------------------------------------------------- output naming

  const Suffix: string := ".nii.gz"

  predicate IsNiftiName(x: string) {
    |x| >= |Suffix| && x[|x| - |Suffix|..] == Suffix
  }

  /** Line 39: `os.path.basename(input_folder) + '.nii.gz'`. */
  function OutputName(inputFolder: string): string {
    Basename(inputFolder) + Suffix
  }

  /**
   * The output name is a plain file name carrying the suffix, and for a folder joined from a
   * listed name `f` it is `f` with the suffix, so never `f` itself.
   */
  lemma OutputNameShape(dir: string, f: string)
    requires '/' !in f
    ensures IsEntryName(OutputName(Join(dir, f))) && IsNiftiName(OutputName(Join(dir, f)))
    ensures OutputName(Join(dir, f)) == f + Suffix && OutputName(Join(dir, f)) != f
  {
    BasenameOfJoin(dir, f);
    OutputNameIsEntry(Join(dir, f));
    assert |OutputName(Join(dir, f))| == |f| + |Suffix|;
  }

  lemma OutputNameIsEntry(inputFolder: string)
    ensures IsEntryName(OutputName(inputFolder)) && IsNiftiName(OutputName(inputFolder))
  {
    SuffixedIsEntry(Basename(inputFolder));
  }

  /** A separator-free stem followed by the suffix is a plain name carrying the suffix. */
  lemma SuffixedIsEntry(b: string)
    requires '/' !in b
    ensures IsEntryName(b + Suffix) && IsNiftiName(b + Suffix)
  {
    assert '/' !in Suffix;
    assert (b + Suffix)[|b|..] == Suffix;
  }

  /** Line 51: `os.path.abspath(os.path.join(output_folder, output_name))`. */
  function OutputFile(cwd: string, outputFolder: string, inputFolder: string): string {
    AbsPath(cwd, Join(outputFolder, OutputName(inputFolder)))
  }

  /** The output file lies directly in the resolved output folder, under the output name. */
  lemma OutputFilePlacement(cwd: string, outputFolder: string, inputFolder: string)
    requires IsAbs(cwd)
    ensures var p := OutputFile(cwd, outputFolder, inputFolder);
      Dirname(p) == AbsPath(cwd, outputFolder) && Basename(p) == OutputName(inputFolder) &&
      p == Join(AbsPath(cwd, outputFolder), OutputName(inputFolder)) && IsNormalAbs(p)
  {
    OutputNameIsEntry(inputFolder);
    ResolvedEntry(cwd, outputFolder, OutputName(inputFolder));
    AbsPathJoin(cwd, outputFolder, OutputName(inputFolder));
    AbsPathIsNormalAbs(cwd, Join(outputFolder, OutputName(inputFolder)));
  }

  // ---------------------------------------------------------------- get_f_dir

  datatype DirError = ListFailed(error: OsError) | NoEntries

  /** Lines 16-19, `get_f_dir`: the absolute path of the first entry `os.listdir` reports. */
  function FirstEntry<A>(fs: Fs<A>, directory: string): (r: Result<string, DirError>)
    ensures r.Ok? <==> IsDir(fs, directory) && Listing(fs, directory) != []
    ensures r.Err? ==> (r.error.NoEntries? <==> IsDir(fs, directory))
  {
    match ListDir(fs, directory)
    case Err(e) => Err(ListFailed(e))
    case Ok(items) =>
      if |items| == 0 then Err(NoEntries) else Ok(AbsPath(fs.cwd, Join(directory, items[0])))
  }

  /** `get_f_dir` names the first listed entry of the directory, as an absolute normal path. */
  lemma FirstEntryNamesFirst<A>(fs: Fs<A>, directory: string)
    requires WellFormed(fs) && FirstEntry(fs, directory).Ok?
    ensures var p := FirstEntry(fs, directory).value;
      IsNormalAbs(p) && Dirname(p) == Resolve(fs, directory) && Basename(p) == Listing(fs, directory)[0]
  {
    var items := Listing(fs, directory);
    assert items[0] in items;
    assert IsEntryName(items[0]);
    ResolvedEntry(fs.cwd, directory, items[0]);
    AbsPathIsNormalAbs(fs.cwd, Join(directory, items[0]));
  }

  // ---------------------------------------------------------------- one folder

  /** What a written NIfTI file holds: the series of this folder, reoriented to RAS. */
  datatype Nifti = Nifti(source: string)

  /** How the three foreign stages behave on one folder. */
  datatype FolderBehaviour = FolderBehaviour(series: Outcome, orient: Outcome, write: Outcome)

  datatype Failure = OsFailure(error: OsError) | StageFailure(reason: string)

  datatype Event =
    | ConvertingInto(base: string, raw: string)
    | Started
    | GroupHeader(group: string)
    | Counts(converted: nat, toConvert: nat)
    | Converting(folder: string)
    | Converted(name: string)
    | ConversionError(folder: string, failure: Failure)
    | GroupConverted(count: nat)
    | Summary(count: nat)
    | Finished

  datatype FolderResult = FolderResult(fs: Fs<Nifti>, log: seq<Event>, raised: Option<Failure>)

  /** Lines 35-57, `convert_dicom_to_nifti`: nothing is written before the series is read and reoriented. */
  function ConvertFolder(fs: Fs<Nifti>, inputFolder: string, outputFolder: string, b: FolderBehaviour): FolderResult {
    var log := [Converting(inputFolder)];
    var name := OutputName(inputFolder);
    var made := if Exists(fs, outputFolder) then Ok(fs) else MakeDirs(fs, outputFolder, false);
    match made
    case Err(e) => FolderResult(fs, log, Some(OsFailure(e)))
    case Ok(fs1) =>
      if b.series.Fail? then FolderResult(fs1, log, Some(StageFailure(b.series.reason)))
      else if b.orient.Fail? then FolderResult(fs1, log, Some(StageFailure(b.orient.reason)))
      else
        var outputFile := AbsPath(fs1.cwd, Join(outputFolder, name));
        if b.write.Fail? then FolderResult(fs1, log, Some(StageFailure(b.write.reason)))
        else
          match WriteFile(fs1, outputFile, Nifti(inputFolder))
          case Err(e) => FolderResult(fs1, log, Some(OsFailure(e)))
          case Ok(fs2) => FolderResult(fs2, [Converting(inputFolder), Converted(name)], None)
  }

  predicate Succeeds(b: FolderBehaviour) {
    b.series.Pass? && b.orient.Pass? && b.write.Pass?
  }

  /** The exception a folder's job raises from its own stages: the first stage that failed. */
  function StageRaise(b: FolderBehaviour): Option<Failure> {
    if b.series.Fail? then Some(StageFailure(b.series.reason))
    else if b.orient.Fail? then Some(StageFailure(b.orient.reason))
    else if b.write.Fail? then Some(StageFailure(b.write.reason))
    else None
  }

  /** The output folder is a directory and not also a file. */
  predicate OutputReady(fs: Fs<Nifti>, outputFolder: string) {
    WellFormed(fs) && IsDir(fs, outputFolder) && Resolve(fs, outputFolder) !in fs.files
  }

  /** A failing stage leaves the file system as it was: a file is written only after reading and reorienting succeeded. */
  lemma FailedStageWritesNothing(fs: Fs<Nifti>, inputFolder: string, outputFolder: string, b: FolderBehaviour)
    requires IsDir(fs, outputFolder) && !Succeeds(b)
    ensures ConvertFolder(fs, inputFolder, outputFolder, b) ==
      FolderResult(fs, [Converting(inputFolder)], StageRaise(b))
  {
  }

  lemma WriteIntoReady(fs: Fs<Nifti>, outputFolder: string, n: string, a: Nifti)
    requires OutputReady(fs, outputFolder) && IsEntryName(n)
    ensures var key := Resolve(fs, outputFolder);
      var w := WriteFile(fs, AbsPath(fs.cwd, Join(outputFolder, n)), a);
      w.Ok? && OutputReady(w.value, outputFolder) && w.value.cwd == fs.cwd &&
      w.value.dirs == fs.dirs[key := AddEntry(fs.dirs[key], n)] &&
      w.value.files == fs.files[Join(key, n) := a]
  {
    var key := Resolve(fs, outputFolder);
    AbsPathJoin(fs.cwd, outputFolder, n);
    AbsPathIsNormalAbs(fs.cwd, outputFolder);
    AbsPathIdempotent(fs.cwd, outputFolder);
    assert Resolve(fs, key) == key;
    WriteEntry(fs, key, n, a);
    WriteFileWellFormed(fs, Join(key, n), a);
    assert Join(key, n) != key by {
      assert n[0] in n;
      assert !IsAbs(n);
    }
  }

  /**
   * With a ready output folder, a folder's job raises exactly what its own stages raise; when
   * they all succeed, `<name>.nii.gz` joins the output folder's listing and holds the converted
   * series, and nothing else changes.
   */
  lemma FolderEffect(fs: Fs<Nifti>, inputFolder: string, outputFolder: string, b: FolderBehaviour)
    requires OutputReady(fs, outputFolder)
    ensures var r := ConvertFolder(fs, inputFolder, outputFolder, b);
      var key := Resolve(fs, outputFolder);
      var n := OutputName(inputFolder);
      r.raised == StageRaise(b) && OutputReady(r.fs, outputFolder) && r.fs.cwd == fs.cwd &&
      r.log == FolderLog(inputFolder, b) &&
      r.fs.dirs == (if Succeeds(b) then fs.dirs[key := AddEntry(fs.dirs[key], n)] else fs.dirs) &&
      r.fs.files == (if Succeeds(b) then fs.files[Join(key, n) := Nifti(inputFolder)] else fs.files)
  {
    if Succeeds(b) {
      FolderSucceeds(fs, inputFolder, outputFolder, b);
    } else {
      FailedStageWritesNothing(fs, inputFolder, outputFolder, b);
    }
  }

  lemma FolderSucceeds(fs: Fs<Nifti>, inputFolder: string, outputFolder: string, b: FolderBehaviour)
    requires OutputReady(fs, outputFolder) && Succeeds(b)
    ensures var r := ConvertFolder(fs, inputFolder, outputFolder, b);
      var key := Resolve(fs, outputFolder);
      var n := OutputName(inputFolder);
      r.raised.None? && OutputReady(r.fs, outputFolder) && r.fs.cwd == fs.cwd &&
      r.log == [Converting(inputFolder), Converted(n)] &&
      r.fs.dirs == fs.dirs[key := AddEntry(fs.dirs[key], n)] &&
      r.fs.files == fs.files[Join(key, n) := Nifti(inputFolder)]
  {
    OutputNameIsEntry(inputFolder);
    WriteIntoReady(fs, outputFolder, OutputName(inputFolder), Nifti(inputFolder));
    FolderWritten(fs, inputFolder, outputFolder, b, WriteFile(fs, OutputFile(fs.cwd, outputFolder, inputFolder), Nifti(inputFolder)).value);
  }

  /** A job whose stages all succeed writes its output, once the write itself can succeed. */
  lemma FolderWritten(fs: Fs<Nifti>, inputFolder: string, outputFolder: string, b: FolderBehaviour, fs2: Fs<Nifti>)
    requires IsDir(fs, outputFolder) && Succeeds(b)
    requires WriteFile(fs, OutputFile(fs.cwd, outputFolder, inputFolder), Nifti(inputFolder)) == Ok(fs2)
    ensures ConvertFolder(fs, inputFolder, outputFolder, b) == FolderResult(fs2, [Converting(inputFolder), Converted(OutputName(inputFolder))], None)
  {
    assert Exists(fs, outputFolder);
  }

  // ---------------------------------------------------------------- one group's pool

  datatype JobResult = Returned | Raised(failure: Failure)

  function JobOf(r: FolderResult): JobResult {
    if r.raised.Some? then Raised(r.raised.value) else Returned
  }

  function ExpectedJob(b: FolderBehaviour): JobResult {
    if StageRaise(b).Some? then Raised(StageRaise(b).value) else Returned
  }

  datatype Pool = Pool(fs: Fs<Nifti>, log: seq<Event>, results: seq<JobResult>)

  function RunJob(pool: Pool, folder: string, outputFolder: string, beh: string -> FolderBehaviour): Pool {
    var r := ConvertFolder(pool.fs, folder, outputFolder, beh(folder));
    Pool(r.fs, pool.log + r.log, pool.results + [JobOf(r)])
  }

  /** Line 92: every submitted folder's job runs to completion, in submission order. */
  function RunJobs(pool: Pool, folders: seq<string>, outputFolder: string, beh: string -> FolderBehaviour): (r: Pool)
    ensures |r.results| == |pool.results| + |folders|
    decreases |folders|
  {
    if folders == [] then pool else RunJobs(RunJob(pool, folders[0], outputFolder, beh), folders[1..], outputFolder, beh)
  }

  /** Each job's expected result, in submission order. */
  function ExpectedJobs(folders: seq<string>, beh: string -> FolderBehaviour): (r: seq<JobResult>)
    ensures |r| == |folders|
    ensures forall i :: 0 <= i < |folders| ==> r[i] == ExpectedJob(beh(folders[i]))
  {
    if folders == [] then [] else [ExpectedJob(beh(folders[0]))] + ExpectedJobs(folders[1..], beh)
  }

  /** What a folder's job logs itself, when its output folder is ready. */
  function FolderLog(folder: string, b: FolderBehaviour): seq<Event> {
    if Succeeds(b) then [Converting(folder), Converted(OutputName(folder))] else [Converting(folder)]
  }

  /** What the jobs log themselves, in submission order. */
  function JobsLog(folders: seq<string>, beh: string -> FolderBehaviour): seq<Event> {
    if folders == [] then []
    else FolderLog(folders[0], beh(folders[0])) + JobsLog(folders[1..], beh)
  }

  /** The output names of the folders whose conversion succeeded, in submission order. */
  function ConvertedNames(folders: seq<string>, beh: string -> FolderBehaviour): seq<string> {
    if folders == [] then []
    else (if Succeeds(beh(folders[0])) then [OutputName(folders[0])] else []) + ConvertedNames(folders[1..], beh)
  }

  /** The file a folder's conversion leaves in the output folder resolved to `key`, if it succeeds. */
  function FolderWrites(key: string, folder: string, b: FolderBehaviour): seq<Write<Nifti>> {
    if Succeeds(b) then [Write(Join(key, OutputName(folder)), Nifti(folder))] else []
  }

  /** The files a batch of conversions leaves in the output folder resolved to `key`, in submission order. */
  function ConvertedWrites(key: string, folders: seq<string>, beh: string -> FolderBehaviour): seq<Write<Nifti>> {
    if folders == [] then [] else FolderWrites(key, folders[0], beh(folders[0])) + ConvertedWrites(key, folders[1..], beh)
  }

  /** A listing after the names are added one by one, as successive writes add them. */
  function AddAll(listing: seq<string>, names: seq<string>): seq<string>
    decreases |names|
  {
    if names == [] then listing else AddAll(AddEntry(listing, names[0]), names[1..])
  }

  lemma {:induction false} AddAllMembers(listing: seq<string>, names: seq<string>)
    ensures forall x :: x in AddAll(listing, names) <==> x in listing || x in names
    decreases |names|
  {
    if names != [] {
      AddAllMembers(AddEntry(listing, names[0]), names[1..]);
      assert forall x :: x in names <==> x == names[0] || x in names[1..] by {
        assert names == [names[0]] + names[1..];
      }
    }
  }

  /** Adding names that are all listed already leaves the listing as it was. */
  lemma {:induction false} AddAllPresent(listing: seq<string>, names: seq<string>)
    requires forall x :: x in names ==> x in listing
    ensures AddAll(listing, names) == listing
    decreases |names|
  {
    if names != [] {
      assert names[0] in names;
      assert forall x :: x in names[1..] ==> x in names;
      AddAllPresent(listing, names[1..]);
    }
  }

  /** Adding the same names a second time changes nothing. */
  lemma AddAllTwice(listing: seq<string>, names: seq<string>)
    ensures AddAll(AddAll(listing, names), names) == AddAll(listing, names)
  {
    AddAllMembers(listing, names);
    AddAllPresent(AddAll(listing, names), names);
  }

  lemma JobStep(pool: Pool, folders: seq<string>, outputFolder: string, beh: string -> FolderBehaviour)
    requires OutputReady(pool.fs, outputFolder) && folders != []
    ensures var next := RunJob(pool, folders[0], outputFolder, beh);
      var key := Resolve(pool.fs, outputFolder);
      var L := pool.fs.dirs[key];
      OutputReady(next.fs, outputFolder) && next.fs.cwd == pool.fs.cwd &&
      next.results == pool.results + [ExpectedJob(beh(folders[0]))] &&
      next.log == pool.log + JobsLog(folders[..1], beh) &&
      next.fs.dirs == pool.fs.dirs[key := AddAll(L, ConvertedNames(folders[..1], beh))]
  {
    var f := folders[0];
    var key := Resolve(pool.fs, outputFolder);
    FolderEffect(pool.fs, f, outputFolder, beh(f));
    SingleBatch(folders, pool.fs.dirs, key, beh);
  }

  /** A batch of one folder, as the pool's summaries state it. */
  lemma SingleBatch(folders: seq<string>, dirs: map<string, seq<string>>, key: string, beh: string -> FolderBehaviour)
    requires folders != [] && key in dirs
    ensures var f := folders[0];
      JobsLog(folders[..1], beh) == FolderLog(f, beh(f)) &&
      dirs[key := AddAll(dirs[key], ConvertedNames(folders[..1], beh))] ==
        (if Succeeds(beh(f)) then dirs[key := AddEntry(dirs[key], OutputName(f))] else dirs)
  {
    var f := folders[0];
    var L := dirs[key];
    assert folders[..1] == [f];
    assert [f][1..] == [];
    if Succeeds(beh(f)) {
      assert ConvertedNames([f], beh) == [OutputName(f)];
      assert AddAll(L, [OutputName(f)]) == AddEntry(L, OutputName(f));
    } else {
      assert ConvertedNames([f], beh) == [];
      assert dirs[key := L] == dirs;
    }
  }

  lemma ComposeJobs(pool: Pool, next: Pool, res: Pool, folders: seq<string>, key: string, beh: string -> FolderBehaviour)
    requires folders != [] && key in pool.fs.dirs
    requires next.results == pool.results + [ExpectedJob(beh(folders[0]))]
    requires next.log == pool.log + JobsLog(folders[..1], beh)
    requires next.fs.dirs == pool.fs.dirs[key := AddAll(pool.fs.dirs[key], ConvertedNames(folders[..1], beh))]
    requires res.results == next.results + ExpectedJobs(folders[1..], beh)
    requires res.log == next.log + JobsLog(folders[1..], beh)
    requires res.fs.dirs == next.fs.dirs[key := AddAll(next.fs.dirs[key], ConvertedNames(folders[1..], beh))]
    ensures res.results == pool.results + ExpectedJobs(folders, beh)
    ensures res.log == pool.log + JobsLog(folders, beh)
    ensures res.fs.dirs == pool.fs.dirs[key := AddAll(pool.fs.dirs[key], ConvertedNames(folders, beh))]
  {
    ComposeResults(pool.results, folders, beh);
    ComposeLog(pool.log, folders, beh);
    ComposeNames(pool.fs.dirs[key], folders, beh);
  }

  lemma ComposeResults(results: seq<JobResult>, folders: seq<string>, beh: string -> FolderBehaviour)
    requires folders != []
    ensures (results + [ExpectedJob(beh(folders[0]))]) + ExpectedJobs(folders[1..], beh) == results + ExpectedJobs(folders, beh)
  {
    assert ExpectedJobs(folders, beh) == [ExpectedJob(beh(folders[0]))] + ExpectedJobs(folders[1..], beh);
  }

  lemma ComposeLog(log: seq<Event>, folders: seq<string>, beh: string -> FolderBehaviour)
    requires folders != []
    ensures (log + JobsLog(folders[..1], beh)) + JobsLog(folders[1..], beh) == log + JobsLog(folders, beh)
  {
    var f := folders[0];
    assert folders[..1] == [f];
    assert [f][1..] == [];
    assert JobsLog([f], beh) == FolderLog(f, beh(f));
  }

  lemma ComposeNames(listing: seq<string>, folders: seq<string>, beh: string -> FolderBehaviour)
    requires folders != []
    ensures AddAll(AddAll(listing, ConvertedNames(folders[..1], beh)), ConvertedNames(folders[1..], beh)) ==
      AddAll(listing, ConvertedNames(folders, beh))
  {
    var f := folders[0];
    assert folders[..1] == [f];
    assert [f][1..] == [];
    var rest := ConvertedNames(folders[1..], beh);
    if Succeeds(beh(f)) {
      var names := ConvertedNames(folders, beh);
      assert ConvertedNames([f], beh) == [OutputName(f)];
      assert names == [OutputName(f)] + rest;
      assert names[0] == OutputName(f) && names[1..] == rest;
      assert AddAll(listing, [OutputName(f)]) == AddEntry(listing, OutputName(f));
    } else {
      assert ConvertedNames([f], beh) == [];
      assert ConvertedNames(folders, beh) == rest;
    }
  }

  /**
   * The pool on any batch: one result per job, each the job's own expected result, the jobs'
   * messages in submission order, and the output listing gains the name of every successful
   * conversion while no other listing changes; each successful conversion writes its file, in
   * submission order, and no other file changes.
   */
  lemma {:induction false} RunJobsEffect(pool: Pool, folders: seq<string>, outputFolder: string, beh: string -> FolderBehaviour)
    requires OutputReady(pool.fs, outputFolder)
    ensures var res := RunJobs(pool, folders, outputFolder, beh);
      var key := Resolve(pool.fs, outputFolder);
      OutputReady(res.fs, outputFolder) && res.fs.cwd == pool.fs.cwd &&
      res.results == pool.results + ExpectedJobs(folders, beh) &&
      res.log == pool.log + JobsLog(folders, beh) &&
      res.fs.dirs == pool.fs.dirs[key := AddAll(pool.fs.dirs[key], ConvertedNames(folders, beh))] &&
      res.fs.files == ApplyWrites(pool.fs.files, ConvertedWrites(key, folders, beh))
    decreases |folders|
  {
    var key := Resolve(pool.fs, outputFolder);
    RunJobsFiles(pool, folders, outputFolder, beh);
    if folders == [] {
      assert pool.fs.dirs[key := pool.fs.dirs[key]] == pool.fs.dirs;
      assert pool.results + [] == pool.results;
      assert pool.log + [] == pool.log;
    } else {
      JobStep(pool, folders, outputFolder, beh);
      var next := RunJob(pool, folders[0], outputFolder, beh);
      RunJobsEffect(next, folders[1..], outputFolder, beh);
      ComposeJobs(pool, next, RunJobs(next, folders[1..], outputFolder, beh), folders, key, beh);
    }
  }

  /** One job writes the file of its folder when the conversion succeeds, and no other. */
  lemma JobFiles(pool: Pool, folder: string, outputFolder: string, beh: string -> FolderBehaviour)
    requires OutputReady(pool.fs, outputFolder)
    ensures RunJob(pool, folder, outputFolder, beh).fs.files ==
      ApplyWrites(pool.fs.files, FolderWrites(Resolve(pool.fs, outputFolder), folder, beh(folder)))
  {
    var key := Resolve(pool.fs, outputFolder);
    FolderEffect(pool.fs, folder, outputFolder, beh(folder));
    if Succeeds(beh(folder)) {
      ApplyOneWrite(pool.fs.files, Write(Join(key, OutputName(folder)), Nifti(folder)));
    }
  }

  /** The pool's jobs write, in submission order, the files of the folders whose conversion succeeds, and no others. */
  lemma {:induction false} RunJobsFiles(pool: Pool, folders: seq<string>, outputFolder: string, beh: string -> FolderBehaviour)
    requires OutputReady(pool.fs, outputFolder)
    ensures RunJobs(pool, folders, outputFolder, beh).fs.files ==
      ApplyWrites(pool.fs.files, ConvertedWrites(Resolve(pool.fs, outputFolder), folders, beh))
    decreases |folders|
  {
    if folders != [] {
      var key := Resolve(pool.fs, outputFolder);
      var f := folders[0];
      JobStep(pool, folders, outputFolder, beh);
      var next := RunJob(pool, f, outputFolder, beh);
      assert Resolve(next.fs, outputFolder) == key;
      JobFiles(pool, f, outputFolder, beh);
      RunJobsFiles(next, folders[1..], outputFolder, beh);
      ApplyWritesAppend(pool.fs.files, FolderWrites(key, f, beh(f)), ConvertedWrites(key, folders[1..], beh));
    }
  }

  /** The paths a batch of conversions writes are the converted names, each joined to the output folder. */
  lemma {:induction false} ConvertedWritesPaths(key: string, folders: seq<string>, beh: string -> FolderBehaviour)
    ensures WrittenPaths(ConvertedWrites(key, folders, beh)) == JoinAll(key, ConvertedNames(folders, beh))
    decreases |folders|
  {
    if folders != [] {
      var f := folders[0];
      ConvertedWritesPaths(key, folders[1..], beh);
      WrittenPathsAppend(FolderWrites(key, f, beh(f)), ConvertedWrites(key, folders[1..], beh));
      var head := if Succeeds(beh(f)) then [OutputName(f)] else [];
      JoinAllAppend(key, head, ConvertedNames(folders[1..], beh));
    }
  }

  /** Every converted name carries the `.nii.gz` suffix. */
  lemma {:induction false} ConvertedNamesSuffixed(folders: seq<string>, beh: string -> FolderBehaviour)
    ensures forall x :: x in ConvertedNames(folders, beh) ==> IsNiftiName(x)
    decreases |folders|
  {
    if folders != [] {
      OutputNameIsEntry(folders[0]);
      ConvertedNamesSuffixed(folders[1..], beh);
    }
  }

  // ---------------------------------------------------------------- the drain

  function ErrorOf(folder: string, result: JobResult): seq<Event> {
    if result.Raised? then [ConversionError(folder, result.failure)] else []
  }

  /** Lines 94-98: one error message per job that raised, naming its folder, in submission order. */
  function ErrorLog(folders: seq<string>, results: seq<JobResult>): seq<Event> {
    if results == [] || folders == [] then []
    else ErrorOf(folders[0], results[0]) + ErrorLog(folders[1..], results[1..])
  }

  /** An error message appears exactly for each job that raised, with that job's folder and exception. */
  lemma {:induction false} ErrorLogExact(folders: seq<string>, results: seq<JobResult>)
    requires |folders| == |results|
    ensures forall e :: e in ErrorLog(folders, results) <==>
      exists i :: 0 <= i < |results| && results[i].Raised? && e == ConversionError(folders[i], results[i].failure)
    ensures |ErrorLog(folders, results)| <= |results|
    decreases |results|
  {
    if results != [] {
      var tail := ErrorLog(folders[1..], results[1..]);
      ErrorLogExact(folders[1..], results[1..]);
      forall e | e in ErrorLog(folders, results)
        ensures exists i :: 0 <= i < |results| && results[i].Raised? && e == ConversionError(folders[i], results[i].failure)
      {
        if results[0].Raised? && e == ConversionError(folders[0], results[0].failure) {
        } else {
          assert e in tail;
          var i :| 0 <= i < |results| - 1 && results[1..][i].Raised? && e == ConversionError(folders[1..][i], results[1..][i].failure);
          assert results[i + 1] == results[1..][i] && folders[i + 1] == folders[1..][i];
        }
      }
      forall i | 0 <= i < |results| && results[i].Raised?
        ensures ConversionError(folders[i], results[i].failure) in ErrorLog(folders, results)
      {
        if i > 0 {
          assert results[1..][i - 1] == results[i] && folders[1..][i - 1] == folders[i];
        }
      }
    }
  }

  // ---------------------------------------------------------------- the driver

  datatype GroupRecord = GroupRecord(group: string, converted: nat, submitted: seq<string>, results: seq<JobResult>)

  /** What ends a run early: an exception from the driver itself, or the unbound name on line 105. */
  datatype RunFailure = OsAbort(error: OsError) | SummaryUnbound

  /** A subfolder whose group folders were listed on line 77: its name and the names listed. */
  datatype Visit = Visit(subfolder: string, groups: seq<string>)

  /**
   * The driver's variables: the file system, the log, `tot_images`, the length of the last bound
   * `dicom_folders` (`None` while unbound), the groups converted so far, how the run ended, and
   * the subfolders visited so far.
   */
  datatype RunState = RunState(fs: Fs<Nifti>, log: seq<Event>, tot: nat, lastCount: Option<nat>,
                               groups: seq<GroupRecord>, failure: Option<RunFailure>, visits: seq<Visit>)

  /** Lines 77-102 for one group folder `group` of the subfolder `inputDir`. */
  function GroupStep(st: RunState, inputDir: string, outputDir: string, group: string, beh: string -> FolderBehaviour): RunState {
    var header := st.log + [GroupHeader(group)];
    var inputFolder := Join(inputDir, group);
    var outputFolder := Join(outputDir, group);
    match MakeDirs(st.fs, outputFolder, true)
    case Err(e) => st.(log := header, failure := Some(OsAbort(e)))
    case Ok(fs1) =>
      match ListDir(fs1, outputFolder)
      case Err(e) => st.(fs := fs1, log := header, failure := Some(OsAbort(e)))
      case Ok(done) =>
        match ListDir(fs1, inputFolder)
        case Err(e) => st.(fs := fs1, log := header, failure := Some(OsAbort(e)))
        case Ok(entries) =>
          var folders := ResidualPaths(inputFolder, entries, done);
          Collected(st, group, done, folders, RunJobs(Pool(fs1, [], []), folders, outputFolder, beh))
  }

  /**
   * Lines 89-102 once the pool has finished: the counts, the jobs' own messages, the drain's
   * error messages and the group's summary are logged, and both counters move on.
   */
  function Collected(st: RunState, group: string, done: seq<string>, folders: seq<string>, pool: Pool): RunState {
    RunState(pool.fs,
             st.log + [GroupHeader(group)] + [Counts(|done|, |folders|)] + pool.log + ErrorLog(folders, pool.results) + [GroupConverted(|folders|)],
             st.tot + |folders|, Some(|folders|),
             st.groups + [GroupRecord(group, |done|, folders, pool.results)], None, st.visits)
  }

  /** Line 77: the group folders of one subfolder, in listing order; an exception ends the run. */
  function GroupsFrom(st: RunState, inputDir: string, outputDir: string, groups: seq<string>, beh: string -> FolderBehaviour): RunState
    decreases |groups|
  {
    if st.failure.Some? || groups == [] then st
    else GroupsFrom(GroupStep(st, inputDir, outputDir, groups[0], beh), inputDir, outputDir, groups[1..], beh)
  }

  /** Lines 75-77 for one subfolder. */
  function SubfolderStep(st: RunState, dirBase: string, dirRaw: string, subfolder: string, beh: string -> FolderBehaviour): RunState {
    var inputDir := Join(dirBase, subfolder);
    match ListDir(st.fs, inputDir)
    case Err(e) => st.(failure := Some(OsAbort(e)))
    case Ok(groups) => GroupsFrom(st.(visits := st.visits + [Visit(subfolder, groups)]), inputDir, Join(dirRaw, subfolder), groups, beh)
  }

  /** Line 74: the subfolders in listing order. */
  function SubfoldersFrom(st: RunState, dirBase: string, dirRaw: string, subfolders: seq<string>, beh: string -> FolderBehaviour): RunState
    decreases |subfolders|
  {
    if st.failure.Some? || subfolders == [] then st
    else SubfoldersFrom(SubfolderStep(st, dirBase, dirRaw, subfolders[0], beh), dirBase, dirRaw, subfolders[1..], beh)
  }

  /** The `__main__` block, lines 60-108, with the two root paths passed in. */
  function Conversion(fs: Fs<Nifti>, baseArg: string, dirRaw: string, beh: string -> FolderBehaviour): RunState {
    var dirBase := AbsPath(fs.cwd, baseArg);
    match MakeDirs(fs, dirRaw, true)
    case Err(e) => RunState(fs, [], 0, None, [], Some(OsAbort(e)), [])
    case Ok(fs1) =>
      var st := Initial(fs1, dirBase, dirRaw);
      match ListDir(fs1, dirBase)
      case Err(e) => st.(failure := Some(OsAbort(e)))
      case Ok(subfolders) => Finish(SubfoldersFrom(st, dirBase, dirRaw, subfolders, beh))
  }

  /** Lines 69 and 72: the two opening messages, with nothing counted yet. */
  function Initial(fs1: Fs<Nifti>, dirBase: string, dirRaw: string): RunState {
    RunState(fs1, [ConvertingInto(dirBase, dirRaw), Started], 0, None, [], None, [])
  }

  /** Lines 104-108 on the state the subfolder loop ends in. */
  function Finish(end: RunState): RunState {
    if end.failure.Some? then end
    else
      match end.lastCount
      case None => end.(failure := Some(SummaryUnbound))
      case Some(n) => end.(log := end.log + [Summary(n), Finished])
  }

  // ---------------------------------------------------------------- what a group does

  /** The group's directory operations succeed: its output folder can be made and its input folder listed. */
  predicate GroupCanRun(fs: Fs<Nifti>, inputFolder: string, outputFolder: string) {
    Resolve(fs, outputFolder) !in fs.files && (IsDir(fs, inputFolder) || Resolve(fs, inputFolder) == Resolve(fs, outputFolder))
  }

  lemma GroupRanState(st: RunState, inputDir: string, outputDir: string, group: string, beh: string -> FolderBehaviour,
                      fs1: Fs<Nifti>, folders: seq<string>, pool: Pool)
    requires MakeDirs(st.fs, Join(outputDir, group), true) == Ok(fs1)
    requires IsDir(fs1, Join(inputDir, group))
    requires folders == ResidualPaths(Join(inputDir, group), Listing(st.fs, Join(inputDir, group)), Listing(st.fs, Join(outputDir, group)))
    requires pool == RunJobs(Pool(fs1, [], []), folders, Join(outputDir, group), beh)
    ensures GroupStep(st, inputDir, outputDir, group, beh) == Collected(st, group, Listing(st.fs, Join(outputDir, group)), folders, pool)
  {
    GroupRanListings(st, inputDir, outputDir, group, fs1);
  }

  lemma GroupRanListings(st: RunState, inputDir: string, outputDir: string, group: string, fs1: Fs<Nifti>)
    requires MakeDirs(st.fs, Join(outputDir, group), true) == Ok(fs1)
    requires IsDir(fs1, Join(inputDir, group))
    ensures ListDir(fs1, Join(outputDir, group)) == Ok(Listing(st.fs, Join(outputDir, group)))
    ensures ListDir(fs1, Join(inputDir, group)) == Ok(Listing(st.fs, Join(inputDir, group)))
  {
    MakeDirsKeepsListing(st.fs, Join(outputDir, group), true, Join(inputDir, group));
    MakeDirsKeepsListing(st.fs, Join(outputDir, group), true, Join(outputDir, group));
  }

  /** The group step once its directory operations succeeded: the residual is submitted to the pool. */
  lemma GroupRan(st: RunState, inputDir: string, outputDir: string, group: string, beh: string -> FolderBehaviour,
                 fs1: Fs<Nifti>, folders: seq<string>, pool: Pool)
    requires WellFormed(st.fs)
    requires MakeDirs(st.fs, Join(outputDir, group), true) == Ok(fs1)
    requires IsDir(fs1, Join(inputDir, group))
    requires folders == ResidualPaths(Join(inputDir, group), Listing(st.fs, Join(inputDir, group)), Listing(st.fs, Join(outputDir, group)))
    requires pool == RunJobs(Pool(fs1, [], []), folders, Join(outputDir, group), beh)
    ensures GroupStep(st, inputDir, outputDir, group, beh) == Collected(st, group, Listing(st.fs, Join(outputDir, group)), folders, pool)
    ensures OutputReady(pool.fs, Join(outputDir, group)) && pool.fs.cwd == st.fs.cwd
    ensures pool.results == ExpectedJobs(folders, beh) && pool.log == JobsLog(folders, beh)
    ensures pool.fs.dirs == fs1.dirs[Resolve(st.fs, Join(outputDir, group)) :=
      AddAll(Listing(st.fs, Join(outputDir, group)), ConvertedNames(folders, beh))]
    ensures pool.fs.files == ApplyWrites(st.fs.files, ConvertedWrites(Resolve(st.fs, Join(outputDir, group)), folders, beh))
  {
    var outputFolder := Join(outputDir, group);
    GroupRanState(st, inputDir, outputDir, group, beh, fs1, folders, pool);
    MakeDirsWellFormed(st.fs, outputFolder, true);
    MakeDirsKeepsListing(st.fs, outputFolder, true, outputFolder);
    assert OutputReady(fs1, outputFolder);
    RunJobsEffect(Pool(fs1, [], []), folders, outputFolder, beh);
    assert [] + ExpectedJobs(folders, beh) == ExpectedJobs(folders, beh);
    assert [] + JobsLog(folders, beh) == JobsLog(folders, beh);
  }

  /**
   * What one group step does to the driver's variables: either a directory operation of the
   * driver raises, and the run ends with nothing counted for the group, or the group is recorded,
   * each submitted folder's expected result, `tot_images` grows by the number submitted and
   * `dicom_folders` is rebound to them; whatever the jobs raise, the run goes on.
   */
  ghost predicate Shaped(st: RunState, st': RunState, group: string, canRun: bool, beh: string -> FolderBehaviour) {
    WellFormed(st'.fs) && st'.fs.cwd == st.fs.cwd && st'.visits == st.visits &&
    (!canRun ==>
      st'.failure.Some? && st'.failure.value.OsAbort? &&
      st'.groups == st.groups && st'.tot == st.tot && st'.lastCount == st.lastCount) &&
    (canRun ==>
      st'.failure.None? && |st'.groups| == |st.groups| + 1 && st'.groups[..|st.groups|] == st.groups &&
      var rec := st'.groups[|st.groups|];
      rec.group == group && rec.results == ExpectedJobs(rec.submitted, beh) &&
      st'.tot == st.tot + |rec.submitted| && st'.lastCount == Some(|rec.submitted|))
  }

  /** Lines 77-102 for one group take the driver's variables as `Shaped` states. */
  lemma GroupShape(st: RunState, inputDir: string, outputDir: string, group: string, beh: string -> FolderBehaviour)
    requires WellFormed(st.fs)
    ensures var st' := GroupStep(st, inputDir, outputDir, group, beh);
      Shaped(st, st', group, GroupCanRun(st.fs, Join(inputDir, group), Join(outputDir, group)), beh)
  {
    var inputFolder := Join(inputDir, group);
    var outputFolder := Join(outputDir, group);
    match MakeDirs(st.fs, outputFolder, true)
    case Err(_) =>
    case Ok(fs1) =>
      MakeDirsWellFormed(st.fs, outputFolder, true);
      MakeDirsIsDir(st.fs, outputFolder, true, inputFolder);
      if IsDir(fs1, inputFolder) {
        var folders := ResidualPaths(inputFolder, Listing(st.fs, inputFolder), Listing(st.fs, outputFolder));
        var pool := RunJobs(Pool(fs1, [], []), folders, outputFolder, beh);
        GroupRan(st, inputDir, outputDir, group, beh, fs1, folders, pool);
        var rec := GroupRecord(group, |Listing(st.fs, outputFolder)|, folders, pool.results);
        assert (st.groups + [rec])[..|st.groups|] == st.groups;
      }
  }

  /**
   * A group whose directory operations succeed: the submitted folders are the residual of the
   * input listing against the output listing, every job's result is collected and each exception
   * is logged with its folder, and the output listing gains the name of every conversion that
   * succeeded while no other listing changes; the files are the old ones with every successful
   * conversion's file written, in submission order.
   */
  lemma GroupCollects(st: RunState, inputDir: string, outputDir: string, group: string, beh: string -> FolderBehaviour)
    requires WellFormed(st.fs) && GroupCanRun(st.fs, Join(inputDir, group), Join(outputDir, group))
    ensures var st' := GroupStep(st, inputDir, outputDir, group, beh);
      var inputFolder := Join(inputDir, group);
      var outputFolder := Join(outputDir, group);
      var done := Listing(st.fs, outputFolder);
      |st'.groups| == |st.groups| + 1 &&
      var rec := st'.groups[|st.groups|];
      rec.submitted == ResidualPaths(inputFolder, Listing(st.fs, inputFolder), done) &&
      rec.converted == |done| &&
      rec.results == ExpectedJobs(rec.submitted, beh) &&
      st'.log == st.log + [GroupHeader(group)] + [Counts(|done|, |rec.submitted|)] + JobsLog(rec.submitted, beh) +
                 ErrorLog(rec.submitted, rec.results) + [GroupConverted(|rec.submitted|)] &&
      OutputReady(st'.fs, outputFolder) && st'.fs.cwd == st.fs.cwd &&
      Listing(st'.fs, outputFolder) == AddAll(done, ConvertedNames(rec.submitted, beh)) &&
      st'.fs.files == ApplyWrites(st.fs.files, ConvertedWrites(Resolve(st.fs, outputFolder), rec.submitted, beh)) &&
      (forall d :: d in st.fs.dirs && d != Resolve(st.fs, outputFolder) ==> d in st'.fs.dirs && st'.fs.dirs[d] == st.fs.dirs[d])
  {
    var inputFolder := Join(inputDir, group);
    var outputFolder := Join(outputDir, group);
    var m := MakeDirs(st.fs, outputFolder, true);
    MakeDirsIsDir(st.fs, outputFolder, true, inputFolder);
    var folders := ResidualPaths(inputFolder, Listing(st.fs, inputFolder), Listing(st.fs, outputFolder));
    var pool := RunJobs(Pool(m.value, [], []), folders, outputFolder, beh);
    GroupRan(st, inputDir, outputDir, group, beh, m.value, folders, pool);
    OtherDirsKept(st.fs, outputFolder, m.value, AddAll(Listing(st.fs, outputFolder), ConvertedNames(folders, beh)));
  }

  /** Replacing the output folder's listing after `makedirs` leaves every other listing as it was. */
  lemma OtherDirsKept(fs: Fs<Nifti>, outputFolder: string, fs1: Fs<Nifti>, listing: seq<string>)
    requires MakeDirs(fs, outputFolder, true) == Ok(fs1)
    ensures var dirs := fs1.dirs[Resolve(fs, outputFolder) := listing];
      forall d :: d in fs.dirs && d != Resolve(fs, outputFolder) ==> d in dirs && dirs[d] == fs.dirs[d]
  {
  }

  // ---------------------------------------------------------------- resuming a group

  /**
   * Outputs carry the suffix and input folders do not, so no output name ever matches a folder
   * name: against an output listing of converted files only, the residual is the whole input listing.
   */
  lemma ResidualIgnoresNifti(entries: seq<string>, done: seq<string>)
    requires forall x :: x in entries ==> !IsNiftiName(x)
    requires forall x :: x in done ==> IsNiftiName(x)
    ensures Residual(entries, done) == entries
  {
    ResidualNoneDone(entries, done);
  }

  /** Converted outputs never change which folders the filter keeps. */
  lemma {:induction false} ConvertedNamesIgnored(entries: seq<string>, done: seq<string>, folders: seq<string>, beh: string -> FolderBehaviour)
    requires forall x :: x in entries ==> !IsNiftiName(x)
    ensures Residual(entries, AddAll(done, ConvertedNames(folders, beh))) == Residual(entries, done)
  {
    var names := ConvertedNames(folders, beh);
    AddAllMembers(done, names);
    ConvertedNamesSuffixed(folders, beh);
    ResidualCongruent(entries, done, AddAll(done, names));
  }

  /**
   * With input folder names that do not end in `.nii.gz`, a group run again right after it ran
   * submits the very same folders, converted or not: the filter never recognises a conversion as
   * done. Every successful conversion writes its file again, with the same contents, so the rerun
   * leaves the output folder's files and listing exactly as the first run left them.
   */
  lemma GroupRerun(st: RunState, inputDir: string, outputDir: string, group: string, beh: string -> FolderBehaviour)
    requires WellFormed(st.fs) && GroupCanRun(st.fs, Join(inputDir, group), Join(outputDir, group))
    requires Resolve(st.fs, Join(inputDir, group)) != Resolve(st.fs, Join(outputDir, group))
    requires forall x :: x in Listing(st.fs, Join(inputDir, group)) ==> !IsNiftiName(x)
    ensures var st1 := GroupStep(st, inputDir, outputDir, group, beh);
      var again := GroupStep(RunState(st1.fs, [], 0, None, [], None, []), inputDir, outputDir, group, beh);
      var key := Resolve(st.fs, Join(outputDir, group));
      |st1.groups| == |st.groups| + 1 && |again.groups| == 1 &&
      var first := st1.groups[|st.groups|].submitted;
      again.groups[0].submitted == first &&
      again.fs.files == ApplyWrites(st1.fs.files, ConvertedWrites(key, first, beh)) &&
      again.fs.files == st1.fs.files &&
      Listing(again.fs, Join(outputDir, group)) == Listing(st1.fs, Join(outputDir, group))
  {
    var inputFolder := Join(inputDir, group);
    var outputFolder := Join(outputDir, group);
    var key := Resolve(st.fs, outputFolder);
    var st1 := GroupStep(st, inputDir, outputDir, group, beh);
    GroupCollects(st, inputDir, outputDir, group, beh);
    var rec := st1.groups[|st.groups|];
    var entries := Listing(st.fs, inputFolder);
    var done := Listing(st.fs, outputFolder);
    var names := ConvertedNames(rec.submitted, beh);
    assert Resolve(st1.fs, inputFolder) == Resolve(st.fs, inputFolder);
    assert Resolve(st1.fs, outputFolder) == key;
    assert Listing(st1.fs, inputFolder) == entries;
    var restart := RunState(st1.fs, [], 0, None, [], None, []);
    GroupCollects(restart, inputDir, outputDir, group, beh);
    ConvertedNamesIgnored(entries, done, rec.submitted, beh);
    ResidualPathsJoinAll(inputFolder, entries, done);
    ResidualPathsJoinAll(inputFolder, entries, AddAll(done, names));
    ApplyWritesTwice(st.fs.files, ConvertedWrites(key, rec.submitted, beh));
    AddAllTwice(done, names);
  }

  /** With only converted files in the output folder, every input folder is submitted. */
  lemma GroupSubmitsAll(st: RunState, inputDir: string, outputDir: string, group: string, beh: string -> FolderBehaviour)
    requires WellFormed(st.fs) && GroupCanRun(st.fs, Join(inputDir, group), Join(outputDir, group))
    requires forall x :: x in Listing(st.fs, Join(inputDir, group)) ==> !IsNiftiName(x)
    requires forall x :: x in Listing(st.fs, Join(outputDir, group)) ==> IsNiftiName(x)
    ensures var st1 := GroupStep(st, inputDir, outputDir, group, beh);
      |st1.groups| == |st.groups| + 1 &&
      st1.groups[|st.groups|].submitted == JoinAll(Join(inputDir, group), Listing(st.fs, Join(inputDir, group)))
  {
    var inputFolder := Join(inputDir, group);
    var outputFolder := Join(outputDir, group);
    GroupCollects(st, inputDir, outputDir, group, beh);
    ResidualIgnoresNifti(Listing(st.fs, inputFolder), Listing(st.fs, outputFolder));
    ResidualPathsJoinAll(inputFolder, Listing(st.fs, inputFolder), Listing(st.fs, outputFolder));
  }

  // ---------------------------------------------------------------- what a run counts

  /** The sum of the residual sizes of the groups, in order. */
  function TotalSubmitted(groups: seq<GroupRecord>): nat {
    if groups == [] then 0 else TotalSubmitted(groups[..|groups| - 1]) + |groups[|groups| - 1].submitted|
  }

  /** `len(dicom_folders)` after the groups: that of the last one, unbound before the first. */
  function LastCount(groups: seq<GroupRecord>): Option<nat> {
    if groups == [] then None else Some(|groups[|groups| - 1].submitted|)
  }

  /** The two counters agree with the groups recorded so far. */
  predicate Counted(st: RunState) {
    st.tot == TotalSubmitted(st.groups) && st.lastCount == LastCount(st.groups)
  }

  /** Every group collected each submitted folder's expected result. */
  predicate AllCollected(groups: seq<GroupRecord>, beh: string -> FolderBehaviour) {
    forall i :: 0 <= i < |groups| ==> groups[i].results == ExpectedJobs(groups[i].submitted, beh)
  }

  lemma GroupStepCounted(st: RunState, inputDir: string, outputDir: string, group: string, beh: string -> FolderBehaviour)
    requires WellFormed(st.fs) && Counted(st) && AllCollected(st.groups, beh)
    ensures var st' := GroupStep(st, inputDir, outputDir, group, beh);
      Counted(st') && AllCollected(st'.groups, beh)
  {
    GroupShape(st, inputDir, outputDir, group, beh);
    ShapedCounted(st, GroupStep(st, inputDir, outputDir, group, beh), group, GroupCanRun(st.fs, Join(inputDir, group), Join(outputDir, group)), beh);
  }

  lemma ShapedCounted(st: RunState, st': RunState, group: string, canRun: bool, beh: string -> FolderBehaviour)
    requires Counted(st) && AllCollected(st.groups, beh) && Shaped(st, st', group, canRun, beh)
    ensures Counted(st') && AllCollected(st'.groups, beh)
  {
    if canRun {
      var rec := st'.groups[|st.groups|];
      assert st'.groups == st.groups + [rec];
      assert st'.groups[..|st'.groups| - 1] == st.groups;
    }
  }

  /**
   * The group loop of one subfolder from a clean state: the counters stay in step, the groups
   * are recorded in listing order with every result collected, all of them when nothing raised,
   * and only a directory operation of the driver can end the loop early.
   */
  ghost predicate GroupsAccounted(st: RunState, end: RunState, groups: seq<string>, beh: string -> FolderBehaviour) {
    var s0 := |st.groups|;
    WellFormed(end.fs) && end.fs.cwd == st.fs.cwd && end.visits == st.visits && Counted(end) && AllCollected(end.groups, beh) &&
    s0 <= |end.groups| <= s0 + |groups| && end.groups[..s0] == st.groups &&
    (forall i :: s0 <= i < |end.groups| ==> end.groups[i].group == groups[i - s0]) &&
    (end.failure.None? ==> |end.groups| == s0 + |groups|) &&
    (end.failure.Some? ==> end.failure.value.OsAbort?)
  }

  lemma {:induction false} GroupsFromAccounted(st: RunState, inputDir: string, outputDir: string, groups: seq<string>, beh: string -> FolderBehaviour)
    requires WellFormed(st.fs) && Counted(st) && AllCollected(st.groups, beh) && st.failure.None?
    ensures GroupsAccounted(st, GroupsFrom(st, inputDir, outputDir, groups, beh), groups, beh)
    decreases |groups|
  {
    if groups == [] {
      assert st.groups[..|st.groups|] == st.groups;
    } else {
      var st1 := GroupStep(st, inputDir, outputDir, groups[0], beh);
      GroupStepAccounted(st, inputDir, outputDir, groups[0], beh);
      assert GroupsFrom(st, inputDir, outputDir, groups, beh) == GroupsFrom(st1, inputDir, outputDir, groups[1..], beh);
      if st1.failure.Some? {
        assert GroupsFrom(st1, inputDir, outputDir, groups[1..], beh) == st1;
        StopGroups(st, st1, groups, beh);
      } else {
        GroupsFromAccounted(st1, inputDir, outputDir, groups[1..], beh);
        ContinueGroups(st, st1, GroupsFrom(st1, inputDir, outputDir, groups[1..], beh), groups, beh);
      }
    }
  }

  /** One group step from a clean state, as the loop's account needs it. */
  ghost predicate StepAccounted(st: RunState, st1: RunState, group: string, beh: string -> FolderBehaviour) {
    WellFormed(st1.fs) && st1.fs.cwd == st.fs.cwd && st1.visits == st.visits && Counted(st1) && AllCollected(st1.groups, beh) &&
    (st1.failure.Some? ==> st1.failure.value.OsAbort? && st1.groups == st.groups) &&
    (st1.failure.None? ==> |st1.groups| == |st.groups| + 1 && st1.groups[..|st.groups|] == st.groups && st1.groups[|st.groups|].group == group)
  }

  lemma GroupStepAccounted(st: RunState, inputDir: string, outputDir: string, group: string, beh: string -> FolderBehaviour)
    requires WellFormed(st.fs) && Counted(st) && AllCollected(st.groups, beh)
    ensures StepAccounted(st, GroupStep(st, inputDir, outputDir, group, beh), group, beh)
  {
    GroupShape(st, inputDir, outputDir, group, beh);
    var canRun := GroupCanRun(st.fs, Join(inputDir, group), Join(outputDir, group));
    ShapedCounted(st, GroupStep(st, inputDir, outputDir, group, beh), group, canRun, beh);
  }

  lemma StopGroups(st: RunState, st1: RunState, groups: seq<string>, beh: string -> FolderBehaviour)
    requires groups != [] && StepAccounted(st, st1, groups[0], beh) && st1.failure.Some?
    ensures GroupsAccounted(st, st1, groups, beh)
  {
    assert st1.groups[..|st.groups|] == st.groups;
  }

  lemma ContinueGroups(st: RunState, st1: RunState, end: RunState, groups: seq<string>, beh: string -> FolderBehaviour)
    requires groups != [] && StepAccounted(st, st1, groups[0], beh) && st1.failure.None?
    requires GroupsAccounted(st1, end, groups[1..], beh)
    ensures GroupsAccounted(st, end, groups, beh)
  {
    var s0 := |st.groups|;
    assert end.groups[..s0 + 1] == st1.groups;
    assert end.groups[..s0] == st1.groups[..s0];
    assert end.groups[s0] == st1.groups[s0];
    forall i | s0 < i < |end.groups| ensures end.groups[i].group == groups[i - s0] {
      assert groups[1..][i - (s0 + 1)] == groups[i - s0];
    }
  }

  /** The subfolders of some visits, in order. */
  function VisitedNames(vs: seq<Visit>): seq<string> {
    seq(|vs|, i requires 0 <= i < |vs| => vs[i].subfolder)
  }

  /** The group folders some visits listed, visit by visit. */
  function ListedGroups(vs: seq<Visit>): seq<string> {
    if vs == [] then [] else vs[0].groups + ListedGroups(vs[1..])
  }

  /** The group folders some records were made for, in order. */
  function GroupNames(recs: seq<GroupRecord>): seq<string> {
    seq(|recs|, i requires 0 <= i < |recs| => recs[i].group)
  }

  lemma {:induction false} ListedGroupsAppend(a: seq<Visit>, b: seq<Visit>)
    ensures ListedGroups(a + b) == ListedGroups(a) + ListedGroups(b)
    decreases |a|
  {
    if a == [] {
      assert a + b == b;
    } else {
      assert (a + b)[1..] == a[1..] + b;
      ListedGroupsAppend(a[1..], b);
      calc {
        ListedGroups(a + b);
        a[0].groups + ListedGroups(a[1..] + b);
        a[0].groups + (ListedGroups(a[1..]) + ListedGroups(b));
        (a[0].groups + ListedGroups(a[1..])) + ListedGroups(b);
      }
    }
  }

  /** Two walks one after the other walk the concatenated listing. */
  lemma WalkedAppend(v0: seq<Visit>, v1: seq<Visit>, g0: seq<GroupRecord>, g1: seq<GroupRecord>,
                     first: seq<string>, rest: seq<string>)
    requires Walked(v0, g0, first) && Walked(v1, g1, rest)
    ensures Walked(v0 + v1, g0 + g1, first + rest)
  {
    assert VisitedNames(v0 + v1) == VisitedNames(v0) + VisitedNames(v1);
    assert GroupNames(g0 + g1) == GroupNames(g0) + GroupNames(g1);
    ListedGroupsAppend(v0, v1);
  }

  /**
   * A subfolder loop that raised nothing walked the whole listing: the visits are the listed
   * subfolders in order, and the groups recorded are, visit by visit, every group folder listed.
   */
  predicate Walked(vs: seq<Visit>, recs: seq<GroupRecord>, subfolders: seq<string>) {
    VisitedNames(vs) == subfolders && GroupNames(recs) == ListedGroups(vs)
  }

  /**
   * The subfolder loop: counters in step, earlier groups and visits kept, every result collected,
   * only the driver's own directory operations abort, and without an abort every subfolder and
   * every group folder it lists was walked.
   */
  ghost predicate SubAccounted(st: RunState, end: RunState, subfolders: seq<string>, beh: string -> FolderBehaviour) {
    Tallied(end, beh) && Extends(st, end) && WalkEnded(st, end, subfolders)
  }

  /** The counters agree with the groups recorded, each of which collected its expected results. */
  ghost predicate Tallied(st: RunState, beh: string -> FolderBehaviour) {
    WellFormed(st.fs) && Counted(st) && AllCollected(st.groups, beh)
  }

  /** `end` keeps the working directory, the groups and the visits of `st`. */
  predicate Extends(st: RunState, end: RunState) {
    end.fs.cwd == st.fs.cwd &&
    |st.groups| <= |end.groups| && end.groups[..|st.groups|] == st.groups &&
    |st.visits| <= |end.visits| && end.visits[..|st.visits|] == st.visits
  }

  /** Only a driver directory error aborts; otherwise the walk from `st` to `end` covered `subfolders`. */
  predicate WalkEnded(st: RunState, end: RunState, subfolders: seq<string>)
    requires Extends(st, end)
  {
    (end.failure.Some? ==> end.failure.value.OsAbort?) &&
    (end.failure.None? ==> Walked(end.visits[|st.visits|..], end.groups[|st.groups|..], subfolders))
  }

  /** A walk of the first subfolder followed by a walk of the rest is a walk of them all. */
  lemma SubAccountedTrans(st: RunState, st1: RunState, end: RunState, subfolders: seq<string>, beh: string -> FolderBehaviour)
    requires subfolders != [] && SubAccounted(st, st1, [subfolders[0]], beh) && st1.failure.None?
    requires SubAccounted(st1, end, subfolders[1..], beh)
    ensures SubAccounted(st, end, subfolders, beh)
  {
    PrefixTrans(st.groups, st1.groups, end.groups);
    PrefixTrans(st.visits, st1.visits, end.visits);
    if end.failure.None? {
      WalkedAppend(st1.visits[|st.visits|..], end.visits[|st1.visits|..], st1.groups[|st.groups|..], end.groups[|st1.groups|..],
                   [subfolders[0]], subfolders[1..]);
      assert [subfolders[0]] + subfolders[1..] == subfolders;
    }
  }

  /** A prefix of a prefix is a prefix, and the two rests make up the whole rest. */
  lemma PrefixTrans<T>(a: seq<T>, b: seq<T>, c: seq<T>)
    requires |a| <= |b| <= |c| && b[..|a|] == a && c[..|b|] == b
    ensures c[..|a|] == a && c[|a|..] == b[|a|..] + c[|b|..]
  {
    assert c[..|a|] == c[..|b|][..|a|];
    assert c[|a|..] == c[|a|..|b|] + c[|b|..];
  }

  /** Line 77 on its own: a visit records exactly the group folders `os.listdir(input_dir)` returned. */
  lemma SubfolderVisit(st: RunState, dirBase: string, dirRaw: string, subfolder: string, beh: string -> FolderBehaviour)
    requires WellFormed(st.fs) && Counted(st) && AllCollected(st.groups, beh) && st.failure.None?
    ensures var st' := SubfolderStep(st, dirBase, dirRaw, subfolder, beh);
      match ListDir(st.fs, Join(dirBase, subfolder))
      case Err(e) => st' == st.(failure := Some(OsAbort(e)))
      case Ok(groups) => st'.visits == st.visits + [Visit(subfolder, groups)]
  {
    var inputDir := Join(dirBase, subfolder);
    match ListDir(st.fs, inputDir)
    case Err(_) =>
    case Ok(groups) =>
      GroupsFromAccounted(st.(visits := st.visits + [Visit(subfolder, groups)]), inputDir, Join(dirRaw, subfolder), groups, beh);
  }

  lemma SubfolderStepAccounted(st: RunState, dirBase: string, dirRaw: string, subfolder: string, beh: string -> FolderBehaviour)
    requires WellFormed(st.fs) && Counted(st) && AllCollected(st.groups, beh) && st.failure.None?
    ensures SubAccounted(st, SubfolderStep(st, dirBase, dirRaw, subfolder, beh), [subfolder], beh)
  {
    var inputDir := Join(dirBase, subfolder);
    match ListDir(st.fs, inputDir)
    case Err(_) =>
      assert st.groups[..|st.groups|] == st.groups;
      assert st.visits[..|st.visits|] == st.visits;
    case Ok(groups) =>
      var st1 := st.(visits := st.visits + [Visit(subfolder, groups)]);
      var end := GroupsFrom(st1, inputDir, Join(dirRaw, subfolder), groups, beh);
      GroupsFromAccounted(st1, inputDir, Join(dirRaw, subfolder), groups, beh);
      VisitAccounted(st, end, subfolder, groups, beh);
  }

  /** A visit whose group loop is accounted is accounted as a walk of that one subfolder. */
  lemma VisitAccounted(st: RunState, end: RunState, subfolder: string, groups: seq<string>, beh: string -> FolderBehaviour)
    requires GroupsAccounted(st.(visits := st.visits + [Visit(subfolder, groups)]), end, groups, beh)
    ensures SubAccounted(st, end, [subfolder], beh)
  {
    var v := Visit(subfolder, groups);
    assert end.visits[..|st.visits|] == st.visits;
    if end.failure.None? {
      assert end.visits[|st.visits|..] == [v];
      assert ListedGroups([v]) == groups + ListedGroups([]);
      assert GroupNames(end.groups[|st.groups|..]) == groups;
    }
  }

  lemma {:induction false} SubfoldersFromAccounted(st: RunState, dirBase: string, dirRaw: string, subfolders: seq<string>, beh: string -> FolderBehaviour)
    requires WellFormed(st.fs) && Counted(st) && AllCollected(st.groups, beh) && st.failure.None?
    ensures SubAccounted(st, SubfoldersFrom(st, dirBase, dirRaw, subfolders, beh), subfolders, beh)
    decreases |subfolders|
  {
    if subfolders == [] {
      NothingWalked(st, beh);
    } else {
      var st1 := SubfolderStep(st, dirBase, dirRaw, subfolders[0], beh);
      SubfolderStepAccounted(st, dirBase, dirRaw, subfolders[0], beh);
      SubfoldersFromUnfold(st, dirBase, dirRaw, subfolders, beh);
      if st1.failure.None? {
        SubfoldersFromAccounted(st1, dirBase, dirRaw, subfolders[1..], beh);
        SubAccountedTrans(st, st1, SubfoldersFrom(st1, dirBase, dirRaw, subfolders[1..], beh), subfolders, beh);
      } else {
        assert SubfoldersFrom(st1, dirBase, dirRaw, subfolders[1..], beh) == st1;
        AbortedAccounted(st, st1, [subfolders[0]], subfolders, beh);
      }
    }
  }

  /** The first turn of the subfolder loop. */
  lemma SubfoldersFromUnfold(st: RunState, dirBase: string, dirRaw: string, subfolders: seq<string>, beh: string -> FolderBehaviour)
    requires st.failure.None? && subfolders != []
    ensures SubfoldersFrom(st, dirBase, dirRaw, subfolders, beh) ==
      SubfoldersFrom(SubfolderStep(st, dirBase, dirRaw, subfolders[0], beh), dirBase, dirRaw, subfolders[1..], beh)
  {
  }

  /** An empty walk is accounted. */
  lemma NothingWalked(st: RunState, beh: string -> FolderBehaviour)
    requires Tallied(st, beh) && st.failure.None?
    ensures SubAccounted(st, st, [], beh)
  {
    assert st.groups[..|st.groups|] == st.groups && st.groups[|st.groups|..] == [];
    assert st.visits[..|st.visits|] == st.visits && st.visits[|st.visits|..] == [];
  }

  /** An aborted walk is accounted whatever was left to walk. */
  lemma AbortedAccounted(st: RunState, end: RunState, walked: seq<string>, subfolders: seq<string>, beh: string -> FolderBehaviour)
    requires SubAccounted(st, end, walked, beh) && end.failure.Some?
    ensures SubAccounted(st, end, subfolders, beh)
  {
  }

  // ---------------------------------------------------------------- what a run logs

  /** A log without the summary line and the end message. */
  predicate Quiet(log: seq<Event>) {
    forall i :: 0 <= i < |log| ==> !log[i].Summary? && !log[i].Finished?
  }

  lemma QuietAppend(a: seq<Event>, b: seq<Event>)
    requires Quiet(a) && Quiet(b)
    ensures Quiet(a + b)
  {
    forall i | 0 <= i < |a + b| ensures !(a + b)[i].Summary? && !(a + b)[i].Finished? {
      if i >= |a| { assert (a + b)[i] == b[i - |a|]; }
    }
  }

  lemma {:induction false} JobsLogQuiet(folders: seq<string>, beh: string -> FolderBehaviour)
    ensures Quiet(JobsLog(folders, beh))
    decreases |folders|
  {
    if folders != [] {
      JobsLogQuiet(folders[1..], beh);
      QuietAppend(FolderLog(folders[0], beh(folders[0])), JobsLog(folders[1..], beh));
    }
  }

  lemma {:induction false} ErrorLogQuiet(folders: seq<string>, results: seq<JobResult>)
    requires |folders| == |results|
    ensures Quiet(ErrorLog(folders, results))
    decreases |results|
  {
    if results != [] {
      ErrorLogQuiet(folders[1..], results[1..]);
      QuietAppend(ErrorOf(folders[0], results[0]), ErrorLog(folders[1..], results[1..]));
    }
  }

  lemma GroupStepQuiet(st: RunState, inputDir: string, outputDir: string, group: string, beh: string -> FolderBehaviour)
    requires WellFormed(st.fs) && Quiet(st.log)
    ensures Quiet(GroupStep(st, inputDir, outputDir, group, beh).log)
  {
    var inputFolder := Join(inputDir, group);
    var outputFolder := Join(outputDir, group);
    QuietAppend(st.log, [GroupHeader(group)]);
    match MakeDirs(st.fs, outputFolder, true)
    case Err(_) =>
    case Ok(fs1) =>
      MakeDirsIsDir(st.fs, outputFolder, true, inputFolder);
      if IsDir(fs1, inputFolder) {
        var folders := ResidualPaths(inputFolder, Listing(st.fs, inputFolder), Listing(st.fs, outputFolder));
        var pool := RunJobs(Pool(fs1, [], []), folders, outputFolder, beh);
        GroupRan(st, inputDir, outputDir, group, beh, fs1, folders, pool);
        JobsLogQuiet(folders, beh);
        CollectedQuiet(st, group, Listing(st.fs, outputFolder), folders, pool);
      } else {
        MakeDirsKeepsListing(st.fs, outputFolder, true, outputFolder);
      }
  }

  lemma CollectedQuiet(st: RunState, group: string, done: seq<string>, folders: seq<string>, pool: Pool)
    requires Quiet(st.log) && Quiet(pool.log) && |pool.results| == |folders|
    ensures Quiet(Collected(st, group, done, folders, pool).log)
  {
    var header := st.log + [GroupHeader(group)];
    ErrorLogQuiet(folders, pool.results);
    QuietAppend(st.log, [GroupHeader(group)]);
    QuietAppend(header, [Counts(|done|, |folders|)]);
    QuietAppend(header + [Counts(|done|, |folders|)], pool.log);
    QuietAppend(header + [Counts(|done|, |folders|)] + pool.log, ErrorLog(folders, pool.results));
    QuietAppend(header + [Counts(|done|, |folders|)] + pool.log + ErrorLog(folders, pool.results), [GroupConverted(|folders|)]);
  }

  lemma {:induction false} GroupsFromQuiet(st: RunState, inputDir: string, outputDir: string, groups: seq<string>, beh: string -> FolderBehaviour)
    requires WellFormed(st.fs) && Quiet(st.log)
    ensures Quiet(GroupsFrom(st, inputDir, outputDir, groups, beh).log)
    decreases |groups|
  {
    if st.failure.None? && groups != [] {
      GroupStepQuiet(st, inputDir, outputDir, groups[0], beh);
      GroupShape(st, inputDir, outputDir, groups[0], beh);
      GroupsFromQuiet(GroupStep(st, inputDir, outputDir, groups[0], beh), inputDir, outputDir, groups[1..], beh);
    }
  }

  lemma {:induction false} SubfoldersFromQuiet(st: RunState, dirBase: string, dirRaw: string, subfolders: seq<string>, beh: string -> FolderBehaviour)
    requires WellFormed(st.fs) && Quiet(st.log) && Counted(st) && AllCollected(st.groups, beh)
    ensures Quiet(SubfoldersFrom(st, dirBase, dirRaw, subfolders, beh).log)
    decreases |subfolders|
  {
    if st.failure.None? && subfolders != [] {
      var st1 := SubfolderStep(st, dirBase, dirRaw, subfolders[0], beh);
      match ListDir(st.fs, Join(dirBase, subfolders[0]))
      case Err(_) =>
      case Ok(groups) =>
        GroupsFromQuiet(st.(visits := st.visits + [Visit(subfolders[0], groups)]), Join(dirBase, subfolders[0]), Join(dirRaw, subfolders[0]), groups, beh);
      SubfolderStepAccounted(st, dirBase, dirRaw, subfolders[0], beh);
      SubfoldersFromQuiet(st1, dirBase, dirRaw, subfolders[1..], beh);
    }
  }

  // ---------------------------------------------------------------- what a run does

  /** The subfolder loop from the opening state is accounted as `SubAccounted` says and logs no summary. */
  lemma LoopEnds(fs1: Fs<Nifti>, dirBase: string, dirRaw: string, subfolders: seq<string>, beh: string -> FolderBehaviour)
    requires WellFormed(fs1)
    ensures var end := SubfoldersFrom(Initial(fs1, dirBase, dirRaw), dirBase, dirRaw, subfolders, beh);
      SubAccounted(Initial(fs1, dirBase, dirRaw), end, subfolders, beh) && Quiet(end.log)
  {
    var st := Initial(fs1, dirBase, dirRaw);
    assert Quiet(st.log);
    SubfoldersFromAccounted(st, dirBase, dirRaw, subfolders, beh);
    SubfoldersFromQuiet(st, dirBase, dirRaw, subfolders, beh);
  }

  /**
   * What a finished run reports, given a loop that kept its counters: without an exception, some
   * group ran and every group folder of every visited subfolder was converted, in listing order.
   */
  ghost predicate Reported(r: RunState, beh: string -> FolderBehaviour) {
    r.tot == TotalSubmitted(r.groups) && AllCollected(r.groups, beh) &&
    (r.failure.Some? ==> r.failure.value.OsAbort? || (r.failure.value.SummaryUnbound? && r.groups == [])) &&
    (r.failure.None? ==> r.groups != [] && GroupNames(r.groups) == ListedGroups(r.visits))
  }

  lemma FinishReported(st: RunState, end: RunState, subfolders: seq<string>, beh: string -> FolderBehaviour)
    requires st.groups == [] && st.visits == [] && SubAccounted(st, end, subfolders, beh)
    ensures Reported(Finish(end), beh)
    ensures Finish(end).failure.None? ==> VisitedNames(Finish(end).visits) == subfolders
  {
    assert end.groups[0..] == end.groups && end.visits[0..] == end.visits;
  }

  /** The log a finished run leaves: the summary and end message last, or neither. */
  predicate Ending(r: RunState) {
    (r.failure.None? ==>
      r.groups != [] && |r.log| >= 2 &&
      r.log[|r.log| - 2] == Summary(|r.groups[|r.groups| - 1].submitted|) && r.log[|r.log| - 1] == Finished) &&
    (r.failure.Some? ==> Quiet(r.log))
  }

  lemma FinishEnding(end: RunState)
    requires Counted(end) && Quiet(end.log)
    ensures Ending(Finish(end))
  {
  }

  /**
   * The whole run, lines 60-108: `tot_images` is the sum of the residual sizes of the groups
   * converted, every job's expected result was collected, and a run ends early only through an
   * exception of the driver's own directory operations or, when no group ran at all, the unbound
   * `dicom_folders` on line 105. A run that ends without an exception visited every subfolder
   * `os.listdir(DIR_BASE)` listed, in order, and converted every group folder each of them listed:
   * a failing job never stops the walk.
   */
  lemma ConversionCounted(fs: Fs<Nifti>, baseArg: string, dirRaw: string, beh: string -> FolderBehaviour)
    requires WellFormed(fs)
    ensures Reported(Conversion(fs, baseArg, dirRaw, beh), beh)
    ensures var r := Conversion(fs, baseArg, dirRaw, beh);
      r.failure.None? ==>
        (MakeDirs(fs, dirRaw, true).Ok? &&
         ListDir(MakeDirs(fs, dirRaw, true).value, AbsPath(fs.cwd, baseArg)) == Ok(VisitedNames(r.visits)))
  {
    var dirBase := AbsPath(fs.cwd, baseArg);
    match MakeDirs(fs, dirRaw, true)
    case Err(_) =>
    case Ok(fs1) =>
      match ListDir(fs1, dirBase)
      case Err(_) =>
      case Ok(subfolders) =>
        MakeDirsWellFormed(fs, dirRaw, true);
        LoopEnds(fs1, dirBase, dirRaw, subfolders, beh);
        FinishReported(Initial(fs1, dirBase, dirRaw), SubfoldersFrom(Initial(fs1, dirBase, dirRaw), dirBase, dirRaw, subfolders, beh), subfolders, beh);
  }

  /**
   * The summary line and the end message are logged exactly when no exception escaped, and the
   * summary reports the residual size of the last group converted, not `tot_images`.
   */
  lemma ConversionLog(fs: Fs<Nifti>, baseArg: string, dirRaw: string, beh: string -> FolderBehaviour)
    requires WellFormed(fs)
    ensures Ending(Conversion(fs, baseArg, dirRaw, beh))
  {
    var dirBase := AbsPath(fs.cwd, baseArg);
    var r := Conversion(fs, baseArg, dirRaw, beh);
    match MakeDirs(fs, dirRaw, true)
    case Err(_) =>
      assert r.log == [] && r.failure.Some?;
    case Ok(fs1) =>
      match ListDir(fs1, dirBase)
      case Err(_) =>
        assert r.log == [ConvertingInto(dirBase, dirRaw), Started] && r.failure.Some?;
      case Ok(subfolders) =>
        MakeDirsWellFormed(fs, dirRaw, true);
        assert r == Finish(SubfoldersFrom(Initial(fs1, dirBase, dirRaw), dirBase, dirRaw, subfolders, beh));
        ListedEnding(fs1, dirBase, dirRaw, subfolders, beh);
  }

  /** The run once both roots are ready: the loop's log, then the summary and end message or neither. */
  lemma ListedEnding(fs1: Fs<Nifti>, dirBase: string, dirRaw: string, subfolders: seq<string>, beh: string -> FolderBehaviour)
    requires WellFormed(fs1)
    ensures Ending(Finish(SubfoldersFrom(Initial(fs1, dirBase, dirRaw), dirBase, dirRaw, subfolders, beh)))
  {
    LoopEnds(fs1, dirBase, dirRaw, subfolders, beh);
    FinishEnding(SubfoldersFrom(Initial(fs1, dirBase, dirRaw), dirBase, dirRaw, subfolders, beh));
  }

  // ---------------------------------------------------------------- the driver, step by step

  /** Line 92: every residual folder is submitted and its job runs. */
  method SubmitAll(fs: Fs<Nifti>, folders: seq<string>, outputFolder: string, beh: string -> FolderBehaviour) returns (pool: Pool)
    ensures pool == RunJobs(Pool(fs, [], []), folders, outputFolder, beh)
  {
    pool := Pool(fs, [], []);
    var i := 0;
    while i < |folders|
      invariant 0 <= i <= |folders|
      invariant RunJobs(pool, folders[i..], outputFolder, beh) == RunJobs(Pool(fs, [], []), folders, outputFolder, beh)
    {
      assert folders[i..][1..] == folders[i + 1..];
      var r := ConvertFolder(pool.fs, folders[i], outputFolder, beh(folders[i]));
      pool := Pool(r.fs, pool.log + r.log, pool.results + [JobOf(r)]);
      i := i + 1;
    }
  }

  /** Lines 94-98: every result is retrieved in submission order and each exception is logged, none re-raised. */
  method DrainAll(folders: seq<string>, results: seq<JobResult>) returns (log: seq<Event>)
    requires |folders| == |results|
    ensures log == ErrorLog(folders, results)
  {
    log := [];
    var i := 0;
    while i < |results|
      invariant 0 <= i <= |results|
      invariant log + ErrorLog(folders[i..], results[i..]) == ErrorLog(folders, results)
    {
      ErrorLogStep(folders, results, i);
      log := log + ErrorOf(folders[i], results[i]);
      i := i + 1;
    }
  }

  lemma ErrorLogStep(folders: seq<string>, results: seq<JobResult>, i: nat)
    requires |folders| == |results| && i < |results|
    ensures ErrorLog(folders[i..], results[i..]) == ErrorOf(folders[i], results[i]) + ErrorLog(folders[i + 1..], results[i + 1..])
  {
    assert folders[i..][1..] == folders[i + 1..] && results[i..][1..] == results[i + 1..];
  }

  /** Lines 77-102 for one group folder. */
  method ConvertGroup(st: RunState, inputDir: string, outputDir: string, group: string, beh: string -> FolderBehaviour)
    returns (st': RunState)
    ensures st' == GroupStep(st, inputDir, outputDir, group, beh)
  {
    var header := st.log + [GroupHeader(group)];
    var inputFolder := Join(inputDir, group);
    var outputFolder := Join(outputDir, group);
    var made := MakeDirs(st.fs, outputFolder, true);
    if made.Err? {
      return st.(log := header, failure := Some(OsAbort(made.error)));
    }
    var fs1 := made.value;
    var done: seq<string>;
    match ListDir(fs1, outputFolder) {
      case Err(e) => return st.(fs := fs1, log := header, failure := Some(OsAbort(e)));
      case Ok(listing) => done := listing;
    }
    var entries: seq<string>;
    match ListDir(fs1, inputFolder) {
      case Err(e) => return st.(fs := fs1, log := header, failure := Some(OsAbort(e)));
      case Ok(listing) => entries := listing;
    }
    var folders := ResidualPaths(inputFolder, entries, done);
    st' := ConvertFolders(st, group, done, folders, fs1, outputFolder, beh);
    GroupListed(st, inputDir, outputDir, group, beh, fs1, done, entries);
  }

  /** Lines 89-102: the counts are logged, the pool runs and is drained, and both counters move on. */
  method ConvertFolders(st: RunState, group: string, done: seq<string>, folders: seq<string>, fs1: Fs<Nifti>,
                        outputFolder: string, beh: string -> FolderBehaviour)
    returns (st': RunState)
    ensures st' == Collected(st, group, done, folders, RunJobs(Pool(fs1, [], []), folders, outputFolder, beh))
  {
    var pool := SubmitAll(fs1, folders, outputFolder, beh);
    var errors := DrainAll(folders, pool.results);
    st' := Account(st, group, done, folders, pool, errors);
  }

  /** Lines 89 and 100-102 around the drained pool: the log and both counters after the group. */
  method Account(st: RunState, group: string, done: seq<string>, folders: seq<string>, pool: Pool, errors: seq<Event>)
    returns (st': RunState)
    requires |pool.results| == |folders| && errors == ErrorLog(folders, pool.results)
    ensures st' == Collected(st, group, done, folders, pool)
  {
    var n: nat := |folders|;
    var log := st.log + [GroupHeader(group)] + [Counts(|done|, n)];
    log := log + pool.log + errors + [GroupConverted(n)];
    st' := RunState(pool.fs, log, st.tot + n, Some(n), st.groups + [GroupRecord(group, |done|, folders, pool.results)], None, st.visits);
  }

  /** The group step once its three directory operations returned. */
  lemma GroupListed(st: RunState, inputDir: string, outputDir: string, group: string, beh: string -> FolderBehaviour,
                    fs1: Fs<Nifti>, done: seq<string>, entries: seq<string>)
    requires MakeDirs(st.fs, Join(outputDir, group), true) == Ok(fs1)
    requires ListDir(fs1, Join(outputDir, group)) == Ok(done) && ListDir(fs1, Join(inputDir, group)) == Ok(entries)
    ensures var folders := ResidualPaths(Join(inputDir, group), entries, done);
      GroupStep(st, inputDir, outputDir, group, beh) == Collected(st, group, done, folders, RunJobs(Pool(fs1, [], []), folders, Join(outputDir, group), beh))
  {
  }

  /** Lines 75-102 for one subfolder: list its group folders, then loop over them. */
  method ConvertSubfolder(st: RunState, dirBase: string, dirRaw: string, subfolder: string, beh: string -> FolderBehaviour)
    returns (st': RunState)
    requires st.failure.None?
    ensures st' == SubfolderStep(st, dirBase, dirRaw, subfolder, beh)
  {
    var inputDir := Join(dirBase, subfolder);
    var groups: seq<string>;
    match ListDir(st.fs, inputDir) {
      case Err(e) =>
        SubfolderUnlisted(st, dirBase, dirRaw, subfolder, beh);
        return st.(failure := Some(OsAbort(e)));
      case Ok(listing) => groups := listing;
    }
    SubfolderListed(st, dirBase, dirRaw, subfolder, beh, groups);
    st' := ConvertGroups(st.(visits := st.visits + [Visit(subfolder, groups)]), inputDir, Join(dirRaw, subfolder), groups, beh);
  }

  /** Lines 77-102: the group folders in listing order, until a directory operation of the driver raises. */
  method ConvertGroups(st: RunState, inputDir: string, outputDir: string, groups: seq<string>, beh: string -> FolderBehaviour)
    returns (st': RunState)
    requires st.failure.None?
    ensures st' == GroupsFrom(st, inputDir, outputDir, groups, beh)
  {
    st' := st;
    var j := 0;
    while j < |groups|
      invariant 0 <= j <= |groups|
      invariant st'.failure.None?
      invariant GroupsFrom(st', inputDir, outputDir, groups[j..], beh) == GroupsFrom(st, inputDir, outputDir, groups, beh)
    {
      GroupsFromStep(st', inputDir, outputDir, groups, j, beh);
      st' := ConvertGroup(st', inputDir, outputDir, groups[j], beh);
      j := j + 1;
      if st'.failure.Some? {
        GroupsFromStopped(st', inputDir, outputDir, groups[j..], beh);
        return;
      }
    }
  }

  /** Line 75 when `os.listdir(input_dir)` raises. */
  lemma SubfolderUnlisted(st: RunState, dirBase: string, dirRaw: string, subfolder: string, beh: string -> FolderBehaviour)
    requires ListDir(st.fs, Join(dirBase, subfolder)).Err?
    ensures SubfolderStep(st, dirBase, dirRaw, subfolder, beh) ==
      st.(failure := Some(OsAbort(ListDir(st.fs, Join(dirBase, subfolder)).error)))
  {
  }

  /** Lines 75-77 once the subfolder is listed: the visit is recorded, then the group loop runs. */
  lemma SubfolderListed(st: RunState, dirBase: string, dirRaw: string, subfolder: string, beh: string -> FolderBehaviour,
                        groups: seq<string>)
    requires ListDir(st.fs, Join(dirBase, subfolder)) == Ok(groups)
    ensures SubfolderStep(st, dirBase, dirRaw, subfolder, beh) ==
      GroupsFrom(st.(visits := st.visits + [Visit(subfolder, groups)]), Join(dirBase, subfolder), Join(dirRaw, subfolder), groups, beh)
  {
  }

  /** One turn of the group loop. */
  lemma GroupsFromStep(st: RunState, inputDir: string, outputDir: string, groups: seq<string>, j: nat, beh: string -> FolderBehaviour)
    requires j < |groups| && st.failure.None?
    ensures GroupsFrom(st, inputDir, outputDir, groups[j..], beh) ==
      GroupsFrom(GroupStep(st, inputDir, outputDir, groups[j], beh), inputDir, outputDir, groups[j + 1..], beh)
  {
    assert groups[j..][1..] == groups[j + 1..];
  }

  /** Once a step raised, the loop does nothing more. */
  lemma GroupsFromStopped(st: RunState, inputDir: string, outputDir: string, groups: seq<string>, beh: string -> FolderBehaviour)
    requires st.failure.Some?
    ensures GroupsFrom(st, inputDir, outputDir, groups, beh) == st
  {
  }

  /** The `__main__` block: the loop over the subfolders, then the summary. */
  method RunConversion(fs: Fs<Nifti>, baseArg: string, dirRaw: string, beh: string -> FolderBehaviour)
    returns (st: RunState)
    ensures st == Conversion(fs, baseArg, dirRaw, beh)
  {
    var dirBase := AbsPath(fs.cwd, baseArg);
    var made := MakeDirs(fs, dirRaw, true);
    if made.Err? {
      return RunState(fs, [], 0, None, [], Some(OsAbort(made.error)), []);
    }
    st := RunState(made.value, [ConvertingInto(dirBase, dirRaw), Started], 0, None, [], None, []);
    var subfolders: seq<string>;
    match ListDir(made.value, dirBase) {
      case Err(e) => return st.(failure := Some(OsAbort(e)));
      case Ok(listing) => subfolders := listing;
    }
    ghost var st0 := st;
    var i := 0;
    while i < |subfolders|
      invariant 0 <= i <= |subfolders|
      invariant st.failure.None?
      invariant SubfoldersFrom(st, dirBase, dirRaw, subfolders[i..], beh) == SubfoldersFrom(st0, dirBase, dirRaw, subfolders, beh)
    {
      assert subfolders[i..][1..] == subfolders[i + 1..];
      st := ConvertSubfolder(st, dirBase, dirRaw, subfolders[i], beh);
      i := i + 1;
      if st.failure.Some? {
        return;
      }
    }
    match st.lastCount {
      case None => st := st.(failure := Some(SummaryUnbound));
      case Some(n) => st := st.(log := st.log + [Summary(n), Finished]);
    }
  }
}
