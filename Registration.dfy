/**
 * The registration driver of pre_processing/pre_process_parallel_registration.py: for every
 * group directory under the raw root, the images not yet present in the matching output
 * directory are submitted to a pool; each job runs the registration pipeline, turns any
 * exception of it into `None`, and writes the image only when one came back. The pool is drained
 * before the next group; an exception that escapes a job ends the run.
 *
 * The ANTs stages are an oracle: for each submitted path, `beh` says whether the pipeline raises,
 * the shape of the masked volume it produced, and what the write does.
 */
module Registration {
  import opened Wrappers
  import opened Paths
  import opened FileSystem
  import opened Walker

  // ---------------------------------------------------------------- the crop window

  /** A Python `slice(start, stop)` with non-negative bounds. */
  datatype Slice = Slice(start: nat, stop: nat)

  const CropX: Slice := Slice(24, 169)
  const CropY: Slice := Slice(24, 206)
  const CropZ: Slice := Slice(6, 161)

  /** `len(range(n)[s])`: both bounds are clamped to `n`, and a reversed range is empty. */
  function SliceLen(s: Slice, n: nat): nat {
    var lo := if s.start < n then s.start else n;
    var hi := if s.stop < n then s.stop else n;
    if hi > lo then hi - lo else 0
  }

  /** `xs[s.start:s.stop]`. */
  function SliceOf<T>(xs: seq<T>, s: Slice): (r: seq<T>)
    ensures |r| == SliceLen(s, |xs|)
    ensures forall i :: 0 <= i < |r| ==> r[i] == xs[s.start + i]
  {
    var lo := if s.start < |xs| then s.start else |xs|;
    var hi := if s.stop < |xs| then s.stop else |xs|;
    if hi > lo then xs[lo..hi] else []
  }

  datatype Shape = Shape(x: nat, y: nat, z: nat)

  /** A volume indexed `[x][y][z]` whose every row has the lengths `sh` gives. */
  ghost predicate IsBox<T>(v: seq<seq<seq<T>>>, sh: Shape) {
    |v| == sh.x &&
    (forall i :: 0 <= i < |v| ==> |v[i]| == sh.y) &&
    (forall i, j :: 0 <= i < |v| && 0 <= j < |v[i]| ==> |v[i][j]| == sh.z)
  }

  /** `data[SLICE_NII_IDX0, SLICE_NII_IDX1, SLICE_NII_IDX2]`. */
  function CropVolume<T>(v: seq<seq<seq<T>>>): seq<seq<seq<T>>> {
    var a := SliceOf(v, CropX);
    seq(|a|, i requires 0 <= i < |a| =>
      var b := SliceOf(a[i], CropY);
      seq(|b|, j requires 0 <= j < |b| => SliceOf(b[j], CropZ)))
  }

  function CropShape(sh: Shape): Shape {
    Shape(SliceLen(CropX, sh.x), SliceLen(CropY, sh.y), SliceLen(CropZ, sh.z))
  }

  /** A slice with `start <= stop` keeps `min(stop, n) - start` elements, clamped at 0, and never more than `stop - start`. */
  lemma SliceLenClamped(s: Slice, n: nat)
    requires s.start <= s.stop
    ensures SliceLen(s, n) == (if s.stop < n then s.stop else n) - s.start || (SliceLen(s, n) == 0 && n <= s.start)
    ensures SliceLen(s, n) <= s.stop - s.start
    ensures n >= s.stop ==> SliceLen(s, n) == s.stop - s.start
  {
  }

  /** Cropping a box volume gives a box of the computed shape holding the voxels from the window's corner on. */
  lemma CropVolumeShape<T>(v: seq<seq<seq<T>>>, sh: Shape)
    requires IsBox(v, sh)
    ensures IsBox(CropVolume(v), CropShape(sh))
    ensures forall i, j, k ::
      0 <= i < CropShape(sh).x && 0 <= j < CropShape(sh).y && 0 <= k < CropShape(sh).z ==>
      CropVolume(v)[i][j][k] == v[CropX.start + i][CropY.start + j][CropZ.start + k]
  {
    var c := CropVolume(v);
    var a := SliceOf(v, CropX);
    forall i | 0 <= i < |c| ensures |c[i]| == CropShape(sh).y {
      assert a[i] == v[CropX.start + i];
    }
    forall i, j | 0 <= i < |c| && 0 <= j < |c[i]| ensures |c[i][j]| == CropShape(sh).z {
      assert a[i] == v[CropX.start + i];
      assert SliceOf(a[i], CropY)[j] == v[CropX.start + i][CropY.start + j];
    }
  }

  /** A registered volume at least 169 x 206 x 161 is cropped to exactly 145 x 182 x 155. */
  lemma CropFullWindow(sh: Shape)
    requires sh.x >= 169 && sh.y >= 206 && sh.z >= 161
    ensures CropShape(sh) == Shape(145, 182, 155)
  {
  }

  /** Whatever the registered volume, the crop is never larger than the window. */
  lemma CropBounded(sh: Shape)
    ensures CropShape(sh).x <= 145 && CropShape(sh).y <= 182 && CropShape(sh).z <= 155
    ensures sh.x <= 24 ==> CropShape(sh).x == 0
  {
    SliceLenClamped(CropX, sh.x);
    SliceLenClamped(CropY, sh.y);
    SliceLenClamped(CropZ, sh.z);
  }

  // ---------------------------------------------------------------- one image

  /** What the foreign pipeline of `process_image` does with one input. */
  datatype PipelineRun =
    | RaisesBeforeCrop(reason: string)       // image_read, a registration stage or mask_image raises
    | Masked(shape: Shape, rest: Outcome)    // the masked volume has this shape; from_numpy, N4 and normalisation then pass or raise

  datatype SaveOutcome =
    | Saved
    | SaveRaises(reason: string, leavesFile: bool)   // image_write raises, perhaps after creating the file

  datatype ItemBehaviour = ItemBehaviour(pipeline: PipelineRun, save: SaveOutcome)

  /** The normalised image `process_image` returns; only its shape is modelled. */
  datatype Image = Image(shape: Shape)

  datatype Artifact = Written(image: Image) | Truncated

  datatype Event =
    | ProcessingStarted
    | ImageError(name: string, reason: string)
    | ImageSaved(name: string)
    | ProcessingFinished

  datatype Failure = OsFailure(error: OsError) | StageFailure(reason: string)

  predicate PipelineSucceeds(run: PipelineRun) {
    run.Masked? && run.rest.Pass?
  }

  function PipelineReason(run: PipelineRun): string
    requires !PipelineSucceeds(run)
  {
    if run.RaisesBeforeCrop? then run.reason else run.rest.reason
  }

  datatype Processed = Processed(image: Option<Image>, log: seq<Event>)

  /** `process_image`: any exception of the pipeline is logged with the image's name and becomes `None`. */
  function ProcessImage(imgPath: string, run: PipelineRun): (r: Processed)
    ensures r.image.None? <==> !PipelineSucceeds(run)
    ensures r.image.Some? ==> r.image.value.shape == CropShape(run.shape) && r.log == []
    ensures r.image.None? ==> r.log == [ImageError(Basename(imgPath), PipelineReason(run))]
  {
    match run
    case RaisesBeforeCrop(e) => Processed(None, [ImageError(Basename(imgPath), e)])
    case Masked(sh, Fail(e)) => Processed(None, [ImageError(Basename(imgPath), e)])
    case Masked(sh, Pass) => Processed(Some(Image(CropShape(sh))), [])
  }

  datatype ItemResult = ItemResult(fs: Fs<Artifact>, log: seq<Event>, raised: Option<Failure>)

  /** `ants.image_write(img, output_path)`: it writes the image, or raises, perhaps leaving a partial file. */
  function SaveImage(fs: Fs<Artifact>, outputPath: string, img: Image, save: SaveOutcome): ItemResult {
    match save
    case Saved =>
      (match WriteFile(fs, outputPath, Written(img))
       case Err(e) => ItemResult(fs, [], Some(OsFailure(e)))
       case Ok(fs2) => ItemResult(fs2, [ImageSaved(Basename(outputPath))], None))
    case SaveRaises(e, leaves) =>
      var partial := WriteFile(fs, outputPath, Truncated);
      ItemResult(if leaves && partial.Ok? then partial.value else fs, [], Some(StageFailure(e)))
  }

  /** `process_and_save_image`: makes the output directory and writes only when an image came back. */
  function ProcessAndSave(fs: Fs<Artifact>, imgPath: string, outputDir: string, b: ItemBehaviour): ItemResult {
    var p := ProcessImage(imgPath, b.pipeline);
    if p.image.None? then ItemResult(fs, p.log, None)
    else
      match MakeDirs(fs, outputDir, true)
      case Err(e) => ItemResult(fs, p.log, Some(OsFailure(e)))
      case Ok(fs1) => SaveImage(fs1, Join(outputDir, Basename(imgPath)), p.image.value, b.save)
  }

  /** The output directory is a directory and not also a file. */
  predicate OutputReady(fs: Fs<Artifact>, outputDir: string) {
    WellFormed(fs) && IsDir(fs, outputDir) && Resolve(fs, outputDir) !in fs.files
  }

  /** Whether an item leaves a file under its own name in the output directory. */
  predicate LeavesOutput(b: ItemBehaviour) {
    PipelineSucceeds(b.pipeline) && (b.save.Saved? || b.save.leavesFile)
  }

  /** What the save leaves on disk once the pipeline returned an image. */
  function OutputArtifact(b: ItemBehaviour): Artifact
    requires PipelineSucceeds(b.pipeline)
  {
    if b.save.Saved? then Written(Image(CropShape(b.pipeline.shape))) else Truncated
  }

  datatype JobResult = Returned | Raised(failure: Failure)

  function JobOf(r: ItemResult): JobResult {
    if r.raised.Some? then Raised(r.raised.value) else Returned
  }

  /** What `future.result()` gives for an item, from that item's own behaviour alone. */
  function ExpectedJob(b: ItemBehaviour): JobResult {
    if PipelineSucceeds(b.pipeline) && b.save.SaveRaises? then Raised(StageFailure(b.save.reason)) else Returned
  }

  /** A pipeline failure writes nothing, creates no directory and raises nothing. */
  lemma FailedPipelineWritesNothing(fs: Fs<Artifact>, imgPath: string, outputDir: string, b: ItemBehaviour)
    requires !PipelineSucceeds(b.pipeline)
    ensures ProcessAndSave(fs, imgPath, outputDir, b) ==
      ItemResult(fs, [ImageError(Basename(imgPath), PipelineReason(b.pipeline))], None)
  {
  }

  lemma SaveWritesOnly(fs: Fs<Artifact>, outputPath: string, img: Image, save: SaveOutcome)
    ensures var r := SaveImage(fs, outputPath, img, save);
      r.fs.cwd == fs.cwd &&
      (r.fs.files == fs.files ||
       r.fs.files == fs.files[Resolve(fs, outputPath) := if save.Saved? then Written(img) else Truncated])
  {
    var a := if save.Saved? then Written(img) else Truncated;
    var w := WriteFile(fs, outputPath, a);
    if w.Ok? {
      assert w.value.files == fs.files[Resolve(fs, outputPath) := a];
    }
  }

  /**
   * At most one file changes, the one under `join(output_dir, basename(img_path))`, and only
   * after the pipeline returned an image; it then holds that image unless the save raised.
   */
  lemma WritesOnlyOwnOutput(fs: Fs<Artifact>, imgPath: string, outputDir: string, b: ItemBehaviour)
    ensures var r := ProcessAndSave(fs, imgPath, outputDir, b);
      r.fs.cwd == fs.cwd &&
      (r.fs.files == fs.files ||
       (PipelineSucceeds(b.pipeline) &&
        r.fs.files == fs.files[Resolve(fs, Join(outputDir, Basename(imgPath))) := OutputArtifact(b)]))
  {
    if PipelineSucceeds(b.pipeline) {
      var m := MakeDirs(fs, outputDir, true);
      if m.Ok? {
        SaveWritesOnly(m.value, Join(outputDir, Basename(imgPath)), Image(CropShape(b.pipeline.shape)), b.save);
      }
    }
  }

  /** A plain name joined to a directory is never the directory itself. */
  lemma JoinLonger(dir: string, n: string)
    requires IsEntryName(n)
    ensures Join(dir, n) != dir
  {
    assert n[0] in n;
    assert !IsAbs(n);
  }

  /** Saving into a ready directory under a plain name. */
  lemma SaveEffect(fs: Fs<Artifact>, outputDir: string, n: string, img: Image, save: SaveOutcome)
    requires OutputReady(fs, outputDir) && IsEntryName(n)
    ensures var r := SaveImage(fs, Join(outputDir, n), img, save);
      var key := Resolve(fs, outputDir);
      var leaves := save.Saved? || save.leavesFile;
      JobOf(r) == (if save.Saved? then Returned else Raised(StageFailure(save.reason))) &&
      OutputReady(r.fs, outputDir) && r.fs.cwd == fs.cwd &&
      r.fs.dirs == (if leaves then fs.dirs[key := AddEntry(fs.dirs[key], n)] else fs.dirs) &&
      r.fs.files == (if leaves then fs.files[Join(key, n) := if save.Saved? then Written(img) else Truncated] else fs.files)
  {
    if save.Saved? || save.leavesFile {
      SaveLeavesFile(fs, outputDir, n, img, save);
    }
  }

  /** A save that leaves a file adds exactly that file to the ready directory. */
  lemma SaveLeavesFile(fs: Fs<Artifact>, outputDir: string, n: string, img: Image, save: SaveOutcome)
    requires OutputReady(fs, outputDir) && IsEntryName(n) && (save.Saved? || save.leavesFile)
    ensures var r := SaveImage(fs, Join(outputDir, n), img, save);
      var key := Resolve(fs, outputDir);
      var a := if save.Saved? then Written(img) else Truncated;
      JobOf(r) == (if save.Saved? then Returned else Raised(StageFailure(save.reason))) &&
      OutputReady(r.fs, outputDir) && r.fs.cwd == fs.cwd &&
      r.fs.dirs == fs.dirs[key := AddEntry(fs.dirs[key], n)] && r.fs.files == fs.files[Join(key, n) := a]
  {
    var key := Resolve(fs, outputDir);
    var a := if save.Saved? then Written(img) else Truncated;
    WriteEntry(fs, outputDir, n, a);
    WriteFileWellFormed(fs, Join(outputDir, n), a);
    JoinLonger(key, n);
    SavedTo(fs, Join(outputDir, n), img, save, WriteFile(fs, Join(outputDir, n), a).value);
  }

  lemma SavedTo(fs: Fs<Artifact>, outputPath: string, img: Image, save: SaveOutcome, fs2: Fs<Artifact>)
    requires save.Saved? || save.leavesFile
    requires WriteFile(fs, outputPath, if save.Saved? then Written(img) else Truncated) == Ok(fs2)
    ensures var r := SaveImage(fs, outputPath, img, save);
      r.fs == fs2 && JobOf(r) == (if save.Saved? then Returned else Raised(StageFailure(save.reason)))
  {
  }

  /**
   * With a ready output directory, an item's job result depends on its own behaviour only, the
   * output directory stays ready, and the only listing that changes is the output directory's,
   * which gains the item's name exactly when the item leaves an output.
   */
  lemma ItemEffect(fs: Fs<Artifact>, imgPath: string, outputDir: string, b: ItemBehaviour)
    requires OutputReady(fs, outputDir) && IsEntryName(Basename(imgPath))
    ensures var r := ProcessAndSave(fs, imgPath, outputDir, b);
      var key := Resolve(fs, outputDir);
      JobOf(r) == ExpectedJob(b) &&
      OutputReady(r.fs, outputDir) && r.fs.cwd == fs.cwd &&
      r.fs.dirs == (if LeavesOutput(b) then fs.dirs[key := AddEntry(fs.dirs[key], Basename(imgPath))] else fs.dirs) &&
      r.fs.files == (if LeavesOutput(b) then fs.files[Join(key, Basename(imgPath)) := OutputArtifact(b)] else fs.files)
  {
    if PipelineSucceeds(b.pipeline) {
      assert MakeDirs(fs, outputDir, true) == Ok(fs);
      SaveEffect(fs, outputDir, Basename(imgPath), Image(CropShape(b.pipeline.shape)), b.save);
    }
  }

  // ---------------------------------------------------------------- one group's pool

  datatype Pool = Pool(fs: Fs<Artifact>, log: seq<Event>, results: seq<JobResult>)

  function RunJob(pool: Pool, imgPath: string, outputDir: string, beh: string -> ItemBehaviour): Pool {
    var r := ProcessAndSave(pool.fs, imgPath, outputDir, beh(imgPath));
    Pool(r.fs, pool.log + r.log, pool.results + [JobOf(r)])
  }

  /** Every submitted job runs to completion, in submission order. */
  function RunJobs(pool: Pool, paths: seq<string>, outputDir: string, beh: string -> ItemBehaviour): Pool
    decreases |paths|
  {
    if paths == [] then pool else RunJobs(RunJob(pool, paths[0], outputDir, beh), paths[1..], outputDir, beh)
  }

  /** The names of the submitted items that leave an output, in submission order. */
  function Outputs(paths: seq<string>, beh: string -> ItemBehaviour): seq<string> {
    if paths == [] then []
    else (if LeavesOutput(beh(paths[0])) then [Basename(paths[0])] else []) + Outputs(paths[1..], beh)
  }

  /** The submitted items that leave no output, in submission order. */
  function Unfinished(paths: seq<string>, beh: string -> ItemBehaviour): seq<string> {
    if paths == [] then []
    else (if LeavesOutput(beh(paths[0])) then [] else [paths[0]]) + Unfinished(paths[1..], beh)
  }

  /** The file an item leaves in the output directory resolved to `key`, if it leaves one. */
  function ItemWrites(key: string, p: string, b: ItemBehaviour): seq<Write<Artifact>> {
    if LeavesOutput(b) then [Write(Join(key, Basename(p)), OutputArtifact(b))] else []
  }

  /** The files a batch leaves in the output directory resolved to `key`, in submission order. */
  function OutputWrites(key: string, paths: seq<string>, beh: string -> ItemBehaviour): seq<Write<Artifact>> {
    if paths == [] then [] else ItemWrites(key, paths[0], beh(paths[0])) + OutputWrites(key, paths[1..], beh)
  }

  predicate FreshNames(paths: seq<string>, listing: seq<string>) {
    (forall i :: 0 <= i < |paths| ==> IsEntryName(Basename(paths[i])) && Basename(paths[i]) !in listing) &&
    (forall i, j :: 0 <= i < j < |paths| ==> Basename(paths[i]) != Basename(paths[j]))
  }

  /** Each job's expected result, in submission order. */
  function ExpectedJobs(paths: seq<string>, beh: string -> ItemBehaviour): (r: seq<JobResult>)
    ensures |r| == |paths|
    ensures forall i :: 0 <= i < |paths| ==> r[i] == ExpectedJob(beh(paths[i]))
  {
    if paths == [] then [] else [ExpectedJob(beh(paths[0]))] + ExpectedJobs(paths[1..], beh)
  }

  /** The rest of a batch of fresh names is fresh in the listing after the first item ran. */
  lemma FreshTail(paths: seq<string>, listing: seq<string>, listing': seq<string>)
    requires paths != [] && FreshNames(paths, listing)
    requires forall x :: x in listing' ==> x in listing || x == Basename(paths[0])
    ensures FreshNames(paths[1..], listing')
  {
    var rest := paths[1..];
    forall i | 0 <= i < |rest| ensures IsEntryName(Basename(rest[i])) && Basename(rest[i]) !in listing' {
      assert rest[i] == paths[i + 1];
      assert Basename(paths[0]) != Basename(paths[i + 1]);
    }
    forall i, j | 0 <= i < j < |rest| ensures Basename(rest[i]) != Basename(rest[j]) {
      assert rest[i] == paths[i + 1] && rest[j] == paths[j + 1];
    }
  }

  /** One job of the pool, on a fresh name. */
  lemma RunJobStep(pool: Pool, paths: seq<string>, outputDir: string, beh: string -> ItemBehaviour)
    requires OutputReady(pool.fs, outputDir)
    requires paths != [] && FreshNames(paths, pool.fs.dirs[Resolve(pool.fs, outputDir)])
    ensures var next := RunJob(pool, paths[0], outputDir, beh);
      var key := Resolve(pool.fs, outputDir);
      OutputReady(next.fs, outputDir) && next.fs.cwd == pool.fs.cwd &&
      next.results == pool.results + [ExpectedJob(beh(paths[0]))] &&
      next.fs.dirs == pool.fs.dirs[key := pool.fs.dirs[key] + Outputs(paths[..1], beh)] &&
      FreshNames(paths[1..], next.fs.dirs[key])
  {
    var p := paths[0];
    var key := Resolve(pool.fs, outputDir);
    assert IsEntryName(Basename(p)) && Basename(p) !in pool.fs.dirs[key];
    ItemEffect(pool.fs, p, outputDir, beh(p));
    var next := RunJob(pool, p, outputDir, beh);
    var L := pool.fs.dirs[key];
    assert Outputs(paths[..1], beh) == (if LeavesOutput(beh(p)) then [Basename(p)] else []) by {
      assert paths[..1][1..] == [];
    }
    if LeavesOutput(beh(p)) {
      assert AddEntry(L, Basename(p)) == L + Outputs(paths[..1], beh);
    } else {
      assert L + Outputs(paths[..1], beh) == L;
      assert pool.fs.dirs[key := L] == pool.fs.dirs;
    }
    FreshTail(paths, pool.fs.dirs[key], next.fs.dirs[key]);
  }

  /** One job writes the file its item leaves, and no other. */
  lemma JobFiles(pool: Pool, p: string, outputDir: string, beh: string -> ItemBehaviour)
    requires OutputReady(pool.fs, outputDir) && IsEntryName(Basename(p))
    ensures RunJob(pool, p, outputDir, beh).fs.files == ApplyWrites(pool.fs.files, ItemWrites(Resolve(pool.fs, outputDir), p, beh(p)))
  {
    var key := Resolve(pool.fs, outputDir);
    ItemEffect(pool.fs, p, outputDir, beh(p));
    if LeavesOutput(beh(p)) {
      ApplyOneWrite(pool.fs.files, Write(Join(key, Basename(p)), OutputArtifact(beh(p))));
    }
  }

  /** The pool's jobs write, in submission order, the files their items leave, and no others. */
  lemma {:induction false} RunJobsFiles(pool: Pool, paths: seq<string>, outputDir: string, beh: string -> ItemBehaviour)
    requires OutputReady(pool.fs, outputDir)
    requires FreshNames(paths, pool.fs.dirs[Resolve(pool.fs, outputDir)])
    ensures RunJobs(pool, paths, outputDir, beh).fs.files ==
      ApplyWrites(pool.fs.files, OutputWrites(Resolve(pool.fs, outputDir), paths, beh))
    decreases |paths|
  {
    if paths != [] {
      var key := Resolve(pool.fs, outputDir);
      var p := paths[0];
      RunJobStep(pool, paths, outputDir, beh);
      var next := RunJob(pool, p, outputDir, beh);
      assert Resolve(next.fs, outputDir) == key;
      JobFiles(pool, p, outputDir, beh);
      RunJobsFiles(next, paths[1..], outputDir, beh);
      ApplyWritesAppend(pool.fs.files, ItemWrites(key, p, beh(p)), OutputWrites(key, paths[1..], beh));
    }
  }

  /** The paths a batch writes are its output names, each joined to the output directory. */
  lemma {:induction false} OutputWritesPaths(key: string, paths: seq<string>, beh: string -> ItemBehaviour)
    ensures WrittenPaths(OutputWrites(key, paths, beh)) == JoinAll(key, Outputs(paths, beh))
    decreases |paths|
  {
    if paths != [] {
      var p := paths[0];
      OutputWritesPaths(key, paths[1..], beh);
      WrittenPathsAppend(ItemWrites(key, p, beh(p)), OutputWrites(key, paths[1..], beh));
      var head := if LeavesOutput(beh(p)) then [Basename(p)] else [];
      JoinAllAppend(key, head, Outputs(paths[1..], beh));
    }
  }

  /**
   * On items with distinct plain names, every item that leaves an output has, after the batch,
   * its own file under `join(output_dir, basename(img_path))`, holding what that item left.
   */
  lemma {:induction false} OutputWritesAt(files: map<string, Artifact>, key: string, paths: seq<string>,
                                          beh: string -> ItemBehaviour, i: nat)
    requires i < |paths| && LeavesOutput(beh(paths[i]))
    requires forall j :: 0 <= j < |paths| ==> IsEntryName(Basename(paths[j]))
    requires forall j, k :: 0 <= j < k < |paths| ==> Basename(paths[j]) != Basename(paths[k])
    ensures var after := ApplyWrites(files, OutputWrites(key, paths, beh));
      Join(key, Basename(paths[i])) in after && after[Join(key, Basename(paths[i]))] == OutputArtifact(beh(paths[i]))
    decreases |paths|
  {
    var p := paths[0];
    var tail := paths[1..];
    assert forall j :: 0 <= j < |tail| ==> tail[j] == paths[j + 1];
    var first := ApplyWrites(files, ItemWrites(key, p, beh(p)));
    ApplyWritesAppend(files, ItemWrites(key, p, beh(p)), OutputWrites(key, tail, beh));
    if i == 0 {
      ApplyOneWrite(files, Write(Join(key, Basename(p)), OutputArtifact(beh(p))));
      OutputWritesAvoid(key, tail, beh, Basename(p));
      ApplyWritesFrame(first, OutputWrites(key, tail, beh));
    } else {
      OutputWritesAt(first, key, tail, beh, i - 1);
    }
  }

  /** A batch never writes under a name that none of its items has. */
  lemma OutputWritesAvoid(key: string, paths: seq<string>, beh: string -> ItemBehaviour, x: string)
    requires IsEntryName(x)
    requires forall j :: 0 <= j < |paths| ==> IsEntryName(Basename(paths[j])) && Basename(paths[j]) != x
    ensures Join(key, x) !in WrittenPaths(OutputWrites(key, paths, beh))
  {
    OutputWritesPaths(key, paths, beh);
    var o := Outputs(paths, beh);
    OutputsNamed(paths, beh);
    forall j | 0 <= j < |o| ensures Join(key, o[j]) != Join(key, x) {
      assert o[j] in o;
      var jj :| 0 <= jj < |paths| && o[j] == Basename(paths[jj]);
      NotAbsEntry(o[j]);
      NotAbsEntry(x);
      JoinDistinct(key, o[j], x);
    }
  }

  /** Every output name is the basename of one of the batch's items. */
  lemma {:induction false} OutputsNamed(paths: seq<string>, beh: string -> ItemBehaviour)
    ensures forall x :: x in Outputs(paths, beh) ==> exists j :: 0 <= j < |paths| && x == Basename(paths[j])
    decreases |paths|
  {
    if paths != [] {
      OutputsNamed(paths[1..], beh);
      forall x | x in Outputs(paths, beh) ensures exists j :: 0 <= j < |paths| && x == Basename(paths[j]) {
        if x != Basename(paths[0]) {
          assert x in Outputs(paths[1..], beh);
          var j :| 0 <= j < |paths[1..]| && x == Basename(paths[1..][j]);
          assert x == Basename(paths[j + 1]);
        }
      }
    }
  }

  lemma OutputsSplit(paths: seq<string>, beh: string -> ItemBehaviour)
    requires paths != []
    ensures Outputs(paths, beh) == Outputs(paths[..1], beh) + Outputs(paths[1..], beh)
  {
    assert paths[..1][1..] == [];
  }

  /**
   * Running the pool on paths with distinct fresh names: one result per job, each the job's own
   * expected result; the output listing grows by exactly the names of the items that left an
   * output, in submission order, and those items' files are written in that order.
   */
  lemma {:induction false} RunJobsEffect(pool: Pool, paths: seq<string>, outputDir: string, beh: string -> ItemBehaviour)
    requires OutputReady(pool.fs, outputDir)
    requires FreshNames(paths, pool.fs.dirs[Resolve(pool.fs, outputDir)])
    ensures var res := RunJobs(pool, paths, outputDir, beh);
      var key := Resolve(pool.fs, outputDir);
      OutputReady(res.fs, outputDir) && res.fs.cwd == pool.fs.cwd &&
      res.results == pool.results + ExpectedJobs(paths, beh) &&
      res.fs.dirs == pool.fs.dirs[key := pool.fs.dirs[key] + Outputs(paths, beh)] &&
      res.fs.files == ApplyWrites(pool.fs.files, OutputWrites(key, paths, beh))
    decreases |paths|
  {
    var key := Resolve(pool.fs, outputDir);
    RunJobsFiles(pool, paths, outputDir, beh);
    if paths == [] {
      assert pool.fs.dirs[key] + [] == pool.fs.dirs[key];
      assert pool.fs.dirs[key := pool.fs.dirs[key]] == pool.fs.dirs;
      assert pool.results + [] == pool.results;
    } else {
      RunJobStep(pool, paths, outputDir, beh);
      var next := RunJob(pool, paths[0], outputDir, beh);
      RunJobsEffect(next, paths[1..], outputDir, beh);
      ComposeJobs(pool, next, RunJobs(next, paths[1..], outputDir, beh), paths, key, beh);
    }
  }

  /** The pool's effect on a batch is the first job's effect followed by the rest's. */
  lemma ComposeJobs(pool: Pool, next: Pool, res: Pool, paths: seq<string>, key: string, beh: string -> ItemBehaviour)
    requires paths != [] && key in pool.fs.dirs
    requires next.results == pool.results + [ExpectedJob(beh(paths[0]))]
    requires next.fs.dirs == pool.fs.dirs[key := pool.fs.dirs[key] + Outputs(paths[..1], beh)]
    requires res.results == next.results + ExpectedJobs(paths[1..], beh)
    requires res.fs.dirs == next.fs.dirs[key := next.fs.dirs[key] + Outputs(paths[1..], beh)]
    ensures res.results == pool.results + ExpectedJobs(paths, beh)
    ensures res.fs.dirs == pool.fs.dirs[key := pool.fs.dirs[key] + Outputs(paths, beh)]
  {
    ComposeOutputs(pool.fs.dirs[key], paths, beh);
    ComposeResults(pool.results, paths, beh);
  }

  lemma ComposeOutputs(listing: seq<string>, paths: seq<string>, beh: string -> ItemBehaviour)
    requires paths != []
    ensures (listing + Outputs(paths[..1], beh)) + Outputs(paths[1..], beh) == listing + Outputs(paths, beh)
  {
    OutputsSplit(paths, beh);
    ConcatAssoc(listing, Outputs(paths[..1], beh), Outputs(paths[1..], beh));
  }

  lemma ComposeResults(results: seq<JobResult>, paths: seq<string>, beh: string -> ItemBehaviour)
    requires paths != []
    ensures (results + [ExpectedJob(beh(paths[0]))]) + ExpectedJobs(paths[1..], beh) == results + ExpectedJobs(paths, beh)
  {
    assert ExpectedJobs(paths, beh) == [ExpectedJob(beh(paths[0]))] + ExpectedJobs(paths[1..], beh);
  }

  /** The exception the `as_completed` loop re-raises: that of the first job that raised, if any. */
  function FirstFailure(results: seq<JobResult>): Option<Failure> {
    if results == [] then None
    else if results[0].Raised? then Some(results[0].failure)
    else FirstFailure(results[1..])
  }

  /** How many results the `as_completed` loop retrieves: up to and including the first that raised. */
  function Retrieved(results: seq<JobResult>): nat {
    if results == [] then 0
    else if results[0].Raised? then 1
    else 1 + Retrieved(results[1..])
  }

  /**
   * No exception is re-raised exactly when every job returned, and then every result is retrieved;
   * otherwise retrieval stops at the first job that raised, and its exception is the one re-raised.
   */
  lemma {:induction false} RetrievedUpToFirstFailure(results: seq<JobResult>)
    ensures var n := Retrieved(results);
      var f := FirstFailure(results);
      (f.None? <==> forall j :: 0 <= j < |results| ==> results[j].Returned?) &&
      (f.None? ==> n == |results|) &&
      (f.Some? ==> 0 < n <= |results| && results[n - 1] == Raised(f.value) &&
                   forall j :: 0 <= j < n - 1 ==> results[j].Returned?)
    decreases |results|
  {
    if results != [] && results[0].Returned? {
      var tail := results[1..];
      RetrievedUpToFirstFailure(tail);
      assert forall j :: 0 < j < |results| ==> results[j] == tail[j - 1];
    }
  }

  // ---------------------------------------------------------------- the driver

  /** One group directory: how many jobs ran, how many results were retrieved. */
  datatype GroupRecord = GroupRecord(name: string, submitted: seq<string>, results: seq<JobResult>, retrieved: nat)

  datatype RunState = RunState(fs: Fs<Artifact>, log: seq<Event>, groups: seq<GroupRecord>, failure: Option<Failure>)

  /** Lines 120-139 for one group `name`. */
  function GroupStep(st: RunState, dirRaw: string, dirOutput: string, name: string, beh: string -> ItemBehaviour): RunState {
    var inputPath := Join(dirRaw, name);
    var outputPath := Join(dirOutput, name);
    match MakeDirs(st.fs, outputPath, true)
    case Err(e) => st.(failure := Some(OsFailure(e)))
    case Ok(fs1) =>
      match ListDir(fs1, outputPath)
      case Err(e) => st.(fs := fs1, failure := Some(OsFailure(e)))
      case Ok(done) =>
        match ListDir(fs1, inputPath)
        case Err(e) => st.(fs := fs1, failure := Some(OsFailure(e)))
        case Ok(entries) =>
          var paths := ResidualPaths(inputPath, entries, done);
          Collected(st, name, paths, RunJobs(Pool(fs1, [], []), paths, outputPath, beh))
  }

  /** Lines 136-139: the group's record once its pool has run, and the first re-raised exception. */
  function Collected(st: RunState, name: string, paths: seq<string>, pool: Pool): RunState {
    RunState(pool.fs, st.log + pool.log, st.groups + [GroupRecord(name, paths, pool.results, Retrieved(pool.results))],
             FirstFailure(pool.results))
  }

  /** The groups in listing order; an exception ends the run. */
  function GroupsFrom(st: RunState, dirRaw: string, dirOutput: string, names: seq<string>, beh: string -> ItemBehaviour): RunState
    decreases |names|
  {
    if st.failure.Some? || names == [] then st
    else GroupsFrom(GroupStep(st, dirRaw, dirOutput, names[0], beh), dirRaw, dirOutput, names[1..], beh)
  }

  /** `DIR_OUTPUT = join(processed_root, basename(DIR_RAW))`. */
  function OutputRoot(processedRoot: string, dirRaw: string): string {
    Join(processedRoot, Basename(dirRaw))
  }

  /** The `__main__` block, lines 104-145. */
  function Registration(fs: Fs<Artifact>, dirRaw: string, processedRoot: string, beh: string -> ItemBehaviour): RunState {
    var dirOutput := OutputRoot(processedRoot, dirRaw);
    match MakeDirs(fs, dirOutput, true)
    case Err(e) => RunState(fs, [], [], Some(OsFailure(e)))
    case Ok(fs1) =>
      var st := Initial(fs1);
      match ListDir(fs1, dirRaw)
      case Err(e) => st.(failure := Some(OsFailure(e)))
      case Ok(names) => Finish(GroupsFrom(st, dirRaw, dirOutput, names, beh))
  }

  /** Line 118: the start message, with no group recorded yet. */
  function Initial(fs1: Fs<Artifact>): RunState {
    RunState(fs1, [ProcessingStarted], [], None)
  }

  /** Line 144: the end message follows a group loop that raised nothing. */
  function Finish(end: RunState): RunState {
    if end.failure.None? then end.(log := end.log + [ProcessingFinished]) else end
  }

  // ---------------------------------------------------------------- what a group does

  /** The paths a group submits carry distinct plain names, none of them in the output listing. */
  lemma SubmittedFresh(fs: Fs<Artifact>, inputPath: string, outputPath: string)
    requires WellFormed(fs) && IsDir(fs, inputPath)
    ensures var entries := Listing(fs, inputPath);
      var done := Listing(fs, outputPath);
      var paths := ResidualPaths(inputPath, entries, done);
      FreshNames(paths, done) &&
      forall i :: 0 <= i < |paths| ==> Basename(paths[i]) == Residual(entries, done)[i]
  {
    var entries := Listing(fs, inputPath);
    var done := Listing(fs, outputPath);
    var r := Residual(entries, done);
    var paths := ResidualPaths(inputPath, entries, done);
    forall i | 0 <= i < |paths| ensures IsEntryName(r[i]) && Basename(paths[i]) == r[i] && r[i] !in done {
      assert r[i] in r;
      assert IsEntryName(r[i]);
      BasenameOfJoin(inputPath, r[i]);
    }
    ResidualDistinct(entries, done);
  }

  /** A group whose output directory can be made and whose input directory can be listed. */
  predicate GroupCanRun(fs: Fs<Artifact>, inputPath: string, outputPath: string) {
    Resolve(fs, outputPath) !in fs.files &&
    (IsDir(fs, inputPath) || Resolve(fs, inputPath) == Resolve(fs, outputPath))
  }

  /**
   * A group either gets as far as submitting (its output directory can be made and its input
   * directory listed) and adds one record under its name, or records nothing and ends the run
   * with the operating-system error.
   */
  ghost predicate Shaped(st: RunState, st': RunState, name: string, canRun: bool) {
    WellFormed(st'.fs) && st'.fs.cwd == st.fs.cwd &&
    (!canRun ==> st'.groups == st.groups && st'.failure.Some? && st'.failure.value.OsFailure?) &&
    (canRun ==> |st'.groups| == |st.groups| + 1 && st'.groups[..|st.groups|] == st.groups && st'.groups[|st.groups|].name == name)
  }

  /** Lines 120-139 for one group take the run state as `Shaped` states. */
  lemma GroupShape(st: RunState, dirRaw: string, dirOutput: string, name: string, beh: string -> ItemBehaviour)
    requires WellFormed(st.fs)
    ensures Shaped(st, GroupStep(st, dirRaw, dirOutput, name, beh), name, GroupCanRun(st.fs, Join(dirRaw, name), Join(dirOutput, name)))
  {
    var inputPath := Join(dirRaw, name);
    var outputPath := Join(dirOutput, name);
    match MakeDirs(st.fs, outputPath, true)
    case Err(_) =>
    case Ok(fs1) =>
      MakeDirsWellFormed(st.fs, outputPath, true);
      MakeDirsIsDir(st.fs, outputPath, true, inputPath);
      if IsDir(fs1, inputPath) {
        var paths := ResidualPaths(inputPath, Listing(st.fs, inputPath), Listing(st.fs, outputPath));
        var pool := RunJobs(Pool(fs1, [], []), paths, outputPath, beh);
        GroupRan(st, dirRaw, dirOutput, name, beh, fs1, paths, pool);
        var rec := GroupRecord(name, paths, pool.results, Retrieved(pool.results));
        assert (st.groups + [rec])[..|st.groups|] == st.groups;
      }
  }

  /**
   * What a group that got as far as submitting did, from `st` to `st'`: one record under its
   * name, holding the residual with each job's own expected result; the output listing became
   * the old one followed by the names of the items that left an output, whose files were written
   * in submission order; no other listing and no other file changed.
   */
  ghost predicate GroupEffected(st: RunState, st': RunState, name: string, inputPath: string, outputPath: string,
                                beh: string -> ItemBehaviour) {
    |st'.groups| == |st.groups| + 1 && st'.groups[..|st.groups|] == st.groups &&
    WellFormed(st'.fs) && st'.fs.cwd == st.fs.cwd &&
    var rec := st'.groups[|st.groups|];
    rec.name == name &&
    rec.submitted == ResidualPaths(inputPath, Listing(st.fs, inputPath), Listing(st.fs, outputPath)) &&
    rec.results == ExpectedJobs(rec.submitted, beh) &&
    OutputReady(st'.fs, outputPath) &&
    Listing(st'.fs, outputPath) == Listing(st.fs, outputPath) + Outputs(rec.submitted, beh) &&
    (forall d :: d in st.fs.dirs && d != Resolve(st.fs, outputPath) ==> d in st'.fs.dirs && st'.fs.dirs[d] == st.fs.dirs[d]) &&
    st'.fs.files == ApplyWrites(st.fs.files, OutputWrites(Resolve(st.fs, outputPath), rec.submitted, beh)) &&
    rec.retrieved == Retrieved(rec.results) &&
    st'.failure == FirstFailure(rec.results)
  }

  /**
   * A group that gets as far as submitting runs every residual item with its own expected result,
   * and its output listing becomes the old one followed by the names of the items that left an
   * output; the files are the old ones with those items' files written in submission order; no
   * other listing changes.
   */
  lemma GroupEffect(st: RunState, dirRaw: string, dirOutput: string, name: string, beh: string -> ItemBehaviour)
    requires WellFormed(st.fs) && GroupCanRun(st.fs, Join(dirRaw, name), Join(dirOutput, name))
    ensures GroupEffected(st, GroupStep(st, dirRaw, dirOutput, name, beh), name, Join(dirRaw, name), Join(dirOutput, name), beh)
  {
    var inputPath := Join(dirRaw, name);
    var outputPath := Join(dirOutput, name);
    var m := MakeDirs(st.fs, outputPath, true);
    MakeDirsIsDir(st.fs, outputPath, true, inputPath);
    var paths := ResidualPaths(inputPath, Listing(st.fs, inputPath), Listing(st.fs, outputPath));
    var pool := RunJobs(Pool(m.value, [], []), paths, outputPath, beh);
    GroupRan(st, dirRaw, dirOutput, name, beh, m.value, paths, pool);
    OtherDirsKept(st.fs, outputPath, m.value);
    CollectedEffect(st, name, inputPath, outputPath, m.value, paths, pool, beh);
  }

  /** `GroupEffected` for the state `Collected` builds from a pool that ran on a ready output directory. */
  lemma CollectedEffect(st: RunState, name: string, inputPath: string, outputPath: string, fs1: Fs<Artifact>,
                        paths: seq<string>, pool: Pool, beh: string -> ItemBehaviour)
    requires forall d :: d in st.fs.dirs && d != Resolve(st.fs, outputPath) ==> d in fs1.dirs && fs1.dirs[d] == st.fs.dirs[d]
    requires paths == ResidualPaths(inputPath, Listing(st.fs, inputPath), Listing(st.fs, outputPath))
    requires WellFormed(pool.fs) && pool.fs.cwd == st.fs.cwd
    requires pool.results == ExpectedJobs(paths, beh)
    requires OutputReady(pool.fs, outputPath)
    requires pool.fs.dirs == fs1.dirs[Resolve(st.fs, outputPath) := Listing(st.fs, outputPath) + Outputs(paths, beh)]
    requires pool.fs.files == ApplyWrites(st.fs.files, OutputWrites(Resolve(st.fs, outputPath), paths, beh))
    ensures GroupEffected(st, Collected(st, name, paths, pool), name, inputPath, outputPath, beh)
  {
    var rec := GroupRecord(name, paths, pool.results, Retrieved(pool.results));
    assert (st.groups + [rec])[..|st.groups|] == st.groups;
    assert Resolve(pool.fs, outputPath) == Resolve(st.fs, outputPath);
  }

  /** `makedirs` of the output directory keeps every other listing. */
  lemma OtherDirsKept(fs: Fs<Artifact>, outputPath: string, fs1: Fs<Artifact>)
    requires MakeDirs(fs, outputPath, true) == Ok(fs1)
    ensures forall d :: d in fs.dirs && d != Resolve(fs, outputPath) ==> d in fs1.dirs && fs1.dirs[d] == fs.dirs[d]
  {
  }

  /** The group step once its directory operations succeeded: the residual is submitted to the pool. */
  lemma GroupRan(st: RunState, dirRaw: string, dirOutput: string, name: string, beh: string -> ItemBehaviour,
                 fs1: Fs<Artifact>, paths: seq<string>, pool: Pool)
    requires WellFormed(st.fs)
    requires MakeDirs(st.fs, Join(dirOutput, name), true) == Ok(fs1)
    requires IsDir(fs1, Join(dirRaw, name))
    requires paths == ResidualPaths(Join(dirRaw, name), Listing(st.fs, Join(dirRaw, name)), Listing(st.fs, Join(dirOutput, name)))
    requires pool == RunJobs(Pool(fs1, [], []), paths, Join(dirOutput, name), beh)
    ensures GroupStep(st, dirRaw, dirOutput, name, beh) == Collected(st, name, paths, pool)
    ensures WellFormed(pool.fs) && pool.fs.cwd == st.fs.cwd
    ensures pool.results == ExpectedJobs(paths, beh)
    ensures OutputReady(pool.fs, Join(dirOutput, name))
    ensures pool.fs.dirs == fs1.dirs[Resolve(st.fs, Join(dirOutput, name)) := Listing(st.fs, Join(dirOutput, name)) + Outputs(paths, beh)]
    ensures pool.fs.files == ApplyWrites(st.fs.files, OutputWrites(Resolve(st.fs, Join(dirOutput, name)), paths, beh))
  {
    var inputPath := Join(dirRaw, name);
    var outputPath := Join(dirOutput, name);
    GroupRanState(st, dirRaw, dirOutput, name, beh, fs1, paths, pool);
    MakeDirsWellFormed(st.fs, outputPath, true);
    MakeDirsKeepsListing(st.fs, outputPath, true, inputPath);
    MakeDirsKeepsListing(st.fs, outputPath, true, outputPath);
    SubmittedFresh(fs1, inputPath, outputPath);
    RunJobsEffect(Pool(fs1, [], []), paths, outputPath, beh);
    assert [] + ExpectedJobs(paths, beh) == ExpectedJobs(paths, beh);
  }

  lemma GroupRanState(st: RunState, dirRaw: string, dirOutput: string, name: string, beh: string -> ItemBehaviour,
                 fs1: Fs<Artifact>, paths: seq<string>, pool: Pool)
    requires WellFormed(st.fs)
    requires MakeDirs(st.fs, Join(dirOutput, name), true) == Ok(fs1)
    requires IsDir(fs1, Join(dirRaw, name))
    requires paths == ResidualPaths(Join(dirRaw, name), Listing(st.fs, Join(dirRaw, name)), Listing(st.fs, Join(dirOutput, name)))
    requires pool == RunJobs(Pool(fs1, [], []), paths, Join(dirOutput, name), beh)
    ensures GroupStep(st, dirRaw, dirOutput, name, beh) == Collected(st, name, paths, pool)
  {
    GroupRanListings(st, dirRaw, dirOutput, name, fs1);
    GroupListed(st, dirRaw, dirOutput, name, beh, fs1, Listing(st.fs, Join(dirOutput, name)), Listing(st.fs, Join(dirRaw, name)));
  }

  /** The group step once its three directory operations returned. */
  lemma GroupListed(st: RunState, dirRaw: string, dirOutput: string, name: string, beh: string -> ItemBehaviour,
                    fs1: Fs<Artifact>, done: seq<string>, entries: seq<string>)
    requires MakeDirs(st.fs, Join(dirOutput, name), true) == Ok(fs1)
    requires ListDir(fs1, Join(dirOutput, name)) == Ok(done) && ListDir(fs1, Join(dirRaw, name)) == Ok(entries)
    ensures var paths := ResidualPaths(Join(dirRaw, name), entries, done);
      GroupStep(st, dirRaw, dirOutput, name, beh) == Collected(st, name, paths, RunJobs(Pool(fs1, [], []), paths, Join(dirOutput, name), beh))
  {
  }

  lemma GroupRanListings(st: RunState, dirRaw: string, dirOutput: string, name: string, fs1: Fs<Artifact>)
    requires MakeDirs(st.fs, Join(dirOutput, name), true) == Ok(fs1)
    requires IsDir(fs1, Join(dirRaw, name))
    ensures ListDir(fs1, Join(dirOutput, name)) == Ok(Listing(st.fs, Join(dirOutput, name)))
    ensures ListDir(fs1, Join(dirRaw, name)) == Ok(Listing(st.fs, Join(dirRaw, name)))
  {
    MakeDirsKeepsListing(st.fs, Join(dirOutput, name), true, Join(dirRaw, name));
    MakeDirsKeepsListing(st.fs, Join(dirOutput, name), true, Join(dirOutput, name));
  }

  /**
   * The set-difference filter run again after a batch: of the residual names, exactly those whose
   * item left no output are still left to do, in the same order.
   */
  lemma {:induction false} ResumeNames(dir: string, r: seq<string>, beh: string -> ItemBehaviour)
    requires Clean(r) && Distinct(r)
    ensures JoinAll(dir, Residual(r, Outputs(JoinAll(dir, r), beh))) == Unfinished(JoinAll(dir, r), beh)
    decreases |r|
  {
    if r != [] {
      var f := r[0];
      var tail := r[1..];
      CleanDistinctTail(r);
      ResumeNames(dir, tail, beh);
      OutputsCons(dir, r, beh);
      OutputsWithin(dir, tail, beh);
      var o := Outputs(JoinAll(dir, r), beh);
      var o' := Outputs(JoinAll(dir, tail), beh);
      ResumeStep(f, tail, o, o', LeavesOutput(beh(Join(dir, f))));
      UnfinishedCons(dir, r, beh);
      JoinAllAppend(dir, if f in o then [] else [f], Residual(tail, o'));
    }
  }

  lemma CleanDistinctTail(r: seq<string>)
    requires r != [] && Clean(r) && Distinct(r)
    ensures Clean(r[1..]) && Distinct(r[1..]) && r[0] !in r[1..] && IsEntryName(r[0])
  {
    var tail := r[1..];
    forall i, j | 0 <= i < j < |tail| ensures tail[i] != tail[j] {
      assert tail[i] == r[i + 1] && tail[j] == r[j + 1];
    }
    assert forall i :: 0 <= i < |tail| ==> tail[i] == r[i + 1];
    assert r[0] in r;
  }

  /** The head of a batch is filtered by its own output alone. */
  lemma ResumeStep(f: string, tail: seq<string>, o: seq<string>, o': seq<string>, leaves: bool)
    requires f !in tail && (forall x :: x in o' ==> x in tail)
    requires o == (if leaves then [f] else []) + o'
    ensures Residual([f] + tail, o) == (if leaves then [] else [f]) + Residual(tail, o')
  {
    assert ([f] + tail)[0] == f && ([f] + tail)[1..] == tail;
    assert f in o <==> leaves;
    forall n | n in tail ensures n in o <==> n in o' {
    }
    ResidualCongruent(tail, o, o');
  }

  /** The outputs of a batch, head first. */
  lemma OutputsCons(dir: string, r: seq<string>, beh: string -> ItemBehaviour)
    requires r != [] && '/' !in r[0]
    ensures Outputs(JoinAll(dir, r), beh) == (if LeavesOutput(beh(Join(dir, r[0]))) then [r[0]] else []) + Outputs(JoinAll(dir, r[1..]), beh)
  {
    var ps := JoinAll(dir, r);
    assert ps[1..] == JoinAll(dir, r[1..]);
    BasenameOfJoin(dir, r[0]);
  }

  lemma UnfinishedCons(dir: string, r: seq<string>, beh: string -> ItemBehaviour)
    requires r != []
    ensures Unfinished(JoinAll(dir, r), beh) == (if LeavesOutput(beh(Join(dir, r[0]))) then [] else [Join(dir, r[0])]) + Unfinished(JoinAll(dir, r[1..]), beh)
  {
    assert JoinAll(dir, r)[1..] == JoinAll(dir, r[1..]);
  }

  /** The names a batch leaves in the output directory are among the batch's own names. */
  lemma {:induction false} OutputsWithin(dir: string, r: seq<string>, beh: string -> ItemBehaviour)
    requires Clean(r)
    ensures forall x :: x in Outputs(JoinAll(dir, r), beh) ==> x in r
    decreases |r|
  {
    if r != [] {
      var tail := r[1..];
      assert forall i :: 0 <= i < |tail| ==> tail[i] == r[i + 1];
      assert r[0] in r;
      OutputsWithin(dir, tail, beh);
      OutputsCons(dir, r, beh);
    }
  }

  /**
   * Resumability: when a group that submitted its jobs is processed again on the file system it
   * left (a fresh run, whose stages `beh2` may behave differently this time), it submits exactly
   * the items of the first submission that left no output, in the same order. Every file the
   * first run left in the output directory is still there, unchanged; after a group whose every
   * item left an output, no file changes at all.
   */
  lemma GroupResume(st: RunState, dirRaw: string, dirOutput: string, name: string, beh: string -> ItemBehaviour,
                    beh2: string -> ItemBehaviour)
    requires WellFormed(st.fs)
    requires Resolve(st.fs, Join(dirRaw, name)) != Resolve(st.fs, Join(dirOutput, name))
    requires GroupCanRun(st.fs, Join(dirRaw, name), Join(dirOutput, name))
    ensures var st1 := GroupStep(st, dirRaw, dirOutput, name, beh);
      var again := GroupStep(RunState(st1.fs, [], [], None), dirRaw, dirOutput, name, beh2);
      var key := Resolve(st.fs, Join(dirOutput, name));
      |st1.groups| == |st.groups| + 1 && |again.groups| == 1 &&
      var first := st1.groups[|st.groups|].submitted;
      again.groups[0].submitted == Unfinished(first, beh) &&
      (forall x :: x in Outputs(first, beh) ==>
        Join(key, x) in st1.fs.files && Join(key, x) in again.fs.files && again.fs.files[Join(key, x)] == st1.fs.files[Join(key, x)]) &&
      (Unfinished(first, beh) == [] ==> again.fs.files == st1.fs.files)
  {
    var inputPath := Join(dirRaw, name);
    var outputPath := Join(dirOutput, name);
    var key := Resolve(st.fs, outputPath);
    var st1 := GroupStep(st, dirRaw, dirOutput, name, beh);
    GroupEffect(st, dirRaw, dirOutput, name, beh);
    var rec := st1.groups[|st.groups|];
    var entries := Listing(st.fs, inputPath);
    var done := Listing(st.fs, outputPath);
    assert IsDir(st.fs, inputPath);
    assert Listing(st1.fs, inputPath) == entries;
    assert Resolve(st1.fs, inputPath) == Resolve(st.fs, inputPath);
    assert Resolve(st1.fs, outputPath) == key;
    assert IsDir(st1.fs, inputPath);
    var restart := RunState(st1.fs, [], [], None);
    var again := GroupStep(restart, dirRaw, dirOutput, name, beh2);
    GroupEffect(restart, dirRaw, dirOutput, name, beh2);
    var o := Outputs(rec.submitted, beh);
    assert again.groups[0].submitted == ResidualPaths(inputPath, entries, done + o);
    var first := ResidualPaths(inputPath, entries, done);
    assert rec.submitted == first;
    assert Clean(entries) && Distinct(entries) by {
      assert entries == st.fs.dirs[Resolve(st.fs, inputPath)];
    }
    assert Clean(done + o) by {
      assert done + o == st1.fs.dirs[key];
    }
    ResubmittedUnfinished(inputPath, entries, done, beh);
    assert ResidualPaths(inputPath, entries, done + Outputs(first, beh)) == Unfinished(first, beh);
    assert again.groups[0].submitted == Unfinished(rec.submitted, beh);
    ResumeFiles(st.fs.files, st1.fs.files, again.fs.files, key, first, beh, inputPath, entries, done, beh2);
  }

  /** The files a resumed group leaves: every file the first run left stays as it was. */
  lemma ResumeFiles(f0: map<string, Artifact>, f1: map<string, Artifact>, f2: map<string, Artifact>, key: string,
                    first: seq<string>, beh: string -> ItemBehaviour, inputPath: string, entries: seq<string>,
                    done: seq<string>, beh2: string -> ItemBehaviour)
    requires Clean(entries) && Clean(done + Outputs(first, beh))
    requires f1 == ApplyWrites(f0, OutputWrites(key, first, beh))
    requires f2 == ApplyWrites(f1, OutputWrites(key, ResidualPaths(inputPath, entries, done + Outputs(first, beh)), beh2))
    ensures forall x :: x in Outputs(first, beh) ==> Join(key, x) in f1 && Join(key, x) in f2 && f2[Join(key, x)] == f1[Join(key, x)]
    ensures ResidualPaths(inputPath, entries, done + Outputs(first, beh)) == [] ==> f2 == f1
  {
    var o := Outputs(first, beh);
    var second := ResidualPaths(inputPath, entries, done + o);
    OutputWritesPaths(key, first, beh);
    ApplyWritesFrame(f0, OutputWrites(key, first, beh));
    ApplyWritesFrame(f1, OutputWrites(key, second, beh2));
    forall x | x in o ensures Join(key, x) in f1 && Join(key, x) in f2 && f2[Join(key, x)] == f1[Join(key, x)] {
      var j :| 0 <= j < |o| && o[j] == x;
      assert JoinAll(key, o)[j] == Join(key, x);
      assert x in done + o;
      RerunAvoids(key, inputPath, entries, done + o, beh2, x);
    }
  }

  /** A rerun writes no file under a name its output listing already holds. */
  lemma RerunAvoids(key: string, inputPath: string, entries: seq<string>, done: seq<string>, beh: string -> ItemBehaviour, x: string)
    requires Clean(entries) && Clean(done) && x in done
    ensures Join(key, x) !in WrittenPaths(OutputWrites(key, ResidualPaths(inputPath, entries, done), beh))
  {
    var r := Residual(entries, done);
    var paths := ResidualPaths(inputPath, entries, done);
    forall j | 0 <= j < |paths| ensures IsEntryName(Basename(paths[j])) && Basename(paths[j]) != x {
      assert r[j] in r;
      BasenameOfJoin(inputPath, r[j]);
    }
    OutputWritesAvoid(key, paths, beh, x);
  }

  /** The residual against the listing a batch left behind is the batch's unfinished part. */
  lemma ResubmittedUnfinished(inputPath: string, entries: seq<string>, done: seq<string>, beh: string -> ItemBehaviour)
    requires Clean(entries) && Distinct(entries)
    ensures var first := ResidualPaths(inputPath, entries, done);
      ResidualPaths(inputPath, entries, done + Outputs(first, beh)) == Unfinished(first, beh)
  {
    var r := Residual(entries, done);
    var o := Outputs(ResidualPaths(inputPath, entries, done), beh);
    ResidualPathsJoinAll(inputPath, entries, done);
    ResidualPathsJoinAll(inputPath, entries, done + o);
    ResidualMoreDone(entries, done, o);
    assert Clean(r) && Distinct(r) by {
      forall i | 0 <= i < |r| ensures IsEntryName(r[i]) {
        assert r[i] in r;
      }
      ResidualDistinct(entries, done);
    }
    ResumeNames(inputPath, r, beh);
  }

  // ---------------------------------------------------------------- what a run does

  /** Every submitted job ran with its own result, and results were retrieved up to the first exception. */
  predicate Accounted(rec: GroupRecord, beh: string -> ItemBehaviour) {
    rec.results == ExpectedJobs(rec.submitted, beh) && rec.retrieved == Retrieved(rec.results)
  }

  /** Only a save re-raises out of a job, so the exception a pool re-raises is always a stage failure. */
  lemma {:induction false} ExpectedJobsRaiseStage(paths: seq<string>, beh: string -> ItemBehaviour)
    ensures var f := FirstFailure(ExpectedJobs(paths, beh));
      f.Some? ==> f.value.StageFailure?
    decreases |paths|
  {
    if paths != [] {
      ExpectedJobsRaiseStage(paths[1..], beh);
      assert ExpectedJobs(paths, beh)[1..] == ExpectedJobs(paths[1..], beh);
    }
  }

  /** What one group step does, as far as the run's accounting is concerned. */
  ghost predicate StepAccounted(st: RunState, st1: RunState, name: string, beh: string -> ItemBehaviour) {
    var s0 := |st.groups|;
    WellFormed(st1.fs) &&
    ((st1.groups == st.groups && st1.failure.Some? && st1.failure.value.OsFailure?) ||
     (|st1.groups| == s0 + 1 && st1.groups[..s0] == st.groups &&
      var rec := st1.groups[s0];
      rec.name == name && Accounted(rec, beh) &&
      st1.failure == FirstFailure(rec.results) &&
      (st1.failure.Some? ==> st1.failure.value.StageFailure?)))
  }

  /**
   * What the group loop does from `st` to `end` over the group names `names`: groups are recorded
   * in listing order, each one accounted; a recorded group had a job that raised exactly when it is
   * the last one and the run ended with that job's exception; the run completes all groups when
   * nothing failed, and an operating-system error comes from a group that records nothing.
   */
  ghost predicate LoopAccounted(st: RunState, end: RunState, names: seq<string>, beh: string -> ItemBehaviour) {
    var s0 := |st.groups|;
    var n := |end.groups|;
    WellFormed(end.fs) &&
    s0 <= n <= s0 + |names| && end.groups[..s0] == st.groups &&
    (forall i :: s0 <= i < n ==> end.groups[i].name == names[i - s0] && Accounted(end.groups[i], beh)) &&
    (forall i :: s0 <= i < n ==>
      (FirstFailure(end.groups[i].results).None? <==> !(i == n - 1 && end.failure.Some? && end.failure.value.StageFailure?))) &&
    (end.failure.None? ==> n == s0 + |names|) &&
    (end.failure.Some? && end.failure.value.StageFailure? ==> n > s0 && FirstFailure(end.groups[n - 1].results) == end.failure) &&
    (end.failure.Some? && end.failure.value.OsFailure? ==> n < s0 + |names|)
  }

  lemma GroupStepAccounted(st: RunState, dirRaw: string, dirOutput: string, name: string, beh: string -> ItemBehaviour)
    requires WellFormed(st.fs)
    ensures StepAccounted(st, GroupStep(st, dirRaw, dirOutput, name, beh), name, beh)
  {
    var st1 := GroupStep(st, dirRaw, dirOutput, name, beh);
    GroupShape(st, dirRaw, dirOutput, name, beh);
    if |st1.groups| != |st.groups| {
      GroupEffect(st, dirRaw, dirOutput, name, beh);
      ExpectedJobsRaiseStage(st1.groups[|st.groups|].submitted, beh);
    }
  }

  lemma StopAccounted(st: RunState, st1: RunState, names: seq<string>, beh: string -> ItemBehaviour)
    requires names != [] && StepAccounted(st, st1, names[0], beh) && st1.failure.Some?
    ensures LoopAccounted(st, st1, names, beh)
  {
  }

  lemma ContinueAccounted(st: RunState, st1: RunState, end: RunState, names: seq<string>, beh: string -> ItemBehaviour)
    requires names != [] && StepAccounted(st, st1, names[0], beh) && st1.failure.None?
    requires LoopAccounted(st1, end, names[1..], beh)
    ensures LoopAccounted(st, end, names, beh)
  {
    var s0 := |st.groups|;
    var n := |end.groups|;
    var rec := st1.groups[s0];
    assert end.groups[..s0 + 1] == st1.groups;
    assert end.groups[s0] == rec;
    assert end.groups[..s0] == st1.groups[..s0];
    forall i | s0 < i < n ensures end.groups[i].name == names[i - s0] {
      assert names[1..][i - (s0 + 1)] == names[i - s0];
    }
    assert s0 < n;
  }

  /** The group loop from a clean state, as `LoopAccounted` states it. */
  lemma {:induction false} GroupsFromAccounted(st: RunState, dirRaw: string, dirOutput: string, names: seq<string>, beh: string -> ItemBehaviour)
    requires WellFormed(st.fs) && st.failure.None?
    ensures LoopAccounted(st, GroupsFrom(st, dirRaw, dirOutput, names, beh), names, beh)
    decreases |names|
  {
    if names == [] {
      assert st.groups[..|st.groups|] == st.groups;
    } else {
      var st1 := GroupStep(st, dirRaw, dirOutput, names[0], beh);
      GroupStepAccounted(st, dirRaw, dirOutput, names[0], beh);
      assert GroupsFrom(st, dirRaw, dirOutput, names, beh) == GroupsFrom(st1, dirRaw, dirOutput, names[1..], beh);
      if st1.failure.Some? {
        assert GroupsFrom(st1, dirRaw, dirOutput, names[1..], beh) == st1;
        StopAccounted(st, st1, names, beh);
      } else {
        GroupsFromAccounted(st1, dirRaw, dirOutput, names[1..], beh);
        ContinueAccounted(st, st1, GroupsFrom(st1, dirRaw, dirOutput, names[1..], beh), names, beh);
      }
    }
  }

  /** A log entry written by a worker, about one image. */
  predicate ItemEvent(e: Event) {
    e.ImageError? || e.ImageSaved?
  }

  /** The log of a run in progress: the start message, then only messages about images. */
  predicate RunLog(log: seq<Event>) {
    |log| > 0 && log[0] == ProcessingStarted && forall i :: 0 < i < |log| ==> ItemEvent(log[i])
  }

  /** A worker logs at most one message, about its own image. */
  lemma ItemLog(fs: Fs<Artifact>, imgPath: string, outputDir: string, b: ItemBehaviour)
    ensures var log := ProcessAndSave(fs, imgPath, outputDir, b).log;
      log == [] || (|log| == 1 && ItemEvent(log[0]))
  {
    var r := ProcessAndSave(fs, imgPath, outputDir, b);
    var p := ProcessImage(imgPath, b.pipeline);
    if p.image.None? {
      assert r.log == p.log;
    } else {
      match MakeDirs(fs, outputDir, true)
      case Err(_) =>
        assert r.log == p.log == [];
      case Ok(fs1) =>
        var outputPath := Join(outputDir, Basename(imgPath));
        assert r == SaveImage(fs1, outputPath, p.image.value, b.save);
        SaveLog(fs1, outputPath, p.image.value, b.save);
    }
  }

  lemma SaveLog(fs: Fs<Artifact>, outputPath: string, img: Image, save: SaveOutcome)
    ensures SaveImage(fs, outputPath, img, save).log in {[], [ImageSaved(Basename(outputPath))]}
  {
  }

  predicate ItemEvents(log: seq<Event>) {
    forall i :: 0 <= i < |log| ==> ItemEvent(log[i])
  }

  lemma ItemEventsAppend(a: seq<Event>, b: seq<Event>)
    requires ItemEvents(a) && ItemEvents(b)
    ensures ItemEvents(a + b)
  {
    forall i | 0 <= i < |a + b| ensures ItemEvent((a + b)[i]) {
      if i >= |a| { assert (a + b)[i] == b[i - |a|]; }
    }
  }

  lemma RunLogAppend(a: seq<Event>, b: seq<Event>)
    requires RunLog(a) && ItemEvents(b)
    ensures RunLog(a + b)
  {
    forall i | 0 < i < |a + b| ensures ItemEvent((a + b)[i]) {
      if i >= |a| { assert (a + b)[i] == b[i - |a|]; }
    }
  }

  lemma {:induction false} RunJobsLog(pool: Pool, paths: seq<string>, outputDir: string, beh: string -> ItemBehaviour)
    requires ItemEvents(pool.log)
    ensures ItemEvents(RunJobs(pool, paths, outputDir, beh).log)
    decreases |paths|
  {
    if paths != [] {
      var next := RunJob(pool, paths[0], outputDir, beh);
      var log := ProcessAndSave(pool.fs, paths[0], outputDir, beh(paths[0])).log;
      ItemLog(pool.fs, paths[0], outputDir, beh(paths[0]));
      assert ItemEvents(log);
      ItemEventsAppend(pool.log, log);
      RunJobsLog(next, paths[1..], outputDir, beh);
    }
  }

  lemma GroupStepLog(st: RunState, dirRaw: string, dirOutput: string, name: string, beh: string -> ItemBehaviour)
    requires RunLog(st.log)
    ensures RunLog(GroupStep(st, dirRaw, dirOutput, name, beh).log)
  {
    var inputPath := Join(dirRaw, name);
    var outputPath := Join(dirOutput, name);
    var m := MakeDirs(st.fs, outputPath, true);
    if m.Ok? && ListDir(m.value, outputPath).Ok? && ListDir(m.value, inputPath).Ok? {
      var done := ListDir(m.value, outputPath).value;
      var entries := ListDir(m.value, inputPath).value;
      var paths := ResidualPaths(inputPath, entries, done);
      GroupListed(st, dirRaw, dirOutput, name, beh, m.value, done, entries);
      RunJobsLog(Pool(m.value, [], []), paths, outputPath, beh);
      CollectedLog(st, name, paths, RunJobs(Pool(m.value, [], []), paths, outputPath, beh));
    } else {
      GroupStepAborted(st, dirRaw, dirOutput, name, beh);
    }
  }

  /** A group whose directory operations raise logs nothing and records nothing. */
  lemma GroupStepAborted(st: RunState, dirRaw: string, dirOutput: string, name: string, beh: string -> ItemBehaviour)
    requires var m := MakeDirs(st.fs, Join(dirOutput, name), true);
      !(m.Ok? && ListDir(m.value, Join(dirOutput, name)).Ok? && ListDir(m.value, Join(dirRaw, name)).Ok?)
    ensures var st' := GroupStep(st, dirRaw, dirOutput, name, beh);
      st'.log == st.log && st'.groups == st.groups && st'.failure.Some?
  {
  }

  lemma CollectedLog(st: RunState, name: string, paths: seq<string>, pool: Pool)
    requires RunLog(st.log) && ItemEvents(pool.log)
    ensures RunLog(Collected(st, name, paths, pool).log)
  {
    RunLogAppend(st.log, pool.log);
  }

  lemma {:induction false} GroupsFromLog(st: RunState, dirRaw: string, dirOutput: string, names: seq<string>, beh: string -> ItemBehaviour)
    requires RunLog(st.log)
    ensures RunLog(GroupsFrom(st, dirRaw, dirOutput, names, beh).log)
    decreases |names|
  {
    if st.failure.None? && names != [] {
      GroupStepLog(st, dirRaw, dirOutput, names[0], beh);
      GroupsFromLog(GroupStep(st, dirRaw, dirOutput, names[0], beh), dirRaw, dirOutput, names[1..], beh);
    }
  }

  /** The end message is logged exactly when no exception escaped, and then it is the last message. */
  predicate LogEnds(r: RunState) {
    (ProcessingFinished in r.log <==> r.failure.None?) &&
    (r.failure.None? ==> |r.log| > 0 && r.log[|r.log| - 1] == ProcessingFinished)
  }

  /** The log of a run whose output root was `made`: it ends as `LogEnds` says, and starts with the start message once the root exists. */
  predicate LogShape(made: Result<Fs<Artifact>, OsError>, r: RunState) {
    LogEnds(r) && (made.Ok? ==> |r.log| > 0 && r.log[0] == ProcessingStarted)
  }

  /** The whole run, lines 104-145: the end message is logged exactly when no exception escaped. */
  lemma RegistrationLog(fs: Fs<Artifact>, dirRaw: string, processedRoot: string, beh: string -> ItemBehaviour)
    ensures LogShape(MakeDirs(fs, OutputRoot(processedRoot, dirRaw), true), Registration(fs, dirRaw, processedRoot, beh))
  {
    var made := MakeDirs(fs, OutputRoot(processedRoot, dirRaw), true);
    if made.Err? {
      RegistrationNotMade(fs, dirRaw, processedRoot, beh);
    } else if ListDir(made.value, dirRaw).Err? {
      RegistrationNotListed(fs, dirRaw, processedRoot, beh);
    } else {
      RegistrationListedLog(fs, dirRaw, processedRoot, beh);
    }
  }

  /** The run when the output root cannot be made: no message, and the operating-system error. */
  lemma RegistrationNotMade(fs: Fs<Artifact>, dirRaw: string, processedRoot: string, beh: string -> ItemBehaviour)
    requires MakeDirs(fs, OutputRoot(processedRoot, dirRaw), true).Err?
    ensures LogShape(MakeDirs(fs, OutputRoot(processedRoot, dirRaw), true), Registration(fs, dirRaw, processedRoot, beh))
  {
    var r := Registration(fs, dirRaw, processedRoot, beh);
    assert r.log == [] && r.failure.Some?;
  }

  /** The run when the raw directory cannot be listed: the start message, and the operating-system error. */
  lemma RegistrationNotListed(fs: Fs<Artifact>, dirRaw: string, processedRoot: string, beh: string -> ItemBehaviour)
    requires MakeDirs(fs, OutputRoot(processedRoot, dirRaw), true).Ok?
    requires ListDir(MakeDirs(fs, OutputRoot(processedRoot, dirRaw), true).value, dirRaw).Err?
    ensures LogShape(MakeDirs(fs, OutputRoot(processedRoot, dirRaw), true), Registration(fs, dirRaw, processedRoot, beh))
  {
    var made := MakeDirs(fs, OutputRoot(processedRoot, dirRaw), true);
    var r := Registration(fs, dirRaw, processedRoot, beh);
    assert r == Initial(made.value).(failure := Some(OsFailure(ListDir(made.value, dirRaw).error)));
    StartedThenFailed(made, r);
  }

  /** A run that logged only the start message and then failed has the shape `LogShape` asks for. */
  lemma StartedThenFailed(made: Result<Fs<Artifact>, OsError>, r: RunState)
    requires r.log == [ProcessingStarted] && r.failure.Some?
    ensures LogShape(made, r)
  {
  }

  /** The run once the raw directory is listed: the group loop's log, then the end message after a clean loop. */
  lemma RegistrationListedLog(fs: Fs<Artifact>, dirRaw: string, processedRoot: string, beh: string -> ItemBehaviour)
    requires MakeDirs(fs, OutputRoot(processedRoot, dirRaw), true).Ok?
    requires ListDir(MakeDirs(fs, OutputRoot(processedRoot, dirRaw), true).value, dirRaw).Ok?
    ensures LogShape(MakeDirs(fs, OutputRoot(processedRoot, dirRaw), true), Registration(fs, dirRaw, processedRoot, beh))
  {
    var fs1 := MakeDirs(fs, OutputRoot(processedRoot, dirRaw), true).value;
    RegistrationListed(fs, dirRaw, processedRoot, beh);
    LoopLogEnds(fs1, dirRaw, OutputRoot(processedRoot, dirRaw), ListDir(fs1, dirRaw).value, beh);
  }

  lemma LoopLogEnds(fs1: Fs<Artifact>, dirRaw: string, dirOutput: string, names: seq<string>, beh: string -> ItemBehaviour)
    ensures var r := Finish(GroupsFrom(Initial(fs1), dirRaw, dirOutput, names, beh));
      LogEnds(r) && |r.log| > 0 && r.log[0] == ProcessingStarted
  {
    GroupsFromLog(Initial(fs1), dirRaw, dirOutput, names, beh);
    EndLog(GroupsFrom(Initial(fs1), dirRaw, dirOutput, names, beh));
  }

  /** The log after the group loop: the end message follows a clean loop and only a clean loop. */
  lemma EndLog(end: RunState)
    requires RunLog(end.log)
    ensures LogEnds(Finish(end)) && |Finish(end).log| > 0 && Finish(end).log[0] == ProcessingStarted
  {
    assert ProcessingFinished !in end.log by {
      forall i | 0 <= i < |end.log| ensures end.log[i] != ProcessingFinished {
        if i > 0 { assert ItemEvent(end.log[i]); }
      }
    }
  }

  /**
   * The whole run, lines 104-145: a failing `makedirs` of the output root ends it before the
   * start message, a failing listing of the raw directory right after it, and otherwise the
   * groups are accounted for one by one in listing order.
   */
  lemma RegistrationAccounted(fs: Fs<Artifact>, dirRaw: string, processedRoot: string, beh: string -> ItemBehaviour)
    requires WellFormed(fs)
    ensures var r := Registration(fs, dirRaw, processedRoot, beh);
      var made := MakeDirs(fs, OutputRoot(processedRoot, dirRaw), true);
      (made.Err? ==> r.log == [] && r.groups == [] && r.failure == Some(OsFailure(made.error))) &&
      (made.Ok? ==> r.fs.cwd == fs.cwd) &&
      (made.Ok? && !IsDir(made.value, dirRaw) ==> r.groups == [] && r.failure.Some? && r.failure.value.OsFailure?) &&
      (made.Ok? && IsDir(made.value, dirRaw) ==>
        LoopAccounted(Initial(made.value), r, Listing(made.value, dirRaw), beh))
  {
    var dirOutput := OutputRoot(processedRoot, dirRaw);
    match MakeDirs(fs, dirOutput, true)
    case Err(_) =>
    case Ok(fs1) =>
      match ListDir(fs1, dirRaw)
      case Err(_) =>
      case Ok(names) =>
        MakeDirsWellFormed(fs, dirOutput, true);
        GroupsFromAccounted(Initial(fs1), dirRaw, dirOutput, names, beh);
        GroupsFromCwd(Initial(fs1), dirRaw, dirOutput, names, beh);
        FinishAccounted(Initial(fs1), GroupsFrom(Initial(fs1), dirRaw, dirOutput, names, beh), names, beh);
  }

  /** The end message changes nothing the loop's account states. */
  lemma FinishAccounted(st: RunState, end: RunState, names: seq<string>, beh: string -> ItemBehaviour)
    requires LoopAccounted(st, end, names, beh) && end.fs.cwd == st.fs.cwd
    ensures LoopAccounted(st, Finish(end), names, beh) && Finish(end).fs.cwd == st.fs.cwd
  {
    LoopAccountedIgnoresLog(st, end, names, beh, end.log + [ProcessingFinished]);
  }

  lemma LoopAccountedIgnoresLog(st: RunState, end: RunState, names: seq<string>, beh: string -> ItemBehaviour, log: seq<Event>)
    ensures LoopAccounted(st, end, names, beh) == LoopAccounted(st, end.(log := log), names, beh)
  {
  }

  lemma {:induction false} GroupsFromCwd(st: RunState, dirRaw: string, dirOutput: string, names: seq<string>, beh: string -> ItemBehaviour)
    requires WellFormed(st.fs)
    ensures GroupsFrom(st, dirRaw, dirOutput, names, beh).fs.cwd == st.fs.cwd
    decreases |names|
  {
    if st.failure.None? && names != [] {
      GroupShape(st, dirRaw, dirOutput, names[0], beh);
      GroupsFromCwd(GroupStep(st, dirRaw, dirOutput, names[0], beh), dirRaw, dirOutput, names[1..], beh);
    }
  }

  /** Line 136: every residual path is submitted and its job runs. */
  method SubmitAll(fs: Fs<Artifact>, paths: seq<string>, outputDir: string, beh: string -> ItemBehaviour) returns (pool: Pool)
    ensures pool == RunJobs(Pool(fs, [], []), paths, outputDir, beh)
  {
    pool := Pool(fs, [], []);
    var i := 0;
    while i < |paths|
      invariant 0 <= i <= |paths|
      invariant RunJobs(pool, paths[i..], outputDir, beh) == RunJobs(Pool(fs, [], []), paths, outputDir, beh)
    {
      assert paths[i..][1..] == paths[i + 1..];
      var r := ProcessAndSave(pool.fs, paths[i], outputDir, beh(paths[i]));
      pool := Pool(r.fs, pool.log + r.log, pool.results + [JobOf(r)]);
      i := i + 1;
    }
  }

  /**
   * Lines 138-139: results are retrieved in order; the first re-raised exception leaves the loop,
   * and results after it are never retrieved.
   */
  method Drain(results: seq<JobResult>) returns (retrieved: nat, failure: Option<Failure>)
    ensures retrieved <= |results|
    ensures failure.None? ==> retrieved == |results| && (forall j :: 0 <= j < |results| ==> results[j].Returned?)
    ensures failure.Some? ==>
      (0 < retrieved && results[retrieved - 1] == Raised(failure.value) &&
       forall j :: 0 <= j < retrieved - 1 ==> results[j].Returned?)
    ensures retrieved == Retrieved(results) && failure == FirstFailure(results)
  {
    retrieved, failure := 0, None;
    while retrieved < |results|
      invariant 0 <= retrieved <= |results|
      invariant forall j :: 0 <= j < retrieved ==> results[j].Returned?
      invariant Retrieved(results) == retrieved + Retrieved(results[retrieved..])
      invariant FirstFailure(results) == FirstFailure(results[retrieved..])
    {
      var r := results[retrieved];
      assert results[retrieved..][1..] == results[retrieved + 1..];
      retrieved := retrieved + 1;
      if r.Raised? {
        failure := Some(r.failure);
        return;
      }
    }
  }

  method ProcessGroup(st: RunState, dirRaw: string, dirOutput: string, name: string, beh: string -> ItemBehaviour)
    returns (st': RunState)
    ensures st' == GroupStep(st, dirRaw, dirOutput, name, beh)
  {
    var inputPath := Join(dirRaw, name);
    var outputPath := Join(dirOutput, name);
    var made := MakeDirs(st.fs, outputPath, true);
    if made.Err? {
      return st.(failure := Some(OsFailure(made.error)));
    }
    var fs1 := made.value;
    var done: seq<string>;
    match ListDir(fs1, outputPath) {
      case Err(e) => return st.(fs := fs1, failure := Some(OsFailure(e)));
      case Ok(listing) => done := listing;
    }
    var entries: seq<string>;
    match ListDir(fs1, inputPath) {
      case Err(e) => return st.(fs := fs1, failure := Some(OsFailure(e)));
      case Ok(listing) => entries := listing;
    }
    var paths := ResidualPaths(inputPath, entries, done);
    var pool := SubmitAll(fs1, paths, outputPath, beh);
    var retrieved, failure := Drain(pool.results);
    st' := RunState(pool.fs, st.log + pool.log, st.groups + [GroupRecord(name, paths, pool.results, retrieved)], failure);
  }

  /** One turn of the group loop: a clean state runs the next group, then the rest. */
  lemma GroupsFromUnfold(st: RunState, dirRaw: string, dirOutput: string, names: seq<string>, i: nat, beh: string -> ItemBehaviour)
    requires st.failure.None? && i < |names|
    ensures GroupsFrom(st, dirRaw, dirOutput, names[i..], beh) ==
            GroupsFrom(GroupStep(st, dirRaw, dirOutput, names[i], beh), dirRaw, dirOutput, names[i + 1..], beh)
  {
    assert names[i..][1..] == names[i + 1..];
  }

  /** Once a group raised, the loop does nothing more. */
  lemma GroupsFromStopped(st: RunState, dirRaw: string, dirOutput: string, names: seq<string>, beh: string -> ItemBehaviour)
    requires st.failure.Some?
    ensures GroupsFrom(st, dirRaw, dirOutput, names, beh) == st
  {
  }

  /** The run once the output root is made and the raw directory listed. */
  lemma RegistrationListed(fs: Fs<Artifact>, dirRaw: string, processedRoot: string, beh: string -> ItemBehaviour)
    requires MakeDirs(fs, OutputRoot(processedRoot, dirRaw), true).Ok?
    requires ListDir(MakeDirs(fs, OutputRoot(processedRoot, dirRaw), true).value, dirRaw).Ok?
    ensures var fs1 := MakeDirs(fs, OutputRoot(processedRoot, dirRaw), true).value;
      Registration(fs, dirRaw, processedRoot, beh) ==
      Finish(GroupsFrom(Initial(fs1), dirRaw, OutputRoot(processedRoot, dirRaw), ListDir(fs1, dirRaw).value, beh))
  {
  }

  method RunRegistration(fs: Fs<Artifact>, dirRaw: string, processedRoot: string, beh: string -> ItemBehaviour)
    returns (st: RunState)
    ensures st == Registration(fs, dirRaw, processedRoot, beh)
  {
    var dirOutput := OutputRoot(processedRoot, dirRaw);
    var made := MakeDirs(fs, dirOutput, true);
    if made.Err? {
      return RunState(fs, [], [], Some(OsFailure(made.error)));
    }
    st := RunState(made.value, [ProcessingStarted], [], None);
    var listed := ListDir(made.value, dirRaw);
    if listed.Err? {
      return st.(failure := Some(OsFailure(listed.error)));
    }
    RegistrationListed(fs, dirRaw, processedRoot, beh);
    st := ProcessGroups(st, dirRaw, dirOutput, listed.value, beh);
    if st.failure.None? {
      st := st.(log := st.log + [ProcessingFinished]);
    }
  }

  /** Lines 120-139: the groups in listing order, until one of them raises. */
  method ProcessGroups(st0: RunState, dirRaw: string, dirOutput: string, names: seq<string>, beh: string -> ItemBehaviour)
    returns (st: RunState)
    requires st0.failure.None?
    ensures st == GroupsFrom(st0, dirRaw, dirOutput, names, beh)
  {
    st := st0;
    assert names[0..] == names;
    var i := 0;
    while i < |names|
      invariant 0 <= i <= |names|
      invariant st.failure.None?
      invariant GroupsFrom(st, dirRaw, dirOutput, names[i..], beh) == GroupsFrom(st0, dirRaw, dirOutput, names, beh)
    {
      GroupsFromUnfold(st, dirRaw, dirOutput, names, i, beh);
      st := ProcessGroup(st, dirRaw, dirOutput, names[i], beh);
      i := i + 1;
      if st.failure.Some? {
        GroupsFromStopped(st, dirRaw, dirOutput, names[i..], beh);
        return;
      }
    }
    assert names[i..] == [];
  }
}
