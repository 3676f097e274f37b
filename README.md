# Resumable batch drivers of Alzheimer-CNN-Detection

This project models the two preprocessing drivers of the repository:

- the registration driver in `pre_processing/pre_process_parallel_registration.py`;
- the DICOM-to-NIfTI conversion driver in `pre_processing/dicom_to_nii.py`.

Both drivers walk a tree of group directories. In each group they compute the *residual*: the
input entries whose name is not yet listed in the matching output directory. They submit the
residual to a process pool, then drain the pool's results. The output tree is the only state
the drivers resume from.

The modules:

- `Wrappers`: `Option`, `Result` and a pass/fail `Outcome`.
- `Paths`: POSIX `join`, `basename`, `dirname`, `normpath` and `abspath`. The working directory
  is a parameter.
- `FileSystem`: a value `Fs` holding directory listings and written files, both keyed by
  resolved path. It provides `listdir`, `exists`, `makedirs` and writing a file, each with its
  operating-system errors.
- `Walker`: the residual filter both drivers share.
- `Registration`: the registration driver.
  - Crop window: the constants on lines 13-15.
  - Per-image job: `process_image` and `process_and_save_image`.
  - Group loop: the pool, and the `as_completed` drain that re-raises.
- `Conversion`: the conversion driver.
  - Output naming, and `get_f_dir`.
  - Per-folder job: `convert_dicom_to_nifti`.
  - Group loop: the pool, and the drain that logs every exception.
  - Counters, and the two nested loops of the `__main__` block.
    The run state records each visited subfolder with the group folders listed in it, so a run
    that raised nothing can be checked against the listings it walked.

The drivers' loops are methods with `while` loops. Each method is proved equal to a recursive
specification function (`RunRegistration` to `Registration`, `RunConversion` to `Conversion`, the
pool and drain loops to theirs). The lemmas state what those functions guarantee:

- which items a group submits;
- that each job's result depends on that item alone;
- how the output listing grows;
- what a second run resubmits;
- that a conversion run without an exception walked every listed subfolder and group folder;
- when the run ends early, and what the log and the counters say.

The numerical stages are foreign calls: ANTs registration, masking, N4 correction and
normalisation, and SimpleITK series reading, reorientation and writing. They are modelled by an
oracle `beh` that gives, for each submitted path, whether each stage passes or raises. For
registration, it also gives the shape of the masked volume.

Where the behaviour of the code differs from the design intent, the model follows the code:

- There is no `try` around the driver's own `os.listdir` and `os.makedirs` calls. A missing
  group input directory therefore ends the whole run; it does not fail just that group.
- In the conversion driver, a folder `I123` is written as `I123.nii.gz`, but the residual
  filter compares `I123` with the output listing. No conversion is ever recognised as done, so a
  second run resubmits every folder. `Conversion.GroupRerun` states this. In the registration
  driver the output keeps the input's name, so it does resume: `Registration.GroupResume`.
- The summary on line 105 of `dicom_to_nii.py` reports `len(dicom_folders)` of the last group, not
  `tot_images`. When no group ran, that name is unbound and the run ends there with a `NameError`.
  `Conversion.ConversionLog` and `Conversion.ConversionCounted` state both.

## Model

| member | source | states |
|---|---|---|
| Paths.Join | pre_processing/pre_process_parallel_registration.py:96 | `os.path.join`: an absolute second part replaces the first; otherwise the result starts with the first part and ends with the second, and is absolute exactly when the first part is |
| Paths.Basename | pre_processing/pre_process_parallel_registration.py:96 | `os.path.basename`: the part after the last separator, which holds no separator, ends the path and is the whole path when it has no separator |
| Paths.AbsPath | pre_processing/dicom_to_nii.py:51 | `os.path.abspath` against the working directory: normalise the path, joined to the working directory when relative (also used on line 18) |
| Paths.BasenameOfJoin | pre_processing/pre_process_parallel_registration.py:96 | for a name without separator, the basename of `join(dir, name)` is the name itself |
| Paths.AbsPathJoin | pre_processing/dicom_to_nii.py:51 | resolving `join(d, n)` for a plain name is resolving `d` and appending `n` after one separator |
| Paths.AbsPathIdempotent | pre_processing/dicom_to_nii.py:18 | `abspath` of an `abspath` result is unchanged |
| Paths.ResolvedEntry | pre_processing/dicom_to_nii.py:51 | the resolved path of `join(dir, n)` has the resolved `dir` as dirname and `n` as basename |
| FileSystem.ListDir | pre_processing/pre_process_parallel_registration.py:127-128 | `os.listdir` succeeds exactly on a directory and returns its listing |
| FileSystem.MakeDirs | pre_processing/pre_process_parallel_registration.py:124 | `makedirs` fails exactly on an existing file, or on an existing directory without `exist_ok`; otherwise the path is a directory, files and working directory are kept, and only a new path gets an empty listing |
| FileSystem.MakeDirsIdempotent | pre_processing/dicom_to_nii.py:83 | a second `makedirs(p, exist_ok=True)` changes nothing |
| FileSystem.AddEntry | pre_processing/pre_process_parallel_registration.py:97 | after a write the listing holds the old names plus the written one, stays distinct, and grows only when the name is new |
| FileSystem.WriteFile | pre_processing/pre_process_parallel_registration.py:97 | a successful write stores the artifact under the resolved path and adds its basename to the parent's listing, changing nothing else |
| FileSystem.WriteEntry | pre_processing/dicom_to_nii.py:54 | writing `join(dir, n)` into an existing directory succeeds and adds `n` to that listing only |
| FileSystem.ApplyWritesFrame | pre_processing/pre_process_parallel_registration.py:136 | applying a batch of writes leaves every file outside the written paths as it was, and every written path holds a file |
| FileSystem.ApplyWritesAgree | pre_processing/pre_process_parallel_registration.py:136 | two file maps that agree outside a batch's written paths are equal after the batch |
| FileSystem.ApplyWritesTwice | pre_processing/dicom_to_nii.py:91-92 | applying the same batch of writes a second time changes no file |
| FileSystem.MakeDirsKeepsListing | pre_processing/pre_process_parallel_registration.py:124-127 | `makedirs` never changes the listing any path reads |
| Walker.Residual | pre_processing/pre_process_parallel_registration.py:128 | the residual has a name exactly when the input listing has it and the output listing does not, and is no longer than the input |
| Walker.ResidualPaths | pre_processing/dicom_to_nii.py:87 | the submitted paths are the residual names, each joined to the input directory, in order |
| Walker.ResidualAppend | pre_processing/pre_process_parallel_registration.py:128 | the filter keeps listing order: filtering a concatenation filters each part |
| Walker.ResidualMoreDone | pre_processing/pre_process_parallel_registration.py:127-128 | filtering against a listing that grew by more names is filtering the old residual by them |
| Walker.ResidualCongruent | pre_processing/dicom_to_nii.py:86-87 | the filter depends on the output listing only through which input names it holds |
| Walker.ResidualNoneDone | pre_processing/dicom_to_nii.py:86-87 | an output listing holding no input name leaves every input to do |
| Walker.ResidualIdempotent | pre_processing/pre_process_parallel_registration.py:128 | filtering twice by the same listing is filtering once |
| Walker.ResidualAsSet | pre_processing/pre_process_parallel_registration.py:127-128 | as a set, the residual is the input names minus the output names |
| Walker.ResidualDistinct | pre_processing/pre_process_parallel_registration.py:128 | distinct listings give a residual without repeats |
| Walker.ResidualPathsSound | pre_processing/pre_process_parallel_registration.py:127-128 | each submitted path joins a listed name that is not done, and no done name is ever submitted |
| Registration.CropVolume | pre_processing/pre_process_parallel_registration.py:60-64 | the crop with the slice constants of lines 13-15 on each axis; its contract is in `Registration.CropVolumeShape` |
| Registration.SliceOf | pre_processing/pre_process_parallel_registration.py:60-64 | a Python slice keeps `len(range(n)[start:stop])` elements, from `start` on |
| Registration.SliceLenClamped | pre_processing/pre_process_parallel_registration.py:13-15 | a slice keeps `min(stop, n) - start` elements, or none when `n <= start`; never more than `stop - start`, and exactly that when `n >= stop` |
| Registration.CropVolumeShape | pre_processing/pre_process_parallel_registration.py:60-64 | cropping a box volume gives a box of the computed shape whose voxel `[i][j][k]` is the input's voxel `[24+i][24+j][6+k]` |
| Registration.CropFullWindow | pre_processing/pre_process_parallel_registration.py:13-15 | a volume of at least 169 x 206 x 161 is cropped to exactly 145 x 182 x 155 |
| Registration.CropBounded | pre_processing/pre_process_parallel_registration.py:13-15 | no crop is larger than 145 x 182 x 155, and a volume not wider than 24 crops to nothing |
| Registration.ProcessImage | pre_processing/pre_process_parallel_registration.py:37-89 | an image comes back exactly when every stage passes, and has the cropped shape; otherwise one error naming the image's basename and the exception is logged |
| Registration.SaveImage | pre_processing/pre_process_parallel_registration.py:97 | `ants.image_write`: it writes the image and logs its basename, or raises, perhaps leaving a partial file; its contract is in `Registration.SaveWritesOnly` |
| Registration.ProcessAndSave | pre_processing/pre_process_parallel_registration.py:92-101 | the job: process the image, and only when an image came back make the output directory and save the image under the input's basename; its contracts are in `Registration.ItemEffect` and `Registration.WritesOnlyOwnOutput` |
| Registration.FailedPipelineWritesNothing | pre_processing/pre_process_parallel_registration.py:92-94 | a failed pipeline leaves the file system unchanged, logs only its error, and raises nothing |
| Registration.SaveWritesOnly | pre_processing/pre_process_parallel_registration.py:97 | a save changes at most the file at its own path: to the image, or to a partial file when it raises |
| Registration.WritesOnlyOwnOutput | pre_processing/pre_process_parallel_registration.py:92-98 | at most one file changes, `join(output_dir, basename(img_path))`, and only after the pipeline returned an image |
| Registration.ItemEffect | pre_processing/pre_process_parallel_registration.py:92-98 | with a ready output directory, the job's result depends on its own behaviour alone, and only the output listing changes, gaining the item's name exactly when the item leaves a file |
| Registration.ItemLog | pre_processing/pre_process_parallel_registration.py:88-98 | a job logs at most one message, and it is about its own image |
| Registration.ExpectedJobs | pre_processing/pre_process_parallel_registration.py:136 | one expected result per submitted path, each determined by that path's behaviour |
| Registration.RunJobsEffect | pre_processing/pre_process_parallel_registration.py:134-136 | on distinct fresh names, every job yields its own expected result; the output listing grows by exactly the names of the items that left a file, in submission order; the files are the old ones with each such item's artifact written at `join(output_dir, basename)`, in submission order |
| Registration.RunJobsFiles | pre_processing/pre_process_parallel_registration.py:92-97 | the pool's files are the old files with one write per item that left an output, at its own path, holding its artifact |
| Registration.OutputWritesPaths | pre_processing/pre_process_parallel_registration.py:96 | the paths a batch writes are the output directory joined to the outputs' names, in submission order |
| Registration.OutputWritesAt | pre_processing/pre_process_parallel_registration.py:96-97 | with distinct basenames, an item that left an output finds its own artifact at `join(output_dir, basename)` after the batch |
| Registration.RetrievedUpToFirstFailure | pre_processing/pre_process_parallel_registration.py:138-139 | nothing is re-raised exactly when every job returned, and then all results are retrieved; otherwise retrieval stops at the first job that raised, whose exception is re-raised |
| Registration.ExpectedJobsRaiseStage | pre_processing/pre_process_parallel_registration.py:87-97 | only the image write can raise out of a job, so the exception a pool re-raises is a stage failure |
| Registration.SubmittedFresh | pre_processing/pre_process_parallel_registration.py:127-128 | the submitted paths have distinct plain basenames, none of them already in the output listing, each the matching residual name |
| Registration.GroupStep | pre_processing/pre_process_parallel_registration.py:120-139 | one group: make the output directory, list it and the input directory, run the residual's jobs and collect their results; its contracts are in `Registration.GroupShape` and `Registration.GroupEffect` |
| Registration.GroupShape | pre_processing/pre_process_parallel_registration.py:120-139 | a group adds one record exactly when its output directory can be made and its input directory listed; otherwise it ends the run with the operating-system error |
| Registration.GroupEffect | pre_processing/pre_process_parallel_registration.py:122-139 | a group that gets as far as submitting submits the residual, each job with its own result; its output listing grows by the outputs, no other listing changes, the files change by exactly the outputs' writes, and the run fails with the first raised exception |
| Registration.ResumeNames | pre_processing/pre_process_parallel_registration.py:127-128 | filtering a batch's names by the outputs it left gives exactly the items that left none, in order |
| Registration.ResubmittedUnfinished | pre_processing/pre_process_parallel_registration.py:127-128 | the residual against the listing a batch left behind is the batch's unfinished part |
| Registration.GroupResume | pre_processing/pre_process_parallel_registration.py:120-139 | a group processed again on the file system its first run left (with stages that may behave differently the second time) submits exactly the first submission's items that left no output, in order; every file the first run wrote is still there and unchanged; when every item left an output, no file changes |
| Registration.ResumeFiles | pre_processing/pre_process_parallel_registration.py:127-136 | a rerun that writes only the residual's outputs leaves every output of the first run as it was, and writes nothing when the residual is empty |
| Registration.RerunAvoids | pre_processing/pre_process_parallel_registration.py:127-128 | a rerun never writes under a name its output listing already holds |
| Registration.GroupsFromAccounted | pre_processing/pre_process_parallel_registration.py:120-139 | groups are recorded in listing order, each with its own results and results retrieved up to the first exception; only the last recorded group can have raised; all groups run when nothing failed |
| Registration.Registration | pre_processing/pre_process_parallel_registration.py:104-145 | the whole run: make the output root, log the start, process the groups in listing order, log the end after a clean loop; its contracts are in `Registration.RegistrationLog` and `Registration.RegistrationAccounted` |
| Registration.RegistrationLog | pre_processing/pre_process_parallel_registration.py:118-144 | the end message is logged exactly when no exception escaped, and it is then the last entry; once the output root exists, the start message comes first |
| Registration.RegistrationAccounted | pre_processing/pre_process_parallel_registration.py:104-145 | a failing `makedirs` of the output root ends the run with no log; an unlistable raw directory ends it with no group; otherwise the groups are accounted one by one in listing order |
| Registration.SubmitAll | pre_processing/pre_process_parallel_registration.py:136 | the submit loop runs every residual path's job, in order, as the pool specification says |
| Registration.Drain | pre_processing/pre_process_parallel_registration.py:138-139 | the drain loop retrieves results in order, stops after the first that raised and re-raises its exception; without one it retrieves them all |
| Registration.ProcessGroup | pre_processing/pre_process_parallel_registration.py:122-139 | one group, as the group specification says |
| Registration.ProcessGroups | pre_processing/pre_process_parallel_registration.py:120-139 | the loop over the listed groups stops at the first group that raises and otherwise processes every group in listing order, as the group-loop specification says |
| Registration.RunRegistration | pre_processing/pre_process_parallel_registration.py:104-145 | the whole run, as the run specification says |
| Conversion.OutputName | pre_processing/dicom_to_nii.py:39 | the folder's basename followed by `.nii.gz`; its contracts are in `Conversion.OutputNameShape` and `Conversion.OutputNameIsEntry` |
| Conversion.OutputNameShape | pre_processing/dicom_to_nii.py:39 | the output name of folder `join(dir, f)` is the plain name `f + ".nii.gz"`, never `f` itself |
| Conversion.OutputNameIsEntry | pre_processing/dicom_to_nii.py:39 | every output name is a plain file name ending in `.nii.gz` |
| Conversion.OutputFilePlacement | pre_processing/dicom_to_nii.py:51 | the output file is normal and absolute, and lies directly in the resolved output folder under the output name |
| Conversion.FirstEntry | pre_processing/dicom_to_nii.py:16-19 | `get_f_dir` succeeds exactly on a non-empty directory; it fails on an empty one with the index error and elsewhere with the listing error |
| Conversion.FirstEntryNamesFirst | pre_processing/dicom_to_nii.py:16-19 | `get_f_dir` returns a normal absolute path whose dirname is the resolved directory and whose basename is its first listed entry |
| Conversion.ConvertFolder | pre_processing/dicom_to_nii.py:35-57 | the job: log the start, make the output folder when it does not exist, read and reorient the series, write it at the absolute output path and log the success; its contracts are in `Conversion.FailedStageWritesNothing` and `Conversion.FolderEffect` |
| Conversion.FailedStageWritesNothing | pre_processing/dicom_to_nii.py:41-54 | a failing read, reorientation or write leaves the file system unchanged, logs only the start message, and raises the exception of the first stage that failed |
| Conversion.FolderEffect | pre_processing/dicom_to_nii.py:35-57 | with a ready output folder, the job raises exactly what its own first failing stage raises; on success `<name>.nii.gz` joins the output listing and holds this folder's series, and nothing else changes |
| Conversion.RunJobs | pre_processing/dicom_to_nii.py:91-92 | the pool yields one result per submitted folder |
| Conversion.ExpectedJobs | pre_processing/dicom_to_nii.py:92 | one expected result per submitted folder, each determined by that folder's behaviour |
| Conversion.AddAllMembers | pre_processing/dicom_to_nii.py:54 | after a batch of writes the listing holds the old names and the written names, and nothing else |
| Conversion.RunJobsEffect | pre_processing/dicom_to_nii.py:91-92 | every job yields its own expected result, the jobs' messages appear in submission order, the output listing gains the name of every successful conversion while no other listing changes, and the files are the old ones with each successful folder's series written at its output path, in submission order |
| Conversion.RunJobsFiles | pre_processing/dicom_to_nii.py:51-54 | the pool's files are the old files with one write per successful folder, at `join(output_folder, name + ".nii.gz")`, holding that folder's series |
| Conversion.ConvertedWritesPaths | pre_processing/dicom_to_nii.py:51 | the paths a batch writes are the output folder joined to the converted names, in submission order |
| Conversion.AddAllTwice | pre_processing/dicom_to_nii.py:54 | writing the same names into a listing a second time leaves the listing as the first time left it |
| Conversion.ConvertedNamesSuffixed | pre_processing/dicom_to_nii.py:39-54 | every name a conversion adds ends in `.nii.gz` |
| Conversion.ErrorLogExact | pre_processing/dicom_to_nii.py:94-98 | the drain logs an error exactly for each job that raised, naming that job's folder and exception, and never more messages than jobs |
| Conversion.GroupStep | pre_processing/dicom_to_nii.py:77-102 | one group folder: log the header, make the output folder, list it and the input folder, run the residual's jobs, drain them and count; its contracts are in `Conversion.GroupShape` and `Conversion.GroupCollects` |
| Conversion.GroupShape | pre_processing/dicom_to_nii.py:77-102 | when a driver directory operation raises, the run ends with nothing counted for the group; otherwise the group is recorded with each submitted folder's expected result, `tot_images` grows by that number and `dicom_folders` is rebound; job exceptions never end the run |
| Conversion.GroupCollects | pre_processing/dicom_to_nii.py:78-102 | a group that can run submits the residual and collects every expected result; its log is the header, the counts, the jobs' messages, one error per raised job and the group summary; the output listing gains the converted names, the files change by exactly the conversions' writes, and no other listing changes |
| Conversion.ResidualIgnoresNifti | pre_processing/dicom_to_nii.py:86-87 | against an output listing of `.nii.gz` files only (the names line 39 writes), with no input name ending so, the residual is the whole input listing |
| Conversion.ConvertedNamesIgnored | pre_processing/dicom_to_nii.py:86-87 | adding converted names to the output listing never changes which folders the filter keeps |
| Conversion.GroupRerun | pre_processing/dicom_to_nii.py:83-92 | a group run again on the file system its first run left submits the very same folders, converted or not; every successful conversion is written again with the same contents, so the output folder's files and listing end exactly as the first run left them |
| Conversion.GroupSubmitsAll | pre_processing/dicom_to_nii.py:86-87 | with only converted files in the output folder, every input folder is submitted |
| Conversion.GroupStepCounted | pre_processing/dicom_to_nii.py:100 | one group keeps `tot_images` equal to the sum of the residual sizes and `dicom_folders` equal to the last group's |
| Conversion.GroupsFromAccounted | pre_processing/dicom_to_nii.py:77-102 | the group loop keeps the counters in step, the visits and the earlier groups, and records groups in listing order, each with every submitted folder's expected result; when nothing raised it ran every listed group folder, and only a driver directory operation ends it early |
| Conversion.SubfoldersFromAccounted | pre_processing/dicom_to_nii.py:74-102 | the subfolder loop keeps the earlier groups, visits and counters and records each group with its expected results; it ends early only on a driver directory error, and when nothing raised its visits are the listed subfolders in order and its groups are, subfolder by subfolder, every group folder each listing returned |
| Conversion.SubfolderVisit | pre_processing/dicom_to_nii.py:74-77 | a subfolder whose `os.listdir(input_dir)` raises ends the run with that error and nothing else changed; otherwise the visit records the subfolder with exactly the group folders listed |
| Conversion.SubAccountedTrans | pre_processing/dicom_to_nii.py:74-102 | a walk of the first subfolder followed by a walk of the rest is a walk of the whole listing |
| Conversion.GroupStepQuiet | pre_processing/dicom_to_nii.py:78-102 | a group never logs the run's summary or end message |
| Conversion.Conversion | pre_processing/dicom_to_nii.py:60-108 | the whole run: resolve the base root, make the raw root, log the two opening messages, walk the subfolders and their groups, then log the summary and end messages; its contracts are in `Conversion.ConversionCounted` and `Conversion.ConversionLog` |
| Conversion.ConversionCounted | pre_processing/dicom_to_nii.py:60-108 | `tot_images` is the sum of the groups' residual sizes and every group collected each submitted folder's expected result; a run ends early only on a driver directory error, or through the unbound `dicom_folders` when no group ran; a run without an exception visited exactly the subfolders `os.listdir(DIR_BASE)` returned, in order, and converted every group folder each of them listed, so a failing job never stops the walk |
| Conversion.ConversionLog | pre_processing/dicom_to_nii.py:102-108 | the summary and end messages are logged exactly when no exception escaped; the summary reports the last group's residual size |
| Conversion.SubmitAll | pre_processing/dicom_to_nii.py:91-92 | the submit loop runs every residual folder's job, in order, as the pool specification says |
| Conversion.DrainAll | pre_processing/dicom_to_nii.py:94-98 | the drain loop retrieves every result in order and logs each exception with its folder, re-raising none |
| Conversion.ConvertGroup | pre_processing/dicom_to_nii.py:77-102 | one group, as the group specification says |
| Conversion.ConvertFolders | pre_processing/dicom_to_nii.py:89-102 | a group's pool is filled and drained, and the group is accounted with the pool's results, as the group specification says |
| Conversion.Account | pre_processing/dicom_to_nii.py:78-102 | after the drain, the log gains the group header, the counts, the jobs' messages, one error per raising job and the converted count; `tot_images` grows by the residual size and the group is recorded with its results |
| Conversion.ConvertSubfolder | pre_processing/dicom_to_nii.py:74-102 | one subfolder: list its group folders, record the visit and run the group loop, as the subfolder specification says |
| Conversion.ConvertGroups | pre_processing/dicom_to_nii.py:77-102 | the group loop over one subfolder's listing, stopping at the first driver directory error, as the group-loop specification says |
| Conversion.RunConversion | pre_processing/dicom_to_nii.py:60-108 | the whole run, as the run specification says |

## Left out

- Concurrency. Each pool runs its jobs one after another in submission order, and the
  registration drain takes results in that order. `as_completed` yields them in completion order,
  so the job whose exception is re-raised may differ. Jobs write only their own output file, so
  the final file system does not depend on the order.
- Log interleaving. Each worker's messages appear in submission order, and the conversion
  drain's error messages come after all of them. Timestamps, log levels and message wording are
  not modelled.
- Log file. The `logging.basicConfig` setup is not modelled, including the `conversion.log` file
  it creates.
- Timing. The clock reads and the duration messages (lines 117, 143 and 145 of the registration
  file, and 71, 106 and 108 of the conversion file) are left out. The start and end messages on
  lines 72 and 107 of the conversion file are kept, without their timestamps.
- Interpreter housekeeping: `gc.collect` and the reset of `normalized_image`.
- Foreign stages. These calls are an oracle, not a computation:
  - `ants.registration` (four stages), `mask_image`, `from_numpy`, `n4_bias_field_correction`;
  - `winsorize_image` and `normalize_image_min` (floating point);
  - the SimpleITK series reader, `DICOMOrient` and `WriteImage`.
- Voxel values. Only the shape of a registered image is tracked through the pipeline. The crop
  itself is modelled on voxels, by `Registration.CropVolume`.
- Template and mask. Loading them (lines 109-115 of the registration file) is outside the model;
  they are fixed inputs of the oracle.
- Worker failures. A worker crash or a `BaseException` breaking the pool is not modelled.
- Conversion.ConvertFolder: a `WriteImage` that raises is assumed to leave no partial file. The
  registration save does model a partial file.
- Root paths. The hard-coded roots (`DIR_RAW`, the processed root, `DIR_BASE`) are parameters.
- FileSystem.MakeDirs: creates only the named directory. Missing parents are not created, and the
  new directory is not added to its parent's listing. This is faithful only while the input and
  output roots are disjoint trees, as the source's own roots are (`.../RAW/MP-RAGE` against
  `.../PROCESSED/MP-RAGE`, and `.../DICOM` against `.../NIFTI_RAW`); the model assumes that. An
  output root nested in the input tree would make the real `makedirs` add entries to listings the
  drivers read, and a parent that is a file would make it raise.
- FileSystem.MakeDirsKeepsListing: states that `makedirs` changes no listing, which holds only
  under the same assumption of disjoint input and output trees.
- FileSystem.WriteFile: writing over an existing directory's path is not refused.
- FileSystem.ListDir: every failure is reported as `FileNotFound`. `NotADirectoryError` and
  `PermissionError` are not distinguished.
