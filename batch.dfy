/**
 * The aggregation of `batch_convert` (voice_converter.py): every discovered
 * file against every requested voice, one `convert_voice` call per pair,
 * a deterministic output name per pair, a file reported as a success only
 * when all its conversions succeeded, and one failure line per failed pair.
 *
 * `convert_voice` itself (HTTP upload, writing the audio) is an oracle: a
 * function from the arguments of the call to the boolean it returns.
 */
module Batch {
  import opened Seqs
  import opened Paths
  import opened Catalog

  /** The arguments of one `convert_voice` call: input file, target voice, output file. */
  datatype Job = Job(input: FilePath, voiceId: string, output: FilePath)

  /** What `batch_convert` returns: `{'success': [...], 'failed': [...]}`. */
  datatype BatchResult = BatchResult(success: seq<string>, failed: seq<string>)

  /** What stays fixed during one run: the two folders and the catalog's ID-to-name map. */
  datatype Plan = Plan(inputFolder: string, outputFolder: string, names: map<string, string>)

  /** `f"{stem}_{voice_name}_{voice_id}{suffix}"`. */
  function OutputFilename(fileName: string, voiceName: string, voiceId: string): string {
    Stem(fileName) + "_" + voiceName + "_" + voiceId + Suffix(fileName)
  }

  /** The call made for one (file, voice) pair. */
  function MakeJob(p: Plan, fileName: string, voiceId: string): Job {
    var voiceName := VoiceName(p.names, voiceId);
    Job(FilePath(p.inputFolder, fileName), voiceId,
        FilePath(p.outputFolder, OutputFilename(fileName, voiceName, voiceId)))
  }

  /** The calls of the inner loop for one file, in the order of the voice IDs. */
  function FileJobs(p: Plan, fileName: string, voiceIds: seq<string>): (jobs: seq<Job>) {
    seq(|voiceIds|, j requires 0 <= j < |voiceIds| => MakeJob(p, fileName, voiceIds[j]))
  }

  /** The calls made for one file. */
  function FileBlock(p: Plan, voiceIds: seq<string>): string -> seq<Job> {
    fileName => FileJobs(p, fileName, voiceIds)
  }

  /** All calls of a run, file-major: the calls for each file in discovery order. */
  function Jobs(p: Plan, files: seq<string>, voiceIds: seq<string>): seq<Job> {
    FlatMap(files, FileBlock(p, voiceIds))
  }

  /** Every conversion of the file succeeds. */
  predicate FileConverted(p: Plan, fileName: string, voiceIds: seq<string>, convert: Job -> bool) {
    forall j :: 0 <= j < |voiceIds| ==> convert(MakeJob(p, fileName, voiceIds[j]))
  }

  /** The test that puts a file on the success list. */
  function Converted(p: Plan, voiceIds: seq<string>, convert: Job -> bool): string -> bool {
    fileName => FileConverted(p, fileName, voiceIds, convert)
  }

  /** The `success` list: the files, in discovery order, all of whose conversions succeeded. */
  function SuccessNames(p: Plan, files: seq<string>, voiceIds: seq<string>, convert: Job -> bool): seq<string> {
    Filter(files, Converted(p, voiceIds, convert))
  }

  /** `f"{audio_file.name} -> {voice_name}"` for a failed call. */
  function FailureLine(p: Plan, job: Job): string {
    job.input.name + " -> " + VoiceName(p.names, job.voiceId)
  }

  /** What one call adds to `failed`: nothing when it succeeds, its failure line otherwise. */
  function FailureBlock(p: Plan, convert: Job -> bool): Job -> seq<string> {
    job => if convert(job) then [] else [FailureLine(p, job)]
  }

  /** The `failed` list: one line per call that returned false, in call order. */
  function FailureLines(p: Plan, calls: seq<Job>, convert: Job -> bool): seq<string> {
    FlatMap(calls, FailureBlock(p, convert))
  }

  /**
   * The inner loop of `batch_convert` for one file: one `convert_voice` call
   * per voice ID, in order, a failure line for each call that returns false,
   * and `file_success` true exactly when none did. `calls` is the trace of
   * the calls made.
   */
  method ConvertFile(p: Plan, audioFile: string, voiceIds: seq<string>, convert: Job -> bool)
    returns (fileSuccess: bool, failed: seq<string>, ghost calls: seq<Job>)
    ensures calls == FileJobs(p, audioFile, voiceIds)
    ensures fileSuccess == FileConverted(p, audioFile, voiceIds, convert)
    ensures failed == FailureLines(p, calls, convert)
  {
    fileSuccess, failed, calls := true, [], [];
    for j := 0 to |voiceIds|
      invariant calls == FileJobs(p, audioFile, voiceIds[..j])
      invariant fileSuccess == FileConverted(p, audioFile, voiceIds[..j], convert)
      invariant failed == FailureLines(p, calls, convert)
    {
      var voiceId := voiceIds[j];
      var voiceName := VoiceName(p.names, voiceId);
      var outputFilename := OutputFilename(audioFile, voiceName, voiceId);
      var job := Job(FilePath(p.inputFolder, audioFile), voiceId, FilePath(p.outputFolder, outputFilename));
      var ok := convert(job);
      FileStep(p, audioFile, voiceIds, j, convert);
      FlatMapSnoc(calls, job, FailureBlock(p, convert));
      calls := calls + [job];
      if !ok {
        fileSuccess := false;
        failed := failed + [audioFile + " -> " + voiceName];
      }
    }
    assert voiceIds[..|voiceIds|] == voiceIds;
  }

  /**
   * The conversion loop of `batch_convert`: each discovered file in turn
   * goes through `ConvertFile`; its failure lines are appended to `failed`
   * and its name to `success` when all its conversions succeeded.
   */
  method ConvertAll(p: Plan, files: seq<string>, voiceIds: seq<string>, convert: Job -> bool)
    returns (success: seq<string>, failed: seq<string>, ghost calls: seq<Job>)
    ensures calls == Jobs(p, files, voiceIds)
    ensures success == SuccessNames(p, files, voiceIds, convert)
    ensures failed == FailureLines(p, calls, convert)
  {
    success, failed, calls := [], [], [];
    for i := 0 to |files|
      invariant calls == Jobs(p, files[..i], voiceIds)
      invariant success == SuccessNames(p, files[..i], voiceIds, convert)
      invariant failed == FailureLines(p, calls, convert)
    {
      var audioFile := files[i];
      var fileSuccess, fileFailed, fileCalls := ConvertFile(p, audioFile, voiceIds, convert);
      FailureLinesAppend(p, calls, fileCalls, convert);
      RunStep(p, files, i, voiceIds, convert);
      calls := calls + fileCalls;
      failed := failed + fileFailed;
      if fileSuccess {
        success := success + [audioFile];
      }
    }
    assert files[..|files|] == files;
  }

  /** One more voice ID: one more call at the end, and one more conversion that must succeed. */
  lemma FileStep(p: Plan, fileName: string, voiceIds: seq<string>, j: nat, convert: Job -> bool)
    requires j < |voiceIds|
    ensures FileJobs(p, fileName, voiceIds[..j + 1]) == FileJobs(p, fileName, voiceIds[..j]) + [MakeJob(p, fileName, voiceIds[j])]
    ensures FileConverted(p, fileName, voiceIds[..j + 1], convert)
            == (FileConverted(p, fileName, voiceIds[..j], convert) && convert(MakeJob(p, fileName, voiceIds[j])))
  {
    var a := voiceIds[..j];
    var b := voiceIds[..j + 1];
    assert forall k :: 0 <= k < j ==> a[k] == b[k];
    assert b[j] == voiceIds[j];
  }

  /** One more file: its calls follow the earlier ones, and its name follows the earlier successes when all its conversions succeeded. */
  lemma RunStep(p: Plan, files: seq<string>, i: nat, voiceIds: seq<string>, convert: Job -> bool)
    requires i < |files|
    ensures Jobs(p, files[..i + 1], voiceIds) == Jobs(p, files[..i], voiceIds) + FileJobs(p, files[i], voiceIds)
    ensures SuccessNames(p, files[..i + 1], voiceIds, convert)
            == SuccessNames(p, files[..i], voiceIds, convert) + (if FileConverted(p, files[i], voiceIds, convert) then [files[i]] else [])
  {
    assert files[..i + 1] == files[..i] + [files[i]];
    FlatMapSnoc(files[..i], files[i], FileBlock(p, voiceIds));
    FilterSnoc(files[..i], files[i], Converted(p, voiceIds, convert));
  }

  /** The calls of a run, split at a file boundary, are the calls of each part in turn. */
  lemma JobsAppend(p: Plan, f1: seq<string>, f2: seq<string>, voiceIds: seq<string>)
    ensures Jobs(p, f1 + f2, voiceIds) == Jobs(p, f1, voiceIds) + Jobs(p, f2, voiceIds)
  {
    FlatMapAppend(f1, f2, FileBlock(p, voiceIds));
  }

  /** For F files and V voices there are exactly F * V calls. */
  lemma {:induction false} JobsCount(p: Plan, files: seq<string>, voiceIds: seq<string>)
    ensures |Jobs(p, files, voiceIds)| == |files| * |voiceIds|
  {
    if files != [] {
      JobsCount(p, files[..|files| - 1], voiceIds);
      assert (|files| - 1) * |voiceIds| + |voiceIds| == |files| * |voiceIds|;
    }
  }

  /** The calls are file-major and voice-minor: call number i * V + j converts file i to voice j. */
  lemma {:induction false} JobsAt(p: Plan, files: seq<string>, voiceIds: seq<string>, i: nat, j: nat) returns (k: nat)
    requires i < |files| && j < |voiceIds|
    ensures k == i * |voiceIds| + j
    ensures k < |Jobs(p, files, voiceIds)| && Jobs(p, files, voiceIds)[k] == MakeJob(p, files[i], voiceIds[j])
  {
    var n := |files|;
    var v := |voiceIds|;
    var init := files[..n - 1];
    k := i * v + j;
    JobsCount(p, files, voiceIds);
    JobsCount(p, init, voiceIds);
    MulStep(i, j, n, v);
    var jobs := Jobs(p, files, voiceIds);
    assert files == init + [files[n - 1]];
    FlatMapSnoc(init, files[n - 1], FileBlock(p, voiceIds));
    assert jobs == Jobs(p, init, voiceIds) + FileJobs(p, files[n - 1], voiceIds);
    if i < n - 1 {
      var k' := JobsAt(p, init, voiceIds, i, j);
      MulStep(i, j, n - 1, v);
      assert files[i] == init[i];
    } else {
      assert k == |Jobs(p, init, voiceIds)| + j;
    }
  }

  /** Row i, column j of an n-row table with v columns lies before row n. */
  lemma MulStep(i: nat, j: nat, n: nat, v: nat)
    requires i < n && j < v
    ensures i * v + j < n * v
  {
    assert (i + 1) * v <= n * v by {
      MulMonotone(i + 1, n, v);
    }
  }

  lemma {:induction false} MulMonotone(a: nat, b: nat, v: nat)
    requires a <= b
    ensures a * v <= b * v
  {
    if a < b {
      MulMonotone(a, b - 1, v);
    }
  }

  /** The failure lines keep call order: the lines of a split trace are the lines of each part. */
  lemma FailureLinesAppend(p: Plan, c1: seq<Job>, c2: seq<Job>, convert: Job -> bool)
    ensures FailureLines(p, c1 + c2, convert) == FailureLines(p, c1, convert) + FailureLines(p, c2, convert)
  {
    FlatMapAppend(c1, c2, FailureBlock(p, convert));
  }

  /** The indices of the calls that returned false. */
  function FailingCalls(calls: seq<Job>, convert: Job -> bool): set<nat> {
    set k: nat | k < |calls| && !convert(calls[k])
  }

  /** There is exactly one failure line per call that returned false. */
  lemma {:induction false} FailureLinesCount(p: Plan, calls: seq<Job>, convert: Job -> bool)
    ensures |FailureLines(p, calls, convert)| == |FailingCalls(calls, convert)|
  {
    if calls != [] {
      var n := |calls| - 1;
      var init := calls[..n];
      FailureLinesCount(p, init, convert);
      var before := FailingCalls(init, convert);
      assert FailingCalls(calls, convert) == before + (if convert(calls[n]) then {} else {n}) by {
        forall k: nat | k < n ensures calls[k] == init[k] { }
      }
      assert n !in before;
    }
  }

  /** A line is a failure line exactly when some call returned false and is described by it. */
  lemma FailureLinesMembers(p: Plan, calls: seq<Job>, convert: Job -> bool)
    ensures forall line :: line in FailureLines(p, calls, convert) <==>
              exists k :: 0 <= k < |calls| && !convert(calls[k]) && line == FailureLine(p, calls[k])
  {
    FlatMapMembers(calls, FailureBlock(p, convert));
  }

  /** A call that returned false has its failure line in the list. */
  lemma FailedCallRecorded(p: Plan, calls: seq<Job>, convert: Job -> bool, k: nat)
    requires k < |calls| && !convert(calls[k])
    ensures FailureLine(p, calls[k]) in FailureLines(p, calls, convert)
  {
    FailureLinesMembers(p, calls, convert);
  }

  /** A file's own calls leave no failure line exactly when all its conversions succeeded. */
  lemma FileFailuresEmptyIff(p: Plan, fileName: string, voiceIds: seq<string>, convert: Job -> bool)
    ensures FailureLines(p, FileJobs(p, fileName, voiceIds), convert) == [] <==> FileConverted(p, fileName, voiceIds, convert)
  {
    var jobs := FileJobs(p, fileName, voiceIds);
    FailureLinesCount(p, jobs, convert);
    if !FileConverted(p, fileName, voiceIds, convert) {
      var j :| 0 <= j < |voiceIds| && !convert(MakeJob(p, fileName, voiceIds[j]));
      assert (j as nat) in FailingCalls(jobs, convert);
    }
    if FailureLines(p, jobs, convert) != [] {
      assert FailingCalls(jobs, convert) != {};
    }
  }

  /** The success list keeps discovery order: the successes of a split list are those of each part. */
  lemma SuccessAppend(p: Plan, f1: seq<string>, f2: seq<string>, voiceIds: seq<string>, convert: Job -> bool)
    ensures SuccessNames(p, f1 + f2, voiceIds, convert) == SuccessNames(p, f1, voiceIds, convert) + SuccessNames(p, f2, voiceIds, convert)
  {
    FilterAppend(f1, f2, Converted(p, voiceIds, convert));
  }

  /**
   * A name is reported as a success exactly when it is a discovered file all
   * of whose conversions succeeded; the list is never longer than the files.
   */
  lemma SuccessMembers(p: Plan, files: seq<string>, voiceIds: seq<string>, convert: Job -> bool)
    ensures |SuccessNames(p, files, voiceIds, convert)| <= |files|
    ensures forall x :: x in SuccessNames(p, files, voiceIds, convert) <==>
              x in files && FileConverted(p, x, voiceIds, convert)
  {
    FilterMembers(files, Converted(p, voiceIds, convert));
  }

  /** With no voice IDs nothing is called, nothing fails and every file is a success. */
  lemma NoVoicesAllSucceed(p: Plan, files: seq<string>, convert: Job -> bool)
    ensures Jobs(p, files, []) == []
    ensures SuccessNames(p, files, [], convert) == files
  {
    FlatMapNone(files, FileBlock(p, []));
    FilterAll(files, Converted(p, [], convert));
  }

  /** The failure lines one file contributes. */
  function FileFailures(p: Plan, voiceIds: seq<string>, convert: Job -> bool): string -> seq<string> {
    fileName => FailureLines(p, FileJobs(p, fileName, voiceIds), convert)
  }

  /** The failure list, grouped by file: the lines of each file in turn, in discovery order. */
  lemma FailureLinesByFile(p: Plan, files: seq<string>, voiceIds: seq<string>, convert: Job -> bool)
    ensures FailureLines(p, Jobs(p, files, voiceIds), convert) == FlatMap(files, FileFailures(p, voiceIds, convert))
  {
    FlatMapFlatMap(files, FileBlock(p, voiceIds), FailureBlock(p, convert), FileFailures(p, voiceIds, convert));
  }

  /** Every file is reported as a success exactly when the failure list is empty. */
  lemma AllSucceededIffNoFailures(p: Plan, files: seq<string>, voiceIds: seq<string>, convert: Job -> bool)
    ensures SuccessNames(p, files, voiceIds, convert) == files
            <==> FailureLines(p, Jobs(p, files, voiceIds), convert) == []
  {
    FailureLinesByFile(p, files, voiceIds, convert);
    FlatMapEmptyIff(files, FileFailures(p, voiceIds, convert));
    FilterKeepsAllIff(files, Converted(p, voiceIds, convert));
    forall i | 0 <= i < |files|
      ensures FileFailures(p, voiceIds, convert)(files[i]) == [] <==> Converted(p, voiceIds, convert)(files[i])
    {
      FileFailuresEmptyIff(p, files[i], voiceIds, convert);
    }
  }

  /**
   * A single failed pair is recorded and costs its file the success list:
   * the failure line naming the file and the voice is in `failed`, and the
   * file's name is not in `success`.
   */
  lemma FailedPairRecorded(p: Plan, files: seq<string>, voiceIds: seq<string>, convert: Job -> bool, i: nat, j: nat)
    requires i < |files| && j < |voiceIds|
    requires !convert(MakeJob(p, files[i], voiceIds[j]))
    ensures files[i] !in SuccessNames(p, files, voiceIds, convert)
    ensures files[i] + " -> " + VoiceName(p.names, voiceIds[j]) in FailureLines(p, Jobs(p, files, voiceIds), convert)
  {
    SuccessMembers(p, files, voiceIds, convert);
    var k := JobsAt(p, files, voiceIds, i, j);
    FailedCallRecorded(p, Jobs(p, files, voiceIds), convert, k);
  }

  /**
   * Output names of one file for two different voice IDs differ whenever
   * the two voices have the same display name.
   */
  lemma OutputFilenameDistinct(fileName: string, voiceName: string, id1: string, id2: string)
    requires id1 != id2
    ensures OutputFilename(fileName, voiceName, id1) != OutputFilename(fileName, voiceName, id2)
  {
    var prefix := Stem(fileName) + "_" + voiceName + "_";
    var o1 := OutputFilename(fileName, voiceName, id1);
    var o2 := OutputFilename(fileName, voiceName, id2);
    assert o1 == prefix + id1 + Suffix(fileName);
    assert o2 == prefix + id2 + Suffix(fileName);
    if |id1| == |id2| {
      assert o1[|prefix|..|prefix| + |id1|] == id1;
      assert o2[|prefix|..|prefix| + |id2|] == id2;
    }
  }

  /**
   * When the display names differ, two voices can share an output name:
   * `a.mp3` to voice "x_y" (ID "z") and to voice "x" (ID "y_z") both write
   * `a_x_y_z.mp3`.
   */
  lemma OutputFilenameCollision()
    ensures OutputFilename("a.mp3", "x_y", "z") == OutputFilename("a.mp3", "x", "y_z") == "a_x_y_z.mp3"
  {
    assert "a.mp3" == "a" + ".mp3";
    SuffixOfDotted("a", ".mp3");
  }

  /**
   * An output file keeps its input's extension: when the input name has a
   * suffix, the output name has the same suffix, and its stem is the input's
   * stem followed by the voice name and ID.
   */
  lemma OutputKeepsSuffix(fileName: string, voiceName: string, voiceId: string)
    requires Suffix(fileName) != ""
    ensures Suffix(OutputFilename(fileName, voiceName, voiceId)) == Suffix(fileName)
    ensures Stem(OutputFilename(fileName, voiceName, voiceId)) == Stem(fileName) + "_" + voiceName + "_" + voiceId
  {
    StemSuffixSplit(fileName);
    var head := Stem(fileName) + "_" + voiceName + "_" + voiceId;
    assert OutputFilename(fileName, voiceName, voiceId) == head + Suffix(fileName);
    SuffixOfDotted(head, Suffix(fileName));
  }
}
