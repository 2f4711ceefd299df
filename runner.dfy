/** The job builder of the evaluation runner (evaluation/runner.py): model ids
    are made path-safe, subtasks already present in earlier result files are
    skipped, and the scheduler command line for the remaining ones is put
    together. Reading the result files and submitting the job are outside
    the model: the keys of each result file are an input and the command is
    the output. */
module Runner {
  import opened Wrappers
  import opened Strings
  import opened Sequences

  // ---------------------------------------------------------------------
  // sanitize_model_id

  /** `model_id.replace("/", "_").replace(":", "_")`. */
  function SanitizeModelId(id: string): (out: string)
    ensures |out| == |id|
    ensures forall i :: 0 <= i < |id| ==> out[i] == (if id[i] == '/' || id[i] == ':' then '_' else id[i])
    ensures forall i :: 0 <= i < |out| ==> out[i] != '/' && out[i] != ':'
  {
    var once := Replace(id, "/", "_");
    ReplaceCharAt(id, '/', '_');
    ReplaceCharAt(once, ':', '_');
    Replace(once, ":", "_")
  }

  /** A sanitised id is left as it is by a second sanitisation. */
  lemma SanitizeIdempotent(id: string)
    ensures SanitizeModelId(SanitizeModelId(id)) == SanitizeModelId(id)
  {
  }

  // ---------------------------------------------------------------------
  // done_subtasks

  /** The result keys of all files, file after file. */
  function Flatten(files: seq<seq<string>>): seq<string> {
    if files == [] then [] else Flatten(files[..|files| - 1]) + files[|files| - 1]
  }

  /** A subtask is done exactly when some result file reports it. */
  lemma {:induction false} FlattenMembers(files: seq<seq<string>>, x: string)
    ensures x in Flatten(files) <==> exists k :: 0 <= k < |files| && x in files[k]
  {
    if files != [] {
      var prefix := files[..|files| - 1];
      FlattenMembers(prefix, x);
      if exists k :: 0 <= k < |files| && x in files[k] {
        var k :| 0 <= k < |files| && x in files[k];
        if k < |prefix| {
          assert prefix[k] == files[k];
        }
      }
      if exists k :: 0 <= k < |prefix| && x in prefix[k] {
        var k :| 0 <= k < |prefix| && x in prefix[k];
        assert files[k] == prefix[k];
      }
    }
  }

  /** The loop extending `done_subtasks` with the keys of every result file. */
  method CollectDoneSubtasks(resultFiles: seq<seq<string>>) returns (done: seq<string>)
    ensures done == Flatten(resultFiles)
  {
    done := [];
    for k := 0 to |resultFiles|
      invariant done == Flatten(resultFiles[..k])
    {
      assert resultFiles[..k + 1][..k] == resultFiles[..k];
      done := done + resultFiles[k];
    }
    assert resultFiles[..|resultFiles|] == resultFiles;
  }

  // ---------------------------------------------------------------------
  // subtasks_to_run

  /** The elements of `xs` that occur in `allowed`, in order. */
  function KeepMembers(xs: seq<string>, allowed: seq<string>): seq<string> {
    if xs == [] then []
    else
      var last := xs[|xs| - 1];
      KeepMembers(xs[..|xs| - 1], allowed) + (if last in allowed then [last] else [])
  }

  /** The elements of `xs` that do not occur in `excluded`, in order. */
  function DropMembers(xs: seq<string>, excluded: seq<string>): seq<string> {
    if xs == [] then []
    else
      var last := xs[|xs| - 1];
      DropMembers(xs[..|xs| - 1], excluded) + (if last in excluded then [] else [last])
  }

  lemma {:induction false} KeepMembersSpec(xs: seq<string>, allowed: seq<string>)
    ensures forall x :: x in KeepMembers(xs, allowed) <==> x in xs && x in allowed
    ensures IsSubsequence(KeepMembers(xs, allowed), xs)
  {
    if xs != [] {
      var prefix := xs[..|xs| - 1];
      var last := xs[|xs| - 1];
      KeepMembersSpec(prefix, allowed);
      assert xs == prefix + [last];
      var kept := KeepMembers(prefix, allowed);
      if last in allowed {
        var out := kept + [last];
        assert out[..|out| - 1] == kept;
      } else {
        assert kept + [] == kept;
        SubsequenceExtend(kept, prefix, last);
      }
    }
  }

  lemma {:induction false} DropMembersSpec(xs: seq<string>, excluded: seq<string>)
    ensures forall x :: x in DropMembers(xs, excluded) <==> x in xs && x !in excluded
    ensures IsSubsequence(DropMembers(xs, excluded), xs)
  {
    if xs != [] {
      var prefix := xs[..|xs| - 1];
      var last := xs[|xs| - 1];
      DropMembersSpec(prefix, excluded);
      assert xs == prefix + [last];
      var kept := DropMembers(prefix, excluded);
      if last !in excluded {
        var out := kept + [last];
        assert out[..|out| - 1] == kept;
      } else {
        assert kept + [] == kept;
        SubsequenceExtend(kept, prefix, last);
      }
    }
  }

  /** Nothing is left when every element is excluded. */
  lemma {:induction false} DropAllMembers(xs: seq<string>, excluded: seq<string>)
    requires forall x :: x in xs ==> x in excluded
    ensures DropMembers(xs, excluded) == []
  {
    if xs != [] {
      DropAllMembers(xs[..|xs| - 1], excluded);
    }
  }

  /** The first comprehension: requested subtasks of this task when any were
      requested, otherwise all of the task's subtasks. */
  function SelectSubtasks(only: seq<string>, taskSubtasks: seq<string>): seq<string> {
    if only != [] then KeepMembers(only, taskSubtasks) else taskSubtasks
  }

  /** The second comprehension: the selected subtasks not done yet. */
  function RemainingSubtasks(selected: seq<string>, done: seq<string>): seq<string> {
    DropMembers(selected, done)
  }

  /** With a request, the selection is exactly the requested subtasks that
      the task has, in requested order; without one it is the whole task. */
  lemma SelectSubtasksSpec(only: seq<string>, taskSubtasks: seq<string>)
    ensures only != [] ==> forall x :: x in SelectSubtasks(only, taskSubtasks) <==> x in only && x in taskSubtasks
    ensures only != [] ==> IsSubsequence(SelectSubtasks(only, taskSubtasks), only)
    ensures only == [] ==> SelectSubtasks(only, taskSubtasks) == taskSubtasks
  {
    KeepMembersSpec(only, taskSubtasks);
  }

  /** The remaining subtasks are the selected ones that no result file
      reports, in selection order. */
  lemma RemainingSubtasksSpec(selected: seq<string>, resultFiles: seq<seq<string>>)
    ensures forall x :: x in RemainingSubtasks(selected, Flatten(resultFiles)) <==>
              x in selected && forall k :: 0 <= k < |resultFiles| ==> x !in resultFiles[k]
    ensures IsSubsequence(RemainingSubtasks(selected, Flatten(resultFiles)), selected)
  {
    DropMembersSpec(selected, Flatten(resultFiles));
    forall x {
      FlattenMembers(resultFiles, x);
    }
  }

  // ---------------------------------------------------------------------
  // Paths and the command line

  /** `os.path.join(a, b)` for POSIX paths. */
  function PathJoin(a: string, b: string): string {
    if b != [] && b[0] == '/' then b
    else if a == [] || a[|a| - 1] == '/' then a + b
    else a + "/" + b
  }

  /** Splitting on a separator character, as `str.split(sep)` does. */
  function Split(s: string, sep: char): (parts: seq<string>)
    ensures |parts| > 0
    decreases |s|
  {
    if sep !in s then [s]
    else
      var i := FirstIndex(s, sep);
      [s[..i]] + Split(s[i + 1..], sep)
  }

  function FirstIndex(s: string, c: char): (i: nat)
    requires c in s
    ensures i < |s| && s[i] == c && c !in s[..i]
  {
    if s[0] == c then 0
    else
      assert c in s[1..] by {
        var k :| 0 <= k < |s| && s[k] == c;
        assert s[1..][k - 1] == c;
      }
      var j := FirstIndex(s[1..], c);
      assert s[..j + 1] == [s[0]] + s[1..][..j];
      j + 1
  }

  /** The harness splits `--tasks` on commas: as long as no subtask name has
      a comma, it gets back exactly the subtasks that were joined. */
  lemma {:induction false} JoinSplit(parts: seq<string>)
    requires parts != []
    requires forall k :: 0 <= k < |parts| ==> ',' !in parts[k]
    ensures Split(Join(",", parts), ',') == parts
  {
    if |parts| == 1 {
      assert Join(",", parts) == parts[0];
    } else {
      var rest := Join(",", parts[1..]);
      var s := Join(",", parts);
      assert s == parts[0] + "," + rest;
      assert s[|parts[0]|] == ',';
      assert s[..|parts[0]|] == parts[0];
      assert ',' in s;
      var i := FirstIndex(s, ',');
      assert i == |parts[0]|;
      assert s[i + 1..] == rest;
      JoinSplit(parts[1..]);
      assert [parts[0]] + parts[1..] == parts;
    }
  }

  /** The environment variable the cache directory is derived from. */
  const CacheVar: string := "XDG_CACHE_HOME"

  /** The fixed directory the job changes into before running the harness. */
  const HarnessDir: string := "cd /dccstor/eval-research/code/lm-evaluation-harness"

  /** A benchmark task: its name, its subtasks and its few-shot count. */
  datatype Task = Task(name: string, subtasks: seq<string>, numFewshot: Option<int>)

  /** The command-line options `run_job` reads. */
  datatype JobArgs = JobArgs(
    onlySubtasks: seq<string>,
    outputDir: string,
    memory: string,
    cores: string,
    reqGpu: string,
    queue: string,
    python: string,
    pathToLmeval: Option<string>,
    limit: Option<int>,
    batchSize: int,
    fpPrecision: int)

  /** Python truthiness of an optional number: neither None nor 0. */
  predicate Truthy(o: Option<int>) {
    o.Some? && o.value != 0
  }

  /** `model_args`: the checkpoint and how it is loaded. */
  function ModelArgs(modelId: string, precision: int): Result<string> {
    var base := "pretrained=" + modelId + ",";
    if precision == 16 then Ok(base + "dtype=float16")
    else if precision == 8 || precision == 4 then Ok(base + "load_in_" + IntToString(precision) + "_bit=True")
    else Err(NotImplemented("current precision " + IntToString(precision) + " is not supported, only [4,8,16]"))
  }

  /** Only the precisions 4, 8 and 16 are accepted; an accepted one names the
      checkpoint first and then a loading option of its own. */
  lemma ModelArgsSpec(modelId: string, precision: int)
    ensures ModelArgs(modelId, precision).Ok? <==> precision in {4, 8, 16}
    ensures ModelArgs(modelId, precision).Err? ==> ModelArgs(modelId, precision).error.NotImplemented?
    ensures ModelArgs(modelId, precision).Ok? ==>
              StartsWith(ModelArgs(modelId, precision).value, "pretrained=" + modelId + ",")
    ensures ModelArgs(modelId, 16) == Ok("pretrained=" + modelId + ",dtype=float16")
    ensures ModelArgs(modelId, 8) == Ok("pretrained=" + modelId + ",load_in_8_bit=True")
    ensures ModelArgs(modelId, 4) == Ok("pretrained=" + modelId + ",load_in_4_bit=True")
    ensures ModelArgs(modelId, 16) != ModelArgs(modelId, 8) && ModelArgs(modelId, 8) != ModelArgs(modelId, 4)
  {
    var base := "pretrained=" + modelId + ",";
    assert IntToString(8) == "8" && IntToString(4) == "4";
    assert base + "dtype=float16" == "pretrained=" + modelId + ",dtype=float16";
    assert base + "load_in_" + "8" + "_bit=True" == "pretrained=" + modelId + ",load_in_8_bit=True";
    assert base + "load_in_" + "4" + "_bit=True" == "pretrained=" + modelId + ",load_in_4_bit=True";
    assert (base + "dtype=float16")[|base|] == 'd';
    assert (base + "load_in_" + "8" + "_bit=True")[|base|] == 'l';
    assert (base + "load_in_" + "8" + "_bit=True")[|base| + 8] == '8';
    assert (base + "load_in_" + "4" + "_bit=True")[|base| + 8] == '4';
    if ModelArgs(modelId, precision).Ok? {
      var v := ModelArgs(modelId, precision).value;
      assert v[..|base|] == base;
    }
  }

  /** The message `os.path.join` raises when `--path_to_lmeval` was not given. */
  const NoneJoinMessage: string := "expected str, bytes or os.PathLike object, not NoneType"

  /** The submitted command before the optional arguments, for the harness
      checkout `lmeval`. */
  function BaseCommand(modelId: string, task: Task, args: JobArgs, lmeval: string, cacheDir: string, outputPath: string,
                       modelArgs: string, remaining: seq<string>): (cmd: seq<string>)
    ensures |cmd| == 28
    ensures cmd[0] == "jbsub" && cmd[2] == task.name + "_" + modelId && cmd[17] == modelArgs
    ensures cmd[15] == PathJoin(lmeval, "lm_eval")
    ensures cmd[20] == "--tasks" && cmd[21] == Join(",", remaining) && cmd[23] == outputPath
    ensures cmd[27] == "--trust_remote_code"
  {
    ["jbsub", "-name", task.name + "_" + modelId, "-mem", args.memory, "-cores", args.cores,
     "-require", args.reqGpu, "-q", args.queue, HarnessDir, "&&", "HF_HOME=" + cacheDir,
     args.python, PathJoin(lmeval, "lm_eval"), "--model_args", modelArgs,
     "--batch_size", IntToString(args.batchSize), "--tasks", Join(",", remaining),
     "--output_path", outputPath, "--cache_requests", "true", "--log_samples", "--trust_remote_code"]
  }

  /** The optional arguments, `--limit` before `--num_fewshot`, each only
      when set to a non-zero value. */
  function OptionalArgs(limit: Option<int>, numFewshot: Option<int>): (opt: seq<string>)
    ensures |opt| == (if Truthy(limit) then 1 else 0) + (if Truthy(numFewshot) then 1 else 0)
    ensures Truthy(limit) ==> opt[0] == "--limit=" + IntToString(limit.value)
    ensures Truthy(numFewshot) ==> opt[|opt| - 1] == "--num_fewshot=" + IntToString(numFewshot.value)
  {
    (if Truthy(limit) then ["--limit=" + IntToString(limit.value)] else []) +
    (if Truthy(numFewshot) then ["--num_fewshot=" + IntToString(numFewshot.value)] else [])
  }

  /** The subtasks `run_job` submits for a model. */
  function Remaining(task: Task, args: JobArgs, resultFiles: seq<seq<string>>): seq<string> {
    RemainingSubtasks(SelectSubtasks(args.onlySubtasks, task.subtasks), Flatten(resultFiles))
  }

  /** `os.path.join(args.output_dir_path, sanitized_model_id)`. */
  function OutputPath(modelId: string, args: JobArgs): string {
    PathJoin(args.outputDir, SanitizeModelId(modelId))
  }

  /** The command `run_job` hands to the scheduler. Building the list joins
      the harness path, which fails when `--path_to_lmeval` was not given. */
  function JobCommand(modelId: string, task: Task, args: JobArgs, cacheHome: string, resultFiles: seq<seq<string>>): Result<seq<string>> {
    var modelArgs :- ModelArgs(modelId, args.fpPrecision);
    var cacheDir := cacheHome + "/hf_cache_" + SanitizeModelId(modelId);
    if args.pathToLmeval.None? then Err(TypeError(NoneJoinMessage))
    else
      Ok(BaseCommand(modelId, task, args, args.pathToLmeval.value, cacheDir, OutputPath(modelId, args), modelArgs,
                     Remaining(task, args, resultFiles)) +
         OptionalArgs(args.limit, task.numFewshot))
  }

  /** The command is built exactly when the precision is supported and the
      harness path is given; an unsupported precision is reported first. */
  lemma JobCommandErrors(modelId: string, task: Task, args: JobArgs, cacheHome: string, resultFiles: seq<seq<string>>)
    ensures JobCommand(modelId, task, args, cacheHome, resultFiles).Ok? <==>
              args.fpPrecision in {4, 8, 16} && args.pathToLmeval.Some?
    ensures args.fpPrecision !in {4, 8, 16} ==>
              JobCommand(modelId, task, args, cacheHome, resultFiles).Err? &&
              JobCommand(modelId, task, args, cacheHome, resultFiles).error.NotImplemented?
    ensures args.fpPrecision in {4, 8, 16} && args.pathToLmeval.None? ==>
              JobCommand(modelId, task, args, cacheHome, resultFiles) == Err(TypeError(NoneJoinMessage))
  {
    ModelArgsSpec(modelId, args.fpPrecision);
  }

  /** The layout of the command: the job is named after the task and the
      model, the harness runs the remaining subtasks and can split them back
      from `--tasks`, results go to the sanitised output directory, and the
      optional arguments come last. */
  lemma JobCommandLayout(modelId: string, task: Task, args: JobArgs, cacheHome: string, resultFiles: seq<seq<string>>)
    requires JobCommand(modelId, task, args, cacheHome, resultFiles).Ok?
    ensures var cmd := JobCommand(modelId, task, args, cacheHome, resultFiles).value;
            && |cmd| == 28 + (if Truthy(args.limit) then 1 else 0) + (if Truthy(task.numFewshot) then 1 else 0)
            && cmd[0] == "jbsub" && cmd[2] == task.name + "_" + modelId
            && cmd[15] == PathJoin(args.pathToLmeval.value, "lm_eval")
            && cmd[17] == ModelArgs(modelId, args.fpPrecision).value
            && cmd[20] == "--tasks" && cmd[21] == Join(",", Remaining(task, args, resultFiles))
            && cmd[23] == OutputPath(modelId, args)
            && cmd[27] == "--trust_remote_code"
            && (Truthy(args.limit) ==> cmd[28] == "--limit=" + IntToString(args.limit.value))
            && (Truthy(task.numFewshot) ==> cmd[|cmd| - 1] == "--num_fewshot=" + IntToString(task.numFewshot.value))
    ensures Remaining(task, args, resultFiles) != [] &&
            (forall k :: 0 <= k < |Remaining(task, args, resultFiles)| ==> ',' !in Remaining(task, args, resultFiles)[k]) ==>
              Split(JobCommand(modelId, task, args, cacheHome, resultFiles).value[21], ',') == Remaining(task, args, resultFiles)
  {
    var remaining := Remaining(task, args, resultFiles);
    var modelArgs := ModelArgs(modelId, args.fpPrecision).value;
    var base := BaseCommand(modelId, task, args, args.pathToLmeval.value, cacheHome + "/hf_cache_" + SanitizeModelId(modelId),
                            OutputPath(modelId, args), modelArgs, remaining);
    var opt := OptionalArgs(args.limit, task.numFewshot);
    var cmd := JobCommand(modelId, task, args, cacheHome, resultFiles).value;
    assert cmd == base + opt;
    assert cmd[21] == base[21];
    if remaining != [] && forall k :: 0 <= k < |remaining| ==> ',' !in remaining[k] {
      JoinSplit(remaining);
    }
  }


  /** A sanitised output directory adds exactly one path component below the
      output root. */
  lemma OutputPathSpec(modelId: string, args: JobArgs)
    requires args.outputDir != [] && args.outputDir[|args.outputDir| - 1] != '/'
    ensures OutputPath(modelId, args) == args.outputDir + "/" + SanitizeModelId(modelId)
  {
    var s := SanitizeModelId(modelId);
    if s != [] {
      assert s[0] != '/';
    }
  }

  /** `run_job` up to the submission: the cache directory needs the
      environment variable, nothing is built when no subtask remains, an
      unsupported precision raises, a missing harness path raises when the
      command list is built, and otherwise the command is returned.
      `model_args` and the command are grown as the source grows them. */
  method RunJob(modelId: string, task: Task, args: JobArgs, env: map<string, string>, resultFiles: seq<seq<string>>)
    returns (r: Result<Option<seq<string>>>)
    ensures CacheVar !in env ==> r == Err(KeyError(CacheVar))
    ensures CacheVar in env && Remaining(task, args, resultFiles) == [] ==> r == Ok(None)
    ensures CacheVar in env && Remaining(task, args, resultFiles) != [] ==>
              match JobCommand(modelId, task, args, env[CacheVar], resultFiles)
              case Ok(cmd) => r == Ok(Some(cmd))
              case Err(e) => r == Err(e)
  {
    var sanitized := SanitizeModelId(modelId);
    if CacheVar !in env {
      return Err(KeyError(CacheVar));
    }
    var cacheDir := env[CacheVar] + "/hf_cache_" + sanitized;
    var outputPath := PathJoin(args.outputDir, sanitized);

    var done := CollectDoneSubtasks(resultFiles);
    var selected := SelectSubtasks(args.onlySubtasks, task.subtasks);
    var remaining := RemainingSubtasks(selected, done);
    if remaining == [] {
      return Ok(None);
    }

    var modelArgs := "pretrained=" + modelId + ",";
    if args.fpPrecision == 16 {
      modelArgs := modelArgs + "dtype=float16";
    } else if args.fpPrecision == 8 || args.fpPrecision == 4 {
      modelArgs := modelArgs + "load_in_" + IntToString(args.fpPrecision) + "_bit=True";
    } else {
      return Err(NotImplemented("current precision " + IntToString(args.fpPrecision) + " is not supported, only [4,8,16]"));
    }
    assert Ok(modelArgs) == ModelArgs(modelId, args.fpPrecision);

    if args.pathToLmeval.None? {
      return Err(TypeError(NoneJoinMessage));
    }
    var lmeval := args.pathToLmeval.value;
    var command := BaseCommand(modelId, task, args, lmeval, cacheDir, outputPath, modelArgs, remaining);
    if Truthy(args.limit) {
      command := command + ["--limit=" + IntToString(args.limit.value)];
    }
    if Truthy(task.numFewshot) {
      command := command + ["--num_fewshot=" + IntToString(task.numFewshot.value)];
    }
    assert command == BaseCommand(modelId, task, args, lmeval, cacheDir, outputPath, modelArgs, remaining) +
                      OptionalArgs(args.limit, task.numFewshot);
    return Ok(Some(command));
  }

  /** When every subtask of the task is reported by some result file, no job
      is built. */
  lemma AllDoneNothingToRun(task: Task, args: JobArgs, resultFiles: seq<seq<string>>)
    requires args.onlySubtasks == []
    requires forall x :: x in task.subtasks ==> exists k :: 0 <= k < |resultFiles| && x in resultFiles[k]
    ensures Remaining(task, args, resultFiles) == []
  {
    forall x | x in task.subtasks
      ensures x in Flatten(resultFiles)
    {
      FlattenMembers(resultFiles, x);
    }
    DropAllMembers(task.subtasks, Flatten(resultFiles));
  }
}
