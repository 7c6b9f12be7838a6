/**
 * The RalphLoop controller: one Rector pass, then up to ten rounds of
 * PHPStan analysis, Pest tests and, while either still complains, a repair
 * proposed by the AI model and written back to the target.
 *
 * The file system is a map from file paths to contents plus a set of
 * directory paths. Every external process is an input: Rector's exit code
 * and rewrites, the decoded PHPStan report and the Pest run of each
 * iteration, and the AI reply to each prompt.
 */
module RalphLoopEngine {
  import opened Wrappers
  import opened PhpValues
  import opened RalphReports
  import opened RalphPrompt
  import opened RalphFix
  import opened PathOrder

  /** MAX_ITERATIONS: the loop gives up after this many rounds. */
  const MaxIterations: nat := 10

  /** One entry of the audit trail. */
  datatype IterationRecord = IterationRecord(
    iteration: nat,
    rectorApplied: bool,
    phpstanErrors: nat,
    pestFailures: nat,
    aiFixApplied: bool)

  /** The array execute returns. */
  datatype LoopResult = LoopResult(
    success: bool,
    iterations: nat,
    finalErrors: nat,
    finalTestFailures: nat,
    history: seq<IterationRecord>)

  /** The exceptions execute and the constructor throw. */
  datatype LoopError = InvalidArgument(message: string) | Runtime(message: string)

  /** A Rector process: its exit code and the files it rewrites when not in dry-run mode. */
  datatype RectorRun = RectorRun(exitCode: int, rewritten: map<string, string>)

  /**
   * The collaborators: Rector's run, and per iteration the decoded PHPStan
   * output (None when empty or not JSON), the Pest run, and the AI reply to
   * the prompt of that iteration.
   */
  datatype Tools = Tools(
    rector: RectorRun,
    phpstan: nat -> Option<Value>,
    pest: nat -> PestRun,
    ai: (nat, string) -> AiResponse)

  function TargetMissingMessage(target: string): string {
    "Target path does not exist: " + target
  }

  const WriteUnsupportedMessage :=
    "Writing to directories with multiple files is not yet supported. Please target individual files."

  function BinaryMissingMessage(name: string, path: string): string {
    "Required binary not found: " + name + " at " + path + ". Run 'composer install' first."
  }

  // ---------------------------------------------------------------------
  // The file system
  // ---------------------------------------------------------------------

  /** file_exists: a file or a directory. */
  predicate PathExists(files: map<string, string>, dirs: set<string>, path: string) {
    path in files || path in dirs
  }

  /** A name the pattern *.php matches: no slash, no leading dot, ending in .php. */
  predicate IsPhpName(name: string) {
    |name| >= 4 && name[0] != '.' && name[|name| - 4..] == ".php"
    && forall k :: 0 <= k < |name| ==> name[k] != '/'
  }

  /** The path is dir + "/" + a *.php name. */
  predicate IsPhpEntry(dir: string, p: string) {
    |dir| + 1 < |p| && p[..|dir| + 1] == dir + "/" && IsPhpName(p[|dir| + 1..])
  }

  /** The entries glob finds for the pattern dir + "/" + "*.php": files and subdirectories alike. */
  function PhpFilesIn(files: map<string, string>, dirs: set<string>, dir: string): (r: set<string>)
    ensures forall p :: p in r <==> (p in files || p in dirs) && IsPhpEntry(dir, p)
  {
    set p | p in files.Keys + dirs && IsPhpEntry(dir, p)
  }

  /** file_get_contents of a listed entry: a file's content, or "" for a directory. */
  function EntryContent(files: map<string, string>, p: string): string {
    if p in files then files[p] else ""
  }

  /** The block readTarget adds for one listed entry. */
  function FileBlock(files: map<string, string>, p: string): string {
    "// FILE: " + p + "\n" + EntryContent(files, p) + "\n\n"
  }

  function Blocks(files: map<string, string>): string -> string {
    p => FileBlock(files, p)
  }

  /** What readTarget returns: a file's content, or a directory's *.php entries in ascending order, one block each. */
  function TargetContent(files: map<string, string>, dirs: set<string>, target: string): string {
    if target in files then files[target]
    else Joined(Map(Blocks(files), Sorted(PhpFilesIn(files, dirs, target))))
  }

  /** What writeTarget does: overwrite a file, refuse anything else. */
  function Written(files: map<string, string>, target: string, code: string): Result<map<string, string>, LoopError> {
    if target in files then Success(files[target := code]) else Failure(Runtime(WriteUnsupportedMessage))
  }

  /** A file target reads back exactly what was written; writing to any other target fails and changes nothing. */
  lemma WriteThenRead(files: map<string, string>, dirs: set<string>, target: string, code: string)
    ensures target in files ==> (Written(files, target, code).Success?
      && TargetContent(Written(files, target, code).value, dirs, target) == code
      && forall p :: p != target ==> (p in Written(files, target, code).value <==> p in files))
    ensures target !in files ==> Written(files, target, code) == Failure(Runtime(WriteUnsupportedMessage))
  {
  }

  /**
   * Every *.php entry directly inside a directory target appears in what is
   * read, as its own block: a file with its content, a subdirectory with none.
   */
  lemma DirectoryReadListsFile(files: map<string, string>, dirs: set<string>, dir: string, p: string) returns (pos: nat)
    requires dir !in files && (p in files || p in dirs) && IsPhpEntry(dir, p)
    ensures var text := TargetContent(files, dirs, dir);
      var block := "// FILE: " + p + "\n" + EntryContent(files, p) + "\n\n";
      pos + |block| <= |text| && text[pos..pos + |block|] == block
  {
    var paths := Sorted(PhpFilesIn(files, dirs, dir));
    assert p in paths;
    assert TargetContent(files, dirs, dir) == Joined(Map(Blocks(files), paths));
    pos := BlockListed(files, paths, p);
  }

  lemma BlockListed(files: map<string, string>, paths: seq<string>, p: string) returns (pos: nat)
    requires p in paths
    ensures var text := Joined(Map(Blocks(files), paths));
      var block := "// FILE: " + p + "\n" + EntryContent(files, p) + "\n\n";
      pos + |block| <= |text| && text[pos..pos + |block|] == block
  {
    var k :| 0 <= k < |paths| && paths[k] == p;
    var blocks := Map(Blocks(files), paths);
    assert blocks[k] == FileBlock(files, p);
    pos := JoinedHas(blocks, k);
  }

  /** A directory reads as the empty string exactly when it holds no *.php file or subdirectory. */
  lemma EmptyDirectoryRead(files: map<string, string>, dirs: set<string>, dir: string)
    requires dir !in files
    ensures TargetContent(files, dirs, dir) == "" <==> forall p :: p in files || p in dirs ==> !IsPhpEntry(dir, p)
  {
    var paths := Sorted(PhpFilesIn(files, dirs, dir));
    if forall p :: p in files || p in dirs ==> !IsPhpEntry(dir, p) {
      assert PhpFilesIn(files, dirs, dir) == {};
    } else {
      var p :| (p in files || p in dirs) && IsPhpEntry(dir, p);
      var pos := DirectoryReadListsFile(files, dirs, dir, p);
    }
  }

  // ---------------------------------------------------------------------
  // The run, as a function of its inputs
  // ---------------------------------------------------------------------

  /** runRector's verdict: exit code 1 means Rector changed (or would change) something. */
  predicate RectorApplied(rector: RectorRun) {
    rector.exitCode == 1
  }

  /** The files after the Rector pass: rewritten only outside dry-run mode. */
  function AfterRector(files: map<string, string>, dryRun: bool, rector: RectorRun): map<string, string> {
    if dryRun then files else files + rector.rewritten
  }

  function ErrorsAt(tools: Tools, it: nat): seq<PhpStanError> {
    PhpStanErrors(tools.phpstan(it))
  }

  function FailuresAt(tools: Tools, it: nat): seq<PestFailure> {
    PestFailures(tools.pest(it))
  }

  /** The gold standard: no PHPStan errors and no Pest failures. */
  predicate Gold(tools: Tools, it: nat) {
    |ErrorsAt(tools, it)| == 0 && |FailuresAt(tools, it)| == 0
  }

  /** The PHPStan error count and the Pest failure count of one iteration. */
  datatype Counts = Counts(errors: nat, failures: nat)

  /** The counts of each iteration. */
  type Report = nat -> Counts

  /** The counts the tools report in each iteration. */
  function ReportOf(tools: Tools): Report {
    (it: nat) => Counts(|ErrorsAt(tools, it)|, |FailuresAt(tools, it)|)
  }

  /** The gold standard, on the counts. */
  predicate Clean(counts: Counts) {
    counts.errors == 0 && counts.failures == 0
  }

  /** The record of iteration it, with these counts, before any AI fix. */
  function Record(counts: Counts, rectorApplied: bool, it: nat): IterationRecord {
    IterationRecord(it, it == 1 && rectorApplied, counts.errors, counts.failures, false)
  }

  /**
   * The AI correction step of iteration it: whether a fix was applied and
   * the files afterwards, or the exception writeTarget threw.
   */
  function RepairOutcome(files: map<string, string>, dirs: set<string>, target: string, dryRun: bool, tools: Tools, it: nat,
                         errors: seq<PhpStanError>, failures: seq<PestFailure>): Result<(bool, map<string, string>), LoopError>
  {
    if dryRun then Success((false, files))
    else
      var current := TargetContent(files, dirs, target);
      var fix := ExtractFix(tools.ai(it, PromptText(current, errors, failures)));
      if fix.Some? && fix.value != current then
        (match Written(files, target, fix.value)
         case Success(next) => Success((true, next))
         case Failure(e) => Failure(e))
      else Success((false, files))
  }

  /** An AI correction step: given the files and the iteration, whether a fix was applied and the files after it. */
  type Repairer = (map<string, string>, nat) -> Result<(bool, map<string, string>), LoopError>

  /** The correction step execute performs for this target and mode. */
  function RepairStep(dirs: set<string>, target: string, dryRun: bool, tools: Tools): Repairer {
    (files: map<string, string>, it: nat) =>
      RepairOutcome(files, dirs, target, dryRun, tools, it, ErrorsAt(tools, it), FailuresAt(tools, it))
  }

  /**
   * The loop after `done` iterations with audit trail `history`, with the
   * counts of `report` and correcting with `repair`: the result and the
   * final files.
   */
  function Loop(files: map<string, string>, report: Report, repair: Repairer, rectorApplied: bool,
                done: nat, history: seq<IterationRecord>): (Result<LoopResult, LoopError>, map<string, string>)
    requires done < MaxIterations
    decreases MaxIterations - done
  {
    var it := done + 1;
    var counts := report(it);
    var record := Record(counts, rectorApplied, it);
    if Clean(counts) then (Success(LoopResult(true, it, 0, 0, history + [record])), files)
    else
      match repair(files, it)
      case Failure(e) => (Failure(e), files)
      case Success(step) =>
        var h := history + [record.(aiFixApplied := step.0)];
        if it == MaxIterations then
          (Success(LoopResult(false, it, counts.errors, counts.failures, h)), step.1)
        else Loop(step.1, report, repair, rectorApplied, it, h)
  }

  /** One round of Loop that neither succeeds nor fails. */
  lemma LoopUnfold(files: map<string, string>, report: Report, repair: Repairer, rectorApplied: bool,
                   done: nat, history: seq<IterationRecord>, applied: bool, next: map<string, string>)
    requires done < MaxIterations && !Clean(report(done + 1))
    requires repair(files, done + 1) == Success((applied, next))
    ensures var record := Record(report(done + 1), rectorApplied, done + 1);
      var h := history + [record.(aiFixApplied := applied)];
      var outcome := Loop(files, report, repair, rectorApplied, done, history);
      (done + 1 < MaxIterations ==> outcome == Loop(next, report, repair, rectorApplied, done + 1, h))
      && (done + 1 == MaxIterations ==>
            outcome == (Success(LoopResult(false, done + 1, record.phpstanErrors, record.pestFailures, h)), next))
  {
  }

  /** A round of Loop that reaches the gold standard, or whose correction fails, ends the run. */
  lemma LoopStops(files: map<string, string>, report: Report, repair: Repairer, rectorApplied: bool,
                  done: nat, history: seq<IterationRecord>)
    requires done < MaxIterations
    ensures var outcome := Loop(files, report, repair, rectorApplied, done, history);
      Clean(report(done + 1)) ==>
        outcome == (Success(LoopResult(true, done + 1, 0, 0, history + [Record(report(done + 1), rectorApplied, done + 1)])), files)
    ensures var outcome := Loop(files, report, repair, rectorApplied, done, history);
      !Clean(report(done + 1)) && repair(files, done + 1).Failure? ==>
        outcome == (Failure(repair(files, done + 1).error), files)
  {
  }

  /** execute: the result (or exception) and the files afterwards. */
  function Run(files: map<string, string>, dirs: set<string>, target: string, dryRun: bool, tools: Tools)
    : (Result<LoopResult, LoopError>, map<string, string>)
  {
    if !PathExists(files, dirs, target) then (Failure(InvalidArgument(TargetMissingMessage(target))), files)
    else Loop(AfterRector(files, dryRun, tools.rector), ReportOf(tools), RepairStep(dirs, target, dryRun, tools), RectorApplied(tools.rector), 0, [])
  }

  // ---------------------------------------------------------------------
  // The controller
  // ---------------------------------------------------------------------

  function RootOf(projectRoot: Option<string>, cwd: string): string {
    if projectRoot.Some? then projectRoot.value else cwd
  }

  function BinaryPath(root: string, name: string): string {
    root + "/vendor/bin/" + name
  }

  /** The binaries validateBinaries checks, in its order. */
  function Binaries(root: string): seq<(string, string)> {
    [("rector", BinaryPath(root, "rector")), ("phpstan", BinaryPath(root, "phpstan")), ("pest", BinaryPath(root, "pest"))]
  }

  /** The exception for the first binary that does not exist, if any. */
  function MissingBinary(files: map<string, string>, dirs: set<string>, binaries: seq<(string, string)>): (r: Option<LoopError>)
    ensures r.None? <==> forall i :: 0 <= i < |binaries| ==> PathExists(files, dirs, binaries[i].1)
    decreases |binaries|
  {
    if binaries == [] then None
    else if !PathExists(files, dirs, binaries[0].1) then Some(Runtime(BinaryMissingMessage(binaries[0].0, binaries[0].1)))
    else MissingBinary(files, dirs, binaries[1..])
  }

  /** The reported binary is the first missing one, named with its path. */
  lemma {:induction false} FirstMissingBinary(files: map<string, string>, dirs: set<string>, binaries: seq<(string, string)>)
    returns (i: nat)
    requires MissingBinary(files, dirs, binaries).Some?
    ensures i < |binaries| && !PathExists(files, dirs, binaries[i].1)
    ensures forall j :: 0 <= j < i ==> PathExists(files, dirs, binaries[j].1)
    ensures MissingBinary(files, dirs, binaries) == Some(Runtime(BinaryMissingMessage(binaries[i].0, binaries[i].1)))
    decreases |binaries|
  {
    if !PathExists(files, dirs, binaries[0].1) {
      i := 0;
    } else {
      var j := FirstMissingBinary(files, dirs, binaries[1..]);
      i := j + 1;
    }
  }

  class RalphLoop {
    var files: map<string, string>
    const dirs: set<string>
    const projectRoot: string
    const rectorBinary: string := BinaryPath(projectRoot, "rector")
    const phpstanBinary: string := BinaryPath(projectRoot, "phpstan")
    const pestBinary: string := BinaryPath(projectRoot, "pest")

    /** The constructor up to validateBinaries: the root defaults to the working directory. */
    constructor (projectRoot: Option<string>, cwd: string, files: map<string, string>, dirs: set<string>)
      ensures this.projectRoot == RootOf(projectRoot, cwd)
      ensures rectorBinary == BinaryPath(this.projectRoot, "rector")
      ensures phpstanBinary == BinaryPath(this.projectRoot, "phpstan")
      ensures pestBinary == BinaryPath(this.projectRoot, "pest")
      ensures this.files == files && this.dirs == dirs
    {
      this.projectRoot := RootOf(projectRoot, cwd);
      this.files := files;
      this.dirs := dirs;
    }

    /** new RalphLoop(...): the constructor followed by validateBinaries. */
    static method Create(projectRoot: Option<string>, cwd: string, files: map<string, string>, dirs: set<string>)
      returns (r: Result<RalphLoop, LoopError>)
      ensures var missing := MissingBinary(files, dirs, Binaries(RootOf(projectRoot, cwd)));
        (r.Failure? <==> missing.Some?) && (r.Failure? ==> r.error == missing.value)
      ensures r.Success? ==> (fresh(r.value) && r.value.files == files && r.value.dirs == dirs
        && r.value.projectRoot == RootOf(projectRoot, cwd))
    {
      var loop := new RalphLoop(projectRoot, cwd, files, dirs);
      var missing := loop.ValidateBinaries();
      if missing.Some? {
        return Failure(missing.value);
      }
      return Success(loop);
    }

    /** validateBinaries: the exception for the first missing binary, if any. */
    method ValidateBinaries() returns (missing: Option<LoopError>)
      ensures missing == MissingBinary(files, dirs, Binaries(projectRoot))
    {
      var binaries := [("rector", rectorBinary), ("phpstan", phpstanBinary), ("pest", pestBinary)];
      assert binaries == Binaries(projectRoot);
      for i := 0 to |binaries|
        invariant MissingBinary(files, dirs, binaries) == MissingBinary(files, dirs, binaries[i..])
      {
        var (name, path) := binaries[i];
        if !(path in files || path in dirs) {
          return Some(Runtime(BinaryMissingMessage(name, path)));
        }
        assert binaries[i..][1..] == binaries[i + 1..];
      }
      return None;
    }

    /** readTarget. */
    method ReadTarget(target: string) returns (code: string)
      ensures code == TargetContent(files, dirs, target)
    {
      if target in files {
        return files[target];
      }
      var paths := Sorted(PhpFilesIn(files, dirs, target));
      ghost var blocks := Map(Blocks(files), paths);
      code := "";
      for i := 0 to |paths|
        invariant code == Joined(blocks[..i])
      {
        JoinedStep(blocks, i);
        assert blocks[i] == FileBlock(files, paths[i]);
        var content := if paths[i] in files then files[paths[i]] else "";
        code := code + ("// FILE: " + paths[i] + "\n" + content + "\n\n");
      }
      assert blocks[..|paths|] == blocks;
    }

    /** writeTarget: None when the file was overwritten, else the exception. */
    method WriteTarget(target: string, code: string) returns (err: Option<LoopError>)
      modifies this
      ensures Written(old(files), target, code) == if err.None? then Success(files) else Failure(err.value)
      ensures err.Some? ==> files == old(files)
    {
      if target in files {
        files := files[target := code];
        return None;
      }
      return Some(Runtime(WriteUnsupportedMessage));
    }

    /** runRector: outside dry-run mode Rector's rewrites land in the files. */
    method RunRector(dryRun: bool, rector: RectorRun) returns (applied: bool)
      modifies this
      ensures applied == RectorApplied(rector)
      ensures files == AfterRector(old(files), dryRun, rector)
    {
      if !dryRun {
        files := files + rector.rewritten;
      }
      applied := rector.exitCode == 1;
    }

    /** The AI CORRECTION block of one iteration. */
    method Repair(target: string, dryRun: bool, tools: Tools, it: nat,
                  errors: seq<PhpStanError>, failures: seq<PestFailure>) returns (r: Result<bool, LoopError>)
      modifies this
      ensures RepairOutcome(old(files), dirs, target, dryRun, tools, it, errors, failures)
        == if r.Success? then Success((r.value, files)) else Failure(r.error)
      ensures r.Failure? ==> files == old(files)
    {
      if dryRun {
        return Success(false);
      }
      var current := ReadTarget(target);
      var prompt := GenerateRefactorPrompt(current, errors, failures);
      var fixed := ExtractFix(tools.ai(it, prompt));
      if fixed.Some? && fixed.value != current {
        var err := WriteTarget(target, fixed.value);
        if err.Some? {
          return Failure(err.value);
        }
        return Success(true);
      }
      return Success(false);
    }

    /** execute: the result and the files afterwards are those Run describes. */
    method Execute(target: string, dryRun: bool, tools: Tools) returns (r: Result<LoopResult, LoopError>)
      modifies this
      ensures (r, files) == Run(old(files), dirs, target, dryRun, tools)
    {
      if !(target in files || target in dirs) {
        return Failure(InvalidArgument(TargetMissingMessage(target)));
      }
      var rectorApplied := RunRector(dryRun, tools.rector);
      ghost var repair := RepairStep(dirs, target, dryRun, tools);
      ghost var report := ReportOf(tools);
      ghost var outcome := Loop(files, report, repair, rectorApplied, 0, []);
      var history: seq<IterationRecord> := [];
      var iteration := 0;
      var errorCount: nat := 0;
      var failureCount: nat := 0;
      while iteration < MaxIterations
        invariant iteration <= MaxIterations
        invariant iteration < MaxIterations ==> Loop(files, report, repair, rectorApplied, iteration, history) == outcome
        invariant iteration == MaxIterations ==>
          outcome == (Success(LoopResult(false, iteration, errorCount, failureCount, history)), files)
        decreases MaxIterations - iteration
      {
        var stopped, record := Iteration(target, dryRun, tools, rectorApplied, iteration, history);
        iteration := iteration + 1;
        errorCount := record.phpstanErrors;
        failureCount := record.pestFailures;
        if stopped.Some? {
          return stopped.value;
        }
        history := history + [record];
      }
      r := Success(LoopResult(false, iteration, errorCount, failureCount, history));
    }

    /**
     * One pass of the loop body after `done` iterations: the value execute
     * returns (or the exception it throws) when this iteration ends the run,
     * and the iteration's record.
     */
    method Iteration(target: string, dryRun: bool, tools: Tools, rectorApplied: bool, done: nat, history: seq<IterationRecord>)
      returns (stopped: Option<Result<LoopResult, LoopError>>, record: IterationRecord)
      requires done < MaxIterations
      modifies this
      ensures var repair := RepairStep(dirs, target, dryRun, tools);
        stopped.Some? ==> (stopped.value, files) == Loop(old(files), ReportOf(tools), repair, rectorApplied, done, history)
      ensures var repair := RepairStep(dirs, target, dryRun, tools);
        stopped.None? ==>
        var outcome := Loop(old(files), ReportOf(tools), repair, rectorApplied, done, history);
        (done + 1 < MaxIterations ==> outcome == Loop(files, ReportOf(tools), repair, rectorApplied, done + 1, history + [record]))
        && (done + 1 == MaxIterations ==>
              outcome == (Success(LoopResult(false, done + 1, record.phpstanErrors, record.pestFailures, history + [record])), files))
    {
      var it := done + 1;
      var errors := RunPhpStan(tools.phpstan(it));
      var failures := RunPest(tools.pest(it));
      record := IterationRecord(it, it == 1 && rectorApplied, |errors|, |failures|, false);
      assert errors == ErrorsAt(tools, it) && failures == FailuresAt(tools, it);
      ghost var report := ReportOf(tools);
      assert report(it) == Counts(|errors|, |failures|);
      assert record == Record(report(it), rectorApplied, it);
      ghost var repair := RepairStep(dirs, target, dryRun, tools);
      LoopStops(files, report, repair, rectorApplied, done, history);
      if |errors| == 0 && |failures| == 0 {
        return Some(Success(LoopResult(true, it, 0, 0, history + [record]))), record;
      }
      ghost var before := files;
      var applied := Repair(target, dryRun, tools, it, errors, failures);
      assert repair(before, it) == RepairOutcome(before, dirs, target, dryRun, tools, it, errors, failures);
      if applied.Failure? {
        return Some(Failure(applied.error)), record;
      }
      LoopUnfold(before, report, repair, rectorApplied, done, history, applied.value, files);
      record := record.(aiFixApplied := applied.value);
      stopped := None;
    }
  }
}
