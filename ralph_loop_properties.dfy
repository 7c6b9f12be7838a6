/**
 * What execute guarantees, proved about the run function Run that the
 * RalphLoop.Execute method is shown to compute: the loop bound and audit
 * trail, the verdict, when exceptions escape, what dry-run mode leaves
 * alone, and which files a live run may change.
 */
module RalphLoopProperties {
  import opened Wrappers
  import opened RalphReports
  import opened RalphFix
  import opened RalphPrompt
  import opened RalphLoopEngine

  // ---------------------------------------------------------------------
  // One AI correction step
  // ---------------------------------------------------------------------

  /**
   * The correction step applies a fix exactly when one was extracted and it
   * differs from the current code; it then overwrites the file target, which
   * reads back as the fix, and leaves every other file alone. Only a write
   * to a target that is not a file fails.
   */
  lemma RepairEffect(files: map<string, string>, dirs: set<string>, target: string, dryRun: bool, tools: Tools, it: nat,
                     errors: seq<PhpStanError>, failures: seq<PestFailure>)
    ensures var step := RepairOutcome(files, dirs, target, dryRun, tools, it, errors, failures);
      var current := TargetContent(files, dirs, target);
      var fix := ExtractFix(tools.ai(it, PromptText(current, errors, failures)));
      var wanted := !dryRun && fix.Some? && fix.value != current;
      (step.Failure? <==> wanted && target !in files)
      && (step.Failure? ==> step.error == Runtime(WriteUnsupportedMessage))
      && (step.Success? ==> (step.value.0 <==> wanted))
      && (step.Success? && !step.value.0 ==> step.value.1 == files)
      && (step.Success? && step.value.0 ==>
            step.value.1 == files[target := fix.value] && TargetContent(step.value.1, dirs, target) == fix.value)
  {
    var step := RepairOutcome(files, dirs, target, dryRun, tools, it, errors, failures);
    if !dryRun {
      var current := TargetContent(files, dirs, target);
      var fix := ExtractFix(tools.ai(it, PromptText(current, errors, failures)));
      if fix.Some? && fix.value != current {
        WriteThenRead(files, dirs, target, fix.value);
      }
    }
  }

  /** The step's effect on the files, as used by the loop lemmas. */
  lemma RepairOnFiles(files: map<string, string>, dirs: set<string>, target: string, dryRun: bool, tools: Tools, it: nat)
    ensures var step := RepairOutcome(files, dirs, target, dryRun, tools, it, ErrorsAt(tools, it), FailuresAt(tools, it));
      (step.Failure? ==> !dryRun && target !in files && step.error == Runtime(WriteUnsupportedMessage))
      && (step.Success? && step.value.0 ==> !dryRun && target in files)
      && (step.Success? ==> (step.value.1.Keys == files.Keys
            && forall p :: p in files && p != target ==> step.value.1[p] == files[p]))
      && (step.Success? && target !in files ==> step.value.1 == files)
      && (dryRun ==> step == Success((false, files)))
  {
    RepairEffect(files, dirs, target, dryRun, tools, it, ErrorsAt(tools, it), FailuresAt(tools, it));
  }

  /** The step execute performs satisfies each property the loop lemmas ask of a correction step. */
  lemma StepProperties(dirs: set<string>, target: string, dryRun: bool, tools: Tools)
    ensures FailsOnlyOnNonFile(RepairStep(dirs, target, dryRun, tools), target)
    ensures ChangesOnlyTarget(RepairStep(dirs, target, dryRun, tools), target)
    ensures AppliesOnlyIf(RepairStep(dirs, target, dryRun, tools), !dryRun)
    ensures dryRun ==> Idle(RepairStep(dirs, target, dryRun, tools))
  {
    var repair := RepairStep(dirs, target, dryRun, tools);
    forall f: map<string, string>, i: nat
      ensures (repair(f, i).Failure? ==> target !in f && repair(f, i).error == Runtime(WriteUnsupportedMessage))
      ensures (repair(f, i).Success? ==> Unmoved(f, repair(f, i).value.1, target))
      ensures (repair(f, i).Success? && repair(f, i).value.0 ==> !dryRun)
      ensures (dryRun ==> repair(f, i) == Success((false, f)))
    {
      RepairOnFiles(f, dirs, target, dryRun, tools, i);
    }
  }

  // ---------------------------------------------------------------------
  // The loop, for any correction step
  // ---------------------------------------------------------------------

  /** after holds the same paths as before, and the same content at each path but target. */
  predicate Unmoved(before: map<string, string>, after: map<string, string>, target: string) {
    after.Keys == before.Keys && forall p :: p in before && p != target ==> after[p] == before[p]
  }

  /** The step fails only on a target that is not a file, with writeTarget's exception. */
  ghost predicate FailsOnlyOnNonFile(repair: Repairer, target: string) {
    forall f: map<string, string>, i: nat :: repair(f, i).Failure? ==>
      target !in f && repair(f, i).error == Runtime(WriteUnsupportedMessage)
  }

  /** A successful step changes nothing but target. */
  ghost predicate ChangesOnlyTarget(repair: Repairer, target: string) {
    forall f: map<string, string>, i: nat :: repair(f, i).Success? ==> Unmoved(f, repair(f, i).value.1, target)
  }

  /** The step reports an applied fix only when mayApply holds. */
  ghost predicate AppliesOnlyIf(repair: Repairer, mayApply: bool) {
    forall f: map<string, string>, i: nat :: repair(f, i).Success? && repair(f, i).value.0 ==> mayApply
  }

  /** The step never fails, never applies a fix and never changes a file. */
  ghost predicate Idle(repair: Repairer) {
    forall f: map<string, string>, i: nat :: repair(f, i) == Success((false, f))
  }

  /** The loop stops within MAX_ITERATIONS and its trail holds one record per iteration. */
  lemma {:induction false} LoopLength(files: map<string, string>, report: Report, repair: Repairer,
                                      rectorApplied: bool, done: nat, history: seq<IterationRecord>)
    requires done < MaxIterations && |history| == done
    ensures var outcome := Loop(files, report, repair, rectorApplied, done, history).0;
      outcome.Success? ==>
        done < outcome.value.iterations <= MaxIterations && |outcome.value.history| == outcome.value.iterations
    decreases MaxIterations - done
  {
    var it := done + 1;
    LoopStops(files, report, repair, rectorApplied, done, history);
    var step := repair(files, it);
    if !Clean(report(it)) && step.Success? {
      var h := history + [Record(report(it), rectorApplied, it).(aiFixApplied := step.value.0)];
      LoopUnfold(files, report, repair, rectorApplied, done, history, step.value.0, step.value.1);
      if it < MaxIterations {
        LoopLength(step.value.1, report, repair, rectorApplied, it, h);
      }
    }
  }

  /** The loop keeps the trail it was given. */
  lemma {:induction false} LoopPrefix(files: map<string, string>, report: Report, repair: Repairer,
                                      rectorApplied: bool, done: nat, history: seq<IterationRecord>)
    requires done < MaxIterations
    ensures var outcome := Loop(files, report, repair, rectorApplied, done, history).0;
      outcome.Success? ==>
        |history| < |outcome.value.history| && forall k :: 0 <= k < |history| ==> outcome.value.history[k] == history[k]
    decreases MaxIterations - done
  {
    var it := done + 1;
    LoopStops(files, report, repair, rectorApplied, done, history);
    var step := repair(files, it);
    if !Clean(report(it)) && step.Success? {
      var h := history + [Record(report(it), rectorApplied, it).(aiFixApplied := step.value.0)];
      LoopUnfold(files, report, repair, rectorApplied, done, history, step.value.0, step.value.1);
      if it < MaxIterations {
        LoopPrefix(step.value.1, report, repair, rectorApplied, it, h);
      }
    }
  }

  /**
   * The record of iteration it: its number, the Rector flag only on the
   * first, the error and failure counts of that iteration, and an applied
   * fix only when mayApply holds.
   */
  predicate Recorded(r: IterationRecord, report: Report, rectorApplied: bool, mayApply: bool, it: nat) {
    r.iteration == it
    && r.rectorApplied == (it == 1 && rectorApplied)
    && r.phpstanErrors == report(it).errors
    && r.pestFailures == report(it).failures
    && (r.aiFixApplied ==> mayApply)
  }

  /** The loop adds the record of each iteration it runs. */
  lemma {:induction false} LoopRecords(files: map<string, string>, report: Report, repair: Repairer, mayApply: bool,
                                       rectorApplied: bool, done: nat, history: seq<IterationRecord>)
    requires done < MaxIterations && |history| == done
    requires AppliesOnlyIf(repair, mayApply)
    ensures var outcome := Loop(files, report, repair, rectorApplied, done, history).0;
      outcome.Success? ==>
        forall k :: done <= k < |outcome.value.history| ==>
          Recorded(outcome.value.history[k], report, rectorApplied, mayApply, k + 1)
    decreases MaxIterations - done
  {
    var it := done + 1;
    var record := Record(report(it), rectorApplied, it);
    LoopStops(files, report, repair, rectorApplied, done, history);
    var step := repair(files, it);
    if Clean(report(it)) {
      assert (history + [record])[done] == record;
    } else if step.Success? {
      var added := record.(aiFixApplied := step.value.0);
      var h := history + [added];
      assert h[done] == added;
      LoopUnfold(files, report, repair, rectorApplied, done, history, step.value.0, step.value.1);
      if it < MaxIterations {
        LoopRecords(step.value.1, report, repair, mayApply, rectorApplied, it, h);
        LoopPrefix(step.value.1, report, repair, rectorApplied, it, h);
      }
    }
  }

  /**
   * The loop stops within MAX_ITERATIONS, keeps the trail it was given and
   * adds the record of each iteration it ran.
   */
  lemma LoopTrail(files: map<string, string>, report: Report, repair: Repairer, mayApply: bool,
                  rectorApplied: bool, done: nat, history: seq<IterationRecord>)
    requires done < MaxIterations && |history| == done
    requires AppliesOnlyIf(repair, mayApply)
    ensures var outcome := Loop(files, report, repair, rectorApplied, done, history).0;
      outcome.Success? ==>
        var res := outcome.value;
        done < res.iterations <= MaxIterations && |res.history| == res.iterations
        && (forall k :: 0 <= k < done ==> res.history[k] == history[k])
        && forall k :: done <= k < res.iterations ==> Recorded(res.history[k], report, rectorApplied, mayApply, k + 1)
  {
    LoopLength(files, report, repair, rectorApplied, done, history);
    LoopPrefix(files, report, repair, rectorApplied, done, history);
    LoopRecords(files, report, repair, mayApply, rectorApplied, done, history);
  }

  /**
   * The run succeeds exactly when its last iteration reached the gold
   * standard, and no earlier one did; success reports zero counts, and an
   * exhausted run reports the counts of iteration MAX_ITERATIONS.
   */
  lemma {:induction false} LoopVerdict(files: map<string, string>, report: Report, repair: Repairer,
                                       rectorApplied: bool, done: nat, history: seq<IterationRecord>)
    requires done < MaxIterations
    ensures var outcome := Loop(files, report, repair, rectorApplied, done, history).0;
      outcome.Success? ==>
        var res := outcome.value;
        done < res.iterations <= MaxIterations
        && (res.success <==> Clean(report(res.iterations)))
        && (forall it :: done < it < res.iterations ==> !Clean(report(it)))
        && (res.success ==> res.finalErrors == 0 && res.finalTestFailures == 0)
        && (!res.success ==> (res.iterations == MaxIterations
              && res.finalErrors == report(MaxIterations).errors
              && res.finalTestFailures == report(MaxIterations).failures))
    decreases MaxIterations - done
  {
    var it := done + 1;
    LoopStops(files, report, repair, rectorApplied, done, history);
    var step := repair(files, it);
    if !Clean(report(it)) && step.Success? {
      var h := history + [Record(report(it), rectorApplied, it).(aiFixApplied := step.value.0)];
      LoopUnfold(files, report, repair, rectorApplied, done, history, step.value.0, step.value.1);
      if it < MaxIterations {
        LoopVerdict(step.value.1, report, repair, rectorApplied, it, h);
        var rest := Loop(step.value.1, report, repair, rectorApplied, it, h).0;
        assert Loop(files, report, repair, rectorApplied, done, history).0 == rest;
        if rest.Success? {
          assert !Clean(report(it)) && it < rest.value.iterations;
        }
      }
    }
  }

  /**
   * A failure of the step is the only way the loop fails: with writeTarget's
   * exception, on a target that is not a file, and with the files as the
   * loop found them.
   */
  lemma {:induction false} LoopFailure(files: map<string, string>, report: Report, repair: Repairer, target: string,
                                       rectorApplied: bool, done: nat, history: seq<IterationRecord>)
    requires done < MaxIterations
    requires FailsOnlyOnNonFile(repair, target) && ChangesOnlyTarget(repair, target)
    ensures var run := Loop(files, report, repair, rectorApplied, done, history);
      run.0.Failure? ==> target !in files && run.0.error == Runtime(WriteUnsupportedMessage) && run.1 == files
    decreases MaxIterations - done
  {
    var it := done + 1;
    LoopStops(files, report, repair, rectorApplied, done, history);
    var step := repair(files, it);
    if !Clean(report(it)) && step.Success? {
      var h := history + [Record(report(it), rectorApplied, it).(aiFixApplied := step.value.0)];
      LoopUnfold(files, report, repair, rectorApplied, done, history, step.value.0, step.value.1);
      if it < MaxIterations {
        LoopFailure(step.value.1, report, repair, target, rectorApplied, it, h);
        assert Unmoved(files, step.value.1, target);
        if target !in files {
          assert step.value.1 == files;
        }
      }
    }
  }

  /** A loop whose step changes only target keeps the set of files and every file but target. */
  lemma {:induction false} LoopFrame(files: map<string, string>, report: Report, repair: Repairer, target: string,
                                     rectorApplied: bool, done: nat, history: seq<IterationRecord>)
    requires done < MaxIterations
    requires ChangesOnlyTarget(repair, target)
    ensures Unmoved(files, Loop(files, report, repair, rectorApplied, done, history).1, target)
    decreases MaxIterations - done
  {
    var it := done + 1;
    LoopStops(files, report, repair, rectorApplied, done, history);
    var step := repair(files, it);
    if !Clean(report(it)) && step.Success? {
      var h := history + [Record(report(it), rectorApplied, it).(aiFixApplied := step.value.0)];
      LoopUnfold(files, report, repair, rectorApplied, done, history, step.value.0, step.value.1);
      assert Unmoved(files, step.value.1, target);
      if it < MaxIterations {
        LoopFrame(step.value.1, report, repair, target, rectorApplied, it, h);
      }
    }
  }

  /** A loop whose step is idle completes and changes no file. */
  lemma {:induction false} LoopIdle(files: map<string, string>, report: Report, repair: Repairer,
                                    rectorApplied: bool, done: nat, history: seq<IterationRecord>)
    requires done < MaxIterations
    requires Idle(repair)
    ensures var run := Loop(files, report, repair, rectorApplied, done, history);
      run.1 == files && run.0.Success?
    decreases MaxIterations - done
  {
    var it := done + 1;
    LoopStops(files, report, repair, rectorApplied, done, history);
    assert repair(files, it) == Success((false, files));
    if !Clean(report(it)) {
      var h := history + [Record(report(it), rectorApplied, it)];
      LoopUnfold(files, report, repair, rectorApplied, done, history, false, files);
      if it < MaxIterations {
        LoopIdle(files, report, repair, rectorApplied, it, h);
      }
    }
  }

  /** The loop depends on the step only through its values, and on the report only through its values. */
  lemma {:induction false} LoopCongruence(files: map<string, string>, report: Report, other: Report,
                                          repair: Repairer, same: Repairer,
                                          rectorApplied: bool, done: nat, history: seq<IterationRecord>)
    requires done < MaxIterations
    requires forall i: nat :: report(i) == other(i)
    requires forall f: map<string, string>, i: nat :: repair(f, i) == same(f, i)
    ensures Loop(files, report, repair, rectorApplied, done, history)
         == Loop(files, other, same, rectorApplied, done, history)
    decreases MaxIterations - done
  {
    var it := done + 1;
    assert report(it) == other(it);
    LoopStops(files, report, repair, rectorApplied, done, history);
    LoopStops(files, other, same, rectorApplied, done, history);
    var step := repair(files, it);
    assert same(files, it) == step;
    if !Clean(report(it)) && step.Success? {
      var h := history + [Record(report(it), rectorApplied, it).(aiFixApplied := step.value.0)];
      LoopUnfold(files, report, repair, rectorApplied, done, history, step.value.0, step.value.1);
      LoopUnfold(files, other, same, rectorApplied, done, history, step.value.0, step.value.1);
      if it < MaxIterations {
        LoopCongruence(step.value.1, report, other, repair, same, rectorApplied, it, h);
      }
    }
  }

  // ---------------------------------------------------------------------
  // execute
  // ---------------------------------------------------------------------

  /** A missing target is rejected before any tool runs: nothing changes and the tools do not matter. */
  lemma MissingTarget(files: map<string, string>, dirs: set<string>, target: string, dryRun: bool, tools: Tools, other: Tools)
    requires target !in files && target !in dirs
    ensures Run(files, dirs, target, dryRun, tools)
      == (Failure(InvalidArgument("Target path does not exist: " + target)), files)
    ensures Run(files, dirs, target, dryRun, tools) == Run(files, dirs, target, dryRun, other)
  {
  }

  /**
   * The audit trail of a completed run: between 1 and MAX_ITERATIONS
   * records, one per iteration and numbered from 1; rector_applied only in
   * the first and only for Rector's exit code 1; the counts of each iteration.
   */
  lemma RunTrail(files: map<string, string>, dirs: set<string>, target: string, dryRun: bool, tools: Tools)
    ensures var outcome := Run(files, dirs, target, dryRun, tools).0;
      outcome.Success? ==>
        var res := outcome.value;
        1 <= res.iterations <= MaxIterations && |res.history| == res.iterations
        && forall k :: 0 <= k < res.iterations ==>
             res.history[k].iteration == k + 1
             && res.history[k].rectorApplied == (k == 0 && tools.rector.exitCode == 1)
             && res.history[k].phpstanErrors == |PhpStanErrors(tools.phpstan(k + 1))|
             && res.history[k].pestFailures == |PestFailures(tools.pest(k + 1))|
             && (res.history[k].aiFixApplied ==> !dryRun)
  {
    if PathExists(files, dirs, target) {
      StepProperties(dirs, target, dryRun, tools);
      LoopTrail(AfterRector(files, dryRun, tools.rector), ReportOf(tools), RepairStep(dirs, target, dryRun, tools), !dryRun,
                RectorApplied(tools.rector), 0, []);
    }
  }

  /**
   * The verdict of a completed run: success exactly when the last iteration
   * had no PHPStan errors and no Pest failures, and no earlier one did, with
   * final counts 0; otherwise MAX_ITERATIONS iterations and the counts of the last.
   */
  lemma RunVerdict(files: map<string, string>, dirs: set<string>, target: string, dryRun: bool, tools: Tools)
    ensures var outcome := Run(files, dirs, target, dryRun, tools).0;
      outcome.Success? ==>
        var res := outcome.value;
        1 <= res.iterations <= MaxIterations
        && (res.success <==> Gold(tools, res.iterations))
        && (forall it :: 1 <= it < res.iterations ==> !Gold(tools, it))
        && (res.success ==> res.finalErrors == 0 && res.finalTestFailures == 0)
        && (!res.success ==> (res.iterations == MaxIterations
              && res.finalErrors == |PhpStanErrors(tools.phpstan(MaxIterations))|
              && res.finalTestFailures == |PestFailures(tools.pest(MaxIterations))|))
  {
    if PathExists(files, dirs, target) {
      var report := ReportOf(tools);
      LoopVerdict(AfterRector(files, dryRun, tools.rector), report, RepairStep(dirs, target, dryRun, tools),
                  RectorApplied(tools.rector), 0, []);
      var outcome := Run(files, dirs, target, dryRun, tools).0;
      if outcome.Success? {
        var res := outcome.value;
        assert report(res.iterations) == Counts(|ErrorsAt(tools, res.iterations)|, |FailuresAt(tools, res.iterations)|);
        assert report(MaxIterations) == Counts(|ErrorsAt(tools, MaxIterations)|, |FailuresAt(tools, MaxIterations)|);
        forall it | 1 <= it < res.iterations
          ensures !Gold(tools, it)
        {
          assert report(it) == Counts(|ErrorsAt(tools, it)|, |FailuresAt(tools, it)|);
        }
      }
    }
  }

  /** Gold in the first iteration ends the run at once with a single record and no AI call. */
  lemma FirstIterationGold(files: map<string, string>, dirs: set<string>, target: string, dryRun: bool, tools: Tools)
    requires PathExists(files, dirs, target) && Gold(tools, 1)
    ensures Run(files, dirs, target, dryRun, tools) ==
      (Success(LoopResult(true, 1, 0, 0, [IterationRecord(1, tools.rector.exitCode == 1, 0, 0, false)])),
       AfterRector(files, dryRun, tools.rector))
  {
    LoopStops(AfterRector(files, dryRun, tools.rector), ReportOf(tools), RepairStep(dirs, target, dryRun, tools), RectorApplied(tools.rector), 0, []);
    var record := Record(ReportOf(tools)(1), RectorApplied(tools.rector), 1);
    assert record == IterationRecord(1, tools.rector.exitCode == 1, 0, 0, false);
    assert [] + [record] == [record];
  }

  /** The exceptions execute lets escape: a missing target, or a live run that would write to a directory. */
  lemma RunFailure(files: map<string, string>, dirs: set<string>, target: string, dryRun: bool, tools: Tools)
    ensures var run := Run(files, dirs, target, dryRun, tools);
      run.0.Failure? ==>
        (!PathExists(files, dirs, target) && run.0.error == InvalidArgument(TargetMissingMessage(target)))
        || (PathExists(files, dirs, target) && !dryRun && target !in AfterRector(files, dryRun, tools.rector)
            && run.0.error == Runtime(WriteUnsupportedMessage))
  {
    if PathExists(files, dirs, target) {
      var repair := RepairStep(dirs, target, dryRun, tools);
      StepProperties(dirs, target, dryRun, tools);
      LoopFailure(AfterRector(files, dryRun, tools.rector), ReportOf(tools), repair, target, RectorApplied(tools.rector), 0, []);
      if dryRun {
        LoopIdle(files, ReportOf(tools), repair, RectorApplied(tools.rector), 0, []);
      }
    }
  }

  /**
   * A dry run changes no file, completes whenever the target exists, applies
   * no AI fix, and is the same whatever the AI would answer.
   */
  lemma RunDryRun(files: map<string, string>, dirs: set<string>, target: string, tools: Tools, ai: (nat, string) -> AiResponse)
    ensures var run := Run(files, dirs, target, true, tools);
      run.1 == files
      && (PathExists(files, dirs, target) ==> (run.0.Success?
            && forall k :: 0 <= k < |run.0.value.history| ==> !run.0.value.history[k].aiFixApplied))
      && run == Run(files, dirs, target, true, tools.(ai := ai))
  {
    if PathExists(files, dirs, target) {
      var other := tools.(ai := ai);
      var repair := RepairStep(dirs, target, true, tools);
      var same := RepairStep(dirs, target, true, other);
      StepProperties(dirs, target, true, tools);
      StepProperties(dirs, target, true, other);
      forall f: map<string, string>, i: nat
        ensures repair(f, i) == same(f, i)
      {
        assert repair(f, i) == Success((false, f)) == same(f, i);
      }
      LoopIdle(files, ReportOf(tools), repair, RectorApplied(tools.rector), 0, []);
      LoopTrail(files, ReportOf(tools), repair, false, RectorApplied(tools.rector), 0, []);
      LoopCongruence(files, ReportOf(tools), ReportOf(other), repair, same, RectorApplied(tools.rector), 0, []);
    }
  }

  /**
   * A live run on a file completes, and apart from Rector's rewrites it
   * changes only the target: the other files end as Rector left them.
   */
  lemma RunLiveFile(files: map<string, string>, dirs: set<string>, target: string, tools: Tools)
    requires target in files
    ensures var run := Run(files, dirs, target, false, tools);
      var rectored := files + tools.rector.rewritten;
      run.0.Success? && run.1.Keys == rectored.Keys
      && forall p :: p in rectored && p != target ==> run.1[p] == rectored[p]
  {
    var rectored := files + tools.rector.rewritten;
    var repair := RepairStep(dirs, target, false, tools);
    StepProperties(dirs, target, false, tools);
    LoopFailure(rectored, ReportOf(tools), repair, target, RectorApplied(tools.rector), 0, []);
    LoopFrame(rectored, ReportOf(tools), repair, target, RectorApplied(tools.rector), 0, []);
  }

  /**
   * A failing Pest run whose output matches no FAILED pattern counts as no
   * failures, so with a clean PHPStan report that iteration is gold.
   */
  lemma UnmatchedPestFailureIsGold(tools: Tools, it: nat)
    requires |PhpStanErrors(tools.phpstan(it))| == 0
    requires !tools.pest(it).successful && tools.pest(it).matches == []
    ensures Gold(tools, it)
  {
    UnmatchedFailureIsSilent(tools.pest(it));
  }
}
