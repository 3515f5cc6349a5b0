/** Running the configured checks and the fix-and-retry loop around them
    (`vibe/checks.py`). */
module Checks {
  import opened Wrappers
  import opened Strings
  import opened Environment
  import opened Config

  /** The result of one execution of one step. */
  datatype CheckResult = CheckResult(success: bool, stepName: string, output: string, error: Option<string>)

  /** `run_check(step)`, given what launching `step.command` in a shell
      produced. A launch failure never escapes: it becomes a failed result. */
  function RunCheck(step: CheckStep, process: ProcessOutcome): (r: CheckResult)
    ensures r.stepName == step.name
    ensures r.success <==> process.Exited? && process.returncode == 0
    ensures r.success <==> r.error.None?
    ensures process.Exited? ==> r.output == process.stdout
    ensures process.Exited? && !r.success ==> r.error == Some(process.stderr)
    ensures process.LaunchRaised? ==> r.output == "" && r.error == Some(process.message)
  {
    match process
    case Exited(code, out, err) =>
      CheckResult(code == 0, step.name, out, if code == 0 then None else Some(err))
    case LaunchRaised(m) =>
      CheckResult(false, step.name, "", Some(m))
  }

  /** What a failed check contributes to the fix prompt, in terms of what
      its process did: the captured stderr, else the captured stdout, else
      "No output"; for a launch that raised, the exception text. */
  lemma DiagnosticOfCheck(step: CheckStep, process: ProcessOutcome)
    requires !RunCheck(step, process).success
    ensures var d := Diagnostic(RunCheck(step, process));
            && (process.Exited? && process.stderr != "" ==> d == process.stderr)
            && (process.Exited? && process.stderr == "" && process.stdout != "" ==> d == process.stdout)
            && (process.Exited? && process.stderr == "" && process.stdout == "" ==> d == "No output")
            && (process.LaunchRaised? ==> d == if process.message != "" then process.message else "No output")
  {
  }

  predicate AllSucceeded(results: seq<CheckResult>)
  {
    forall i :: 0 <= i < |results| ==> results[i].success
  }

  /** The failing results, in step order (`failed_checks`). */
  function Failed(results: seq<CheckResult>): seq<CheckResult>
  {
    if results == [] then []
    else Failed(results[..|results| - 1])
         + (if !Last(results).success then [Last(results)] else [])
  }

  /** `failed_checks` holds failing results of the pass only, and is empty
      exactly when every check passed. */
  lemma {:induction false} FailedFacts(results: seq<CheckResult>)
    ensures forall x :: x in Failed(results) ==> x in results && !x.success
    ensures Failed(results) == [] <==> AllSucceeded(results)
    decreases |results|
  {
    if results != [] {
      var init := results[..|results| - 1];
      FailedFacts(init);
      assert forall x :: x in init ==> x in results;
      assert results == init + [Last(results)];
    }
  }

  ghost predicate HasStepNamed(steps: seq<CheckStep>, name: string)
  {
    exists i :: 0 <= i < |steps| && steps[i].name == name
  }

  /** Where `next(s for s in steps if s.name == name)` stops: the first step
      carrying that name. */
  function FirstNamedIndex(steps: seq<CheckStep>, name: string): (i: nat)
    requires HasStepNamed(steps, name)
    ensures i < |steps| && steps[i].name == name
    ensures forall j :: 0 <= j < i ==> steps[j].name != name
  {
    if steps[0].name == name then 0
    else
      var k :| 0 <= k < |steps| && steps[k].name == name;
      assert steps[1..][k - 1].name == name;
      1 + FirstNamedIndex(steps[1..], name)
  }

  /** The text a failed check contributes: `error or output or "No output"`
      (an empty string counts as missing). */
  function Diagnostic(r: CheckResult): (d: string)
    ensures d != ""
    ensures r.error.Some? && r.error.value != "" ==> d == r.error.value
    ensures (r.error.None? || r.error.value == "") && r.output != "" ==> d == r.output
  {
    if r.error.Some? && r.error.value != "" then r.error.value
    else if r.output != "" then r.output
    else "No output"
  }

  ghost predicate Named(steps: seq<CheckStep>, failedChecks: seq<CheckResult>)
  {
    forall r :: r in failedChecks ==> HasStepNamed(steps, r.stepName)
  }

  /** `failed_commands`: each failed result's command, in backticks. */
  function FailedCommands(steps: seq<CheckStep>, failedChecks: seq<CheckResult>): seq<string>
    requires Named(steps, failedChecks)
  {
    if failedChecks == [] then []
    else
      var prev := failedChecks[..|failedChecks| - 1];
      assert forall x :: x in prev ==> x in failedChecks;
      FailedCommands(steps, prev)
      + ["`" + steps[FirstNamedIndex(steps, Last(failedChecks).stepName)].command + "`"]
  }

  /** `error_outputs`: each failed result's step name and diagnostic. */
  function ErrorOutputs(steps: seq<CheckStep>, failedChecks: seq<CheckResult>): seq<string>
    requires Named(steps, failedChecks)
  {
    if failedChecks == [] then []
    else
      var prev := failedChecks[..|failedChecks| - 1];
      assert forall x :: x in prev ==> x in failedChecks;
      ErrorOutputs(steps, prev)
      + [steps[FirstNamedIndex(steps, Last(failedChecks).stepName)].name + ":\n" + Diagnostic(Last(failedChecks))]
  }

  function Bullets(lines: seq<string>): (r: seq<string>)
    ensures |r| == |lines|
    ensures forall i :: 0 <= i < |lines| ==> r[i] == "- " + lines[i]
  {
    if lines == [] then [] else ["- " + lines[0]] + Bullets(lines[1..])
  }

  const FixHeader: string := "The following checks failed:\n"
  const ErrorOutputsHeader: string := "\n\nError outputs:\n"
  const FixInstruction: string := "\n\nPlease run these commands and fix all found issues."

  /** The one aggregated request sent to the assistant after a failed pass. */
  function FixPrompt(steps: seq<CheckStep>, failedChecks: seq<CheckResult>): string
    requires Named(steps, failedChecks)
  {
    FixHeader + Join("\n", Bullets(FailedCommands(steps, failedChecks)))
    + ErrorOutputsHeader + Join("\n", ErrorOutputs(steps, failedChecks))
    + FixInstruction
  }

  /** Builds the fix prompt the way the source does: one pass over the failed
      results, looking each one's step up by name. */
  method BuildFixPrompt(steps: seq<CheckStep>, failedChecks: seq<CheckResult>) returns (prompt: string)
    requires Named(steps, failedChecks)
    ensures prompt == FixPrompt(steps, failedChecks)
  {
    var failedCommands: seq<string> := [];
    var errorOutputs: seq<string> := [];
    for i := 0 to |failedChecks|
      invariant Named(steps, failedChecks[..i])
      invariant failedCommands == FailedCommands(steps, failedChecks[..i])
      invariant errorOutputs == ErrorOutputs(steps, failedChecks[..i])
    {
      var failed := failedChecks[i];
      assert failedChecks[..i + 1][..i] == failedChecks[..i];
      var step := steps[FirstNamedIndex(steps, failed.stepName)];
      failedCommands := failedCommands + ["`" + step.command + "`"];
      errorOutputs := errorOutputs + [step.name + ":\n" + Diagnostic(failed)];
    }
    assert failedChecks[..|failedChecks|] == failedChecks;
    prompt := FixHeader + Join("\n", Bullets(failedCommands))
              + ErrorOutputsHeader + Join("\n", errorOutputs)
              + FixInstruction;
  }

  // ---- one pass over the steps ----

  function StepCommands(steps: seq<CheckStep>): (r: seq<string>)
    ensures |r| == |steps|
    ensures forall i :: 0 <= i < |steps| ==> r[i] == steps[i].command
  {
    if steps == [] then [] else StepCommands(steps[..|steps| - 1]) + [Last(steps).command]
  }

  /** One pass: the results, and the launches it added to the trace. */
  datatype Pass = Pass(results: seq<CheckResult>, launches: seq<Event>)

  /** One attempt: every step, in declaration order, whatever the earlier
      ones gave; each launch sees the trace left by the ones before it. */
  function RunPass(steps: seq<CheckStep>, world: World, trace: seq<Event>): (p: Pass)
    ensures |p.results| == |steps| && |p.launches| == |steps|
    decreases |steps|
  {
    if steps == [] then Pass([], [])
    else
      var prev := RunPass(steps[..|steps| - 1], world, trace);
      var step := Last(steps);
      var process := world.run(trace + prev.launches, step.command);
      Pass(prev.results + [RunCheck(step, process)], prev.launches + [CheckRan(step.command, process)])
  }

  /** Launch `i` of a pass runs command `i`, and result `i` is what
      `run_check` makes of it. */
  lemma {:induction false} PassAligned(steps: seq<CheckStep>, world: World, trace: seq<Event>)
    ensures var p := RunPass(steps, world, trace);
            forall i :: 0 <= i < |steps| ==>
              && p.launches[i].CheckRan?
              && p.launches[i].command == steps[i].command
              && p.results[i] == RunCheck(steps[i], p.launches[i].process)
    decreases |steps|
  {
    if steps != [] {
      var init := steps[..|steps| - 1];
      PassAligned(init, world, trace);
      assert forall i :: 0 <= i < |init| ==> steps[i] == init[i];
    }
  }

  lemma PassExtends(steps: seq<CheckStep>, world: World, trace: seq<Event>, i: nat)
    requires i < |steps|
    ensures var prev := RunPass(steps[..i], world, trace);
            var process := world.run(trace + prev.launches, steps[i].command);
            RunPass(steps[..i + 1], world, trace)
            == Pass(prev.results + [RunCheck(steps[i], process)],
                    prev.launches + [CheckRan(steps[i].command, process)])
  {
    assert steps[..i + 1][..i] == steps[..i];
  }

  lemma FailedOfAppend(results: seq<CheckResult>, r: CheckResult)
    ensures Failed(results + [r]) == Failed(results) + (if !r.success then [r] else [])
  {
    assert (results + [r])[..|results|] == results;
  }

  /** A pass launches the step commands in declaration order and nothing
      else: no assistant call, no prompt read. */
  lemma {:induction false} PassTrace(steps: seq<CheckStep>, world: World, trace: seq<Event>)
    ensures var t := trace + RunPass(steps, world, trace).launches;
            && RanCommands(t) == RanCommands(trace) + StepCommands(steps)
            && CheckEvents(t) == CheckEvents(trace) + RunPass(steps, world, trace).launches
            && AssistantPrompts(t) == AssistantPrompts(trace)
            && FileEvents(t) == FileEvents(trace)
    decreases |steps|
  {
    if steps != [] {
      var init := steps[..|steps| - 1];
      var prev := RunPass(init, world, trace);
      PassTrace(init, world, trace);
      var process := world.run(trace + prev.launches, Last(steps).command);
      var e := CheckRan(Last(steps).command, process);
      assert RunPass(steps, world, trace).launches == prev.launches + [e];
      assert trace + RunPass(steps, world, trace).launches == (trace + prev.launches) + [e];
      ProjectionsOfAppend(trace + prev.launches, e);
      assert StepCommands(steps) == StepCommands(init) + [e.command];
      assert RanCommands(trace) + StepCommands(steps)
             == (RanCommands(trace) + StepCommands(init)) + [e.command];
    } else {
      assert trace + RunPass(steps, world, trace).launches == trace;
      assert RanCommands(trace) + StepCommands(steps) == RanCommands(trace);
    }
  }

  /** Every result of a pass names its own step, in order. */
  lemma PassNamesSteps(steps: seq<CheckStep>, world: World, trace: seq<Event>)
    ensures var p := RunPass(steps, world, trace);
            (forall i :: 0 <= i < |steps| ==> p.results[i].stepName == steps[i].name)
            && Named(steps, Failed(p.results))
  {
    var p := RunPass(steps, world, trace);
    PassAligned(steps, world, trace);
    FailedFacts(p.results);
    forall r | r in Failed(p.results) ensures HasStepNamed(steps, r.stepName) {
      var i :| 0 <= i < |p.results| && p.results[i] == r;
      assert steps[i].name == r.stepName;
    }
  }

  /** "Run all checks sequentially": one pass, collecting the results and
      the failing ones. */
  method RunAllSteps(steps: seq<CheckStep>, world: World, trace0: seq<Event>)
    returns (results: seq<CheckResult>, failedChecks: seq<CheckResult>, trace: seq<Event>)
    ensures RunPass(steps, world, trace0).results == results
    ensures trace == trace0 + RunPass(steps, world, trace0).launches
    ensures failedChecks == Failed(results)
  {
    results, failedChecks, trace := [], [], trace0;
    ghost var launches: seq<Event> := [];
    for i := 0 to |steps|
      invariant RunPass(steps[..i], world, trace0) == Pass(results, launches)
      invariant trace == trace0 + launches
      invariant failedChecks == Failed(results)
    {
      var step := steps[i];
      var process := world.run(trace, step.command);
      var result := RunCheck(step, process);
      PassExtends(steps, world, trace0, i);
      FailedOfAppend(results, result);
      trace := trace + [CheckRan(step.command, process)];
      launches := launches + [CheckRan(step.command, process)];
      results := results + [result];
      if !result.success {
        failedChecks := failedChecks + [result];
      }
    }
    assert steps[..|steps|] == steps;
  }

  // ---- the retry loop ----

  /** How `run_checks_with_retry` ended. */
  datatype Ending = AllPassed | RetriesExhausted | FixFailed | FixRaised | BudgetNegative

  /** It returns a list of results, or an exception escapes from it. */
  datatype ChecksOutcome = Returned(results: seq<CheckResult>) | Raised(message: string)

  /** A run of the loop: its outcome, the trace after it, how many passes
      over the steps it made, and why it stopped. */
  datatype RetryRun = RetryRun(outcome: ChecksOutcome, trace: seq<Event>, passes: nat, ending: Ending)

  /** The message of the `UnboundLocalError` raised by `return results` when
      the loop body never ran. */
  const UnboundResults: string := "cannot access local variable 'results' where it is not associated with a value"

  /** What one attempt leads to: the loop ends with a run, or it goes on
      to the next attempt from the given trace. */
  datatype AttemptEnd = Finished(run: RetryRun) | Continue(next: seq<Event>)

  /** Attempt `k` (0 is the first try, not a retry): one pass, then either
      an ending or one fix request to the assistant. */
  function Attempt(config: ChecksConfig, world: World, k: nat, trace: seq<Event>): (a: AttemptEnd)
    ensures a.Continue? ==> k < config.maxRetries
  {
    var pass := RunPass(config.steps, world, trace);
    var after := trace + pass.launches;
    if AllSucceeded(pass.results) then Finished(RetryRun(Returned(pass.results), after, k + 1, AllPassed))
    else if k >= config.maxRetries then Finished(RetryRun(Returned(pass.results), after, k + 1, RetriesExhausted))
    else
      PassNamesSteps(config.steps, world, trace);
      var prompt := FixPrompt(config.steps, Failed(pass.results));
      var outcome := world.invoke(after, prompt);
      AfterFix(outcome, pass.results, after + [AssistantCalled(prompt, outcome)], k)
  }

  /** How the fix request's outcome decides the loop: retry after any reply,
      stop with the last results on a provider error, let any other
      exception escape. */
  function AfterFix(outcome: InvokeOutcome, results: seq<CheckResult>, next: seq<Event>, k: nat): AttemptEnd
  {
    match outcome
    case Invoked(_) => Continue(next)
    case OtherException(m) => Finished(RetryRun(Raised(m), next, k + 1, FixRaised))
    case _ => Finished(RetryRun(Returned(results), next, k + 1, FixFailed))
  }

  lemma AfterFixCases(outcome: InvokeOutcome, results: seq<CheckResult>, next: seq<Event>, k: nat)
    ensures outcome.Invoked? ==> AfterFix(outcome, results, next, k) == Continue(next)
    ensures outcome.OtherException? ==>
              AfterFix(outcome, results, next, k) == Finished(RetryRun(Raised(outcome.message), next, k + 1, FixRaised))
    ensures outcome.IsProviderError() ==>
              AfterFix(outcome, results, next, k) == Finished(RetryRun(Returned(results), next, k + 1, FixFailed))
  {
  }

  /** The `while` loop over attempts, for any attempt function that stops
      by attempt `last`: attempt `k` ends the run, or the loop goes on with
      attempt `k + 1` from the trace it left. */
  function Loop(attempt: (nat, seq<Event>) -> AttemptEnd, last: int, k: nat, trace: seq<Event>): RetryRun
    requires k <= last && EndsBy(attempt, last)
    decreases last - k
  {
    match attempt(k, trace)
    case Finished(run) => run
    case Continue(next) => Loop(attempt, last, k + 1, next)
  }

  /** Attempt `last` and every later one end the run. */
  ghost predicate EndsBy(attempt: (nat, seq<Event>) -> AttemptEnd, last: int)
  {
    forall j: nat, t: seq<Event> :: last <= j ==> attempt(j, t).Finished?
  }

  /** The attempts of `run_checks_with_retry(config)`. */
  function AttemptOf(config: ChecksConfig, world: World): (f: (nat, seq<Event>) -> AttemptEnd)
    ensures forall j: nat, t: seq<Event> :: f(j, t) == Attempt(config, world, j, t)
    ensures EndsBy(f, config.maxRetries)
  {
    (j: nat, t: seq<Event>) => Attempt(config, world, j, t)
  }

  /** The loop from attempt `k` on. */
  function RetryFrom(config: ChecksConfig, world: World, k: nat, trace: seq<Event>): RetryRun
    requires k <= config.maxRetries
  {
    Loop(AttemptOf(config, world), config.maxRetries, k, trace)
  }

  lemma RetryFromUnfolds(config: ChecksConfig, world: World, k: nat, trace: seq<Event>)
    requires k <= config.maxRetries
    ensures var a := Attempt(config, world, k, trace);
            && (a.Finished? ==> RetryFrom(config, world, k, trace) == a.run)
            && (a.Continue? ==> RetryFrom(config, world, k, trace) == RetryFrom(config, world, k + 1, a.next))
  {
  }

  /** `run_checks_with_retry(config)` as a function of the world. */
  function RetrySpec(config: ChecksConfig, world: World, trace: seq<Event>): RetryRun
  {
    if config.steps == [] then RetryRun(Returned([]), trace, 0, AllPassed)
    else if config.maxRetries < 0 then RetryRun(Raised(UnboundResults), trace, 0, BudgetNegative)
    else RetryFrom(config, world, 0, trace)
  }

  /** One iteration of the loop in `run_checks_with_retry`: a pass, and
      after a failing pass with retries left, one fix request. */
  method RunAttempt(config: ChecksConfig, world: World, retryCount: nat, trace0: seq<Event>)
    returns (end: AttemptEnd)
    requires config.steps != [] && retryCount <= config.maxRetries
    ensures end == Attempt(config, world, retryCount, trace0)
  {
    var results, failedChecks, trace;
    results, failedChecks, trace := RunAllSteps(config.steps, world, trace0);
    FailedFacts(results);
    if failedChecks == [] {
      return Finished(RetryRun(Returned(results), trace, retryCount + 1, AllPassed));
    }
    if retryCount >= config.maxRetries {
      return Finished(RetryRun(Returned(results), trace, retryCount + 1, RetriesExhausted));
    }
    PassNamesSteps(config.steps, world, trace0);
    var fixPrompt := BuildFixPrompt(config.steps, failedChecks);
    var reply := world.invoke(trace, fixPrompt);
    trace := trace + [AssistantCalled(fixPrompt, reply)];
    assert Attempt(config, world, retryCount, trace0) == AfterFix(reply, results, trace, retryCount);
    AfterFixCases(reply, results, trace, retryCount);
    match reply {
      case Invoked(_) =>
        end := Continue(trace);
      case OtherException(m) =>
        end := Finished(RetryRun(Raised(m), trace, retryCount + 1, FixRaised));
      case _ =>
        end := Finished(RetryRun(Returned(results), trace, retryCount + 1, FixFailed));
    }
  }

  /** `run_checks_with_retry(config)`: with no steps it returns `[]` at once
      and calls nothing; otherwise it behaves as `RetrySpec`, whose
      properties are proved in `RetryProperties`. */
  method RunChecksWithRetry(config: ChecksConfig, world: World, trace0: seq<Event>)
    returns (outcome: ChecksOutcome, trace: seq<Event>)
    ensures config.steps == [] ==> outcome == Returned([]) && trace == trace0
    ensures outcome == RetrySpec(config, world, trace0).outcome
    ensures trace == RetrySpec(config, world, trace0).trace
  {
    if config.steps == [] {
      return Returned([]), trace0;
    }
    trace := trace0;
    var retryCount := 0;
    while retryCount <= config.maxRetries
      invariant 0 <= retryCount
      invariant config.maxRetries >= 0 ==> retryCount <= config.maxRetries
      invariant config.maxRetries < 0 ==> trace == trace0
      invariant config.maxRetries >= 0 ==>
                  RetrySpec(config, world, trace0) == RetryFrom(config, world, retryCount, trace)
      decreases config.maxRetries - retryCount
    {
      RetryFromUnfolds(config, world, retryCount, trace);
      var end := RunAttempt(config, world, retryCount, trace);
      if end.Finished? {
        return end.run.outcome, end.run.trace;
      }
      trace := end.next;
      retryCount := retryCount + 1;
    }
    return Raised(UnboundResults), trace;
  }
}
