/** What `run_checks_with_retry` promises, proved about its specification
    `Checks.RetrySpec` (which `Checks.RunChecksWithRetry` is proved to
    follow): how many passes and fix requests it makes, which commands run
    in which order, which results it returns and what the fix request
    says. */
module RetryProperties {
  import opened Wrappers
  import opened Strings
  import opened Environment
  import opened Config
  import opened Checks

  /** `n` passes' worth of commands. */
  function Repeat(s: seq<string>, n: nat): seq<string>
  {
    if n == 0 then [] else s + Repeat(s, n - 1)
  }

  /** The last `n` check launches of a trace: the launches of the last pass. */
  function LastLaunches(trace: seq<Event>, n: nat): seq<Event>
    requires n <= |CheckEvents(trace)|
  {
    CheckEvents(trace)[|CheckEvents(trace)| - n..]
  }

  /** How many fix requests a run ending in `ending` after `passes` passes,
      started at attempt `k`, sent: one after every pass except a last pass
      that passed or used up the budget. */
  function FixRequests(ending: Ending, passes: nat, k: nat): int
  {
    if ending == AllPassed || ending == RetriesExhausted then passes - k - 1 else passes - k
  }

  /** One attempt runs every step's command once, in declaration order. */
  lemma AttemptCommands(config: ChecksConfig, world: World, k: nat, trace: seq<Event>)
    requires config.steps != [] && k <= config.maxRetries
    ensures var a := Attempt(config, world, k, trace);
            && (a.Finished? ==> RanCommands(a.run.trace) == RanCommands(trace) + StepCommands(config.steps)
                                && a.run.passes == k + 1)
            && (a.Continue? ==> RanCommands(a.next) == RanCommands(trace) + StepCommands(config.steps))
  {
    AttemptTrace(config, world, k, trace);
    AttemptEnding(config, world, k, trace);
  }

  /** One attempt runs every step once, sends at most one fix request and
      reads no prompt file. */
  lemma AttemptTrace(config: ChecksConfig, world: World, k: nat, trace: seq<Event>)
    requires config.steps != [] && k <= config.maxRetries
    ensures var a := Attempt(config, world, k, trace);
            var t := if a.Finished? then a.run.trace else a.next;
            && RanCommands(t) == RanCommands(trace) + StepCommands(config.steps)
            && CheckEvents(t) == CheckEvents(trace) + RunPass(config.steps, world, trace).launches
            && FileEvents(t) == FileEvents(trace)
            && |AssistantPrompts(t)| == |AssistantPrompts(trace)|
                 + (if a.Finished? && (a.run.ending == AllPassed || a.run.ending == RetriesExhausted) then 0 else 1)
  {
    var steps := config.steps;
    var pass := RunPass(steps, world, trace);
    var after := trace + pass.launches;
    PassTrace(steps, world, trace);
    if !AllSucceeded(pass.results) && k < config.maxRetries {
      PassNamesSteps(steps, world, trace);
      var prompt := FixPrompt(steps, Failed(pass.results));
      var outcome := world.invoke(after, prompt);
      ProjectionsOfAppend(after, AssistantCalled(prompt, outcome));
      AfterFixCases(outcome, pass.results, after + [AssistantCalled(prompt, outcome)], k);
    }
  }

  /** How one attempt ends: it goes on only after a failing pass and a
      reply from the assistant; it returns the pass's results when they all
      passed, when the budget is used up or when the assistant failed in
      one of its three ways, and it lets any other exception escape. */
  lemma AttemptEnding(config: ChecksConfig, world: World, k: nat, trace: seq<Event>)
    requires config.steps != [] && k <= config.maxRetries
    ensures var a := Attempt(config, world, k, trace);
            var pass := RunPass(config.steps, world, trace);
            && (a.Continue? ==> !AllSucceeded(pass.results))
            && (a.Finished? ==>
                  && a.run.passes == k + 1
                  && a.run.ending != BudgetNegative
                  && (a.run.outcome.Returned? <==> a.run.ending != FixRaised)
                  && (a.run.outcome.Returned? ==> a.run.outcome.results == pass.results)
                  && (AllSucceeded(pass.results) <==> a.run.ending == AllPassed)
                  && (a.run.ending == RetriesExhausted ==> k == config.maxRetries)
                  && (a.run.ending == FixFailed || a.run.ending == FixRaised ==> k < config.maxRetries)
                  && (a.run.ending == FixFailed ==>
                        a.run.trace != [] && Last(a.run.trace).AssistantCalled?
                        && Last(a.run.trace).outcome.IsProviderError())
                  && (a.run.ending == FixRaised ==>
                        a.run.trace != [] && Last(a.run.trace).AssistantCalled?
                        && Last(a.run.trace).outcome == OtherException(a.run.outcome.message)))
  {
    var steps := config.steps;
    var pass := RunPass(steps, world, trace);
    var after := trace + pass.launches;
    if !AllSucceeded(pass.results) && k < config.maxRetries {
      PassNamesSteps(steps, world, trace);
      var prompt := FixPrompt(steps, Failed(pass.results));
      var outcome := world.invoke(after, prompt);
      AfterFixCases(outcome, pass.results, after + [AssistantCalled(prompt, outcome)], k);
    }
  }

  lemma RepeatStep(base: seq<string>, mid: seq<string>, fin: seq<string>, cmds: seq<string>, m: nat)
    requires mid == base + cmds && fin == mid + Repeat(cmds, m)
    ensures fin == base + Repeat(cmds, m + 1)
  {
    assert Repeat(cmds, m + 1) == cmds + Repeat(cmds, m);
  }

  lemma RepeatOnce(cmds: seq<string>)
    ensures Repeat(cmds, 1) == cmds
  {
    assert Repeat(cmds, 1) == cmds + [];
  }

  /** The loop from attempt `k` on makes between `k + 1` and
      `max_retries + 1` passes, and the whole budget when it gives up. */
  lemma {:induction false} RetryPasses(config: ChecksConfig, world: World, k: nat, trace: seq<Event>)
    requires config.steps != [] && k <= config.maxRetries
    ensures var r := RetryFrom(config, world, k, trace);
            && k < r.passes <= config.maxRetries + 1
            && r.ending != BudgetNegative
            && (r.ending == RetriesExhausted ==> r.passes == config.maxRetries + 1)
            && (r.ending == FixFailed || r.ending == FixRaised ==> r.passes <= config.maxRetries)
    decreases config.maxRetries - k
  {
    var a := Attempt(config, world, k, trace);
    AttemptEnding(config, world, k, trace);
    RetryFromUnfolds(config, world, k, trace);
    if a.Continue? {
      RetryPasses(config, world, k + 1, a.next);
    }
  }

  /** Every attempt up to `last` runs `cmds` once, and an attempt that
      ends the run counts itself as pass `j + 1`. */
  ghost predicate RunsEachPass(attempt: (nat, seq<Event>) -> AttemptEnd, last: int, cmds: seq<string>)
  {
    && (forall j: nat, t: seq<Event> :: j <= last && attempt(j, t).Finished? ==>
          && attempt(j, t).run.passes == j + 1
          && RanCommands(attempt(j, t).run.trace) == RanCommands(t) + cmds)
    && (forall j: nat, t: seq<Event> :: j <= last && attempt(j, t).Continue? ==>
          RanCommands(attempt(j, t).next) == RanCommands(t) + cmds)
  }

  /** If every attempt runs `cmds` once, a loop that makes `n` passes runs
      `cmds` `n` times over. */
  lemma {:induction false} LoopCommands(attempt: (nat, seq<Event>) -> AttemptEnd, last: int, k: nat,
                                        trace: seq<Event>, cmds: seq<string>)
    requires k <= last && EndsBy(attempt, last) && RunsEachPass(attempt, last, cmds)
    ensures var r := Loop(attempt, last, k, trace);
            && r.passes > k
            && RanCommands(r.trace) == RanCommands(trace) + Repeat(cmds, r.passes - k)
    decreases last - k
  {
    var a := attempt(k, trace);
    if a.Continue? {
      LoopCommands(attempt, last, k + 1, a.next, cmds);
      var r := Loop(attempt, last, k + 1, a.next);
      RepeatStep(RanCommands(trace), RanCommands(a.next), RanCommands(r.trace), cmds, r.passes - (k + 1));
    } else {
      RepeatOnce(cmds);
    }
  }

  /** Every attempt of the loop runs all the commands once. The attempts
      are handed out as a value the caller knows only through these facts. */
  lemma AttemptsRunCommands(config: ChecksConfig, world: World) returns (f: (nat, seq<Event>) -> AttemptEnd)
    requires config.steps != []
    ensures EndsBy(f, config.maxRetries) && RunsEachPass(f, config.maxRetries, StepCommands(config.steps))
    ensures forall k: nat, trace: seq<Event> :: k <= config.maxRetries ==>
              RetryFrom(config, world, k, trace) == Loop(f, config.maxRetries, k, trace)
  {
    f := AttemptOf(config, world);
    forall j: nat, t: seq<Event> | j <= config.maxRetries
      ensures var a := Attempt(config, world, j, t);
              && (a.Finished? ==> a.run.passes == j + 1
                                  && RanCommands(a.run.trace) == RanCommands(t) + StepCommands(config.steps))
              && (a.Continue? ==> RanCommands(a.next) == RanCommands(t) + StepCommands(config.steps))
    {
      AttemptCommands(config, world, j, t);
    }
  }

  /** Every pass runs all the commands in declaration order. */
  lemma RetryCommands(config: ChecksConfig, world: World, k: nat, trace: seq<Event>)
    requires config.steps != [] && k <= config.maxRetries
    ensures var r := RetryFrom(config, world, k, trace);
            && r.passes > k
            && RanCommands(r.trace) == RanCommands(trace) + Repeat(StepCommands(config.steps), r.passes - k)
  {
    var f := AttemptsRunCommands(config, world);
    LoopCommands(f, config.maxRetries, k, trace, StepCommands(config.steps));
  }

  /** One fix request follows each failing pass that is not the last, and
      no prompt file is read. */
  lemma {:induction false} RetryCalls(config: ChecksConfig, world: World, k: nat, trace: seq<Event>)
    requires config.steps != [] && k <= config.maxRetries
    ensures var r := RetryFrom(config, world, k, trace);
            && |AssistantPrompts(r.trace)| == |AssistantPrompts(trace)| + FixRequests(r.ending, r.passes, k)
            && FileEvents(r.trace) == FileEvents(trace)
    decreases config.maxRetries - k
  {
    var a := Attempt(config, world, k, trace);
    AttemptTrace(config, world, k, trace);
    AttemptEnding(config, world, k, trace);
    RetryFromUnfolds(config, world, k, trace);
    if a.Continue? {
      RetryCalls(config, world, k + 1, a.next);
      RetryPasses(config, world, k + 1, a.next);
    }
  }

  /** What the loop returns are the results of its last pass: one per step,
      in step order, each made from the last launch of that step's command.
      They all pass exactly when it stopped because everything passed; a
      provider failure or an escaping exception from the last fix request
      is what ended it otherwise, unless the budget ran out. */
  lemma {:induction false} RetryResults(config: ChecksConfig, world: World, k: nat, trace: seq<Event>)
    requires config.steps != [] && k <= config.maxRetries
    ensures var r := RetryFrom(config, world, k, trace);
            var n := |config.steps|;
            && n <= |CheckEvents(r.trace)|
            && (r.outcome.Returned? <==> r.ending != FixRaised)
            && (r.outcome.Returned? ==>
                  && |r.outcome.results| == n
                  && (forall i :: 0 <= i < n ==>
                        && LastLaunches(r.trace, n)[i].CheckRan?
                        && LastLaunches(r.trace, n)[i].command == config.steps[i].command
                        && r.outcome.results[i] == RunCheck(config.steps[i], LastLaunches(r.trace, n)[i].process))
                  && (AllSucceeded(r.outcome.results) <==> r.ending == AllPassed))
            && (r.ending == FixFailed ==> Last(r.trace).AssistantCalled? && Last(r.trace).outcome.IsProviderError())
            && (r.ending == FixRaised ==>
                  Last(r.trace).AssistantCalled? && Last(r.trace).outcome == OtherException(r.outcome.message))
    decreases config.maxRetries - k
  {
    var a := Attempt(config, world, k, trace);
    AttemptEnding(config, world, k, trace);
    RetryFromUnfolds(config, world, k, trace);
    if a.Continue? {
      RetryResults(config, world, k + 1, a.next);
    } else {
      AttemptTrace(config, world, k, trace);
      var pass := RunPass(config.steps, world, trace);
      PassAligned(config.steps, world, trace);
      var ev := CheckEvents(a.run.trace);
      assert ev[|ev| - |config.steps|..] == pass.launches;
    }
  }

  /** If every pass has a failing step and the assistant always replies,
      the loop makes exactly `max_retries + 1` passes and `max_retries` fix
      requests, then returns the last failing results. */
  lemma {:induction false} EveryPassFailing(config: ChecksConfig, world: World, k: nat, trace: seq<Event>)
    requires config.steps != [] && k <= config.maxRetries
    requires forall t :: !AllSucceeded(RunPass(config.steps, world, t).results)
    requires forall t, p :: world.invoke(t, p).Invoked?
    ensures var r := RetryFrom(config, world, k, trace);
            && r.ending == RetriesExhausted
            && r.passes == config.maxRetries + 1
            && |AssistantPrompts(r.trace)| == |AssistantPrompts(trace)| + config.maxRetries - k
            && r.outcome.Returned? && !AllSucceeded(r.outcome.results)
    decreases config.maxRetries - k
  {
    var a := Attempt(config, world, k, trace);
    AttemptEnding(config, world, k, trace);
    RetryFromUnfolds(config, world, k, trace);
    RetryCalls(config, world, k, trace);
    RetryPasses(config, world, k, trace);
    if k < config.maxRetries {
      var pass := RunPass(config.steps, world, trace);
      assert !AllSucceeded(pass.results);
      PassNamesSteps(config.steps, world, trace);
      var prompt := FixPrompt(config.steps, Failed(pass.results));
      assert world.invoke(trace + pass.launches, prompt).Invoked?;
      assert a.Continue?;
      EveryPassFailing(config, world, k + 1, a.next);
    }
  }

  /** `run_checks_with_retry` as a whole: no steps means no work and no
      assistant call; a negative budget makes `return results` raise; with
      a budget `max_retries >= 0` the counts of `RetryPasses`, `RetryCommands` and `RetryCalls` hold from the
      first attempt on. */
  lemma RetrySpecCounts(config: ChecksConfig, world: World, trace: seq<Event>)
    ensures var r := RetrySpec(config, world, trace);
            && (config.steps == [] ==> r.outcome == Returned([]) && r.trace == trace)
            && (config.steps != [] && config.maxRetries < 0 ==> r.outcome == Raised(UnboundResults) && r.trace == trace)
            && (config.steps != [] && config.maxRetries >= 0 ==>
                  && 0 < r.passes <= config.maxRetries + 1
                  && RanCommands(r.trace) == RanCommands(trace) + Repeat(StepCommands(config.steps), r.passes)
                  && |AssistantPrompts(r.trace)| == |AssistantPrompts(trace)| + FixRequests(r.ending, r.passes, 0)
                  && FixRequests(r.ending, r.passes, 0) <= config.maxRetries)
  {
    if config.steps != [] && config.maxRetries >= 0 {
      RetryPasses(config, world, 0, trace);
      RetryCommands(config, world, 0, trace);
      RetryCalls(config, world, 0, trace);
      var r := RetrySpec(config, world, trace);
      assert r.ending == RetriesExhausted ==> r.passes == config.maxRetries + 1;
    }
  }

  // ---- the fix request ----

  /** The fix request always opens with the list header and closes with the
      instruction to run the commands and fix the issues. */
  lemma FixPromptFrame(steps: seq<CheckStep>, failedChecks: seq<CheckResult>)
    requires Named(steps, failedChecks)
    ensures StartsWith(FixPrompt(steps, failedChecks), FixHeader)
    ensures EndsWith(FixPrompt(steps, failedChecks), FixInstruction)
  {
    Framed(FixHeader, Join("\n", Bullets(FailedCommands(steps, failedChecks))), ErrorOutputsHeader,
           Join("\n", ErrorOutputs(steps, failedChecks)), FixInstruction);
  }

  lemma Framed(head: string, a: string, b: string, c: string, tail: string)
    ensures StartsWith(head + a + b + c + tail, head) && EndsWith(head + a + b + c + tail, tail)
  {
    var s := head + a + b + c + tail;
    assert s == head + (a + b + c + tail);
    assert s[..|head|] == head;
    assert s[|s| - |tail|..] == tail;
  }

  ghost predicate DistinctNames(steps: seq<CheckStep>)
  {
    forall i, j :: 0 <= i < j < |steps| ==> steps[i].name != steps[j].name
  }

  /** The results of a prefix of the steps, in step order. */
  ghost predicate Aligned(steps: seq<CheckStep>, results: seq<CheckResult>)
  {
    |results| <= |steps| && forall i :: 0 <= i < |results| ==> results[i].stepName == steps[i].name
  }

  /** The failed steps' commands in backticks, found by position rather than
      by name: the reference the fix request is checked against. */
  function FailedStepCommands(steps: seq<CheckStep>, results: seq<CheckResult>): seq<string>
    requires |results| <= |steps|
  {
    if results == [] then []
    else
      var n := |results| - 1;
      FailedStepCommands(steps, results[..n])
      + (if !results[n].success then ["`" + steps[n].command + "`"] else [])
  }

  /** The failed steps' names and diagnostics, by position. */
  function FailedStepOutputs(steps: seq<CheckStep>, results: seq<CheckResult>): seq<string>
    requires |results| <= |steps|
  {
    if results == [] then []
    else
      var n := |results| - 1;
      FailedStepOutputs(steps, results[..n])
      + (if !results[n].success then [steps[n].name + ":\n" + Diagnostic(results[n])] else [])
  }

  /** A failed step's command is listed, and only failed steps' commands are. */
  lemma {:induction false} FailedStepCommandsMembers(steps: seq<CheckStep>, results: seq<CheckResult>)
    requires |results| <= |steps|
    ensures forall i :: 0 <= i < |results| && !results[i].success ==>
              "`" + steps[i].command + "`" in FailedStepCommands(steps, results)
    ensures forall x :: x in FailedStepCommands(steps, results) ==>
              exists i :: 0 <= i < |results| && !results[i].success && x == "`" + steps[i].command + "`"
    decreases |results|
  {
    if results != [] {
      var n := |results| - 1;
      FailedStepCommandsMembers(steps, results[..n]);
      assert forall i :: 0 <= i < n ==> results[..n][i] == results[i];
    }
  }

  /** A failed step's name and diagnostic are listed. */
  lemma {:induction false} FailedStepOutputsMembers(steps: seq<CheckStep>, results: seq<CheckResult>)
    requires |results| <= |steps|
    ensures forall i :: 0 <= i < |results| && !results[i].success ==>
              steps[i].name + ":\n" + Diagnostic(results[i]) in FailedStepOutputs(steps, results)
    decreases |results|
  {
    if results != [] {
      var n := |results| - 1;
      FailedStepOutputsMembers(steps, results[..n]);
      assert forall i :: 0 <= i < n ==> results[..n][i] == results[i];
    }
  }

  lemma FirstNamedIsOwn(steps: seq<CheckStep>, i: nat)
    requires DistinctNames(steps) && i < |steps|
    ensures HasStepNamed(steps, steps[i].name)
    ensures FirstNamedIndex(steps, steps[i].name) == i
  {
    assert steps[i].name == steps[i].name;
  }

  lemma FixListsOfAppend(steps: seq<CheckStep>, failedChecks: seq<CheckResult>, r: CheckResult)
    requires Named(steps, failedChecks + [r])
    ensures Named(steps, failedChecks)
    ensures FailedCommands(steps, failedChecks + [r])
            == FailedCommands(steps, failedChecks) + ["`" + steps[FirstNamedIndex(steps, r.stepName)].command + "`"]
    ensures ErrorOutputs(steps, failedChecks + [r])
            == ErrorOutputs(steps, failedChecks) + [steps[FirstNamedIndex(steps, r.stepName)].name + ":\n" + Diagnostic(r)]
  {
    assert (failedChecks + [r])[..|failedChecks|] == failedChecks;
  }

  /** The failed results of steps whose names are their own are named. */
  lemma FailedAreNamed(steps: seq<CheckStep>, results: seq<CheckResult>)
    requires Aligned(steps, results)
    ensures Named(steps, Failed(results))
  {
    FailedFacts(results);
    forall r | r in Failed(results) ensures HasStepNamed(steps, r.stepName) {
      var i :| 0 <= i < |results| && results[i] == r;
      assert steps[i].name == r.stepName;
    }
  }

  /** With distinct step names, looking each failed result's step up by
      name lists exactly the failed steps, in step order: every failed
      step's command and diagnostic, and nothing for a step that passed. */
  lemma {:induction false} FixListsAreFailedSteps(steps: seq<CheckStep>, results: seq<CheckResult>)
    requires DistinctNames(steps) && Aligned(steps, results)
    ensures Named(steps, Failed(results))
    ensures FailedCommands(steps, Failed(results)) == FailedStepCommands(steps, results)
    ensures ErrorOutputs(steps, Failed(results)) == FailedStepOutputs(steps, results)
    decreases |results|
  {
    FailedAreNamed(steps, results);
    if results != [] {
      var n := |results| - 1;
      var init := results[..n];
      var r := results[n];
      assert Aligned(steps, init);
      FixListsAreFailedSteps(steps, init);
      FailedOfAppend(init, r);
      assert init + [r] == results;
      if !r.success {
        FirstNamedIsOwn(steps, n);
        FixListsOfAppend(steps, Failed(init), r);
        assert FailedStepCommands(steps, results) == FailedStepCommands(steps, init) + ["`" + steps[n].command + "`"];
        assert FailedStepOutputs(steps, results)
               == FailedStepOutputs(steps, init) + [steps[n].name + ":\n" + Diagnostic(r)];
      } else {
        assert Failed(results) == Failed(init);
        assert FailedStepCommands(steps, results) == FailedStepCommands(steps, init);
        assert FailedStepOutputs(steps, results) == FailedStepOutputs(steps, init);
      }
    }
  }

  /** Every listed command appears in the fix request as a list item. */
  lemma CommandInPrompt(steps: seq<CheckStep>, failedChecks: seq<CheckResult>, c: string)
    requires Named(steps, failedChecks) && c in FailedCommands(steps, failedChecks)
    ensures Infix("- " + c, FixPrompt(steps, failedChecks))
  {
    var cmds := FailedCommands(steps, failedChecks);
    var bullets := Bullets(cmds);
    var m :| 0 <= m < |cmds| && cmds[m] == c;
    JoinContains("\n", bullets, m);
    InfixOfFive("- " + c, FixHeader, Join("\n", bullets), ErrorOutputsHeader,
                Join("\n", ErrorOutputs(steps, failedChecks)), FixInstruction);
  }

  /** Every listed diagnostic appears in the fix request. */
  lemma OutputInPrompt(steps: seq<CheckStep>, failedChecks: seq<CheckResult>, o: string)
    requires Named(steps, failedChecks) && o in ErrorOutputs(steps, failedChecks)
    ensures Infix(o, FixPrompt(steps, failedChecks))
  {
    var outs := ErrorOutputs(steps, failedChecks);
    var q :| 0 <= q < |outs| && outs[q] == o;
    JoinContains("\n", outs, q);
    InfixOfFive(o, FixHeader, Join("\n", Bullets(FailedCommands(steps, failedChecks))), ErrorOutputsHeader,
                Join("\n", outs), FixInstruction);
  }

  /** A failed step's command and diagnostic are in the fix request. */
  lemma FailedStepInPrompt(steps: seq<CheckStep>, results: seq<CheckResult>, i: nat)
    requires DistinctNames(steps) && Aligned(steps, results)
    requires i < |results| && !results[i].success
    ensures Named(steps, Failed(results))
    ensures Infix("- " + ("`" + steps[i].command + "`"), FixPrompt(steps, Failed(results)))
    ensures Infix(steps[i].name + ":\n" + Diagnostic(results[i]), FixPrompt(steps, Failed(results)))
  {
    FixListsAreFailedSteps(steps, results);
    FailedStepCommandsMembers(steps, results);
    FailedStepOutputsMembers(steps, results);
    var c := "`" + steps[i].command + "`";
    CommandInPrompt(steps, Failed(results), c);
    OutputInPrompt(steps, Failed(results), steps[i].name + ":\n" + Diagnostic(results[i]));
  }

  /** Every command listed in the fix request is a failed step's command. */
  lemma ListedCommandIsFailedStep(steps: seq<CheckStep>, results: seq<CheckResult>, m: nat) returns (i: nat)
    requires DistinctNames(steps) && Aligned(steps, results)
    requires Named(steps, Failed(results))
    requires m < |FailedCommands(steps, Failed(results))|
    ensures i < |results| && !results[i].success
    ensures Bullets(FailedCommands(steps, Failed(results)))[m] == "- " + ("`" + steps[i].command + "`")
  {
    var cmds := FailedCommands(steps, Failed(results));
    FixListsAreFailedSteps(steps, results);
    FailedStepCommandsMembers(steps, results);
    assert cmds[m] in FailedStepCommands(steps, results);
    i :| 0 <= i < |results| && !results[i].success && cmds[m] == "`" + steps[i].command + "`";
  }

  /** Every list item of the fix request is a failed step's command. */
  lemma BulletsAreFailedSteps(steps: seq<CheckStep>, results: seq<CheckResult>)
    requires DistinctNames(steps) && Aligned(steps, results)
    requires Named(steps, Failed(results))
    ensures forall line :: line in Bullets(FailedCommands(steps, Failed(results))) ==>
              exists i :: 0 <= i < |results| && !results[i].success && line == "- " + ("`" + steps[i].command + "`")
  {
    var cmds := FailedCommands(steps, Failed(results));
    forall line | line in Bullets(cmds)
      ensures exists i :: 0 <= i < |results| && !results[i].success && line == "- " + ("`" + steps[i].command + "`")
    {
      var m :| 0 <= m < |cmds| && Bullets(cmds)[m] == line;
      var i := ListedCommandIsFailedStep(steps, results, m);
    }
  }

  /** The fix request sent after a pass names the command of every failed
      step as a list item and carries that step's name and diagnostic, and
      every list item is the command of a step that failed. */
  lemma FixPromptMentionsFailures(steps: seq<CheckStep>, world: World, trace: seq<Event>)
    requires DistinctNames(steps)
    ensures var results := RunPass(steps, world, trace).results;
            && Named(steps, Failed(results))
            && (forall i :: 0 <= i < |steps| && !results[i].success ==>
                  && Infix("- " + ("`" + steps[i].command + "`"), FixPrompt(steps, Failed(results)))
                  && Infix(steps[i].name + ":\n" + Diagnostic(results[i]), FixPrompt(steps, Failed(results))))
            && (forall line :: line in Bullets(FailedCommands(steps, Failed(results))) ==>
                  exists i :: 0 <= i < |steps| && !results[i].success && line == "- " + ("`" + steps[i].command + "`"))
  {
    var results := RunPass(steps, world, trace).results;
    PassNamesSteps(steps, world, trace);
    assert Aligned(steps, results);
    FailedAreNamed(steps, results);
    forall i | 0 <= i < |steps| && !results[i].success
      ensures Infix("- " + ("`" + steps[i].command + "`"), FixPrompt(steps, Failed(results)))
      ensures Infix(steps[i].name + ":\n" + Diagnostic(results[i]), FixPrompt(steps, Failed(results)))
    {
      FailedStepInPrompt(steps, results, i);
    }
    BulletsAreFailedSteps(steps, results);
  }

  /** The lookup by name takes the first step of that name: when two steps
      share a name and only the second fails, the fix request lists the
      first one's command. */
  lemma DuplicateNamesUseFirstCommand()
    ensures var steps := [CheckStep("lint", "ruff check ."), CheckStep("lint", "mypy .")];
            var results := [CheckResult(true, "lint", "", None), CheckResult(false, "lint", "", Some("error"))];
            && Named(steps, Failed(results))
            && FailedCommands(steps, Failed(results)) == ["`ruff check .`"]
  {
    var steps := [CheckStep("lint", "ruff check ."), CheckStep("lint", "mypy .")];
    var results := [CheckResult(true, "lint", "", None), CheckResult(false, "lint", "", Some("error"))];
    var failed := results[1];
    assert results[..1] == [results[0]];
    assert [results[0]][..0] == [];
    assert Failed(results) == [failed];
    assert steps[0].name == failed.stepName;
    assert Named(steps, [failed]);
    assert FirstNamedIndex(steps, "lint") == 0;
    assert [failed][..0] == [];
    assert FailedCommands(steps, [failed]) == ["`" + "ruff check ." + "`"];
    assert "`" + "ruff check ." + "`" == "`ruff check .`";
  }
}
