# vibe: checks, retries and resumable directory runs, in Dafny

`vibe` is a command-line supervisor. It sends the text of a prompt file to an
AI coding assistant that runs as an external process. Then it runs the
project's configured check commands. When checks fail, it asks the
assistant to fix them and runs the checks again, up to a retry budget. In
directory mode it works through every `.txt` and `.md` prompt file of a
directory in name order. It records each file that went through in a state
file, so an interrupted run can be resumed.

This project models four parts of it:

- `src/vibe/checks.py`: running one check step, the retry loop, and the fix
  prompt built from the failed steps.
- `src/vibe/cli/vibe.py`: the state file (load, mark complete, save), reading
  a prompt, loading the configuration, running the project checks, and the
  directory loop.
- `src/vibe/project_config.py`: the configuration records, their defaults,
  and the loader's decision between "no file", "empty document" and
  "validate".
- `src/vibe/cli/utils.py`: the upward search for the directory holding
  `.git`, and `NotInGitRepositoryError`.

## Layout

| file | module | contents |
|---|---|---|
| `wrappers.dfy` | `Wrappers` | `Option`, `Result` |
| `strings.dfy` | `Strings` | `Join`, `str.strip()` (Python's white space), name order and sorting, infix facts |
| `environment.dfy` | `Environment` | the outside world as oracles, the event trace and its projections |
| `config.dfy` | `Config` | `CheckStep`, `ChecksConfig`, `ProjectConfig`, `load_project_config` |
| `checks.dfy` | `Checks` | `run_check`, one pass, the fix prompt, the retry loop (methods and their specification functions) |
| `retry_properties.dfy` | `RetryProperties` | pass and fix-request counts, commands run, results returned, fix-prompt contents |
| `vibe.dfy` | `Vibe` | the state file as a class, `_read_prompt`, `_load_config`, `_run_project_checks`, `_process_directory` |
| `directory_properties.dfy` | `DirectoryProperties` | fail-stop, in-order reading, recording only after success, resumption |
| `utils.dfy` | `CliUtils` | `find_project_root` on lexical paths |

### How the outside world is modelled

Shell commands, the assistant process, prompt-file reads and state-file
writes are oracles of `Environment.World`. Each oracle is a function of the
history of events so far plus its argument. So a later call may answer
differently, for example after the assistant has fixed something.
Every method returns the extended history (`seq<Event>`). Call order and
call counts are stated on that history:

- `RanCommands`: the check commands launched, in order.
- `AssistantPrompts`: the prompts sent to the assistant.
- `FilesRead`: the prompt files read.
- `SavedFiles`: the file names for which a save of the state file was
  attempted, whether or not it succeeded.

Each operation that loops is an imperative method. Each method is proved
equal to a specification function:

- `Checks.RunChecksWithRetry` to `Checks.RetrySpec`;
- `Checks.RunAllSteps` to `Checks.RunPass`;
- `Checks.BuildFixPrompt` to `Checks.FixPrompt`;
- `Vibe.ProcessDirectory` to `Vibe.DirectorySpec`;
- `CliUtils.FindProjectRoot` to `CliUtils.NearestRoot`.

The properties are then proved about those functions.

The loops are written once, generically:

- `Checks.Loop` runs any attempt function that is sure to finish by a given
  attempt.
- `Vibe.ProcessFrom` runs any per-file step over a list of files.

Lemmas about a loop take, as their precondition, the per-step facts they
need. These facts are proved once for the real steps.

The state file is the class `Vibe.StateFile`. Its one field, `document`, is
what is on disk: no file, an undecodable file, a JSON value that is not an
object, or an object. `MarkComplete` changes `document` in place, as
`_mark_complete` does.

### Behaviours of the code worth knowing

- **Negative `max_retries`.** `ChecksConfig` declares `max_retries: int`
  with a default of 10 and no lower bound (`src/vibe/project_config.py:22`),
  so validation accepts a negative budget.
  - With a negative budget and at least one step, the `while` loop
    (`src/vibe/checks.py:91`) never runs.
  - The fallback `return results` (`src/vibe/checks.py:163-164`) then
    raises `UnboundLocalError`.
  - The model returns `Raised(UnboundResults)` without launching anything
    (`Checks.RetrySpec`).
  - `_run_project_checks` catches it and reports the checks as failed
    (`src/vibe/cli/vibe.py:201-204`, `Vibe.ProjectChecksPass`).
- **Duplicate step names.** `ChecksConfig.steps` is a plain list of
  `CheckStep` with no check that names differ
  (`src/vibe/project_config.py:9-21`).
  - The fix prompt looks each failed result's step up by name and takes the
    first match (`src/vibe/checks.py:124`).
  - So with duplicate names, the prompt can show another step's command.
  - `RetryProperties.DuplicateNamesUseFirstCommand` exhibits this.
  - The lemmas about the prompt's contents assume distinct names.
- **State-file writes.** `_save_state` logs a failure to open or write the
  file and returns normally (`src/vibe/cli/vibe.py:59-63`). Two cases
  behave differently:
  - The `mkdir` at `src/vibe/cli/vibe.py:57` is outside that `try`, so a
    failing `mkdir` raises. In a directory run it stops the run at that file
    (`StopReason.MarkRaised`).
  - A `json.dump` that fails after `open("w")` leaves a truncated file.
    `_load_state` then falls back to an empty state for every directory
    (`src/vibe/cli/vibe.py:45-47`, `Vibe.SaveThenLoad`).
  - So a later run resumes after the files completed so far only when every
    save succeeded. The resumption lemma `DirectoryProperties.Resumable`
    assumes exactly that.
- **Replies that are not objects.** The assistant's decoded JSON is used
  with `len` and `.get` (`src/vibe/cli/vibe.py:160` and
  `src/vibe/cli/vibe.py:163`).
  - For a number, a boolean or `null`, `len` raises a `TypeError`.
  - For a list or a string, `.get` raises.
  - In a directory run, either way stops the run at that file.
  - Fix requests ignore the reply entirely.
- **Configuration files that are not UTF-8.** Reading such a file inside
  `yaml.safe_load` raises `UnicodeDecodeError`.
  - That is a `ValueError`, not a YAML error, so
    `load_project_config` does not wrap it (`src/vibe/project_config.py:51-56`).
  - `_load_config` reports it as an invalid configuration
    (`src/vibe/cli/vibe.py:88-89`).
- **The file-system root.** `find_project_root` never looks at the root
  itself (or at `.` for a relative start), so a `.git` there is never found
  (`CliUtils.RootNeverConsulted`).

## Model

| member | source | states |
|---|---|---|
| Config.DefaultChecksConfig | src/vibe/project_config.py:16-22 | the default checks section has no steps and a retry budget of 10 |
| Config.DefaultProjectConfig | src/vibe/project_config.py:25-33 | the default configuration has no checks section |
| Config.LoadProjectConfig | src/vibe/project_config.py:36-65 | no file gives `None` and only then; an empty document gives the default configuration; a valid document gives what validation produced; a parse failure, and only a parse failure, is a YAML error; a validation failure, and only that, is a validation error; both messages start with their fixed prefix and contain the cause; a file that is not UTF-8, and only that, escapes as the unwrapped decode error; an open failure escapes as it is |
| Checks.RunCheck | src/vibe/checks.py:28-70 | the result names its step; success exactly when the process exited with 0, and exactly when `error` is absent; `output` is the captured stdout; a non-zero exit carries stderr; a launch exception gives an empty output and the exception text, and is never raised |
| Checks.DiagnosticOfCheck | src/vibe/checks.py:126 | a failed check's diagnostic is its stderr, else its stdout, else "No output"; for a launch that raised, the exception text, else "No output" |
| Checks.FailedFacts | src/vibe/checks.py:96-107 | the failed list holds only failing results of the pass, and is empty exactly when every check passed |
| Checks.FirstNamedIndex | src/vibe/checks.py:124 | the step found for a name is the first step carrying that name |
| Checks.Diagnostic | src/vibe/checks.py:126 | never empty; the error text when there is a non-empty one, otherwise the output when it is non-empty (`error or output or "No output"`) |
| Checks.FixPrompt | src/vibe/checks.py:129-134 | defines the fix prompt: the header, one `- ` bullet per failed command joined by newlines, the error-outputs header, the error outputs joined by newlines, the closing instruction; its properties are stated by `RetryProperties.FixPromptFrame` and `RetryProperties.FixPromptMentionsFailures` |
| Checks.BuildFixPrompt | src/vibe/checks.py:119-134 | the prompt built by the loop over failed results equals `FixPrompt` (header, one bullet per failed command, the error outputs, the closing instruction) |
| Checks.RunPass | src/vibe/checks.py:99-104 | a pass has exactly one result and one launch per step |
| Checks.PassAligned | src/vibe/checks.py:99-104 | launch `i` runs step `i`'s command and result `i` is what `run_check` makes of its outcome |
| Checks.PassTrace | src/vibe/checks.py:99-104 | a pass launches the step commands in declaration order, and nothing else: no assistant call, no file touched |
| Checks.PassNamesSteps | src/vibe/checks.py:99-104 | result `i` carries step `i`'s name, so every failed result's step can be looked up |
| Checks.RunAllSteps | src/vibe/checks.py:96-104 | the loop's results, failed list and trace are exactly those of one pass, with the failed list being the failing results in order |
| Checks.Attempt | src/vibe/checks.py:91-161 | an attempt only goes on to the next one while the retry count is below `max_retries` |
| Checks.AfterFixCases | src/vibe/checks.py:140-161 | any reply to the fix request continues the loop; each of the provider's three errors returns the current results; any other exception escapes |
| Checks.Loop | src/vibe/checks.py:91-161 | defines the `while` loop over attempts for any attempt function that is sure to finish by attempt `last`: the first attempt that finishes gives the run; it terminates because `last - k` decreases |
| Checks.AttemptOf | src/vibe/checks.py:91-161 | every attempt from `max_retries` on ends the loop |
| Checks.RetryFrom | src/vibe/checks.py:91-161 | defines the loop from attempt `k` as `Loop` over the real attempts; unfolded by `Checks.RetryFromUnfolds`, its counts and results are stated by `RetryProperties.RetryPasses`, `RetryCommands`, `RetryCalls` and `RetryResults` |
| Checks.RetryFromUnfolds | src/vibe/checks.py:91-161 | the loop from attempt `k` is attempt `k` followed, if it goes on, by the loop from `k + 1` |
| Checks.RetrySpec | src/vibe/checks.py:85-164 | defines `run_checks_with_retry`: no steps returns `[]` at once; a negative budget raises `UnboundLocalError`; otherwise the loop from attempt 0; stated by `RetryProperties.RetrySpecCounts` |
| Checks.RunAttempt | src/vibe/checks.py:92-161 | one iteration of the `while` body equals `Attempt` |
| Checks.RunChecksWithRetry | src/vibe/checks.py:73-164 | with no steps it returns `[]` and touches nothing; otherwise its outcome and trace are those of `RetrySpec` |
| RetryProperties.AttemptCommands | src/vibe/checks.py:96-104 | every attempt runs each step's command once, in declaration order, and counts one pass |
| RetryProperties.AttemptTrace | src/vibe/checks.py:91-161 | an attempt adds one pass of launches, touches no file, and sends one fix request unless it ended because all passed or the budget ran out |
| RetryProperties.AttemptEnding | src/vibe/checks.py:106-161 | how an attempt ends: all passed exactly when every result passed; the budget runs out only at `max_retries`; a fix failure or escape only below it; a provider error returns this pass's results; the last event is the fix request with its outcome |
| RetryProperties.RetryPasses | src/vibe/checks.py:91-161 | between 1 and `max_retries + 1` passes; exactly `max_retries + 1` when the budget ran out; at most `max_retries` when a fix request failed |
| RetryProperties.LoopCommands | src/vibe/checks.py:91-161 | for any attempt function that runs the commands once per pass, the loop runs them once per pass it makes |
| RetryProperties.AttemptsRunCommands | src/vibe/checks.py:91-161 | the real attempts finish by `max_retries` and run the step commands once each per pass |
| RetryProperties.RetryCommands | src/vibe/checks.py:91-161 | the commands launched are the step commands repeated once per pass, and nothing else |
| RetryProperties.RetryCalls | src/vibe/checks.py:129-161 | one fix request per pass, except after a final pass that passed or used up the budget; no file is touched |
| RetryProperties.RetryResults | src/vibe/checks.py:91-161 | a returned list has one result per step, in order, each what `run_check` made of the last pass's launch of that step; it is all-passing exactly when the loop ended because all passed; an escape happens only on a fix request's foreign exception |
| RetryProperties.EveryPassFailing | src/vibe/checks.py:91-117 | when every pass fails and every fix request is answered, the loop makes exactly `max_retries + 1` passes and `max_retries` fix requests, and returns failing results |
| RetryProperties.RetrySpecCounts | src/vibe/checks.py:85-164 | no steps: `[]` and no calls; a negative budget: `UnboundLocalError` and no calls; otherwise 1 to `max_retries + 1` passes, the commands once per pass, and at most `max_retries` fix requests |
| RetryProperties.FixPromptFrame | src/vibe/checks.py:129-134 | the fix prompt starts with "The following checks failed:" and ends with the instruction to run the commands and fix the issues |
| RetryProperties.FailedStepCommandsMembers | src/vibe/checks.py:123-125 | the reference list of failed commands holds the command of every failed step and of failed steps only |
| RetryProperties.FailedStepOutputsMembers | src/vibe/checks.py:123-127 | the reference list of error outputs holds every failed step's name with its diagnostic |
| RetryProperties.FirstNamedIsOwn | src/vibe/checks.py:124 | with distinct names, looking a step's name up finds that step |
| RetryProperties.FixListsOfAppend | src/vibe/checks.py:123-127 | one more failed result adds exactly one command and one error output, in order |
| RetryProperties.FailedAreNamed | src/vibe/checks.py:123-124 | a failed result of a pass always has a step to look up, so the lookup cannot raise `StopIteration` |
| RetryProperties.FixListsAreFailedSteps | src/vibe/checks.py:119-127 | with distinct names, the loop's commands and error outputs are exactly the failed steps', in step order |
| RetryProperties.CommandInPrompt | src/vibe/checks.py:129-131 | every listed command appears in the prompt as a bullet |
| RetryProperties.OutputInPrompt | src/vibe/checks.py:129-132 | every error output appears in the prompt |
| RetryProperties.FailedStepInPrompt | src/vibe/checks.py:119-134 | every failed step's command, as a bullet, and its name and diagnostic appear in the prompt |
| RetryProperties.ListedCommandIsFailedStep | src/vibe/checks.py:123-131 | every bullet of the prompt is the command of a step that failed |
| RetryProperties.BulletsAreFailedSteps | src/vibe/checks.py:123-131 | no passing step's command is listed |
| RetryProperties.FixPromptMentionsFailures | src/vibe/checks.py:96-134 | for a real pass: the prompt lists every failed step's command and diagnostic, and lists no other command |
| RetryProperties.DuplicateNamesUseFirstCommand | src/vibe/checks.py:124 | with two steps of the same name, the second failing, the prompt shows the first step's command |
| Vibe.LoadState | src/vibe/cli/vibe.py:27-47 | an object is the state; a missing file, an undecodable file and a non-object value give the empty state |
| Vibe.Completed | src/vibe/cli/vibe.py:246 | the completed set holds exactly the names on the directory's list |
| Vibe.WithCompleted | src/vibe/cli/vibe.py:73-78 | the key is added if missing; every other directory is unchanged; the old list is kept and the file is appended only if absent; nothing but the file is added |
| Vibe.MarkIsIdempotent | src/vibe/cli/vibe.py:75-78 | marking a file twice is the same as marking it once |
| Vibe.MarkKeepsDistinct | src/vibe/cli/vibe.py:77-78 | a list without repeats stays without repeats |
| Vibe.Stored | src/vibe/cli/vibe.py:50-63 | defines the state file after a save: the full object when written; unchanged when `mkdir` or `open` failed; truncated and undecodable when the dump failed; stated by `Vibe.SaveThenLoad` |
| Vibe.SaveThenLoad | src/vibe/cli/vibe.py:50-63 | a successful save is read back as written; a failing `mkdir` or `open` leaves the old state; a failing dump loses all state |
| Vibe.StateFile.Load | src/vibe/cli/vibe.py:27-47 | the loaded state is `LoadState` of the file |
| Vibe.StateFile.MarkComplete | src/vibe/cli/vibe.py:66-79 | one save event; the file now holds the marked state as the save outcome leaves it; only a failing `mkdir` escapes, with its message |
| Vibe.ReadPrompt | src/vibe/cli/vibe.py:102-113 | a missing file, a read failure and an empty prompt are fatal, each with its own reason; a prompt is returned only from text and is never empty |
| Vibe.PromptIsStrippedText | src/vibe/cli/vibe.py:105-113 | a prompt is accepted exactly when the text has a non-white-space character; the prompt is the text stripped at both ends, a piece of the file that starts and ends with something other than white space, and everything in the file before and after that piece is white space |
| Vibe.LoadConfig | src/vibe/cli/vibe.py:82-99 | succeeds exactly when the loader does, with its value; a YAML error becomes the invalid-YAML reason; a `ValueError`, and only that (a validation error or an undecodable file), becomes the invalid-configuration reason; any other error becomes the load-failed reason; each carries the cause |
| Vibe.ProjectChecks | src/vibe/cli/vibe.py:175-204 | defines `_run_project_checks`: passes at once without a checks section; otherwise runs the retry loop and passes when no returned result failed; an exception fails; stated by `Vibe.ProjectChecksPass` |
| Vibe.ProjectChecksPass | src/vibe/cli/vibe.py:175-204 | passes exactly when there is no checks section or the loop ended because all passed; an exception (including a negative budget) counts as failing; no file is touched |
| Vibe.RunProjectChecks | src/vibe/cli/vibe.py:175-204 | the method's verdict and trace are those of `ProjectChecks` |
| Vibe.ProjectChecksTouchNoFiles | src/vibe/cli/vibe.py:175-204 | running the checks reads no prompt and writes no state |
| Vibe.FileStep | src/vibe/cli/vibe.py:267-268 | defines one loop iteration: read the prompt (a refused prompt is fatal), then send it to the assistant; stated by `DirectoryProperties.FileStepFacts` |
| Vibe.Answered | src/vibe/cli/vibe.py:269-299 | defines the iteration after the answer: a provider error, another exception, or a reply that is not an object stops the run at this file; otherwise the checks run; stated by `DirectoryProperties.AnsweredFacts` |
| Vibe.Checked | src/vibe/cli/vibe.py:270-281 | defines the iteration after the checks: failing checks stop the run; passing checks mark the file complete, and a failing `mkdir` then stops the run; stated by `DirectoryProperties.CheckedFacts` |
| Vibe.DirectorySpec | src/vibe/cli/vibe.py:223-303 | defines `_process_directory`: no files, then nothing remaining, then a configuration failure end the run before any file; otherwise the loop over the remaining files; stated by `DirectoryProperties.DirectoryCases`, `DirectoryEnds`, `DirectoryFiles` and `Resumable` |
| Vibe.Remaining | src/vibe/cli/vibe.py:249 | the remaining files are exactly the found ones not completed |
| Vibe.ProcessFile | src/vibe/cli/vibe.py:267-299 | one loop iteration stops exactly when `FileStep` does, with the same outcome, trace and state file |
| Vibe.ProcessDirectory | src/vibe/cli/vibe.py:223-303 | outcome, trace and state file are those of `DirectorySpec` |
| Strings.StripIsEmptyIff | src/vibe/cli/vibe.py:105 | `strip()` gives the empty string exactly when every character is white space; otherwise it starts and ends with a non-white-space character and is a piece of its input; what lies before and after that piece is all white space |
| Strings.Strip | src/vibe/cli/vibe.py:105 | `strip()` gives the piece of its input that starts after the leading white space, neither starts nor ends with white space, and is followed only by white space |
| Strings.SortByName | src/vibe/cli/vibe.py:239 | sorting by name gives a sorted permutation |
| Strings.SortedIsUnique | src/vibe/cli/vibe.py:239 | two sorted permutations of the same names are equal, so the order does not depend on how the globs listed the files |
| Strings.SortKeepsDistinct | src/vibe/cli/vibe.py:239 | sorting keeps names distinct and keeps the same names |
| DirectoryProperties.CheckedFacts | src/vibe/cli/vibe.py:270-281 | after the checks, a save of the file's completion is attempted exactly when they passed; a failure stops at this file with the state file untouched |
| DirectoryProperties.AnsweredFacts | src/vibe/cli/vibe.py:269-299 | after the assistant's answer, a save of the file's completion is attempted exactly when the reply was an object and the checks passed; otherwise the state file is untouched and the run stops at this file |
| DirectoryProperties.FileStepFacts | src/vibe/cli/vibe.py:267-299 | one iteration reads exactly its file, attempts to save its completion exactly when it went through, stops only at this file or fatally on its prompt, and leaves the state file untouched when it attempts no save |
| DirectoryProperties.SentFileFacts | src/vibe/cli/vibe.py:267-299 | the same, for a prompt that was read |
| DirectoryProperties.SentFileStep | src/vibe/cli/vibe.py:267-270 | an accepted prompt is read and sent to the assistant, and nothing is saved before the answer |
| DirectoryProperties.RefusedFileFacts | src/vibe/cli/vibe.py:267-268 | the same, for a prompt that was refused: the run ends there without saving |
| DirectoryProperties.StepOfBehaves | src/vibe/cli/vibe.py:262-299 | the loop body reads its file, attempts a save only for a file it records, stops only at its own file, and marks the file when it goes on |
| DirectoryProperties.MarkedAllFacts | src/vibe/cli/vibe.py:73-78 | marking a list of files changes only that directory, keeps its old list, and adds exactly those files |
| DirectoryProperties.MarkedAllAppends | src/vibe/cli/vibe.py:73-78 | marking distinct new files appends them, in order |
| DirectoryProperties.MarkNew | src/vibe/cli/vibe.py:77-78 | marking a new file appends it and nothing else |
| DirectoryProperties.ProcessShape | src/vibe/cli/vibe.py:262-303 | the loop completes at most all files, completes all exactly when it ends with success, and a stop names the first file not completed |
| DirectoryProperties.ProcessReads | src/vibe/cli/vibe.py:262-268 | the prompt files read are the files up to and including the one where the run stopped, in order; no later file is read |
| DirectoryProperties.ProcessSaves | src/vibe/cli/vibe.py:272-274 | the files for which a save was attempted, successful or not, are a prefix of the remaining files, in order |
| DirectoryProperties.ProcessRecordsDone | src/vibe/cli/vibe.py:262-299 | when every save succeeds, the state afterwards is the old state with the completed files marked, in order |
| DirectoryProperties.RemainingKeepsOrder | src/vibe/cli/vibe.py:249 | filtering keeps the sorted order and keeps names distinct |
| DirectoryProperties.ResumeSkipsDone | src/vibe/cli/vibe.py:246-249 | marking the first `done` remaining files leaves exactly the rest remaining |
| DirectoryProperties.RemainingOfFacts | src/vibe/cli/vibe.py:239-249 | the files a run takes on are in name order and distinct |
| DirectoryProperties.DirectoryCases | src/vibe/cli/vibe.py:223-303 | no files and nothing remaining are decided, in that order, before the configuration is loaded; those and a configuration failure touch nothing; otherwise the run is the loop over the remaining files |
| DirectoryProperties.DirectoryEnds | src/vibe/cli/vibe.py:223-303 | how a directory run ends: no files, nothing remaining, a configuration failure, all remaining files done, or a stop at the first remaining file not done |
| DirectoryProperties.DirectoryFiles | src/vibe/cli/vibe.py:262-299 | a run reads a prefix of the remaining files and attempts saves for a prefix of those it read, in name order; files after the stop are never touched |
| DirectoryProperties.LoopResumes | src/vibe/cli/vibe.py:244-299 | after the loop, the files still remaining are exactly those it did not complete |
| DirectoryProperties.Resumable | src/vibe/cli/vibe.py:223-303 | when every save succeeds, running again on the same files takes on exactly the files after the last completed one, and nothing after a fully successful run |
| DirectoryProperties.ResumeAfter | src/vibe/cli/vibe.py:244-299 | the same for any run that either started the loop or did nothing |
| CliUtils.Parent | src/vibe/cli/utils.py:65 | the parent drops the last part; the root and `.` are their own parents |
| CliUtils.StartOf | src/vibe/cli/utils.py:60 | the walk starts at the given directory, or the working directory when none is given |
| CliUtils.NearestRoot | src/vibe/cli/utils.py:60-67 | a directory found holds `.git` and is an ancestor of the start, with at least one part: neither the root nor `.` is ever returned |
| CliUtils.NearestRootIsDeepest | src/vibe/cli/utils.py:60-67 | a result is an ancestor other than the root, holds `.git`, and no deeper ancestor does; nothing is found exactly when no ancestor other than the root holds `.git` |
| CliUtils.RootNeverConsulted | src/vibe/cli/utils.py:62 | the root itself is never tested for `.git` |
| CliUtils.FindProjectRoot | src/vibe/cli/utils.py:48-67 | the loop finds a directory exactly when `NearestRoot` does, and the same one; otherwise `NotInGitRepositoryError` with "Not in a git repository" |

## Left out

- `main`, `_process_single_file` and the command line: choosing a mode and exit codes are not modelled. The single-file path reuses `ReadPrompt`, `LoadConfig` and `ProjectChecks`, where `fatal` would end the process.
- Console output: `info`, `warning`, `error`, `success` and the text of `fatal`'s messages are not modelled. `fatal` becomes a `FatalReason` that ends the run, so the directory loop's `except Exception` does not catch it.
- Console output is assumed never to raise. Rich markup errors, from an unmatched closing tag in a step's name or command, in the stderr quoted by the fix prompt, or in the assistant's reply text (`src/vibe/checks.py:37`, `src/vibe/checks.py:53`, `src/vibe/checks.py:137`, `src/vibe/cli/vibe.py:134`, `src/vibe/cli/vibe.py:170`), are not modelled. Such an error could make `run_check` raise, turn a passing check into a failure with empty output, end the retry loop before the fix request, or stop a directory run at a file the model lets through.
- The assistant provider `invoke` is an oracle. It answers with an object, a value that is not an object, one of its three errors, or another exception. Its command line, JSON parsing and error texts are not part of this model.
- Real process launches, shell semantics and captured output are an oracle that answers with an exit code, stdout and stderr, or a launch exception.
- Globbing is not modelled: the names the two globs found are parameters. Paths are compared by name alone, since all files of one directory differ by name.
- `Path.resolve()` is not modelled: the directory key is a parameter.
- YAML parsing and pydantic validation are not modelled: `ConfigFileStatus` gives their outcome. The validated configuration is taken as given. That a document without `max_retries` gets the default of 10 (`Config.DefaultChecksConfig`) is assumed of that outcome, not derived from it.
- JSON encoding of the state file is not modelled. A stored object is assumed to map directory keys to lists of names. A list holding other JSON values, or a key bound to something other than a list, is not modelled.
- A read failure that is not `FileNotFoundError`, such as invalid UTF-8, is `ReadRaised`.
- Concurrency: two processes editing the same state file are not modelled. The state file changes only through this process.
- `CliUtils.Parent`: paths are lexical, an absolute flag plus name parts. Windows drives and anchors, `..`, and symlinks are not modelled.
- Whether `<dir>/.git` exists is an oracle, `hasGit`.
- Log lines are not part of the trace. This covers the retry loop's line for each retry and its log of the fix prompt.
