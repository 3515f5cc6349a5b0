/** The directory mode of the command line: the state file that records
    which prompt files of a directory are done, reading one prompt file,
    loading the configuration, running the project's checks after each
    prompt, and the loop over the files still to do, which stops at the
    first file that does not go through. */
module Vibe {
  import opened Wrappers
  import opened Strings
  import opened Environment
  import opened Config
  import opened Checks
  import RetryProperties

  // ---- the state file ----

  /** The completed file names of each directory, keyed by the directory's
      resolved path. */
  type State = map<string, seq<string>>

  /** What `.vibe/state.json` holds: nothing, something that cannot be
      opened or decoded, a JSON value other than an object, or an object. */
  datatype StateDocument =
    | NoFile
    | Unreadable(message: string)
    | NonObject
    | Object(entries: State)

  /** `_load_state()`: the stored object; every other case gives an empty
      state (a decoding or reading failure only logs a warning). */
  function LoadState(doc: StateDocument): (s: State)
    ensures doc.Object? ==> s == doc.entries
    ensures !doc.Object? ==> s == map[]
  {
    if doc.Object? then doc.entries else map[]
  }

  /** `state.get(key, [])` */
  function CompletedIn(state: State, key: string): seq<string>
  {
    if key in state then state[key] else []
  }

  /** `set(state.get(key, []))` */
  function Completed(state: State, key: string): (c: set<string>)
    ensures forall f :: f in c <==> f in CompletedIn(state, key)
  {
    set f | f in CompletedIn(state, key)
  }

  /** The state `_mark_complete` saves: `file` is on the list of `key`,
      appended at the end unless it was there already; the old list is
      kept as it was and no other directory changes. */
  function WithCompleted(state: State, key: string, file: string): (s: State)
    ensures s.Keys == state.Keys + {key}
    ensures forall k :: k in state && k != key ==> s[k] == state[k]
    ensures CompletedIn(state, key) <= s[key]
    ensures |s[key]| == |CompletedIn(state, key)| + (if file in CompletedIn(state, key) then 0 else 1)
    ensures forall f :: f in s[key] <==> f in CompletedIn(state, key) || f == file
  {
    var list := CompletedIn(state, key);
    state[key := if file in list then list else list + [file]]
  }

  /** Marking a file twice is the same as marking it once. */
  lemma MarkIsIdempotent(state: State, key: string, file: string)
    ensures WithCompleted(WithCompleted(state, key, file), key, file) == WithCompleted(state, key, file)
  {
  }

  /** A list without repeated names stays without repeated names. */
  lemma MarkKeepsDistinct(state: State, key: string, file: string)
    requires NoDuplicates(CompletedIn(state, key))
    ensures NoDuplicates(WithCompleted(state, key, file)[key])
  {
  }

  /** The state file after `_save_state(state)` ended with `save`: written
      in full; untouched when the directory could not be made or the file
      could not be opened; truncated and left undecodable when writing the
      JSON failed part way. */
  function Stored(doc: StateDocument, state: State, save: SaveOutcome): StateDocument
  {
    match save
    case Saved => Object(state)
    case MkdirRaised(_) => doc
    case OpenRaised(_) => doc
    case DumpRaised(m) => Unreadable(m)
  }

  /** What a successful save writes, the next load reads back; a save that
      fails before opening the file leaves the old state readable, and one
      that fails while writing loses every directory's record. */
  lemma SaveThenLoad(doc: StateDocument, state: State, save: SaveOutcome)
    ensures save.Saved? ==> LoadState(Stored(doc, state, save)) == state
    ensures save.MkdirRaised? || save.OpenRaised? ==> LoadState(Stored(doc, state, save)) == LoadState(doc)
    ensures save.DumpRaised? ==> LoadState(Stored(doc, state, save)) == map[]
  {
  }

  /** The state file, which only this process changes while it runs. */
  class StateFile {
    var document: StateDocument

    constructor (doc: StateDocument)
      ensures document == doc
    {
      document := doc;
    }

    /** `_load_state()` */
    method Load() returns (state: State)
      ensures state == LoadState(document)
    {
      match document
      case Object(entries) =>
        state := entries;
      case _ =>
        state := map[];
    }

    /** `_mark_complete(directory, file)`: load the state, put `file` on the
        list of `key`, save. A failing `mkdir` escapes the call and is
        returned as `Some(message)`; a failing open or write is logged and
        swallowed. */
    method MarkComplete(key: string, file: string, world: World, trace0: seq<Event>)
      returns (raised: Option<string>, trace: seq<Event>)
      modifies this
      ensures trace == trace0 + [StateSaved(file, world.save(trace0))]
      ensures document == Stored(old(document), WithCompleted(LoadState(old(document)), key, file), world.save(trace0))
      ensures raised.Some? <==> world.save(trace0).MkdirRaised?
      ensures raised.Some? ==> raised.value == world.save(trace0).message
    {
      var state := Load();
      if key !in state {
        state := state[key := []];
      }
      if file !in state[key] {
        state := state[key := state[key] + [file]];
      }
      assert state == WithCompleted(LoadState(old(document)), key, file);
      var save := world.save(trace0);
      trace := trace0 + [StateSaved(file, save)];
      raised := None;
      match save
      case Saved =>
        document := Object(state);
      case MkdirRaised(m) =>
        raised := Some(m);
      case OpenRaised(_) =>
      case DumpRaised(m) =>
        document := Unreadable(m);
    }
  }

  // ---- prompt, configuration, checks ----

  /** Why the program ends with `fatal` (a `SystemExit`, which the
      per-file `except Exception` does not catch). */
  datatype FatalReason =
    | PromptFileNotFound
    | PromptReadFailed(message: string)
    | PromptFileEmpty
    | InvalidYaml(message: string)
    | InvalidConfiguration(message: string)
    | ConfigLoadFailed(message: string)
  {
    /** The configuration, not a prompt file, was at fault. */
    predicate FromConfig()
    {
      InvalidYaml? || InvalidConfiguration? || ConfigLoadFailed?
    }
  }

  /** `_read_prompt(file)` on what reading the file gave: the stripped
      text, unless it is empty; a missing or unreadable file is fatal. */
  function ReadPrompt(read: ReadOutcome): (r: Result<string, FatalReason>)
    ensures r.Success? ==> read.Text? && r.value != ""
    ensures read.FileMissing? ==> r == Failure(PromptFileNotFound)
    ensures read.ReadRaised? ==> r == Failure(PromptReadFailed(read.message))
    ensures read.Text? && r.Failure? ==> r.error == PromptFileEmpty
  {
    match read
    case FileMissing => Failure(PromptFileNotFound)
    case ReadRaised(m) => Failure(PromptReadFailed(m))
    case Text(content) =>
      var prompt := Strip(content);
      if prompt == "" then Failure(PromptFileEmpty) else Success(prompt)
  }

  /** A prompt is accepted exactly when the file holds a character that is
      not white space; what is sent is the file's text without the white
      space at either end, a piece of the file that starts and ends with
      something else. */
  lemma PromptIsStrippedText(read: ReadOutcome)
    ensures var r := ReadPrompt(read);
            && (r.Success? <==> read.Text? && exists i :: 0 <= i < |read.content| && !IsSpace(read.content[i]))
            && (r.Success? ==>
                  && r.value == Strip(read.content)
                  && !IsSpace(r.value[0]) && !IsSpace(r.value[|r.value| - 1])
                  && Infix(r.value, read.content)
                  && var k := |read.content| - |TrimStart(read.content)|;
                     && OccursAt(r.value, read.content, k)
                     && (forall i :: 0 <= i < k ==> IsSpace(read.content[i]))
                     && (forall i :: k + |r.value| <= i < |read.content| ==> IsSpace(read.content[i])))
  {
    if read.Text? {
      StripIsEmptyIff(read.content);
    }
  }

  /** `_load_config()`: what the loader returned, or the fatal error for
      each kind of exception: a YAML error; a `ValueError`, which is a
      validation error or a file that is not valid UTF-8; anything else. */
  function LoadConfig(file: ConfigFileStatus, path: string): (r: Result<Option<ProjectConfig>, FatalReason>)
    ensures r.Success? <==> LoadProjectConfig(file, path).Success?
    ensures r.Failure? ==> r.error.FromConfig()
    ensures r.Failure? && r.error.InvalidConfiguration? <==>
              LoadProjectConfig(file, path).Failure? && LoadProjectConfig(file, path).error.IsValueError()
    ensures r.Success? ==> r.value == LoadProjectConfig(file, path).value
    ensures file.Absent? ==> r == Success(None)
    ensures file.YamlUnparsable? ==> r.Failure? && r.error.InvalidYaml? && Infix(file.message, r.error.message)
    ensures file.Document? && file.validated.Failure? ==>
              r.Failure? && r.error.InvalidConfiguration? && Infix(file.validated.error, r.error.message)
    ensures file.DecodeRaised? ==> r == Failure(InvalidConfiguration(file.message))
    ensures file.OpenRaised? ==> r == Failure(ConfigLoadFailed(file.message))
  {
    match LoadProjectConfig(file, path)
    case Success(config) => Success(config)
    case Failure(YamlError(m)) => Failure(InvalidYaml(m))
    case Failure(ValidationError(m)) => Failure(InvalidConfiguration(m))
    case Failure(DecodeError(m)) => Failure(InvalidConfiguration(m))
    case Failure(OtherError(m)) => Failure(ConfigLoadFailed(m))
  }

  /** Whether the checks passed, and the trace after running them. */
  datatype ChecksRun = ChecksRun(passed: bool, trace: seq<Event>)

  /** `config and config.checks`: a configuration with a `checks` section. */
  predicate HasChecks(config: Option<ProjectConfig>)
  {
    config.Some? && config.value.checks.Some?
  }

  /** `_run_project_checks(config)`: no configuration or no `checks`
      section passes at once; otherwise the retry loop runs, and the checks
      pass when none of the results it returns failed; an exception out of
      the loop counts as failing. */
  function ProjectChecks(config: Option<ProjectConfig>, world: World, trace: seq<Event>): ChecksRun
  {
    if !HasChecks(config) then ChecksRun(true, trace)
    else
      var r := RetrySpec(config.value.checks.value, world, trace);
      match r.outcome
      case Returned(results) => ChecksRun(|Failed(results)| == 0, r.trace)
      case Raised(_) => ChecksRun(false, r.trace)
  }

  /** The checks pass exactly when there are none to run or the retry loop
      ended because every step passed; an empty step list and a negative
      budget are decided without launching anything, and the checks never
      read a prompt file or touch the state file. */
  lemma ProjectChecksPass(config: Option<ProjectConfig>, world: World, trace: seq<Event>)
    ensures var c := ProjectChecks(config, world, trace);
            && (c.passed <==> !HasChecks(config) || RetrySpec(config.value.checks.value, world, trace).ending == AllPassed)
            && FileEvents(c.trace) == FileEvents(trace)
            && (!HasChecks(config) ==> c.trace == trace)
            && (HasChecks(config) && config.value.checks.value.steps == [] ==> c.passed && c.trace == trace)
            && (HasChecks(config) && config.value.checks.value.steps != [] && config.value.checks.value.maxRetries < 0
                ==> !c.passed && c.trace == trace)
  {
    if config.Some? && config.value.checks.Some? {
      var checks := config.value.checks.value;
      var r := RetrySpec(checks, world, trace);
      if checks.steps != [] && checks.maxRetries >= 0 {
        RetryProperties.RetryResults(checks, world, 0, trace);
        RetryProperties.RetryCalls(checks, world, 0, trace);
      }
      if r.outcome.Returned? {
        FailedFacts(r.outcome.results);
      }
    }
  }

  /** `_run_project_checks(config)` */
  method RunProjectChecks(config: Option<ProjectConfig>, world: World, trace0: seq<Event>)
    returns (passed: bool, trace: seq<Event>)
    ensures ChecksRun(passed, trace) == ProjectChecks(config, world, trace0)
  {
    if !HasChecks(config) {
      return true, trace0;
    }
    var outcome;
    outcome, trace := RunChecksWithRetry(config.value.checks.value, world, trace0);
    match outcome
    case Returned(results) =>
      var failed := Failed(results);
      passed := |failed| == 0;
    case Raised(_) =>
      passed := false;
  }

  /** The checks a directory run performs after each prompt. */
  function ChecksOf(config: Option<ProjectConfig>, world: World): (f: seq<Event> -> ChecksRun)
    ensures forall t :: f(t) == ProjectChecks(config, world, t)
  {
    t => ProjectChecks(config, world, t)
  }

  /** Running the checks reads no prompt file and writes no state. */
  ghost predicate TouchesNoFiles(checks: seq<Event> -> ChecksRun)
  {
    forall t :: FileEvents(checks(t).trace) == FileEvents(t)
  }

  lemma ProjectChecksTouchNoFiles(config: Option<ProjectConfig>, world: World)
    ensures TouchesNoFiles(ChecksOf(config, world))
  {
    forall t ensures FileEvents(ChecksOf(config, world)(t).trace) == FileEvents(t) {
      ProjectChecksPass(config, world, t);
    }
  }

  // ---- processing a directory ----

  /** Why the loop over a directory's files stopped at a file: the provider
      raised one of its three errors; the reply was not a JSON object (the
      report of it raises); another exception escaped; the checks did not
      pass; or the state directory could not be made. All but the first
      are reported by the loop's `except Exception`. */
  datatype StopReason =
    | AssistantError(error: InvokeOutcome)
    | ReplyNotObject
    | UnexpectedError(message: string)
    | ChecksFailed
    | MarkRaised(message: string)

  /** How `_process_directory` ended. */
  datatype DirOutcome =
    | NoPromptFiles
    | NothingRemaining
    | AllProcessed
    | Stopped(file: string, reason: StopReason)
    | Fatal(fatal: FatalReason)

  /** A run over a directory: its outcome, the state file and the trace
      after it, and how many files it completed. */
  datatype DirRun = DirRun(outcome: DirOutcome, document: StateDocument, trace: seq<Event>, done: nat)

  /** One file of the loop either ends the run or lets it go on. */
  datatype FileEnd =
    | Stop(outcome: DirOutcome, document: StateDocument, trace: seq<Event>)
    | Next(document: StateDocument, trace: seq<Event>)

  /** One iteration of the loop in `_process_directory`: read the prompt,
      send it to the assistant, run the checks, and record the file as
      complete only when all of that went through. */
  function FileStep(checks: seq<Event> -> ChecksRun, key: string, file: string, world: World,
                    doc: StateDocument, trace: seq<Event>): FileEnd
  {
    var read := world.read(trace, file);
    var t1 := trace + [PromptRead(file, read)];
    match ReadPrompt(read)
    case Failure(reason) => Stop(Fatal(reason), doc, t1)
    case Success(prompt) =>
      var reply := world.invoke(t1, prompt);
      Answered(checks, key, file, world, doc, reply, t1 + [AssistantCalled(prompt, reply)])
  }

  /** The iteration once the assistant gave `reply`: `_invoke_claude_with_reporting`
      re-raises the provider's errors, and any other exception, as well as
      reporting a reply that is not an object, ends in the generic handler. */
  function Answered(checks: seq<Event> -> ChecksRun, key: string, file: string, world: World,
                    doc: StateDocument, reply: InvokeOutcome, trace: seq<Event>): FileEnd
  {
    if reply.IsProviderError() then Stop(Stopped(file, AssistantError(reply)), doc, trace)
    else if reply.OtherException? then Stop(Stopped(file, UnexpectedError(reply.message)), doc, trace)
    else if reply.reply.NonObjectReply? then Stop(Stopped(file, ReplyNotObject), doc, trace)
    else Checked(key, file, world, doc, checks(trace))
  }

  /** The iteration once the checks ran: stop when they failed, otherwise
      `_mark_complete`, whose failing `mkdir` also stops the run. */
  function Checked(key: string, file: string, world: World, doc: StateDocument, c: ChecksRun): FileEnd
  {
    if !c.passed then Stop(Stopped(file, ChecksFailed), doc, c.trace)
    else
      var save := world.save(c.trace);
      var doc' := Stored(doc, WithCompleted(LoadState(doc), key, file), save);
      var trace' := c.trace + [StateSaved(file, save)];
      if save.MkdirRaised? then Stop(Stopped(file, MarkRaised(save.message)), doc', trace')
      else Next(doc', trace')
  }

  /** The loop over `files` with the body `step`, from the state file `doc`
      and the trace `trace` on. */
  function ProcessFrom(step: (string, StateDocument, seq<Event>) -> FileEnd, files: seq<string>,
                       doc: StateDocument, trace: seq<Event>): DirRun
    decreases |files|
  {
    if files == [] then DirRun(AllProcessed, doc, trace, 0)
    else match step(files[0], doc, trace)
      case Stop(outcome, doc', trace') => DirRun(outcome, doc', trace', 0)
      case Next(doc', trace') =>
        var r := ProcessFrom(step, files[1..], doc', trace');
        r.(done := r.done + 1)
  }

  /** The loop body of a directory run. */
  function StepOf(checks: seq<Event> -> ChecksRun, key: string, world: World): (step: (string, StateDocument, seq<Event>) -> FileEnd)
    ensures forall f, d, t :: step(f, d, t) == FileStep(checks, key, f, world, d, t)
  {
    (f, d, t) => FileStep(checks, key, f, world, d, t)
  }

  /** `[f for f in files if f.name not in completed]`: the files not yet
      done, in their order. */
  function Remaining<T(==,!new)>(files: seq<T>, completed: set<T>): (r: seq<T>)
    ensures forall f :: f in r <==> f in files && f !in completed
    ensures |r| <= |files|
  {
    if files == [] then []
    else (if files[0] in completed then [] else [files[0]]) + Remaining(files[1..], completed)
  }

  /** The files a run over a directory takes on: the `.txt` and `.md` files
      found, sorted by name, less those the state records as done. */
  function RemainingOf(found: seq<string>, doc: StateDocument, key: string): seq<string>
  {
    Remaining(SortByName(found), Completed(LoadState(doc), key))
  }

  /** `_process_directory(directory)` given the names the two globs found,
      the directory's resolved path `key`, the configuration file and the
      state file as they are when it starts. */
  function DirectorySpec(key: string, txtNames: seq<string>, mdNames: seq<string>,
                         configFile: ConfigFileStatus, configPath: string, world: World,
                         doc: StateDocument, trace: seq<Event>): DirRun
  {
    var found := txtNames + mdNames;
    if found == [] then DirRun(NoPromptFiles, doc, trace, 0)
    else
      var remaining := RemainingOf(found, doc, key);
      if remaining == [] then DirRun(NothingRemaining, doc, trace, 0)
      else match LoadConfig(configFile, configPath)
        case Failure(reason) => DirRun(Fatal(reason), doc, trace, 0)
        case Success(config) => ProcessFrom(StepOf(ChecksOf(config, world), key, world), remaining, doc, trace)
  }

  /** The body of the loop in `_process_directory` for one file: `Some`
      of how the run ends, or `None` when it goes on with the next file. */
  method ProcessFile(store: StateFile, key: string, file: string, config: Option<ProjectConfig>,
                     world: World, trace0: seq<Event>)
    returns (stop: Option<DirOutcome>, trace: seq<Event>)
    modifies store
    ensures var e := FileStep(ChecksOf(config, world), key, file, world, old(store.document), trace0);
            && (stop.Some? <==> e.Stop?)
            && (stop.Some? ==> stop.value == e.outcome)
            && trace == e.trace
            && store.document == e.document
  {
    var read := world.read(trace0, file);
    trace := trace0 + [PromptRead(file, read)];
    var prompt := ReadPrompt(read);
    if prompt.Failure? {
      return Some(Fatal(prompt.error)), trace;
    }
    var reply := world.invoke(trace, prompt.value);
    trace := trace + [AssistantCalled(prompt.value, reply)];
    if reply.IsProviderError() {
      return Some(Stopped(file, AssistantError(reply))), trace;
    }
    if reply.OtherException? {
      return Some(Stopped(file, UnexpectedError(reply.message))), trace;
    }
    if reply.reply.NonObjectReply? {
      return Some(Stopped(file, ReplyNotObject)), trace;
    }
    var passed;
    passed, trace := RunProjectChecks(config, world, trace);
    if !passed {
      return Some(Stopped(file, ChecksFailed)), trace;
    }
    var raised;
    raised, trace := store.MarkComplete(key, file, world, trace);
    if raised.Some? {
      return Some(Stopped(file, MarkRaised(raised.value))), trace;
    }
    return None, trace;
  }

  /** `_process_directory(directory)` */
  method ProcessDirectory(store: StateFile, key: string, txtNames: seq<string>, mdNames: seq<string>,
                          configFile: ConfigFileStatus, configPath: string, world: World, trace0: seq<Event>)
    returns (outcome: DirOutcome, trace: seq<Event>)
    modifies store
    ensures var r := DirectorySpec(key, txtNames, mdNames, configFile, configPath, world, old(store.document), trace0);
            outcome == r.outcome && trace == r.trace && store.document == r.document
  {
    var promptFiles: seq<string> := [];
    promptFiles := promptFiles + txtNames;
    promptFiles := promptFiles + mdNames;
    assert promptFiles == txtNames + mdNames;
    if promptFiles == [] {
      return NoPromptFiles, trace0;
    }
    promptFiles := SortByName(promptFiles);
    var state := store.Load();
    var completed := Completed(state, key);
    var remaining := Remaining(promptFiles, completed);
    assert remaining == RemainingOf(txtNames + mdNames, store.document, key);
    if remaining == [] {
      return NothingRemaining, trace0;
    }
    var loaded := LoadConfig(configFile, configPath);
    if loaded.Failure? {
      return Fatal(loaded.error), trace0;
    }
    var config := loaded.value;
    ghost var step := StepOf(ChecksOf(config, world), key, world);
    ghost var whole := ProcessFrom(step, remaining, store.document, trace0);
    trace := trace0;
    var i := 0;
    while i < |remaining|
      invariant i <= |remaining|
      invariant var r := ProcessFrom(step, remaining[i..], store.document, trace);
                r.outcome == whole.outcome && r.document == whole.document && r.trace == whole.trace
    {
      assert remaining[i..][1..] == remaining[i + 1..];
      var stop;
      stop, trace := ProcessFile(store, key, remaining[i], config, world, trace);
      if stop.Some? {
        return stop.value, trace;
      }
      i := i + 1;
    }
    return AllProcessed, trace;
  }
}
