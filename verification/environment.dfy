/** The outside world the core talks to: shell commands, the assistant
    process, prompt files and the state file. Each is an oracle that may
    answer differently depending on everything that happened before, so a
    `World` maps the history of events so far to the next answer. The
    methods of the core return that history, which is where call order and
    call counts are read off. */
module Environment {
  import opened Wrappers

  /** What `subprocess.run(command, shell=True, capture_output=True,
      text=True, check=False)` gave: the process exited, or launching it
      raised an exception. */
  datatype ProcessOutcome =
    | Exited(returncode: int, stdout: string, stderr: string)
    | LaunchRaised(message: string)

  /** The decoded JSON the assistant printed: an object (a dict), or some
      other JSON value. */
  datatype Reply = ObjectReply | NonObjectReply

  /** One call of the assistant provider (`invoke`): it returns decoded JSON,
      or raises one of its three errors, or some other exception escapes. */
  datatype InvokeOutcome =
    | Invoked(reply: Reply)
    | CommandNotFound
    | CommandFailed(exitCode: int, errorText: Option<string>)
    | JsonParseFailed(rawOutput: string)
    | OtherException(message: string)
  {
    /** The three errors the provider documents. */
    predicate IsProviderError()
    {
      CommandNotFound? || CommandFailed? || JsonParseFailed?
    }
  }

  /** Reading a prompt file as UTF-8 text. */
  datatype ReadOutcome =
    | FileMissing
    | ReadRaised(message: string)
    | Text(content: string)

  /** Writing the state file: the directory could not be created (raised,
      outside the `try`), the file could not be opened (nothing written),
      writing the JSON failed after the file was truncated, or it was
      written. */
  datatype SaveOutcome =
    | Saved
    | MkdirRaised(message: string)
    | OpenRaised(message: string)
    | DumpRaised(message: string)

  datatype Event =
    | CheckRan(command: string, process: ProcessOutcome)
    | AssistantCalled(prompt: string, outcome: InvokeOutcome)
    | PromptRead(file: string, read: ReadOutcome)
    | StateSaved(saved: string, save: SaveOutcome)

  datatype World = World(
    run: (seq<Event>, string) -> ProcessOutcome,
    invoke: (seq<Event>, string) -> InvokeOutcome,
    read: (seq<Event>, string) -> ReadOutcome,
    save: seq<Event> -> SaveOutcome)

  function Last<T>(s: seq<T>): T
    requires s != []
  {
    s[|s| - 1]
  }

  /** The check commands launched, in launch order. */
  function RanCommands(trace: seq<Event>): seq<string>
  {
    if trace == [] then []
    else RanCommands(trace[..|trace| - 1])
         + (if Last(trace).CheckRan? then [Last(trace).command] else [])
  }

  /** The check launches, in launch order. */
  function CheckEvents(trace: seq<Event>): (r: seq<Event>)
    ensures forall e :: e in r ==> e.CheckRan?
  {
    if trace == [] then []
    else CheckEvents(trace[..|trace| - 1])
         + (if Last(trace).CheckRan? then [Last(trace)] else [])
  }

  /** The prompts sent to the assistant, in call order. */
  function AssistantPrompts(trace: seq<Event>): seq<string>
  {
    if trace == [] then []
    else AssistantPrompts(trace[..|trace| - 1])
         + (if Last(trace).AssistantCalled? then [Last(trace).prompt] else [])
  }

  /** The events that touch files: prompt reads and state-file writes, in
      order. */
  function FileEvents(trace: seq<Event>): (r: seq<Event>)
    ensures forall e :: e in r ==> e.PromptRead? || e.StateSaved?
  {
    if trace == [] then []
    else FileEvents(trace[..|trace| - 1])
         + (if Last(trace).PromptRead? || Last(trace).StateSaved? then [Last(trace)] else [])
  }

  function ReadNames(events: seq<Event>): seq<string>
  {
    if events == [] then []
    else ReadNames(events[..|events| - 1])
         + (if Last(events).PromptRead? then [Last(events).file] else [])
  }

  function SavedNames(events: seq<Event>): seq<string>
  {
    if events == [] then []
    else SavedNames(events[..|events| - 1])
         + (if Last(events).StateSaved? then [Last(events).saved] else [])
  }

  /** The prompt files opened, in order. */
  function FilesRead(trace: seq<Event>): seq<string>
  {
    ReadNames(FileEvents(trace))
  }

  /** The files whose completion a save of the state file was attempted
      for, in order, whether or not that save succeeded. */
  function SavedFiles(trace: seq<Event>): seq<string>
  {
    SavedNames(FileEvents(trace))
  }

  lemma ProjectionsOfAppend(t: seq<Event>, e: Event)
    ensures RanCommands(t + [e]) == RanCommands(t) + (if e.CheckRan? then [e.command] else [])
    ensures CheckEvents(t + [e]) == CheckEvents(t) + (if e.CheckRan? then [e] else [])
    ensures AssistantPrompts(t + [e]) == AssistantPrompts(t) + (if e.AssistantCalled? then [e.prompt] else [])
    ensures FileEvents(t + [e]) == FileEvents(t) + (if e.PromptRead? || e.StateSaved? then [e] else [])
    ensures FilesRead(t + [e]) == FilesRead(t) + (if e.PromptRead? then [e.file] else [])
    ensures SavedFiles(t + [e]) == SavedFiles(t) + (if e.StateSaved? then [e.saved] else [])
  {
    assert (t + [e])[..|t|] == t;
    if e.PromptRead? || e.StateSaved? {
      assert FileEvents(t + [e]) == FileEvents(t) + [e];
      NamesOfAppend(FileEvents(t), e);
    } else {
      assert FileEvents(t + [e]) == FileEvents(t);
    }
  }

  lemma NamesOfAppend(f: seq<Event>, e: Event)
    ensures ReadNames(f + [e]) == ReadNames(f) + (if e.PromptRead? then [e.file] else [])
    ensures SavedNames(f + [e]) == SavedNames(f) + (if e.StateSaved? then [e.saved] else [])
  {
    assert (f + [e])[..|f|] == f;
  }
}
