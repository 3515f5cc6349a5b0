/** What a run over a directory of prompt files promises: it works through
    the remaining files in ascending name order and stops at the first one
    that does not go through; it records a file only after the file's
    prompt was answered and the checks passed; and a later run, with every
    save having succeeded, starts exactly where this one stopped. */
module DirectoryProperties {
  import opened Wrappers
  import opened Strings
  import opened Environment
  import opened Config
  import opened Checks
  import opened Vibe

  // ---- one file ----

  /** Whether a save of the file's completion was attempted: the file went
      through, so `_mark_complete` ran; the save itself may have failed, and
      a failing `mkdir` also stops the run. */
  predicate Records(e: FileEnd)
  {
    e.Next? || (e.outcome.Stopped? && e.outcome.reason.MarkRaised?)
  }

  /** A file goes through when it reads as a non-empty prompt, the
      assistant answers it with a JSON object, and the checks run after
      that pass. */
  ghost predicate WentThrough(checks: seq<Event> -> ChecksRun, file: string, world: World, trace: seq<Event>)
  {
    var read := world.read(trace, file);
    var prompt := ReadPrompt(read);
    && prompt.Success?
    && var t1 := trace + [PromptRead(file, read)];
       var reply := world.invoke(t1, prompt.value);
       && reply == Invoked(ObjectReply)
       && checks(t1 + [AssistantCalled(prompt.value, reply)]).passed
  }

  lemma CheckedFacts(key: string, file: string, world: World, doc: StateDocument, c: ChecksRun)
    ensures var e := Checked(key, file, world, doc, c);
            && FilesRead(e.trace) == FilesRead(c.trace)
            && SavedFiles(e.trace) == SavedFiles(c.trace) + (if c.passed then [file] else [])
            && (Records(e) <==> c.passed)
            && (e.Stop? ==> e.outcome.Stopped? && e.outcome.file == file)
            && (!c.passed ==> e.document == doc)
            && ((forall t :: world.save(t) == Saved) ==>
                  && (e.Next? <==> c.passed)
                  && LoadState(e.document) == if c.passed then WithCompleted(LoadState(doc), key, file) else LoadState(doc))
  {
    if c.passed {
      var save := world.save(c.trace);
      ProjectionsOfAppend(c.trace, StateSaved(file, save));
      SaveThenLoad(doc, WithCompleted(LoadState(doc), key, file), save);
    }
  }

  lemma AnsweredFacts(checks: seq<Event> -> ChecksRun, key: string, file: string, world: World,
                      doc: StateDocument, reply: InvokeOutcome, trace: seq<Event>)
    requires TouchesNoFiles(checks)
    ensures var e := Answered(checks, key, file, world, doc, reply, trace);
            && FilesRead(e.trace) == FilesRead(trace)
            && SavedFiles(e.trace) == SavedFiles(trace) + (if Records(e) then [file] else [])
            && (Records(e) <==> reply == Invoked(ObjectReply) && checks(trace).passed)
            && (e.Stop? ==> e.outcome.Stopped? && e.outcome.file == file)
            && (!Records(e) ==> e.document == doc)
            && ((forall t :: world.save(t) == Saved) ==>
                  && (e.Next? <==> Records(e))
                  && LoadState(e.document) == if e.Next? then WithCompleted(LoadState(doc), key, file) else LoadState(doc))
  {
    if reply == Invoked(ObjectReply) {
      var c := checks(trace);
      assert FileEvents(c.trace) == FileEvents(trace);
      CheckedFacts(key, file, world, doc, c);
    }
  }

  /** Each file is read once; a save of its completion is attempted
      exactly when it went through, and a file that did not go through ends the run and
      leaves the state file as it was. When saving always succeeds, a file
      that went through is recorded and the run goes on. */
  lemma FileStepFacts(checks: seq<Event> -> ChecksRun, key: string, file: string, world: World,
                      doc: StateDocument, trace: seq<Event>)
    requires TouchesNoFiles(checks)
    ensures var e := FileStep(checks, key, file, world, doc, trace);
            && FilesRead(e.trace) == FilesRead(trace) + [file]
            && SavedFiles(e.trace) == SavedFiles(trace) + (if Records(e) then [file] else [])
            && (Records(e) <==> WentThrough(checks, file, world, trace))
            && (e.Stop? ==> (e.outcome.Fatal? && !e.outcome.fatal.FromConfig()) || (e.outcome.Stopped? && e.outcome.file == file))
            && (!Records(e) ==> e.document == doc)
            && ((forall t :: world.save(t) == Saved) ==>
                  && (e.Next? <==> Records(e))
                  && LoadState(e.document) == if e.Next? then WithCompleted(LoadState(doc), key, file) else LoadState(doc))
  {
    if ReadPrompt(world.read(trace, file)).Success? {
      SentFileFacts(checks, key, file, world, doc, trace);
    } else {
      RefusedFileFacts(checks, key, file, world, doc, trace);
    }
  }

  lemma SentFileFacts(checks: seq<Event> -> ChecksRun, key: string, file: string, world: World,
                      doc: StateDocument, trace: seq<Event>)
    requires ReadPrompt(world.read(trace, file)).Success?
    requires TouchesNoFiles(checks)
    ensures var e := FileStep(checks, key, file, world, doc, trace);
            && FilesRead(e.trace) == FilesRead(trace) + [file]
            && SavedFiles(e.trace) == SavedFiles(trace) + (if Records(e) then [file] else [])
            && (Records(e) <==> WentThrough(checks, file, world, trace))
            && (e.Stop? ==> (e.outcome.Fatal? && !e.outcome.fatal.FromConfig()) || (e.outcome.Stopped? && e.outcome.file == file))
            && (!Records(e) ==> e.document == doc)
            && ((forall t :: world.save(t) == Saved) ==>
                  && (e.Next? <==> Records(e))
                  && LoadState(e.document) == if e.Next? then WithCompleted(LoadState(doc), key, file) else LoadState(doc))
  {
    var reply, t2 := SentFileStep(checks, key, file, world, doc, trace);
    AnsweredFacts(checks, key, file, world, doc, reply, t2);
  }

  /** A file whose prompt was sent: the step is what the answer leads to,
      after the read and the call were recorded. */
  lemma SentFileStep(checks: seq<Event> -> ChecksRun, key: string, file: string, world: World,
                     doc: StateDocument, trace: seq<Event>) returns (reply: InvokeOutcome, t2: seq<Event>)
    requires ReadPrompt(world.read(trace, file)).Success?
    ensures FileStep(checks, key, file, world, doc, trace) == Answered(checks, key, file, world, doc, reply, t2)
    ensures FilesRead(t2) == FilesRead(trace) + [file] && SavedFiles(t2) == SavedFiles(trace)
    ensures WentThrough(checks, file, world, trace) <==> reply == Invoked(ObjectReply) && checks(t2).passed
  {
    var read := world.read(trace, file);
    var t1 := trace + [PromptRead(file, read)];
    ProjectionsOfAppend(trace, PromptRead(file, read));
    var prompt := ReadPrompt(read).value;
    reply := world.invoke(t1, prompt);
    t2 := t1 + [AssistantCalled(prompt, reply)];
    ProjectionsOfAppend(t1, AssistantCalled(prompt, reply));
  }

  lemma RefusedFileFacts(checks: seq<Event> -> ChecksRun, key: string, file: string, world: World,
                      doc: StateDocument, trace: seq<Event>)
    requires ReadPrompt(world.read(trace, file)).Failure?
    requires TouchesNoFiles(checks)
    ensures var e := FileStep(checks, key, file, world, doc, trace);
            && FilesRead(e.trace) == FilesRead(trace) + [file]
            && SavedFiles(e.trace) == SavedFiles(trace) + (if Records(e) then [file] else [])
            && (Records(e) <==> WentThrough(checks, file, world, trace))
            && (e.Stop? ==> (e.outcome.Fatal? && !e.outcome.fatal.FromConfig()) || (e.outcome.Stopped? && e.outcome.file == file))
            && (!Records(e) ==> e.document == doc)
            && ((forall t :: world.save(t) == Saved) ==>
                  && (e.Next? <==> Records(e))
                  && LoadState(e.document) == if e.Next? then WithCompleted(LoadState(doc), key, file) else LoadState(doc))
  {
    ProjectionsOfAppend(trace, PromptRead(file, world.read(trace, file)));
  }

  // ---- the loop over the remaining files ----

  /** A loop body that reads its own file once. */
  ghost predicate ReadsItsFile(step: (string, StateDocument, seq<Event>) -> FileEnd)
  {
    forall f, d, t :: FilesRead(step(f, d, t).trace) == FilesRead(t) + [f]
  }

  /** A loop body that attempts to save its file's completion exactly
      when it records it. */
  ghost predicate SavesWhatItRecords(step: (string, StateDocument, seq<Event>) -> FileEnd)
  {
    forall f, d, t :: SavedFiles(step(f, d, t).trace) == SavedFiles(t) + (if Records(step(f, d, t)) then [f] else [])
  }

  /** A loop body that, when it stops the run, stops it at its own file or
      fatally because of its prompt file. */
  ghost predicate StopsAtItsFile(step: (string, StateDocument, seq<Event>) -> FileEnd)
  {
    forall f, d, t :: step(f, d, t).Stop? ==> StopsAt(step(f, d, t).outcome, f)
  }

  predicate StopsAt(outcome: DirOutcome, file: string)
  {
    (outcome.Fatal? && !outcome.fatal.FromConfig()) || (outcome.Stopped? && outcome.file == file)
  }

  /** A loop body whose state file, as loaded, gains its file when it goes
      on, and is otherwise unchanged. */
  ghost predicate MarksWhenGoingOn(step: (string, StateDocument, seq<Event>) -> FileEnd, key: string)
  {
    forall f, d, t :: LoadState(step(f, d, t).document)
                      == if step(f, d, t).Next? then WithCompleted(LoadState(d), key, f) else LoadState(d)
  }

  lemma StepOfBehaves(checks: seq<Event> -> ChecksRun, key: string, world: World)
    requires TouchesNoFiles(checks)
    ensures ReadsItsFile(StepOf(checks, key, world)) && SavesWhatItRecords(StepOf(checks, key, world))
    ensures StopsAtItsFile(StepOf(checks, key, world))
    ensures (forall t :: world.save(t) == Saved) ==> MarksWhenGoingOn(StepOf(checks, key, world), key)
  {
    var step := StepOf(checks, key, world);
    forall f, d, t ensures
      && FilesRead(step(f, d, t).trace) == FilesRead(t) + [f]
      && SavedFiles(step(f, d, t).trace) == SavedFiles(t) + (if Records(step(f, d, t)) then [f] else [])
      && (step(f, d, t).Stop? ==> StopsAt(step(f, d, t).outcome, f))
      && ((forall t' :: world.save(t') == Saved) ==>
            LoadState(step(f, d, t).document)
            == if step(f, d, t).Next? then WithCompleted(LoadState(d), key, f) else LoadState(d))
    {
      FileStepFacts(checks, key, f, world, d, t);
    }
  }

  /** The state after recording `files` one after the other. */
  function MarkedAll(state: State, key: string, files: seq<string>): State
    decreases |files|
  {
    if files == [] then state
    else MarkedAll(WithCompleted(state, key, files[0]), key, files[1..])
  }

  /** Recording files only adds them to the directory's list, keeps what
      the list held in front, and touches no other directory. */
  lemma {:induction false} MarkedAllFacts(state: State, key: string, files: seq<string>)
    ensures var s := MarkedAll(state, key, files);
            && (forall k :: k != key ==> (k in s <==> k in state))
            && (forall k :: k in state && k != key ==> s[k] == state[k])
            && CompletedIn(state, key) <= CompletedIn(s, key)
            && (forall f :: f in CompletedIn(s, key) <==> f in CompletedIn(state, key) || f in files)
    decreases |files|
  {
    if files != [] {
      MarkedAllFacts(WithCompleted(state, key, files[0]), key, files[1..]);
      assert forall f :: f in files <==> f == files[0] || f in files[1..];
    }
  }

  /** Recording new, distinct files appends them to the directory's list
      exactly in order. */
  lemma {:induction false} MarkedAllAppends(state: State, key: string, files: seq<string>)
    requires NoDuplicates(files)
    requires forall f :: f in files ==> f !in CompletedIn(state, key)
    ensures CompletedIn(MarkedAll(state, key, files), key) == CompletedIn(state, key) + files
    decreases |files|
  {
    if files != [] {
      var next := MarkNew(state, key, files[0]);
      DistinctTail(files);
      forall f | f in files[1..] ensures f !in CompletedIn(next, key) {
        assert f in files && f != files[0];
      }
      MarkedAllAppends(next, key, files[1..]);
      AppendHead(CompletedIn(state, key), files);
    }
  }

  lemma AppendHead<T>(a: seq<T>, s: seq<T>)
    requires s != []
    ensures a + [s[0]] + s[1..] == a + s
  {
    assert [s[0]] + s[1..] == s;
  }

  /** Recording a file the list does not hold appends it, and nothing
      else joins the list. */
  lemma MarkNew(state: State, key: string, file: string) returns (next: State)
    requires file !in CompletedIn(state, key)
    ensures next == WithCompleted(state, key, file)
    ensures CompletedIn(next, key) == CompletedIn(state, key) + [file]
    ensures forall f :: f != file && f !in CompletedIn(state, key) ==> f !in CompletedIn(next, key)
  {
    next := WithCompleted(state, key, file);
  }

  /** How many files a run began: those it completed, and the one it
      stopped at. */
  function Begun(r: DirRun): nat
  {
    if r.outcome == AllProcessed then r.done else r.done + 1
  }

  /** The loop completes a prefix of the files and stops, if at all, at
      the next one. */
  lemma {:induction false} ProcessShape(step: (string, StateDocument, seq<Event>) -> FileEnd, files: seq<string>,
                                        doc: StateDocument, trace: seq<Event>)
    requires StopsAtItsFile(step)
    ensures var r := ProcessFrom(step, files, doc, trace);
            && r.done <= |files|
            && (r.outcome == AllProcessed <==> r.done == |files|)
            && (r.outcome.AllProcessed? || r.outcome.Stopped? || (r.outcome.Fatal? && !r.outcome.fatal.FromConfig()))
            && (r.outcome.Stopped? ==> r.outcome.file == files[r.done])
    decreases |files|
  {
    if files != [] {
      var e := step(files[0], doc, trace);
      if e.Next? {
        ProcessShape(step, files[1..], e.document, e.trace);
      }
    }
  }

  /** Taking the first file and then a prefix of the others is taking a
      prefix of all of them. */
  lemma PrependSlice(base: seq<string>, files: seq<string>, k: nat)
    requires k < |files|
    ensures (base + [files[0]]) + files[1..][..k] == base + files[..k + 1]
  {
    assert files[..k + 1] == [files[0]] + files[1..][..k];
  }

  /** How many files' completion a run attempted to save: those it
      completed, and the one whose save raised at the `mkdir`. */
  function Recorded(r: DirRun): nat
  {
    if r.outcome.Stopped? && r.outcome.reason.MarkRaised? then r.done + 1 else r.done
  }

  /** The loop read exactly the files it completed and the one it stopped
      at. */
  lemma {:induction false} ProcessReads(step: (string, StateDocument, seq<Event>) -> FileEnd, files: seq<string>,
                                        doc: StateDocument, trace: seq<Event>)
    requires StopsAtItsFile(step) && ReadsItsFile(step)
    ensures var r := ProcessFrom(step, files, doc, trace);
            && Begun(r) <= |files|
            && FilesRead(r.trace) == FilesRead(trace) + files[..Begun(r)]
    decreases |files|
  {
    if files != [] {
      var e := step(files[0], doc, trace);
      assert FilesRead(e.trace) == FilesRead(trace) + [files[0]];
      if e.Next? {
        ProcessReads(step, files[1..], e.document, e.trace);
        var r := ProcessFrom(step, files[1..], e.document, e.trace);
        assert ProcessFrom(step, files, doc, trace) == r.(done := r.done + 1);
        PrependSlice(FilesRead(trace), files, Begun(r));
      } else {
        assert StopsAt(e.outcome, files[0]);
        assert ProcessFrom(step, files, doc, trace) == DirRun(e.outcome, e.document, e.trace, 0);
        PrependSlice(FilesRead(trace), files, 0);
      }
    }
  }

  /** The loop attempted to save the completion of exactly the files it
      completed, and of the stopping file when its save raised at the
      `mkdir`. */
  lemma {:induction false} ProcessSaves(step: (string, StateDocument, seq<Event>) -> FileEnd, files: seq<string>,
                                        doc: StateDocument, trace: seq<Event>)
    requires SavesWhatItRecords(step)
    ensures var r := ProcessFrom(step, files, doc, trace);
            && Recorded(r) <= |files|
            && SavedFiles(r.trace) == SavedFiles(trace) + files[..Recorded(r)]
    decreases |files|
  {
    if files != [] {
      var e := step(files[0], doc, trace);
      if e.Next? {
        assert SavedFiles(e.trace) == SavedFiles(trace) + [files[0]];
        ProcessSaves(step, files[1..], e.document, e.trace);
        var r := ProcessFrom(step, files[1..], e.document, e.trace);
        assert ProcessFrom(step, files, doc, trace) == r.(done := r.done + 1);
        PrependSlice(SavedFiles(trace), files, Recorded(r));
      } else {
        assert ProcessFrom(step, files, doc, trace) == DirRun(e.outcome, e.document, e.trace, 0);
        if Records(e) {
          assert SavedFiles(e.trace) == SavedFiles(trace) + [files[0]];
          PrependSlice(SavedFiles(trace), files, 0);
        } else {
          assert SavedFiles(e.trace) == SavedFiles(trace);
        }
      }
    }
  }

  /** With a body that records each file it goes on from, the state file
      after the loop is the state before it with the completed files
      recorded in order. */
  lemma {:induction false} ProcessRecordsDone(step: (string, StateDocument, seq<Event>) -> FileEnd, key: string,
                                              files: seq<string>, doc: StateDocument, trace: seq<Event>)
    requires MarksWhenGoingOn(step, key)
    ensures var r := ProcessFrom(step, files, doc, trace);
            && r.done <= |files|
            && LoadState(r.document) == MarkedAll(LoadState(doc), key, files[..r.done])
    decreases |files|
  {
    if files != [] {
      var e := step(files[0], doc, trace);
      if e.Next? {
        ProcessRecordsDone(step, key, files[1..], e.document, e.trace);
        var r := ProcessFrom(step, files[1..], e.document, e.trace);
        assert files[..r.done + 1][0] == files[0];
        assert files[..r.done + 1][1..] == files[1..][..r.done];
      }
    }
  }

  // ---- the files still to do ----

  /** Filtering keeps the order and the distinctness of the listing. */
  lemma {:induction false} RemainingKeepsOrder(files: seq<string>, completed: set<string>)
    ensures SortedByName(files) ==> SortedByName(Remaining(files, completed))
    ensures NoDuplicates(files) ==> NoDuplicates(Remaining(files, completed))
    decreases |files|
  {
    if files != [] {
      RemainingKeepsOrder(files[1..], completed);
      var rest := Remaining(files[1..], completed);
      if SortedByName(files) {
        assert forall x :: x in rest ==> NameAtMost(files[0], x) by {
          forall x | x in rest ensures NameAtMost(files[0], x) {
            var j :| 0 <= j < |files[1..]| && files[1..][j] == x;
            assert files[j + 1] == x;
          }
        }
      }
    }
  }

  /** Filtering again with the files `done` of a first filtering added to
      the completed set leaves exactly the rest of the first filtering. */
  lemma {:induction false} ResumeSkipsDone<T(!new)>(files: seq<T>, completed: set<T>, completed': set<T>, done: nat)
    requires NoDuplicates(files)
    requires done <= |Remaining(files, completed)|
    requires forall f :: f in files ==>
               (f in completed' <==> f in completed || f in Remaining(files, completed)[..done])
    ensures Remaining(files, completed') == Remaining(files, completed)[done..]
    decreases |files|
  {
    if files != [] {
      var d := ResumeHead(files, completed, completed', done);
      ResumeSkipsDone(files[1..], completed, completed', d);
      assert Remaining(files, completed')
             == (if files[0] in completed' then [] else [files[0]]) + Remaining(files[1..], completed');
    }
  }

  /** One step of `ResumeSkipsDone`: the first file is skipped by the
      second filtering exactly when the first one skipped it or took it
      among the `done` files, and the rest of the listing is in the same
      position with `d` files done. */
  lemma ResumeHead<T(!new)>(files: seq<T>, completed: set<T>, completed': set<T>, done: nat)
      returns (d: nat)
    requires files != [] && NoDuplicates(files)
    requires done <= |Remaining(files, completed)|
    requires forall f :: f in files ==>
               (f in completed' <==> f in completed || f in Remaining(files, completed)[..done])
    ensures NoDuplicates(files[1..])
    ensures d <= |Remaining(files[1..], completed)|
    ensures forall f :: f in files[1..] ==>
              (f in completed' <==> f in completed || f in Remaining(files[1..], completed)[..d])
    ensures Remaining(files, completed)[done..]
            == (if files[0] in completed' then [] else [files[0]]) + Remaining(files[1..], completed)[d..]
  {
    DistinctTail(files);
    var first, rest := Remaining(files, completed), Remaining(files[1..], completed);
    if files[0] in completed {
      assert first == rest;
      d := done;
    } else {
      assert first == [files[0]] + rest;
      d := if done == 0 then 0 else done - 1;
      TakenHead(files, completed, completed', first, rest, done, d);
    }
  }

  /** `ResumeSkipsDone`'s step when the first filtering took the first
      file: it is among the `done` files exactly when `done` is not 0. */
  lemma TakenHead<T>(files: seq<T>, completed: set<T>, completed': set<T>, first: seq<T>, rest: seq<T>,
                     done: nat, d: nat)
    requires files != [] && files[0] !in completed && first == [files[0]] + rest
    requires d == if done == 0 then 0 else done - 1
    requires forall f :: f in files[1..] ==> f != files[0] && f in files
    requires done <= |first|
    requires forall f :: f in files ==> (f in completed' <==> f in completed || f in first[..done])
    ensures d <= |rest|
    ensures forall f :: f in files[1..] ==> (f in completed' <==> f in completed || f in rest[..d])
    ensures first[done..] == (if files[0] in completed' then [] else [files[0]]) + rest[d..]
  {
    var before := if done == 0 then [] else [files[0]];
    assert first[..done] == before + rest[..d];
    assert files[0] in completed' <==> done > 0 by {
      assert files[0] in files;
    }
  }

  /** The tail of a listing without duplicates has none either, and does
      not hold its head. */
  lemma DistinctTail<T(!new)>(files: seq<T>)
    requires files != [] && NoDuplicates(files)
    ensures NoDuplicates(files[1..])
    ensures forall f :: f in files[1..] ==> f != files[0] && f in files
  {
    var tail := files[1..];
    forall f | f in tail ensures f != files[0] && f in files {
      var i :| 0 <= i < |tail| && tail[i] == f;
      assert files[i + 1] == f;
    }
  }

  // ---- the directory as a whole ----

  /** The files a run takes on are sorted by name, and distinct when the
      listing was. */
  lemma RemainingOfFacts(found: seq<string>, doc: StateDocument, key: string)
    ensures SortedByName(RemainingOf(found, doc, key))
    ensures NoDuplicates(found) ==> NoDuplicates(RemainingOf(found, doc, key))
  {
    RemainingKeepsOrder(SortByName(found), Completed(LoadState(doc), key));
    if NoDuplicates(found) {
      SortKeepsDistinct(found);
    }
  }

  /** A directory run either ends before its loop, with nothing read or
      written, or is the loop over the remaining files with a body that
      reads, records and stops as the per-file lemmas say. */
  lemma DirectoryCases(key: string, txtNames: seq<string>, mdNames: seq<string>,
                       configFile: ConfigFileStatus, configPath: string, world: World,
                       doc: StateDocument, trace: seq<Event>)
    returns (started: bool, step: (string, StateDocument, seq<Event>) -> FileEnd)
    ensures var r := DirectorySpec(key, txtNames, mdNames, configFile, configPath, world, doc, trace);
            var remaining := RemainingOf(txtNames + mdNames, doc, key);
            && (started <==> txtNames + mdNames != [] && remaining != [] && LoadConfig(configFile, configPath).Success?)
            && (r.outcome == NoPromptFiles <==> txtNames + mdNames == [])
            && (r.outcome == NothingRemaining <==> txtNames + mdNames != [] && remaining == [])
            && (!started ==>
                  && r.trace == trace && r.document == doc && r.done == 0
                  && (r.outcome.NoPromptFiles? || r.outcome.NothingRemaining? || (r.outcome.Fatal? && r.outcome.fatal.FromConfig())))
            && (started ==>
                  && r == ProcessFrom(step, remaining, doc, trace)
                  && ReadsItsFile(step) && SavesWhatItRecords(step) && StopsAtItsFile(step)
                  && ((forall t :: world.save(t) == Saved) ==> MarksWhenGoingOn(step, key)))
  {
    var found := txtNames + mdNames;
    var remaining := RemainingOf(found, doc, key);
    started := found != [] && remaining != [] && LoadConfig(configFile, configPath).Success?;
    var r := DirectorySpec(key, txtNames, mdNames, configFile, configPath, world, doc, trace);
    step := (f, d, t) => Stop(AllProcessed, d, t);
    if started {
      var config := LoadConfig(configFile, configPath).value;
      step := StepOf(ChecksOf(config, world), key, world);
      assert r == ProcessFrom(step, remaining, doc, trace);
      ProjectChecksTouchNoFiles(config, world);
      StepOfBehaves(ChecksOf(config, world), key, world);
      ProcessShape(step, remaining, doc, trace);
    } else if found == [] {
      assert r == DirRun(NoPromptFiles, doc, trace, 0);
    } else if remaining == [] {
      assert r == DirRun(NothingRemaining, doc, trace, 0);
    } else {
      assert r == DirRun(Fatal(LoadConfig(configFile, configPath).error), doc, trace, 0);
    }
  }

  /** How a directory run ends: no files, nothing left, a configuration
      error (all three before anything is read or written), or after the
      loop, which completes a prefix of the remaining files and stops, if
      at all, at the next one. */
  lemma DirectoryEnds(key: string, txtNames: seq<string>, mdNames: seq<string>,
                      configFile: ConfigFileStatus, configPath: string, world: World,
                      doc: StateDocument, trace: seq<Event>)
    ensures var r := DirectorySpec(key, txtNames, mdNames, configFile, configPath, world, doc, trace);
            var remaining := RemainingOf(txtNames + mdNames, doc, key);
            && (r.outcome == NoPromptFiles <==> txtNames + mdNames == [])
            && (r.outcome == NothingRemaining <==> txtNames + mdNames != [] && remaining == [])
            && (r.outcome.NoPromptFiles? || r.outcome.NothingRemaining? || (r.outcome.Fatal? && r.outcome.fatal.FromConfig())
                ==> r.trace == trace && r.document == doc && r.done == 0)
            && r.done <= |remaining|
            && (r.outcome == AllProcessed ==> r.done == |remaining|)
            && (r.outcome.Stopped? ==> r.done < |remaining| && r.outcome.file == remaining[r.done])
  {
    var started, step := DirectoryCases(key, txtNames, mdNames, configFile, configPath, world, doc, trace);
    if started {
      ProcessShape(step, RemainingOf(txtNames + mdNames, doc, key), doc, trace);
    }
  }

  /** A directory run reads a prefix of the remaining files, in order, and
      attempts to save the completion of a prefix of those: the ones it
      completed and, when a save raised at the `mkdir`, that file. */
  lemma DirectoryFiles(key: string, txtNames: seq<string>, mdNames: seq<string>,
                       configFile: ConfigFileStatus, configPath: string, world: World,
                       doc: StateDocument, trace: seq<Event>)
    returns (begun: nat)
    ensures var r := DirectorySpec(key, txtNames, mdNames, configFile, configPath, world, doc, trace);
            var remaining := RemainingOf(txtNames + mdNames, doc, key);
            && r.done <= Recorded(r) <= begun <= |remaining|
            && FilesRead(r.trace) == FilesRead(trace) + remaining[..begun]
            && SavedFiles(r.trace) == SavedFiles(trace) + remaining[..Recorded(r)]
  {
    var started, step := DirectoryCases(key, txtNames, mdNames, configFile, configPath, world, doc, trace);
    var remaining := RemainingOf(txtNames + mdNames, doc, key);
    var r := DirectorySpec(key, txtNames, mdNames, configFile, configPath, world, doc, trace);
    if started {
      ProcessShape(step, remaining, doc, trace);
      ProcessReads(step, remaining, doc, trace);
      ProcessSaves(step, remaining, doc, trace);
      begun := Begun(r);
    } else {
      begun := 0;
      assert remaining[..0] == [];
    }
  }

  /** The loop over the files a state leaves to do, with a body that
      records each file it goes on from, leaves to do exactly the files
      after those it completed. */
  lemma LoopResumes(step: (string, StateDocument, seq<Event>) -> FileEnd, key: string,
                    files: seq<string>, doc: StateDocument, trace: seq<Event>)
    requires MarksWhenGoingOn(step, key) && NoDuplicates(files)
    ensures var completed := Completed(LoadState(doc), key);
            var r := ProcessFrom(step, Remaining(files, completed), doc, trace);
            && r.done <= |Remaining(files, completed)|
            && Remaining(files, Completed(LoadState(r.document), key)) == Remaining(files, completed)[r.done..]
  {
    var completed := Completed(LoadState(doc), key);
    var remaining := Remaining(files, completed);
    var r := ProcessFrom(step, remaining, doc, trace);
    ProcessRecordsDone(step, key, remaining, doc, trace);
    MarkedAllFacts(LoadState(doc), key, remaining[..r.done]);
    ResumeSkipsDone(files, completed, Completed(LoadState(r.document), key), r.done);
  }

  /** Resuming: when every save succeeded, a later run over the same files
      (listed in any order) skips exactly the files this run completed and
      takes on the rest in the same order, starting with the file this run
      stopped at; after a run that processed everything, nothing remains. */
  lemma Resumable(key: string, txtNames: seq<string>, mdNames: seq<string>,
                  configFile: ConfigFileStatus, configPath: string, world: World,
                  doc: StateDocument, trace: seq<Event>, txtAgain: seq<string>, mdAgain: seq<string>)
    requires forall t :: world.save(t) == Saved
    requires NoDuplicates(txtNames + mdNames)
    requires multiset(txtAgain + mdAgain) == multiset(txtNames + mdNames)
    ensures var r := DirectorySpec(key, txtNames, mdNames, configFile, configPath, world, doc, trace);
            var remaining := RemainingOf(txtNames + mdNames, doc, key);
            && r.done <= |remaining|
            && RemainingOf(txtAgain + mdAgain, r.document, key) == remaining[r.done..]
            && (r.outcome == AllProcessed ==> RemainingOf(txtAgain + mdAgain, r.document, key) == [])
  {
    var started, step := DirectoryCases(key, txtNames, mdNames, configFile, configPath, world, doc, trace);
    ResumeAfter(step, key, txtNames + mdNames, txtAgain + mdAgain, doc, trace, started,
                DirectorySpec(key, txtNames, mdNames, configFile, configPath, world, doc, trace));
  }

  /** `Resumable` for a run `r` that is either the loop with a recording
      body over the remaining files, or ended before the loop. */
  lemma ResumeAfter(step: (string, StateDocument, seq<Event>) -> FileEnd, key: string,
                    found: seq<string>, again: seq<string>, doc: StateDocument, trace: seq<Event>,
                    started: bool, r: DirRun)
    requires NoDuplicates(found) && multiset(again) == multiset(found)
    requires started ==> && MarksWhenGoingOn(step, key) && StopsAtItsFile(step)
                         && r == ProcessFrom(step, RemainingOf(found, doc, key), doc, trace)
    requires !started ==> r.document == doc && r.done == 0 && r.outcome != AllProcessed
    ensures r.done <= |RemainingOf(found, doc, key)|
    ensures RemainingOf(again, r.document, key) == RemainingOf(found, doc, key)[r.done..]
    ensures r.outcome == AllProcessed ==> RemainingOf(again, r.document, key) == []
  {
    var sorted := SortByName(found);
    SortedIsUnique(SortByName(again), sorted);
    SortKeepsDistinct(found);
    var remaining := Remaining(sorted, Completed(LoadState(doc), key));
    if started {
      ProcessShape(step, remaining, doc, trace);
      LoopResumes(step, key, sorted, doc, trace);
    }
  }
}
