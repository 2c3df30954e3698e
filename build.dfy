/**
 * sola/commands/build.py: ask the completion service for a service module
 * and write its answer, code fences removed, to `<project>/app/services.py`.
 */
module Build {
  import opened Wrappers
  import opened PyStr
  import opened Fs
  import opened Trace
  import opened Core

  datatype Role = System | User
  datatype ChatMessage = ChatMessage(role: Role, content: string)

  /** The arguments of `chat.completions.create`. */
  datatype Request = Request(model: string, messages: seq<ChatMessage>, temperature: real)

  /**
   * What the completion call gives: the message contents of the returned
   * choices (a content may be null), or the text of the exception it raised.
   */
  datatype Completion = Response(choices: seq<Option<string>>) | Raised(error: string)

  const ModelName: string := "gpt-4o-mini"
  const Temperature: real := 0.2

  /** The request both `build` commands send: a system message, then a user message. */
  function ChatRequest(system: string, user: string): Request {
    Request(ModelName, [ChatMessage(System, system), ChatMessage(User, user)], Temperature)
  }

  const TaskPrefix: string := "Create specialized business logic for: "

  /** The user message: the task after a fixed lead-in. */
  function UserPrompt(task: string): string {
    TaskPrefix + task
  }

  /** The task is carried verbatim at the end of the user message, so different tasks give different messages. */
  lemma UserPromptCarriesTask(task: string, other: string)
    ensures UserPrompt(task)[..|TaskPrefix|] == TaskPrefix
    ensures UserPrompt(task)[|TaskPrefix|..] == task
    ensures UserPrompt(task) == UserPrompt(other) ==> task == other
  {
    assert UserPrompt(task)[|TaskPrefix|..] == task;
    assert UserPrompt(other)[|TaskPrefix|..] == other;
  }

  const SystemIntro: string := "You are a Senior AI Backend Architect strictly following SOLA standards.\n"
  const SystemRules: string :=
    "\n\nTASK: Generate a clean, professional Python service file (service.py).\n"
    + "STRICT RULES:\n"
    + "- Return ONLY raw Python code.\n"
    + "- Implement Pydantic models for inputs/outputs.\n"
    + "- Use 'instructor' with 'AsyncOpenAI' as per standards."

  /** The system message: the standards text between a fixed introduction and fixed rules. */
  function SystemPrompt(specs: string): string {
    SystemIntro + specs + SystemRules
  }

  /** The standards text sits verbatim right after the introduction, and determines the message. */
  lemma SystemPromptEmbedsSpecs(specs: string, other: string)
    ensures OccursAt(SystemPrompt(specs), |SystemIntro|, specs)
    ensures OccursAt(SystemPrompt(specs), |SystemIntro| + |specs|, SystemRules)
    ensures SystemPrompt(specs) == SystemPrompt(other) ==> specs == other
  {
    var s := SystemPrompt(specs);
    assert s[|SystemIntro|..|SystemIntro| + |specs|] == specs;
    assert s[|SystemIntro| + |specs|..|SystemIntro| + |specs| + |SystemRules|] == SystemRules;
    if s == SystemPrompt(other) {
      assert SystemPrompt(other)[|SystemIntro|..|SystemIntro| + |other|] == other;
    }
  }

  /**
   * The exchange with the service: model `gpt-4o-mini` at temperature 0.2,
   * two messages, the system one first, holding the standards text and the
   * task verbatim.
   */
  lemma BuildRequestShape(arch: string, eng: string, task: string)
    ensures var r := ChatRequest(SystemPrompt(SolaSpecs(arch, eng)), UserPrompt(task));
            && r.model == "gpt-4o-mini" && r.temperature == 0.2 && |r.messages| == 2
            && r.messages[0].role == System && r.messages[1].role == User
            && OccursAt(r.messages[0].content, |SystemIntro|, SolaSpecs(arch, eng))
            && OccursAt(r.messages[0].content, |SystemIntro| + ArchAt, arch)
            && r.messages[1].content[|TaskPrefix|..] == task
  {
    var specs := SolaSpecs(arch, eng);
    var sys := SystemPrompt(specs);
    SystemPromptEmbedsSpecs(specs, specs);
    SolaSpecsLayout(arch, eng);
    assert sys[|SystemIntro| + ArchAt..|SystemIntro| + ArchAt + |arch|]
        == specs[ArchAt..ArchAt + |arch|];
    UserPromptCarriesTask(task, task);
  }

  /** The Markdown fence that opens a Python block. */
  const PythonFence: string := "```python"

  /**
   * `text.replace("```python", "").replace("```", "").strip()`: no fence
   * survives and no whitespace is left at either end.
   */
  function CleanFences(text: string): (code: string)
    ensures !Occurs(code, Fence)
    ensures IsStripped(code, Whitespace)
  {
    var unfenced := RemoveAll(RemoveAll(text, PythonFence), Fence);
    RemoveFencesLeavesNone(RemoveAll(text, PythonFence));
    StripSpec(unfenced, Whitespace);
    NotOccursInInfix(unfenced, StripOffset(unfenced, Whitespace),
                     StripOffset(unfenced, Whitespace) + |Strip(unfenced, Whitespace)|, Fence);
    Strip(unfenced, Whitespace)
  }

  /** A string with no fence holds no `python` fence either. */
  lemma NoPythonFence(s: string)
    requires !Occurs(s, Fence)
    ensures !Occurs(s, PythonFence)
  {
    forall i | 0 <= i <= |s| ensures !OccursAt(s, i, PythonFence) {
      if i + |PythonFence| <= |s| {
        assert s[i..i + |PythonFence|][..3] == s[i..i + 3];
        assert !OccursAt(s, i, Fence);
      }
    }
  }

  /** Text with no fence and no surrounding whitespace comes through unchanged. */
  lemma CleanFencesKeepsClean(text: string)
    requires !Occurs(text, Fence) && IsStripped(text, Whitespace)
    ensures CleanFences(text) == text
  {
    NoPythonFence(text);
    RemoveAllAbsent(text, PythonFence);
    RemoveAllAbsent(text, Fence);
    StripUnchanged(text, Whitespace);
  }

  /** Cleaning is idempotent. */
  lemma CleanFencesIdempotent(text: string)
    ensures CleanFences(CleanFences(text)) == CleanFences(text)
  {
    CleanFencesKeepsClean(CleanFences(text));
  }

  /** Removal passes over a leading part that holds no backtick. */
  lemma {:induction false} RemoveAllSkipsPlain(a: string, b: string, pat: string)
    requires |pat| > 0 && pat[0] !in a
    ensures RemoveAll(a + b, pat) == a + RemoveAll(b, pat)
    decreases |a|
  {
    if a != [] {
      var s := a + b;
      assert s[0] == a[0] != pat[0];
      if |s| >= |pat| {
        assert s[..|pat|] != pat;
      }
      assert s[1..] == a[1..] + b;
      RemoveAllSkipsPlain(a[1..], b, pat);
    } else {
      assert a + b == b;
    }
  }

  /**
   * A fenced Python block cleans to the code inside it: a reply
   * "```python\n<code>\n```" is written as `<code>`.
   */
  lemma CleanFencedBlock(code: string)
    requires '`' !in code && code != [] && IsStripped(code, Whitespace)
    ensures CleanFences("```python\n" + code + "\n```") == code
  {
    var text := "```python\n" + code + "\n```";
    var inner := "\n" + code + "\n";
    assert text == PythonFence + (inner + Fence);
    assert RemoveAll(text, PythonFence) == inner + Fence by {
      assert text[..|PythonFence|] == PythonFence;
      assert text[|PythonFence|..] == inner + Fence;
      RemoveAllSkipsPlain(inner, Fence, PythonFence);
      assert RemoveAll(Fence, PythonFence) == Fence;
    }
    assert RemoveAll(inner + Fence, Fence) == inner by {
      RemoveAllSkipsPlain(inner, Fence, Fence);
      assert Fence[3..] == [];
    }
    StripSingle(inner, Whitespace);
    assert inner[1..|inner| - 1] == code;
  }

  /** The reply of the service, as `response.choices[0].message.content` sees it. */
  datatype Reply = Text(text: string) | NoContent | Failure(reason: string)

  /** Reading the first choice fails on an empty choice list and passes an exception through. */
  function FirstChoice(c: Completion): Reply {
    match c
    case Raised(e) => Failure(e)
    case Response(cs) =>
      if |cs| == 0 then Failure("list index out of range")
      else if cs[0].None? then NoContent
      else Text(cs[0].value)
  }

  /** The reply to the request built from the spec documents and the task, sent with `key`. */
  function Exchange(complete: (string, Request) -> Completion, key: string,
                    arch: string, eng: string, task: string): Reply {
    FirstChoice(complete(key, ChatRequest(SystemPrompt(SolaSpecs(arch, eng)), UserPrompt(task))))
  }

  /** How a `build` run ends. */
  datatype Outcome =
    | Forged               // services.py written
    | Reported(reason: string)  // the exception was caught and printed
    | Crashed              // an exception escaped the command

  /** `<project>/app/services.py`, relative to the project directory. */
  const ServicesFile: Path := ["app", "services.py"]

  /** What `None.replace(...)` raises, caught and printed. */
  const NoneReplaceError: string := "'NoneType' object has no attribute 'replace'"

  /**
   * `generate_logic(task, project_dir)`. The spec documents (`arch`, `eng`;
   * None when the file is missing) are read first and the key is resolved
   * next, both outside the `try`, so their failures escape. Only the
   * completion call, the reading of its reply and the write are guarded:
   * on any failure there, the reason is printed and no file is touched.
   */
  method GenerateLogic(fs: FileSystem, store: CredentialStore,
                       env: Option<string>, prompt: Option<string>,
                       arch: Option<string>, eng: Option<string>,
                       task: string, projectDir: Path,
                       complete: (string, Request) -> Completion)
    returns (outcome: Outcome, log: seq<Message>)
    modifies fs, store
    ensures arch.None? || eng.None? ==>
              && outcome == Crashed && log == []
              && store.config == old(store.config) && fs.Snapshot() == old(fs.Snapshot())
    ensures arch.Some? && eng.Some? ==>
              var res := Resolve(env, old(store.config), prompt);
              var asked := if res.prompted then [NoKeyFound] else [];
              && store.config == res.config
              && (res.key.None? ==> outcome == Crashed && log == asked && fs.Snapshot() == old(fs.Snapshot()))
              && (res.key.Some? ==>
                    var head := asked + [Architecting(task)];
                    match Exchange(complete, res.key.value, arch.value, eng.value, task)
                    case Text(text) =>
                      && outcome == Forged && log == head + [LogicForged]
                      && fs.dirs == old(fs.dirs) + Ancestry(projectDir + ["app"])
                      && fs.files == old(fs.files)[projectDir + ServicesFile := CleanFences(text)]
                    case NoContent =>
                      && outcome == Reported(NoneReplaceError) && log == head + [ArchitectFailed(NoneReplaceError)]
                      && fs.Snapshot() == old(fs.Snapshot())
                    case Failure(reason) =>
                      && outcome == Reported(reason) && log == head + [ArchitectFailed(reason)]
                      && fs.Snapshot() == old(fs.Snapshot()))
  {
    if arch.None? || eng.None? {
      return Crashed, [];
    }
    var key;
    key, log := store.GetApiKey(env, prompt);
    if key.None? {
      return Crashed, log;
    }
    log := log + [Architecting(task)];
    var reply := Exchange(complete, key.value, arch.value, eng.value, task);
    match reply
    case Failure(reason) =>
      outcome := Reported(reason);
      log := log + [ArchitectFailed(reason)];
    case NoContent =>
      outcome := Reported(NoneReplaceError);
      log := log + [ArchitectFailed(NoneReplaceError)];
    case Text(text) =>
      var code := CleanFences(text);
      fs.MakeDirs(projectDir + ["app"]);
      fs.WriteText(projectDir + ServicesFile, code);
      outcome := Forged;
      log := log + [LogicForged];
  }
}
