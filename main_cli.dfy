/**
 * sola/main.py: the older single-file command line. Its `get_api_key` and
 * `auth` are the same as those of sola/core.py and sola/commands/auth.py;
 * its `init` makes two package directories and renders three templates
 * without checking they exist, stopping at the first missing one; its
 * `build` sends fixed standards and writes the reply verbatim.
 */
module MainCli {
  import opened Wrappers
  import opened PyStr
  import opened Fs
  import opened Trace
  import opened Core
  import Auth
  import opened Build
  import opened Init

  /** `get_api_key()` of main.py: the same chain and normalisation as sola/core.py. */
  method GetApiKey(store: CredentialStore, env: Option<string>, prompt: Option<string>)
    returns (key: Option<string>, log: seq<Message>)
    modifies store
    ensures key == Resolve(env, old(store.config), prompt).key
    ensures store.config == Resolve(env, old(store.config), prompt).config
    ensures log == if Resolve(env, old(store.config), prompt).prompted then [NoKeyFound] else []
  {
    key, log := store.GetApiKey(env, prompt);
  }

  /** `auth(api_key)` of main.py: the config file is replaced by `OPENAI_API_KEY=<api_key.strip()>`. */
  method Authenticate(store: CredentialStore, apiKey: string) returns (log: seq<Message>)
    modifies store
    ensures store.config == Some(ConfigLine(apiKey))
    ensures log == [Authenticated]
  {
    log := Auth.SetAuth(store, apiKey);
  }

  // ----- init -----

  /** The two package directories of the older `init`. */
  const LegacyDirs: seq<Path> := [["app"], ["tests"]]

  /** The three templates of the older `init`, in order. */
  const LegacyTable: seq<Entry> := [
    Entry("Makefile.j2", ["Makefile"]),
    Entry("README.md.j2", ["README.md"]),
    Entry("pyproject.toml.j2", ["pyproject.toml"])
  ]

  /**
   * The rendering loop: each template is rendered in turn; the first
   * missing one raises `TemplateNotFound`, whose text is the template name,
   * and the handler prints it instead of the success line. Nothing is undone.
   */
  function LegacyRenders(root: Path, templates: set<string>, render: (string, Context) -> string,
                         context: Context, entries: seq<Entry>): seq<Event> {
    if entries == [] then [Say(InfraReady(root))]
    else if entries[0].template in templates then
      [Did(Write(root + entries[0].output, render(entries[0].template, context)))]
        + LegacyRenders(root, templates, render, context, entries[1..])
    else [Say(InitFailed(entries[0].template))]
  }

  /** The writes of rows rendered one after the other. */
  function Writes(root: Path, render: (string, Context) -> string, context: Context,
                  entries: seq<Entry>): seq<Event> {
    seq(|entries|, i requires 0 <= i < |entries| =>
      Did(Write(root + entries[i].output, render(entries[i].template, context))))
  }

  /** Everything the older `init(project_name)` does, in order. */
  function LegacyTrace(cwd: Path, name: string, templates: set<string>,
                       render: (string, Context) -> string): seq<Event> {
    var root := ProjectRoot(cwd, name);
    [Say(Forging(name))]
      + DirSteps(root, LegacyDirs)
      + LegacyRenders(root, templates, render, ProjectContext(name), LegacyTable)
  }

  /** With every template present, each row is written in order and the success line follows. */
  lemma {:induction false} LegacyAllPresent(root: Path, templates: set<string>,
                                            render: (string, Context) -> string,
                                            context: Context, entries: seq<Entry>)
    requires forall i | 0 <= i < |entries| :: entries[i].template in templates
    ensures LegacyRenders(root, templates, render, context, entries)
         == Writes(root, render, context, entries) + [Say(InfraReady(root))]
    decreases |entries|
  {
    if entries != [] {
      LegacyAllPresent(root, templates, render, context, entries[1..]);
      assert Writes(root, render, context, entries)
          == [Writes(root, render, context, entries)[0]] + Writes(root, render, context, entries[1..]);
    }
  }

  /**
   * When row `k` is the first whose template is missing, the rows before it
   * are written, the failure names its template, and the success line is
   * never printed.
   */
  lemma {:induction false} LegacyStopsAtMissing(root: Path, templates: set<string>,
                                                render: (string, Context) -> string,
                                                context: Context, entries: seq<Entry>, k: nat)
    requires k < |entries| && entries[k].template !in templates
    requires forall i | 0 <= i < k :: entries[i].template in templates
    ensures LegacyRenders(root, templates, render, context, entries)
         == Writes(root, render, context, entries[..k]) + [Say(InitFailed(entries[k].template))]
    decreases k
  {
    if k > 0 {
      var rest := entries[1..];
      assert rest[k - 1] == entries[k];
      LegacyStopsAtMissing(root, templates, render, context, rest, k - 1);
      assert rest[..k - 1] == entries[..k][1..];
      assert Writes(root, render, context, entries[..k])
          == [Writes(root, render, context, entries[..k])[0]] + Writes(root, render, context, entries[..k][1..]);
    }
  }

  /** When every template exists, the newer loop's actions are plain writes. */
  lemma WritesAreTemplateSteps(root: Path, templates: set<string>, render: (string, Context) -> string,
                               context: Context, entries: seq<Entry>)
    requires forall i | 0 <= i < |entries| :: entries[i].template in templates
    ensures TemplateSteps(root, templates, render, context, entries) == Writes(root, render, context, entries)
  {
  }

  /** The rendering loop of the older `init`, over `entries`. */
  method LegacyRenderAll(fs: FileSystem, root: Path, templates: set<string>,
                         render: (string, Context) -> string, context: Context, entries: seq<Entry>)
    returns (steps: seq<Event>)
    modifies fs
    ensures steps == LegacyRenders(root, templates, render, context, entries)
    ensures fs.Snapshot() == Run(old(fs.Snapshot()), steps)
  {
    ghost var t0 := fs.Snapshot();
    var done: seq<Event> := [];
    var j := 0;
    while j < |entries| && entries[j].template in templates
      invariant 0 <= j <= |entries|
      invariant forall i | 0 <= i < j :: entries[i].template in templates
      invariant done == Writes(root, render, context, entries[..j])
      invariant fs.Snapshot() == AfterTemplates(t0, root, templates, render, context, entries[..j])
    {
      var e := entries[j];
      var found := RenderFile(fs, templates, render, e.template, root + e.output, context);
      done := done + [Did(Write(root + e.output, render(e.template, context)))];
      assert entries[..j + 1][..j] == entries[..j];
      j := j + 1;
    }
    WritesAreTemplateSteps(root, templates, render, context, entries[..j]);
    RunTemplateSteps(t0, root, templates, render, context, entries[..j]);
    if j < |entries| {
      LegacyStopsAtMissing(root, templates, render, context, entries, j);
      RunSay(t0, done, InitFailed(entries[j].template));
      steps := done + [Say(InitFailed(entries[j].template))];
    } else {
      assert entries[..j] == entries;
      LegacyAllPresent(root, templates, render, context, entries);
      RunSay(t0, done, InfraReady(root));
      steps := done + [Say(InfraReady(root))];
    }
  }

  /**
   * `init(project_name)` of main.py run in `cwd`, with `templates` the
   * template files present: both directories with their markers, then the
   * rendering loop.
   */
  method LegacyInit(fs: FileSystem, cwd: Path, name: string, templates: set<string>,
                    render: (string, Context) -> string) returns (trace: seq<Event>)
    modifies fs
    ensures trace == LegacyTrace(cwd, name, templates, render)
    ensures fs.Snapshot() == Run(old(fs.Snapshot()), trace)
  {
    ghost var t0 := fs.Snapshot();
    var root := cwd + [name];
    var dirSteps := MakeLayout(fs, root, LegacyDirs);
    ghost var t1 := fs.Snapshot();
    var context := map["project_name" := name];
    var renders := LegacyRenderAll(fs, root, templates, render, context, LegacyTable);
    trace := [Say(Forging(name))] + dirSteps + renders;
    RunSay(t0, [], Forging(name));
    assert [] + [Say(Forging(name))] == [Say(Forging(name))];
    RunDirSteps(t0, root, LegacyDirs);
    RunAppend(t0, [Say(Forging(name))], dirSteps);
    RunAppend(t0, [Say(Forging(name))] + dirSteps, renders);
  }

  /**
   * The older `init` is a fixed plan too: the announcement, `app` and
   * `tests`, each followed by its marker, then the rendering loop.
   */
  lemma LegacyPlan(cwd: Path, name: string, templates: set<string>, render: (string, Context) -> string)
    ensures var root := cwd + [name];
            LegacyTrace(cwd, name, templates, render)
              == [Say(Forging(name)),
                  Did(MakeDirs(root + ["app"])), Did(Touch(root + ["app"] + [InitMarker])),
                  Did(MakeDirs(root + ["tests"])), Did(Touch(root + ["tests"] + [InitMarker]))]
                 + LegacyRenders(root, templates, render, map["project_name" := name], LegacyTable)
  {
    var root := cwd + [name];
    assert LegacyDirs[..1][..0] == [];
    assert LegacyDirs[..2][..1] == LegacyDirs[..1];
    assert LegacyDirs[..2] == LegacyDirs;
    assert DirSteps(root, LegacyDirs[..1]) == DirStep(root, LegacyDirs[0]);
    assert DirSteps(root, LegacyDirs) == DirSteps(root, LegacyDirs[..1]) + DirStep(root, LegacyDirs[1]);
  }

  /**
   * A missing template leaves the rows before it on disk: after a run that
   * stops at row `k`, every earlier output holds its rendering.
   */
  lemma LegacyKeepsEarlierFiles(t: Tree, cwd: Path, name: string, templates: set<string>,
                                render: (string, Context) -> string, k: nat, i: nat)
    requires k < |LegacyTable| && LegacyTable[k].template !in templates
    requires forall j | 0 <= j < k :: LegacyTable[j].template in templates
    requires i < k
    ensures var u, p := Run(t, LegacyTrace(cwd, name, templates, render)), ProjectRoot(cwd, name) + LegacyTable[i].output;
            p in u.files && u.files[p] == render(LegacyTable[i].template, ProjectContext(name))
  {
    var root := ProjectRoot(cwd, name);
    var context := ProjectContext(name);
    var head := [Say(Forging(name))] + DirSteps(root, LegacyDirs);
    var w := Writes(root, render, context, LegacyTable[..k]);
    LegacyStopsAtMissing(root, templates, render, context, LegacyTable, k);
    var p := root + LegacyTable[i].output;
    var c := render(LegacyTable[i].template, context);
    var after := w[i + 1..] + [Say(InitFailed(LegacyTable[k].template))];
    assert w == w[..i] + [Did(Write(p, c))] + w[i + 1..];
    assert LegacyTrace(cwd, name, templates, render) == (head + w[..i]) + [Did(Write(p, c))] + after;
    forall j | 0 <= j < |after| ensures !TouchesFile(after[j], p) {
      if j < |w[i + 1..]| {
        var q := LegacyTable[i + 1 + j].output;
        assert after[j] == Did(Write(root + q, render(LegacyTable[i + 1 + j].template, context)));
        assert |q[0]| != |LegacyTable[i].output[0]|;
        UnderRoot(root, q, LegacyTable[i].output);
      }
    }
    RunLastWrite(t, head + w[..i], p, c, after);
  }

  // ----- build -----

  /** The fixed system message of the older `build`: no standards documents. */
  const LegacySystemPrompt: string :=
    "You are a Senior AI Backend Architect. Generate a clean, professional Python service. "
    + "Standards: Use AsyncOpenAI, implement Pydantic V2 models, and use async def. "
    + "Strict Rule: Return ONLY raw Python code. No markdown, no explanations, no chat."

  /** What `write_text(None)` raises, caught and printed. */
  const NoneWriteError: string := "data must be str, not NoneType"

  /**
   * `build(task, project_dir)` of main.py. The key is resolved outside the
   * `try`; the reply is written verbatim. A null reply passes the
   * `makedirs` and fails at the write, so `app` is created but no file is.
   */
  method LegacyBuild(fs: FileSystem, store: CredentialStore,
                     env: Option<string>, prompt: Option<string>,
                     task: string, projectDir: Path,
                     complete: (string, Request) -> Completion)
    returns (outcome: Outcome, log: seq<Message>)
    modifies fs, store
    ensures var res := Resolve(env, old(store.config), prompt);
            var asked := if res.prompted then [NoKeyFound] else [];
            && store.config == res.config
            && (res.key.None? ==> outcome == Crashed && log == asked && fs.Snapshot() == old(fs.Snapshot()))
            && (res.key.Some? ==>
                  var head := asked + [Architecting(task)];
                  match FirstChoice(complete(res.key.value, ChatRequest(LegacySystemPrompt, UserPrompt(task))))
                  case Text(text) =>
                    && outcome == Forged && log == head + [LogicForged]
                    && fs.dirs == old(fs.dirs) + Ancestry(projectDir + ["app"])
                    && fs.files == old(fs.files)[projectDir + ServicesFile := text]
                  case NoContent =>
                    && outcome == Reported(NoneWriteError) && log == head + [ArchitectFailed(NoneWriteError)]
                    && fs.dirs == old(fs.dirs) + Ancestry(projectDir + ["app"])
                    && fs.files == old(fs.files)
                  case Failure(reason) =>
                    && outcome == Reported(reason) && log == head + [ArchitectFailed(reason)]
                    && fs.Snapshot() == old(fs.Snapshot()))
  {
    var key;
    key, log := store.GetApiKey(env, prompt);
    if key.None? {
      return Crashed, log;
    }
    log := log + [Architecting(task)];
    var reply := FirstChoice(complete(key.value, ChatRequest(LegacySystemPrompt, UserPrompt(task))));
    match reply
    case Failure(reason) =>
      outcome := Reported(reason);
      log := log + [ArchitectFailed(reason)];
    case NoContent =>
      fs.MakeDirs(projectDir + ["app"]);
      outcome := Reported(NoneWriteError);
      log := log + [ArchitectFailed(NoneWriteError)];
    case Text(text) =>
      fs.MakeDirs(projectDir + ["app"]);
      fs.WriteText(projectDir + ServicesFile, text);
      outcome := Forged;
      log := log + [LogicForged];
  }

  /**
   * The two `build` commands write different files for a fenced reply: the
   * older one keeps the fences, the newer one never does.
   */
  lemma FencesOnlyCleanedByNewBuild(text: string)
    requires Occurs(text, Fence)
    ensures CleanFences(text) != text
    ensures !Occurs(CleanFences(text), Fence)
  {
  }
}
