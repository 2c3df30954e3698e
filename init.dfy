/**
 * sola/commands/init.py: `create_project` scaffolds a project under the
 * current directory: four directories, an `__init__.py` marker in each
 * non-hidden one, then seven templates rendered in table order, each only
 * when its template file exists.
 */
module Init {
  import opened Fs
  import opened Trace
  import opened Core

  /** The marker file that makes a directory a Python package. */
  const InitMarker: string := "__init__.py"

  /** The directories created, in order, relative to the project root. */
  const ProjectDirs: seq<Path> :=
    [["app", "features", "health"], ["app", "shared"], ["test", "evals"], [".github", "workflows"]]

  /** `folder.startswith(".")`: the relative name starts with a dot. */
  predicate Hidden(folder: Path) {
    folder != [] && folder[0] != [] && folder[0][0] == '.'
  }

  /** One row of the template table: template file name, output path relative to the root. */
  datatype Entry = Entry(template: string, output: Path)

  /** The template table, in the order its rows are processed. */
  const TemplateTable: seq<Entry> := [
    Entry("Makefile.j2", ["Makefile"]),
    Entry("README.md.j2", ["README.md"]),
    Entry("pyproject.toml.j2", ["pyproject.toml"]),
    Entry("main.py.j2", ["app", "main.py"]),
    Entry("health_router.py.j2", ["app", "features", "health", "router.py"]),
    Entry("Dockerfile.j2", ["Dockerfile"]),
    Entry("docker-compose.yml.j2", ["docker-compose.yml"])
  ]

  /** The one context every template is rendered with. */
  function ProjectContext(name: string): Context {
    map["project_name" := name]
  }

  /** `Path.cwd() / project_name`. */
  function ProjectRoot(cwd: Path, name: string): Path {
    cwd + [name]
  }

  /** The actions for one directory: create it, then touch its marker unless it is hidden. */
  function DirStep(root: Path, folder: Path): seq<Event> {
    [Did(MakeDirs(root + folder))] + (if Hidden(folder) then [] else [Did(Touch(root + folder + [InitMarker]))])
  }

  /** The directory phase over `folders`, in order. */
  function DirSteps(root: Path, folders: seq<Path>): seq<Event> {
    if folders == [] then []
    else DirSteps(root, folders[..|folders| - 1]) + DirStep(root, folders[|folders| - 1])
  }

  lemma AfterDirsSnoc(t: Tree, root: Path, folders: seq<Path>, i: nat)
    requires i < |folders|
    ensures AfterDirs(t, root, folders[..i + 1]) == AfterDir(AfterDirs(t, root, folders[..i]), root, folders[i])
  {
    assert folders[..i + 1][..i] == folders[..i];
  }

  lemma DirStepsSnoc(root: Path, folders: seq<Path>, i: nat)
    requires i < |folders|
    ensures DirSteps(root, folders[..i + 1]) == DirSteps(root, folders[..i]) + DirStep(root, folders[i])
  {
    assert folders[..i + 1][..i] == folders[..i];
  }

  /** The action for one template row: render it to its output, or warn that it is missing. */
  function TemplateStep(root: Path, templates: set<string>, render: (string, Context) -> string,
                        context: Context, e: Entry): Event {
    if e.template in templates then Did(Write(root + e.output, render(e.template, context)))
    else Say(SkippingTemplate(e.template))
  }

  /** The template phase: one action per row, in table order. */
  function TemplateSteps(root: Path, templates: set<string>, render: (string, Context) -> string,
                         context: Context, entries: seq<Entry>): seq<Event> {
    seq(|entries|, i requires 0 <= i < |entries| => TemplateStep(root, templates, render, context, entries[i]))
  }

  lemma TemplateStepsSnoc(root: Path, templates: set<string>, render: (string, Context) -> string,
                          context: Context, entries: seq<Entry>, j: nat)
    requires j < |entries|
    ensures TemplateSteps(root, templates, render, context, entries[..j + 1])
         == TemplateSteps(root, templates, render, context, entries[..j])
            + [TemplateStep(root, templates, render, context, entries[j])]
  {
  }

  /** Everything `create_project(name)` does, in order. */
  function ScaffoldTrace(cwd: Path, name: string, templates: set<string>,
                         render: (string, Context) -> string): seq<Event> {
    var root := ProjectRoot(cwd, name);
    [Say(Forging(name))]
      + DirSteps(root, ProjectDirs)
      + TemplateSteps(root, templates, render, ProjectContext(name), TemplateTable)
      + [Say(InfraReady(root))]
  }

  /** The tree after one directory's actions: `makedirs`, then `touch` of its marker unless hidden. */
  function AfterDir(t: Tree, root: Path, folder: Path): Tree {
    var made := Apply(t, MakeDirs(root + folder));
    if Hidden(folder) then made else Apply(made, Touch(root + folder + [InitMarker]))
  }

  /** The tree after the directory phase over `folders`. */
  function AfterDirs(t: Tree, root: Path, folders: seq<Path>): Tree {
    if folders == [] then t
    else AfterDir(AfterDirs(t, root, folders[..|folders| - 1]), root, folders[|folders| - 1])
  }

  /** The tree after one template row: its output written when the template exists. */
  function AfterTemplate(t: Tree, root: Path, templates: set<string>, render: (string, Context) -> string,
                         context: Context, e: Entry): Tree {
    if e.template in templates then Apply(t, Write(root + e.output, render(e.template, context))) else t
  }

  /** The tree after the template phase over `entries`. */
  function AfterTemplates(t: Tree, root: Path, templates: set<string>, render: (string, Context) -> string,
                          context: Context, entries: seq<Entry>): Tree {
    if entries == [] then t
    else AfterTemplate(AfterTemplates(t, root, templates, render, context, entries[..|entries| - 1]),
                       root, templates, render, context, entries[|entries| - 1])
  }

  /** The directory phase's actions produce `AfterDirs`. */
  lemma {:induction false} RunDirSteps(t: Tree, root: Path, folders: seq<Path>)
    ensures Run(t, DirSteps(root, folders)) == AfterDirs(t, root, folders)
    decreases |folders|
  {
    if folders != [] {
      var init, last := folders[..|folders| - 1], folders[|folders| - 1];
      RunDirSteps(t, root, init);
      var u := Run(t, DirSteps(root, init));
      RunAppend(t, DirSteps(root, init), DirStep(root, last));
      RunDid(u, [], MakeDirs(root + last));
      assert [] + [Did(MakeDirs(root + last))] == [Did(MakeDirs(root + last))];
      if !Hidden(last) {
        RunDid(u, [Did(MakeDirs(root + last))], Touch(root + last + [InitMarker]));
      }
    }
  }

  /** The template phase's actions produce `AfterTemplates`. */
  lemma {:induction false} RunTemplateSteps(t: Tree, root: Path, templates: set<string>,
                                            render: (string, Context) -> string,
                                            context: Context, entries: seq<Entry>)
    ensures Run(t, TemplateSteps(root, templates, render, context, entries))
         == AfterTemplates(t, root, templates, render, context, entries)
    decreases |entries|
  {
    if entries != [] {
      var init, last := entries[..|entries| - 1], entries[|entries| - 1];
      var steps := TemplateSteps(root, templates, render, context, init);
      RunTemplateSteps(t, root, templates, render, context, init);
      TemplateStepsSnoc(root, templates, render, context, entries, |entries| - 1);
      assert entries[..|entries|] == entries;
      var ev := TemplateStep(root, templates, render, context, last);
      if ev.Did? {
        RunDid(t, steps, ev.effect);
      } else {
        RunSay(t, steps, ev.message);
      }
    }
  }

  /** Running the whole scaffold trace: the directory phase, then the template phase. */
  lemma RunScaffold(t: Tree, cwd: Path, name: string, templates: set<string>,
                    render: (string, Context) -> string)
    ensures var root := ProjectRoot(cwd, name);
            Run(t, ScaffoldTrace(cwd, name, templates, render))
              == AfterTemplates(AfterDirs(t, root, ProjectDirs), root, templates, render,
                                ProjectContext(name), TemplateTable)
  {
    var root := ProjectRoot(cwd, name);
    var ds := DirSteps(root, ProjectDirs);
    var ts := TemplateSteps(root, templates, render, ProjectContext(name), TemplateTable);
    RunSay(t, [], Forging(name));
    assert [] + [Say(Forging(name))] == [Say(Forging(name))];
    RunAppend(t, [Say(Forging(name))], ds);
    RunDirSteps(t, root, ProjectDirs);
    RunAppend(t, [Say(Forging(name))] + ds, ts);
    RunTemplateSteps(Run(t, [Say(Forging(name))] + ds), root, templates, render, ProjectContext(name), TemplateTable);
    RunSay(t, [Say(Forging(name))] + ds + ts, InfraReady(root));
  }

  /** The directory loop of `create_project` over `folders`: each one created, its marker touched unless hidden. */
  method MakeLayout(fs: FileSystem, root: Path, folders: seq<Path>) returns (steps: seq<Event>)
    modifies fs
    ensures steps == DirSteps(root, folders)
    ensures fs.Snapshot() == AfterDirs(old(fs.Snapshot()), root, folders)
  {
    ghost var t0 := fs.Snapshot();
    steps := [];
    var i := 0;
    while i < |folders|
      invariant 0 <= i <= |folders|
      invariant steps == DirSteps(root, folders[..i])
      invariant fs.Snapshot() == AfterDirs(t0, root, folders[..i])
    {
      var folder := folders[i];
      fs.MakeDirs(root + folder);
      if !Hidden(folder) {
        fs.Touch(root + folder + [InitMarker]);
      }
      DirStepsSnoc(root, folders, i);
      AfterDirsSnoc(t0, root, folders, i);
      steps := steps + DirStep(root, folder);
      i := i + 1;
    }
    assert folders[..i] == folders;
  }

  /**
   * The template loop of `create_project` over the table `entries`: each row rendered to its output
   * when its template exists, in table order; otherwise a warning.
   */
  method RenderTemplates(fs: FileSystem, root: Path, templates: set<string>,
                         render: (string, Context) -> string, context: Context, entries: seq<Entry>)
    returns (steps: seq<Event>)
    modifies fs
    ensures steps == TemplateSteps(root, templates, render, context, entries)
    ensures fs.Snapshot() == AfterTemplates(old(fs.Snapshot()), root, templates, render, context, entries)
  {
    ghost var t0 := fs.Snapshot();
    steps := [];
    var j := 0;
    while j < |entries|
      invariant 0 <= j <= |entries|
      invariant steps == TemplateSteps(root, templates, render, context, entries[..j])
      invariant fs.Snapshot() == AfterTemplates(t0, root, templates, render, context, entries[..j])
    {
      var e := entries[j];
      if e.template in templates {
        var found := RenderFile(fs, templates, render, e.template, root + e.output, context);
        steps := steps + [Did(Write(root + e.output, render(e.template, context)))];
      } else {
        steps := steps + [Say(SkippingTemplate(e.template))];
      }
      TemplateStepsSnoc(root, templates, render, context, entries, j);
      assert entries[..j + 1][..j] == entries[..j];
      j := j + 1;
    }
    assert entries[..j] == entries;
  }

  /**
   * `create_project(project_name)` run in `cwd`, with `templates` the
   * template files present. It performs the scaffold trace, in order, on
   * the filesystem.
   */
  method CreateProject(fs: FileSystem, cwd: Path, name: string, templates: set<string>,
                       render: (string, Context) -> string) returns (trace: seq<Event>)
    modifies fs
    ensures trace == ScaffoldTrace(cwd, name, templates, render)
    ensures fs.Snapshot() == Run(old(fs.Snapshot()), trace)
  {
    var root := cwd + [name];
    var dirSteps := MakeLayout(fs, root, ProjectDirs);
    var context := map["project_name" := name];
    var templateSteps := RenderTemplates(fs, root, templates, render, context, TemplateTable);
    trace := [Say(Forging(name))] + dirSteps + templateSteps + [Say(InfraReady(root))];
    RunScaffold(old(fs.Snapshot()), cwd, name, templates, render);
  }

  // ----- The plan, stated outright -----

  /**
   * The scaffold is a fixed plan: the announcement, then the four
   * directories in order, each but `.github/workflows` followed by its
   * marker, then one action per template row, then the success line, which
   * is printed whether or not templates were skipped.
   */
  lemma ScaffoldPlan(cwd: Path, name: string, templates: set<string>, render: (string, Context) -> string)
    ensures var root := cwd + [name];
            ScaffoldTrace(cwd, name, templates, render)
              == [Say(Forging(name)),
                  Did(MakeDirs(root + ["app", "features", "health"])),
                  Did(Touch(root + ["app", "features", "health"] + [InitMarker])),
                  Did(MakeDirs(root + ["app", "shared"])),
                  Did(Touch(root + ["app", "shared"] + [InitMarker])),
                  Did(MakeDirs(root + ["test", "evals"])),
                  Did(Touch(root + ["test", "evals"] + [InitMarker])),
                  Did(MakeDirs(root + [".github", "workflows"]))]
                 + TemplateSteps(root, templates, render, map["project_name" := name], TemplateTable)
                 + [Say(InfraReady(root))]
  {
    var root := cwd + [name];
    assert ProjectDirs[..0] == [];
    assert ProjectDirs[..1][..0] == ProjectDirs[..0];
    assert ProjectDirs[..2][..1] == ProjectDirs[..1];
    assert ProjectDirs[..3][..2] == ProjectDirs[..2];
    assert ProjectDirs[..4][..3] == ProjectDirs[..3];
    assert ProjectDirs[..4] == ProjectDirs;
    assert DirSteps(root, ProjectDirs[..1]) == DirStep(root, ProjectDirs[0]);
    assert DirSteps(root, ProjectDirs[..2]) == DirSteps(root, ProjectDirs[..1]) + DirStep(root, ProjectDirs[1]);
    assert DirSteps(root, ProjectDirs[..3]) == DirSteps(root, ProjectDirs[..2]) + DirStep(root, ProjectDirs[2]);
    assert DirSteps(root, ProjectDirs) == DirSteps(root, ProjectDirs[..3]) + DirStep(root, ProjectDirs[3]);
  }

  /** A directory action: `makedirs` or a marker `touch`. */
  predicate IsLayout(ev: Event) {
    ev.Did? && (ev.effect.MakeDirs? || ev.effect.Touch?)
  }

  /** A template rendering. */
  predicate IsRender(ev: Event) {
    ev.Did? && ev.effect.Write?
  }

  /** Every directory action comes before every template rendering. */
  lemma LayoutBeforeTemplates(cwd: Path, name: string, templates: set<string>, render: (string, Context) -> string)
    ensures var trace := ScaffoldTrace(cwd, name, templates, render);
            forall i, j | 0 <= i < |trace| && 0 <= j < |trace| && IsLayout(trace[i]) && IsRender(trace[j]) :: i < j
  {
    var trace := ScaffoldTrace(cwd, name, templates, render);
    ScaffoldPlan(cwd, name, templates, render);
    forall i, j | 0 <= i < |trace| && 0 <= j < |trace| && IsLayout(trace[i]) && IsRender(trace[j])
      ensures i < j
    {
      assert 1 <= i <= 7;
      assert 8 <= j < 15;
    }
  }

  // ----- What the directory phase leaves on disk -----

  /** The directories the phase over `folders` creates: every ancestor of every folder. */
  function LayoutDirs(root: Path, folders: seq<Path>): set<Path> {
    if folders == [] then {}
    else LayoutDirs(root, folders[..|folders| - 1]) + Ancestry(root + folders[|folders| - 1])
  }

  /** The marker path of a folder. */
  function MarkerOf(root: Path, folder: Path): Path {
    root + folder + [InitMarker]
  }

  /** The directory phase adds exactly `LayoutDirs`, and no file disappears. */
  lemma {:induction false} AfterDirsGrows(t: Tree, root: Path, folders: seq<Path>)
    ensures AfterDirs(t, root, folders).dirs == t.dirs + LayoutDirs(root, folders)
    ensures t.files.Keys <= AfterDirs(t, root, folders).files.Keys
    decreases |folders|
  {
    if folders != [] {
      AfterDirsGrows(t, root, folders[..|folders| - 1]);
    }
  }

  /** A path that is no marker of a non-hidden folder keeps its state. */
  lemma {:induction false} AfterDirsUntouched(t: Tree, root: Path, folders: seq<Path>, p: Path)
    requires forall i | 0 <= i < |folders| && !Hidden(folders[i]) :: p != MarkerOf(root, folders[i])
    ensures Keeps(t, AfterDirs(t, root, folders), p)
    decreases |folders|
  {
    if folders != [] {
      AfterDirsUntouched(t, root, folders[..|folders| - 1], p);
    }
  }

  /** Markers are only ever created empty: a file keeps its old content or, if new, is empty. */
  lemma {:induction false} AfterDirsOldOrEmpty(t: Tree, root: Path, folders: seq<Path>, p: Path)
    ensures var u := AfterDirs(t, root, folders);
            p in u.files ==> (if p in t.files then u.files[p] == t.files[p] else u.files[p] == "")
    decreases |folders|
  {
    if folders != [] {
      AfterDirsOldOrEmpty(t, root, folders[..|folders| - 1], p);
      AfterDirsGrows(t, root, folders[..|folders| - 1]);
    }
  }

  /** Every non-hidden folder has its marker afterwards. */
  lemma {:induction false} AfterDirsMarker(t: Tree, root: Path, folders: seq<Path>, k: nat)
    requires k < |folders| && !Hidden(folders[k])
    ensures MarkerOf(root, folders[k]) in AfterDirs(t, root, folders).files
    decreases |folders|
  {
    var init := folders[..|folders| - 1];
    if k < |folders| - 1 {
      assert init[k] == folders[k];
      AfterDirsMarker(t, root, init, k);
      var u := AfterDirs(t, root, init);
      assert u.files.Keys <= AfterDir(u, root, folders[|folders| - 1]).files.Keys;
    }
  }

  // ----- What the template phase leaves on disk -----

  /** No two rows of a table write the same output. */
  predicate DistinctOutputs(entries: seq<Entry>) {
    forall i, j | 0 <= i < j < |entries| :: entries[i].output != entries[j].output
  }

  /** The template phase creates no directory. */
  lemma {:induction false} AfterTemplatesDirs(t: Tree, root: Path, templates: set<string>,
                                              render: (string, Context) -> string, context: Context,
                                              entries: seq<Entry>)
    ensures AfterTemplates(t, root, templates, render, context, entries).dirs == t.dirs
    ensures t.files.Keys <= AfterTemplates(t, root, templates, render, context, entries).files.Keys
    decreases |entries|
  {
    if entries != [] {
      AfterTemplatesDirs(t, root, templates, render, context, entries[..|entries| - 1]);
    }
  }

  /** A path no present template renders to keeps its state. */
  lemma {:induction false} AfterTemplatesUntouched(t: Tree, root: Path, templates: set<string>,
                                                   render: (string, Context) -> string, context: Context,
                                                   entries: seq<Entry>, p: Path)
    requires forall i | 0 <= i < |entries| && entries[i].template in templates :: p != root + entries[i].output
    ensures Keeps(t, AfterTemplates(t, root, templates, render, context, entries), p)
    decreases |entries|
  {
    if entries != [] {
      AfterTemplatesUntouched(t, root, templates, render, context, entries[..|entries| - 1], p);
    }
  }

  /** The output of a present template holds its rendering with the context. */
  lemma {:induction false} AfterTemplatesRendered(t: Tree, root: Path, templates: set<string>,
                                                  render: (string, Context) -> string, context: Context,
                                                  entries: seq<Entry>, k: nat)
    requires DistinctOutputs(entries) && k < |entries| && entries[k].template in templates
    ensures var u := AfterTemplates(t, root, templates, render, context, entries);
            var p := root + entries[k].output;
            p in u.files && u.files[p] == render(entries[k].template, context)
    decreases |entries|
  {
    var init, last := entries[..|entries| - 1], entries[|entries| - 1];
    if k < |entries| - 1 {
      assert init[k] == entries[k];
      AfterTemplatesRendered(t, root, templates, render, context, init, k);
      assert root + last.output != root + entries[k].output by {
        assert (root + last.output)[|root|..] == last.output;
        assert (root + entries[k].output)[|root|..] == entries[k].output;
      }
    }
  }

  // ----- The scaffold's effect on disk -----

  /** Paths under the same root are equal exactly when their relative parts are. */
  lemma UnderRoot(root: Path, a: Path, b: Path)
    ensures root + a == root + b <==> a == b
  {
    if root + a == root + b {
      assert (root + a)[|root|..] == a;
      assert (root + b)[|root|..] == b;
    }
  }

  /**
   * Facts about the two fixed lists: the outputs are distinct and none is a
   * marker; the markers are distinct; only the last folder is hidden.
   */
  lemma TableFacts()
    ensures DistinctOutputs(TemplateTable)
    ensures forall i, k | 0 <= i < |TemplateTable| && 0 <= k < |ProjectDirs| ::
              TemplateTable[i].output != ProjectDirs[k] + [InitMarker]
    ensures forall k, l | 0 <= k < l < |ProjectDirs| :: ProjectDirs[k] + [InitMarker] != ProjectDirs[l] + [InitMarker]
    ensures forall k | 0 <= k < |ProjectDirs| :: Hidden(ProjectDirs[k]) <==> k == 3
  {
    forall i, j | 0 <= i < j < |TemplateTable|
      ensures TemplateTable[i].output != TemplateTable[j].output
    {
      var a, b := TemplateTable[i].output, TemplateTable[j].output;
      assert |a| != |b| || |a[0]| != |b[0]|;
    }
    forall i, k | 0 <= i < |TemplateTable| && 0 <= k < |ProjectDirs|
      ensures TemplateTable[i].output != ProjectDirs[k] + [InitMarker]
    {
      var a, b := TemplateTable[i].output, ProjectDirs[k] + [InitMarker];
      assert |a| != |b| || |a[3]| != |b[3]|;
    }
    forall k, l | 0 <= k < l < |ProjectDirs|
      ensures ProjectDirs[k] + [InitMarker] != ProjectDirs[l] + [InitMarker]
    {
      assert ProjectDirs[k] != ProjectDirs[l];
      var a, b := ProjectDirs[k] + [InitMarker], ProjectDirs[l] + [InitMarker];
      if |ProjectDirs[k]| == |ProjectDirs[l]| {
        assert a[..|ProjectDirs[k]|] == ProjectDirs[k] && b[..|ProjectDirs[l]|] == ProjectDirs[l];
      } else {
        assert |a| != |b|;
      }
    }
  }

  /** The markers the scaffold creates. */
  function Markers(root: Path): set<Path> {
    set f | f in ProjectDirs && !Hidden(f) :: MarkerOf(root, f)
  }

  /** The outputs of the template table. */
  function Outputs(root: Path): set<Path> {
    set e | e in TemplateTable :: root + e.output
  }

  /** No output of the table is a marker of a listed folder. */
  lemma OutputIsNoMarker(root: Path, i: nat, k: nat)
    requires i < |TemplateTable| && k < |ProjectDirs|
    ensures root + TemplateTable[i].output != MarkerOf(root, ProjectDirs[k])
  {
    TableFacts();
    assert MarkerOf(root, ProjectDirs[k]) == root + (ProjectDirs[k] + [InitMarker]);
    UnderRoot(root, TemplateTable[i].output, ProjectDirs[k] + [InitMarker]);
  }

  /** `create_project` adds the four directories and their ancestors, and no other directory. */
  lemma ScaffoldDirs(t: Tree, cwd: Path, name: string, templates: set<string>,
                     render: (string, Context) -> string)
    ensures Run(t, ScaffoldTrace(cwd, name, templates, render)).dirs
         == t.dirs + LayoutDirs(ProjectRoot(cwd, name), ProjectDirs)
  {
    var root := ProjectRoot(cwd, name);
    var t1 := AfterDirs(t, root, ProjectDirs);
    RunScaffold(t, cwd, name, templates, render);
    AfterDirsGrows(t, root, ProjectDirs);
    AfterTemplatesDirs(t1, root, templates, render, ProjectContext(name), TemplateTable);
  }

  /** A present template's output holds its rendering with `{project_name: name}`. */
  lemma ScaffoldRendered(t: Tree, cwd: Path, name: string, templates: set<string>,
                         render: (string, Context) -> string, e: Entry)
    requires e in TemplateTable && e.template in templates
    ensures var u, p := Run(t, ScaffoldTrace(cwd, name, templates, render)), ProjectRoot(cwd, name) + e.output;
            p in u.files && u.files[p] == render(e.template, map["project_name" := name])
  {
    var root := ProjectRoot(cwd, name);
    RunScaffold(t, cwd, name, templates, render);
    TableFacts();
    var i :| 0 <= i < |TemplateTable| && TemplateTable[i] == e;
    AfterTemplatesRendered(AfterDirs(t, root, ProjectDirs), root, templates, render, ProjectContext(name),
                           TemplateTable, i);
  }

  /** A missing template's output is left exactly as it was: nothing is written for it. */
  lemma ScaffoldSkipped(t: Tree, cwd: Path, name: string, templates: set<string>,
                        render: (string, Context) -> string, e: Entry)
    requires e in TemplateTable && e.template !in templates
    ensures Keeps(t, Run(t, ScaffoldTrace(cwd, name, templates, render)), ProjectRoot(cwd, name) + e.output)
  {
    var root := ProjectRoot(cwd, name);
    var p := root + e.output;
    RunScaffold(t, cwd, name, templates, render);
    TableFacts();
    var i :| 0 <= i < |TemplateTable| && TemplateTable[i] == e;
    forall k | 0 <= k < |ProjectDirs| && !Hidden(ProjectDirs[k])
      ensures p != MarkerOf(root, ProjectDirs[k])
    {
      OutputIsNoMarker(root, i, k);
    }
    AfterDirsUntouched(t, root, ProjectDirs, p);
    forall j | 0 <= j < |TemplateTable| && TemplateTable[j].template in templates
      ensures p != root + TemplateTable[j].output
    {
      UnderRoot(root, e.output, TemplateTable[j].output);
    }
    AfterTemplatesUntouched(AfterDirs(t, root, ProjectDirs), root, templates, render, ProjectContext(name),
                            TemplateTable, p);
  }

  /** Each non-hidden folder gets its marker: an existing one keeps its content, a new one is empty. */
  lemma ScaffoldMarker(t: Tree, cwd: Path, name: string, templates: set<string>,
                       render: (string, Context) -> string, f: Path)
    requires f in ProjectDirs && !Hidden(f)
    ensures var u, m := Run(t, ScaffoldTrace(cwd, name, templates, render)), MarkerOf(ProjectRoot(cwd, name), f);
            m in u.files && (if m in t.files then u.files[m] == t.files[m] else u.files[m] == "")
  {
    var root := ProjectRoot(cwd, name);
    var m := MarkerOf(root, f);
    RunScaffold(t, cwd, name, templates, render);
    var k :| 0 <= k < |ProjectDirs| && ProjectDirs[k] == f;
    AfterDirsMarker(t, root, ProjectDirs, k);
    AfterDirsOldOrEmpty(t, root, ProjectDirs, m);
    forall j | 0 <= j < |TemplateTable| && TemplateTable[j].template in templates
      ensures m != root + TemplateTable[j].output
    {
      OutputIsNoMarker(root, j, k);
    }
    AfterTemplatesUntouched(AfterDirs(t, root, ProjectDirs), root, templates, render, ProjectContext(name),
                            TemplateTable, m);
  }

  /** Every file other than the markers and the template outputs is left as it was. */
  lemma ScaffoldElsewhere(t: Tree, cwd: Path, name: string, templates: set<string>,
                          render: (string, Context) -> string, p: Path)
    requires p !in Markers(ProjectRoot(cwd, name)) && p !in Outputs(ProjectRoot(cwd, name))
    ensures Keeps(t, Run(t, ScaffoldTrace(cwd, name, templates, render)), p)
  {
    var root := ProjectRoot(cwd, name);
    RunScaffold(t, cwd, name, templates, render);
    forall k | 0 <= k < |ProjectDirs| && !Hidden(ProjectDirs[k])
      ensures p != MarkerOf(root, ProjectDirs[k])
    {
      assert MarkerOf(root, ProjectDirs[k]) in Markers(root);
    }
    AfterDirsUntouched(t, root, ProjectDirs, p);
    forall j | 0 <= j < |TemplateTable| && TemplateTable[j].template in templates
      ensures p != root + TemplateTable[j].output
    {
      assert root + TemplateTable[j].output in Outputs(root);
    }
    AfterTemplatesUntouched(AfterDirs(t, root, ProjectDirs), root, templates, render, ProjectContext(name),
                            TemplateTable, p);
  }

  /** `.github/workflows` gets no marker: that path is left as it was. */
  lemma HiddenFolderUnmarked(t: Tree, cwd: Path, name: string, templates: set<string>,
                             render: (string, Context) -> string)
    ensures var root := ProjectRoot(cwd, name);
            Keeps(t, Run(t, ScaffoldTrace(cwd, name, templates, render)), root + [".github", "workflows"] + [InitMarker])
  {
    var root := ProjectRoot(cwd, name);
    var m := MarkerOf(root, ProjectDirs[3]);
    TableFacts();
    assert m == root + (ProjectDirs[3] + [InitMarker]);
    forall f | f in ProjectDirs && !Hidden(f) ensures MarkerOf(root, f) != m {
      var k :| 0 <= k < |ProjectDirs| && ProjectDirs[k] == f;
      assert MarkerOf(root, f) == root + (ProjectDirs[k] + [InitMarker]);
      UnderRoot(root, ProjectDirs[k] + [InitMarker], ProjectDirs[3] + [InitMarker]);
    }
    forall e | e in TemplateTable ensures root + e.output != m {
      var i :| 0 <= i < |TemplateTable| && TemplateTable[i] == e;
      OutputIsNoMarker(root, i, 3);
    }
    ScaffoldElsewhere(t, cwd, name, templates, render, m);
  }

  /** The phase over `folders` creates every ancestor of every one of them. */
  lemma {:induction false} LayoutDirsCover(root: Path, folders: seq<Path>, k: nat)
    requires k < |folders|
    ensures Ancestry(root + folders[k]) <= LayoutDirs(root, folders)
    decreases |folders|
  {
    if k < |folders| - 1 {
      assert folders[..|folders| - 1][k] == folders[k];
      LayoutDirsCover(root, folders[..|folders| - 1], k);
    }
  }

  /** Every output's directory exists after the scaffold: the root itself or a created folder. */
  lemma OutputParentsCreated(t: Tree, cwd: Path, name: string, templates: set<string>,
                             render: (string, Context) -> string, e: Entry)
    requires e in TemplateTable
    ensures Parent(ProjectRoot(cwd, name) + e.output) in Run(t, ScaffoldTrace(cwd, name, templates, render)).dirs
  {
    var root := ProjectRoot(cwd, name);
    var p := root + e.output;
    var health := root + ProjectDirs[0];
    ScaffoldDirs(t, cwd, name, templates, render);
    LayoutDirsCover(root, ProjectDirs, 0);
    assert Parent(p) == root + e.output[..|e.output| - 1];
    var rel := e.output[..|e.output| - 1];
    assert rel == [] || rel == ["app"] || rel == ["app", "features", "health"];
    assert rel == ProjectDirs[0][..|rel|];
    assert health[..|root| + |rel|] == root + rel;
    AncestryPrefixes(health, root + rel);
  }

  /**
   * Running `create_project` a second time, with the same templates, changes
   * nothing more: the scaffold is idempotent.
   */
  lemma ScaffoldIdempotent(t: Tree, cwd: Path, name: string, templates: set<string>,
                           render: (string, Context) -> string)
    ensures var trace := ScaffoldTrace(cwd, name, templates, render);
            Run(Run(t, trace), trace) == Run(t, trace)
  {
    var root := ProjectRoot(cwd, name);
    var trace := ScaffoldTrace(cwd, name, templates, render);
    var u := Run(t, trace);
    var v := Run(u, trace);
    ScaffoldDirs(t, cwd, name, templates, render);
    ScaffoldDirs(u, cwd, name, templates, render);
    forall p
      ensures (p in v.files <==> p in u.files) && (p in u.files ==> v.files[p] == u.files[p])
    {
      if p in Outputs(root) {
        var e :| e in TemplateTable && root + e.output == p;
        if e.template in templates {
          ScaffoldRendered(t, cwd, name, templates, render, e);
          ScaffoldRendered(u, cwd, name, templates, render, e);
        } else {
          ScaffoldSkipped(u, cwd, name, templates, render, e);
        }
      } else if p in Markers(root) {
        var f :| f in ProjectDirs && !Hidden(f) && MarkerOf(root, f) == p;
        ScaffoldMarker(t, cwd, name, templates, render, f);
        ScaffoldMarker(u, cwd, name, templates, render, f);
      } else {
        ScaffoldElsewhere(u, cwd, name, templates, render, p);
      }
    }
    assert v.files == u.files;
  }
}
