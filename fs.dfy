/**
 * The slice of the filesystem the commands touch: a set of directories and a
 * map from file path to text content. Encodings, permissions and errors for a
 * missing parent directory are not part of the model.
 */
module Fs {

  /** A path as its sequence of components; `p + [name]` is Python's `p / name`. */
  type Path = seq<string>

  /** The directory a file lives in. */
  function Parent(p: Path): Path
    requires p != []
  {
    p[..|p| - 1]
  }

  /**
   * What `os.makedirs(p, exist_ok=True)` ensures exists: `p` and every
   * ancestor of it, that is, every non-empty prefix.
   */
  function Ancestry(p: Path): set<Path> {
    set i | 1 <= i <= |p| :: p[..i]
  }

  /** The ancestry of `p` is exactly its non-empty prefixes. */
  lemma AncestryPrefixes(p: Path, q: Path)
    ensures q in Ancestry(p) <==> 1 <= |q| <= |p| && q == p[..|q|]
  {
    if 1 <= |q| <= |p| && q == p[..|q|] {
      assert p[..|q|] in Ancestry(p);
    }
  }

  /** A snapshot of the directories and files. */
  datatype Tree = Tree(dirs: set<Path>, files: map<Path, string>)

  /** One filesystem call of the commands. */
  datatype Effect =
    | MakeDirs(dir: Path)                  // os.makedirs(dir, exist_ok=True)
    | Touch(file: Path)                    // Path.touch(): creates an empty file, keeps an existing one
    | Write(file: Path, content: string)   // Path.write_text(content): replaces the whole file

  /** The tree after one effect. */
  function Apply(t: Tree, e: Effect): Tree {
    match e
    case MakeDirs(d) => t.(dirs := t.dirs + Ancestry(d))
    case Touch(f) => if f in t.files then t else t.(files := t.files[f := ""])
    case Write(f, c) => t.(files := t.files[f := c])
  }

  /** The tree after a sequence of effects, performed first to last. */
  function ApplyAll(t: Tree, es: seq<Effect>): Tree {
    if es == [] then t else Apply(ApplyAll(t, es[..|es| - 1]), es[|es| - 1])
  }

  /** Performing `a` and then `b` is performing `a + b`. */
  lemma {:induction false} ApplyAllAppend(t: Tree, a: seq<Effect>, b: seq<Effect>)
    ensures ApplyAll(t, a + b) == ApplyAll(ApplyAll(t, a), b)
    decreases |b|
  {
    if b == [] {
      assert a + b == a;
    } else {
      assert (a + b)[..|a + b| - 1] == a + b[..|b| - 1];
      ApplyAllAppend(t, a, b[..|b| - 1]);
    }
  }

  /** The directories and files of one machine, changed in place by the commands. */
  class FileSystem {
    var dirs: set<Path>
    var files: map<Path, string>

    constructor (dirs: set<Path>, files: map<Path, string>)
      ensures this.dirs == dirs && this.files == files
    {
      this.dirs := dirs;
      this.files := files;
    }

    function Snapshot(): Tree
      reads this
    {
      Tree(dirs, files)
    }

    /** `os.makedirs(dir, exist_ok=True)`: no error when it already exists. */
    method MakeDirs(dir: Path)
      modifies this
      ensures Snapshot() == Apply(old(Snapshot()), Effect.MakeDirs(dir))
      ensures dirs == old(dirs) + Ancestry(dir) && files == old(files)
    {
      dirs := dirs + Ancestry(dir);
    }

    /** `Path.touch()`: an existing file keeps its content. */
    method Touch(file: Path)
      modifies this
      ensures Snapshot() == Apply(old(Snapshot()), Effect.Touch(file))
      ensures dirs == old(dirs)
      ensures files == if file in old(files) then old(files) else old(files)[file := ""]
    {
      if file !in files {
        files := files[file := ""];
      }
    }

    /** `Path.write_text(content)`: the file afterwards holds exactly `content`. */
    method WriteText(file: Path, content: string)
      modifies this
      ensures Snapshot() == Apply(old(Snapshot()), Effect.Write(file, content))
      ensures files == old(files)[file := content] && dirs == old(dirs)
    {
      files := files[file := content];
    }
  }
}
