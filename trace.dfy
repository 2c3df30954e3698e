/**
 * What a command does, in order: filesystem effects and the lines it prints
 * on the console (colours left out).
 */
module Trace {
  import opened Fs

  datatype Message =
    | NoKeyFound                        // "No API Key found. Let's set it up once!"
    | Authenticated                     // "Authenticated! Your key is stored globally at ~/.sola_config"
    | Forging(project: string)          // "Forging architecture for: <project>..."
    | SkippingTemplate(template: string) // "Skipping missing template: <template>"
    | InfraReady(root: Path)            // "Success! Infrastructure ready at <root>"
    | InitFailed(reason: string)        // "Initiation failed: <reason>"
    | Architecting(task: string)        // "Architecting logic for: <task>..."
    | LogicForged                       // "Success! Professional logic forged in app/services.py"
    | ArchitectFailed(reason: string)   // "AI Architect failed: <reason>"

  datatype Event = Did(effect: Effect) | Say(message: Message)

  /** The filesystem effects of a trace, in order. */
  function Effects(trace: seq<Event>): (es: seq<Effect>)
    ensures |es| <= |trace|
  {
    if trace == [] then []
    else
      var last := trace[|trace| - 1];
      Effects(trace[..|trace| - 1]) + (if last.Did? then [last.effect] else [])
  }

  lemma {:induction false} EffectsAppend(a: seq<Event>, b: seq<Event>)
    ensures Effects(a + b) == Effects(a) + Effects(b)
    decreases |b|
  {
    if b == [] {
      assert a + b == a;
    } else {
      assert (a + b)[..|a + b| - 1] == a + b[..|b| - 1];
      EffectsAppend(a, b[..|b| - 1]);
    }
  }

  /** The tree after the effects of a trace. */
  function Run(t: Tree, trace: seq<Event>): Tree {
    ApplyAll(t, Effects(trace))
  }

  /** The effects of a trace are exactly the effects its `Did` events perform. */
  lemma {:induction false} EffectsMembers(trace: seq<Event>)
    ensures forall e :: e in Effects(trace) <==> Did(e) in trace
    decreases |trace|
  {
    if trace != [] {
      var init, last := trace[..|trace| - 1], trace[|trace| - 1];
      assert trace == init + [last];
      EffectsMembers(init);
    }
  }

  /** Running `a` and then `b` is running `a + b`. */
  lemma RunAppend(t: Tree, a: seq<Event>, b: seq<Event>)
    ensures Run(t, a + b) == Run(Run(t, a), b)
  {
    EffectsAppend(a, b);
    ApplyAllAppend(t, Effects(a), Effects(b));
  }

  /** One more effect at the end of a trace is one more `Apply`. */
  lemma RunDid(t: Tree, trace: seq<Event>, e: Effect)
    ensures Run(t, trace + [Did(e)]) == Apply(Run(t, trace), e)
  {
    assert (trace + [Did(e)])[..|trace|] == trace;
    var es := Effects(trace) + [e];
    assert es[..|es| - 1] == Effects(trace);
  }

  /** A printed line changes nothing on disk. */
  lemma RunSay(t: Tree, trace: seq<Event>, m: Message)
    ensures Run(t, trace + [Say(m)]) == Run(t, trace)
  {
    assert (trace + [Say(m)])[..|trace|] == trace;
    assert Effects(trace) + [] == Effects(trace);
  }

  /** Whether an event creates or rewrites the file `p`. */
  predicate TouchesFile(ev: Event, p: Path) {
    ev.Did? && (ev.effect.Touch? || ev.effect.Write?) && ev.effect.file == p
  }

  /** The file `p` is in the same state in `u` as in `t`. */
  predicate Keeps(t: Tree, u: Tree, p: Path) {
    (p in u.files <==> p in t.files) && (p in t.files ==> u.files[p] == t.files[p])
  }

  /** The directories a trace creates: every ancestor of every `makedirs` argument. */
  function DirsMade(trace: seq<Event>): set<Path> {
    if trace == [] then {}
    else
      var last := trace[|trace| - 1];
      DirsMade(trace[..|trace| - 1]) + (if last.Did? && last.effect.MakeDirs? then Ancestry(last.effect.dir) else {})
  }

  /** Running a trace adds exactly the directories it makes, and removes none. */
  lemma {:induction false} RunDirs(t: Tree, trace: seq<Event>)
    ensures Run(t, trace).dirs == t.dirs + DirsMade(trace)
    decreases |trace|
  {
    if trace != [] {
      var init, last := trace[..|trace| - 1], trace[|trace| - 1];
      assert trace == init + [last];
      RunDirs(t, init);
      assert DirsMade(trace) == DirsMade(init)
        + (if last.Did? && last.effect.MakeDirs? then Ancestry(last.effect.dir) else {});
      match last
      case Say(m) =>
        RunSay(t, init, m);
      case Did(e) =>
        RunDid(t, init, e);
        match e
        case MakeDirs(d) =>
          assert Run(t, trace).dirs == Run(t, init).dirs + Ancestry(d);
        case Touch(f) =>
          assert Run(t, trace).dirs == Run(t, init).dirs;
        case Write(f, c) =>
          assert Run(t, trace).dirs == Run(t, init).dirs;
    }
  }

  /** A file no event of the trace touches keeps its state. */
  lemma {:induction false} RunUntouched(t: Tree, trace: seq<Event>, p: Path)
    requires forall i | 0 <= i < |trace| :: !TouchesFile(trace[i], p)
    ensures Keeps(t, Run(t, trace), p)
    decreases |trace|
  {
    if trace != [] {
      var init, last := trace[..|trace| - 1], trace[|trace| - 1];
      assert trace == init + [last];
      assert forall i | 0 <= i < |init| :: init[i] == trace[i];
      RunUntouched(t, init, p);
      if last.Did? {
        RunDid(t, init, last.effect);
      } else {
        RunSay(t, init, last.message);
      }
    }
  }

  /** A file holds what the last write to it put there. */
  lemma RunLastWrite(t: Tree, a: seq<Event>, p: Path, c: string, b: seq<Event>)
    requires forall i | 0 <= i < |b| :: !TouchesFile(b[i], p)
    ensures var u := Run(t, a + [Did(Write(p, c))] + b); p in u.files && u.files[p] == c
  {
    RunAppend(t, a + [Did(Write(p, c))], b);
    RunDid(t, a, Write(p, c));
    RunUntouched(Run(t, a + [Did(Write(p, c))]), b, p);
  }

  /** No effect deletes anything: every directory and file that existed still exists. */
  lemma {:induction false} RunRemovesNothing(t: Tree, trace: seq<Event>)
    ensures t.dirs <= Run(t, trace).dirs
    ensures t.files.Keys <= Run(t, trace).files.Keys
    decreases |trace|
  {
    RunDirs(t, trace);
    if trace != [] {
      var init, last := trace[..|trace| - 1], trace[|trace| - 1];
      assert trace == init + [last];
      RunRemovesNothing(t, init);
      if last.Did? {
        RunDid(t, init, last.effect);
      } else {
        RunSay(t, init, last.message);
      }
    }
  }
}
