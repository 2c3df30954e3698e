# sola: a Dafny model of the scaffolding CLI's core

sola is a small command line tool.
- `auth` stores an OpenAI API key in `~/.sola_config`.
- `init` / `create_project` scaffold a Python service project: directories, `__init__.py` package markers and files rendered from Jinja templates.
- `build` / `generate_logic` ask the completion service for a service module and write its answer to `<project>/app/services.py`.

This project models the logic those commands run and proves what it guarantees.

- **Credential resolution** (`get_api_key`). The key is taken from the first available source:
  1. a non-empty `OPENAI_API_KEY` environment variable;
  2. otherwise `~/.sola_config`, where the text after the last `=` is used;
  3. otherwise an interactive prompt, whose answer is persisted.

  Every result is normalised with `strip()`, then `strip('"')`, then `strip("'")`. The config file is a `CredentialStore` class whose `config: Option<string>` field the methods update. `Resolve` states the chain as a function.
- **Python string operations** (`PyStr`). Models of `str.strip` (with Python's full `isspace` set and with a character set), `split`, `split(sep)[-1]` and `replace(pat, "")`.
- **Filesystem** (`Fs`). A `FileSystem` class holds a set of directories and a map from path to content. It has `makedirs(exist_ok=True)`, `touch` and `write_text`. A `Tree` value and an `Effect` fold give specifications for these. `Trace` records what a command does as a sequence of effects and console messages, so ordering can be stated.
- **Scaffold** (`Init.CreateProject`, `MainCli.LegacyInit`). These are imperative loops over the directory list and the template table, proved against the command's plan (`ScaffoldTrace`, `LegacyTrace`). They come with lemmas about what ends up on disk.
- **Build** (`Build.GenerateLogic`, `MainCli.LegacyBuild`).
  - The request is modelled: the model name, the temperature, the system message around the spec documents, and the user message.
  - The fence cleanup `replace("```python", "").replace("```", "").strip()` is modelled.
  - The write is modelled.
  - The error paths are modelled: what the `try` catches and what escapes it.

## Model

| member | source | states |
|---|---|---|
| PyStr.LStrip | sola/core.py:36 | `s.lstrip(chars)`: leading characters in `chars` (or whitespace) dropped one at a time |
| PyStr.RStrip | sola/core.py:36 | `s.rstrip(chars)`: trailing characters dropped one at a time |
| PyStr.Strip | sola/core.py:36 | `s.strip(chars)`: `lstrip`, then `rstrip` |
| PyStr.LStripSpec | sola/core.py:36 | `lstrip` removes exactly the longest prefix of strippable characters: the result is a suffix whose first character is kept, and every removed character is strippable |
| PyStr.RStripSpec | sola/core.py:36 | `rstrip` removes exactly the longest suffix of strippable characters, symmetrically |
| PyStr.StripSpec | sola/core.py:36 | `strip` returns the infix between the maximal strippable prefix and suffix: every removed character is strippable and the ends of the result are not |
| PyStr.StripUnique | sola/core.py:36 | any infix with clean ends, outside of which every character is strippable, is the result of `strip`, so `StripSpec` pins `strip` down |
| PyStr.StripSpaceTail | sola/core.py:41 | cutting off a whitespace tail before `strip()` changes nothing |
| PyStr.StripUnchanged | sola/core.py:36 | a string with clean ends is unchanged by `strip` |
| PyStr.StripSingle | sola/core.py:36 | one strippable character at each end, next to kept characters: exactly those two are removed |
| PyStr.StripIdempotent | sola/commands/build.py:52 | `strip` is idempotent |
| PyStr.StripKeeps | sola/core.py:36 | a character `strip` does not remove survives when present |
| PyStr.StripFrom | sola/core.py:36 | `strip` introduces no character |
| PyStr.Split | sola/core.py:41 | `split(sep)` gives at least one field, exactly one iff `sep` does not occur, and no field contains `sep` |
| PyStr.JoinSplit | sola/core.py:41 | joining the fields of `split(sep)` with `sep` gives back the string |
| PyStr.LastField | sola/core.py:41 | `s.split("=")[-1]`: drops characters from the front while a `=` remains |
| PyStr.LastFieldSpec | sola/core.py:41 | `split("=")[-1]` is a suffix free of `=`, and it is preceded by `=` whenever it is shorter than the input |
| PyStr.LastFieldIsLastSplit | sola/core.py:41 | the suffix model equals the last element of `Split`, as `[-1]` |
| PyStr.LastFieldAfter | sola/core.py:41 | whatever precedes the last `=`, a separator-free tail is recovered exactly |
| PyStr.NotOccursInInfix | sola/commands/build.py:51-53 | a pattern absent from a string is absent from every infix of it |
| PyStr.RemoveAll | sola/commands/build.py:52 | `s.replace(pat, "")`: occurrences removed left to right without overlap; never longer than `s` |
| PyStr.RemoveAllAbsent | sola/commands/build.py:52 | `replace(pat, "")` leaves a string without `pat` unchanged |
| PyStr.RemoveFencesLeavesNone | sola/commands/build.py:52 | `replace("```", "")` leaves no triple backtick: runs keep fewer than three and never merge |
| PyStr.DropTicks | sola/commands/build.py:51-53 | the backtick-free projection of a string contains no backtick |
| PyStr.RemoveFencesKeepsText | sola/commands/build.py:52 | removing fences deletes only backticks: the other characters stay, in order |
| Core.Normalise | sola/core.py:36 | the normalised key never starts or ends with `'`, because that strip comes last |
| Core.NormaliseFrom | sola/core.py:36 | normalisation introduces no character |
| Core.NormaliseKeeps | sola/core.py:36 | a character that is neither whitespace nor a quote is never removed |
| Core.NormaliseAfterStrip | sola/core.py:40-41 | stripping whitespace before normalising changes nothing |
| Core.NormaliseBare | sola/core.py:36 | a value with bare ends is returned unchanged |
| Core.NormaliseDoubleQuoted | sola/core.py:36 | `"v"` normalises to `v` |
| Core.NormaliseKeepsInnerQuotes | sola/core.py:36 | `'"v"'` normalises to `"v"`: double quotes inside single quotes survive |
| Core.NormaliseNotIdempotent | sola/core.py:36 | normalisation is not idempotent: a second pass turns `'"v"'`'s result into `v` |
| Core.NormaliseKeepsInnerSpace | sola/core.py:36 | whitespace inside the double quotes survives |
| Core.ParseConfig | sola/core.py:40-41 | the key read from the config file never contains `=` |
| Core.ConfigLine | sola/commands/auth.py:24 | the line written to the config file: `OPENAI_API_KEY=` followed by the stripped key (also sola/core.py:46) |
| Core.ConfigLineShape | sola/commands/auth.py:24 | the stored line starts with `OPENAI_API_KEY=` and neither it nor its value has surrounding whitespace |
| Core.ParseConfigLine | sola/core.py:38-47 | round trip: a key without `=`, written and read back, is the normalised key |
| Core.ParseConfigLineLosesKey | sola/core.py:41 | a key containing `=` does not survive the round trip |
| Core.Resolve | sola/core.py:34-47 | the lookup chain: a non-empty environment value, else the parsed config file, else the prompt answer, which is persisted; also what the file holds afterwards and whether the prompt notice was printed |
| Core.EnvironmentFirst | sola/core.py:34-36 | a non-empty environment variable decides the key; the file is not read or written and nobody is prompted |
| Core.EmptyEnvironmentIgnored | sola/core.py:35 | an empty environment variable counts as unset |
| Core.QuotedConfigValue | sola/core.py:38-41 | a config file holding `OPENAI_API_KEY="v"` yields `v` |
| Core.PromptedKeyPersists | sola/core.py:38-47 | after a prompted key is persisted, a later lookup without environment returns the same key without prompting |
| Core.CredentialStore.GetApiKey | sola/core.py:26-47 | the key, the config file afterwards and the printed prompt notice are those of the env → file → prompt chain |
| Core.SolaSpecs | sola/core.py:56-62 | the f-string around the two spec documents |
| Core.SolaSpecsLayout | sola/core.py:50-62 | the architecture header and text come before the engineering header and text, each embedded verbatim at known offsets |
| Core.SolaSpecsInjective | sola/core.py:56-62 | given the architecture text's length, both documents are recovered from the assembled text |
| Core.RenderFile | sola/core.py:19-23 | a missing template writes nothing; otherwise the target is replaced wholesale by the rendering |
| Fs.AncestryPrefixes | sola/commands/init.py:34 | `makedirs` creates exactly the non-empty prefixes of the path |
| Fs.ApplyAllAppend | sola/commands/init.py:33-54 | applying two effect lists in turn is applying their concatenation |
| Fs.FileSystem.MakeDirs | sola/commands/init.py:34 | `makedirs(exist_ok=True)` adds the path and all its ancestors and leaves the files alone |
| Fs.FileSystem.Touch | sola/commands/init.py:36 | `touch` creates an empty file or leaves an existing one as it is |
| Fs.FileSystem.WriteText | sola/core.py:23 | `write_text` replaces the file's content wholesale |
| Trace.Effects | sola/commands/init.py:33-58 | the filesystem effects of a trace, in order, console lines dropped |
| Trace.EffectsMembers | sola/commands/init.py:33-58 | an effect is among a trace's effects iff the trace performs it |
| Trace.EffectsAppend | sola/commands/init.py:33-58 | the effects of concatenated traces are concatenated |
| Trace.RunAppend | sola/commands/init.py:33-58 | running two traces in turn is running their concatenation |
| Trace.RunDid | sola/commands/init.py:33-54 | an effect at the end of a trace is applied last |
| Trace.RunSay | sola/commands/init.py:54-58 | a console message changes nothing on disk |
| Trace.RunDirs | sola/commands/init.py:34 | a trace's directories are the old ones plus the ancestors of every `makedirs` in it |
| Trace.RunUntouched | sola/commands/init.py:33-54 | a file no event of the trace touches keeps its state |
| Trace.RunLastWrite | sola/commands/init.py:52 | a file written and not touched afterwards holds what was written |
| Trace.RunRemovesNothing | sola/commands/init.py:33-54 | no file disappears during a trace |
| Auth.SetAuth | sola/commands/auth.py:23-24 | the config file afterwards holds exactly `OPENAI_API_KEY=<key.strip()>`, whatever it held before |
| Auth.ResolveAfterAuth | sola/commands/auth.py:24 | after `auth`, a lookup without environment prompts for nothing, and it returns the normalised key iff the key has no `=` |
| Auth.KeyWithSeparatorTruncated | sola/commands/auth.py:24 | for any `head` and any `tail` without `=`, a stored `head=tail` comes back as the normalised `tail` only, whatever the prompt |
| Auth.AuthThenGetApiKey | sola/commands/auth.py:10-28 | `auth` and then a lookup return what the config file gives back, without prompting; that is the normalised key iff the key has no `=` |
| Build.UserPrompt | sola/commands/build.py:39 | `f"Create specialized business logic for: {task}"` |
| Build.SystemPrompt | sola/commands/build.py:29-37 | the fixed introduction, the standards text, then the fixed rules |
| Build.ChatRequest | sola/commands/build.py:42-49 | model `gpt-4o-mini`, the system message then the user message, temperature 0.2 |
| Build.FirstChoice | sola/commands/build.py:50 | `response.choices[0].message.content`: an exception passes through, an empty choice list fails with an index error, a null content is kept apart |
| Build.UserPromptCarriesTask | sola/commands/build.py:39 | the user message is the fixed lead-in followed by the task verbatim, so different tasks give different messages |
| Build.SystemPromptEmbedsSpecs | sola/commands/build.py:29-37 | the system message holds the standards text verbatim after the introduction, followed by the rules, and it determines that text |
| Build.BuildRequestShape | sola/commands/build.py:41-49 | the request uses `gpt-4o-mini` at temperature 0.2 with two messages, system then user, carrying the spec documents and the task |
| Build.CleanFences | sola/commands/build.py:51-53 | the cleaned code holds no triple backtick and no surrounding whitespace |
| Build.NoPythonFence | sola/commands/build.py:51-53 | without a triple backtick there is no `python` fence either |
| Build.CleanFencesKeepsClean | sola/commands/build.py:51-53 | code without fences and surrounding whitespace comes through unchanged |
| Build.CleanFencesIdempotent | sola/commands/build.py:51-53 | the cleanup is idempotent |
| Build.RemoveAllSkipsPlain | sola/commands/build.py:52 | removal passes over a leading part that cannot start the pattern |
| Build.CleanFencedBlock | sola/commands/build.py:51-53 | a fenced Python block cleans to its code |
| Build.GenerateLogic | sola/commands/build.py:12-67 | missing spec documents or a missing key escape the `try` and change nothing more. A text reply creates `app` and overwrites `app/services.py` with the cleaned text. A null reply or a raised call is printed, and no file is touched |
| Init.ProjectDirs | sola/commands/init.py:26-31 | the four folders, in order |
| Init.TemplateTable | sola/commands/init.py:38-46 | the seven template rows, in order |
| Init.ScaffoldTrace | sola/commands/init.py:19-58 | what `create_project` does, in order: the announcement, the directory phase, one action per template row, the success line |
| Init.RunDirSteps | sola/commands/init.py:33-36 | the directory phase's actions produce the tree its loop computes |
| Init.RunTemplateSteps | sola/commands/init.py:50-54 | the template phase's actions produce the tree its loop computes |
| Init.RunScaffold | sola/commands/init.py:19-58 | the whole scaffold is the directory phase followed by the template phase |
| Init.MakeLayout | sola/commands/init.py:33-36 | the directory loop creates each folder in order and touches its marker unless the folder is hidden |
| Init.RenderTemplates | sola/commands/init.py:50-54 | the template loop renders each present template in table order and warns about each missing one |
| Init.CreateProject | sola/commands/init.py:11-61 | `create_project` performs the scaffold trace, in order, on the filesystem |
| Init.ScaffoldPlan | sola/commands/init.py:19-58 | the plan in full: the announcement, four directories in order with markers for all but `.github/workflows`, one action per template row, and then the success line even when templates were skipped |
| Init.LayoutBeforeTemplates | sola/commands/init.py:33-52 | every directory action comes before every rendering |
| Init.AfterDirsGrows | sola/commands/init.py:33-36 | the directory phase adds exactly the folders' ancestries and loses no file |
| Init.AfterDirsUntouched | sola/commands/init.py:33-36 | a path that is not the marker of a non-hidden folder keeps its state |
| Init.AfterDirsOldOrEmpty | sola/commands/init.py:36 | a marker keeps its old content, or is empty if new |
| Init.AfterDirsMarker | sola/commands/init.py:35-36 | every non-hidden folder has its marker afterwards |
| Init.AfterTemplatesDirs | sola/commands/init.py:50-54 | the template phase creates no directory and loses no file |
| Init.AfterTemplatesUntouched | sola/commands/init.py:50-54 | a path that no present template renders to keeps its state |
| Init.AfterTemplatesRendered | sola/commands/init.py:48-52 | the output of a present template holds its rendering with the context |
| Init.UnderRoot | sola/commands/init.py:19 | paths under the same root are equal iff their relative parts are |
| Init.TableFacts | sola/commands/init.py:26-46 | the seven outputs are distinct, none is a marker, the markers are distinct, and only `.github/workflows` is hidden |
| Init.OutputIsNoMarker | sola/commands/init.py:36-46 | no template output coincides with a marker |
| Init.ScaffoldDirs | sola/commands/init.py:26-34 | exactly the four directories and their ancestors are added |
| Init.ScaffoldRendered | sola/commands/init.py:48-52 | a present template's output holds its rendering with `{project_name: name}` |
| Init.ScaffoldSkipped | sola/commands/init.py:51-54 | a missing template's output is left as it was |
| Init.ScaffoldMarker | sola/commands/init.py:35-36 | each non-hidden folder gets a marker, which is empty unless it existed |
| Init.ScaffoldElsewhere | sola/commands/init.py:33-54 | every file other than the markers and outputs is left as it was |
| Init.HiddenFolderUnmarked | sola/commands/init.py:35 | `.github/workflows/__init__.py` is left as it was |
| Init.LayoutDirsCover | sola/commands/init.py:34 | the directory phase creates every ancestor of every folder |
| Init.OutputParentsCreated | sola/commands/init.py:26-46 | every output's parent directory exists after the scaffold |
| Init.ScaffoldIdempotent | sola/commands/init.py:26-54 | running `create_project` twice with the same templates leaves the tree as one run does |
| MainCli.GetApiKey | sola/main.py:26-44 | the older `get_api_key` follows the same chain and normalisation as the newer one |
| MainCli.Authenticate | sola/main.py:47-65 | the older `auth` overwrites the config file with `OPENAI_API_KEY=<key.strip()>` |
| MainCli.LegacyRenders | sola/main.py:95-103 | the older rendering loop: each row written in turn until the first missing template, whose name the failure line prints; otherwise the success line |
| MainCli.LegacyTrace | sola/main.py:76-103 | what the older `init` does, in order: the announcement, `app` and `tests` with markers, the rendering loop |
| MainCli.LegacyAllPresent | sola/main.py:95-100 | with every template present, each row is written in order and the success line follows |
| MainCli.LegacyStopsAtMissing | sola/main.py:95-103 | at the first missing template, the earlier rows are written, the failure names the template, and no success line follows |
| MainCli.WritesAreTemplateSteps | sola/main.py:95-96 | with all templates present, the older loop writes what the newer one does |
| MainCli.LegacyRenderAll | sola/main.py:95-103 | the older rendering loop performs its plan on the filesystem |
| MainCli.LegacyInit | sola/main.py:68-103 | the older `init` performs its plan on the filesystem |
| MainCli.LegacyPlan | sola/main.py:76-96 | the older plan: the announcement, then `app` and `tests`, each with its marker, then the rendering loop |
| MainCli.LegacyKeepsEarlierFiles | sola/main.py:95-103 | when a template is missing, the files rendered before it stay on disk |
| MainCli.LegacyBuild | sola/main.py:106-152 | a missing key escapes. A text reply is written verbatim to `app/services.py`. A null reply creates `app` but fails at the write. A raised call is printed, and no file is touched |
| MainCli.FencesOnlyCleanedByNewBuild | sola/main.py:138-142 | a fenced reply differs between the two `build` commands: only the newer one removes the fences |

## Left out

- The completion call (`AsyncOpenAI`, `anyio`) is a function parameter from key and request to a `Completion`. The key is not validated when the client is built, and the network is not modelled.
- Jinja2 is left out. Template rendering is an uninterpreted function of template name and context, and the template directory is the set of template names present.
- Typer argument parsing, hidden-input prompting and `rich` colouring are UI. The prompt answer is an `Option<string>`: None means no input could be read and the prompt raised. Typer re-asking on an empty answer is not modelled. Console lines are `Message` values in a log or trace.
- `load_dotenv`, `os.getenv`, `Path.home()` and `Path.cwd()` are process state. They are passed in: the environment variable as an `Option<string>`, the current directory as a `Path`.
- Real filesystem behaviour is not modelled: encodings, permissions, read errors, and `FileNotFoundError` for a missing parent directory. The scaffold never hits that last case (`Init.OutputParentsCreated`).
- The home-directory config file is kept apart from the project tree: it is the `CredentialStore`'s field, not an entry of the `FileSystem`.
- The `except Exception` branch of `create_project` (sola/commands/init.py:60-61) cannot be reached in this model, because every filesystem action succeeds. The older `init`'s handler is modelled for its one reachable cause, a missing template.
- `get_sola_specs` reading the two spec files is an input: each document is an `Option<string>`, and None stands for the read error that escapes `generate_logic`.
- Paths are sequences of components. The project name is one component, and the folder names `"a/b"` are split into components.
- tests/test_main.py is a `--help` smoke test; nothing of it is modelled.
