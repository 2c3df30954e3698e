/**
 * sola/core.py: resolving the OpenAI API key (environment variable, then the
 * config file `~/.sola_config`, then an interactive prompt whose answer is
 * persisted), assembling the standards text from the two spec documents, and
 * rendering one template to a file.
 */
module Core {
  import opened Wrappers
  import opened PyStr
  import opened Fs
  import opened Trace

  /** The variable name, used both in the environment and in the config file. */
  const KeyName: string := "OPENAI_API_KEY"

  /**
   * `value.strip().strip('"').strip("'")`: surrounding whitespace, then
   * double quotes, then single quotes are removed, each exactly once.
   */
  function Normalise(value: string): (r: string)
    ensures r == [] || (r[0] != '\'' && r[|r| - 1] != '\'')
  {
    StripSpec(Strip(Strip(value, Whitespace), Chars({'"'})), Chars({'\''}));
    Strip(Strip(Strip(value, Whitespace), Chars({'"'})), Chars({'\''}))
  }

  /** Every character of the normalised value comes from the raw value. */
  lemma NormaliseFrom(value: string, c: char)
    requires c !in value
    ensures c !in Normalise(value)
  {
    StripFrom(value, Whitespace, c);
    StripFrom(Strip(value, Whitespace), Chars({'"'}), c);
    StripFrom(Strip(Strip(value, Whitespace), Chars({'"'})), Chars({'\''}), c);
  }

  /** A character that is neither whitespace nor a quote is never removed by normalisation. */
  lemma NormaliseKeeps(value: string, c: char)
    requires c in value && !IsSpace(c) && c != '"' && c != '\''
    ensures c in Normalise(value)
  {
    StripKeeps(value, Whitespace, c);
    StripKeeps(Strip(value, Whitespace), Chars({'"'}), c);
    StripKeeps(Strip(Strip(value, Whitespace), Chars({'"'})), Chars({'\''}), c);
  }

  /** Stripping whitespace before normalising changes nothing: the first step of normalisation does the same. */
  lemma NormaliseAfterStrip(value: string)
    ensures Normalise(Strip(value, Whitespace)) == Normalise(value)
  {
    StripIdempotent(value, Whitespace);
  }

  /** Normalisation as its three strip steps. */
  lemma NormaliseSteps(value: string, a: string, b: string, c: string)
    requires Strip(value, Whitespace) == a && Strip(a, Chars({'"'})) == b && Strip(b, Chars({'\''})) == c
    ensures Normalise(value) == c
  {
  }

  /** A value whose ends are neither whitespace nor quotes: normalisation leaves it alone. */
  predicate Bare(v: string) {
    IsStripped(v, Whitespace) && IsStripped(v, Chars({'"'})) && IsStripped(v, Chars({'\''}))
  }

  lemma NormaliseBare(v: string)
    requires Bare(v)
    ensures Normalise(v) == v
  {
    StripUnchanged(v, Whitespace);
    StripUnchanged(v, Chars({'"'}));
    StripUnchanged(v, Chars({'\''}));
  }

  /** A double-quoted bare value loses its quotes. */
  lemma NormaliseDoubleQuoted(v: string)
    requires Bare(v) && v != []
    ensures Normalise("\"" + v + "\"") == v
  {
    var q := "\"" + v + "\"";
    StripUnchanged(q, Whitespace);
    StripSingle(q, Chars({'"'}));
    assert q[1..|q| - 1] == v;
    StripUnchanged(v, Chars({'\''}));
  }

  /**
   * Normalisation does not remove every quote: the single quotes go last, so
   * a double-quoted value inside single quotes keeps its double quotes, and
   * normalising again removes them (normalisation is not idempotent).
   */
  lemma NormaliseKeepsInnerQuotes(v: string)
    requires Bare(v) && v != []
    ensures var quoted := "\"" + v + "\""; Normalise("'" + quoted + "'") == quoted
  {
    var q := "\"" + v + "\"";
    var s := "'" + q + "'";
    assert s[0] == '\'' && s[|s| - 1] == '\'' && s[1] == '"' && s[|s| - 2] == '"';
    assert Strip(s, Whitespace) == s by {
      StripUnchanged(s, Whitespace);
    }
    assert Strip(s, Chars({'"'})) == s by {
      StripUnchanged(s, Chars({'"'}));
    }
    assert Strip(s, Chars({'\''})) == q by {
      StripSingle(s, Chars({'\''}));
      assert s[1..|s| - 1] == q;
    }
    NormaliseSteps(s, s, s, q);
  }

  /** Normalisation is not idempotent: a second pass can remove quotes the first one kept. */
  lemma NormaliseNotIdempotent(v: string)
    requires Bare(v) && v != []
    ensures var once := Normalise("'" + ("\"" + v + "\"") + "'");
            Normalise(once) == v != once
  {
    NormaliseKeepsInnerQuotes(v);
    NormaliseDoubleQuoted(v);
  }

  /** Whitespace inside the double quotes survives normalisation. */
  lemma NormaliseKeepsInnerSpace(v: string)
    requires Bare(v) && v != []
    ensures Normalise(" \" " + v + " \" ") == " " + v + " "
  {
    var q := "\" " + v + " \"";
    var s := " \" " + v + " \" ";
    StripSingle(s, Whitespace);
    assert s[1..|s| - 1] == q;
    StripSingle(q, Chars({'"'}));
    assert q[1..|q| - 1] == " " + v + " ";
    StripUnchanged(" " + v + " ", Chars({'\''}));
  }

  /**
   * `content.strip().split("=")[-1]` then normalised: the value the config
   * file holds. It never contains `=`.
   */
  function ParseConfig(content: string): (r: string)
    ensures '=' !in r
  {
    var field := LastField(Strip(content, Whitespace), '=');
    LastFieldSpec(Strip(content, Whitespace), '=');
    NormaliseFrom(field, '=');
    Normalise(field)
  }

  /** The line written to the config file: `OPENAI_API_KEY=<key.strip()>`. */
  function ConfigLine(key: string): string {
    KeyName + "=" + Strip(key, Whitespace)
  }

  /** The stored line starts with `OPENAI_API_KEY=` and its value carries no surrounding whitespace. */
  lemma ConfigLineShape(key: string)
    ensures ConfigLine(key)[..|KeyName| + 1] == KeyName + "="
    ensures IsStripped(ConfigLine(key)[|KeyName| + 1..], Whitespace)
    ensures IsStripped(ConfigLine(key), Whitespace)
  {
    var v := Strip(key, Whitespace);
    StripSpec(key, Whitespace);
    assert ConfigLine(key)[|KeyName| + 1..] == v;
    assert ConfigLine(key)[0] == 'O';
  }

  /** Reading back a line written for a key without `=` gives the normalised key. */
  lemma ParseConfigLine(key: string)
    requires '=' !in key
    ensures ParseConfig(ConfigLine(key)) == Normalise(key)
  {
    var v := Strip(key, Whitespace);
    ConfigLineShape(key);
    StripUnchanged(ConfigLine(key), Whitespace);
    StripFrom(key, Whitespace, '=');
    assert ConfigLine(key) == KeyName + ['='] + v;
    LastFieldAfter(KeyName, '=', v);
    NormaliseAfterStrip(key);
  }

  /** A key containing `=` does not survive the round trip through the config file. */
  lemma ParseConfigLineLosesKey(key: string)
    requires '=' in key
    ensures ParseConfig(ConfigLine(key)) != Normalise(key)
  {
    NormaliseKeeps(key, '=');
  }

  /** What one call of `get_api_key` sees and does. */
  datatype Resolution = Resolution(
    key: Option<string>,     // the returned key; None when the prompt raised instead
    config: Option<string>,  // the config file afterwards; None while it does not exist
    prompted: bool)          // whether the "No API Key found" line was printed and the user asked

  /**
   * `get_api_key`: a non-empty environment variable wins; otherwise an
   * existing config file is parsed (even when its value is empty); otherwise
   * the user is prompted (`prompt` is None when no input can be read) and the
   * answer is written to the config file, replacing nothing since none existed.
   */
  function Resolve(env: Option<string>, config: Option<string>, prompt: Option<string>): Resolution {
    if env.Some? && env.value != "" then Resolution(Some(Normalise(env.value)), config, false)
    else if config.Some? then Resolution(Some(ParseConfig(config.value)), config, false)
    else if prompt.Some? then Resolution(Some(Normalise(prompt.value)), Some(ConfigLine(prompt.value)), true)
    else Resolution(None, config, true)
  }

  /** A non-empty environment variable decides the key whatever the file and the prompt hold. */
  lemma EnvironmentFirst(env: string, config: Option<string>, prompt: Option<string>)
    requires env != ""
    ensures Resolve(Some(env), config, prompt) == Resolution(Some(Normalise(env)), config, false)
  {
  }

  /** An empty environment variable counts as unset. */
  lemma EmptyEnvironmentIgnored(config: Option<string>, prompt: Option<string>)
    ensures Resolve(Some(""), config, prompt) == Resolve(None, config, prompt)
  {
  }

  /** A config file holding `OPENAI_API_KEY="<v>"` yields `v`, quotes removed. */
  lemma QuotedConfigValue(v: string)
    requires Bare(v) && v != [] && '=' !in v
    ensures var quoted := "\"" + v + "\"";
            Resolve(None, Some(KeyName + "=" + quoted), None).key == Some(v)
  {
    var quoted := "\"" + v + "\"";
    var line := KeyName + "=" + quoted;
    assert ParseConfig(line) == v by {
      assert Strip(line, Whitespace) == line by {
        assert line[0] == 'O' && line[|line| - 1] == '"';
        StripUnchanged(line, Whitespace);
      }
      assert LastField(line, '=') == quoted by {
        assert '=' !in quoted;
        LastFieldAfter(KeyName, '=', quoted);
      }
      assert Normalise(quoted) == v by {
        NormaliseDoubleQuoted(v);
      }
    }
  }

  /**
   * The prompt path persists the key: a later resolution without an
   * environment variable returns the same key, whatever it is prompted with,
   * as long as the key holds no `=`.
   */
  lemma PromptedKeyPersists(key: string, later: Option<string>)
    requires '=' !in key
    ensures var first := Resolve(None, None, Some(key));
            Resolve(None, first.config, later) == Resolution(first.key, first.config, false)
  {
    ParseConfigLine(key);
  }

  /** The store of the one config file `~/.sola_config`. */
  class CredentialStore {
    /** The file's text; None while the file does not exist. */
    var config: Option<string>

    constructor (config: Option<string>)
      ensures this.config == config
    {
      this.config := config;
    }

    /** `get_api_key()`, with the environment variable and the prompt answer passed in. */
    method GetApiKey(env: Option<string>, prompt: Option<string>) returns (key: Option<string>, log: seq<Message>)
      modifies this
      ensures key == Resolve(env, old(config), prompt).key
      ensures config == Resolve(env, old(config), prompt).config
      ensures log == if Resolve(env, old(config), prompt).prompted then [NoKeyFound] else []
    {
      if env.Some? && env.value != "" {
        return Some(Normalise(env.value)), [];
      }
      if config.Some? {
        var content := Strip(config.value, Whitespace);
        return Some(Normalise(LastField(content, '='))), [];
      }
      log := [NoKeyFound];
      if prompt.None? {
        return None, log;
      }
      config := Some(KeyName + "=" + Strip(prompt.value, Whitespace));
      key := Some(Normalise(prompt.value));
    }
  }

  /** The heading that introduces the architecture spec. */
  const ArchHeader: string := "=== SOLA ARCHITECTURE ==="
  /** The heading that introduces the engineering spec. */
  const EngHeader: string := "=== AI ENGINEERING STANDARDS ==="

  /** `get_sola_specs()` once both documents are read: the f-string around them. */
  function SolaSpecs(arch: string, eng: string): string {
    "\n    " + ArchHeader + "\n    " + arch + "\n\n    " + EngHeader + "\n    " + eng + "\n    "
  }

  /** Where the architecture text starts in `SolaSpecs`. */
  const ArchAt: nat := 5 + |ArchHeader| + 5

  /** Where the engineering heading starts in `SolaSpecs(arch, _)`. */
  function EngHeaderAt(arch: string): nat {
    ArchAt + |arch| + 6
  }

  /**
   * The standards text holds the architecture heading, then the architecture
   * document verbatim, then the engineering heading, then the engineering
   * document verbatim, in that order and without overlap.
   */
  lemma SolaSpecsLayout(arch: string, eng: string)
    ensures OccursAt(SolaSpecs(arch, eng), 5, ArchHeader)
    ensures OccursAt(SolaSpecs(arch, eng), ArchAt, arch)
    ensures 5 + |ArchHeader| <= ArchAt && ArchAt + |arch| <= EngHeaderAt(arch)
    ensures OccursAt(SolaSpecs(arch, eng), EngHeaderAt(arch), EngHeader)
    ensures OccursAt(SolaSpecs(arch, eng), EngHeaderAt(arch) + |EngHeader| + 5, eng)
    ensures |SolaSpecs(arch, eng)| == EngHeaderAt(arch) + |EngHeader| + 5 + |eng| + 5
  {
    var s := SolaSpecs(arch, eng);
    var p := "\n    " + ArchHeader + "\n    ";
    var q := "\n\n    " + EngHeader + "\n    ";
    assert s == p + arch + q + eng + "\n    ";
    assert s[5..5 + |ArchHeader|] == ArchHeader;
    assert s[ArchAt..ArchAt + |arch|] == arch;
    assert s[EngHeaderAt(arch)..EngHeaderAt(arch) + |EngHeader|] == EngHeader;
    var e := EngHeaderAt(arch) + |EngHeader| + 5;
    assert s[e..e + |eng|] == eng;
  }

  /** Given the length of the architecture document, both documents can be read back. */
  lemma SolaSpecsInjective(arch: string, eng: string, arch': string, eng': string)
    requires |arch| == |arch'| && SolaSpecs(arch, eng) == SolaSpecs(arch', eng')
    ensures arch == arch' && eng == eng'
  {
    SolaSpecsLayout(arch, eng);
    SolaSpecsLayout(arch', eng');
  }

  /** A template context: name to value. */
  type Context = map<string, string>

  /**
   * `render_file(name, target, context)`: Jinja's `get_template` fails when
   * the template directory has no file `name` (`found` is false and nothing
   * is written); otherwise the rendering replaces `target` wholesale.
   * `templates` is the set of template file names present, `render` the
   * template engine.
   */
  method RenderFile(fs: FileSystem, templates: set<string>, render: (string, Context) -> string,
                    name: string, target: Path, context: Context) returns (found: bool)
    modifies fs
    ensures found == (name in templates)
    ensures fs.Snapshot() == if found then Apply(old(fs.Snapshot()), Write(target, render(name, context)))
                             else old(fs.Snapshot())
  {
    found := name in templates;
    if found {
      fs.WriteText(target, render(name, context));
    }
  }
}
