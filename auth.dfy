/** sola/commands/auth.py: storing the API key in `~/.sola_config`. */
module Auth {
  import opened Wrappers
  import opened PyStr
  import opened Trace
  import opened Core

  /**
   * `set_auth(api_key)`: the config file afterwards holds exactly
   * `OPENAI_API_KEY=<api_key.strip()>`, whatever it held before (or whether
   * it existed at all).
   */
  method SetAuth(store: CredentialStore, apiKey: string) returns (log: seq<Message>)
    modifies store
    ensures store.config == Some(ConfigLine(apiKey))
    ensures log == [Authenticated]
  {
    store.config := Some(KeyName + "=" + Strip(apiKey, Whitespace));
    log := [Authenticated];
  }

  /**
   * After `auth`, resolving without an environment variable reads the file
   * back and prompts for nothing; it returns the normalised key exactly when
   * the key holds no `=`.
   */
  lemma ResolveAfterAuth(key: string, prompt: Option<string>)
    ensures var r := Resolve(None, Some(ConfigLine(key)), prompt);
            && r.config == Some(ConfigLine(key)) && !r.prompted
            && (r.key == Some(Normalise(key)) <==> '=' !in key)
  {
    if '=' in key {
      ParseConfigLineLosesKey(key);
    } else {
      ParseConfigLine(key);
    }
  }

  /**
   * `strip()` of `head=tail` keeps the `=`: what it leaves is some text, the
   * `=`, and `tail` without a whitespace tail.
   */
  lemma StripAroundSeparator(head: string, tail: string) returns (pre: string, n: nat)
    ensures n <= |tail| && Strip(head + "=" + tail, Whitespace) == pre + ['='] + tail[..n]
    ensures forall j | n <= j < |tail| :: IsSpace(tail[j])
  {
    var key := head + "=" + tail;
    var h := |head|;
    assert key[h] == '=' && !Strips(Whitespace, key[h]);
    var r, o := Strip(key, Whitespace), StripOffset(key, Whitespace);
    StripSpec(key, Whitespace);
    assert o <= h < o + |r|;
    n := o + |r| - h - 1;
    pre := key[o..h];
    assert key[h + 1..] == tail;
    assert r == pre + ['='] + tail[..n] by {
      assert key[o..o + |r|] == key[o..h] + [key[h]] + key[h + 1..o + |r|];
      assert key[h + 1..o + |r|] == key[h + 1..][..n];
    }
    forall j | n <= j < |tail| ensures IsSpace(tail[j]) {
      assert tail[j] == key[h + 1 + j];
    }
  }

  /**
   * A key holding `=` comes back as the text after its last `=` only: with
   * `head=tail` stored, a later resolution without environment variable
   * returns `tail`, normalised, whatever `head` is and whatever the prompt
   * would have given.
   */
  lemma KeyWithSeparatorTruncated(head: string, tail: string, prompt: Option<string>)
    requires '=' !in tail
    ensures Resolve(None, Some(ConfigLine(head + "=" + tail)), prompt).key == Some(Normalise(tail))
  {
    var key := head + "=" + tail;
    var pre, n := StripAroundSeparator(head, tail);
    var line := ConfigLine(key);
    ConfigLineShape(key);
    StripUnchanged(line, Whitespace);
    assert line == (KeyName + "=" + pre) + ['='] + tail[..n];
    assert '=' !in tail[..n] by {
      assert forall j | 0 <= j < n :: tail[..n][j] == tail[j];
    }
    LastFieldAfter(KeyName + "=" + pre, '=', tail[..n]);
    StripSpaceTail(tail, n);
  }

  /**
   * `auth` followed by a key lookup without environment variable: what the
   * config file gives back, without asking anybody, which is the normalised
   * key exactly when the key holds no `=`.
   */
  method AuthThenGetApiKey(store: CredentialStore, key: string, prompt: Option<string>)
    returns (got: Option<string>, log: seq<Message>)
    modifies store
    ensures got == Some(ParseConfig(ConfigLine(key)))
    ensures got == Some(Normalise(key)) <==> '=' !in key
    ensures store.config == Some(ConfigLine(key))
    ensures log == [Authenticated]
  {
    log := SetAuth(store, key);
    var more;
    got, more := store.GetApiKey(None, prompt);
    ResolveAfterAuth(key, prompt);
    log := log + more;
  }
}
