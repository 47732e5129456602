/**
 * `.env` handling shared by the scripts: `parse_env_file` + `load_config`
 * (github_task_worker, discord_codex_bridge_bot, openclaw_http_bridge,
 * openclaw_github_bridge — four verbatim copies) and the HTTP bridge's own
 * `load_env_file`, which writes straight into the environment with
 * `setdefault`. A file is given as its lines; a missing file has none.
 */
module EnvConfig {
  import opened Wrappers
  import opened Text

  /** First position of `c` in `s`. */
  function IndexOf(s: string, c: char): (i: nat)
    requires c in s
    ensures i < |s| && s[i] == c && c !in s[..i]
  {
    if s[0] == c then 0 else 1 + IndexOf(s[1..], c)
  }

  /** Unquotes a value the way the scripts do: strip, then `'"'`, then `"'"`. */
  function CleanValue(v: string): string {
    StripChar(StripChar(Strip(v), '"'), '\'')
  }

  /** The key/value a raw line defines, or `None` for a blank line, a
      comment or a line without `=`. Splits on the first `=` only. */
  function ParseLine(raw: string): (r: Option<(string, string)>)
    ensures r.None? <==> (Strip(raw) == [] || Strip(raw)[0] == '#' || '=' !in Strip(raw))
  {
    var line := Strip(raw);
    if line == [] || line[0] == '#' || '=' !in line then None
    else
      var i := IndexOf(line, '=');
      Some((Strip(line[..i]), CleanValue(line[i + 1..])))
  }

  /** What one line contributes: a key/value or nothing. */
  type Entry = Option<(string, string)>

  /** The entries of a file, line by line. */
  function Entries(lines: seq<string>): (es: seq<Entry>)
    ensures |es| == |lines| && forall i :: 0 <= i < |lines| ==> es[i] == ParseLine(lines[i])
  {
    seq(|lines|, i requires 0 <= i < |lines| => ParseLine(lines[i]))
  }

  /** Whether an entry defines `key`. */
  predicate Defines(e: Entry, key: string) {
    e.Some? && e.value.0 == key
  }

  /** The dictionary `parse_env_file` builds from a run of entries: each one
      assigned in turn. */
  function Assign(es: seq<Entry>): map<string, string> {
    if es == [] then map[]
    else
      var m := Assign(es[..|es| - 1]);
      match es[|es| - 1]
      case None => m
      case Some(kv) => m[kv.0 := kv.1]
  }

  /** The loop of `parse_env_file`: assign each entry in turn. */
  method AssignEntries(es: seq<Entry>) returns (values: map<string, string>)
    ensures values == Assign(es)
  {
    values := map[];
    var i := 0;
    while i < |es|
      invariant 0 <= i <= |es|
      invariant values == Assign(es[..i])
    {
      assert es[..i + 1] == es[..i] + [es[i]];
      match es[i] {
        case None =>
        case Some(kv) => values := values[kv.0 := kv.1];
      }
      i := i + 1;
    }
    assert es[..|es|] == es;
  }

  /** `parse_env_file`: every line parsed, later keys overwriting earlier ones. */
  method ParseEnvFile(lines: seq<string>) returns (values: map<string, string>)
    ensures values == Assign(Entries(lines))
  {
    values := AssignEntries(Entries(lines));
  }

  /** A key is in the parsed file exactly when some line defines it. */
  lemma {:induction false} AssignKeys(es: seq<Entry>, key: string)
    ensures key in Assign(es) <==> exists j :: 0 <= j < |es| && Defines(es[j], key)
  {
    if es != [] {
      var init := es[..|es| - 1];
      AssignKeys(init, key);
      if exists j :: 0 <= j < |init| && Defines(init[j], key) {
        var j :| 0 <= j < |init| && Defines(init[j], key);
        assert es[j] == init[j];
      }
      if exists j :: 0 <= j < |es| && Defines(es[j], key) {
        var j :| 0 <= j < |es| && Defines(es[j], key);
        if j < |init| {
          assert init[j] == es[j];
        }
      }
    }
  }

  /** The last line that defines a key decides its value. */
  lemma {:induction false} LastDefinitionWins(es: seq<Entry>, j: nat, key: string, value: string)
    requires j < |es| && es[j] == Some((key, value))
    requires forall j' :: j < j' < |es| ==> !Defines(es[j'], key)
    ensures key in Assign(es) && Assign(es)[key] == value
  {
    var init := es[..|es| - 1];
    if j < |es| - 1 {
      forall j' | j < j' < |init| ensures !Defines(init[j'], key) {
        assert init[j'] == es[j'];
      }
      LastDefinitionWins(init, j, key, value);
    }
  }

  /** `load_config`: start from the environment and let the file only fill
      keys the environment lacks (`setdefault`). */
  method LoadConfig(env: map<string, string>, fileValues: map<string, string>)
    returns (config: map<string, string>)
    ensures config.Keys == env.Keys + fileValues.Keys
    ensures forall k :: k in env ==> config[k] == env[k]
    ensures forall k :: k in fileValues && k !in env ==> config[k] == fileValues[k]
  {
    config := env;
    var pending := fileValues.Keys;
    while pending != {}
      invariant pending <= fileValues.Keys
      invariant config.Keys == env.Keys + (fileValues.Keys - pending)
      invariant forall k :: k in env ==> config[k] == env[k]
      invariant forall k :: k in fileValues && k !in pending && k !in env ==> config[k] == fileValues[k]
      decreases pending
    {
      var k :| k in pending;
      if k !in config {
        config := config[k := fileValues[k]];
      }
      pending := pending - {k};
    }
  }

  /** What the HTTP bridge's `load_env_file` leaves in the environment:
      `setdefault` per entry. */
  function SetDefaults(env: map<string, string>, es: seq<Entry>): map<string, string> {
    if es == [] then env
    else
      var m := SetDefaults(env, es[..|es| - 1]);
      match es[|es| - 1]
      case None => m
      case Some(kv) => if kv.0 in m then m else m[kv.0 := kv.1]
  }

  /** The loop of `load_env_file`: `setdefault` each entry in turn. */
  method SetDefaultEntries(env: map<string, string>, es: seq<Entry>) returns (newEnv: map<string, string>)
    ensures newEnv == SetDefaults(env, es)
  {
    newEnv := env;
    var i := 0;
    while i < |es|
      invariant 0 <= i <= |es|
      invariant newEnv == SetDefaults(env, es[..i])
    {
      assert es[..i + 1] == es[..i] + [es[i]];
      match es[i] {
        case None =>
        case Some(kv) =>
          if kv.0 !in newEnv {
            newEnv := newEnv[kv.0 := kv.1];
          }
      }
      i := i + 1;
    }
    assert es[..|es|] == es;
  }

  /** `load_env_file` of the HTTP bridge. */
  method LoadEnvFile(env: map<string, string>, lines: seq<string>) returns (newEnv: map<string, string>)
    ensures newEnv == SetDefaults(env, Entries(lines))
  {
    newEnv := SetDefaultEntries(env, Entries(lines));
  }

  /** `load_env_file` never overrides a variable that is already set. */
  lemma {:induction false} SetDefaultsKeepsEnv(env: map<string, string>, es: seq<Entry>)
    ensures env.Keys <= SetDefaults(env, es).Keys
    ensures forall k :: k in env ==> SetDefaults(env, es)[k] == env[k]
  {
    if es != [] {
      SetDefaultsKeepsEnv(env, es[..|es| - 1]);
    }
  }

  /** Under `load_env_file` the FIRST line defining an unset key decides its
      value, whereas `parse_env_file` + `load_config` keep the LAST one. */
  lemma {:induction false} FirstDefinitionWins(env: map<string, string>, es: seq<Entry>, j: nat, key: string, value: string)
    requires key !in env
    requires j < |es| && es[j] == Some((key, value))
    requires forall j' :: 0 <= j' < j ==> !Defines(es[j'], key)
    ensures key in SetDefaults(env, es) && SetDefaults(env, es)[key] == value
  {
    var init := es[..|es| - 1];
    if j == |es| - 1 {
      NotYetDefined(env, init, key);
    } else {
      forall j' | 0 <= j' < j ensures !Defines(init[j'], key) {
        assert init[j'] == es[j'];
      }
      FirstDefinitionWins(env, init, j, key, value);
    }
  }

  lemma {:induction false} NotYetDefined(env: map<string, string>, es: seq<Entry>, key: string)
    requires key !in env
    requires forall j :: 0 <= j < |es| ==> !Defines(es[j], key)
    ensures key !in SetDefaults(env, es)
  {
    if es != [] {
      var init := es[..|es| - 1];
      forall j | 0 <= j < |init| ensures !Defines(init[j], key) {
        assert init[j] == es[j];
      }
      NotYetDefined(env, init, key);
    }
  }

  /** An illustration of `FirstDefinitionWins` against `LastDefinitionWins`:
      on a file that sets `A` twice, the bridge's loader keeps the first
      value and the other scripts' loaders keep the last. */
  lemma DuplicateKeyLoadersDiffer()
    ensures SetDefaults(map[], [Some(("A", "1")), Some(("A", "2"))])["A"] == "1"
    ensures Assign([Some(("A", "1")), Some(("A", "2"))])["A"] == "2"
  {
    FirstDefinitionWins(map[], [Some(("A", "1")), Some(("A", "2"))], 0, "A", "1");
    LastDefinitionWins([Some(("A", "1")), Some(("A", "2"))], 1, "A", "2");
  }
}
