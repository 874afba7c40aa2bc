/** `Config` (src/config/config.py): the environment-specific configuration,
    its `${NAME}` secret placeholders and the decrypted secrets file. The
    process environment is the `environ` field, the decrypted secrets text
    and the parsed YAML files are inputs. */
module AppConfig {
  import opened Wrappers
  import opened ConfigTree
  import opened Dotenv

  const DefaultEnv := "development"
  const MissingVariableMessage := "Missing required environment variable: "
  const MissingFileMessage := "Environment configuration file not found: "

  /** ASCII `str.upper()` of one character. */
  function Upper(c: char): char
  {
    if 'a' <= c <= 'z' then (c as int - 32) as char else c
  }

  /** The environment variable that overrides a dotted key:
      `key.upper().replace(".", "_")`. */
  function EnvKey(key: string): (r: string)
    ensures |r| == |key| && '.' !in r
    ensures forall i :: 0 <= i < |key| && key[i] == '.' ==> r[i] == '_'
    ensures forall i :: 0 <= i < |key| && 'a' <= key[i] <= 'z' ==> r[i] as int == key[i] as int - 32
    ensures forall i :: 0 <= i < |key| && key[i] != '.' && !('a' <= key[i] <= 'z') ==> r[i] == key[i]
  {
    seq(|key|, i requires 0 <= i < |key| => if key[i] == '.' then '_' else Upper(key[i]))
  }

  /** `Config.get(key)`: an environment variable named after the key wins;
      otherwise the dotted key is walked through the configuration, and a
      failed walk raises its error. */
  function Get(environ: map<string, string>, config: Value, key: string): (r: Result<Value, ConfigError>)
    ensures EnvKey(key) in environ ==> r == Ok(Str(environ[EnvKey(key)]))
    ensures EnvKey(key) !in environ ==>
      (r.Ok? <==> GetPath(config, Split(key)).Ok?)
      && (r.Ok? ==> r.value == GetPath(config, Split(key)).value)
      && (r.Err? ==> r.error == Walk(GetPath(config, Split(key)).error))
  {
    var envKey := EnvKey(key);
    if envKey in environ then Ok(Str(environ[envKey]))
    else match GetPath(config, Split(key))
      case Ok(v) => Ok(v)
      case Err(e) => Err(Walk(e))
  }

  /** A string of the form "${NAME}". */
  predicate IsPlaceholder(v: Value)
  {
    v.Str? && |v.s| >= 2 && v.s[..2] == "${" && v.s[|v.s| - 1] == '}'
  }

  /** `value[2:-1]`: the NAME of "${NAME}". */
  function VarName(v: Value): (name: string)
    requires IsPlaceholder(v)
    ensures v.s == "${" + name + "}"
  {
    assert |v.s| >= 3;
    assert v.s == v.s[..2] + v.s[2..|v.s| - 1] + [v.s[|v.s| - 1]];
    v.s[2..|v.s| - 1]
  }

  /** What a leaf becomes once its secret is resolved. */
  function Resolve(v: Value, environ: map<string, string>): Value
  {
    if IsPlaceholder(v) && VarName(v) in environ then Str(environ[VarName(v)]) else v
  }

  /** The loop of `_resolve_secrets` over the items `_iter_deep_items`
      yielded: a placeholder whose variable is unset raises ValueError, one
      whose variable is set is replaced at the item's split key; any other
      value is left alone. The configuration reached when an error is raised
      is kept. */
  function ResolveItems(config: Value, items: seq<(string, Value)>, environ: map<string, string>): (r: (Value, Option<ConfigError>))
    decreases |items|
  {
    if items == [] then (config, None)
    else
      var (key, value) := items[0];
      if !IsPlaceholder(value) then ResolveItems(config, items[1..], environ)
      else if VarName(value) !in environ then (config, Some(ValueError(MissingVariableMessage + VarName(value))))
      else match SetPath(config, Split(key), Str(environ[VarName(value)]))
        case Err(e) => (config, Some(Walk(e)))
        case Ok(updated) => ResolveItems(updated, items[1..], environ)
  }

  /** `_resolve_secrets`: the items of a configuration that is not a
      dictionary cannot be listed (`.items()` raises AttributeError). */
  function ResolveSecretsOf(config: Value, environ: map<string, string>): (Value, Option<ConfigError>)
  {
    if !config.Dict? then (config, Some(Walk(AttributeError)))
    else ResolveItems(config, IterDeepItems(config, ""), environ)
  }

  /** The items each name a distinct leaf of the configuration. */
  ghost predicate LeafItems(config: Value, items: seq<(string, Value)>)
  {
    && (forall k :: 0 <= k < |items| ==>
          !items[k].1.Dict? && GetPath(config, Split(items[k].0)) == Ok(items[k].1))
    && (forall a, b :: 0 <= a < b < |items| ==> Diverge(Split(items[a].0), Split(items[b].0)))
  }

  /** The first item that is a placeholder for an unset variable. */
  ghost predicate FirstMissing(items: seq<(string, Value)>, environ: map<string, string>, k: nat)
  {
    && k < |items| && IsPlaceholder(items[k].1) && VarName(items[k].1) !in environ
    && forall j :: 0 <= j < k ==> !(IsPlaceholder(items[j].1) && VarName(items[j].1) !in environ)
  }

  /** The configuration after the first item, when it does not fail. */
  function AfterFirst(config: Value, items: seq<(string, Value)>, environ: map<string, string>): Value
    requires items != []
  {
    var (key, value) := items[0];
    if IsPlaceholder(value) && VarName(value) in environ then
      match SetPath(config, Split(key), Str(environ[VarName(value)]))
      case Ok(updated) => updated
      case Err(_) => config
    else config
  }

  /** One step of the loop over items that name distinct leaves: unless the
      first item is a placeholder for an unset variable, the loop goes on
      from a configuration where that item's leaf holds its resolved value,
      every diverging path resolves as before, and the remaining items still
      name distinct leaves. */
  lemma {:induction false} ResolveStep(config: Value, items: seq<(string, Value)>, environ: map<string, string>)
    requires items != [] && LeafItems(config, items)
    requires !(IsPlaceholder(items[0].1) && VarName(items[0].1) !in environ)
    ensures ResolveItems(config, items, environ) == ResolveItems(AfterFirst(config, items, environ), items[1..], environ)
    ensures GetPath(AfterFirst(config, items, environ), Split(items[0].0)) == Ok(Resolve(items[0].1, environ))
    ensures forall q :: GetPath(config, q).Ok? && Diverge(Split(items[0].0), q) ==>
              GetPath(AfterFirst(config, items, environ), q) == GetPath(config, q)
    ensures LeafItems(AfterFirst(config, items, environ), items[1..])
  {
    var (key, value) := items[0];
    var path := Split(key);
    var next := AfterFirst(config, items, environ);
    var rest := items[1..];
    if IsPlaceholder(value) {
      var x := Str(environ[VarName(value)]);
      ExistingPathSettable(config, path, x);
      GetAfterSet(config, path, x);
      forall q | GetPath(config, q).Ok? && Diverge(path, q)
        ensures GetPath(next, q) == GetPath(config, q)
      {
        SetLeavesOthers(config, path, q, x);
      }
    }
    forall k | 0 <= k < |rest|
      ensures !rest[k].1.Dict? && GetPath(next, Split(rest[k].0)) == Ok(rest[k].1)
    {
      assert rest[k] == items[k + 1];
    }
    forall a, b | 0 <= a < b < |rest|
      ensures Diverge(Split(rest[a].0), Split(rest[b].0))
    {
      assert rest[a] == items[a + 1] && rest[b] == items[b + 1];
    }
  }

  /** Over items that name distinct leaves the loop fails exactly when some
      placeholder's variable is unset, and then names the first such
      variable. */
  lemma {:induction false} ResolveItemsFails(config: Value, items: seq<(string, Value)>, environ: map<string, string>)
    requires LeafItems(config, items)
    ensures ResolveItems(config, items, environ).1.None? <==>
              forall k :: 0 <= k < |items| && IsPlaceholder(items[k].1) ==> VarName(items[k].1) in environ
    ensures forall k: nat :: FirstMissing(items, environ, k) ==>
              ResolveItems(config, items, environ).1 == Some(ValueError(MissingVariableMessage + VarName(items[k].1)))
    decreases |items|
  {
    if items != [] {
      var rest := items[1..];
      if IsPlaceholder(items[0].1) && VarName(items[0].1) !in environ {
        assert FirstMissing(items, environ, 0);
      } else {
        ResolveStep(config, items, environ);
        ResolveItemsFails(AfterFirst(config, items, environ), rest, environ);
        MissingShift(items, environ);
      }
    }
  }

  /** Past a first item that does not fail, the set variables and the first
      missing one are those of the remaining items. */
  lemma MissingShift(items: seq<(string, Value)>, environ: map<string, string>)
    requires items != [] && !(IsPlaceholder(items[0].1) && VarName(items[0].1) !in environ)
    ensures (forall k :: 0 <= k < |items| && IsPlaceholder(items[k].1) ==> VarName(items[k].1) in environ) <==>
              (forall k :: 0 <= k < |items[1..]| && IsPlaceholder(items[1..][k].1) ==> VarName(items[1..][k].1) in environ)
    ensures forall k: nat :: FirstMissing(items, environ, k) ==> k > 0 && FirstMissing(items[1..], environ, k - 1)
  {
    var rest := items[1..];
    assert forall k :: 0 <= k < |rest| ==> rest[k] == items[k + 1];
    forall k: nat | FirstMissing(items, environ, k)
      ensures k > 0 && FirstMissing(rest, environ, k - 1)
    {
    }
  }

  /** Over items that name distinct leaves a loop that does not fail leaves
      every item's leaf holding its resolved value, and every path diverging
      from all items resolving as before. */
  lemma {:induction false} ResolveItemsResolves(config: Value, items: seq<(string, Value)>, environ: map<string, string>)
    requires LeafItems(config, items) && ResolveItems(config, items, environ).1.None?
    ensures forall k :: 0 <= k < |items| ==>
              GetPath(ResolveItems(config, items, environ).0, Split(items[k].0)) == Ok(Resolve(items[k].1, environ))
    ensures forall q :: GetPath(config, q).Ok? && (forall k :: 0 <= k < |items| ==> Diverge(Split(items[k].0), q)) ==>
              GetPath(ResolveItems(config, items, environ).0, q) == GetPath(config, q)
    decreases |items|
  {
    if items != [] {
      var path := Split(items[0].0);
      var rest := items[1..];
      var next := AfterFirst(config, items, environ);
      ResolveStep(config, items, environ);
      ResolveItemsResolves(next, rest, environ);
      var result := ResolveItems(config, items, environ).0;
      assert forall k :: 0 <= k < |rest| ==> rest[k] == items[k + 1];
      forall k | 0 <= k < |rest|
        ensures Diverge(Split(rest[k].0), path)
      {
        var i :| 0 <= i < |path| && i < |Split(rest[k].0)| && path[i] != Split(rest[k].0)[i];
      }
      assert GetPath(result, path) == Ok(Resolve(items[0].1, environ));
    }
  }

  /** On a well-formed configuration the items of `_iter_deep_items` name
      distinct leaves. */
  lemma IterDeepLeafItems(config: Value)
    requires config.Dict? && WellFormed(config)
    ensures LeafItems(config, IterDeepItems(config, ""))
  {
    var items := IterDeepItems(config, "");
    IterDeepItemsSound(config);
    forall a, b | 0 <= a < b < |items|
      ensures Diverge(Split(items[a].0), Split(items[b].0))
    {
      LeafPathsDiverge(config, Split(items[a].0), Split(items[b].0));
    }
  }

  /** Every "${NAME}" leaf names a set variable. */
  ghost predicate PlaceholdersSet(config: Value, environ: map<string, string>)
  {
    forall path: seq<string>, v: Value :: GetPath(config, path) == Ok(v) && path != [] && IsPlaceholder(v) ==>
      VarName(v) in environ
  }

  /** `_resolve_secrets` on a well-formed configuration fails exactly when
      some "${NAME}" leaf names an unset variable. */
  lemma ResolveSecretsFails(config: Value, environ: map<string, string>)
    requires config.Dict? && WellFormed(config)
    ensures ResolveSecretsOf(config, environ).1.None? <==> PlaceholdersSet(config, environ)
  {
    var items := IterDeepItems(config, "");
    IterDeepLeafItems(config);
    ResolveItemsFails(config, items, environ);
    if !PlaceholdersSet(config, environ) {
      var path: seq<string>, v: Value :| GetPath(config, path) == Ok(v) && path != [] && IsPlaceholder(v) && VarName(v) !in environ;
      IterDeepItemsComplete(config, path, v);
    }
  }

  /** The error names the first unset variable in iteration order. */
  lemma ResolveSecretsFirstMissing(config: Value, environ: map<string, string>, k: nat)
    requires config.Dict? && WellFormed(config) && FirstMissing(IterDeepItems(config, ""), environ, k)
    ensures ResolveSecretsOf(config, environ).1 ==
              Some(ValueError(MissingVariableMessage + VarName(IterDeepItems(config, "")[k].1)))
  {
    IterDeepLeafItems(config);
    ResolveItemsFails(config, IterDeepItems(config, ""), environ);
  }

  /** When `_resolve_secrets` succeeds on a well-formed configuration every
      leaf holds its resolved value: the variable's value for a placeholder,
      itself for anything else. */
  lemma ResolveSecretsResolves(config: Value, environ: map<string, string>)
    requires config.Dict? && WellFormed(config) && ResolveSecretsOf(config, environ).1.None?
    ensures forall path: seq<string>, v: Value :: path != [] && !v.Dict? && GetPath(config, path) == Ok(v) ==>
              GetPath(ResolveSecretsOf(config, environ).0, path) == Ok(Resolve(v, environ))
  {
    var items := IterDeepItems(config, "");
    IterDeepLeafItems(config);
    ResolveItemsResolves(config, items, environ);
    forall path: seq<string>, v: Value | path != [] && !v.Dict? && GetPath(config, path) == Ok(v)
      ensures GetPath(ResolveSecretsOf(config, environ).0, path) == Ok(Resolve(v, environ))
    {
      IterDeepItemsComplete(config, path, v);
    }
  }

  lemma MissingVariableText()
    ensures MissingVariableMessage + "MISSING_VAR" == "Missing required environment variable: MISSING_VAR"
  {
  }

  /** The unit tests' missing-variable case: a lone "${MISSING_VAR}" with the
      variable unset raises the ValueError naming it. */
  lemma MissingVariableExample()
    ensures ResolveSecretsOf(Dict([("secret", Str("${MISSING_VAR}"))]), map[]).1 ==
              Some(ValueError("Missing required environment variable: MISSING_VAR"))
  {
    var v := Str("${MISSING_VAR}");
    assert IsPlaceholder(v);
    assert VarName(v) == "MISSING_VAR";
    var d := Dict([("secret", v)]);
    assert ItemsFrom(d, 1, "") == [];
    assert IterDeepItems(d, "") == [("secret", v)];
    MissingVariableText();
    assert ResolveItems(d, [("secret", v)], map[]) == (d, Some(ValueError(MissingVariableMessage + "MISSING_VAR")));
  }

  /** An environment variable named after a key overrides the file, as in
      the unit tests' last check. */
  lemma OverrideExample(environ: map<string, string>, config: Value)
    ensures Get(environ["DATABASE_HOST" := "testhost"], config, "database.host") == Ok(Str("testhost"))
  {
    var key := "database.host";
    var r := EnvKey(key);
    assert r[0] == 'D' && r[1] == 'A' && r[2] == 'T' && r[3] == 'A' && r[4] == 'B' && r[5] == 'A';
    assert r[6] == 'S' && r[7] == 'E' && r[8] == '_' && r[9] == 'H' && r[10] == 'O' && r[11] == 'S';
    assert r[12] == 'T';
    assert r == "DATABASE_HOST";
  }

  /** Python truthiness of a loaded YAML document. */
  predicate Truthy(v: Value)
  {
    match v
    case Str(s) => s != []
    case Int(i) => i != 0
    case Float(f) => f != 0.0
    case Bool(b) => b
    case Null => false
    case List(items) => items != []
    case Dict(entries) => entries != []
  }

  /** `yaml.safe_load(f) or {}`: an empty or falsy document is an empty
      configuration. */
  function OrEmpty(v: Value): (r: Value)
    ensures Truthy(v) ==> r == v
    ensures !Truthy(v) ==> r == Dict([])
  {
    if Truthy(v) then v else Dict([])
  }

  /** The path of the environment's configuration file. */
  function EnvFile(env: string): string
  {
    "environments/" + env + ".yml"
  }

  /** The singleton's state: the process environment it reads and writes,
      the environment name and the loaded configuration. */
  class Config {
    var environ: map<string, string>
    var env: string
    var envConfig: Value

    /** `__new__` before `_initialize`: an empty configuration. */
    constructor (environ0: map<string, string>)
      ensures environ == environ0 && env == "" && envConfig == Dict([])
    {
      environ := environ0;
      env := "";
      envConfig := Dict([]);
    }

    /** `_initialize`: the environment name is read before the secrets are
        loaded, so a secrets file cannot change it. The first error stops
        initialization; what was loaded until then is kept. */
    method Initialize(secrets: Option<Result<string, string>>, files: map<string, Value>) returns (err: Option<ConfigError>)
      modifies this
      ensures env == if "APP_ENV" in old(environ) then old(environ)["APP_ENV"] else DefaultEnv
      ensures secrets.Some? && secrets.value.Err? ==>
                err == Some(CalledProcessError(secrets.value.error)) && environ == old(environ)
                && envConfig == old(envConfig)
      ensures secrets.None? ==> environ == old(environ)
      ensures secrets.Some? && secrets.value.Ok? ==>
                environ == Load(old(environ), ParseAll(SplitLines(secrets.value.value))).0
      // A bad secrets line stops initialization with its error.
      ensures secrets.Some? && secrets.value.Ok? && Load(old(environ), ParseAll(SplitLines(secrets.value.value))).1.Some? ==>
                err == Load(old(environ), ParseAll(SplitLines(secrets.value.value))).1 && envConfig == old(envConfig)
      // Once the secrets are loaded, the environment file is read and resolved.
      ensures secrets.None? || (secrets.value.Ok? && Load(old(environ), ParseAll(SplitLines(secrets.value.value))).1.None?) ==>
                && (EnvFile(env) !in files ==>
                      err == Some(FileNotFoundError(MissingFileMessage + EnvFile(env))) && envConfig == old(envConfig))
                && (EnvFile(env) in files ==>
                      (envConfig, err) == ResolveSecretsOf(OrEmpty(files[EnvFile(env)]), environ))
      ensures err.None? ==>
                (EnvFile(env) in files && (envConfig, None) == ResolveSecretsOf(OrEmpty(files[EnvFile(env)]), environ))
    {
      env := if "APP_ENV" in environ then environ["APP_ENV"] else DefaultEnv;
      err := LoadDotenv(secrets);
      if err.Some? {
        return;
      }
      err := LoadAndMergeConfig(files);
    }

    /** `_load_dotenv`: without a secrets file nothing happens; a failing
        decryption raises; otherwise the decrypted text is applied line by
        line until a bad line raises. */
    method LoadDotenv(secrets: Option<Result<string, string>>) returns (err: Option<ConfigError>)
      modifies this`environ
      ensures secrets.None? ==> err.None? && environ == old(environ)
      ensures secrets.Some? && secrets.value.Err? ==>
                err == Some(CalledProcessError(secrets.value.error)) && environ == old(environ)
      ensures secrets.Some? && secrets.value.Ok? ==>
                (environ, err) == Load(old(environ), ParseAll(SplitLines(secrets.value.value)))
    {
      err := None;
      match secrets {
        case None =>
        case Some(Err(message)) =>
          err := Some(CalledProcessError(message));
        case Some(Ok(text)) =>
          var lines := SplitLines(text);
          ghost var parsed := ParseAll(lines);
          for i := 0 to |lines|
            invariant Load(old(environ), parsed) == Load(environ, parsed[i..])
          {
            assert parsed[i..][1..] == parsed[i + 1..];
            match ParseLine(lines[i]) {
              case Skip =>
              case Define(name, value) =>
                environ := environ[name := value];
              case Bad(e) =>
                return Some(e);
            }
          }
      }
    }

    /** `_load_and_merge_config`: a missing environment file raises
        FileNotFoundError; otherwise its document (or an empty one) becomes
        the configuration and its secrets are resolved. */
    method LoadAndMergeConfig(files: map<string, Value>) returns (err: Option<ConfigError>)
      modifies this`envConfig
      ensures EnvFile(env) !in files ==>
                err == Some(FileNotFoundError(MissingFileMessage + EnvFile(env))) && envConfig == old(envConfig)
      ensures EnvFile(env) in files ==>
                (envConfig, err) == ResolveSecretsOf(OrEmpty(files[EnvFile(env)]), environ)
    {
      var path := EnvFile(env);
      if path !in files {
        return Some(FileNotFoundError(MissingFileMessage + path));
      }
      envConfig := OrEmpty(files[path]);
      err := ResolveSecrets();
    }

    /** `_resolve_secrets`: walks the leaves listed before the walk starts and
        rewrites the configuration placeholder by placeholder. */
    method ResolveSecrets() returns (err: Option<ConfigError>)
      modifies this`envConfig
      ensures (envConfig, err) == ResolveSecretsOf(old(envConfig), environ)
    {
      if !envConfig.Dict? {
        return Some(Walk(AttributeError));
      }
      var items := IterDeepItems(envConfig, "");
      for i := 0 to |items|
        invariant ResolveSecretsOf(old(envConfig), environ) == ResolveItems(envConfig, items[i..], environ)
      {
        assert items[i..][1..] == items[i + 1..];
        var (key, value) := items[i];
        if IsPlaceholder(value) {
          var name := VarName(value);
          if name !in environ {
            return Some(ValueError(MissingVariableMessage + name));
          }
          var updated := SetPath(envConfig, Split(key), Str(environ[name]));
          if updated.Err? {
            return Some(Walk(updated.error));
          }
          envConfig := updated.value;
        }
      }
      return None;
    }
  }
}
