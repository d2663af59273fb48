/** `base/src/lib.rs`: the map helpers (the same text as the root crate's, so the model
    uses `Lib`'s definitions) and the settings the crate's own loader builds out of
    `Field`s: a required name, a server environment defaulting to `"local"` and an
    optional last name. */
module BaseLib {
  import opened Wrappers
  import opened Errors
  import opened Convert
  import opened Fields
  import BaseErrors
  import Lib

  datatype Settings = Settings(name: string, serverEnv: string, lastName: Option<string>)

  const DEFAULT_SERVER_ENV := "local"

  /** A field as the derived default leaves it: empty key, no value, required. */
  predicate Unset(f: Field)
    reads f
  {
    f.key == "" && f.value == None && !f.optional
  }

  class SettingsBuilder {
    var name: Field
    var serverEnv: Field
    var lastName: Field

    /** `SettingsBuilder::new`, the derived default: three default fields. */
    constructor ()
      ensures fresh(name) && fresh(serverEnv) && fresh(lastName)
      ensures Unset(name) && Unset(serverEnv) && Unset(lastName)
    {
      name := new Field.Default();
      serverEnv := new Field.Default();
      lastName := new Field.Default();
    }

    /** `with_name`: the built field replaces the name, and only it; a builder that does
        not build leaves the settings builder as it was and reports its missing key. */
    method WithName(b: FieldBuilder) returns (r: Result<(), ConfigError>)
      modifies this
      ensures r.Ok? <==> b.value.Some? || b.optional
      ensures r.Err? ==> r.error == MissingKey(b.key) && name == old(name)
      ensures r.Ok? ==> fresh(name) && name.key == b.key && name.value == b.value && name.optional == b.optional
      ensures serverEnv == old(serverEnv) && lastName == old(lastName)
    {
      var f :- b.Build();
      name := f;
      return Ok(());
    }

    /** `with_server_env`: as `with_name`, for the server environment. */
    method WithServerEnv(b: FieldBuilder) returns (r: Result<(), ConfigError>)
      modifies this
      ensures r.Ok? <==> b.value.Some? || b.optional
      ensures r.Err? ==> r.error == MissingKey(b.key) && serverEnv == old(serverEnv)
      ensures r.Ok? ==> fresh(serverEnv) && serverEnv.key == b.key && serverEnv.value == b.value
      ensures r.Ok? ==> serverEnv.optional == b.optional
      ensures name == old(name) && lastName == old(lastName)
    {
      var f :- b.Build();
      serverEnv := f;
      return Ok(());
    }

    /** `with_last_name`: as `with_name`, for the last name. */
    method WithLastName(b: FieldBuilder) returns (r: Result<(), ConfigError>)
      modifies this
      ensures r.Ok? <==> b.value.Some? || b.optional
      ensures r.Err? ==> r.error == MissingKey(b.key) && lastName == old(lastName)
      ensures r.Ok? ==> fresh(lastName) && lastName.key == b.key && lastName.value == b.value
      ensures r.Ok? ==> lastName.optional == b.optional
      ensures name == old(name) && serverEnv == old(serverEnv)
    {
      var f :- b.Build();
      lastName := f;
      return Ok(());
    }

    /** `build`: the name, then the server environment, must each have a value; a field
        without one fails with its own key when it is required and with the settings' name
        for it when it is optional. The last name may be absent only when its field is
        optional; otherwise it fails with that field's key. */
    function Build(): (r: Result<Settings, ConfigError>)
      reads this, name, serverEnv, lastName
      ensures r.Ok? <==> name.value.Some? && serverEnv.value.Some? && (lastName.value.Some? || lastName.optional)
      ensures r.Ok? ==> r.value == Settings(name.value.value, serverEnv.value.value, lastName.value)
      ensures name.value.None? ==> r == Err(MissingKey(if name.optional then "name" else name.key))
      ensures name.value.Some? && serverEnv.value.None? ==>
        r == Err(MissingKey(if serverEnv.optional then "server_env" else serverEnv.key))
      ensures name.value.Some? && serverEnv.value.Some? && lastName.value.None? && !lastName.optional ==>
        r == Err(MissingKey(lastName.key))
    {
      var n :- name.Value(ParseString);
      var n :- if n.Some? then Ok(n.value) else Err(BaseErrors.MissingKeyErr("name"));
      var s :- serverEnv.Value(ParseString);
      var s :- if s.Some? then Ok(s.value) else Err(BaseErrors.MissingKeyErr("server_env"));
      var l :- lastName.Value(ParseString);
      Ok(Settings(n, s, l))
    }
  }

  /** A settings builder no setter was called on fails on its name field, whose key is
      empty. */
  method NewBuilderFails() returns (r: Result<Settings, ConfigError>)
    ensures r == Err(MissingKey(""))
  {
    var b := new SettingsBuilder();
    r := b.Build();
  }

  /** What this crate's `from_hash_map` loads: a name is required; the server environment
      defaults to `"local"` and the last name to nothing; every other key is ignored. */
  function Loaded(m: map<string, string>): Result<Settings, ConfigError> {
    if "name" !in m then Err(MissingKey("name"))
    else Ok(Settings(m["name"], Get(m, "server_env").UnwrapOr(DEFAULT_SERVER_ENV), Get(m, "last_name")))
  }

  /** `from_hash_map`: one field builder per setting, then the settings builder's setters
      in the order name, last name, server environment, then `build`. */
  method FromHashMap(m: map<string, string>) returns (r: Result<Settings, ConfigError>)
    ensures r == Loaded(m)
  {
    var nameB := new FieldBuilder("name");
    nameB.WithValue(Lib.RequiredStr(m, "name").ToOption());

    var serverEnv: Result<string, ConfigError> :=
      match Lib.RequiredStr(m, "server_env")
      case Ok(s) => Ok(s)
      case Err(_) => Ok(DEFAULT_SERVER_ENV);
    var serverEnvB := new FieldBuilder("server_env");
    serverEnvB.WithValue(serverEnv.ToOption());

    var lastNameB := new FieldBuilder("last_name");
    lastNameB.WithOptional(true);
    // The `?`s on `optional_parse` and on the last two setters never fire: a `String`
    // conversion does not fail, the last-name builder is optional and the server
    // environment builder always has a value.
    var lastName := Lib.OptionalParse(m, "last_name", ParseString);
    if lastName.Err? {
      assert false;
    }
    lastNameB.WithValue(lastName.value);

    var b := new SettingsBuilder();
    var u :- b.WithName(nameB);
    var step := b.WithLastName(lastNameB);
    if step.Err? {
      assert false;
    }
    step := b.WithServerEnv(serverEnvB);
    if step.Err? {
      assert false;
    }
    r := b.Build();
  }

  /** Loading fails exactly when there is no name, and then on the name. */
  lemma LoadedFailsOnlyOnName(m: map<string, string>)
    ensures Loaded(m).Err? <==> "name" !in m
    ensures Loaded(m).Err? ==> Loaded(m).error == MissingKey("name")
  {
  }

  /** An absent server environment is `"local"`, an absent last name is none, and present
      ones are taken as they are. */
  lemma LoadedDefaults(m: map<string, string>)
    requires "name" in m
    ensures Loaded(m).Ok? && Loaded(m).value.name == m["name"]
    ensures Loaded(m).value.serverEnv == if "server_env" in m then m["server_env"] else "local"
    ensures Loaded(m).value.lastName == if "last_name" in m then Some(m["last_name"]) else None
  {
  }

  /** Keys the loader does not name make no difference. */
  lemma LoadedIgnoresOtherKeys(m: map<string, string>, k: string, v: string)
    requires k != "name" && k != "server_env" && k != "last_name"
    ensures Loaded(m[k := v]) == Loaded(m)
  {
  }

  /** `{name: test, version: 42}` loads as `test`, `local` and no last name. */
  lemma LoadedExample()
    ensures Loaded(map["name" := "test", "version" := "42"]) == Ok(Settings("test", "local", None))
  {
  }
}
