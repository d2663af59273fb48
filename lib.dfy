/** `src/lib.rs`: the settings of the root crate, their builder, the map helpers, and the
    loaders `from_hash_map` and `from_file`. */
module Lib {
  import opened Wrappers
  import opened Text
  import opened Errors
  import opened Convert
  import opened EnvFormat
  import Reader

  datatype Settings = Settings(name: string, serverEnv: string, version: u64)

  const DEFAULT_SERVER_ENV := "local"

  class SettingsBuilder {
    var name: Option<string>
    var serverEnv: Option<string>
    var version: Option<u64>

    /** `SettingsBuilder::new`, the derived default: nothing set. */
    constructor ()
      ensures name == None && serverEnv == None && version == None
    {
      name, serverEnv, version := None, None, None;
    }

    method WithName(n: string)
      modifies this
      ensures name == Some(n) && serverEnv == old(serverEnv) && version == old(version)
    {
      name := Some(n);
    }

    method WithServerEnv(s: string)
      modifies this
      ensures serverEnv == Some(s) && name == old(name) && version == old(version)
    {
      serverEnv := Some(s);
    }

    method WithVersion(v: u64)
      modifies this
      ensures version == Some(v) && name == old(name) && serverEnv == old(serverEnv)
    {
      version := Some(v);
    }

    /** `build`: fails exactly when no name was set; the server environment defaults to
        `"local"` and the version to 0. */
    function Build(): (r: Result<Settings, ConfigError>)
      reads this
      ensures r.Err? <==> name.None?
      ensures r.Err? ==> r.error == MissingKey("name")
      ensures r.Ok? ==> r.value.name == name.value
      ensures r.Ok? ==> r.value.serverEnv == (if serverEnv.Some? then serverEnv.value else DEFAULT_SERVER_ENV)
      ensures r.Ok? ==> r.value.version == (if version.Some? then version.value else 0)
    {
      match name
      case None => Err(MissingKey("name"))
      case Some(n) => Ok(Settings(n, serverEnv.UnwrapOr(DEFAULT_SERVER_ENV), version.UnwrapOr(0)))
    }
  }

  /** `required_str`: the value under `key`, or `MissingKey(key)`. */
  function RequiredStr(m: map<string, string>, key: string): (r: Result<string, ConfigError>)
    ensures r.Ok? <==> key in m
    ensures r.Ok? ==> r.value == m[key]
    ensures r.Err? ==> r.error == MissingKey(key)
  {
    if key in m then Ok(m[key]) else Err(MissingKey(key))
  }

  /** `required_parse`: an absent key is `MissingKey(key)`; a value the conversion rejects is
      `ParseError` with the key, the raw text and the conversion's message. */
  function RequiredParse<T>(m: map<string, string>, key: string, conv: string -> Result<T, string>)
    : (r: Result<T, ConfigError>)
    ensures key !in m ==> r == Err(MissingKey(key))
    ensures key in m ==> (r.Ok? <==> conv(m[key]).Ok?)
    ensures key in m && r.Ok? ==> r.value == conv(m[key]).value
    ensures key in m && r.Err? ==> r.error == ParseError(key, m[key], conv(m[key]).error)
  {
    var s :- RequiredStr(m, key);
    match conv(s)
    case Ok(x) => Ok(x)
    case Err(e) => Err(ParseError(key, s, e))
  }

  /** `optional_parse`: an absent key is `Ok(None)`; otherwise as `required_parse`, the
      value wrapped in `Some`. */
  function OptionalParse<T>(m: map<string, string>, key: string, conv: string -> Result<T, string>)
    : (r: Result<Option<T>, ConfigError>)
    ensures key !in m ==> r == Ok(None)
    ensures key in m ==> (r.Ok? <==> conv(m[key]).Ok?)
    ensures key in m && r.Ok? ==> r.value == Some(conv(m[key]).value)
    ensures key in m && r.Err? ==> r.error == ParseError(key, m[key], conv(m[key]).error)
  {
    match Get(m, key)
    case None => Ok(None)
    case Some(s) =>
      match conv(s)
      case Ok(x) => Ok(Some(x))
      case Err(e) => Err(ParseError(key, s, e))
  }

  /** With `String` as the target, `required_parse` is `required_str`. */
  lemma RequiredParseString(m: map<string, string>, key: string)
    ensures RequiredParse(m, key, ParseString) == RequiredStr(m, key)
  {
  }

  /** On a present key `optional_parse` is `required_parse` with the value in `Some`; only
      their treatment of an absent key differs. */
  lemma OptionalAgreesWithRequired<T>(m: map<string, string>, key: string, conv: string -> Result<T, string>)
    ensures key in m ==>
      OptionalParse(m, key, conv) == (match RequiredParse(m, key, conv) case Ok(x) => Ok(Some(x)) case Err(e) => Err(e))
    ensures key !in m ==>
      OptionalParse(m, key, conv) == Ok(None) && RequiredParse(m, key, conv) == Err(MissingKey(key))
  {
  }

  /** What `from_hash_map` loads, stated field by field in the order the source checks
      them: a name is required, then a version that is a `u64` text; the server
      environment defaults to `"local"`. */
  function Loaded(m: map<string, string>): Result<Settings, ConfigError> {
    if "name" !in m then Err(MissingKey("name"))
    else if "version" !in m then Err(MissingKey("version"))
    else if !IsU64Text(m["version"]) then
      Err(ParseError("version", m["version"], ParseU64(m["version"]).error))
    else
      Ok(Settings(m["name"], if "server_env" in m then m["server_env"] else DEFAULT_SERVER_ENV,
                  DecimalValue(Unsigned(m["version"]))))
  }

  /** `from_hash_map` for the root crate's settings. */
  method FromHashMap(m: map<string, string>) returns (r: Result<Settings, ConfigError>)
    ensures r == Loaded(m)
  {
    var name :- RequiredStr(m, "name");
    var serverEnv := Get(m, "server_env").UnwrapOr(DEFAULT_SERVER_ENV);
    var version :- RequiredParse(m, "version", ParseU64);
    var b := new SettingsBuilder();
    b.WithName(name);
    b.WithServerEnv(serverEnv);
    b.WithVersion(version);
    r := b.Build();
  }

  /** `from_file`, with the outcome of reading the file as its input: a read error becomes
      `Io`, and read contents are parsed and loaded. */
  method FromFile(contents: Result<string, IoError>) returns (r: Result<Settings, ConfigError>)
    ensures contents.Err? ==> r == Err(Io(contents.error))
    ensures contents.Ok? ==> r == Loaded(ParseEnv(contents.value))
  {
    if contents.Err? {
      return Err(FromIoError(contents.error));
    }
    var m := Reader.ParseEnvContents(contents.value);
    r := FromHashMap(m);
  }

  /** A map missing both required keys fails on `name`, which is checked first. */
  lemma NameCheckedFirst(m: map<string, string>)
    requires "name" !in m
    ensures Loaded(m) == Err(MissingKey("name"))
  {
  }

  /** Loading fails only on a missing name, a missing version or a version that is not a
      `u64` text; with all three the builder never fails. */
  lemma LoadedSucceeds(m: map<string, string>)
    ensures Loaded(m).Ok? <==> "name" in m && "version" in m && IsU64Text(m["version"])
    ensures Loaded(m).Ok? ==> Loaded(m).value.version as int == DecimalValue(Unsigned(m["version"]))
  {
  }

  /** `{name: venkatesh, version: 42}` loads with the default server environment. */
  lemma LoadedExample()
    ensures Loaded(map["name" := "venkatesh", "version" := "42"]) == Ok(Settings("venkatesh", "local", 42))
  {
    ParseU64Examples();
  }

  /** A file of three plain assignments loads as they say. */
  lemma FromFileExample(contents: string)
    requires contents == "name=venkatesh\nserver_env=local\nversion=7\n"
    ensures Loaded(ParseEnv(contents)) == Ok(Settings("venkatesh", "local", 7))
  {
    var m := map["name" := "venkatesh", "server_env" := "local", "version" := "7"];
    assert ParseEnv(contents) == m by { ExampleFileMap(contents); }
    assert Loaded(m) == Ok(Settings("venkatesh", "local", 7)) by { ParseU64Examples(); }
  }

  lemma ExampleFileMap(contents: string)
    requires contents == "name=venkatesh\nserver_env=local\nversion=7\n"
    ensures ParseEnv(contents) == map["name" := "venkatesh", "server_env" := "local", "version" := "7"]
  {
    var k0, v0, k1, v1, k2, v2 := "name", "venkatesh", "server_env", "local", "version", "7";
    ExampleFileText(contents, k0, v0, k1, v1, k2, v2);
    assert KeyShape(k0) && KeyShape(k1) && KeyShape(k2);
    assert Trimmed(v0) && Trimmed(v1) && Trimmed(v2);
    assert PlainLine(k0 + "=" + v0) && PlainLine(k1 + "=" + v1) && PlainLine(k2 + "=" + v2);
    assert StripQuotes(v0) == v0 && StripQuotes(v1) == v1 && StripQuotes(v2) == v2;
    ParseThreeAssignments(k0, v0, k1, v1, k2, v2);
  }

  lemma ExampleFileText(contents: string, k0: string, v0: string, k1: string, v1: string, k2: string, v2: string)
    requires contents == "name=venkatesh\nserver_env=local\nversion=7\n"
    requires k0 == "name" && v0 == "venkatesh" && k1 == "server_env"
    requires v1 == "local" && k2 == "version" && v2 == "7"
    ensures contents == (k0 + "=" + v0) + "\n" + (k1 + "=" + v1) + "\n" + (k2 + "=" + v2) + "\n"
  {
  }

  /** Three assignment lines, each ended by a line break, give the map of the three
      entries, a later key overwriting an earlier one. */
  lemma ParseThreeAssignments(k0: string, v0: string, k1: string, v1: string, k2: string, v2: string)
    requires KeyShape(k0) && Trimmed(v0) && PlainLine(k0 + "=" + v0)
    requires KeyShape(k1) && Trimmed(v1) && PlainLine(k1 + "=" + v1)
    requires KeyShape(k2) && Trimmed(v2) && PlainLine(k2 + "=" + v2)
    ensures ParseEnv((k0 + "=" + v0) + "\n" + (k1 + "=" + v1) + "\n" + (k2 + "=" + v2) + "\n")
      == map[k0 := StripQuotes(v0)][k1 := StripQuotes(v1)][k2 := StripQuotes(v2)]
  {
    var l0, l1, l2 := k0 + "=" + v0, k1 + "=" + v1, k2 + "=" + v2;
    var e0, e1, e2 := (k0, StripQuotes(v0)), (k1, StripQuotes(v1)), (k2, StripQuotes(v2));
    EntryOfAssignment(k0, v0);
    EntryOfAssignment(k1, v1);
    EntryOfAssignment(k2, v2);
    calc {
      ParseEnv((k0 + "=" + v0) + "\n" + (k1 + "=" + v1) + "\n" + (k2 + "=" + v2) + "\n");
      { JoinThree(l0, l1, l2); }
      ParseEnv(JoinLines([l0, l1, l2]));
      { var ls, es := [l0, l1, l2], [e0, e1, e2];
        forall i | 0 <= i < 3 ensures PlainLine(ls[i]) && Entry(ls[i]) == Some(es[i]) {
          if i == 0 {
            assert ls[i] == l0 && es[i] == e0;
          } else if i == 1 {
            assert ls[i] == l1 && es[i] == e1;
          } else {
            assert ls[i] == l2 && es[i] == e2;
          }
        }
        ParseJoined(ls, es); }
      Assign([e0, e1, e2]);
      { AssignThree(e0, e1, e2); }
      map[k0 := StripQuotes(v0)][k1 := StripQuotes(v1)][k2 := StripQuotes(v2)];
    }
  }

  lemma JoinThree(l0: string, l1: string, l2: string)
    ensures JoinLines([l0, l1, l2]) == l0 + "\n" + l1 + "\n" + l2 + "\n"
  {
    var ls := [l0, l1, l2];
    assert ls[..2] == [l0, l1];
    assert [l0, l1][..1] == [l0];
    assert [l0][..0] == [];
    assert JoinLines([l0]) == l0 + "\n" by {
      assert JoinLines([l0]) == JoinLines([]) + l0 + "\n";
    }
    assert JoinLines([l0, l1]) == l0 + "\n" + l1 + "\n" by {
      assert JoinLines([l0, l1]) == JoinLines([l0]) + l1 + "\n";
    }
    assert JoinLines(ls) == JoinLines([l0, l1]) + l2 + "\n";
  }

  lemma AssignThree(e0: (string, string), e1: (string, string), e2: (string, string))
    ensures Assign([e0, e1, e2]) == map[e0.0 := e0.1][e1.0 := e1.1][e2.0 := e2.1]
  {
    var es := [e0, e1, e2];
    assert es[..2] == [e0, e1];
    assert [e0, e1][..1] == [e0];
    assert [e0][..0] == [];
    assert Assign([e0]) == map[e0.0 := e0.1] by {
      assert Assign([e0]) == Assign([])[e0.0 := e0.1];
    }
    assert Assign([e0, e1]) == Assign([e0])[e1.0 := e1.1];
    assert Assign(es) == Assign([e0, e1])[e2.0 := e2.1];
  }
}
