/** `base/src/parser.rs`: the `base` crate's conversion wrapper `parse` and its copy of the
    `.env` parser. */
module Parser {
  import opened Wrappers
  import opened Text
  import opened Errors
  import opened Convert
  import opened EnvFormat
  import Reader

  /** `parse`: run the conversion; a failure becomes a `ParseError` that carries the raw
      value and the conversion's message but an empty key. */
  function Parse<T>(conv: string -> Result<T, string>, value: string): (r: Result<T, ConfigError>)
    ensures r.Ok? <==> conv(value).Ok?
    ensures r.Ok? ==> r.value == conv(value).value
    ensures r.Err? ==>
      r.error.ParseError? && r.error.key == "" && r.error.value == value && r.error.err == conv(value).error
  {
    match conv(value)
    case Ok(x) => Ok(x)
    case Err(e) => Err(ParseErr("", value, e))
  }

  /** With `String` as the target, `parse` always succeeds with its input. */
  lemma ParseStringIdentity(value: string)
    ensures Parse(ParseString, value) == Ok(value)
  {
  }

  /** With `u64` as the target, `parse` succeeds exactly on the texts `u64::from_str`
      accepts, and fails with an empty key and the raw text otherwise. */
  lemma ParseU64Outcome(value: string)
    ensures Parse(ParseU64, value).Ok? <==> IsU64Text(value)
    ensures Parse(ParseU64, value).Ok? ==> Parse(ParseU64, value).value == DecimalValue(Unsigned(value))
    ensures !IsU64Text(value) ==> Parse(ParseU64, value) == Err(ParseError("", value, ParseU64(value).error))
  {
  }

  /** `parse_env_contents` of the `base` crate: the same line loop as `src/reader.rs`, so
      both crates parse every text into the same map. */
  method ParseEnvContents(contents: string) returns (m: map<string, string>)
    ensures m == ParseEnv(contents)
  {
    m := Reader.ParseEnvContents(contents);
  }

  /** A comment line and a blank line before an assignment contribute nothing. */
  lemma ParseEnvCommentAndBlank(comment: string, k: string, v: string)
    requires comment != [] && comment[0] == '#' && Trimmed(comment) && '\n' !in comment
    requires KeyShape(k) && Trimmed(v) && '\n' !in k && '\n' !in v
    ensures ParseEnv(comment + "\n" + "\n" + k + "=" + v + "\n") == map[k := StripQuotes(v)]
  {
    var kv := k + "=" + v;
    var p1 := comment + "\n";
    var p2 := p1 + "\n";
    var e: Option<(string, string)> := Some((k, StripQuotes(v)));
    var none: Option<(string, string)> := None;
    calc {
      ParseEnv(comment + "\n" + "\n" + k + "=" + v + "\n");
      { assert comment + "\n" + "\n" + k + "=" + v + "\n" == p2 + kv + "\n";
        CommentBlankLines(comment, kv); }
      Fold(Entries([comment, "", kv]));
      { TrimOfTrimmed(comment);
        assert Entry(comment) == None;
        assert Entry("") == None;
        EntryOfAssignment(k, v);
        assert Entries([comment, "", kv]) == [none, none, e]; }
      Fold([none, none, e]);
      { FoldSnoc([], none);
        assert [] + [none] == [none];
        FoldSnoc([none], none);
        assert [none] + [none] == [none, none];
        FoldSnoc([none, none], e);
        assert [none, none] + [e] == [none, none, e]; }
      map[k := StripQuotes(v)];
    }
  }

  /** The lines of a comment, a blank line and one more line, each ended by `"\n"`. */
  lemma CommentBlankLines(comment: string, kv: string)
    requires '\n' !in comment && comment != [] && comment[|comment| - 1] != '\r'
    requires '\n' !in kv && kv != [] && kv[|kv| - 1] != '\r'
    ensures Lines(comment + "\n" + "\n" + kv + "\n") == [comment, "", kv]
  {
    var p1 := comment + "\n";
    var p2 := p1 + "\n";
    assert Lines("") == [];
    LinesOfLine("", comment);
    assert "" + comment + "\n" == p1;
    LinesOfLine(p1, "");
    assert p1 + "" + "\n" == p2;
    LinesOfLine(p2, kv);
  }

  /** The text `# comment\n\nkey=value\n` holds the one entry `key = value`. */
  lemma ParseEnvCommentAndBlankExample(contents: string)
    requires contents == "# comment\n\nkey=value\n"
    ensures ParseEnv(contents) == map["key" := "value"]
  {
    var comment, k, v := "# comment", "key", "value";
    calc {
      ParseEnv(contents);
      { assert contents == comment + "\n" + "\n" + k + "=" + v + "\n"; }
      ParseEnv(comment + "\n" + "\n" + k + "=" + v + "\n");
      { assert Trimmed(comment) && KeyShape(k) && Trimmed(v);
        ParseEnvCommentAndBlank(comment, k, v); }
      map[k := StripQuotes(v)];
    }
  }

  /** A text of one line `k="w"` without a final line break binds `k` to `w`, the quotes
      removed and the inside kept as it is. */
  lemma ParseEnvQuoted(k: string, w: string)
    requires KeyShape(k) && '\n' !in k && '\n' !in w
    ensures ParseEnv(k + "=\"" + w + "\"") == map[k := w]
  {
    var q := "\"" + w + "\"";
    var line := k + "=" + q;
    var e: Option<(string, string)> := Some((k, w));
    calc {
      ParseEnv(k + "=\"" + w + "\"");
      { assert k + "=\"" + w + "\"" == line;
        assert '\n' !in line;
        assert Lines(line) == [line]; }
      Fold(Entries([line]));
      { assert q[0] == '"' && q[|q| - 1] == '"';
        EntryOfAssignment(k, q);
        assert q == ['"'] + w + ['"'];
        StripQuotesOfQuoted('"', w);
        assert Entries([line]) == [e]; }
      Fold([e]);
      { FoldSnoc([], e);
        assert [] + [e] == [e]; }
      map[k := w];
    }
  }

  /** The text `key="hello world"` binds `key` to `hello world`. */
  lemma ParseEnvQuotedExample(contents: string)
    requires contents == "key=\"hello world\""
    ensures ParseEnv(contents) == map["key" := "hello world"]
  {
    assert contents == "key" + "=\"" + "hello world" + "\"";
    ParseEnvQuoted("key", "hello world");
  }
}
