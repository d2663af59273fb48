/** `src/reader.rs`: the `.env` parser, as the loop the source runs over the lines. */
module Reader {
  import opened Wrappers
  import opened Text
  import opened EnvFormat

  /** The map after the first `n` lines is the map after `n - 1` lines with the entry of
      line `n - 1` inserted. */
  lemma FoldPrefixStep(lines: seq<string>, n: nat)
    requires n < |lines|
    ensures Fold(Entries(lines[..n + 1])) == Insert(Fold(Entries(lines[..n])), Entry(lines[n]))
  {
    assert lines[..n + 1] == lines[..n] + [lines[n]];
    EntriesAppend(lines[..n], [lines[n]]);
    FoldSnoc(Entries(lines[..n]), Entry(lines[n]));
  }

  /** `parse_env_contents`: for each line of `lines()`, trim it, skip it when blank or a
      comment, split it at the first `=`, trim both parts, skip it when the key is empty,
      strip one pair of matching quotes from the value and insert, a later line
      overwriting an earlier one. */
  method ParseEnvContents(contents: string) returns (m: map<string, string>)
    ensures m == ParseEnv(contents)
  {
    var lines := Lines(contents);
    m := map[];
    for n := 0 to |lines|
      invariant m == Fold(Entries(lines[..n]))
    {
      FoldPrefixStep(lines, n);
      var line := Trim(lines[n]);
      if line == [] || line[0] == '#' {
        continue;
      }
      var split := Find(line, '=');
      if split.None? {
        continue;
      }
      var i := split.value;
      var k := Trim(line[..i]);
      var v := Trim(line[i + 1..]);
      if k == [] {
        continue;
      }
      var value := v;
      if (value != [] && value[0] == '"' && value[|value| - 1] == '"')
        || (value != [] && value[0] == '\'' && value[|value| - 1] == '\'')
      {
        if |value| >= 2 {
          value := value[1..|value| - 1];
        }
      }
      assert Entry(lines[n]) == Some((k, value));
      m := m[k := value];
    }
    assert lines[..|lines|] == lines;
  }
}
