/** What `parse_env_contents` computes, line by line: the specification both copies of the
    parser (`Reader` for `src/reader.rs`, `Parser` for `base/src/parser.rs`) are proved
    against, and the properties of the `.env` format that follow from it. */
module EnvFormat {
  import opened Wrappers
  import opened Text

  /** The shape of every key the parser stores: not empty, no whitespace at its ends, no
      `=`, and not starting with `#`. */
  predicate KeyShape(k: string) {
    k != [] && Trimmed(k) && '=' !in k && k[0] != '#'
  }

  /** A line skipped before it is split: blank after trimming, or a `#` comment. */
  predicate Skipped(raw: string) {
    var line := Trim(raw);
    line == [] || line[0] == '#'
  }

  /** A value wrapped in one matching pair of double or single quotes loses that pair;
      any other value, a lone quote included, is kept as it is. */
  function StripQuotes(v: string): string {
    if |v| >= 2 && ((v[0] == '"' && v[|v| - 1] == '"') || (v[0] == '\'' && v[|v| - 1] == '\''))
    then v[1..|v| - 1]
    else v
  }

  /** The key and value one line contributes, if any: the trimmed line is split at its
      first `=`, both parts are trimmed, a line without `=` or with an empty key gives
      nothing, and the value loses one pair of surrounding quotes. */
  function Entry(raw: string): (e: Option<(string, string)>)
    ensures e.Some? ==> KeyShape(e.value.0)
  {
    var line := Trim(raw);
    if line == [] || line[0] == '#' then None
    else
      match Find(line, '=')
      case None => None
      case Some(i) =>
        var k := Trim(line[..i]);
        if k == [] then None
        else
          KeyWellShaped(line, i);
          Some((k, StripQuotes(Trim(line[i + 1..]))))
  }

  lemma KeyWellShaped(line: string, i: nat)
    requires line != [] && Trimmed(line) && line[0] != '#'
    requires Find(line, '=') == Some(i) && Trim(line[..i]) != []
    ensures KeyShape(Trim(line[..i]))
  {
    TrimAvoids(line[..i], '=');
    assert i > 0;
    assert line[..i][0] == line[0];
    TrimKeepsFirst(line[..i]);
  }

  /** The entry stores a value under `k`. */
  predicate Binds(e: Option<(string, string)>, k: string) {
    e.Some? && e.value.0 == k
  }

  /** The line stores a value under `k`. */
  predicate DefinesKey(raw: string, k: string) {
    Binds(Entry(raw), k)
  }

  /** One map insertion of the parser's loop, when the line gave an entry. */
  function Insert(m: map<string, string>, e: Option<(string, string)>): map<string, string> {
    match e
    case None => m
    case Some((k, v)) => m[k := v]
  }

  /** The entries inserted in order into an empty map: a left fold of `Insert`. */
  function Fold(es: seq<Option<(string, string)>>): map<string, string>
    decreases |es|
  {
    if es == [] then map[] else Insert(Fold(es[..|es| - 1]), es[|es| - 1])
  }

  /** The entry of each line. */
  function Entries(ls: seq<string>): (es: seq<Option<(string, string)>>)
    ensures |es| == |ls| && forall i {:trigger es[i]} :: 0 <= i < |ls| ==> es[i] == Entry(ls[i])
  {
    seq(|ls|, i requires 0 <= i < |ls| => Entry(ls[i]))
  }

  /** `parse_env_contents`: total; the entries of `lines()`, inserted in order. */
  function ParseEnv(contents: string): map<string, string> {
    Fold(Entries(Lines(contents)))
  }

  lemma EntriesAppend(xs: seq<string>, ys: seq<string>)
    ensures Entries(xs + ys) == Entries(xs) + Entries(ys)
  {
    var l, r := Entries(xs + ys), Entries(xs) + Entries(ys);
    forall i | 0 <= i < |l| ensures l[i] == r[i] {
      if i < |xs| { assert (xs + ys)[i] == xs[i]; }
      else { assert (xs + ys)[i] == ys[i - |xs|]; }
    }
  }

  /** Appending one entry is one more insertion. */
  lemma FoldSnoc(es: seq<Option<(string, string)>>, e: Option<(string, string)>)
    ensures Fold(es + [e]) == Insert(Fold(es), e)
  {
    assert (es + [e])[..|es|] == es;
  }

  // ---------------------------------------------------------------------------------------
  // The map a sequence of entries builds

  /** A key is in the map exactly when some entry binds it. */
  lemma {:induction false} FoldDomain(es: seq<Option<(string, string)>>, k: string)
    ensures k in Fold(es) <==> exists i :: 0 <= i < |es| && Binds(es[i], k)
    decreases |es|
  {
    if es != [] {
      var init := es[..|es| - 1];
      FoldDomain(init, k);
      if k in Fold(es) && !Binds(es[|es| - 1], k) {
        var i :| 0 <= i < |init| && Binds(init[i], k);
        assert es[i] == init[i];
      }
      if exists i :: 0 <= i < |es| && Binds(es[i], k) {
        var i :| 0 <= i < |es| && Binds(es[i], k);
        if i < |init| { assert init[i] == es[i]; }
      }
    }
  }

  /** The value stored under a key is that of the last entry binding it. */
  lemma {:induction false} FoldLastWins(es: seq<Option<(string, string)>>, i: nat, k: string, v: string)
    requires i < |es| && es[i] == Some((k, v))
    requires forall j :: i < j < |es| ==> !Binds(es[j], k)
    ensures k in Fold(es) && Fold(es)[k] == v
    decreases |es|
  {
    var init := es[..|es| - 1];
    if i < |es| - 1 {
      assert init[i] == es[i];
      forall j | i < j < |init| ensures !Binds(init[j], k) {
        assert init[j] == es[j];
      }
      FoldLastWins(init, i, k, v);
    }
  }

  /** An absent entry can be inserted anywhere without changing the map. */
  lemma {:induction false} FoldSkip(xs: seq<Option<(string, string)>>, ys: seq<Option<(string, string)>>)
    ensures Fold(xs + [None] + ys) == Fold(xs + ys)
    decreases |ys|
  {
    if ys == [] {
      assert xs + [None] + ys == xs + [None];
      assert xs + ys == xs;
      FoldSnoc(xs, None);
    } else {
      var init, last := ys[..|ys| - 1], ys[|ys| - 1];
      assert xs + [None] + ys == (xs + [None] + init) + [last];
      assert xs + ys == (xs + init) + [last];
      FoldSnoc(xs + [None] + init, last);
      FoldSnoc(xs + init, last);
      FoldSkip(xs, init);
    }
  }

  // ---------------------------------------------------------------------------------------
  // The map parsed from text

  /** Every stored key has the key shape. */
  lemma ParseEnvKeys(contents: string)
    ensures forall k :: k in ParseEnv(contents) ==> KeyShape(k)
  {
    var ls := Lines(contents);
    forall k | k in ParseEnv(contents) ensures KeyShape(k) {
      FoldDomain(Entries(ls), k);
      var i :| 0 <= i < |ls| && Binds(Entries(ls)[i], k);
      assert Entries(ls)[i] == Entry(ls[i]);
    }
  }

  /** Some line of `ls` stores a value under `k`. */
  predicate SomeLineDefines(ls: seq<string>, k: string) {
    exists i :: 0 <= i < |ls| && DefinesKey(ls[i], k)
  }

  /** Over any sequence of lines: a key is in the map exactly when some line defines it. */
  lemma EntriesDomain(ls: seq<string>, k: string)
    ensures k in Fold(Entries(ls)) <==> SomeLineDefines(ls, k)
  {
    var es := Entries(ls);
    FoldDomain(es, k);
    if k in Fold(es) {
      var i :| 0 <= i < |es| && Binds(es[i], k);
      assert DefinesKey(ls[i], k);
    }
    if exists i :: 0 <= i < |ls| && DefinesKey(ls[i], k) {
      var i :| 0 <= i < |ls| && DefinesKey(ls[i], k);
      assert Binds(es[i], k);
    }
  }

  /** A key is stored exactly when some line of the text defines it. */
  lemma ParseEnvDomain(contents: string, k: string)
    ensures k in ParseEnv(contents) <==> SomeLineDefines(Lines(contents), k)
  {
    EntriesDomain(Lines(contents), k);
  }

  /** When several lines define a key, the map holds the value of the last of them. */
  lemma ParseEnvLastLineWins(contents: string, i: nat, k: string, v: string)
    requires var ls := Lines(contents); i < |ls| && Entry(ls[i]) == Some((k, v))
    requires var ls := Lines(contents); forall j :: i < j < |ls| ==> !DefinesKey(ls[j], k)
    ensures k in ParseEnv(contents) && ParseEnv(contents)[k] == v
  {
    var ls := Lines(contents);
    var es := Entries(ls);
    forall j | i < j < |es| ensures !Binds(es[j], k) {
      assert es[j] == Entry(ls[j]);
    }
    FoldLastWins(es, i, k, v);
  }

  // ---------------------------------------------------------------------------------------
  // Dropped lines

  /** A line gives no entry exactly when it is blank or a comment, has no `=`, or has an
      empty key (after trimming, it starts with `=`). */
  lemma DroppedLines(raw: string)
    ensures Entry(raw) == None <==>
      Skipped(raw) || '=' !in Trim(raw) || Trim(raw)[0] == '='
  {
    var line := Trim(raw);
    if !Skipped(raw) && '=' in line {
      var i := Find(line, '=').value;
      if i == 0 {
        assert line[..i] == [];
      } else {
        assert line[..i][0] == line[0];
        TrimKeepsFirst(line[..i]);
      }
    }
  }

  /** In the text itself: inserting or removing a line with its `"\n"` that gives no
      entry, such as a blank line, a comment or a line without `=`, leaves the parsed map
      unchanged. */
  lemma DroppedLineInText(before: string, raw: string, after: string)
    requires EndsLine(before) && '\n' !in raw && Entry(raw) == None
    ensures ParseEnv(before + raw + "\n" + after) == ParseEnv(before + after)
  {
    var line := DropCarriageReturn(raw);
    assert Entry(line) == None by {
      TrimDropCarriageReturn(raw);
    }
    var bs, rs := Lines(before), Lines(after);
    calc {
      ParseEnv(before + raw + "\n" + after);
      { assert before + raw + "\n" + after == before + (raw + "\n" + after);
        LinesAppend(before, raw + "\n" + after);
        LinesCons(raw, after); }
      Fold(Entries(bs + ([line] + rs)));
      { ConcatAssoc(bs, [line], rs);
        EntriesAppend(bs + [line], rs);
        EntriesAppend(bs, [line]);
        assert Entries([line]) == [None]; }
      Fold(Entries(bs) + [None] + Entries(rs));
      { FoldSkip(Entries(bs), Entries(rs)); }
      Fold(Entries(bs) + Entries(rs));
      { EntriesAppend(bs, rs);
        LinesAppend(before, after); }
      ParseEnv(before + after);
    }
  }

  /** The same for a last line without a final `"\n"`: dropping it, or adding it after
      text that ends a line, leaves the parsed map unchanged. */
  lemma DroppedLastLine(before: string, raw: string)
    requires EndsLine(before) && '\n' !in raw && Entry(raw) == None
    ensures ParseEnv(before + raw) == ParseEnv(before)
  {
    var bs := Lines(before);
    LinesAppend(before, raw);
    if raw == [] {
      assert Lines(raw) == [];
      assert before + raw == before;
    } else {
      assert Lines(raw) == [raw];
      calc {
        ParseEnv(before + raw);
        Fold(Entries(bs + [raw]));
        { EntriesAppend(bs, [raw]);
          assert Entries([raw]) == [None]; }
        Fold(Entries(bs) + [None]);
        { FoldSnoc(Entries(bs), None); }
        Fold(Entries(bs));
      }
    }
  }

  // ---------------------------------------------------------------------------------------
  // Kept lines

  /** `k=v` with a well-shaped key and a value without surrounding whitespace stores `v`
      with one pair of quotes stripped; any `=` inside `v` is kept. */
  lemma EntryOfAssignment(k: string, v: string)
    requires KeyShape(k) && Trimmed(v)
    ensures Entry(k + "=" + v) == Some((k, StripQuotes(v)))
  {
    var line := k + "=" + v;
    assert line[0] == k[0];
    assert line[|line| - 1] == if v == [] then '=' else v[|v| - 1];
    TrimOfTrimmed(line);
    assert line[|k|] == '=';
    var i := Find(line, '=').value;
    assert line[..|k|] == k;
    assert i == |k| by {
      assert forall j :: 0 <= j < |k| ==> line[j] == k[j];
    }
    assert line[i + 1..] == v;
    TrimOfTrimmed(k);
    TrimOfTrimmed(v);
  }

  /** Whitespace around the line, around the key and around the value does not change
      the entry: both the key and the value are trimmed. */
  lemma EntrySpacing(pre: string, k: string, b: string, c: string, v: string, post: string)
    requires KeyShape(k) && Trimmed(v)
    requires Blank(pre) && Blank(b) && Blank(c) && Blank(post)
    ensures Entry(pre + k + b + "=" + c + v + post) == Some((k, StripQuotes(v)))
  {
    var raw := pre + k + b + "=" + c + v + post;
    var tail := if v == [] then "" else c + v;
    var key := k + b;
    var line := key + "=" + tail;
    assert !IsWhitespace('=');
    SpacedLineTrim(pre, k, b, c, v, post);
    var i := |key|;
    assert line[..i] == key && line[i + 1..] == tail;
    assert Find(line, '=') == Some(i) by {
      assert line[i] == '=';
      assert '=' !in key by {
        forall j | 0 <= j < |key| ensures key[j] != '=' {
          if j < |k| { assert key[j] == k[j]; } else { assert key[j] == b[j - |k|]; }
        }
      }
      FindAt(line, '=', i);
    }
    assert Trim(key) == k by { TrimPaddedRight(k, b); }
    assert line[0] == k[0];
    calc {
      Entry(raw);
      { EntryOfSplit(raw, i); }
      Some((Trim(key), StripQuotes(Trim(tail))));
      { if v != [] { TrimPaddedLeft(c, v); TrimOfTrimmed(v); } }
      Some((k, StripQuotes(v)));
    }
  }

  /** The trim of a spaced assignment line: the outer whitespace goes, and so does the
      space after `=` when the value is empty. */
  lemma SpacedLineTrim(pre: string, k: string, b: string, c: string, v: string, post: string)
    requires KeyShape(k) && Trimmed(v)
    requires Blank(pre) && Blank(b) && Blank(c) && Blank(post)
    ensures Trim(pre + k + b + "=" + c + v + post) == k + b + "=" + (if v == [] then "" else c + v)
  {
    var raw := pre + k + b + "=" + c + v + post;
    var tail := if v == [] then "" else c + v;
    var key := k + b;
    var line := key + "=" + tail;
    assert !IsWhitespace('=');
    if v == [] {
      var mid := key + "=";
      assert raw == pre + mid + (c + post);
      assert line == mid;
      assert mid[0] == k[0] && mid[|mid| - 1] == '=';
      assert Blank(c + post) by {
        forall i | 0 <= i < |c + post| ensures IsWhitespace((c + post)[i]) {
          if i < |c| { assert (c + post)[i] == c[i]; }
          else { assert (c + post)[i] == post[i - |c|]; }
        }
      }
      TrimPadded(pre, mid, c + post);
    } else {
      assert raw == pre + line + post;
      assert line[0] == k[0] && line[|line| - 1] == v[|v| - 1];
      TrimPadded(pre, line, post);
    }
  }

  /** A line that is not skipped and has a non-empty key before its first `=` gives the
      trimmed key and the trimmed, unquoted value. */
  lemma EntryOfSplit(raw: string, i: nat)
    requires Trim(raw) != [] && Trim(raw)[0] != '#' && Find(Trim(raw), '=') == Some(i)
    requires Trim(Trim(raw)[..i]) != []
    ensures Entry(raw) == Some((Trim(Trim(raw)[..i]), StripQuotes(Trim(Trim(raw)[i + 1..]))))
  {
  }

  /** One pair of quotes around any text is removed, and the inner text is not re-trimmed. */
  lemma StripQuotesOfQuoted(q: char, v: string)
    requires q == '"' || q == '\''
    ensures StripQuotes([q] + v + [q]) == v
  {
    assert ([q] + v + [q])[1..|v| + 1] == v;
  }

  /** A value without a matching pair of quotes at its ends is stored verbatim. */
  lemma StripQuotesUnquoted(v: string)
    requires |v| < 2 || !((v[0] == '"' || v[0] == '\'') && v[|v| - 1] == v[0])
    ensures StripQuotes(v) == v
  {
  }

  lemma StripQuotesExamples()
    ensures StripQuotes("\"") == "\""
    ensures StripQuotes("\"x'") == "\"x'"
    ensures StripQuotes("' a '") == " a "
    ensures StripQuotes("\"\"a\"\"") == "\"a\""
  {
    StripQuotesOfQuoted('\'', " a ");
    StripQuotesOfQuoted('"', "\"a\"");
  }

  // ---------------------------------------------------------------------------------------
  // Writing entries as text and parsing them back

  /** A key/value pair that survives being written as a line. */
  predicate Renderable(e: (string, string)) {
    KeyShape(e.0) && '\n' !in e.0 && '\n' !in e.1
  }

  /** One entry written as a `.env` line, with its value in double quotes. */
  function RenderLine(e: (string, string)): string {
    e.0 + "=\"" + e.1 + "\""
  }

  /** Entries written one per line, in order. */
  function Render(es: seq<(string, string)>): string {
    JoinLines(seq(|es|, i requires 0 <= i < |es| => RenderLine(es[i])))
  }

  /** The entries inserted into a map in order, a later key overwriting an earlier one. */
  function Assign(es: seq<(string, string)>): map<string, string>
    decreases |es|
  {
    if es == [] then map[] else Assign(es[..|es| - 1])[es[|es| - 1].0 := es[|es| - 1].1]
  }

  /** The map of lines each giving an entry is the map of those entries. */
  lemma {:induction false} FoldEntriesAssign(ls: seq<string>, es: seq<(string, string)>)
    requires |ls| == |es| && forall i :: 0 <= i < |ls| ==> Entry(ls[i]) == Some(es[i])
    ensures Fold(Entries(ls)) == Assign(es)
    decreases |ls|
  {
    if ls != [] {
      var n := |ls| - 1;
      assert ls == ls[..n] + [ls[n]];
      EntriesAppend(ls[..n], [ls[n]]);
      FoldSnoc(Entries(ls[..n]), Some(es[n]));
      FoldEntriesAssign(ls[..n], es[..n]);
    }
  }

  /** Text written as lines, each of which gives an entry, parses to the map of those
      entries, a later key overwriting an earlier one. */
  lemma ParseJoined(ls: seq<string>, es: seq<(string, string)>)
    requires |ls| == |es|
    requires forall i :: 0 <= i < |ls| ==> PlainLine(ls[i]) && Entry(ls[i]) == Some(es[i])
    ensures ParseEnv(JoinLines(ls)) == Assign(es)
  {
    LinesOfJoin(ls);
    FoldEntriesAssign(ls, es);
  }

  /** One written line reads back as its entry. */
  lemma RenderLineEntry(e: (string, string))
    requires Renderable(e)
    ensures PlainLine(RenderLine(e)) && Entry(RenderLine(e)) == Some(e)
  {
    var quoted := "\"" + e.1 + "\"";
    var line := RenderLine(e);
    assert line == e.0 + "=" + quoted;
    assert '\n' !in line;
    EntryOfAssignment(e.0, quoted);
    assert quoted == ['"'] + e.1 + ['"'];
    StripQuotesOfQuoted('"', e.1);
  }

  /** Reading back what `Render` wrote gives the map of the entries. */
  lemma RenderRoundTrip(es: seq<(string, string)>)
    requires forall i :: 0 <= i < |es| ==> Renderable(es[i])
    ensures ParseEnv(Render(es)) == Assign(es)
  {
    var ls := seq(|es|, i requires 0 <= i < |es| => RenderLine(es[i]));
    forall i | 0 <= i < |ls| ensures PlainLine(ls[i]) && Entry(ls[i]) == Some(es[i]) {
      RenderLineEntry(es[i]);
    }
    ParseJoined(ls, es);
  }
}
