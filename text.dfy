/** The pieces of Rust's `str` API the `.env` parser relies on: `char::is_whitespace`,
    `trim`, searching for a character (as `splitn(2, c)` does) and `lines`. */
module Text {
  import opened Wrappers

  /** Rust's `char::is_whitespace`: the characters with the Unicode White_Space property. */
  predicate IsWhitespace(c: char) {
    || ('\U{9}' <= c <= '\U{D}') || c == ' ' || c == '\U{85}' || c == '\U{A0}'
    || c == '\U{1680}' || ('\U{2000}' <= c <= '\U{200A}') || c == '\U{2028}' || c == '\U{2029}'
    || c == '\U{202F}' || c == '\U{205F}' || c == '\U{3000}'
  }

  /** No whitespace at either end (true of every result of `Trim`). */
  predicate Trimmed(s: string) {
    s != [] ==> !IsWhitespace(s[0]) && !IsWhitespace(s[|s| - 1])
  }

  /** Nothing but whitespace. */
  predicate Blank(s: string) {
    forall i :: 0 <= i < |s| ==> IsWhitespace(s[i])
  }

  /** `trim`: drop the whitespace at both ends; the result starts and ends with
      non-whitespace (or is empty). */
  function Trim(s: string): (r: string)
    ensures Trimmed(r)
    ensures |r| <= |s|
    decreases |s|
  {
    if s == [] then s
    else if IsWhitespace(s[0]) then Trim(s[1..])
    else if IsWhitespace(s[|s| - 1]) then Trim(s[..|s| - 1])
    else s
  }

  /** `Trim` only removes characters: one absent from `s` is absent from its trim. */
  lemma {:induction false} TrimAvoids(s: string, c: char)
    requires c !in s
    ensures c !in Trim(s)
    decreases |s|
  {
    if s != [] {
      if IsWhitespace(s[0]) {
        assert c !in s[1..] by { assert forall i :: 0 <= i < |s| - 1 ==> s[1..][i] == s[i + 1]; }
        TrimAvoids(s[1..], c);
      } else if IsWhitespace(s[|s| - 1]) {
        assert c !in s[..|s| - 1] by { assert forall i :: 0 <= i < |s| - 1 ==> s[..|s| - 1][i] == s[i]; }
        TrimAvoids(s[..|s| - 1], c);
      }
    }
  }

  /** A trim is empty exactly when the whole string is whitespace. */
  lemma {:induction false} TrimEmpty(s: string)
    ensures Trim(s) == [] <==> forall i :: 0 <= i < |s| ==> IsWhitespace(s[i])
    decreases |s|
  {
    if s != [] {
      if IsWhitespace(s[0]) {
        TrimEmpty(s[1..]);
        assert forall i :: 0 <= i < |s| - 1 ==> s[1..][i] == s[i + 1];
        if Trim(s) == [] {
          forall i | 0 <= i < |s| ensures IsWhitespace(s[i]) {
            if i > 0 { assert s[i] == s[1..][i - 1]; }
          }
        }
      } else if IsWhitespace(s[|s| - 1]) {
        TrimEmpty(s[..|s| - 1]);
        assert s[..|s| - 1][0] == s[0];
      }
    }
  }

  /** A string that already has no whitespace at its ends is its own trim. */
  lemma TrimOfTrimmed(s: string)
    requires Trimmed(s)
    ensures Trim(s) == s
  {
  }

  /** Trimming twice is trimming once. */
  lemma TrimIdempotent(s: string)
    ensures Trim(Trim(s)) == Trim(s)
  {
    TrimOfTrimmed(Trim(s));
  }

  /** A string starting with non-whitespace keeps its first character when trimmed. */
  lemma {:induction false} TrimKeepsFirst(s: string)
    requires s != [] && !IsWhitespace(s[0])
    ensures Trim(s) != [] && Trim(s)[0] == s[0]
    decreases |s|
  {
    if IsWhitespace(s[|s| - 1]) {
      var init := s[..|s| - 1];
      assert init != [] && init[0] == s[0];
      TrimKeepsFirst(init);
    }
  }

  /** Trailing whitespace added to a string does not change its trim. */
  lemma {:induction false} TrimDropsTrailingWhitespace(s: string, w: char)
    requires IsWhitespace(w)
    ensures Trim(s + [w]) == Trim(s)
    decreases |s|
  {
    var t := s + [w];
    if s == [] {
      assert t[1..] == [];
    } else if IsWhitespace(s[0]) {
      assert t[1..] == s[1..] + [w];
      TrimDropsTrailingWhitespace(s[1..], w);
    } else {
      assert t[..|t| - 1] == s;
    }
  }

  /** Leading whitespace does not change the trim. */
  lemma {:induction false} TrimPaddedLeft(pre: string, s: string)
    requires forall i :: 0 <= i < |pre| ==> IsWhitespace(pre[i])
    ensures Trim(pre + s) == Trim(s)
    decreases |pre|
  {
    if pre != [] {
      assert (pre + s)[0] == pre[0];
      assert (pre + s)[1..] == pre[1..] + s;
      TrimPaddedLeft(pre[1..], s);
    } else {
      assert pre + s == s;
    }
  }

  /** Trailing whitespace after a trimmed string is removed by the trim. */
  lemma {:induction false} TrimPaddedRight(s: string, post: string)
    requires Trimmed(s)
    requires forall i :: 0 <= i < |post| ==> IsWhitespace(post[i])
    ensures Trim(s + post) == s
    decreases |post|
  {
    if post == [] {
      assert s + post == s;
    } else if s == [] {
      assert s + post == post;
      TrimEmpty(post);
    } else {
      var t := s + post;
      assert t[0] == s[0] && t[|t| - 1] == post[|post| - 1];
      assert t[..|t| - 1] == s + post[..|post| - 1];
      TrimPaddedRight(s, post[..|post| - 1]);
    }
  }

  /** `Trim(s)` is `s[a..b]`, with only whitespace before `a` and after `b`. */
  predicate TrimsAt(s: string, a: nat, b: nat) {
    a <= b <= |s| && Trim(s) == s[a..b] && Blank(s[..a]) && Blank(s[b..])
  }

  /** What `Trim` keeps is a slice of its input with only whitespace before and after it:
      the trim removes leading and trailing whitespace and nothing else. */
  lemma {:induction false} TrimSlice(s: string)
    ensures exists a: nat, b: nat :: TrimsAt(s, a, b)
    decreases |s|
  {
    if s == [] {
      assert TrimsAt(s, 0, 0);
    } else if IsWhitespace(s[0]) {
      TrimSlice(s[1..]);
      var a: nat, b: nat :| TrimsAt(s[1..], a, b);
      TrimsAtLeft(s, a, b);
    } else if IsWhitespace(s[|s| - 1]) {
      TrimSlice(s[..|s| - 1]);
      var a: nat, b: nat :| TrimsAt(s[..|s| - 1], a, b);
      TrimsAtRight(s, a, b);
    } else {
      assert s[0..|s|] == s;
      assert TrimsAt(s, 0, |s|);
    }
  }

  /** The step of `TrimSlice` for leading whitespace. */
  lemma TrimsAtLeft(s: string, a: nat, b: nat)
    requires s != [] && IsWhitespace(s[0]) && TrimsAt(s[1..], a, b)
    ensures TrimsAt(s, a + 1, b + 1)
  {
    var t := s[1..];
    assert Trim(s) == Trim(t);
    assert t[a..b] == s[a + 1..b + 1];
    assert s[b + 1..] == t[b..];
    assert s[..a + 1] == [s[0]] + t[..a];
  }

  /** The step of `TrimSlice` for trailing whitespace. */
  lemma TrimsAtRight(s: string, a: nat, b: nat)
    requires s != [] && !IsWhitespace(s[0]) && IsWhitespace(s[|s| - 1])
    requires TrimsAt(s[..|s| - 1], a, b)
    ensures TrimsAt(s, a, b)
  {
    var t := s[..|s| - 1];
    assert Trim(s) == Trim(t);
    assert t[a..b] == s[a..b];
    assert s[..a] == t[..a];
    assert s[b..] == t[b..] + [s[|s| - 1]];
  }

  /** A trimmed text with whitespace added around it trims back to itself. */
  lemma TrimPadded(pre: string, s: string, post: string)
    requires Trimmed(s)
    requires forall i :: 0 <= i < |pre| ==> IsWhitespace(pre[i])
    requires forall i :: 0 <= i < |post| ==> IsWhitespace(post[i])
    ensures Trim(pre + s + post) == s
  {
    var t := s + post;
    assert Trim(t) == s by { TrimPaddedRight(s, post); }
    assert Trim(pre + t) == Trim(t) by { TrimPaddedLeft(pre, t); }
    ConcatAssoc(pre, s, post);
  }

  /** The index of the first occurrence of `c` in `s`, as `splitn(2, c)` splits there. */
  function Find(s: string, c: char): (r: Option<nat>)
    ensures r.None? <==> c !in s
    ensures r.Some? ==> r.value < |s| && s[r.value] == c && c !in s[..r.value]
    decreases |s|
  {
    if s == [] then None
    else if s[0] == c then Some(0)
    else
      match Find(s[1..], c)
      case None => None
      case Some(i) =>
        assert s[..i + 1] == [s[0]] + s[1..][..i];
        Some(i + 1)
  }

  /** The first occurrence is at `i` when `s[i]` is `c` and no earlier character is. */
  lemma FindAt(s: string, c: char, i: nat)
    requires i < |s| && s[i] == c && c !in s[..i]
    ensures Find(s, c) == Some(i)
  {
    var j := Find(s, c).value;
    assert forall k :: 0 <= k < i ==> s[k] != c by {
      forall k | 0 <= k < i ensures s[k] != c { assert s[..i][k] == s[k]; }
    }
    assert forall k :: 0 <= k < j ==> s[k] != c by {
      forall k | 0 <= k < j ensures s[k] != c { assert s[..j][k] == s[k]; }
    }
  }

  /** The first occurrence of `c` in `a + b` is the one in `a` when `a` holds one. */
  lemma {:induction false} FindAppend(a: string, b: string, c: char)
    requires c in a
    ensures Find(a + b, c) == Find(a, c)
  {
    var i := Find(a, c).value;
    assert (a + b)[i] == c;
    var j := Find(a + b, c).value;
    assert forall k :: 0 <= k < j ==> (a + b)[k] != c by {
      forall k | 0 <= k < j ensures (a + b)[k] != c { assert (a + b)[..j][k] == (a + b)[k]; }
    }
    assert j <= i;
    assert a[j] == c;
    assert forall k :: 0 <= k < i ==> a[k] != c by {
      forall k | 0 <= k < i ensures a[k] != c { assert a[..i][k] == a[k]; }
    }
  }

  /** What `lines` does with one line: drop the `"\r"` of a `"\r\n"` ending. */
  function DropCarriageReturn(line: string): string {
    if line != [] && line[|line| - 1] == '\r' then line[..|line| - 1] else line
  }

  /** The `"\r"` that `lines` drops is whitespace, so it makes no difference to the trim. */
  lemma TrimDropCarriageReturn(line: string)
    ensures Trim(DropCarriageReturn(line)) == Trim(line)
  {
    if line != [] && line[|line| - 1] == '\r' {
      var r := line[..|line| - 1];
      assert r + ['\r'] == line;
      TrimDropsTrailingWhitespace(r, '\r');
    }
  }

  /** Rust's `str::lines`: split after each `"\n"`, drop the `"\n"` (and a `"\r"` right before
      it); the text after the last `"\n"` is a final line only when it is not empty. */
  function Lines(s: string): (ls: seq<string>)
    decreases |s|
  {
    match Find(s, '\n')
    case None => if s == [] then [] else [s]
    case Some(i) => [DropCarriageReturn(s[..i])] + Lines(s[i + 1..])
  }

  /** No line that `lines` gives contains a `"\n"`. */
  lemma {:induction false} LinesHaveNoBreaks(s: string)
    ensures forall j :: 0 <= j < |Lines(s)| ==> '\n' !in Lines(s)[j]
    decreases |s|
  {
    match Find(s, '\n')
    case None =>
    case Some(i) =>
      var first := DropCarriageReturn(s[..i]);
      assert '\n' !in first by {
        assert forall c :: c in first ==> c in s[..i];
      }
      LinesHaveNoBreaks(s[i + 1..]);
      assert Lines(s) == [first] + Lines(s[i + 1..]);
  }

  /** One step of `Lines`: the text up to the first `"\n"` is the first line. */
  lemma LinesAt(s: string, i: nat)
    requires Find(s, '\n') == Some(i)
    ensures Lines(s) == [DropCarriageReturn(s[..i])] + Lines(s[i + 1..])
  {
  }

  /** A string that is empty or ends with a line break. */
  predicate EndsLine(s: string) {
    s == [] || s[|s| - 1] == '\n'
  }

  /** One line followed by `"\n"` is split off as a line of its own. */
  lemma LinesCons(line: string, rest: string)
    requires '\n' !in line
    ensures Lines(line + "\n" + rest) == [DropCarriageReturn(line)] + Lines(rest)
  {
    var t := line + "\n";
    assert t[|line|] == '\n';
    var j := Find(t, '\n').value;
    assert forall k :: 0 <= k < |line| ==> t[k] == line[k];
    assert j == |line|;
    FindAppend(t, rest, '\n');
    var s := t + rest;
    assert s == line + "\n" + rest;
    assert s[..|line|] == line;
    assert s[|line| + 1..] == rest;
    LinesAt(s, |line|);
  }

  lemma ConcatAssoc<T>(x: seq<T>, y: seq<T>, z: seq<T>)
    ensures x + (y + z) == (x + y) + z
  {
  }

  /** Splitting text whose first part ends a line splits each part on its own. */
  lemma {:induction false} LinesAppend(a: string, b: string)
    requires EndsLine(a)
    ensures Lines(a + b) == Lines(a) + Lines(b)
    decreases |a|
  {
    if a == [] {
      assert a + b == b;
    } else {
      assert '\n' in a by { assert a[|a| - 1] == '\n'; }
      var i := Find(a, '\n').value;
      var rest := a[i + 1..];
      var first := DropCarriageReturn(a[..i]);
      assert EndsLine(rest) by {
        if rest != [] { assert rest[|rest| - 1] == a[i + 1 + (|rest| - 1)]; }
      }
      calc {
        Lines(a + b);
        { FindAppend(a, b, '\n');
          LinesAt(a + b, i);
          assert (a + b)[..i] == a[..i];
          assert (a + b)[i + 1..] == rest + b; }
        [first] + Lines(rest + b);
        { LinesAppend(rest, b); }
        [first] + (Lines(rest) + Lines(b));
        { ConcatAssoc([first], Lines(rest), Lines(b)); }
        ([first] + Lines(rest)) + Lines(b);
        { LinesAt(a, i); }
        Lines(a) + Lines(b);
      }
    }
  }

  /** A line that `lines` gives back unchanged: no `"\n"`, and no `"\r"` at its end. */
  predicate PlainLine(line: string) {
    '\n' !in line && (line == [] || line[|line| - 1] != '\r')
  }

  /** Lines written out, each followed by `"\n"`. */
  function JoinLines(ls: seq<string>): (s: string)
    ensures EndsLine(s)
    decreases |ls|
  {
    if ls == [] then "" else JoinLines(ls[..|ls| - 1]) + ls[|ls| - 1] + "\n"
  }

  /** A line ending in a character other than `"\r"`, added with its `"\n"` after text that
      ends a line, is one more line. */
  lemma LinesOfLine(prefix: string, line: string)
    requires EndsLine(prefix) && PlainLine(line)
    ensures Lines(prefix + line + "\n") == Lines(prefix) + [line]
  {
    calc {
      Lines(prefix + line + "\n");
      { assert prefix + line + "\n" == prefix + (line + "\n"); }
      Lines(prefix + (line + "\n"));
      { LinesAppend(prefix, line + "\n"); }
      Lines(prefix) + Lines(line + "\n");
      { assert line + "\n" == line + "\n" + "";
        LinesCons(line, "");
        assert Lines("") == []; }
      Lines(prefix) + [line];
    }
  }

  /** `lines` reads back the lines `JoinLines` wrote. */
  lemma {:induction false} LinesOfJoin(ls: seq<string>)
    requires forall i :: 0 <= i < |ls| ==> PlainLine(ls[i])
    ensures Lines(JoinLines(ls)) == ls
    decreases |ls|
  {
    if ls != [] {
      var init, last := ls[..|ls| - 1], ls[|ls| - 1];
      forall i | 0 <= i < |init| ensures PlainLine(init[i]) { assert init[i] == ls[i]; }
      LinesOfJoin(init);
      LinesOfLine(JoinLines(init), last);
      assert init + [last] == ls;
    }
  }
}
