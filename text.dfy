/** Python string behaviour the core relies on: str.strip(), reading a text file line by line
    (universal newlines) and "\n".join(...). */
module Text {

  /** Python's str.isspace() for a single character. */
  predicate IsSpace(c: char) {
    c == ' ' || ('\t' <= c <= '\r') || ('\U{1C}' <= c <= '\U{1F}') || c == '\U{85}' || c == '\U{A0}'
    || c == '\U{1680}' || ('\U{2000}' <= c <= '\U{200A}') || c == '\U{2028}' || c == '\U{2029}'
    || c == '\U{202F}' || c == '\U{205F}' || c == '\U{3000}'
  }

  /** str.lstrip(): drops the leading whitespace. */
  function StripLeft(s: string): string {
    if s != [] && IsSpace(s[0]) then StripLeft(s[1..]) else s
  }

  /** str.rstrip(): drops the trailing whitespace. */
  function StripRight(s: string): string {
    if s != [] && IsSpace(s[|s| - 1]) then StripRight(s[..|s| - 1]) else s
  }

  /** str.strip(). */
  function Strip(s: string): string {
    StripLeft(StripRight(s))
  }

  /** lstrip() keeps a suffix: what it drops is whitespace, and what it keeps does not start
      with whitespace. */
  lemma {:induction false} StripLeftIs(s: string)
    ensures var r := StripLeft(s);
      |r| <= |s| && r == s[|s| - |r|..] && (r == [] || !IsSpace(r[0]))
      && forall i :: 0 <= i < |s| - |r| ==> IsSpace(s[i])
  {
    if s != [] && IsSpace(s[0]) {
      StripLeftIs(s[1..]);
      var r := StripLeft(s[1..]);
      assert StripLeft(s) == r;
      assert s[1..][|s| - 1 - |r|..] == s[|s| - |r|..];
      forall i | 0 <= i < |s| - |r|
        ensures IsSpace(s[i])
      {
        if i > 0 {
          assert s[i] == s[1..][i - 1];
        }
      }
    }
  }

  /** rstrip() keeps a prefix: what it drops is whitespace, and what it keeps does not end
      with whitespace. */
  lemma {:induction false} StripRightIs(s: string)
    ensures var r := StripRight(s);
      |r| <= |s| && r == s[..|r|] && (r == [] || !IsSpace(r[|r| - 1]))
      && forall i :: |r| <= i < |s| ==> IsSpace(s[i])
  {
    if s != [] && IsSpace(s[|s| - 1]) {
      var t := s[..|s| - 1];
      StripRightIs(t);
      var r := StripRight(t);
      assert StripRight(s) == r;
      assert t[..|r|] == s[..|r|];
      forall i | |r| <= i < |s|
        ensures IsSpace(s[i])
      {
        if i < |t| {
          assert s[i] == t[i];
        }
      }
    }
  }

  /** The result of strip() neither starts nor ends with whitespace. */
  lemma StripEnds(s: string)
    ensures var r := Strip(s); r == [] || (!IsSpace(r[0]) && !IsSpace(r[|r| - 1]))
  {
    StripRightIs(s);
    StripLeftIs(StripRight(s));
  }

  /** A string that neither starts nor ends with whitespace is left alone by strip(). */
  lemma StripKeeps(s: string)
    requires s == [] || (!IsSpace(s[0]) && !IsSpace(s[|s| - 1]))
    ensures Strip(s) == s
  {
    assert StripRight(s) == s;
  }

  /** strip() removes a line terminator kept by file iteration. */
  lemma StripDropsNewline(s: string)
    ensures Strip(s + "\n") == Strip(s)
  {
    assert (s + "\n")[..|s + "\n"| - 1] == s;
  }

  /** Reading a text file with newline=None: "\r\n" and a lone "\r" both become "\n". */
  function Translate(s: string): string
    decreases |s|
  {
    if s == [] then []
    else if s[0] == '\r' then
      if |s| >= 2 && s[1] == '\n' then "\n" + Translate(s[2..]) else "\n" + Translate(s[1..])
    else [s[0]] + Translate(s[1..])
  }

  /** No '\r' survives the translation, and a text without one is read unchanged. */
  lemma {:induction false} TranslateIs(s: string)
    ensures '\r' !in Translate(s)
    ensures '\r' !in s ==> Translate(s) == s
    decreases |s|
  {
    if s != [] {
      if s[0] == '\r' {
        if |s| >= 2 && s[1] == '\n' {
          TranslateIs(s[2..]);
        } else {
          TranslateIs(s[1..]);
        }
      } else {
        TranslateIs(s[1..]);
        assert [s[0]] + s[1..] == s;
      }
    }
  }

  /** Concatenation of a sequence of strings. */
  function Concat(lines: seq<string>): string {
    if lines == [] then [] else lines[0] + Concat(lines[1..])
  }

  /** The lines of a translated text as iteration over a file yields them. */
  function SplitLines(s: string): seq<string> {
    if s == [] then []
    else
      var rest := SplitLines(s[1..]);
      if s[0] == '\n' || rest == [] then [[s[0]]] + rest
      else [[s[0]] + rest[0]] + rest[1..]
  }

  /** Every line is non-empty and holds one '\n', at its end, except a last line that may
      have none. */
  ghost predicate LinesShaped(r: seq<string>) {
    (forall i :: 0 <= i < |r| ==> r[i] != [] && '\n' !in r[i][..|r[i]| - 1])
    && (forall i :: 0 <= i < |r| - 1 ==> r[i][|r[i]| - 1] == '\n')
  }

  /** A character that ends a line, or starts the last one, becomes a line of its own. */
  lemma ShapedCons(c: char, rest: seq<string>)
    requires LinesShaped(rest) && (c == '\n' || rest == [])
    ensures LinesShaped([[c]] + rest) && Concat([[c]] + rest) == [c] + Concat(rest)
  {
    var r := [[c]] + rest;
    assert r[1..] == rest;
    forall i | 0 <= i < |r| ensures r[i] != [] && '\n' !in r[i][..|r[i]| - 1] {
      if i > 0 { assert r[i] == rest[i - 1]; }
    }
    forall i | 0 <= i < |r| - 1 ensures r[i][|r[i]| - 1] == '\n' {
      if i > 0 { assert r[i] == rest[i - 1]; }
    }
  }

  /** Any other character joins the front of the first line. */
  lemma ShapedExtend(c: char, rest: seq<string>)
    requires LinesShaped(rest) && c != '\n' && rest != []
    ensures LinesShaped([[c] + rest[0]] + rest[1..])
  {
    var line := [c] + rest[0];
    var r := [line] + rest[1..];
    assert rest[0] != [] && '\n' !in rest[0][..|rest[0]| - 1];
    assert line[..|line| - 1] == [c] + rest[0][..|rest[0]| - 1];
    assert line[|line| - 1] == rest[0][|rest[0]| - 1];
    forall i | 0 <= i < |r| ensures r[i] != [] && '\n' !in r[i][..|r[i]| - 1] {
      if i > 0 { assert r[i] == rest[i]; }
    }
    forall i | 0 <= i < |r| - 1 ensures r[i][|r[i]| - 1] == '\n' {
      if i > 0 { assert r[i] == rest[i]; }
    }
  }

  lemma ConcatExtend(c: char, rest: seq<string>)
    requires rest != []
    ensures Concat([[c] + rest[0]] + rest[1..]) == [c] + Concat(rest)
  {
    var x := rest[0];
    var t := Concat(rest[1..]);
    ConcatCons([c] + x, rest[1..]);
    ConcatCons(x, rest[1..]);
    assert [x] + rest[1..] == rest;
    AppendAssoc([c], x, t);
  }

  lemma AppendAssoc(a: string, b: string, c: string)
    ensures (a + b) + c == a + (b + c)
  {
  }

  lemma ConcatCons(x: string, rest: seq<string>)
    ensures Concat([x] + rest) == x + Concat(rest)
  {
    assert ([x] + rest)[1..] == rest;
  }

  /** The lines put back together are the text, and they are shaped as file iteration
      yields them. */
  lemma {:induction false} SplitLinesIs(s: string)
    ensures Concat(SplitLines(s)) == s && LinesShaped(SplitLines(s))
  {
    if s != [] {
      SplitLinesIs(s[1..]);
      var rest := SplitLines(s[1..]);
      assert [s[0]] + s[1..] == s;
      if s[0] == '\n' || rest == [] {
        ShapedCons(s[0], rest);
      } else {
        ShapedExtend(s[0], rest);
        ConcatExtend(s[0], rest);
      }
    }
  }

  /** The lines read back from a text file's content (iteration over `open(path, "r")`). */
  function Lines(text: string): seq<string> {
    SplitLines(Translate(text))
  }

  /** "\n".join(lines): separators between the lines, no trailing newline. The text holds
      every character of the lines plus one separator between each two of them. */
  function JoinLines(lines: seq<string>): (r: string)
    ensures lines == [] ==> r == []
    ensures lines != [] ==> |r| == |Concat(lines)| + |lines| - 1
    ensures |lines| == 1 ==> r == lines[0]
  {
    if lines == [] then []
    else if |lines| == 1 then lines[0]
    else
      assert Concat(lines) == lines[0] + Concat(lines[1..]);
      lines[0] + "\n" + JoinLines(lines[1..])
  }

  /** The last line is appended, after one separator, to the join of the others. */
  lemma {:induction false} JoinLinesSnoc(lines: seq<string>)
    requires |lines| > 1
    ensures JoinLines(lines) == JoinLines(lines[..|lines| - 1]) + "\n" + lines[|lines| - 1]
    decreases |lines|
  {
    var rest := lines[1..];
    var init := lines[..|lines| - 1];
    if |rest| == 1 {
      assert init == [lines[0]];
    } else {
      JoinLinesSnoc(rest);
      assert rest[..|rest| - 1] == init[1..];
      var middle := JoinLines(init[1..]);
      var last := lines[|lines| - 1];
      assert JoinLines(rest) == middle + "\n" + last;
      assert JoinLines(init) == lines[0] + "\n" + middle;
      SeparatedAssoc(lines[0], middle, last);
    }
  }

  lemma SeparatedAssoc(a: string, b: string, c: string)
    ensures a + "\n" + (b + "\n" + c) == (a + "\n" + b) + "\n" + c
  {
  }

  /** Text written by "\n".join reads back as the same lines, each but the last with its
      terminator, provided no line is empty or holds a line break itself. */
  lemma {:induction false} LinesOfJoin(lines: seq<string>)
    requires forall i :: 0 <= i < |lines| ==> lines[i] != [] && '\n' !in lines[i] && '\r' !in lines[i]
    ensures |Lines(JoinLines(lines))| == |lines|
    ensures forall i :: 0 <= i < |lines| - 1 ==> Lines(JoinLines(lines))[i] == lines[i] + "\n"
    ensures |lines| > 0 ==> Lines(JoinLines(lines))[|lines| - 1] == lines[|lines| - 1]
  {
    NoReturnInJoin(lines);
    TranslateIs(JoinLines(lines));
    if |lines| == 1 {
      SplitLinesOfLine(lines[0]);
    } else if |lines| > 1 {
      LinesOfJoin(lines[1..]);
      NoReturnInJoin(lines[1..]);
      TranslateIs(JoinLines(lines[1..]));
      SplitLinesAfterLine(lines[0], JoinLines(lines[1..]));
      assert JoinLines(lines) == lines[0] + "\n" + JoinLines(lines[1..]);
      var rest := Lines(JoinLines(lines[1..]));
      assert Lines(JoinLines(lines)) == [lines[0] + "\n"] + rest;
      forall i | 0 <= i < |lines| - 1
        ensures Lines(JoinLines(lines))[i] == lines[i] + "\n"
      {
        if i > 0 {
          assert lines[1..][i - 1] == lines[i];
        }
      }
    }
  }

  lemma {:induction false} NoReturnInJoin(lines: seq<string>)
    requires forall i :: 0 <= i < |lines| ==> '\r' !in lines[i]
    ensures '\r' !in JoinLines(lines)
  {
    if |lines| > 1 {
      NoReturnInJoin(lines[1..]);
    }
  }

  /** A non-empty text without line break is a single line. */
  lemma {:induction false} SplitLinesOfLine(s: string)
    requires s != [] && '\n' !in s
    ensures SplitLines(s) == [s]
  {
    if |s| > 1 {
      SplitLinesOfLine(s[1..]);
      assert [s[0]] + s[1..] == s;
    } else {
      assert s[1..] == [];
      assert SplitLines(s[1..]) == [];
      assert [s[0]] == s;
    }
  }

  /** A line followed by '\n' is split off in front of the lines of what follows. */
  lemma {:induction false} SplitLinesAfterLine(s: string, rest: string)
    requires '\n' !in s
    ensures SplitLines(s + "\n" + rest) == [s + "\n"] + SplitLines(rest)
    decreases |s|
  {
    if s == [] {
      assert s + "\n" + rest == "\n" + rest;
      assert ("\n" + rest)[1..] == rest;
    } else {
      assert (s + "\n" + rest)[1..] == s[1..] + "\n" + rest;
      SplitLinesAfterLine(s[1..], rest);
      assert [s[0]] + (s[1..] + "\n") == s + "\n";
    }
  }
}
