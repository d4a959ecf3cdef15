/** Identifier intake (app.py:56-60): the text the user pastes becomes the
    set of its trimmed, non-blank lines. Python's `str.strip` and
    `str.splitlines` are written out, with the character classes they use. */
module Intake {

  /** `c.isspace()`: the characters `str.strip()` removes. */
  predicate IsSpace(c: char) {
    c == ' ' || c == '\t' || c == '\n' || c == '\r' ||
    c == '\U{000B}' || c == '\U{000C}' ||
    ('\U{001C}' <= c <= '\U{001F}') ||
    c == '\U{0085}' || c == '\U{00A0}' || c == '\U{1680}' ||
    ('\U{2000}' <= c <= '\U{200A}') ||
    c == '\U{2028}' || c == '\U{2029}' || c == '\U{202F}' ||
    c == '\U{205F}' || c == '\U{3000}'
  }

  /** The characters `str.splitlines()` ends a line at (`\r\n` counts once). */
  predicate IsLineBreak(c: char) {
    c == '\n' || c == '\r' || c == '\U{000B}' || c == '\U{000C}' ||
    c == '\U{001C}' || c == '\U{001D}' || c == '\U{001E}' ||
    c == '\U{0085}' || c == '\U{2028}' || c == '\U{2029}'
  }

  /** `s.lstrip()`: drops the leading whitespace and nothing else. */
  function TrimStart(s: string): (r: string)
    decreases |s|
    ensures |r| <= |s| && r == s[|s| - |r|..]
    ensures forall i :: 0 <= i < |s| - |r| ==> IsSpace(s[i])
    ensures r == [] || !IsSpace(r[0])
  {
    if s != [] && IsSpace(s[0]) then TrimStart(s[1..]) else s
  }

  /** `s.rstrip()`: drops the trailing whitespace and nothing else. */
  function TrimEnd(s: string): (r: string)
    decreases |s|
    ensures |r| <= |s| && r == s[..|r|]
    ensures forall i :: |r| <= i < |s| ==> IsSpace(s[i])
    ensures r == [] || !IsSpace(r[|r| - 1])
  {
    if s != [] && IsSpace(s[|s| - 1]) then TrimEnd(s[..|s| - 1]) else s
  }

  /** `s.strip()`: the text between the first and the last non-space
      character, so it neither starts nor ends with whitespace. */
  function Strip(s: string): (r: string)
    ensures r == [] || (!IsSpace(r[0]) && !IsSpace(r[|r| - 1]))
  {
    var t := TrimStart(s);
    var r := TrimEnd(t);
    assert r != [] ==> r[0] == t[0];
    r
  }

  /** Character `j` of `s.strip()` is character `Offset(s) + j` of `s`. */
  function Offset(s: string): nat {
    |s| - |TrimStart(s)|
  }

  lemma StripAt(s: string, j: nat)
    requires j < |Strip(s)|
    ensures Offset(s) + j < |s| && Strip(s)[j] == s[Offset(s) + j]
  {
    var t := TrimStart(s);
    assert Strip(s) == t[..|Strip(s)|];
    assert t == s[Offset(s)..];
  }

  /** `s.strip()` removes whitespace at the two edges of `s` and nothing
      else: `s` is that whitespace, then `s.strip()`, then more whitespace. */
  lemma StripRemovesEdges(s: string)
    ensures Offset(s) + |Strip(s)| <= |s|
    ensures s == s[..Offset(s)] + Strip(s) + s[Offset(s) + |Strip(s)|..]
    ensures forall i :: 0 <= i < Offset(s) ==> IsSpace(s[i])
    ensures forall i :: Offset(s) + |Strip(s)| <= i < |s| ==> IsSpace(s[i])
  {
    var t, r, n := TrimStart(s), Strip(s), Offset(s);
    assert t == s[n..] && r == TrimEnd(t);
    SpacesAfter(s, n, |r|);
    SliceThree(s, n, n + |r|);
    assert s[n..n + |r|] == t[..|r|] == r;
  }

  /** Whitespace after position `m` of `s[n..]` is whitespace of `s`. */
  lemma SpacesAfter(s: string, n: nat, m: nat)
    requires n <= |s| && m <= |s| - n
    requires forall j :: m <= j < |s[n..]| ==> IsSpace(s[n..][j])
    ensures forall i :: n + m <= i < |s| ==> IsSpace(s[i])
  {
    forall i | n + m <= i < |s|
      ensures IsSpace(s[i])
    {
      assert s[i] == s[n..][i - n];
    }
  }

  /** `s.strip()` is empty exactly when `s` is whitespace only. */
  lemma StripEmptyIffBlank(s: string)
    ensures Strip(s) == [] <==> forall i :: 0 <= i < |s| ==> IsSpace(s[i])
  {
    if Strip(s) == [] {
      assert TrimStart(s) == [];
    } else {
      StripAt(s, 0);
    }
  }

  /** Stripping twice is stripping once. */
  lemma StripIdempotent(s: string)
    ensures Strip(Strip(s)) == Strip(s)
  {
    var r := Strip(s);
    if r != [] {
      assert TrimStart(r) == r;
      assert TrimEnd(r) == r;
    }
  }

  /** The index where the first line of `s` ends: its first line break, or
      the end of `s`. */
  function LineEnd(s: string): (i: nat)
    decreases |s|
    ensures i <= |s|
    ensures forall j :: 0 <= j < i ==> !IsLineBreak(s[j])
    ensures i < |s| ==> IsLineBreak(s[i])
  {
    if s == [] || IsLineBreak(s[0]) then 0 else 1 + LineEnd(s[1..])
  }

  /** `s.splitlines()`: the lines of `s` without their line breaks; a final
      line break does not start an empty line. */
  function SplitLines(s: string): (lines: seq<string>)
    decreases |s|
    ensures forall line, j :: line in lines && 0 <= j < |line| ==> !IsLineBreak(line[j])
  {
    if s == [] then []
    else
      var i := LineEnd(s);
      if i == |s| then [s]
      else [s[..i]] + SplitLines(s[NextLine(s, i)..])
  }

  /** Where the line after the break at `i` starts: `\r\n` is one break,
      any other line break is one character. */
  function NextLine(s: string, i: nat): (next: nat)
    requires i < |s|
    ensures next == i + 1 || next == i + 2
    ensures next <= |s|
    ensures next == i + 2 <==> s[i] == '\r' && i + 1 < |s| && s[i + 1] == '\n'
  {
    if s[i] == '\r' && i + 1 < |s| && s[i + 1] == '\n' then i + 2 else i + 1
  }

  /** What `splitlines` cuts at the end of a line: `\r\n`, or one line-break
      character. */
  predicate IsEnding(e: string) {
    e == "\r\n" || (|e| == 1 && IsLineBreak(e[0]))
  }

  /** The ending removed from each line of `SplitLines(s)`: the line break it
      ended at, or nothing for a last line that runs to the end of `s`. */
  function Breaks(s: string): (ends: seq<string>)
    decreases |s|
    ensures |ends| == |SplitLines(s)|
  {
    if s == [] then []
    else
      var i := LineEnd(s);
      if i == |s| then [[]]
      else [s[i..NextLine(s, i)]] + Breaks(s[NextLine(s, i)..])
  }

  /** Each line followed by its ending, all joined together. */
  function Join(lines: seq<string>, ends: seq<string>): string
    requires |lines| == |ends|
  {
    if lines == [] then [] else lines[0] + ends[0] + Join(lines[1..], ends[1..])
  }

  lemma JoinCons(line: string, end: string, lines: seq<string>, ends: seq<string>)
    requires |lines| == |ends|
    ensures Join([line] + lines, [end] + ends) == line + end + Join(lines, ends)
  {
    assert ([line] + lines)[1..] == lines;
    assert ([end] + ends)[1..] == ends;
  }

  /** `splitlines` cuts `s` exactly at its line breaks: putting each line's
      ending back gives `s` again; every ending is one line break (`\r\n`
      taken whole, so a `\r` ending is never directly followed by a `\n`
      one); and only a last, non-empty line has no ending, so a final line
      break starts no empty line. */
  lemma SplitLinesRoundTrip(s: string)
    ensures s == Join(SplitLines(s), Breaks(s))
    ensures forall k :: 0 <= k < |Breaks(s)| ==>
      IsEnding(Breaks(s)[k]) ||
      (k == |Breaks(s)| - 1 && Breaks(s)[k] == [] && SplitLines(s)[k] != [])
    ensures forall k :: 0 <= k < |Breaks(s)| - 1 && Breaks(s)[k] == "\r" ==>
      !(SplitLines(s)[k + 1] == [] && Breaks(s)[k + 1] == "\n")
  {
    JoinSplitLines(s);
    BreaksAreEndings(s);
    CrLfTakenWhole(s);
  }

  lemma {:induction false} JoinSplitLines(s: string)
    decreases |s|
    ensures s == Join(SplitLines(s), Breaks(s))
  {
    if s != [] {
      var i := LineEnd(s);
      if i == |s| {
        assert s[..i] == s;
        JoinCons(s, [], [], []);
      } else {
        var next := NextLine(s, i);
        var line, end, rest := s[..i], s[i..next], s[next..];
        JoinSplitLines(rest);
        assert SplitLines(s) == [line] + SplitLines(rest);
        assert Breaks(s) == [end] + Breaks(rest);
        JoinCons(line, end, SplitLines(rest), Breaks(rest));
        SliceThree(s, i, next);
      }
    }
  }

  lemma SliceThree(s: string, i: nat, j: nat)
    requires i <= j <= |s|
    ensures s == s[..i] + s[i..j] + s[j..]
  {
  }

  /** Every ending is a line break, except possibly that of a last,
      non-empty line, which is empty. */
  ghost predicate EndingsOk(lines: seq<string>, ends: seq<string>)
    requires |lines| == |ends|
  {
    forall k :: 0 <= k < |ends| ==>
      IsEnding(ends[k]) || (k == |ends| - 1 && ends[k] == [] && lines[k] != [])
  }

  /** A lone `\r` ending is never followed by an empty line ended by `\n`. */
  ghost predicate CrLfOk(lines: seq<string>, ends: seq<string>)
    requires |lines| == |ends|
  {
    forall k :: 0 <= k < |ends| - 1 && ends[k] == "\r" ==>
      !(lines[k + 1] == [] && ends[k + 1] == "\n")
  }

  lemma EndingsOkCons(line: string, end: string, lines: seq<string>, ends: seq<string>)
    requires |lines| == |ends| && IsEnding(end) && EndingsOk(lines, ends)
    ensures EndingsOk([line] + lines, [end] + ends)
  {
    var all, cut := [end] + ends, [line] + lines;
    forall k | 0 <= k < |all|
      ensures IsEnding(all[k]) || (k == |all| - 1 && all[k] == [] && cut[k] != [])
    {
      if k > 0 {
        assert all[k] == ends[k - 1] && cut[k] == lines[k - 1];
      }
    }
  }

  lemma CrLfOkCons(line: string, end: string, lines: seq<string>, ends: seq<string>)
    requires |lines| == |ends| && CrLfOk(lines, ends)
    requires end == "\r" ==> !(lines != [] && lines[0] == [] && ends[0] == "\n")
    ensures CrLfOk([line] + lines, [end] + ends)
  {
    var all, cut := [end] + ends, [line] + lines;
    forall k | 0 <= k < |all| - 1 && all[k] == "\r"
      ensures !(cut[k + 1] == [] && all[k + 1] == "\n")
    {
      if k > 0 {
        assert all[k] == ends[k - 1] && cut[k + 1] == lines[k] && all[k + 1] == ends[k];
      }
    }
  }

  lemma {:induction false} BreaksAreEndings(s: string)
    decreases |s|
    ensures EndingsOk(SplitLines(s), Breaks(s))
  {
    if s != [] {
      var i := LineEnd(s);
      if i < |s| {
        var next := NextLine(s, i);
        var rest := s[next..];
        BreaksAreEndings(rest);
        EndingAt(s, i);
        assert Breaks(s) == [s[i..next]] + Breaks(rest);
        assert SplitLines(s) == [s[..i]] + SplitLines(rest);
        EndingsOkCons(s[..i], s[i..next], SplitLines(rest), Breaks(rest));
      }
    }
  }

  lemma {:induction false} CrLfTakenWhole(s: string)
    decreases |s|
    ensures CrLfOk(SplitLines(s), Breaks(s))
  {
    if s != [] {
      var i := LineEnd(s);
      if i < |s| {
        var next := NextLine(s, i);
        var rest := s[next..];
        CrLfTakenWhole(rest);
        assert Breaks(s) == [s[i..next]] + Breaks(rest);
        assert SplitLines(s) == [s[..i]] + SplitLines(rest);
        if s[i..next] == "\r" {
          RestStart(s, i);
        }
        CrLfOkCons(s[..i], s[i..next], SplitLines(rest), Breaks(rest));
      }
    }
  }

  /** `"a\r\nb\n".splitlines()` is `["a", "b"]`: `\r\n` is one break and
      the final `\n` starts no empty line. */
  lemma SplitLinesExample()
    ensures SplitLines("a\r\nb\n") == ["a", "b"]
    ensures Breaks("a\r\nb\n") == ["\r\n", "\n"]
  {
    var s := "a\r\nb\n";
    assert LineEnd(s) == 1 by {
      assert s[1..] == "\r\nb\n";
    }
    assert NextLine(s, 1) == 3;
    var rest := s[3..];
    assert rest == "b\n";
    assert LineEnd(rest) == 1 by {
      assert rest[1..] == "\n";
    }
    assert NextLine(rest, 1) == 2;
    assert rest[2..] == [];
    assert rest[..1] == "b" && rest[1..2] == "\n";
    assert Breaks(rest) == ["\n"];
    assert SplitLines(rest) == ["b"];
    assert s[..1] == "a" && s[1..3] == "\r\n";
  }

  /** The break at the end of the first line is an ending. */
  lemma EndingAt(s: string, i: nat)
    requires i == LineEnd(s) < |s|
    ensures IsEnding(s[i..NextLine(s, i)])
  {
    if NextLine(s, i) == i + 2 {
      assert s[i..i + 2] == [s[i], s[i + 1]];
    } else {
      assert s[i..i + 1] == [s[i]];
    }
  }

  /** After a lone `\r` ending, the rest does not start with an empty line
      ended by `\n`. */
  lemma RestStart(s: string, i: nat)
    requires i == LineEnd(s) < |s| && s[i..NextLine(s, i)] == "\r"
    ensures var rest := s[NextLine(s, i)..];
      !(SplitLines(rest) != [] && SplitLines(rest)[0] == [] &&
        Breaks(rest) != [] && Breaks(rest)[0] == "\n")
  {
    var next := NextLine(s, i);
    assert s[i] == '\r';
    assert next == i + 1;
    var rest := s[next..];
    if rest != [] {
      assert rest[0] == s[i + 1];
      assert rest[0] != '\n';
    }
  }

  /** The characters of `s` other than line breaks, in order. */
  function DropBreaks(s: string): string {
    if s == [] then []
    else (if IsLineBreak(s[0]) then [] else [s[0]]) + DropBreaks(s[1..])
  }

  /** The lines joined back together, with nothing between them. */
  function Concat(lines: seq<string>): string {
    if lines == [] then [] else lines[0] + Concat(lines[1..])
  }

  /** Up to the end of its first line, `s` has no line break to remove. */
  lemma {:induction false} DropBreaksFirstLine(s: string)
    decreases |s|
    ensures DropBreaks(s) == s[..LineEnd(s)] + DropBreaks(s[LineEnd(s)..])
  {
    if s != [] && !IsLineBreak(s[0]) {
      var k := LineEnd(s[1..]);
      DropBreaksFirstLine(s[1..]);
      assert s[..1 + k] == [s[0]] + s[1..][..k];
      assert s[1 + k..] == s[1..][k..];
    }
  }

  /** A line break is removed. */
  lemma DropBreaksSkipsBreak(s: string, i: nat)
    requires i < |s| && IsLineBreak(s[i])
    ensures DropBreaks(s[i..]) == DropBreaks(s[i + 1..])
  {
    assert s[i..][0] == s[i];
    assert s[i..][1..] == s[i + 1..];
  }

  lemma ConcatCons(line: string, rest: seq<string>)
    ensures Concat([line] + rest) == line + Concat(rest)
  {
    assert ([line] + rest)[0] == line;
    assert ([line] + rest)[1..] == rest;
  }

  /** Splitting into lines loses the line breaks and nothing else: the lines
      of `s`, joined, are `s` with its line breaks removed. */
  lemma {:induction false} SplitLinesKeepsText(s: string)
    decreases |s|
    ensures Concat(SplitLines(s)) == DropBreaks(s)
  {
    if s != [] {
      var i := LineEnd(s);
      DropBreaksFirstLine(s);
      if i == |s| {
        ConcatCons(s, []);
        assert s[..i] == s;
      } else {
        var next := NextLine(s, i);
        assert SplitLines(s) == [s[..i]] + SplitLines(s[next..]);
        SplitLinesKeepsText(s[next..]);
        ConcatCons(s[..i], SplitLines(s[next..]));
        DropBreaksSkipsBreak(s, i);
        if next == i + 2 {
          DropBreaksSkipsBreak(s, i + 1);
        }
        assert DropBreaks(s[i..]) == DropBreaks(s[next..]);
      }
    }
  }

  /** `set(t.strip() for t in text.strip().splitlines() if t.strip())`. */
  function Tokens(text: string): set<string> {
    set line | line in SplitLines(Strip(text)) && Strip(line) != [] :: Strip(line)
  }

  /** Every identifier is non-empty and already trimmed, and every non-blank
      input line contributes its trimmed text. */
  lemma TokensAreTrimmedLines(text: string)
    ensures forall t :: t in Tokens(text) ==> t != [] && Strip(t) == t
    ensures forall line :: line in SplitLines(Strip(text)) && Strip(line) != [] ==>
      Strip(line) in Tokens(text)
  {
    forall t | t in Tokens(text)
      ensures t != [] && Strip(t) == t
    {
      var line :| line in SplitLines(Strip(text)) && Strip(line) != [] && Strip(line) == t;
      StripIdempotent(line);
    }
  }

  /** Stripping a line cannot bring in a line break. */
  lemma StripKeepsNoBreak(line: string)
    requires forall j :: 0 <= j < |line| ==> !IsLineBreak(line[j])
    ensures forall j :: 0 <= j < |Strip(line)| ==> !IsLineBreak(Strip(line)[j])
  {
    forall j | 0 <= j < |Strip(line)| ensures !IsLineBreak(Strip(line)[j]) {
      StripAt(line, j);
    }
  }

  /** An identifier contains no line break. */
  lemma TokensHaveNoLineBreak(text: string)
    ensures forall t, j :: t in Tokens(text) && 0 <= j < |t| ==> !IsLineBreak(t[j])
  {
    var lines := SplitLines(Strip(text));
    forall t | t in Tokens(text)
      ensures forall j :: 0 <= j < |t| ==> !IsLineBreak(t[j])
    {
      var line :| line in lines && Strip(line) != [] && Strip(line) == t;
      StripKeepsNoBreak(line);
    }
  }

  /** The input is whitespace only exactly when it yields no identifier; the
      early return of app.py:56-58 is therefore the only way to reach an
      empty identifier list. */
  lemma BlankIffNoTokens(text: string)
    ensures Strip(text) == [] <==> Tokens(text) == {}
  {
    var s := Strip(text);
    if s != [] {
      var i := LineEnd(s);
      assert i != 0;
      var first := SplitLines(s)[0];
      assert first == s[..i];
      assert first[0] == s[0] && !IsSpace(first[0]);
      StripEmptyIffBlank(first);
      assert Strip(first) != [];
      assert Strip(first) in Tokens(text);
    }
  }
}
