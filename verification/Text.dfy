/** The parts of Python's `str` that the runtime relies on: `strip` and `splitlines`. */
module Text {

  /** Characters for which Python's `str.isspace` holds. */
  predicate IsSpace(c: char) {
    || '\U{9}' <= c <= '\U{d}'
    || '\U{1c}' <= c <= '\U{20}'
    || c == '\U{85}' || c == '\U{a0}' || c == '\U{1680}'
    || '\U{2000}' <= c <= '\U{200a}'
    || c == '\U{2028}' || c == '\U{2029}' || c == '\U{202f}'
    || c == '\U{205f}' || c == '\U{3000}'
  }

  /** Characters at which Python's `str.splitlines` ends a line. */
  predicate IsLineBreak(c: char) {
    || '\U{a}' <= c <= '\U{d}'
    || '\U{1c}' <= c <= '\U{1e}'
    || c == '\U{85}' || c == '\U{2028}' || c == '\U{2029}'
  }

  predicate Blank(s: string) {
    forall i :: 0 <= i < |s| ==> IsSpace(s[i])
  }

  /** Number of white-space characters at the front of `s`. */
  function Leading(s: string): (n: nat)
    ensures n <= |s|
  {
    if s == "" || !IsSpace(s[0]) then 0 else 1 + Leading(s[1..])
  }

  /** Number of white-space characters at the back of `s`. */
  function Trailing(s: string): (n: nat)
    ensures n <= |s|
  {
    if s == "" || !IsSpace(s[|s| - 1]) then 0 else 1 + Trailing(s[..|s| - 1])
  }

  /** Python's `s.strip()`. */
  function Strip(s: string): (r: string)
    ensures |r| <= |s|
  {
    var t := s[Leading(s)..];
    t[..|t| - Trailing(t)]
  }

  /** A string that is empty or begins and ends with non-space characters. */
  predicate Trimmed(s: string) {
    s != "" ==> !IsSpace(s[0]) && !IsSpace(s[|s| - 1])
  }

  lemma {:induction false} LeadingShape(s: string)
    ensures Blank(s[..Leading(s)]) && (Leading(s) < |s| ==> !IsSpace(s[Leading(s)]))
  {
    if s != "" && IsSpace(s[0]) {
      LeadingShape(s[1..]);
      assert forall i :: 0 < i < Leading(s) ==> s[i] == s[1..][..Leading(s[1..])][i - 1];
    }
  }

  lemma {:induction false} TrailingShape(s: string)
    ensures Blank(s[|s| - Trailing(s)..])
    ensures Trailing(s) < |s| ==> !IsSpace(s[|s| - Trailing(s) - 1])
  {
    if s != "" && IsSpace(s[|s| - 1]) {
      var t := s[..|s| - 1];
      TrailingShape(t);
      assert forall i :: |s| - Trailing(s) <= i < |t| ==> s[i] == t[|t| - Trailing(t)..][i - (|t| - Trailing(t))];
    }
  }

  /** `strip` removes white space only, only at the two ends, and all of it there. */
  lemma StripShape(s: string) returns (i: nat, j: nat)
    ensures i <= j <= |s| && Strip(s) == s[i..j]
    ensures Blank(s[..i]) && Blank(s[j..])
    ensures Trimmed(s[i..j])
  {
    hide IsSpace, Leading, Trailing;
    var t := s[Leading(s)..];
    LeadingShape(s);
    TrailingShape(t);
    i, j := Leading(s), |s| - Trailing(t);
    assert s[j..] == t[|t| - Trailing(t)..];
  }

  lemma StripBlank(s: string)
    ensures Strip(s) == "" <==> Blank(s)
  {
    var i, j := StripShape(s);
    if i == j {
      assert forall k :: 0 <= k < i ==> s[k] == s[..i][k];
      assert forall k :: j <= k < |s| ==> s[k] == s[j..][k - j];
    } else {
      assert s[i] == s[i..j][0];
    }
  }

  lemma StripTrimmed(s: string)
    requires Trimmed(s)
    ensures Strip(s) == s
  {
  }

  // ----- splitlines -----

  /** Length of the first line of `s`, its line break not counted. */
  function LineLength(s: string): (n: nat)
    ensures n <= |s|
    ensures forall i :: 0 <= i < n ==> !IsLineBreak(s[i])
    ensures n < |s| ==> IsLineBreak(s[n])
  {
    if s == "" || IsLineBreak(s[0]) then 0 else 1 + LineLength(s[1..])
  }

  /** Characters taken by the line break at position `n`: two for "\r\n", else one. */
  function BreakWidth(s: string, n: nat): (w: nat)
    requires n < |s|
    ensures 1 <= w && n + w <= |s|
  {
    if s[n] == '\r' && n + 1 < |s| && s[n + 1] == '\n' then 2 else 1
  }

  function AfterFirstLine(s: string): (rest: string)
    requires LineLength(s) < |s|
    ensures |rest| < |s|
  {
    s[LineLength(s) + BreakWidth(s, LineLength(s))..]
  }

  /** Python's `s.splitlines()`. */
  function SplitLines(s: string): (lines: seq<string>)
    ensures s == "" <==> lines == []
    decreases |s|
  {
    if s == "" then []
    else
      var n := LineLength(s);
      if n == |s| then [s] else [s[..n]] + SplitLines(AfterFirstLine(s))
  }

  /** Python's `"\n".join(lines)`. */
  function JoinLines(lines: seq<string>): string {
    if lines == [] then ""
    else if |lines| == 1 then lines[0]
    else lines[0] + "\n" + JoinLines(lines[1..])
  }

  ghost predicate HasInk(s: string) {
    exists i :: 0 <= i < |s| && !IsSpace(s[i])
  }

  /** Splitting into lines and joining them again loses no visible character. */
  lemma {:induction false} JoinLinesKeepsInk(s: string)
    requires HasInk(s)
    ensures HasInk(JoinLines(SplitLines(s)))
    decreases |s|
  {
    hide IsSpace, IsLineBreak, BreakWidth, LineLength, JoinLines;
    var n := LineLength(s);
    if n == |s| {
      assert SplitLines(s) == [s];
      JoinOne(s);
    } else {
      var rest := AfterFirstLine(s);
      var lines := SplitLines(rest);
      assert SplitLines(s) == [s[..n]] + lines;
      JoinMore(s[..n], lines);
      var i :| 0 <= i < |s| && !IsSpace(s[i]);
      var joined := JoinLines(SplitLines(s));
      if i < n {
        assert joined[i] == s[i];
      } else {
        BreakIsSpace(s);
        assert rest[i - n - BreakWidth(s, n)] == s[i];
        JoinLinesKeepsInk(rest);
        var tail := JoinLines(lines);
        var k :| 0 <= k < |tail| && !IsSpace(tail[k]);
        assert joined[n + 1 + k] == tail[k];
      }
    }
  }

  lemma BreakIsSpace(s: string)
    requires LineLength(s) < |s|
    ensures var n := LineLength(s);
            forall i :: n <= i < n + BreakWidth(s, n) ==> IsSpace(s[i])
  {
  }

  lemma JoinOne(line: string)
    ensures JoinLines([line]) == line
  {
  }

  lemma JoinMore(line: string, lines: seq<string>)
    ensures JoinLines([line] + lines) == if lines == [] then line else line + "\n" + JoinLines(lines)
  {
    assert ([line] + lines)[1..] == lines;
  }

  predicate OddBreak(text: string) {
    exists i :: 0 <= i < |text| && IsLineBreak(text[i]) && text[i] != '\n'
  }

  /** Text that is split into lines and joined again has no line break but "\n". */
  lemma {:induction false} JoinedClean(s: string)
    ensures !OddBreak(JoinLines(SplitLines(s)))
    decreases |s|
  {
    hide IsLineBreak, BreakWidth, LineLength, JoinLines, AfterFirstLine;
    var n := LineLength(s);
    if s == "" {
      NoLines();
    } else if n == |s| {
      assert SplitLines(s) == [s];
      JoinOne(s);
    } else {
      var rest := AfterFirstLine(s);
      JoinedClean(rest);
      assert SplitLines(s) == [s[..n]] + SplitLines(rest);
      JoinMore(s[..n], SplitLines(rest));
      CleanJoin(s[..n], JoinLines(SplitLines(rest)));
    }
  }

  lemma NoLines()
    ensures SplitLines("") == [] && JoinLines([]) == ""
  {
  }

  lemma CleanJoin(line: string, rest: string)
    requires !OddBreak(rest) && forall i :: 0 <= i < |line| ==> !IsLineBreak(line[i])
    ensures !OddBreak(line) && !OddBreak(line + "\n" + rest)
  {
    hide IsLineBreak;
    var all := line + "\n" + rest;
    forall i | 0 <= i < |all| && IsLineBreak(all[i]) ensures all[i] == '\n' {
      if i > |line| {
        assert all[i] == rest[i - |line| - 1];
      }
    }
  }

  /** It does not get longer, and a line break at its end goes. */
  lemma {:induction false} JoinedNoLonger(s: string)
    ensures |JoinLines(SplitLines(s))| <= |s| - (if s != "" && IsLineBreak(s[|s| - 1]) then 1 else 0)
    decreases |s|
  {
    hide IsLineBreak, BreakWidth, LineLength, JoinLines;
    var n := LineLength(s);
    if s == "" {
      NoLines();
    } else if n == |s| {
      assert SplitLines(s) == [s];
      JoinOne(s);
    } else {
      var rest := AfterFirstLine(s);
      JoinedNoLonger(rest);
      assert SplitLines(s) == [s[..n]] + SplitLines(rest);
      JoinMore(s[..n], SplitLines(rest));
      assert rest != "" ==> rest[|rest| - 1] == s[|s| - 1];
    }
  }

  /** Text whose only line breaks are "\n", none of them at its end, is not changed. */
  lemma {:induction false} JoinedExact(text: string)
    requires !OddBreak(text) && (text != "" ==> text[|text| - 1] != '\n')
    ensures text != "" ==> JoinLines(SplitLines(text + "\n")) == text
    decreases |text|
  {
    hide IsLineBreak, JoinLines, SplitLines, AfterFirstLine, LineLength;
    if text != "" {
      var s := text + "\n";
      var n := FirstCut(text);
      SplitFirst(s);
      JoinMore(s[..n], SplitLines(AfterFirstLine(s)));
      if n < |text| {
        var tail := text[n + 1..];
        TailClean(text, n + 1);
        JoinedExact(tail);
        assert text == text[..n] + "\n" + tail;
      }
    }
  }

  lemma SplitFirst(s: string)
    requires LineLength(s) < |s|
    ensures SplitLines(s) == [s[..LineLength(s)]] + SplitLines(AfterFirstLine(s))
  {
    hide LineLength, AfterFirstLine, IsLineBreak;
  }

  lemma FirstCut(text: string) returns (n: nat)
    requires !OddBreak(text) && text != "" && text[|text| - 1] != '\n'
    ensures n == LineLength(text + "\n") && n <= |text| && (text + "\n")[..n] == text[..n]
    ensures n == |text| ==> AfterFirstLine(text + "\n") == "" && SplitLines("") == []
    ensures n < |text| ==> n + 1 < |text| && text[n] == '\n' && AfterFirstLine(text + "\n") == text[n + 1..] + "\n"
  {
    hide IsLineBreak;
    NewlineIsBreak();
    var s := text + "\n";
    n := LineLength(s);
    assert IsLineBreak(s[|text|]);
    assert s[n] == '\n';
  }

  lemma NewlineIsBreak()
    ensures IsLineBreak('\n')
  {
  }

  lemma TailClean(text: string, i: nat)
    requires i <= |text| && !OddBreak(text)
    ensures !OddBreak(text[i..])
  {
    hide IsLineBreak;
    assert forall k :: 0 <= k < |text| - i ==> text[i..][k] == text[i + k];
  }

  // ----- find and split -----

  predicate OccursAt(text: string, needle: string, i: nat) {
    i + |needle| <= |text| && text[i..i + |needle|] == needle
  }

  /** Python's `text.find(needle, start)`, with -1 as the answer when there is no occurrence. */
  function Find(text: string, needle: string, start: nat): (i: int)
    ensures i == -1 || (start <= i && i + |needle| <= |text| && OccursAt(text, needle, i))
    ensures forall k: nat {:trigger OccursAt(text, needle, k)} ::
              start <= k && OccursAt(text, needle, k) ==> 0 <= i <= k
    decreases |text| - start
  {
    if start + |needle| > |text| then -1
    else if OccursAt(text, needle, start) then start
    else Find(text, needle, start + 1)
  }

  /** Python's `text.split(separator)`. */
  function Split(text: string, separator: string): (pieces: seq<string>)
    requires separator != ""
    ensures |pieces| >= 1
    decreases |text|
  {
    var i := Find(text, separator, 0);
    if i == -1 then [text] else [text[..i]] + Split(text[i + |separator|..], separator)
  }

  // ----- newlines -----

  /** Both `re.sub("\r\n?", "\n")` and what reading a file in text mode does to its newlines. */
  function UnixNewlines(s: string): string
    decreases |s|
  {
    if s == "" then ""
    else if s[0] == '\r' then
      "\n" + UnixNewlines(if |s| > 1 && s[1] == '\n' then s[2..] else s[1..])
    else [s[0]] + UnixNewlines(s[1..])
  }

  /** "\r\n" and "\r" become one "\n" each, everything else stays. */
  lemma NewlineMeans(c: char, rest: string)
    ensures UnixNewlines("\r\n" + rest) == "\n" + UnixNewlines(rest)
    ensures rest == "" || rest[0] != '\n' ==> UnixNewlines("\r" + rest) == "\n" + UnixNewlines(rest)
    ensures c != '\r' ==> UnixNewlines([c] + rest) == [c] + UnixNewlines(rest)
    ensures UnixNewlines("") == ""
  {
    var both, one := "\r\n" + rest, "\r" + rest;
    assert both[2..] == rest && one[1..] == rest && ([c] + rest)[1..] == rest;
  }

  lemma {:induction false} UnixNewlinesExact(raw: string)
    ensures |UnixNewlines(raw)| <= |raw|
    ensures UnixNewlines(raw) == raw <==> '\r' !in raw
    ensures '\r' !in UnixNewlines(raw)
    decreases |raw|
  {
    if raw != "" {
      if raw[0] == '\r' {
        var rest := if |raw| > 1 && raw[1] == '\n' then raw[2..] else raw[1..];
        UnixNewlinesExact(rest);
        assert UnixNewlines(raw)[0] == '\n';
      } else {
        UnixNewlinesExact(raw[1..]);
        assert raw == [raw[0]] + raw[1..];
      }
    }
  }
}
