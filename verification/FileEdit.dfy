/** The unique-match edit of the `write_file` tool, on a file's text as it was read. */
module FileEdit {
  import opened Common
  import opened Text

  const MAX_WRITE_FILE_BYTES := 1_048_576

  function Utf8Width(c: char): nat {
    if (c as int) < 0x80 then 1 else if (c as int) < 0x800 then 2 else if (c as int) < 0x1_0000 then 3 else 4
  }

  function ContentSize(s: string): nat {
    if s == "" then 0 else Utf8Width(s[0]) + ContentSize(s[1..])
  }

  // ----- occurrences -----

  /** The scan's answer: occurrences from left to right that do not overlap one another, such that
      every occurrence begins inside one of them. */
  ghost predicate IsScan(text: string, needle: string, positions: seq<nat>) {
    && (forall i :: 0 <= i < |positions| ==> OccursAt(text, needle, positions[i]))
    && (forall i, j :: 0 <= i < j < |positions| ==> positions[i] + |needle| <= positions[j])
    && (forall k: nat :: OccursAt(text, needle, k) ==> CoveredBy(positions, |needle|, k))
  }

  ghost predicate CoveredBy(positions: seq<nat>, length: nat, k: nat) {
    exists i :: 0 <= i < |positions| && positions[i] <= k < positions[i] + length
  }

  /** The scan so far: every occurrence that begins before `start` is dealt with. */
  ghost predicate ScannedTo(text: string, needle: string, start: nat, positions: seq<nat>) {
    && (forall i :: 0 <= i < |positions| ==> OccursAt(text, needle, positions[i]) && positions[i] + |needle| <= start)
    && (forall i, j :: 0 <= i < j < |positions| ==> positions[i] + |needle| <= positions[j])
    && (forall k: nat :: k < start && OccursAt(text, needle, k) ==> CoveredBy(positions, |needle|, k))
  }

  lemma ScanStep(text: string, needle: string, start: nat, positions: seq<nat>, index: nat)
    requires ScannedTo(text, needle, start, positions)
    requires start <= index && OccursAt(text, needle, index)
    requires forall k: nat :: start <= k < index ==> !OccursAt(text, needle, k)
    ensures ScannedTo(text, needle, index + |needle|, positions + [index])
  {
    hide OccursAt, CoveredBy;
    var more := positions + [index];
    forall k: nat | k < index + |needle| && OccursAt(text, needle, k) ensures CoveredBy(more, |needle|, k) {
      CoverMore(positions, |needle|, index, k);
    }
  }

  lemma CoverMore(positions: seq<nat>, length: nat, index: nat, k: nat)
    requires CoveredBy(positions, length, k) || index <= k < index + length
    ensures CoveredBy(positions + [index], length, k)
  {
    var more := positions + [index];
    if i :| 0 <= i < |positions| && positions[i] <= k < positions[i] + length {
      assert more[i] == positions[i];
    } else {
      assert more[|positions|] == index;
    }
  }

  lemma ScanEnd(text: string, needle: string, start: nat, positions: seq<nat>)
    requires ScannedTo(text, needle, start, positions)
    requires forall k: nat :: start <= k ==> !OccursAt(text, needle, k)
    ensures IsScan(text, needle, positions)
  {
    hide OccursAt, CoveredBy;
  }

  method FindOldContentPositions(text: string, oldContent: string) returns (positions: seq<nat>)
    requires oldContent != ""
    ensures IsScan(text, oldContent, positions)
  {
    hide ScannedTo, IsScan;
    positions := [];
    var start := 0;
    assert ScannedTo(text, oldContent, 0, []) by { NothingScanned(text, oldContent); }
    while true
      invariant start <= |text| && ScannedTo(text, oldContent, start, positions)
      decreases |text| - start
    {
      var index := Find(text, oldContent, start);
      if index == -1 {
        ScanEnd(text, oldContent, start, positions);
        break;
      }
      ScanStep(text, oldContent, start, positions, index);
      positions := positions + [index];
      start := index + |oldContent|;
    }
  }

  lemma NothingScanned(text: string, needle: string)
    ensures ScannedTo(text, needle, 0, [])
  {
  }

  /** `p` is an occurrence, and every other occurrence begins after it and overlaps it. */
  ghost predicate Dominates(text: string, needle: string, p: nat) {
    && OccursAt(text, needle, p)
    && forall k: nat :: OccursAt(text, needle, k) ==> p <= k < p + |needle|
  }

  /** The scan finds exactly one position if and only if some occurrence dominates all others. */
  lemma ScanUnique(text: string, needle: string, positions: seq<nat>)
    requires needle != "" && IsScan(text, needle, positions)
    ensures |positions| == 1 <==> exists p: nat :: Dominates(text, needle, p)
    ensures |positions| == 1 ==> Dominates(text, needle, positions[0])
    ensures positions == [] <==> forall k: nat :: !OccursAt(text, needle, k)
  {
    hide OccursAt;
    if |positions| == 1 {
      forall k: nat | OccursAt(text, needle, k) ensures positions[0] <= k < positions[0] + |needle| {
        assert CoveredBy(positions, |needle|, k);
      }
      assert Dominates(text, needle, positions[0]);
    }
    assert |positions| >= 2 ==>
             && OccursAt(text, needle, positions[0]) && OccursAt(text, needle, positions[1])
             && positions[0] + |needle| <= positions[1];
    if p: nat :| Dominates(text, needle, p) {
      assert CoveredBy(positions, |needle|, p);
    }
    forall k: nat | OccursAt(text, needle, k) ensures positions != [] {
      assert CoveredBy(positions, |needle|, k);
    }
    if positions != [] {
      assert OccursAt(text, needle, positions[0]);
    }
  }

  // ----- lines -----

  function Newlines(s: string): nat {
    if s == "" then 0 else (if s[0] == '\n' then 1 else 0) + Newlines(s[1..])
  }

  /** The 1-based line of the character at `index`. */
  function LineNumberAt(text: string, index: nat): (r: nat)
    requires index <= |text|
    ensures r >= 1
  {
    Newlines(text[..index]) + 1
  }

  function LineCount(content: string): nat {
    if content == "" then 0 else Max(|SplitLines(content)|, 1)
  }

  function EndLine(startLine: nat, content: string): int {
    if LineCount(content) == 0 then startLine - 1 else startLine + LineCount(content) - 1
  }

  lemma {:induction false} NewlinesAppend(a: string, b: string)
    ensures Newlines(a + b) == Newlines(a) + Newlines(b)
  {
    if a == "" {
      assert a + b == b;
    } else {
      NewlinesAppend(a[1..], b);
      assert (a + b)[1..] == a[1..] + b;
    }
  }

  lemma {:induction false} NoNewlines(s: string)
    requires forall i :: 0 <= i < |s| ==> s[i] != '\n'
    ensures Newlines(s) == 0
  {
    if s != "" {
      NoNewlines(s[1..]);
    }
  }

  /** A line break before the last character that is not a "\n" and not part of a "\r\n". */
  predicate BareBreakAt(s: string, i: nat)
    requires i < |s|
  {
    i < |s| - 1 && IsLineBreak(s[i]) && s[i] != '\n' && !(s[i] == '\r' && s[i + 1] == '\n')
  }

  ghost predicate HasBareBreak(s: string) {
    exists i :: 0 <= i < |s| && BareBreakAt(s, i)
  }

  predicate PlainBreak(brk: string) {
    brk == "\n" || brk == "\r\n"
  }

  /** A line of text, its line break, and what follows. */
  predicate LineParts(line: string, brk: string, rest: string) {
    && (forall i :: 0 <= i < |line| ==> !IsLineBreak(line[i]))
    && (brk == "\r\n" || (|brk| == 1 && IsLineBreak(brk[0]) && !(brk == "\r" && rest != "" && rest[0] == '\n')))
  }

  lemma FirstLineParts(s: string) returns (line: string, brk: string)
    requires LineLength(s) < |s|
    ensures s == line + (brk + AfterFirstLine(s)) && LineParts(line, brk, AfterFirstLine(s))
  {
    hide IsLineBreak;
    var n := LineLength(s);
    var w := BreakWidth(s, n);
    line, brk := s[..n], s[n..n + w];
    assert brk == if w == 2 then [s[n], s[n + 1]] else [s[n]];
  }

  lemma BreakNewlines(brk: string)
    requires |brk| == 1 || brk == "\r\n"
    ensures Newlines(brk) == if PlainBreak(brk) then 1 else 0
  {
    assert |brk| == 1 ==> brk[1..] == "";
    assert brk == "\r\n" ==> brk[1..] == "\n" && "\n"[1..] == "";
  }

  /** Counting the "\n" before the last character, one line at a time. */
  lemma NewlinesFirstLine(line: string, brk: string, rest: string)
    requires LineParts(line, brk, rest)
    ensures var s := line + (brk + rest);
            Newlines(s[..|s| - 1]) ==
              if rest == "" then 0 else (if PlainBreak(brk) then 1 else 0) + Newlines(rest[..|rest| - 1])
  {
    hide IsLineBreak, PlainBreak, Newlines;
    NewlineBreaks();
    var s := line + (brk + rest);
    NoNewlines(line);
    if rest == "" {
      assert s == line + brk;
      NoNewlines(s[..|s| - 1]);
    } else {
      assert s[..|s| - 1] == line + (brk + rest[..|rest| - 1]);
      NewlinesAppend(line, brk + rest[..|rest| - 1]);
      NewlinesAppend(brk, rest[..|rest| - 1]);
      BreakNewlines(brk);
    }
  }

  /** Bare breaks are either the first line's own break or behind it. */
  lemma BareBreaksFirstLine(line: string, brk: string, rest: string)
    requires LineParts(line, brk, rest)
    ensures HasBareBreak(line + (brk + rest)) <==> rest != "" && (!PlainBreak(brk) || HasBareBreak(rest))
  {
    hide IsLineBreak;
    NewlineBreaks();
    var s := line + (brk + rest);
    var at := |line| + |brk|;
    assert forall i :: 0 <= i < |rest| ==> s[at + i] == rest[i];
    if i :| 0 <= i < |rest| && BareBreakAt(rest, i) {
      assert BareBreakAt(s, at + i);
    }
    if rest != "" && !PlainBreak(brk) {
      assert s[|line|] == brk[0] && s[at] == rest[0];
      assert BareBreakAt(s, |line|);
    }
    if i :| 0 <= i < |s| && BareBreakAt(s, i) {
      if i >= at {
        assert rest[i - at] == s[i] && rest[i - at + 1] == s[i + 1];
        assert BareBreakAt(rest, i - at);
      }
    }
  }

  lemma NewlineBreaks()
    ensures IsLineBreak('\n') && IsLineBreak('\r')
  {
  }

  /** `splitlines` counts one line more than there are "\n" before the last character, plus one for
      every bare break. */
  lemma {:induction false} LinesAndNewlines(s: string)
    requires s != ""
    ensures |SplitLines(s)| >= 1 + Newlines(s[..|s| - 1])
    ensures |SplitLines(s)| == 1 + Newlines(s[..|s| - 1]) <==> !HasBareBreak(s)
    decreases |s|
  {
    hide IsLineBreak, PlainBreak, HasBareBreak, AfterFirstLine, SplitLines, Newlines, LineLength, LineParts;
    var n := LineLength(s);
    if n == |s| {
      OneLine(s);
      NoBreaks(s);
    } else {
      var rest := AfterFirstLine(s);
      LinesFirstLine(s);
      var line, brk := FirstLineParts(s);
      NewlinesFirstLine(line, brk, rest);
      BareBreaksFirstLine(line, brk, rest);
      if rest != "" {
        LinesAndNewlines(rest);
      }
    }
  }

  lemma LinesFirstLine(s: string)
    requires LineLength(s) < |s|
    ensures |SplitLines(s)| == 1 + |SplitLines(AfterFirstLine(s))|
  {
    hide LineLength, AfterFirstLine;
  }

  lemma OneLine(s: string)
    requires s != "" && LineLength(s) == |s|
    ensures SplitLines(s) == [s]
  {
    hide IsLineBreak, BreakWidth, LineLength;
  }

  lemma NoBreaks(s: string)
    requires s != "" && LineLength(s) == |s|
    ensures Newlines(s[..|s| - 1]) == 0 && !HasBareBreak(s)
  {
    hide IsLineBreak;
    NewlineBreaks();
    NoNewlines(s[..|s| - 1]);
  }

  /** The reported end line of the replaced text is the line of its last character if and only if
      the text has no bare line break before that character. */
  lemma EndLineExact(text: string, p: nat, content: string)
    requires content != "" && OccursAt(text, content, p)
    ensures EndLine(LineNumberAt(text, p), content) >= LineNumberAt(text, p + |content| - 1)
    ensures EndLine(LineNumberAt(text, p), content) == LineNumberAt(text, p + |content| - 1)
            <==> !HasBareBreak(content)
  {
    hide HasBareBreak, Newlines, SplitLines;
    LinesAndNewlines(content);
    EmptyLines(content);
    var last := p + |content| - 1;
    assert content == text[p..p + |content|];
    assert text[..last] == text[..p] + content[..|content| - 1];
    NewlinesAppend(text[..p], content[..|content| - 1]);
  }

  /** A reported end line that is wrong: the text has a line separator (U+2028), so two lines are
      counted, but no "\n", so its last character is in line 1. */
  lemma WrongEndLine()
    ensures var text := "a\U{2028}b";
            && OccursAt(text, text, 0) && EndLine(LineNumberAt(text, 0), text) == 2
            && LineNumberAt(text, |text| - 1) == 1
  {
    hide SplitLines;
    var text := "a\U{2028}b";
    assert LineLength(text) == 1;
    LinesFirstLine(text);
    assert AfterFirstLine(text) == "b";
    assert LineLength("b") == 1;
    OneLine("b");
    NoNewlines(text[..2]);
    assert text[..0] == "" && text[0..3] == text;
  }

  lemma EmptyLines(content: string)
    requires content != ""
    ensures SplitLines(content) != []
  {
  }

  // ----- the edit -----

  datatype Edit = Edit(
    updated: string, index: nat,
    oldStartLine: int, oldEndLine: int, oldContent: string,
    newStartLine: int, newEndLine: int)

  function Splice(text: string, index: nat, length: nat, content: string): string
    requires index + length <= |text|
  {
    text[..index] + content + text[index + length..]
  }

  const REQUIRED := "old_content is required when modifying an existing file"
  const NO_MATCH := "old_content does not match current file; reread before writing"
  const AMBIGUOUS := "old_content is ambiguous; provide a more specific old_content"
  const TOO_LARGE := "content is too large; maximum write size is 1MB"

  /** An edit of a non-empty file is accepted at `p`. */
  ghost predicate AcceptedAt(current: string, content: string, oldContent: string, p: nat) {
    && oldContent != "" && Dominates(current, oldContent, p)
    && ContentSize(Splice(current, p, |oldContent|, content)) <= MAX_WRITE_FILE_BYTES
  }

  method ModifyExistingFile(current: string, content: string, oldContent: Option<string>) returns (r: Result<Edit>)
    ensures current == "" ==>
              && (r.Ok? <==> ContentSize(content) <= MAX_WRITE_FILE_BYTES)
              && (r.Ok? ==> r.value == Edit(content, 0, 1, 0, "", 1, EndLine(1, content)))
    ensures current != "" ==>
              (r.Ok? <==> oldContent.Some? && exists p: nat :: AcceptedAt(current, content, oldContent.value, p))
    ensures current != "" && r.Ok? ==>
              var p := r.value.index;
              AcceptedAt(current, content, oldContent.value, p) &&
              var start := LineNumberAt(current, p);
              r.value == Edit(Splice(current, p, |oldContent.value|, content), p,
                                 start, EndLine(start, oldContent.value), oldContent.value,
                                 start, EndLine(start, content))
    ensures r.Ok? ==> ContentSize(r.value.updated) <= 1_048_576
    ensures current == "" && r.Err? ==> r.message == TOO_LARGE && ContentSize(content) > 1_048_576
    ensures current != "" && r == Err(TOO_LARGE) ==>
              oldContent.Some?
              && (exists p: nat :: Dominates(current, oldContent.value, p)
                                   && ContentSize(Splice(current, p, |oldContent.value|, content)) > 1_048_576)
    ensures current != "" && r.Err? ==>
              r.message ==
                if oldContent.None? || oldContent.value == "" then REQUIRED
                else if forall k: nat :: !OccursAt(current, oldContent.value, k) then NO_MATCH
                else if !exists p: nat :: Dominates(current, oldContent.value, p) then AMBIGUOUS
                else TOO_LARGE
  {
    hide EndLine, ContentSize, LineNumberAt;
    if current == "" {
      if ContentSize(content) > MAX_WRITE_FILE_BYTES {
        return Err(TOO_LARGE);
      }
      return Ok(Edit(content, 0, 1, 0, "", 1, EndLine(1, content)));
    }
    if oldContent.None? || oldContent.value == "" {
      return Err(REQUIRED);
    }
    var wanted := oldContent.value;
    var positions := FindOldContentPositions(current, wanted);
    ScanUnique(current, wanted, positions);
    if positions == [] {
      return Err(NO_MATCH);
    }
    if |positions| > 1 {
      return Err(AMBIGUOUS);
    }
    var p := positions[0];
    OnlyOne(current, wanted, p);
    var start := LineNumberAt(current, p);
    var updated := Splice(current, p, |wanted|, content);
    if ContentSize(updated) > MAX_WRITE_FILE_BYTES {
      return Err(TOO_LARGE);
    }
    assert AcceptedAt(current, content, wanted, p);
    r := Ok(Edit(updated, p, start, EndLine(start, wanted), wanted, start, EndLine(start, content)));
  }

  lemma OnlyOne(text: string, needle: string, p: nat)
    requires Dominates(text, needle, p)
    ensures forall q: nat :: Dominates(text, needle, q) ==> q == p
  {
  }

  /** What an accepted edit does to the file: an occurrence that every other occurrence overlaps is
      replaced, everything before and behind it stays, and splicing the old text back at the same
      place restores the file. */
  lemma EditIsReversible(current: string, content: string, oldContent: string, p: nat)
    requires AcceptedAt(current, content, oldContent, p)
    ensures var updated := Splice(current, p, |oldContent|, content);
            && |updated| == |current| - |oldContent| + |content|
            && updated[..p] == current[..p]
            && OccursAt(updated, content, p)
            && updated[p + |content|..] == current[p + |oldContent|..]
            && Splice(updated, p, |content|, oldContent) == current
  {
    var updated := Splice(current, p, |oldContent|, content);
    assert current[p..p + |oldContent|] == oldContent;
    assert Splice(updated, p, |content|, oldContent) == current[..p] + oldContent + current[p + |oldContent|..];
  }

  // ----- the reported numbers -----

  /** Lines are counted from 1 on, and every "\n" begins a new one. */
  lemma LineCounted(text: string, index: nat)
    requires index < |text|
    ensures LineNumberAt(text, 0) == 1
    ensures LineNumberAt(text, index + 1) == LineNumberAt(text, index) + (if text[index] == '\n' then 1 else 0)
  {
    assert text[..index + 1] == text[..index] + [text[index]] && [text[index]][1..] == "" && text[..0] == "";
    NewlinesAppend(text[..index], [text[index]]);
  }

  /** The lines reported for the new content are those it has in the updated text: it starts in the line
      of the replaced text, its end line is right exactly without a bare break, and a deletion ends
      one line before it starts. */
  lemma NewLinesExact(current: string, content: string, oldContent: string, p: nat)
    requires AcceptedAt(current, content, oldContent, p)
    ensures var updated, start := Splice(current, p, |oldContent|, content), LineNumberAt(current, p);
            && p + |content| <= |updated| && LineNumberAt(updated, p) == start
            && (content == "" ==> EndLine(start, content) == start - 1)
            && (content != "" ==>
                  (EndLine(start, content) == LineNumberAt(updated, p + |content| - 1) <==> !HasBareBreak(content)))
  {
    hide ContentSize, Newlines, HasBareBreak, SplitLines;
    EditIsReversible(current, content, oldContent, p);
    var updated := Splice(current, p, |oldContent|, content);
    assert updated[..p] == current[..p];
    if content != "" {
      EndLineExact(updated, p, content);
    }
  }

  // ----- UTF-8 -----

  /** The bytes of a character (section 3 of RFC 3629). */
  function Utf8(c: char): (bytes: seq<int>) {
    var n := c as int;
    if n < 0x80 then [n]
    else if n < 0x800 then [0xc0 + n / 64, 0x80 + n % 64]
    else if n < 0x1_0000 then [0xe0 + n / 4096, 0x80 + n / 64 % 64, 0x80 + n % 64]
    else [0xf0 + n / 262144, 0x80 + n / 4096 % 64, 0x80 + n / 64 % 64, 0x80 + n % 64]
  }

  function Utf8All(s: string): seq<int> {
    if s == "" then [] else Utf8(s[0]) + Utf8All(s[1..])
  }

  /** The number that the bytes of one character stand for: seven bits, or five, four or three bits of the
      first byte and six of each other one. */
  function Utf8Value(bytes: seq<int>): int
    requires 1 <= |bytes| <= 4
  {
    if |bytes| == 1 then bytes[0]
    else if |bytes| == 2 then (bytes[0] - 0xc0) * 64 + (bytes[1] - 0x80)
    else if |bytes| == 3 then (bytes[0] - 0xe0) * 4096 + (bytes[1] - 0x80) * 64 + (bytes[2] - 0x80)
    else (bytes[0] - 0xf0) * 262144 + (bytes[1] - 0x80) * 4096 + (bytes[2] - 0x80) * 64 + (bytes[3] - 0x80)
  }

  lemma Utf8Exact(c: char)
    ensures var bytes := Utf8(c);
            && |bytes| == Utf8Width(c) && Utf8Value(bytes) == c as int
            && forall i :: 0 <= i < |bytes| ==> 0 <= bytes[i] < 256 && (i > 0 ==> 0x80 <= bytes[i] < 0xc0)
  {
    Sixes(c as int);
  }

  lemma Sixes(n: nat)
    ensures n == n / 64 * 64 + n % 64 && n / 64 / 64 == n / 4096 && n / 64 / 64 / 64 == n / 262144
  {
  }

  /** The size of a content is the number of its bytes in UTF-8. */
  lemma {:induction false} SizeIsBytes(s: string)
    ensures ContentSize(s) == |Utf8All(s)|
  {
    hide Utf8, Utf8Width;
    if s != "" {
      Utf8Exact(s[0]);
      SizeIsBytes(s[1..]);
    }
  }

  // ----- the file itself -----

  /** A file is read with "\r\n" and "\r" turned into "\n" and written back as it stands. So splicing
      the old text back restores the file itself if and only if the file has no "\r". */
  lemma FileRestored(raw: string, content: string, oldContent: string, p: nat)
    requires AcceptedAt(UnixNewlines(raw), content, oldContent, p)
    ensures var written := Splice(UnixNewlines(raw), p, |oldContent|, content);
            && p + |content| <= |written|
            && (Splice(written, p, |content|, oldContent) == raw <==> '\r' !in raw)
  {
    hide Dominates, ContentSize, UnixNewlines;
    assert OccursAt(UnixNewlines(raw), oldContent, p) by { DominatesOccurs(UnixNewlines(raw), oldContent, p); }
    EditIsReversible(UnixNewlines(raw), content, oldContent, p);
    UnixNewlinesExact(raw);
  }

  lemma DominatesOccurs(text: string, needle: string, p: nat)
    requires Dominates(text, needle, p)
    ensures OccursAt(text, needle, p)
  {
  }
}
