/** The recursive text splitter of the retrieval service. */
module Chunker {
  import opened Common
  import opened Text

  const SEPARATORS: seq<string> := ["\n\n", "\n", "。", ".", "！", "!", "？", "?"]

  type Positive = n: int | n > 0 witness 1

  /** The service's three limits; the last two are cut down to the first on construction. */
  datatype Limits = Limits(chunkSize: Positive, chunkOverlap: int, minChunkSize: int)

  function MakeLimits(chunkSize: Positive, chunkOverlap: int, minChunkSize: int): Limits {
    Limits(chunkSize, Min(chunkOverlap, Max(0, chunkSize - 1)), Min(minChunkSize, chunkSize))
  }

  // ----- specification functions -----

  /** What remains of the pieces: blank ones go, the others keep their separator. */
  function Parts(pieces: seq<string>, separator: string): seq<string> {
    if pieces == [] then []
    else
      (if Strip(pieces[0]) == "" then []
       else if |pieces| > 1 then [pieces[0] + separator]
       else [pieces[0]])
      + Parts(pieces[1..], separator)
  }

  function Slice(l: Limits, text: string): (r: string)
    ensures text != "" ==> r != ""
    ensures r <= text && |r| <= l.chunkSize
  {
    text[..Min(l.chunkSize, |text|)]
  }

  function FixedLengthSplit(l: Limits, text: string): seq<string>
    decreases |text|
  {
    if text == "" then []
    else
      var head := Slice(l, text);
      (if Strip(head) == "" then [] else [Strip(head)]) + FixedLengthSplit(l, text[|head|..])
  }

  function MergeStep(l: Limits, chunks: seq<string>, rawPart: string): seq<string> {
    var part := Strip(rawPart);
    if part == "" then chunks
    else if |part| > l.chunkSize then chunks + FixedLengthSplit(l, part)
    else if chunks == [] then [part]
    else
      var previous := chunks[|chunks| - 1];
      if |previous| < l.minChunkSize && |previous| + |part| <= l.chunkSize then
        chunks[..|chunks| - 1] + [previous + part]
      else chunks + [part]
  }

  function MergeAll(l: Limits, parts: seq<string>): seq<string> {
    if parts == [] then [] else MergeStep(l, MergeAll(l, parts[..|parts| - 1]), parts[|parts| - 1])
  }

  function MergeTail(l: Limits, chunks: seq<string>): seq<string> {
    var n := |chunks|;
    if n > 1 && |chunks[n - 1]| < l.minChunkSize && |chunks[n - 2]| + |chunks[n - 1]| <= l.chunkSize then
      chunks[..n - 2] + [chunks[n - 2] + chunks[n - 1]]
    else chunks
  }

  function MergeSmall(l: Limits, parts: seq<string>): seq<string> {
    MergeTail(l, MergeAll(l, parts))
  }

  function Recursive(l: Limits, rawText: string, index: nat): seq<string>
    requires index <= |SEPARATORS|
    decreases |SEPARATORS| - index, 1, 0
  {
    var text := Strip(rawText);
    if text == "" then []
    else if index == |SEPARATORS| then
      if |text| <= l.chunkSize then [text] else FixedLengthSplit(l, text)
    else
      var parts := Parts(Split(text, SEPARATORS[index]), SEPARATORS[index]);
      if |parts| == 1 then
        if |text| <= l.chunkSize then [text] else Recursive(l, text, index + 1)
      else MergeSmall(l, Refine(l, parts, index))
  }

  /** Parts that are too long are split again at the next separator. */
  function Refine(l: Limits, parts: seq<string>, index: nat): seq<string>
    requires index < |SEPARATORS|
    decreases |SEPARATORS| - index, 0, |parts|
  {
    if parts == [] then []
    else
      var last := parts[|parts| - 1];
      Refine(l, parts[..|parts| - 1], index)
      + if |last| > l.chunkSize then Recursive(l, last, index + 1) else [last]
  }

  /** Chunk `k` with the end of its predecessor in front, as far as there is room. */
  function Overlapped(l: Limits, chunks: seq<string>, k: nat): string
    requires k < |chunks|
  {
    var room := l.chunkSize - |chunks[k]|;
    if l.chunkOverlap > 0 && k > 0 && room > 0 then
      var previous := chunks[k - 1];
      var wanted := Min(l.chunkOverlap, room);
      previous[if wanted <= |previous| then |previous| - wanted else 0..] + chunks[k]
    else chunks[k]
  }

  /** Number of "\n" at the front. */
  function NewlineRun(s: string): (n: nat)
    ensures n <= |s| && forall i :: 0 <= i < n ==> s[i] == '\n'
  {
    if s == "" || s[0] != '\n' then 0 else 1 + NewlineRun(s[1..])
  }

  /** `re.sub("\n{3,}", "\n\n")`. */
  function CollapseNewlines(s: string): string
    decreases |s|
  {
    if s == "" then ""
    else
      var n := NewlineRun(s);
      if n >= 3 then "\n\n" + CollapseNewlines(s[n..])
      else if n > 0 then s[..n] + CollapseNewlines(s[n..])
      else [s[0]] + CollapseNewlines(s[1..])
  }

  function NormalizeText(text: string): string {
    CollapseNewlines(Strip(UnixNewlines(text)))
  }

  /** The chunks before overlaps are added. */
  function BaseChunks(l: Limits, text: string): seq<string> {
    Recursive(l, NormalizeText(text), 0)
  }

  // ----- content conservation -----

  predicate IsMark(c: char) {
    c == '。' || c == '.' || c == '！' || c == '!' || c == '？' || c == '?'
  }

  function EraseOne(c: char, marks: bool): string {
    if IsSpace(c) || (marks && IsMark(c)) then "" else [c]
  }

  /** The text without white space, and without the six punctuation separators if asked. */
  function Erase(s: string, marks: bool): string {
    if s == "" then "" else EraseOne(s[0], marks) + Erase(s[1..], marks)
  }

  function Concat(chunks: seq<string>): string {
    if chunks == [] then "" else chunks[0] + Concat(chunks[1..])
  }

  /** `a` can be obtained from `b` by deleting characters. */
  predicate Subsequence(a: string, b: string) {
    || a == ""
    || (b != "" && ((a[0] == b[0] && Subsequence(a[1..], b[1..])) || Subsequence(a, b[1..])))
  }

  /** Nothing but white space and separator marks got lost, and nothing was added or moved. */
  ghost predicate Conserves(chunks: seq<string>, text: string) {
    && Erase(Concat(chunks), true) == Erase(text, true)
    && Subsequence(Erase(Concat(chunks), false), Erase(text, false))
  }

  lemma Associative(a: string, b: string, c: string)
    ensures a + (b + c) == a + b + c
  {
  }

  lemma {:induction false} EraseAppend(a: string, b: string, marks: bool)
    ensures Erase(a + b, marks) == Erase(a, marks) + Erase(b, marks)
  {
    hide EraseOne;
    if a == "" {
      assert a + b == b;
    } else {
      EraseAppend(a[1..], b, marks);
      assert (a + b)[1..] == a[1..] + b;
      Associative(EraseOne(a[0], marks), Erase(a[1..], marks), Erase(b, marks));
    }
  }

  lemma {:induction false} EraseBlank(s: string, marks: bool)
    requires Blank(s)
    ensures Erase(s, marks) == ""
  {
    hide IsSpace, IsMark;
    if s != "" {
      assert IsSpace(s[0]);
      EraseBlank(s[1..], marks);
    }
  }

  lemma EraseStrip(s: string, marks: bool)
    ensures Erase(Strip(s), marks) == Erase(s, marks)
  {
    hide IsSpace, Strip, Trimmed;
    var i, j := StripShape(s);
    EraseBlank(s[..i], marks);
    EraseBlank(s[j..], marks);
    EraseAppend(s[..i], s[i..], marks);
    EraseAppend(s[i..j], s[j..], marks);
    assert s == s[..i] + s[i..] && s[i..] == s[i..j] + s[j..];
  }

  lemma EraseSeparator(index: nat)
    requires index < |SEPARATORS|
    ensures Erase(SEPARATORS[index], true) == ""
  {
    var s := SEPARATORS[index];
    assert s[1..] == "" || s[1..] == "\n";
  }

  lemma {:induction false} SubsequenceSelf(a: string)
    ensures Subsequence(a, a)
  {
    if a != "" {
      SubsequenceSelf(a[1..]);
    }
  }

  lemma {:induction false} SubsequencePrepend(x: string, a: string, b: string)
    requires Subsequence(a, b)
    ensures Subsequence(a, x + b)
  {
    if x == "" {
      assert x + b == b;
    } else {
      SubsequencePrepend(x[1..], a, b);
      assert (x + b)[1..] == x[1..] + b;
    }
  }

  lemma {:induction false} SubsequenceAppend(a: string, b: string, c: string, d: string)
    requires Subsequence(a, b) && Subsequence(c, d)
    ensures Subsequence(a + c, b + d)
    decreases |b|
  {
    if a == "" {
      assert a + c == c;
      SubsequencePrepend(b, c, d);
    } else {
      assert (b + d)[1..] == b[1..] + d;
      assert (a + c)[1..] == a[1..] + c;
      if a[0] == b[0] && Subsequence(a[1..], b[1..]) {
        SubsequenceAppend(a[1..], b[1..], c, d);
      } else {
        SubsequenceAppend(a, b[1..], c, d);
      }
    }
  }

  lemma {:induction false} SubsequenceTrans(a: string, b: string, c: string)
    requires Subsequence(a, b) && Subsequence(b, c)
    ensures Subsequence(a, c)
    decreases |c|
  {
    if a != "" {
      if b[0] == c[0] && Subsequence(b[1..], c[1..]) {
        if a[0] == b[0] && Subsequence(a[1..], b[1..]) {
          SubsequenceTrans(a[1..], b[1..], c[1..]);
        } else {
          SubsequenceTrans(a, b[1..], c[1..]);
        }
      } else {
        SubsequenceTrans(a, b, c[1..]);
      }
    }
  }

  lemma {:induction false} ConcatAppend(a: seq<string>, b: seq<string>)
    ensures Concat(a + b) == Concat(a) + Concat(b)
  {
    if a == [] {
      assert a + b == b;
    } else {
      ConcatAppend(a[1..], b);
      assert (a + b)[1..] == a[1..] + b;
      Associative(a[0], Concat(a[1..]), Concat(b));
    }
  }

  lemma ConcatOne(s: string)
    ensures Concat([s]) == s
  {
  }

  lemma ConservesAppend(a: seq<string>, s: string, b: seq<string>, t: string)
    requires Conserves(a, s) && Conserves(b, t)
    ensures Conserves(a + b, s + t)
  {
    hide Erase, Subsequence, Concat;
    ConcatAppend(a, b);
    EraseAppend(Concat(a), Concat(b), true);
    EraseAppend(Concat(a), Concat(b), false);
    EraseAppend(s, t, true);
    EraseAppend(s, t, false);
    SubsequenceAppend(Erase(Concat(a), false), Erase(s, false), Erase(Concat(b), false), Erase(t, false));
  }

  lemma ConservesTrans(a: seq<string>, b: seq<string>, text: string)
    requires Conserves(a, Concat(b)) && Conserves(b, text)
    ensures Conserves(a, text)
  {
    hide Erase, Subsequence, Concat;
    SubsequenceTrans(Erase(Concat(a), false), Erase(Concat(b), false), Erase(text, false));
  }

  /** Texts with the same visible characters are interchangeable. */
  lemma ConservesSame(a: seq<string>, s: string, t: string)
    requires Conserves(a, s) && Erase(s, true) == Erase(t, true) && Erase(s, false) == Erase(t, false)
    ensures Conserves(a, t)
  {
  }

  lemma ConservesOne(s: string, text: string)
    requires Erase(s, true) == Erase(text, true) && Erase(s, false) == Erase(text, false)
    ensures Conserves([s], text)
  {
    ConcatOne(s);
    SubsequenceSelf(Erase(text, false));
  }

  lemma ConservesStripped(text: string)
    ensures Conserves([Strip(text)], text)
  {
    EraseStrip(text, true);
    EraseStrip(text, false);
    ConservesOne(Strip(text), text);
  }

  lemma ConservesNone(text: string)
    requires Erase(text, true) == ""
    ensures Conserves([], text)
  {
  }

  lemma {:induction false} PartsConserve(text: string, index: nat)
    requires index < |SEPARATORS|
    ensures Conserves(Parts(Split(text, SEPARATORS[index]), SEPARATORS[index]), text)
    decreases |text|
  {
    hide Erase, Strip, Conserves, Parts, OccursAt, Find;
    var separator := SEPARATORS[index];
    var i := Find(text, separator, 0);
    if i == -1 {
      LastPart(text, separator);
      PieceConserves(text, "", index);
      assert text + "" == text;
    } else {
      var piece, rest := text[..i], text[i + |separator|..];
      PartsConserve(rest, index);
      PieceConserves(piece, separator, index);
      PartsCons(piece, Split(rest, separator), separator);
      ConservesAppend(if Strip(piece) == "" then [] else [piece + separator], piece + separator,
                      Parts(Split(rest, separator), separator), rest);
      assert text == piece + separator + rest by {
        FoundSeparator(text, separator, i);
      }
    }
  }

  lemma FoundSeparator(text: string, separator: string, i: nat)
    requires OccursAt(text, separator, i)
    ensures text == text[..i] + separator + text[i + |separator|..]
  {
  }

  lemma LastPart(piece: string, separator: string)
    ensures Parts([piece], separator) == if Strip(piece) == "" then [] else [piece]
  {
    hide Strip;
    assert [piece][1..] == [];
  }

  lemma PartsCons(piece: string, pieces: seq<string>, separator: string)
    requires pieces != []
    ensures Parts([piece] + pieces, separator)
         == (if Strip(piece) == "" then [] else [piece + separator]) + Parts(pieces, separator)
  {
    hide Strip;
    assert ([piece] + pieces)[1..] == pieces;
  }

  /** A blank piece may be dropped together with its separator, any other piece stays. */
  lemma PieceConserves(piece: string, tail: string, index: nat)
    requires index < |SEPARATORS| && (tail == "" || tail == SEPARATORS[index])
    ensures Conserves(if Strip(piece) == "" then [] else [piece + tail], piece + tail)
  {
    hide IsSpace, Strip;
    if Strip(piece) == "" {
      StripBlank(piece);
      EraseBlank(piece, true);
      EraseAppend(piece, tail, true);
      EraseSeparator(index);
      ConservesNone(piece + tail);
    } else {
      ConservesOne(piece + tail, piece + tail);
    }
  }

  lemma {:induction false} FixedConserves(l: Limits, text: string)
    ensures Conserves(FixedLengthSplit(l, text), text)
    decreases |text|
  {
    hide Erase, Strip, Conserves;
    if text == "" {
      NothingConserved();
    } else {
      var head := Slice(l, text);
      FixedConserves(l, text[|head|..]);
      StrippedPart(head);
      var first := if Strip(head) == "" then [] else [Strip(head)];
      ConservesAppend(first, head, FixedLengthSplit(l, text[|head|..]), text[|head|..]);
      assert text == head + text[|head|..];
    }
  }

  lemma NothingConserved()
    ensures Conserves([], "")
  {
  }

  lemma StrippedPart(part: string)
    ensures Conserves(if Strip(part) == "" then [] else [Strip(part)], part)
  {
    hide IsSpace, Strip;
    if Strip(part) == "" {
      StripBlank(part);
      EraseBlank(part, true);
      ConservesNone(part);
    } else {
      ConservesStripped(part);
    }
  }

  lemma MergeStepConserves(l: Limits, chunks: seq<string>, part: string, text: string)
    requires Conserves(chunks, text)
    ensures Conserves(MergeStep(l, chunks, part), text + part)
  {
    hide Erase, Strip, Conserves, FixedLengthSplit;
    var p := Strip(part);
    StrippedPart(part);
    if p == "" {
      ConservesAppend(chunks, text, [], part);
      assert chunks + [] == chunks;
    } else if |p| > l.chunkSize {
      FixedConserves(l, p);
      ConcatOne(p);
      ConservesTrans(FixedLengthSplit(l, p), [p], part);
      ConservesAppend(chunks, text, FixedLengthSplit(l, p), part);
    } else {
      ConservesAppend(chunks, text, [p], part);
      if chunks == [] {
        assert chunks + [p] == [p];
      } else {
        assert chunks[..|chunks| - 1] + [chunks[|chunks| - 1], p] == chunks + [p];
        JoinLastTwo(chunks[..|chunks| - 1], chunks[|chunks| - 1], p, text + part);
      }
    }
  }

  lemma JoinLastTwo(chunks: seq<string>, a: string, b: string, text: string)
    requires Conserves(chunks + [a, b], text)
    ensures Conserves(chunks + [a + b], text)
  {
    ConcatAppend(chunks, [a, b]);
    ConcatAppend(chunks, [a + b]);
    assert [a, b][1..] == [b];
    ConcatOne(b);
    ConcatOne(a + b);
  }

  lemma {:induction false} MergeConserves(l: Limits, parts: seq<string>)
    ensures Conserves(MergeAll(l, parts), Concat(parts))
  {
    hide Erase, Conserves, MergeStep;
    if parts == [] {
      NothingConserved();
    } else {
      var init, last := parts[..|parts| - 1], parts[|parts| - 1];
      MergeConserves(l, init);
      MergeStepConserves(l, MergeAll(l, init), last, Concat(init));
      ConcatAppend(init, [last]);
      ConcatOne(last);
      assert parts == init + [last];
    }
  }

  lemma MergeSmallConserves(l: Limits, parts: seq<string>)
    ensures Conserves(MergeSmall(l, parts), Concat(parts))
  {
    hide Erase, Conserves, MergeAll;
    MergeConserves(l, parts);
    var chunks := MergeAll(l, parts);
    var n := |chunks|;
    if n > 1 {
      assert chunks[..n - 2] + [chunks[n - 2], chunks[n - 1]] == chunks;
      JoinLastTwo(chunks[..n - 2], chunks[n - 2], chunks[n - 1], Concat(parts));
    }
  }

  lemma {:induction false} RecursiveConserves(l: Limits, rawText: string, index: nat)
    requires index <= |SEPARATORS|
    ensures Conserves(Recursive(l, rawText, index), rawText)
    decreases |SEPARATORS| - index, 1, 0
  {
    hide Erase, Strip, Conserves, Concat, Parts, Split, MergeSmall, Refine;
    var text := Strip(rawText);
    StrippedPart(rawText);
    ConcatOne(text);
    if text == "" {
    } else if index == |SEPARATORS| {
      FixedConserves(l, text);
      ConservesTrans(FixedLengthSplit(l, text), [text], rawText);
    } else {
      var parts := Parts(Split(text, SEPARATORS[index]), SEPARATORS[index]);
      if |parts| == 1 {
        RecursiveConserves(l, text, index + 1);
        ConservesTrans(Recursive(l, text, index + 1), [text], rawText);
      } else {
        PartsConserve(text, index);
        RefineConserves(l, parts, index);
        MergeSmallConserves(l, Refine(l, parts, index));
        ConservesTrans(MergeSmall(l, Refine(l, parts, index)), Refine(l, parts, index), Concat(parts));
        ConservesTrans(MergeSmall(l, Refine(l, parts, index)), parts, text);
        ConservesTrans(MergeSmall(l, Refine(l, parts, index)), [text], rawText);
      }
    }
  }

  lemma {:induction false} RefineConserves(l: Limits, parts: seq<string>, index: nat)
    requires index < |SEPARATORS|
    ensures Conserves(Refine(l, parts, index), Concat(parts))
    decreases |SEPARATORS| - index, 0, |parts|
  {
    hide Erase, Conserves, Concat, Recursive;
    if parts == [] {
      NothingJoined();
    } else {
      var init, last := parts[..|parts| - 1], parts[|parts| - 1];
      RefineConserves(l, init, index);
      RecursiveConserves(l, last, index + 1);
      ConservesOne(last, last);
      ConservesAppend(Refine(l, init, index), Concat(init),
                      if |last| > l.chunkSize then Recursive(l, last, index + 1) else [last], last);
      ConcatAppend(init, [last]);
      ConcatOne(last);
      assert parts == init + [last];
    }
  }

  lemma NothingJoined()
    ensures Conserves([], Concat([]))
  {
  }

  lemma {:induction false} UnixNewlinesErase(s: string, marks: bool)
    ensures Erase(UnixNewlines(s), marks) == Erase(s, marks)
    decreases |s|
  {
    if s != "" {
      if s[0] == '\r' {
        var rest := if |s| > 1 && s[1] == '\n' then s[2..] else s[1..];
        UnixNewlinesErase(rest, marks);
        assert ("\n" + UnixNewlines(rest))[1..] == UnixNewlines(rest);
        assert |s| > 1 && s[1] == '\n' ==> s[1..][1..] == rest;
      } else {
        UnixNewlinesErase(s[1..], marks);
        assert ([s[0]] + UnixNewlines(s[1..]))[1..] == UnixNewlines(s[1..]);
      }
    }
  }

  lemma {:induction false} CollapseErase(s: string, marks: bool)
    ensures Erase(CollapseNewlines(s), marks) == Erase(s, marks)
    decreases |s|
  {
    hide EraseOne;
    if s != "" {
      var n := NewlineRun(s);
      if n > 0 {
        var front := if n >= 3 then "\n\n" else s[..n];
        CollapseErase(s[n..], marks);
        NewlinesBlank(front);
        NewlinesBlank(s[..n]);
        EraseBlank(front, marks);
        EraseBlank(s[..n], marks);
        EraseAppend(front, CollapseNewlines(s[n..]), marks);
        EraseAppend(s[..n], s[n..], marks);
        assert s == s[..n] + s[n..];
      } else {
        CollapseErase(s[1..], marks);
        assert ([s[0]] + CollapseNewlines(s[1..]))[1..] == CollapseNewlines(s[1..]);
      }
    }
  }

  lemma NewlinesBlank(s: string)
    requires forall i :: 0 <= i < |s| ==> s[i] == '\n'
    ensures Blank(s)
  {
  }

  /** Conservation. Deleting white space and the six separator marks from the chunks, put one after
      the other before overlaps are added, gives what the same deletion makes of the input; deleting
      white space only, the chunks are a subsequence of the input. */
  lemma ChunksConserve(l: Limits, text: string)
    ensures Erase(Concat(BaseChunks(l, text)), true) == Erase(text, true)
    ensures Subsequence(Erase(Concat(BaseChunks(l, text)), false), Erase(text, false))
  {
    hide Erase, Recursive, Strip, Concat;
    var unix := UnixNewlines(text);
    RecursiveConserves(l, NormalizeText(text), 0);
    forall marks: bool ensures Erase(NormalizeText(text), marks) == Erase(text, marks) {
      UnixNewlinesErase(text, marks);
      EraseStrip(unix, marks);
      CollapseErase(Strip(unix), marks);
    }
    ConservesSame(BaseChunks(l, text), NormalizeText(text), text);
  }

  /** Blank pieces that go together with the separator behind them. */
  function Dropped(pieces: seq<string>): nat {
    if |pieces| <= 1 then 0 else (if Strip(pieces[0]) == "" then 1 else 0) + Dropped(pieces[1..])
  }

  lemma {:induction false} SubsequenceLength(a: string, b: string)
    requires Subsequence(a, b)
    ensures |a| <= |b| && (|a| == |b| ==> a == b)
  {
    if a != "" {
      if a[0] == b[0] && Subsequence(a[1..], b[1..]) {
        SubsequenceLength(a[1..], b[1..]);
      } else {
        SubsequenceLength(a, b[1..]);
      }
    }
  }

  lemma EraseMark(index: nat)
    requires 2 <= index < |SEPARATORS|
    ensures |Erase(SEPARATORS[index], false)| == 1
  {
    assert SEPARATORS[index][1..] == "";
  }

  lemma {:induction false} PartsLength(text: string, index: nat)
    requires 2 <= index < |SEPARATORS|
    ensures var pieces := Split(text, SEPARATORS[index]);
            |Erase(Concat(Parts(pieces, SEPARATORS[index])), false)| + Dropped(pieces) == |Erase(text, false)|
    decreases |text|
  {
    hide Erase, Strip, IsSpace;
    var separator := SEPARATORS[index];
    var i := Find(text, separator, 0);
    if i == -1 {
      StripBlank(text);
      if Strip(text) == "" {
        EraseBlank(text, false);
        EraseBlank("", false);
      }
      assert Concat([text]) == text;
    } else {
      var rest := text[i + |separator|..];
      PartsLength(rest, index);
      EraseMark(index);
      assert text == text[..i] + separator + rest;
      EraseAppend(text[..i] + separator, rest, false);
      EraseAppend(text[..i], separator, false);
      StripBlank(text[..i]);
      assert Split(text, separator)[1..] == Split(rest, separator);
      if Strip(text[..i]) == "" {
        EraseBlank(text[..i], false);
        assert Parts(Split(text, separator), separator) == Parts(Split(rest, separator), separator);
      } else {
        assert Parts(Split(text, separator), separator)
            == [text[..i] + separator] + Parts(Split(rest, separator), separator);
        EraseAppend(text[..i] + separator, Concat(Parts(Split(rest, separator), separator)), false);
      }
    }
  }

  /** Exactly when splitting at a punctuation mark loses marks: it keeps every visible character
      if and only if no piece before the last one is blank. */
  lemma MarksKept(text: string, index: nat)
    requires 2 <= index < |SEPARATORS|
    ensures var pieces := Split(text, SEPARATORS[index]);
            Erase(Concat(Parts(pieces, SEPARATORS[index])), false) == Erase(text, false)
            <==> forall i :: 0 <= i < |pieces| - 1 ==> Strip(pieces[i]) != ""
  {
    hide Erase, Strip, Parts, Concat;
    PartsLength(text, index);
    PartsConserve(text, index);
    var pieces := Split(text, SEPARATORS[index]);
    DroppedNone(pieces);
    SubsequenceLength(Erase(Concat(Parts(pieces, SEPARATORS[index])), false), Erase(text, false));
  }

  lemma {:induction false} DroppedNone(pieces: seq<string>)
    ensures Dropped(pieces) == 0 <==> forall i :: 0 <= i < |pieces| - 1 ==> Strip(pieces[i]) != ""
  {
    hide Strip;
    if |pieces| > 1 {
      DroppedNone(pieces[1..]);
      assert forall i :: 1 <= i < |pieces| - 1 ==> pieces[i] == pieces[1..][i - 1];
    }
  }

  // ----- the marks lost by the whole splitter -----

  /** Visible characters that are dropped along the recursion actually taken: at every split at a
      mark, one for every blank piece but the last. */
  function MarksLost(l: Limits, rawText: string, index: nat): nat
    requires index <= |SEPARATORS|
    decreases |SEPARATORS| - index, 1, 0
  {
    var text := Strip(rawText);
    if text == "" || index == |SEPARATORS| then 0
    else
      var pieces := Split(text, SEPARATORS[index]);
      var parts := Parts(pieces, SEPARATORS[index]);
      if |parts| == 1 then
        if |text| <= l.chunkSize then 0 else MarksLost(l, text, index + 1)
      else
        (if index < 2 then 0 else Dropped(pieces)) + MarksLostIn(l, parts, index)
  }

  /** The same for the parts that are split again at the next separator. */
  function MarksLostIn(l: Limits, parts: seq<string>, index: nat): nat
    requires index < |SEPARATORS|
    decreases |SEPARATORS| - index, 0, |parts|
  {
    if parts == [] then 0
    else
      var last := parts[|parts| - 1];
      MarksLostIn(l, parts[..|parts| - 1], index) + if |last| > l.chunkSize then MarksLost(l, last, index + 1) else 0
  }

  /** Visible characters of a list of chunks. */
  function Ink(chunks: seq<string>): nat {
    |Erase(Concat(chunks), false)|
  }

  lemma InkAppend(a: seq<string>, b: seq<string>)
    ensures Ink(a + b) == Ink(a) + Ink(b)
  {
    hide Erase, Concat;
    ConcatAppend(a, b);
    EraseAppend(Concat(a), Concat(b), false);
  }

  lemma InkOne(s: string)
    ensures Ink([s]) == |Erase(s, false)| && Ink([Strip(s)]) == Ink([s])
  {
    hide Erase, Strip;
    ConcatOne(s);
    ConcatOne(Strip(s));
    EraseStrip(s, false);
  }

  lemma InkNone()
    ensures Ink([]) == 0
  {
  }

  /** A stripped part, or nothing for a blank one. */
  lemma InkStripped(part: string)
    ensures Ink(if Strip(part) == "" then [] else [Strip(part)]) == |Erase(part, false)|
  {
    hide Erase, Strip, IsSpace, Ink;
    InkNone();
    InkOne(part);
    if Strip(part) == "" {
      StripBlank(part);
      EraseBlank(part, false);
    }
  }

  lemma {:induction false} FixedInk(l: Limits, text: string)
    ensures Ink(FixedLengthSplit(l, text)) == |Erase(text, false)|
    decreases |text|
  {
    hide Erase, Strip, Ink;
    if text == "" {
      InkNone();
      EraseBlank("", false);
    } else {
      var head := Slice(l, text);
      FixedInk(l, text[|head|..]);
      InkStripped(head);
      InkAppend(if Strip(head) == "" then [] else [Strip(head)], FixedLengthSplit(l, text[|head|..]));
      EraseAppend(head, text[|head|..], false);
      assert text == head + text[|head|..];
    }
  }

  lemma MergeStepInk(l: Limits, chunks: seq<string>, part: string)
    ensures Ink(MergeStep(l, chunks, part)) == Ink(chunks) + |Erase(part, false)|
  {
    hide Erase, Strip, Ink, FixedLengthSplit;
    var p := Strip(part);
    InkStripped(part);
    InkNone();
    InkOne(part);
    if p == "" {
    } else if |p| > l.chunkSize {
      FixedInk(l, p);
      InkOne(p);
      InkAppend(chunks, FixedLengthSplit(l, p));
    } else {
      InkAppend(chunks, [p]);
      if chunks == [] {
        assert chunks + [p] == [p];
      } else {
        InkJoinLast(chunks[..|chunks| - 1], chunks[|chunks| - 1], p);
        assert chunks[..|chunks| - 1] + [chunks[|chunks| - 1], p] == chunks + [p];
      }
    }
  }

  lemma InkJoinLast(chunks: seq<string>, a: string, b: string)
    ensures Ink(chunks + [a + b]) == Ink(chunks + [a, b])
  {
    hide Erase;
    ConcatAppend(chunks, [a, b]);
    ConcatAppend(chunks, [a + b]);
    assert [a, b][1..] == [b];
    ConcatOne(b);
    ConcatOne(a + b);
  }

  lemma {:induction false} MergeInk(l: Limits, parts: seq<string>)
    ensures Ink(MergeAll(l, parts)) == Ink(parts)
  {
    hide Erase, MergeStep, Ink;
    if parts != [] {
      var init, last := parts[..|parts| - 1], parts[|parts| - 1];
      MergeInk(l, init);
      MergeStepInk(l, MergeAll(l, init), last);
      InkAppend(init, [last]);
      InkOne(last);
      assert parts == init + [last];
    }
  }

  lemma MergeSmallInk(l: Limits, parts: seq<string>)
    ensures Ink(MergeSmall(l, parts)) == Ink(parts)
  {
    hide Ink, MergeAll;
    MergeInk(l, parts);
    var chunks := MergeAll(l, parts);
    var n := |chunks|;
    if n > 1 {
      assert chunks[..n - 2] + [chunks[n - 2], chunks[n - 1]] == chunks;
      InkJoinLast(chunks[..n - 2], chunks[n - 2], chunks[n - 1]);
    }
  }

  /** Splitting at a paragraph or line break loses nothing visible. */
  lemma {:induction false} BreaksKeepInk(text: string, index: nat)
    requires index < 2
    ensures Ink(Parts(Split(text, SEPARATORS[index]), SEPARATORS[index])) == |Erase(text, false)|
    decreases |text|
  {
    hide Erase, Strip, Ink, Parts, OccursAt, Find, IsSpace;
    var separator := SEPARATORS[index];
    NewlinesBlank(separator);
    EraseBlank(separator, false);
    var i := Find(text, separator, 0);
    if i == -1 {
      LastPart(text, separator);
      EraseBlank("", false);
      InkPiece(text, "");
      assert text + "" == text;
    } else {
      var piece, rest := text[..i], text[i + |separator|..];
      BreaksKeepInk(rest, index);
      InkPiece(piece, separator);
      PartsCons(piece, Split(rest, separator), separator);
      InkAppend(if Strip(piece) == "" then [] else [piece + separator], Parts(Split(rest, separator), separator));
      EraseAppend(piece + separator, rest, false);
      assert [] + Parts(Split(rest, separator), separator) == Parts(Split(rest, separator), separator);
      assert text == piece + separator + rest by {
        FoundSeparator(text, separator, i);
      }
    }
  }

  lemma InkPiece(piece: string, tail: string)
    requires Erase(tail, false) == ""
    ensures Ink(if Strip(piece) == "" then [] else [piece + tail]) == |Erase(piece + tail, false)|
  {
    hide Erase, Strip, Ink, IsSpace;
    InkNone();
    InkOne(piece + tail);
    EraseAppend(piece, tail, false);
    if Strip(piece) == "" {
      StripBlank(piece);
      EraseBlank(piece, false);
    }
  }

  /** What the parts of one split lose. */
  lemma PartsInk(text: string, index: nat)
    requires index < |SEPARATORS|
    ensures var pieces := Split(text, SEPARATORS[index]);
            Ink(Parts(pieces, SEPARATORS[index])) + (if index < 2 then 0 else Dropped(pieces)) == |Erase(text, false)|
  {
    hide Erase, Parts, Concat, Split;
    if index < 2 {
      BreaksKeepInk(text, index);
    } else {
      PartsLength(text, index);
    }
  }

  lemma {:induction false} RecursiveInk(l: Limits, rawText: string, index: nat)
    requires index <= |SEPARATORS|
    ensures Ink(Recursive(l, rawText, index)) + MarksLost(l, rawText, index) == |Erase(rawText, false)|
    decreases |SEPARATORS| - index, 1, 0
  {
    hide Erase, Strip, Ink, Parts, Split, MergeSmall, Refine, MarksLostIn, Dropped, FixedLengthSplit;
    var text := Strip(rawText);
    InkStripped(rawText);
    InkNone();
    EraseStrip(rawText, false);
    if text == "" {
    } else if index == |SEPARATORS| {
      FixedInk(l, text);
    } else {
      var parts := Parts(Split(text, SEPARATORS[index]), SEPARATORS[index]);
      if |parts| == 1 {
        RecursiveInk(l, text, index + 1);
      } else {
        PartsInk(text, index);
        RefineInk(l, parts, index);
        MergeSmallInk(l, Refine(l, parts, index));
      }
    }
  }

  lemma {:induction false} RefineInk(l: Limits, parts: seq<string>, index: nat)
    requires index < |SEPARATORS|
    ensures Ink(Refine(l, parts, index)) + MarksLostIn(l, parts, index) == Ink(parts)
    decreases |SEPARATORS| - index, 0, |parts|
  {
    hide Ink, Recursive, MarksLost;
    InkNone();
    if parts != [] {
      var init, last := parts[..|parts| - 1], parts[|parts| - 1];
      RefineInk(l, init, index);
      RecursiveInk(l, last, index + 1);
      InkOne(last);
      InkAppend(Refine(l, init, index), if |last| > l.chunkSize then Recursive(l, last, index + 1) else [last]);
      InkAppend(init, [last]);
      assert parts == init + [last];
    }
  }

  /** Exactly how much the splitter loses: the base chunks have as many visible characters as the
      input, less the marks dropped along the recursion; so they have all of them if and only if no
      split at a mark meets a blank piece before its last. */
  lemma MarksLostExactly(l: Limits, text: string)
    ensures var lost := MarksLost(l, NormalizeText(text), 0);
            var kept := Erase(Concat(BaseChunks(l, text)), false);
            && |kept| + lost == |Erase(text, false)|
            && (kept == Erase(text, false) <==> lost == 0)
  {
    hide Erase, Recursive, Strip, Concat, MarksLost;
    RecursiveInk(l, NormalizeText(text), 0);
    ChunksConserve(l, text);
    SubsequenceLength(Erase(Concat(BaseChunks(l, text)), false), Erase(text, false));
    UnixNewlinesErase(text, false);
    EraseStrip(UnixNewlines(text), false);
    CollapseErase(Strip(UnixNewlines(text)), false);
  }

  /** An input that loses a mark: with room for three characters the text is split at its marks, and
      the second of two in a row goes with the blank piece before it. */
  lemma LosesMark()
    ensures var l := Limits(3, 0, 0);
            && MarksLost(l, NormalizeText("a。。b"), 0) == 1
            && Erase(Concat(BaseChunks(l, "a。。b")), false) != Erase("a。。b", false)
  {
    hide Recursive, Erase, Concat, MarksLost, Strip, NormalizeText, BaseChunks, Parts, Split;
    var l := Limits(3, 0, 0);
    var text := "a。。b";
    PlainNormalized();
    PlainTexts();
    NoBreakParts(text, 0);
    NoBreakParts(text, 1);
    PassedOn(l, text, 0);
    PassedOn(l, text, 1);
    LostAtMark(l);
    MarksLostExactly(l, text);
  }

  lemma PassedOn(l: Limits, text: string, index: nat)
    requires index < |SEPARATORS| && Strip(text) == text != "" && |text| > l.chunkSize
    requires Parts(Split(text, SEPARATORS[index]), SEPARATORS[index]) == [text]
    ensures MarksLost(l, text, index) == MarksLost(l, text, index + 1)
  {
    hide Strip, Parts, Split;
  }

  lemma LostAtMark(l: Limits)
    requires l.chunkSize == 3
    ensures MarksLost(l, "a。。b", 2) == 1
  {
    hide Strip, Parts, Split, Dropped;
    MarkedSplit();
    MarkedPieces();
    PlainTexts();
    NoneLong(l, ["a。"], 2);
    NoneLong(l, ["a。", "b"], 2);
    assert SEPARATORS[2] == "。";
  }

  lemma {:induction false} NoneLong(l: Limits, parts: seq<string>, index: nat)
    requires index < |SEPARATORS| && forall i :: 0 <= i < |parts| ==> |parts[i]| <= l.chunkSize
    ensures MarksLostIn(l, parts, index) == 0
  {
    hide MarksLost;
    if parts != [] {
      NoneLong(l, parts[..|parts| - 1], index);
    }
  }

  lemma PlainTexts()
    ensures Strip("") == "" && Strip("a") == "a" && Strip("b") == "b" && Strip("a。。b") == "a。。b"
  {
    StripTrimmed("");
    StripTrimmed("a");
    StripTrimmed("b");
    StripTrimmed("a。。b");
  }

  lemma PlainNormalized()
    ensures NormalizeText("a。。b") == "a。。b"
  {
    var a, b, c := "a。。b", "。。b", "。b";
    assert a[1..] == b && b[1..] == c && c[1..] == "b" && "b"[1..] == "";
    assert UnixNewlines("b") == "b" && CollapseNewlines("b") == "b";
    assert UnixNewlines(c) == c && CollapseNewlines(c) == c;
    assert UnixNewlines(b) == b && CollapseNewlines(b) == b;
    assert UnixNewlines(a) == a && CollapseNewlines(a) == a;
    StripTrimmed(a);
  }

  lemma NoBreakParts(text: string, index: nat)
    requires index < 2 && Strip(text) != "" && forall i :: 0 <= i < |text| ==> text[i] != '\n'
    ensures Parts(Split(text, SEPARATORS[index]), SEPARATORS[index]) == [text]
  {
    hide Strip;
    var separator := SEPARATORS[index];
    assert separator[0] == '\n';
    LastPart(text, separator);
  }

  lemma MarkedSplit()
    ensures Split("a。。b", "。") == ["a", "", "b"]
  {
    var a, b := "a。。b", "。b";
    assert a[0..1] == "a" && a[1..2] == "。" && b[0..1] == "。" && "b"[0..1] == "b";
    assert "a"[0] != "。"[0] && "b"[0] != "。"[0];
    assert OccursAt(a, "。", 1) && !OccursAt(a, "。", 0) && OccursAt(b, "。", 0) && !OccursAt("b", "。", 0);
    hide OccursAt;
    assert Find(a, "。", 0) == 1 && Find(b, "。", 0) == 0 && Find("b", "。", 0) == -1;
    hide Find;
    assert a[..1] == "a" && a[2..] == b && b[..0] == "" && b[1..] == "b";
    assert Split("b", "。") == ["b"];
    assert Split(b, "。") == [""] + ["b"];
  }

  lemma MarkedPieces()
    ensures Parts(["a", "", "b"], "。") == ["a。", "b"] && Dropped(["a", "", "b"]) == 1
  {
    hide Strip, Parts;
    PlainTexts();
    LastPart("b", "。");
    PartsCons("", ["b"], "。");
    PartsCons("a", ["", "b"], "。");
    assert [""] + ["b"] == ["", "b"] && ["a"] + ["", "b"] == ["a", "", "b"];
    assert Parts(["", "b"], "。") == [] + ["b"] == ["b"];
    assert "a" + "。" == "a。" && ["a。"] + ["b"] == ["a。", "b"];
    assert ["a", "", "b"][1..] == ["", "b"] && ["", "b"][1..] == ["b"];
    assert Dropped(["b"]) == 0 && Dropped(["", "b"]) == 1;
  }

  // ----- chunk sizes -----

  ghost predicate Fits(l: Limits, chunk: string) {
    chunk != "" && Trimmed(chunk) && |chunk| <= l.chunkSize
  }

  ghost predicate AllFit(l: Limits, chunks: seq<string>) {
    forall i :: 0 <= i < |chunks| ==> Fits(l, chunks[i])
  }

  lemma StripFits(l: Limits, text: string)
    requires Strip(text) != "" && |Strip(text)| <= l.chunkSize
    ensures Fits(l, Strip(text))
  {
    hide IsSpace;
    var i, j := StripShape(text);
  }

  lemma {:induction false} FixedFits(l: Limits, text: string)
    ensures AllFit(l, FixedLengthSplit(l, text))
    decreases |text|
  {
    hide Strip, Fits;
    if text != "" {
      var head := Slice(l, text);
      FixedFits(l, text[|head|..]);
      StripShorter(head);
      if Strip(head) != "" {
        StripFits(l, head);
      }
    }
  }

  lemma StripShorter(text: string)
    ensures |Strip(text)| <= |text|
  {
  }

  lemma {:induction false} MergeFits(l: Limits, parts: seq<string>)
    ensures AllFit(l, MergeAll(l, parts))
  {
    hide Strip, IsSpace;
    if parts != [] {
      MergeFits(l, parts[..|parts| - 1]);
      var part := parts[|parts| - 1];
      if Strip(part) != "" {
        if |Strip(part)| > l.chunkSize {
          FixedFits(l, Strip(part));
        } else {
          StripFits(l, part);
        }
      }
    }
  }

  lemma MergeSmallFits(l: Limits, parts: seq<string>)
    ensures AllFit(l, MergeSmall(l, parts))
  {
    hide MergeAll, IsSpace;
    MergeFits(l, parts);
  }

  lemma {:induction false} RecursiveFits(l: Limits, rawText: string, index: nat)
    requires index <= |SEPARATORS|
    ensures AllFit(l, Recursive(l, rawText, index))
    decreases |SEPARATORS| - index
  {
    hide Strip, Fits, MergeSmall, Refine, Parts, Split;
    var text := Strip(rawText);
    if text != "" {
      if |text| <= l.chunkSize {
        StripFits(l, rawText);
      }
      if index == |SEPARATORS| {
        FixedFits(l, text);
      } else {
        var parts := Parts(Split(text, SEPARATORS[index]), SEPARATORS[index]);
        if |parts| == 1 {
          RecursiveFits(l, text, index + 1);
        } else {
          MergeSmallFits(l, Refine(l, parts, index));
        }
      }
    }
  }

  /** Sizes and overlaps. Every final chunk is non-blank and at most `chunkSize` long, and is its own
      base chunk behind a suffix of the preceding one: `chunkOverlap` characters, or as many as there
      is room for, or all there are. */
  lemma FinalChunks(l: Limits, text: string, k: nat)
    requires k < |BaseChunks(l, text)|
    ensures var base := BaseChunks(l, text);
            var chunk := Overlapped(l, base, k);
            && 1 <= |chunk| <= l.chunkSize && !Blank(chunk)
            && |base[k]| <= |chunk| && chunk[|chunk| - |base[k]|..] == base[k]
            && var overlap := chunk[..|chunk| - |base[k]|];
               && |overlap| == (if k == 0 || l.chunkOverlap <= 0 then 0
                                else Min(Min(l.chunkOverlap, l.chunkSize - |base[k]|), |base[k - 1]|))
               && (overlap != "" ==> k > 0 && |overlap| <= |base[k - 1]|
                                     && base[k - 1][|base[k - 1]| - |overlap|..] == overlap)
  {
    hide IsSpace, Recursive, Strip;
    RecursiveFits(l, NormalizeText(text), 0);
    var base := BaseChunks(l, text);
    assert Fits(l, base[k]);
    var chunk := Overlapped(l, base, k);
    var front := |chunk| - |base[k]|;
    assert chunk == chunk[..front] + base[k];
    assert chunk[front] == base[k][0];
  }

  // ----- merging is maximal and idempotent -----

  /** The pair of chunk `i` and its successor cannot be merged. */
  ghost predicate Closed(l: Limits, chunks: seq<string>, i: nat)
    requires i + 1 < |chunks|
  {
    |chunks[i]| >= l.minChunkSize || |chunks[i]| + |chunks[i + 1]| > l.chunkSize
  }

  ghost predicate PairsClosed(l: Limits, chunks: seq<string>) {
    forall i :: 0 <= i < |chunks| - 1 ==> Closed(l, chunks, i)
  }

  /** No undersized chunk still fits with its successor, and an undersized last chunk does not fit
      with its predecessor. */
  ghost predicate Maximal(l: Limits, chunks: seq<string>) {
    && PairsClosed(l, chunks)
    && (|chunks| > 1 && |chunks[|chunks| - 1]| < l.minChunkSize ==>
          |chunks[|chunks| - 2]| + |chunks[|chunks| - 1]| > l.chunkSize)
  }

  ghost predicate WithinSize(l: Limits, parts: seq<string>) {
    forall i :: 0 <= i < |parts| ==> |Strip(parts[i])| <= l.chunkSize
  }

  lemma {:induction false} MergeCloses(l: Limits, parts: seq<string>)
    requires WithinSize(l, parts)
    ensures PairsClosed(l, MergeAll(l, parts))
  {
    hide Strip;
    if parts != [] {
      var init := parts[..|parts| - 1];
      MergeCloses(l, init);
      var before, after := MergeAll(l, init), MergeAll(l, parts);
      forall i | 0 <= i < |after| - 1 ensures Closed(l, after, i) {
        if i + 1 < |before| {
          assert Closed(l, before, i);
        }
      }
    }
  }

  /** Merging is maximal. */
  lemma MergeMaximal(l: Limits, parts: seq<string>)
    requires WithinSize(l, parts)
    ensures Maximal(l, MergeSmall(l, parts))
  {
    hide Strip, MergeAll;
    MergeCloses(l, parts);
    var chunks := MergeAll(l, parts);
    var merged := MergeSmall(l, parts);
    if merged != chunks {
      var n := |chunks|;
      assert Closed(l, chunks, n - 2);
      forall i | 0 <= i < |merged| - 1 ensures Closed(l, merged, i) {
        assert Closed(l, chunks, i);
      }
    }
  }

  lemma {:induction false} MergeNothing(l: Limits, chunks: seq<string>)
    requires AllFit(l, chunks) && PairsClosed(l, chunks)
    ensures MergeAll(l, chunks) == chunks
  {
    hide Strip, IsSpace;
    if chunks != [] {
      var init, last := chunks[..|chunks| - 1], chunks[|chunks| - 1];
      forall i | 0 <= i < |init| - 1 ensures Closed(l, init, i) {
        assert Closed(l, chunks, i);
      }
      MergeNothing(l, init);
      assert Fits(l, last);
      StripTrimmed(last);
      if |chunks| > 1 {
        assert Closed(l, chunks, |chunks| - 2);
      }
    }
  }

  /** Merging is idempotent. */
  lemma MergeIdempotent(l: Limits, parts: seq<string>)
    requires WithinSize(l, parts)
    ensures MergeSmall(l, MergeSmall(l, parts)) == MergeSmall(l, parts)
  {
    hide MergeAll, Strip;
    MergeMaximal(l, parts);
    MergeSmallFits(l, parts);
    MergeNothing(l, MergeSmall(l, parts));
  }

  lemma {:induction false} RefineWithin(l: Limits, parts: seq<string>, index: nat)
    requires index < |SEPARATORS|
    ensures WithinSize(l, Refine(l, parts, index))
    decreases |parts|
  {
    hide Recursive, Strip;
    if parts != [] {
      var init, last := parts[..|parts| - 1], parts[|parts| - 1];
      RefineWithin(l, init, index);
      if |last| > l.chunkSize {
        RecursiveFits(l, last, index + 1);
        FitsWithin(l, Recursive(l, last, index + 1));
      } else {
        StripShorter(last);
      }
    }
  }

  lemma FitsWithin(l: Limits, chunks: seq<string>)
    requires AllFit(l, chunks)
    ensures WithinSize(l, chunks)
  {
    hide Strip;
    forall i | 0 <= i < |chunks| ensures |Strip(chunks[i])| <= l.chunkSize {
      assert Fits(l, chunks[i]);
      StripShorter(chunks[i]);
    }
  }

  /** No separator from `index` on splits `text` in two. */
  ghost predicate Unsplittable(text: string, index: nat)
    requires index <= |SEPARATORS|
  {
    forall i :: index <= i < |SEPARATORS| ==> |Parts(Split(text, SEPARATORS[i]), SEPARATORS[i])| == 1
  }

  /** What the splitter returns is maximal, except that a text too long for one chunk which no
      separator splits is cut into slices of `chunkSize`. */
  lemma {:induction false} RecursiveMaximal(l: Limits, rawText: string, index: nat)
    requires index <= |SEPARATORS|
    ensures var chunks := Recursive(l, rawText, index);
            || Maximal(l, chunks)
            || (chunks == FixedLengthSplit(l, Strip(rawText)) && Unsplittable(Strip(rawText), index))
    decreases |SEPARATORS| - index
  {
    hide Strip, Parts, Split, MergeSmall, Refine, FixedLengthSplit;
    var text := Strip(rawText);
    if text != "" && index < |SEPARATORS| {
      var parts := Parts(Split(text, SEPARATORS[index]), SEPARATORS[index]);
      if |parts| == 1 {
        RecursiveMaximal(l, text, index + 1);
        StripTwice(rawText);
      } else {
        RefineWithin(l, parts, index);
        MergeMaximal(l, Refine(l, parts, index));
      }
    }
  }

  lemma StripTwice(text: string)
    ensures Strip(Strip(text)) == Strip(text)
  {
    hide IsSpace, Strip;
    var i, j := StripShape(text);
    StripTrimmed(Strip(text));
  }

  // ----- the loops of the service -----

  method SplitWithSeparator(text: string, separator: string) returns (parts: seq<string>)
    requires separator != ""
    ensures parts == Parts(Split(text, separator), separator)
  {
    hide Strip;
    var pieces := Split(text, separator);
    parts := [];
    for i := 0 to |pieces|
      invariant parts + Parts(pieces[i..], separator) == Parts(pieces, separator)
    {
      assert pieces[i..][1..] == pieces[i + 1..];
      var piece := pieces[i];
      if Strip(piece) != "" {
        var part := piece;
        if i < |pieces| - 1 {
          part := piece + separator;
        }
        parts := parts + [part];
      }
    }
  }

  class RagService {
    const limits: Limits

    constructor (chunkSize: Positive, chunkOverlap: int, minChunkSize: int)
      ensures limits == MakeLimits(chunkSize, chunkOverlap, minChunkSize)
    {
      limits := MakeLimits(chunkSize, chunkOverlap, minChunkSize);
    }

    method MergeSmallChunks(parts: seq<string>) returns (chunks: seq<string>)
      ensures chunks == MergeSmall(limits, parts)
      ensures WithinSize(limits, parts) ==> Maximal(limits, chunks)
    {
      hide Strip, FixedLengthSplit, IsSpace;
      chunks := [];
      for i := 0 to |parts|
        invariant chunks == MergeAll(limits, parts[..i])
      {
        assert parts[..i + 1][..i] == parts[..i];
        var part := Strip(parts[i]);
        if part == "" {
          continue;
        }
        if |part| > limits.chunkSize {
          chunks := chunks + FixedLengthSplit(limits, part);
          continue;
        }
        if chunks == [] {
          chunks := [part];
          continue;
        }
        var previous := chunks[|chunks| - 1];
        var candidate := previous + part;
        if |previous| < limits.minChunkSize && |candidate| <= limits.chunkSize {
          chunks := chunks[..|chunks| - 1] + [candidate];
        } else {
          chunks := chunks + [part];
        }
      }
      assert parts[..|parts|] == parts;
      if WithinSize(limits, parts) {
        MergeMaximal(limits, parts);
      }
      if |chunks| > 1 && |chunks[|chunks| - 1]| < limits.minChunkSize {
        var candidate := chunks[|chunks| - 2] + chunks[|chunks| - 1];
        if |candidate| <= limits.chunkSize {
          chunks := chunks[..|chunks| - 2] + [candidate];
        }
      }
    }

    method RecursiveSplit(rawText: string, index: nat) returns (chunks: seq<string>)
      requires index <= |SEPARATORS|
      ensures chunks == Recursive(limits, rawText, index)
      decreases |SEPARATORS| - index
    {
      hide Strip, FixedLengthSplit, IsSpace, Parts, MergeSmall;
      var text := Strip(rawText);
      if text == "" {
        return [];
      }
      if index >= |SEPARATORS| {
        return if |text| <= limits.chunkSize then [text] else FixedLengthSplit(limits, text);
      }
      var parts := SplitWithSeparator(text, SEPARATORS[index]);
      if |parts| == 1 {
        if |text| <= limits.chunkSize {
          return [text];
        }
        chunks := RecursiveSplit(text, index + 1);
        return;
      }
      chunks := [];
      for i := 0 to |parts|
        invariant chunks == Refine(limits, parts[..i], index)
      {
        assert parts[..i + 1][..i] == parts[..i];
        if |parts[i]| > limits.chunkSize {
          var finer := RecursiveSplit(parts[i], index + 1);
          chunks := chunks + finer;
          continue;
        }
        chunks := chunks + [parts[i]];
      }
      assert parts[..|parts|] == parts;
      chunks := MergeSmallChunks(chunks);
    }

    method AddChunkOverlap(chunks: seq<string>) returns (overlapped: seq<string>)
      ensures |overlapped| == |chunks|
      ensures forall k :: 0 <= k < |chunks| ==> overlapped[k] == Overlapped(limits, chunks, k)
    {
      if limits.chunkOverlap <= 0 {
        return chunks;
      }
      overlapped := [];
      for index := 0 to |chunks|
        invariant |overlapped| == index
        invariant forall k :: 0 <= k < index ==> overlapped[k] == Overlapped(limits, chunks, k)
      {
        var chunk := chunks[index];
        var room := limits.chunkSize - |chunk|;
        if index > 0 && room > 0 {
          var previous := chunks[index - 1];
          var wanted := if limits.chunkOverlap <= room then limits.chunkOverlap else room;
          var overlap := previous[if wanted <= |previous| then |previous| - wanted else 0..];
          chunk := overlap + chunk;
        }
        overlapped := overlapped + [chunk];
      }
    }

    /** The whole splitter. The filter for blank chunks removes nothing. */
    method SplitIntoChunks(text: string) returns (chunks: seq<string>)
      ensures |chunks| == |BaseChunks(limits, text)|
      ensures forall k :: 0 <= k < |chunks| ==> chunks[k] == Overlapped(limits, BaseChunks(limits, text), k)
      ensures forall k :: 0 <= k < |chunks| ==> 1 <= |chunks[k]| <= limits.chunkSize && !Blank(chunks[k])
    {
      hide Strip, IsSpace, Recursive, Overlapped, Blank, Trimmed;
      var base := RecursiveSplit(NormalizeText(text), 0);
      RecursiveFits(limits, NormalizeText(text), 0);
      var kept := [];
      for i := 0 to |base|
        invariant kept == base[..i]
      {
        assert Fits(limits, base[i]);
        StripTrimmed(base[i]);
        if Strip(base[i]) != "" {
          kept := kept + [base[i]];
        }
      }
      assert base[..|base|] == base;
      chunks := AddChunkOverlap(kept);
      forall k | 0 <= k < |chunks| ensures 1 <= |chunks[k]| <= limits.chunkSize && !Blank(chunks[k]) {
        FinalChunks(limits, text, k);
      }
    }
  }
}
