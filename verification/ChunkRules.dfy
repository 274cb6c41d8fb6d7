/** The pieces of the splitter, each determined by what it does to any text. */
module ChunkRules {
  import opened Common
  import opened Text
  import opened Chunker

  // ----- splitting -----

  function JoinWith(pieces: seq<string>, separator: string): string {
    if pieces == [] then ""
    else if |pieces| == 1 then pieces[0]
    else pieces[0] + separator + JoinWith(pieces[1..], separator)
  }

  /** The pieces of a text have no separator in them, and joined with it they are the text. */
  lemma {:induction false} SplitExact(text: string, separator: string)
    requires separator != ""
    ensures var pieces := Split(text, separator);
            && JoinWith(pieces, separator) == text
            && forall i, k: nat :: 0 <= i < |pieces| ==> !OccursAt(pieces[i], separator, k)
    decreases |text|
  {
    hide OccursAt, Find;
    var i := Find(text, separator, 0);
    if i == -1 {
      assert Split(text, separator) == [text];
    } else {
      var rest := text[i + |separator|..];
      SplitExact(rest, separator);
      assert Split(text, separator) == [text[..i]] + Split(rest, separator);
      FoundSeparator(text, separator, i);
      NoneBefore(text, separator, i);
    }
  }

  lemma NoneBefore(text: string, separator: string, i: nat)
    requires separator != "" && i <= |text| && forall k: nat :: OccursAt(text, separator, k) ==> i <= k
    ensures forall k: nat :: !OccursAt(text[..i], separator, k)
  {
    forall k: nat ensures !OccursAt(text[..i], separator, k) {
      if OccursAt(text[..i], separator, k) {
        assert text[..i][k..k + |separator|] == text[k..k + |separator|];
        assert OccursAt(text, separator, k);
      }
    }
  }

  /** The parts of a split, one piece at a time: a blank piece goes with the separator behind it; the
      others stay, all but the last one with the separator at their end. */
  lemma PartsExact(piece: string, more: seq<string>, separator: string)
    ensures Parts([piece] + more, separator) ==
            if Blank(piece) then Parts(more, separator)
            else if more == [] then [piece]
            else [piece + separator] + Parts(more, separator)
    ensures Parts([], separator) == []
  {
    hide Strip, Blank;
    StripBlank(piece);
    if more == [] {
      LastPart(piece, separator);
      assert [piece] + more == [piece];
    } else {
      PartsCons(piece, more, separator);
    }
  }

  /** Cutting into slices of exactly the chunk size, white space around each slice removed, blank ones
      left out. */
  lemma FixedExact(l: Limits, text: string)
    ensures |text| <= l.chunkSize ==>
              FixedLengthSplit(l, text) == if Blank(text) then [] else [Strip(text)]
    ensures |text| > l.chunkSize ==>
              FixedLengthSplit(l, text) == (if Blank(text[..l.chunkSize]) then [] else [Strip(text[..l.chunkSize])])
                                           + FixedLengthSplit(l, text[l.chunkSize..])
  {
    hide Strip, Blank;
    if text == "" {
      StripBlank("");
      EmptyBlank();
    } else {
      StripBlank(text[..Min(l.chunkSize, |text|)]);
      if |text| <= l.chunkSize {
        assert text[..|text|] == text && text[|text|..] == "";
        assert FixedLengthSplit(l, "") == [];
      }
    }
  }

  lemma EmptyBlank()
    ensures Blank("")
  {
  }

  // ----- merging -----

  /** The parts without white space around them, blank ones left out. */
  function Kept(parts: seq<string>): seq<string> {
    if parts == [] then []
    else
      var last := parts[|parts| - 1];
      Kept(parts[..|parts| - 1]) + if Blank(last) then [] else [Strip(last)]
  }

  function Flat(groups: seq<seq<string>>): seq<string> {
    if groups == [] then [] else Flat(groups[..|groups| - 1]) + groups[|groups| - 1]
  }

  /** A group is as long as it can be: it was undersized before its last part came, and it is not
      undersized, or the first part of the next group does not fit. */
  ghost predicate Greedy(l: Limits, groups: seq<seq<string>>) {
    && (forall g :: 0 <= g < |groups| ==> groups[g] != [])
    && (forall g :: 0 <= g < |groups| && |groups[g]| > 1 ==>
          |Concat(groups[g][..|groups[g]| - 1])| < l.minChunkSize && |Concat(groups[g])| <= l.chunkSize)
    && (forall g :: 0 <= g < |groups| - 1 ==> GroupEnds(l, groups[g], groups[g + 1]))
  }

  ghost predicate GroupEnds(l: Limits, group: seq<string>, next: seq<string>) {
    next != [] && (|Concat(group)| >= l.minChunkSize || |Concat(group)| + |next[0]| > l.chunkSize)
  }

  ghost predicate GroupsOf(chunks: seq<string>, groups: seq<seq<string>>) {
    |chunks| == |groups| && forall g :: 0 <= g < |chunks| ==> chunks[g] == Concat(groups[g])
  }

  /** Merging puts parts together greedily, from left to right: exactly these groups, in order. */
  lemma {:induction false} MergeGroups(l: Limits, parts: seq<string>) returns (groups: seq<seq<string>>)
    requires WithinSize(l, parts)
    ensures Flat(groups) == Kept(parts) && Greedy(l, groups) && GroupsOf(MergeAll(l, parts), groups)
  {
    hide Strip, Blank, Concat, Greedy, GroupsOf;
    if parts == [] {
      groups := [];
      NoGroups(l);
    } else {
      var init, last := parts[..|parts| - 1], parts[|parts| - 1];
      var before := MergeGroups(l, init);
      StripBlank(last);
      if Strip(last) == "" {
        groups := before;
        assert Kept(parts) == Kept(init) + [] == Kept(init);
      } else {
        groups := NextGroup(l, MergeAll(l, init), before, Strip(last));
        StripTwice(last);
        assert MergeAll(l, parts) == MergeStep(l, MergeAll(l, init), last);
      }
    }
  }

  lemma NoGroups(l: Limits)
    ensures Flat([]) == [] && Greedy(l, []) && GroupsOf([], [])
  {
  }

  lemma NextGroup(l: Limits, chunks: seq<string>, before: seq<seq<string>>, part: string)
    returns (groups: seq<seq<string>>)
    requires Greedy(l, before) && GroupsOf(chunks, before) && |part| <= l.chunkSize
    ensures Flat(groups) == Flat(before) + [part] && Greedy(l, groups)
    ensures GroupsOf(if chunks == [] then [part]
                     else if |chunks[|chunks| - 1]| < l.minChunkSize
                             && |chunks[|chunks| - 1]| + |part| <= l.chunkSize then
                       chunks[..|chunks| - 1] + [chunks[|chunks| - 1] + part]
                     else chunks + [part], groups)
  {
    hide Concat, Greedy;
    var n := |before|;
    if n > 0 && |chunks[n - 1]| < l.minChunkSize && |chunks[n - 1]| + |part| <= l.chunkSize {
      groups := JoinGroup(l, chunks, before, part);
    } else {
      ConcatOne(part);
      groups := before + [[part]];
      assert groups[..n] == before;
      NewGroup(l, before, part);
    }
  }

  lemma NewGroup(l: Limits, before: seq<seq<string>>, part: string)
    requires Greedy(l, before)
    requires before != [] ==> |Concat(before[|before| - 1])| >= l.minChunkSize
                              || |Concat(before[|before| - 1])| + |part| > l.chunkSize
    ensures Greedy(l, before + [[part]])
  {
    hide Concat;
    var groups := before + [[part]];
    forall g | 0 <= g < |groups| - 1 ensures GroupEnds(l, groups[g], groups[g + 1]) {
      assert g + 1 < |before| ==> GroupEnds(l, before[g], before[g + 1]);
    }
  }

  lemma JoinGroup(l: Limits, chunks: seq<string>, before: seq<seq<string>>, part: string)
    returns (groups: seq<seq<string>>)
    requires Greedy(l, before) && GroupsOf(chunks, before) && before != [] && |chunks| == |before|
    requires |Concat(before[|before| - 1])| < l.minChunkSize && |Concat(before[|before| - 1])| + |part| <= l.chunkSize
    ensures Flat(groups) == Flat(before) + [part] && Greedy(l, groups)
    ensures GroupsOf(chunks[..|chunks| - 1] + [chunks[|chunks| - 1] + part], groups)
  {
    hide Concat, Greedy, GroupsOf;
    var n := |before|;
    var longer := before[n - 1] + [part];
    groups := before[..n - 1] + [longer];
    assert groups[..n - 1] == before[..n - 1] && groups[n - 1] == longer;
    assert Flat(before) == Flat(before[..n - 1]) + before[n - 1];
    assert Flat(groups) == Flat(before[..n - 1]) + longer;
    LongerGroup(l, before, part);
    JoinedChunk(chunks, before, part);
  }

  lemma JoinedChunk(chunks: seq<string>, before: seq<seq<string>>, part: string)
    requires GroupsOf(chunks, before) && before != []
    ensures GroupsOf(chunks[..|chunks| - 1] + [chunks[|chunks| - 1] + part],
                     before[..|before| - 1] + [before[|before| - 1] + [part]])
  {
    hide Concat;
    ConcatAppend(before[|before| - 1], [part]);
    ConcatOne(part);
  }

  lemma LongerGroup(l: Limits, before: seq<seq<string>>, part: string)
    requires Greedy(l, before) && before != []
    requires |Concat(before[|before| - 1])| < l.minChunkSize && |Concat(before[|before| - 1])| + |part| <= l.chunkSize
    ensures Greedy(l, before[..|before| - 1] + [before[|before| - 1] + [part]])
  {
    hide Concat;
    var n := |before|;
    var longer := before[n - 1] + [part];
    var groups := before[..n - 1] + [longer];
    ConcatAppend(before[n - 1], [part]);
    ConcatOne(part);
    assert longer[..|longer| - 1] == before[n - 1];
    forall g | 0 <= g < n - 1 ensures GroupEnds(l, groups[g], groups[g + 1]) {
      assert GroupEnds(l, before[g], before[g + 1]);
      assert groups[g + 1][0] == before[g + 1][0];
    }
  }

  /** At the end an undersized last chunk goes to its predecessor if it fits there. */
  lemma MergeEnds(l: Limits, parts: seq<string>, front: seq<string>, a: string, b: string)
    ensures MergeAll(l, parts) == front + [a, b] ==>
              MergeSmall(l, parts) == if |b| < l.minChunkSize && |a + b| <= l.chunkSize then front + [a + b]
                                      else front + [a, b]
    ensures |MergeAll(l, parts)| <= 1 ==> MergeSmall(l, parts) == MergeAll(l, parts)
  {
    hide MergeAll;
    assert (front + [a, b])[..|front|] == front;
  }

  // ----- line breaks -----

  function Breaks(n: nat): (r: string)
    ensures |r| == n && forall i :: 0 <= i < n ==> r[i] == '\n'
  {
    seq(n, i => '\n')
  }

  /** Runs of line breaks: every maximal run of three or more becomes one of two, shorter ones stay. */
  lemma CollapseExact(n: nat, rest: string)
    requires n > 0 && (rest != "" ==> rest[0] != '\n')
    ensures CollapseNewlines(Breaks(n) + rest) == Breaks(Min(n, 2)) + CollapseNewlines(rest)
    ensures rest != "" ==> CollapseNewlines(rest) == [rest[0]] + CollapseNewlines(rest[1..])
    ensures CollapseNewlines("") == ""
  {
    var s := Breaks(n) + rest;
    RunLength(s, n);
    assert s[n..] == rest && s[..n] == Breaks(n);
    assert Breaks(2) == "\n\n";
    assert n == 1 ==> Breaks(n) == "\n";
  }

  lemma {:induction false} RunLength(s: string, n: nat)
    requires n <= |s| && (forall i :: 0 <= i < n ==> s[i] == '\n') && (n < |s| ==> s[n] != '\n')
    ensures NewlineRun(s) == n
  {
    if n > 0 {
      RunLength(s[1..], n - 1);
    }
  }

  ghost predicate Triple(s: string) {
    exists i :: 0 <= i < |s| - 2 && s[i] == s[i + 1] == s[i + 2] == '\n'
  }

  lemma {:induction false} CollapsedNoTriple(s: string)
    ensures !Triple(CollapseNewlines(s))
    ensures s != "" && s[0] != '\n' ==> CollapseNewlines(s) != "" && CollapseNewlines(s)[0] == s[0]
    decreases |s|
  {
    if s != "" {
      var n := NewlineRun(s);
      if n > 0 {
        NextAfterRun(s);
        CollapsedNoTriple(s[n..]);
        PrefixNoTriple(if n >= 3 then "\n\n" else s[..n], CollapseNewlines(s[n..]));
        EmptyCollapsed();
      } else {
        CollapsedNoTriple(s[1..]);
        CharNoTriple(s[0], CollapseNewlines(s[1..]));
      }
    }
  }

  lemma EmptyCollapsed()
    ensures CollapseNewlines("") == ""
  {
  }

  lemma {:induction false} NextAfterRun(s: string)
    ensures NewlineRun(s) < |s| ==> s[NewlineRun(s)] != '\n'
  {
    if s != "" && s[0] == '\n' {
      NextAfterRun(s[1..]);
    }
  }

  lemma PrefixNoTriple(front: string, rest: string)
    requires |front| <= 2 && !Triple(rest) && (rest != "" ==> rest[0] != '\n')
    ensures !Triple(front + rest)
  {
    var s := front + rest;
    assert forall i :: |front| <= i < |s| ==> s[i] == rest[i - |front|];
    if i :| 0 <= i < |s| - 2 && s[i] == s[i + 1] == s[i + 2] == '\n' {
      if i >= |front| {
        assert rest[i - |front|] == rest[i - |front| + 1] == rest[i - |front| + 2] == '\n';
      }
    }
  }

  lemma CharNoTriple(c: char, rest: string)
    requires c != '\n' && !Triple(rest)
    ensures !Triple([c] + rest)
  {
    var s := [c] + rest;
    forall i | 0 <= i < |s| - 2 ensures !(s[i] == s[i + 1] == s[i + 2] == '\n') {
      if i > 0 {
        assert !(rest[i - 1] == rest[i] == rest[i + 1] == '\n');
      }
    }
  }

  lemma {:induction false} NothingCollapsed(s: string)
    requires !Triple(s)
    ensures CollapseNewlines(s) == s
    decreases |s|
  {
    if s != "" {
      assert !(|s| >= 3 && s[0] == s[1] == s[2] == '\n');
      var k := if s[0] == '\n' then NewlineRun(s) else 1;
      TailNoTriple(s, k);
      NothingCollapsed(s[k..]);
      assert s == s[..k] + s[k..];
    }
  }

  lemma TailNoTriple(s: string, k: nat)
    requires k <= |s| && !Triple(s)
    ensures !Triple(s[k..])
  {
    var t := s[k..];
    if i :| 0 <= i < |t| - 2 && t[i] == t[i + 1] == t[i + 2] == '\n' {
      assert s[k + i] == s[k + i + 1] == s[k + i + 2] == '\n';
    }
  }

  /** The text that is split has no three line breaks in a row; a text without "\r", without such a run
      and without white space at its ends is taken as it is. */
  lemma NormalizedExact(text: string)
    ensures !Triple(NormalizeText(text))
    ensures !Triple(text) && '\r' !in text && Trimmed(text) ==> NormalizeText(text) == text
  {
    hide Strip, UnixNewlines, Trimmed, Triple, CollapseNewlines;
    CollapsedNoTriple(Strip(UnixNewlines(text)));
    UnixNewlinesExact(text);
    if !Triple(text) && '\r' !in text && Trimmed(text) {
      StripTrimmed(text);
      NothingCollapsed(text);
    }
  }

  // ----- the order of separators -----

  const IN_ORDER := ["\n\n", "\n", "。", ".", "！", "!", "？", "?"]

  /** A text is split at the first separator, in this order, that splits it, unless it fits into a chunk
      when its turn has come for a later one than the first. */
  lemma {:induction false} SplitsAtFirst(l: Limits, text: string, from: nat, at: nat)
    requires from <= at < 8 && Strip(text) == text != ""
    requires forall j :: from <= j < at ==> |Parts(Split(text, IN_ORDER[j]), IN_ORDER[j])| == 1
    requires from < at ==> |text| > l.chunkSize
    requires |Parts(Split(text, IN_ORDER[at]), IN_ORDER[at])| != 1
    ensures Recursive(l, text, from) == MergeSmall(l, Refine(l, Parts(Split(text, IN_ORDER[at]), IN_ORDER[at]), at))
    decreases at - from
  {
    hide Strip, Parts, Split, MergeSmall, Refine;
    assert SEPARATORS[from] == IN_ORDER[from];
    if from < at {
      SplitsAtFirst(l, text, from + 1, at);
    }
  }

  // ----- limits -----

  /** The limits a service works with: the overlap stays below the chunk size, the minimum within it, and
      configured values that do so already are taken as they are. */
  lemma LimitsFit(size: Positive, overlap: int, minimum: int)
    ensures var l := MakeLimits(size, overlap, minimum);
            && l.chunkSize == size && l.chunkOverlap < size && l.minChunkSize <= size
            && (overlap < size ==> l.chunkOverlap == overlap) && (overlap >= size ==> l.chunkOverlap == size - 1)
            && (minimum <= size ==> l.minChunkSize == minimum) && (minimum > size ==> l.minChunkSize == size)
  {
  }
}
