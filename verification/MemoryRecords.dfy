/** Raw conversation records and the bounded text that stands in for a missing summary. */
module MemoryRecords {
  import opened Common
  import opened Text

  datatype Record = Record(sequence: nat, runId: string, createdAt: string, question: string, finalAnswer: string)

  const SOURCE_LIMIT := 10
  const FALLBACK_MAX_CHARS := 6000
  const FIELD_MAX_CHARS := 600

  function Clip(field: string): (r: string)
    ensures |r| <= FIELD_MAX_CHARS
  {
    var stripped := Strip(field);
    if |stripped| <= FIELD_MAX_CHARS then stripped else stripped[..FIELD_MAX_CHARS]
  }

  /** One record as it is shown to the model, both fields clipped. */
  function Entry(record: Record): (r: string)
    ensures 7 <= |r| <= 2 * FIELD_MAX_CHARS + 7
  {
    "用户：" + Clip(record.question) + "\n助手：" + Clip(record.finalAnswer)
  }

  function Entries(records: seq<Record>): (r: seq<string>)
    ensures |r| == |records|
  {
    if records == [] then [] else [Entry(records[0])] + Entries(records[1..])
  }

  lemma {:induction false} EntriesAt(records: seq<Record>, i: nat)
    requires i < |records|
    ensures Entries(records)[i] == Entry(records[i])
  {
    hide Entry;
    if i > 0 {
      EntriesAt(records[1..], i - 1);
    }
  }

  /** Python's `"\n\n".join(entries)`. */
  function JoinParagraphs(entries: seq<string>): string {
    if entries == [] then ""
    else if |entries| == 1 then entries[0]
    else entries[0] + "\n\n" + JoinParagraphs(entries[1..])
  }

  function Reverse(s: seq<string>): (r: seq<string>)
    ensures |r| == |s|
  {
    if s == [] then [] else [s[|s| - 1]] + Reverse(s[..|s| - 1])
  }

  /** The newest `n` entries in order, the oldest of them cut to its first `cut` characters. */
  ghost function Window(entries: seq<string>, n: nat, cut: nat): (r: seq<string>)
    requires 1 <= n <= |entries| && cut <= |entries[|entries| - n]|
    ensures |r| == n
  {
    [entries[|entries| - n][..cut]] + entries[|entries| - n + 1..]
  }

  /** `text` shows the newest `n` of `entries`: it stays within the limit, only the oldest entry
      shown may be cut, and nothing was left out although it would have fitted. */
  ghost predicate Shows(entries: seq<string>, text: string, n: nat, cut: nat) {
    && 1 <= n <= Min(SOURCE_LIMIT, |entries|)
    && 1 <= cut <= |entries[|entries| - n]|
    && text == JoinParagraphs(Window(entries, n, cut))
    && |text| <= FALLBACK_MAX_CHARS
    && (cut < |entries[|entries| - n]| ==> |text| == FALLBACK_MAX_CHARS)
    && (n < Min(SOURCE_LIMIT, |entries|) ==> FALLBACK_MAX_CHARS <= |text| + 2)
  }

  /** `text` is the fallback for `records`. */
  ghost predicate IsFallback(records: seq<Record>, text: string) {
    if records == [] then text == ""
    else exists n: nat, cut: nat :: Shows(Entries(records), text, n, cut)
  }

  /** Putting a cut entry in front of the newest `k` whole ones gives the window of `k + 1`. */
  lemma WindowExtends(entries: seq<string>, k: nat, entry: string)
    requires k < |entries| && entry <= entries[|entries| - 1 - k]
    ensures [entry] + entries[|entries| - k..] == Window(entries, k + 1, |entry|)
    ensures JoinParagraphs([entry] + entries[|entries| - k..])
         == if k == 0 then entry else entry + "\n\n" + JoinParagraphs(entries[|entries| - k..])
  {
    var rest := entries[|entries| - k..];
    assert ([entry] + rest)[1..] == rest;
    assert entries[|entries| - (k + 1)][..|entry|] == entry;
    assert rest == entries[|entries| - (k + 1) + 1..];
  }

  lemma WholeWindow(entries: seq<string>, k: nat)
    requires 1 <= k <= |entries|
    ensures entries[|entries| - k..] == Window(entries, k, |entries[|entries| - k]|)
  {
    var oldest := entries[|entries| - k];
    assert oldest[..|oldest|] == oldest;
    assert entries[|entries| - k..] == [oldest] + entries[|entries| - k + 1..];
  }

  lemma ReverseSnoc(entries: seq<string>, entry: string)
    ensures Reverse(entries + [entry]) == [entry] + Reverse(entries)
  {
    assert (entries + [entry])[..|entries|] == entries;
  }

  function CutTo(entry: string, room: int): (r: string)
    ensures r <= entry && |r| == Max(0, Min(|entry|, room))
  {
    if |entry| <= room then entry else entry[..Max(0, room)]
  }

  /** Length of the joined text, summed in the order in which the entries are collected. */
  function JoinedLength(kept: seq<string>): nat {
    if kept == [] then 0
    else JoinedLength(kept[..|kept| - 1]) + |kept[|kept| - 1]| + if |kept| > 1 then 2 else 0
  }

  lemma JoinedLengthSnoc(kept: seq<string>, entry: string)
    ensures JoinedLength(kept + [entry]) == JoinedLength(kept) + |entry| + if kept == [] then 0 else 2
  {
    assert (kept + [entry])[..|kept|] == kept;
  }

  lemma JoinLength(a: string, rest: seq<string>)
    requires rest != []
    ensures JoinParagraphs([a] + rest) == a + "\n\n" + JoinParagraphs(rest)
  {
    assert ([a] + rest)[1..] == rest;
  }

  lemma {:induction false} JoinedLengthIsLength(kept: seq<string>)
    ensures |JoinParagraphs(Reverse(kept))| == JoinedLength(kept)
  {
    if |kept| > 1 {
      var rest := kept[..|kept| - 1];
      JoinedLengthIsLength(rest);
      JoinLength(kept[|kept| - 1], Reverse(rest));
    }
  }

  /** `kept` holds the newest entries, newest first. */
  ghost predicate Newest(entries: seq<string>, kept: seq<string>) {
    |kept| <= |entries| && forall j :: 0 <= j < |kept| ==> kept[j] == entries[|entries| - 1 - j]
  }

  lemma {:induction false} ReverseNewest(entries: seq<string>, kept: seq<string>)
    requires Newest(entries, kept)
    ensures Reverse(kept) == entries[|entries| - |kept|..]
  {
    if kept != [] {
      ReverseNewest(entries, kept[..|kept| - 1]);
    }
  }

  /** The loop of `FormatRecordFallback` after `i` entries: so far every entry kept is whole. */
  ghost predicate Collected(entries: seq<string>, i: nat, kept: seq<string>, remaining: int) {
    && |kept| <= i <= |entries| && (kept == [] ==> i == 0)
    && Newest(entries, kept)
    && 0 < remaining == FALLBACK_MAX_CHARS - JoinedLength(kept)
    && (|kept| < i ==> remaining <= 2)
  }

  lemma CollectStart(entries: seq<string>)
    ensures Collected(entries, 0, [], FALLBACK_MAX_CHARS)
  {
  }

  function Separator(kept: seq<string>): nat {
    if kept == [] then 0 else 2
  }

  /** No room is left for the entry; that needs a text of at least 5,998 characters. */
  lemma CollectSkip(entries: seq<string>, i: nat, kept: seq<string>, remaining: int)
    requires Collected(entries, i, kept, remaining) && i < |entries|
    requires |entries[|entries| - 1 - i]| >= 7 && remaining <= Separator(kept)
    ensures Collected(entries, i + 1, kept, remaining)
  {
    hide Newest;
  }

  /** An entry that fits as a whole; only possible while all earlier ones did. */
  lemma CollectKeep(entries: seq<string>, i: nat, kept: seq<string>, remaining: int)
    requires Collected(entries, i, kept, remaining) && i < |entries|
    requires var entry := entries[|entries| - 1 - i]; |entry| >= 7 && |entry| + Separator(kept) < remaining
    ensures var entry := entries[|entries| - 1 - i];
            Collected(entries, i + 1, kept + [entry], remaining - |entry| - Separator(kept))
  {
    hide JoinedLength;
    JoinedLengthSnoc(kept, entries[|entries| - 1 - i]);
  }

  /** An entry that uses up the room, cut or not. */
  lemma CollectFull(entries: seq<string>, i: nat, kept: seq<string>, remaining: int, entry: string)
    requires Collected(entries, i, kept, remaining) && i < Min(SOURCE_LIMIT, |entries|)
    requires |entries[|entries| - 1 - i]| >= 7
    requires entry != "" && entry <= entries[|entries| - 1 - i] && |entry| + Separator(kept) == remaining
    ensures Shows(entries, JoinParagraphs(Reverse(kept + [entry])), |kept| + 1, |entry|)
  {
    hide JoinedLength, JoinParagraphs, Reverse, Window;
    JoinedLengthSnoc(kept, entry);
    CollectCut(entries, kept, entry);
  }

  lemma CollectCut(entries: seq<string>, kept: seq<string>, entry: string)
    requires |kept| < |entries| && Newest(entries, kept)
    requires entry <= entries[|entries| - 1 - |kept|]
    ensures JoinParagraphs(Reverse(kept + [entry])) == JoinParagraphs(Window(entries, |kept| + 1, |entry|))
    ensures |JoinParagraphs(Reverse(kept + [entry]))| == JoinedLength(kept + [entry])
  {
    JoinedLengthIsLength(kept + [entry]);
    ReverseSnoc(kept, entry);
    ReverseNewest(entries, kept);
    WindowExtends(entries, |kept|, entry);
  }

  lemma CollectDone(entries: seq<string>, i: nat, kept: seq<string>, remaining: int)
    requires Collected(entries, i, kept, remaining) && i == Min(SOURCE_LIMIT, |entries|) > 0
    requires |entries[|entries| - |kept|]| >= 7
    ensures Shows(entries, JoinParagraphs(Reverse(kept)), |kept|, |entries[|entries| - |kept|]|)
  {
    JoinedLengthIsLength(kept);
    ReverseNewest(entries, kept);
    WholeWindow(entries, |kept|);
  }

  lemma {:induction false} EntriesLong(records: seq<Record>)
    ensures forall j :: 0 <= j < |records| ==> |Entries(records)[j]| >= 7
  {
    if records != [] {
      EntriesLong(records[1..]);
    }
  }

  method FormatEntry(records: seq<Record>, index: nat, ghost all: seq<string>) returns (entry: string)
    requires index < |records| && all == Entries(records)
    ensures entry == all[index]
  {
    EntriesAt(records, index);
    entry := Entry(records[index]);
  }

  /** Entries are collected newest first and reversed at the end. */
  method FormatRecordFallback(records: seq<Record>) returns (text: string)
    ensures IsFallback(records, text)
  {
    hide Entry, Collected, Shows, JoinParagraphs, Reverse, Entries;
    ghost var all := Entries(records);
    EntriesLong(records);
    CollectStart(all);
    var remaining: int := FALLBACK_MAX_CHARS;
    var entries: seq<string> := [];
    var count := if |records| <= SOURCE_LIMIT then |records| else SOURCE_LIMIT;
    var i := 0;
    while i < count
      invariant i <= count
      invariant Collected(all, i, entries, remaining) && remaining > 0
    {
      var separator := if entries == [] then 0 else 2;
      var whole := FormatEntry(records, |records| - 1 - i, all);
      var entry := CutTo(whole, remaining - separator);
      if entry == "" {
        CollectSkip(all, i, entries, remaining);
      } else {
        ghost var kept := entries;
        if |entry| + separator == remaining {
          CollectFull(all, i, kept, remaining, entry);
        } else {
          CollectKeep(all, i, kept, remaining);
        }
        entries := entries + [entry];
        remaining := remaining - (|entry| + if |entries| > 1 then 2 else 0);
        if remaining <= 0 {
          return JoinParagraphs(Reverse(entries));
        }
      }
      i := i + 1;
    }
    text := JoinParagraphs(Reverse(entries));
    CollectEnd(records, i, entries, remaining);
  }

  lemma CollectEnd(records: seq<Record>, i: nat, kept: seq<string>, remaining: int)
    requires Collected(Entries(records), i, kept, remaining) && i == Min(SOURCE_LIMIT, |records|)
    ensures IsFallback(records, JoinParagraphs(Reverse(kept)))
  {
    hide Entry, Shows, Entries;
    EntriesLong(records);
    if records != [] {
      CollectDone(Entries(records), i, kept, remaining);
    }
  }

  // ----- what the specification guarantees -----

  lemma {:induction false} JoinContains(entries: seq<string>, i: nat)
    requires i < |entries|
    ensures Contains(JoinParagraphs(entries), entries[i])
  {
    var joined := JoinParagraphs(entries);
    if |entries| == 1 {
      assert joined == "" + entries[0] + "";
    } else if i == 0 {
      assert joined == "" + entries[0] + ("\n\n" + JoinParagraphs(entries[1..]));
    } else {
      JoinContains(entries[1..], i - 1);
      assert joined == (entries[0] + "\n\n") + JoinParagraphs(entries[1..]) + "";
      ContainsTrans(joined, JoinParagraphs(entries[1..]), entries[i]);
    }
  }

  lemma {:induction false} JoinBound(entries: seq<string>, bound: nat)
    requires forall j :: 0 <= j < |entries| ==> |entries[j]| <= bound
    ensures |JoinParagraphs(entries)| <= |entries| * (bound + 2)
  {
    if |entries| > 1 {
      JoinBound(entries[1..], bound);
    }
  }

  lemma {:induction false} EntriesShort(records: seq<Record>)
    ensures forall j :: 0 <= j < |records| ==> |Entries(records)[j]| <= 2 * FIELD_MAX_CHARS + 7
  {
    if records != [] {
      EntriesShort(records[1..]);
    }
  }

  /** Four entries of at most 1,207 characters fit, so a shorter window has everything. */
  lemma ShowsFour(entries: seq<string>, text: string, n: nat, cut: nat)
    requires Shows(entries, text, n, cut)
    requires forall j :: 0 <= j < |entries| ==> |entries[j]| <= 2 * FIELD_MAX_CHARS + 7
    ensures n >= Min(4, |entries|)
    ensures n <= 4 ==> cut == |entries[|entries| - n]|
  {
    var shown := Window(entries, n, cut);
    JoinBound(shown, 2 * FIELD_MAX_CHARS + 7);
    if n <= 4 {
      assert n * (2 * FIELD_MAX_CHARS + 9) <= 4 * (2 * FIELD_MAX_CHARS + 9);
    }
  }

  /** `shown` is the field without white space around it, limited to its first characters. */
  ghost predicate ShownAs(field: string, shown: string, limit: nat) {
    shown <= Strip(field) && |shown| == Min(|Strip(field)|, limit)
  }

  /** The text shows a question and its answer, each limited to 600 characters. */
  ghost predicate ShowsExchange(text: string, question: string, answer: string) {
    exists q: string, a: string :: ShownAs(question, q, 600) && ShownAs(answer, a, 600)
                                   && Contains(text, "用户：" + q + "\n助手：" + a)
  }

  /** A short field without white space around it is shown as it is. */
  lemma ShownVerbatim(field: string, shown: string)
    requires ShownAs(field, shown, 600) && Trimmed(field) && |field| <= 600
    ensures shown == field
  {
    hide Strip;
    StripTrimmed(field);
  }

  lemma EntryExchange(text: string, record: Record)
    requires Contains(text, Entry(record))
    ensures ShowsExchange(text, record.question, record.finalAnswer)
  {
    hide Contains, Strip;
    var q, a := Clip(record.question), Clip(record.finalAnswer);
    assert ShownAs(record.question, q, 600) && ShownAs(record.finalAnswer, a, 600);
    assert Contains(text, "用户：" + q + "\n助手：" + a);
  }

  /** A fallback shows the newest four records (or all, when there are fewer) in full: entry `i`
      counted from the oldest is there uncut whenever fewer than four records are newer. */
  lemma NewestInFull(records: seq<Record>, text: string, i: nat)
    requires IsFallback(records, text)
    requires |records| - 4 <= i < |records|
    ensures Contains(text, Entry(records[i])) && ShowsExchange(text, records[i].question, records[i].finalAnswer)
  {
    hide Entry, Entries, JoinParagraphs, Window, Contains, ShowsExchange;
    var shown, k := NewestShown(records, text, i);
    JoinContains(shown, k);
    EntryExchange(text, records[i]);
  }

  /** And in order: each of them is followed by a blank line and the next one, and the last one ends
      the text. */
  lemma NewestInOrder(records: seq<Record>, text: string, i: nat)
    requires IsFallback(records, text)
    requires |records| - 4 <= i < |records|
    ensures i + 1 < |records| ==> Contains(text, Entry(records[i]) + "\n\n" + Entry(records[i + 1]))
    ensures i + 1 == |records| ==> EndsWith(text, Entry(records[i]))
  {
    hide Entry, Entries, JoinParagraphs, Window, Contains, EndsWith;
    var shown, k := NewestShown(records, text, i);
    if i + 1 < |records| {
      JoinPair(shown, k);
    } else {
      JoinEnd(shown);
    }
  }

  /** The window shown has entry `i` uncut, in its place counted from the end. */
  lemma NewestShown(records: seq<Record>, text: string, i: nat) returns (shown: seq<string>, k: nat)
    requires IsFallback(records, text)
    requires |records| - 4 <= i < |records|
    ensures k < |shown| && shown[k] == Entry(records[i]) && text == JoinParagraphs(shown)
    ensures |shown| - k == |records| - i
    ensures i + 1 < |records| ==> shown[k + 1] == Entry(records[i + 1])
  {
    hide Entry, Entries, JoinParagraphs;
    var all := Entries(records);
    var n: nat, cut: nat :| Shows(all, text, n, cut);
    shown := Window(all, n, cut);
    EntriesShort(records);
    EntriesAt(records, i);
    if i + 1 < |records| {
      EntriesAt(records, i + 1);
    }
    ShowsFour(all, text, n, cut);
    k := i - (|records| - n);
    assert shown[k] == all[i] by {
      if k == 0 {
        assert all[i][..cut] == all[i];
      }
    }
  }

  lemma {:induction false} JoinPair(entries: seq<string>, i: nat)
    requires i + 1 < |entries|
    ensures Contains(JoinParagraphs(entries), entries[i] + "\n\n" + entries[i + 1])
  {
    var joined, rest := JoinParagraphs(entries), JoinParagraphs(entries[1..]);
    assert joined == entries[0] + "\n\n" + rest;
    if i == 0 {
      var tail := if |entries| == 2 then "" else "\n\n" + JoinParagraphs(entries[2..]);
      assert entries[1..][1..] == entries[2..];
      assert rest == entries[1] + tail;
      assert joined == "" + (entries[0] + "\n\n" + entries[1]) + tail;
    } else {
      JoinPair(entries[1..], i - 1);
      assert joined == (entries[0] + "\n\n") + rest + "";
      ContainsTrans(joined, rest, entries[i] + "\n\n" + entries[i + 1]);
    }
  }

  lemma {:induction false} JoinEnd(entries: seq<string>)
    requires entries != []
    ensures EndsWith(JoinParagraphs(entries), entries[|entries| - 1])
  {
    if |entries| > 1 {
      JoinEnd(entries[1..]);
    }
  }

  /** At most 6,000 characters, whatever the records hold. */
  lemma FallbackBounded(records: seq<Record>, text: string)
    requires IsFallback(records, text)
    ensures |text| <= FALLBACK_MAX_CHARS
    ensures records != [] ==> text != ""
  {
    if records != [] {
      var n: nat, cut: nat :| Shows(Entries(records), text, n, cut);
    }
  }

  /** A longer window shows strictly more: its text exceeds a shorter window's whole text by at
      least the separator and one character. */
  lemma {:induction false} LongerWindow(entries: seq<string>, n: nat, m: nat, cut: nat)
    requires 1 <= n < m <= |entries| && 1 <= cut <= |entries[|entries| - m]|
    requires forall j :: 0 <= j < |entries| ==> |entries[j]| >= 7
    ensures |JoinParagraphs(Window(entries, m, cut))|
         >= |JoinParagraphs(Window(entries, n, |entries[|entries| - n]|))| + 3
    decreases m
  {
    var rest := entries[|entries| - m + 1..];
    assert |entries[|entries| - (m - 1)]| >= 1;
    WholeWindow(entries, m - 1);
    JoinLength(entries[|entries| - m][..cut], rest);
    if n < m - 1 {
      LongerWindow(entries, n, m - 1, |entries[|entries| - m + 1]|);
    }
  }

  /** A window is at least as long as the same window with less of its oldest entry. */
  lemma WindowGrows(entries: seq<string>, n: nat, cut: nat)
    requires 1 <= n <= |entries| && cut <= |entries[|entries| - n]|
    ensures |JoinParagraphs(Window(entries, n, cut))| - cut
         == |JoinParagraphs(Window(entries, n, 0))|
  {
    var rest := entries[|entries| - n + 1..];
    var oldest := entries[|entries| - n];
    if rest != [] {
      JoinLength(oldest[..cut], rest);
      JoinLength(oldest[..0], rest);
    }
  }

  /** The specification leaves no choice: two texts that both meet it are equal. */
  lemma FallbackUnique(records: seq<Record>, a: string, b: string)
    requires IsFallback(records, a) && IsFallback(records, b)
    ensures a == b
  {
    hide Entry, Entries, Window, JoinParagraphs;
    if records != [] {
      var all := Entries(records);
      var n: nat, cut: nat :| Shows(all, a, n, cut);
      var m: nat, cut': nat :| Shows(all, b, m, cut');
      EntriesLong(records);
      NotLonger(all, a, n, cut, b, m, cut');
      NotLonger(all, b, m, cut', a, n, cut);
    }
  }

  lemma NotLonger(all: seq<string>, a: string, n: nat, cut: nat, b: string, m: nat, cut': nat)
    requires Shows(all, a, n, cut) && Shows(all, b, m, cut')
    requires forall j :: 0 <= j < |all| ==> |all[j]| >= 7
    ensures m <= n && (m == n ==> cut' <= cut)
  {
    WindowGrows(all, n, cut);
    WindowGrows(all, n, |all[|all| - n]|);
    if n < m {
      LongerWindow(all, n, m, cut');
    } else if m == n {
      WindowGrows(all, n, cut');
    }
  }

  // ----- the length of a fallback -----

  function NewestTen(records: seq<Record>): seq<Record> {
    if |records| <= SOURCE_LIMIT then records else records[|records| - SOURCE_LIMIT..]
  }

  /** Characters that the entries of `records` take, clipped but not cut, with their separators. */
  function TextLength(records: seq<Record>): nat {
    if records == [] then 0
    else
      7 + |Clip(records[0].question)| + |Clip(records[0].finalAnswer)|
      + (if |records| > 1 then 2 else 0) + TextLength(records[1..])
  }

  lemma {:induction false} TextLengthIsLength(records: seq<Record>)
    ensures |JoinParagraphs(Entries(records))| == TextLength(records)
  {
    hide Clip;
    if records != [] {
      TextLengthIsLength(records[1..]);
      assert Entries(records)[1..] == Entries(records[1..]);
    }
  }

  lemma {:induction false} EntriesTail(records: seq<Record>, i: nat)
    requires i <= |records|
    ensures Entries(records[i..]) == Entries(records)[i..]
  {
    hide Entry;
    if i > 0 {
      EntriesTail(records[1..], i - 1);
      assert records[1..][i - 1..] == records[i..];
      assert Entries(records)[i..] == Entries(records[1..])[i - 1..];
    } else {
      assert records[0..] == records && Entries(records)[0..] == Entries(records);
    }
  }

  /** A fallback has the length of its newest ten entries, or is full up to a separator. */
  lemma FallbackLength(records: seq<Record>, text: string)
    requires IsFallback(records, text)
    ensures var whole := TextLength(NewestTen(records));
            if whole <= FALLBACK_MAX_CHARS then |text| == whole
            else FALLBACK_MAX_CHARS - 2 <= |text| <= FALLBACK_MAX_CHARS
  {
    hide Entry, Entries, Window, JoinParagraphs, TextLength;
    TextLengthIsLength(NewestTen(records));
    if records == [] {
      NothingShown();
    } else {
      var all := Entries(records);
      var n: nat, cut: nat :| Shows(all, text, n, cut);
      EntriesLong(records);
      WindowLength(all, text, n, cut);
      EntriesTail(records, |records| - Min(SOURCE_LIMIT, |records|));
    }
  }

  lemma NothingShown()
    ensures JoinParagraphs(Entries([])) == ""
  {
  }

  lemma WindowLength(all: seq<string>, text: string, n: nat, cut: nat)
    requires Shows(all, text, n, cut) && forall j :: 0 <= j < |all| ==> |all[j]| >= 7
    ensures var whole := |JoinParagraphs(all[|all| - Min(SOURCE_LIMIT, |all|)..])|;
            if whole <= FALLBACK_MAX_CHARS then |text| == whole else FALLBACK_MAX_CHARS - 2 <= |text|
  {
    hide Window, JoinParagraphs;
    var k := Min(SOURCE_LIMIT, |all|);
    var oldest := |all[|all| - k]|;
    WholeWindow(all, k);
    WindowGrows(all, n, cut);
    WindowGrows(all, n, |all[|all| - n]|);
    if n < k {
      LongerWindow(all, n, k, oldest);
    }
  }
}
