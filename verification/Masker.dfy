/** `llm/masker.rs`: pick matches greedily, swap them for placeholders, repeat until
    nothing matches; undo by sequential replacement. */
module Masker {
  import opened Texts
  import opened Ordering
  import opened PatternLanguages
  import opened MaskTokens

  /** One reported match: a half-open character range and the pattern it belongs to. */
  datatype Found = Found(start: nat, end: nat, tag: Label)

  /** The compiled patterns: which words each language has, and what scanning a text
      for one pattern reports (`Regex::find_iter`). */
  datatype Engine = Engine(language: (Label, string) -> bool, scan: (Label, string) -> seq<Found>)

  ghost predicate RangeOk(e: Engine, text: string, f: Found) {
    f.start < f.end <= |text| && e.language(f.tag, text[f.start..f.end])
  }

  ghost predicate NoWord(e: Engine, tag: Label, text: string) {
    forall i, j | 0 <= i <= j <= |text| :: !e.language(tag, text[i..j])
  }

  /** A scan reports ranges holding words of its language, and reports nothing only if
      the text holds none. */
  ghost predicate ScanOk(e: Engine, tag: Label, text: string) {
    && (forall f | f in e.scan(tag, text) :: f.tag == tag && RangeOk(e, text, f))
    && (e.scan(tag, text) == [] ==> NoWord(e, tag, text))
  }

  ghost predicate Sound(e: Engine) {
    && (forall tag, w :: e.language(tag, w) ==> Foreign(w))
    && (forall tag, text :: ScanOk(e, tag, text))
  }

  /** The end of the longest word that starts at `i` and ends by `j`; `i` if there is none. */
  function LongestEnd(word: string -> bool, text: string, i: nat, j: nat): (end: nat)
    requires i <= j <= |text|
    ensures i <= end <= j && (end > i ==> word(text[i..end]))
    ensures forall k | end < k <= j :: !word(text[i..k])
  {
    if j == i then i else if word(text[i..j]) then j else LongestEnd(word, text, i, j - 1)
  }

  /** `find_iter` from position `from` on: the leftmost word, as long as it can be, and so on
      behind it. */
  function FindIter(word: string -> bool, tag: Label, text: string, from: nat): seq<Found>
    requires from <= |text|
    decreases |text| - from
  {
    if from == |text| then []
    else
      var end := LongestEnd(word, text, from, |text|);
      if end > from then [Found(from, end, tag)] + FindIter(word, tag, text, end)
      else FindIter(word, tag, text, from + 1)
  }

  function LanguageOf(e: Engine, tag: Label): string -> bool {
    w => e.language(tag, w)
  }

  /** An engine for the four patterns the masker is built with. */
  ghost predicate Standard(e: Engine, digit: char -> bool) {
    && DigitTable(digit)
    && (forall tag, w :: e.language(tag, w) <==> Member(tag, w, digit))
    && (forall tag, text :: e.scan(tag, text) == FindIter(LanguageOf(e, tag), tag, text, 0))
  }

  /** A longest word at its place. */
  ghost predicate LongestWord(word: string -> bool, tag: Label, text: string, f: Found) {
    && f.tag == tag && f.start < f.end <= |text| && word(text[f.start..f.end])
    && forall j | f.end < j <= |text| :: !word(text[f.start..j])
  }

  ghost predicate Covered(fs: seq<Found>, i: nat) {
    exists f :: f in fs && f.start <= i < f.end
  }

  /** What a scan reports are longest words, and no word starts outside of them. */
  lemma {:induction false} FindIterMeans(word: string -> bool, tag: Label, text: string, from: nat)
    requires from <= |text|
    ensures var fs := FindIter(word, tag, text, from);
      && (forall f | f in fs :: LongestWord(word, tag, text, f))
      && (forall i, j | from <= i < j <= |text| && word(text[i..j]) :: Covered(fs, i))
    decreases |text| - from
  {
    if from < |text| {
      var fs, end := FindIter(word, tag, text, from), LongestEnd(word, text, from, |text|);
      var next := if end > from then end else from + 1;
      FindIterMeans(word, tag, text, next);
      forall i, j | from <= i < j <= |text| && word(text[i..j]) ensures Covered(fs, i) {
        if i < next {
          assert fs[0].start <= i < fs[0].end;
        } else {
          var f :| f in FindIter(word, tag, text, next) && f.start <= i < f.end;
          assert f in fs;
        }
      }
    }
  }

  lemma WordsAreNotEmpty(e: Engine, digit: char -> bool, tag: Label)
    requires Standard(e, digit)
    ensures !e.language(tag, "")
  {
    if Member(tag, "", digit) { MemberShape(tag, "", digit); }
  }

  lemma StandardScans(e: Engine, digit: char -> bool, tag: Label, text: string)
    requires Standard(e, digit)
    ensures ScanOk(e, tag, text)
  {
    var word := LanguageOf(e, tag);
    FindIterMeans(word, tag, text, 0);
    WordsAreNotEmpty(e, digit, tag);
    assert forall f | f in e.scan(tag, text) :: LongestWord(word, tag, text, f);
    if e.scan(tag, text) == [] {
      forall i, j | 0 <= i <= j <= |text| ensures !e.language(tag, text[i..j]) {
        assert !Covered([], i);
        assert i == j ==> text[i..j] == "";
        assert i < j ==> !word(text[i..j]);
      }
    }
  }

  lemma StandardIsSound(e: Engine, digit: char -> bool)
    requires Standard(e, digit)
    ensures Sound(e)
  {
    forall tag, w | e.language(tag, w) ensures Foreign(w) {
      MemberForeign(tag, w, digit);
    }
    forall tag, text ensures ScanOk(e, tag, text) {
      StandardScans(e, digit, tag, text);
    }
  }

  lemma {:induction false} SameLanguage(a: string -> bool, b: string -> bool, tag: Label, text: string, from: nat)
    requires from <= |text| && forall w :: a(w) <==> b(w)
    ensures FindIter(a, tag, text, from) == FindIter(b, tag, text, from)
    decreases |text| - from
  {
    if from < |text| {
      SameEnd(a, b, text, from, |text|);
      var end := LongestEnd(a, text, from, |text|);
      SameLanguage(a, b, tag, text, if end > from then end else from + 1);
    }
  }

  lemma {:induction false} SameEnd(a: string -> bool, b: string -> bool, text: string, i: nat, j: nat)
    requires i <= j <= |text| && forall w :: a(w) <==> b(w)
    ensures LongestEnd(a, text, i, j) == LongestEnd(b, text, i, j)
  {
    if i < j { SameEnd(a, b, text, i, j - 1); }
  }

  /** The assumption on engines can be met, whatever the digit table. */
  lemma StandardEngineExists(digit: char -> bool)
    requires DigitTable(digit)
    ensures exists e :: Standard(e, digit)
  {
    var e := Engine((tag, w) => Member(tag, w, digit),
                    (tag, text) => FindIter(w => Member(tag, w, digit), tag, text, 0));
    assert forall tag, w :: e.language(tag, w) <==> Member(tag, w, digit);
    forall tag, text ensures e.scan(tag, text) == FindIter(LanguageOf(e, tag), tag, text, 0) {
      SameLanguage(LanguageOf(e, tag), w => Member(tag, w, digit), tag, text, 0);
    }
    assert Standard(e, digit);
  }

  // ---- choosing matches --------------------------------------------------------------

  /** Earlier start first; for equal starts, the longer range first. */
  predicate EarlierLonger(a: Found, b: Found) {
    a.start < b.start || (a.start == b.start && a.end >= b.end)
  }

  function RawMatches(e: Engine, text: string): seq<Found> {
    e.scan(SECRET, text) + e.scan(EMAIL, text) + e.scan(URL, text) + e.scan(PHONE, text)
  }

  /** Scanning left to right, keep whatever starts at or after the last kept end. */
  function Greedy(xs: seq<Found>, lastEnd: nat): seq<Found> {
    if xs == [] then []
    else if xs[0].start >= lastEnd then [xs[0]] + Greedy(xs[1..], xs[0].end)
    else Greedy(xs[1..], lastEnd)
  }

  function MatchesOf(e: Engine, text: string): seq<Found> {
    Greedy(Sort(RawMatches(e, text), EarlierLonger), 0)
  }

  /** Non-empty ranges, in order, none reaching into the next. */
  ghost predicate Chain(xs: seq<Found>, from: nat) {
    xs == [] || (from <= xs[0].start < xs[0].end && Chain(xs[1..], xs[0].end))
  }

  /** A kept match that a dropped one gave way to: it starts no later, and at the same
      start it is no shorter. */
  ghost predicate GivesWayTo(r: Found, c: Found) {
    c.start <= r.start < c.end && (c.start == r.start ==> c.end >= r.end)
  }

  lemma {:induction false} GreedyChooses(xs: seq<Found>, lastEnd: nat)
    requires SortedBy(xs, EarlierLonger) && forall f | f in xs :: f.start < f.end
    ensures Chain(Greedy(xs, lastEnd), lastEnd)
    ensures forall f | f in Greedy(xs, lastEnd) :: f in xs
    ensures forall r | r in xs && r.start >= lastEnd :: exists c :: c in Greedy(xs, lastEnd) && GivesWayTo(r, c)
  {
    if xs != [] {
      var h := xs[0];
      var keep := h.start >= lastEnd;
      var next := if keep then h.end else lastEnd;
      GreedyChooses(xs[1..], next);
      forall r | r in xs && r.start >= lastEnd
        ensures exists c :: c in Greedy(xs, lastEnd) && GivesWayTo(r, c)
      {
        if keep && r.start < h.end {
          var i :| 0 <= i < |xs| && xs[i] == r;
          assert EarlierLonger(h, r) || i == 0;
          assert h in Greedy(xs, lastEnd) && GivesWayTo(r, h);
        } else {
          assert r in xs[1..];
          var c :| c in Greedy(xs[1..], next) && GivesWayTo(r, c);
          assert c in Greedy(xs, lastEnd);
        }
      }
    }
  }

  /** The chosen matches are words of the languages in ascending disjoint ranges;
      every reported match is chosen or gave way to an earlier or longer one; and
      nothing is chosen exactly when the text holds no word at all. */
  lemma MatchesOfText(e: Engine, text: string)
    requires Sound(e)
    ensures Chain(MatchesOf(e, text), 0)
    ensures AllRangesOk(e, text, MatchesOf(e, text))
    ensures forall r | r in RawMatches(e, text) :: exists c :: c in MatchesOf(e, text) && GivesWayTo(r, c)
    ensures MatchesOf(e, text) == [] <==> forall tag :: NoWord(e, tag, text)
  {
    var raw := RawMatches(e, text);
    var sorted := Sort(raw, EarlierLonger);
    RawMatchesOk(e, text);
    SortPermutes(raw, EarlierLonger);
    SortSorts(raw, EarlierLonger);
    forall f | f in sorted ensures RangeOk(e, text, f) {
      assert f in raw;
    }
    GreedyChooses(sorted, 0);
    if raw != [] {
      assert raw[0] in sorted;
      var c :| c in Greedy(sorted, 0) && GivesWayTo(raw[0], c);
      WordFound(e, text, c);
    }
  }

  lemma WordFound(e: Engine, text: string, f: Found)
    requires RangeOk(e, text, f)
    ensures !NoWord(e, f.tag, text)
  {}

  ghost predicate AllRangesOk(e: Engine, text: string, xs: seq<Found>) {
    forall f | f in xs :: RangeOk(e, text, f)
  }

  lemma RawMatchesOk(e: Engine, text: string)
    requires Sound(e)
    ensures AllRangesOk(e, text, RawMatches(e, text))
    ensures RawMatches(e, text) == [] ==> forall tag :: NoWord(e, tag, text)
  {
    assert ScanOk(e, SECRET, text) && ScanOk(e, EMAIL, text) && ScanOk(e, URL, text) && ScanOk(e, PHONE, text);
    if RawMatches(e, text) == [] {
      forall tag ensures NoWord(e, tag, text) {
        match tag case SECRET => case EMAIL => case URL => case PHONE =>
      }
    }
  }

  method FindMatches(e: Engine, text: string) returns (chosen: seq<Found>)
    ensures chosen == MatchesOf(e, text)
  {
    var raw: seq<Found> := [];
    var specs := [SECRET, EMAIL, URL, PHONE];
    for i := 0 to |specs|
      invariant raw == (if i > 0 then e.scan(SECRET, text) else []) + (if i > 1 then e.scan(EMAIL, text) else [])
                       + (if i > 2 then e.scan(URL, text) else []) + (if i > 3 then e.scan(PHONE, text) else [])
    {
      raw := raw + e.scan(specs[i], text);
    }
    raw := Sort(raw, EarlierLonger);
    chosen := [];
    var lastEnd := 0;
    for i := 0 to |raw|
      invariant chosen + Greedy(raw[i..], lastEnd) == Greedy(raw, 0)
    {
      assert raw[i..][1..] == raw[i+1..];
      if raw[i].start >= lastEnd {
        Assoc(chosen, [raw[i]], Greedy(raw[i+1..], raw[i].end));
        chosen := chosen + [raw[i]];
        lastEnd := raw[i].end;
      }
    }
  }

  // ---- the placeholder ledger ----------------------------------------------------------

  type Entry = (string, string)

  /** What one `mask` call accumulates: the reverse map in insertion order, how many
      placeholders each label has used, and the placeholder each original got. */
  datatype MaskState = MaskState(entries: seq<Entry>, counters: map<Label, nat>, given: map<string, string>)

  function Counter(st: MaskState, tag: Label): nat {
    if tag in st.counters then st.counters[tag] else 0
  }

  /** After a word has been met: a new one gets the next number of its label. */
  ghost function Learned(st: MaskState, word: string, tag: Label): MaskState {
    if word in st.given then st
    else
      var n := Counter(st, tag) + 1;
      MaskState(st.entries + [(Placeholder(tag, n), word)], st.counters[tag := n],
                st.given[word := Placeholder(tag, n)])
  }

  ghost function Count(tags: seq<Label>, tag: Label): nat {
    if tags == [] then 0
    else Count(tags[..|tags|-1], tag) + (if tags[|tags|-1] == tag then 1 else 0)
  }

  /** The reverse map: each entry stands for a word of the language its label names,
      is numbered one past the earlier entries of that label, and repeats no earlier
      original. */
  ghost predicate Numbered(e: Engine, entries: seq<Entry>, tags: seq<Label>) {
    && |tags| == |entries|
    && (entries != [] ==>
          var n := |entries| - 1;
          && Numbered(e, entries[..n], tags[..n])
          && entries[n].0 == Placeholder(tags[n], 1 + Count(tags[..n], tags[n]))
          && e.language(tags[n], entries[n].1)
          && forall k | 0 <= k < n :: entries[k].1 != entries[n].1)
  }

  ghost predicate Ledger(e: Engine, st: MaskState, tags: seq<Label>) {
    && Numbered(e, st.entries, tags)
    && (forall tag :: Counter(st, tag) == Count(tags, tag))
    && GivenOk(st.entries, st.given)
  }

  lemma {:induction false} CountBound(tags: seq<Label>, tag: Label)
    ensures Count(tags, tag) <= |tags|
  {
    if tags != [] { CountBound(tags[..|tags|-1], tag); }
  }

  /** Each entry read on its own. */
  lemma {:induction false} EntryAt(e: Engine, entries: seq<Entry>, tags: seq<Label>, k: nat) returns (n: nat)
    requires Numbered(e, entries, tags) && k < |entries|
    ensures 1 <= n <= Count(tags, tags[k]) <= |entries|
    ensures entries[k].0 == Placeholder(tags[k], n) && e.language(tags[k], entries[k].1)
    decreases |entries|
  {
    CountBound(tags, tags[k]);
    var last := |entries| - 1;
    if k == last {
      n := 1 + Count(tags[..last], tags[last]);
    } else {
      n := EntryAt(e, entries[..last], tags[..last], k);
    }
  }

  lemma {:induction false} DistinctPlaceholders(e: Engine, entries: seq<Entry>, tags: seq<Label>, i: nat, j: nat)
    requires Numbered(e, entries, tags) && i < j < |entries|
    ensures entries[i].0 != entries[j].0
    decreases |entries|
  {
    var last := |entries| - 1;
    if j < last {
      DistinctPlaceholders(e, entries[..last], tags[..last], i, j);
    } else {
      var n := EntryAt(e, entries[..last], tags[..last], i);
      if entries[i].0 == entries[j].0 {
        PlaceholderInjective(tags[i], n, tags[j], 1 + Count(tags[..last], tags[j]));
      }
    }
  }

  lemma EntryPlaceholder(e: Engine, entries: seq<Entry>, tags: seq<Label>, k: nat)
    requires Numbered(e, entries, tags) && k < |entries| < REMATCH_LIMIT
    ensures IsPlaceholder(entries[k].0) && e.language(tags[k], entries[k].1)
  {
    var n := EntryAt(e, entries, tags, k);
  }

  /** Hand out the placeholder for one matched word: the one it already has, or the
      next number of its label. */
  method Assign(e: Engine, original: string, tag: Label, st: MaskState, ghost tags: seq<Label>)
    returns (placeholder: string, st': MaskState, ghost tags': seq<Label>)
    requires Sound(e) && Ledger(e, st, tags) && e.language(tag, original)
    requires |st.entries| + 1 < REMATCH_LIMIT
    ensures Ledger(e, st', tags') && IsPlaceholder(placeholder)
    ensures (placeholder, original) in st'.entries
    ensures st'.given.Keys == st.given.Keys + {original}
    ensures tags' == tags + if original in st.given then [] else [tag]
    ensures st' == Learned(st, original, tag) && placeholder == st'.given[original]
    ensures if original in st.given then st' == st && placeholder == st.given[original]
            else st'.entries == st.entries + [(placeholder, original)]
                 && placeholder == Placeholder(tag, Counter(st, tag) + 1)
  {
    if original in st.given {
      placeholder, st', tags' := st.given[original], st, tags;
      assert tags + [] == tags;
      KnownIsPlaceholder(e, original, st, tags);
    } else {
      var n := Counter(st, tag) + 1;
      placeholder := Placeholder(tag, n);
      st' := MaskState(st.entries + [(placeholder, original)], st.counters[tag := n],
                       st.given[original := placeholder]);
      tags' := tags + [tag];
      assert st' == Learned(st, original, tag);
      NewIsLearned(e, original, tag, st, tags);
    }
  }

  lemma KnownIsPlaceholder(e: Engine, original: string, st: MaskState, tags: seq<Label>)
    requires Ledger(e, st, tags) && original in st.given && |st.entries| < REMATCH_LIMIT
    ensures IsPlaceholder(st.given[original]) && (st.given[original], original) in st.entries
  {
    var k :| 0 <= k < |st.entries| && st.entries[k] == (st.given[original], original);
    EntryPlaceholder(e, st.entries, tags, k);
  }

  lemma NewIsLearned(e: Engine, original: string, tag: Label, st: MaskState, tags: seq<Label>)
    requires Ledger(e, st, tags) && e.language(tag, original) && original !in st.given
    requires |st.entries| + 1 < REMATCH_LIMIT
    ensures Ledger(e, Learned(st, original, tag), tags + [tag]) && IsPlaceholder(Placeholder(tag, Counter(st, tag) + 1))
    ensures (Placeholder(tag, Counter(st, tag) + 1), original) in Learned(st, original, tag).entries
  {
    LedgerGrows(e, original, tag, st, tags);
    CountBound(tags, tag);
    assert Learned(st, original, tag).entries[|st.entries|] == (Placeholder(tag, Counter(st, tag) + 1), original);
  }

  lemma LedgerGrows(e: Engine, original: string, tag: Label, st: MaskState, tags: seq<Label>)
    requires Ledger(e, st, tags) && e.language(tag, original) && original !in st.given
    ensures var n := Counter(st, tag) + 1;
            var ph := Placeholder(tag, n);
            Ledger(e, MaskState(st.entries + [(ph, original)], st.counters[tag := n], st.given[original := ph]),
                   tags + [tag])
  {
    var n := Counter(st, tag) + 1;
    var ph := Placeholder(tag, n);
    assert forall k | 0 <= k < |st.entries| :: st.entries[k].1 != original;
    NumberedGrows(e, st.entries, tags, ph, original, tag);
    CountersGrow(st, tag, tags,
      MaskState(st.entries + [(ph, original)], st.counters[tag := n], st.given[original := ph]));
    GivenGrows(st.entries, st.given, ph, original);
  }

  lemma CountersGrow(st: MaskState, tag: Label, tags: seq<Label>, st': MaskState)
    requires (forall t :: Counter(st, t) == Count(tags, t)) && st'.counters == st.counters[tag := Counter(st, tag) + 1]
    ensures forall t :: Counter(st', t) == Count(tags + [tag], t)
  {
    forall t ensures Counter(st', t) == Count(tags + [tag], t) {
      CountAppend(tags, tag, t);
    }
  }

  lemma CountAppend(tags: seq<Label>, tag: Label, t: Label)
    ensures Count(tags + [tag], t) == Count(tags, t) + (if tag == t then 1 else 0)
  {
    assert (tags + [tag])[..|tags|] == tags;
  }

  lemma NumberedGrows(e: Engine, entries: seq<Entry>, tags: seq<Label>, ph: string, original: string, tag: Label)
    requires Numbered(e, entries, tags) && e.language(tag, original)
    requires ph == Placeholder(tag, 1 + Count(tags, tag))
    requires forall k | 0 <= k < |entries| :: entries[k].1 != original
    ensures Numbered(e, entries + [(ph, original)], tags + [tag])
  {
    assert (tags + [tag])[..|tags|] == tags;
    assert (entries + [(ph, original)])[..|entries|] == entries;
  }

  ghost predicate GivenOk(entries: seq<Entry>, given: map<string, string>) {
    && (forall o | o in given :: (given[o], o) in entries)
    && (forall k | 0 <= k < |entries| :: entries[k].1 in given)
  }

  lemma GivenGrows(entries: seq<Entry>, given: map<string, string>, ph: string, original: string)
    requires GivenOk(entries, given) && original !in given
    ensures GivenOk(entries + [(ph, original)], given[original := ph])
  {
    var entries', given' := entries + [(ph, original)], given[original := ph];
    assert entries'[|entries|] == (ph, original);
    forall o | o in given' ensures (given'[o], o) in entries' {
      if o != original {
        var k :| 0 <= k < |entries| && entries[k] == (given[o], o);
        assert entries'[k] == entries[k];
      }
    }
    forall k | 0 <= k < |entries'| ensures entries'[k].1 in given' {
      assert k < |entries| ==> entries'[k] == entries[k];
    }
  }

  // ---- one pass ------------------------------------------------------------------------

  ghost predicate HolesKnown(ts: seq<Token>, entries: seq<Entry>) {
    forall t | t in ts && t.Hole? :: (t.placeholder, t.original) in entries
  }

  ghost predicate Tracks(ts: seq<Token>, entries: seq<Entry>, text: string) {
    Render(ts) == text && HolesOk(ts) && HolesKnown(ts, entries)
  }

  /** A foreign word further on in the text is made of surviving characters, and cutting
      it out leaves tokens on both sides. */
  lemma CutWord(ts: seq<Token>, text: string, cursor: nat, s: nat, e: nat) returns (front: seq<Token>, back: seq<Token>)
    requires cursor <= s < e <= |text| && Foreign(text[s..e])
    requires HolesOk(ts) && Render(ts) == text[cursor..]
    ensures Render(front) == text[cursor..s] && Render(back) == text[e..]
    ensures Expand(ts) == Expand(front) + (text[s..e] + Expand(back))
    ensures LitCount(front) + LitCount(back) + (e - s) == LitCount(ts)
    ensures HolesOk(front) && HolesOk(back)
    ensures forall t | t in front || t in back :: t in ts
  {
    var w := text[s..e];
    TailSlices(text, cursor, s, e);
    var i := Boundary(ts, s - cursor, e - cursor);
    var rest := ts[i..];
    front := ts[..i];
    Rejoin(ts, i);
    back := WordInFront(rest, text[s..], w);
  }

  lemma TailSlices(text: string, cursor: nat, s: nat, e: nat)
    requires cursor <= s <= e <= |text|
    ensures text[cursor..][s-cursor..e-cursor] == text[s..e]
    ensures text[cursor..][..s-cursor] == text[cursor..s]
    ensures text[cursor..][s-cursor..] == text[s..]
    ensures text[s..][..e-s] == text[s..e]
    ensures text[s..][e-s..] == text[e..]
  {}

  lemma Rejoin(ts: seq<Token>, i: nat)
    requires i <= |ts|
    ensures HolesOk(ts) <==> HolesOk(ts[..i]) && HolesOk(ts[i..])
    ensures Expand(ts) == Expand(ts[..i]) + Expand(ts[i..])
    ensures LitCount(ts) == LitCount(ts[..i]) + LitCount(ts[i..])
  {
    assert ts == ts[..i] + ts[i..];
    HolesOkConcat(ts[..i], ts[i..]);
    ExpandConcat(ts[..i], ts[i..]);
    LitCountConcat(ts[..i], ts[i..]);
  }

  lemma WordInFront(ts: seq<Token>, text: string, w: string) returns (back: seq<Token>)
    requires HolesOk(ts) && Render(ts) == text && |w| <= |text| && text[..|w|] == w && NoQuotes(w)
    ensures Render(back) == text[|w|..] && Expand(ts) == w + Expand(back)
    ensures LitCount(back) + |w| == LitCount(ts) && HolesOk(back)
    ensures forall t | t in back :: t in ts
  {
    RunOfLits(ts, |w|);
    back := ts[|w|..];
    assert ts[..|w|] == Lits(w);
    LitsSpell(w);
    Rejoin(ts, |w|);
  }

  lemma PushHole(done: seq<Token>, front: seq<Token>, hole: Token)
    requires HolesOk(done) && HolesOk(front) && hole.Hole? && IsPlaceholder(hole.placeholder)
    ensures HolesOk(done + front + [hole])
    ensures Render(done + front + [hole]) == Render(done) + Render(front) + hole.placeholder
    ensures Expand(done + front + [hole]) == (Expand(done) + Expand(front)) + hole.original
    ensures LitCount(done + front + [hole]) == LitCount(done) + LitCount(front)
  {
    HolesOkConcat(done, front);
    HolesOkConcat(done + front, [hole]);
    RenderConcat(done, front);
    RenderConcat(done + front, [hole]);
    ExpandConcat(done, front);
    ExpandConcat(done + front, [hole]);
    LitCountConcat(done, front);
    LitCountConcat(done + front, [hole]);
    assert Render([hole]) == hole.placeholder + Render([]) == hole.placeholder;
    assert Expand([hole]) == hole.original + Expand([]) == hole.original;
  }

  /** How far a pass has come: `done` spells the output so far, `rest` the text still
      to be read, and together they stand for what the text stood for. */
  ghost predicate Progress(text: string, ts: seq<Token>, entries: seq<Entry>, k: nat, cursor: nat, out: string,
                           done: seq<Token>, rest: seq<Token>)
  {
    && cursor <= |text|
    && Tracks(done, entries, out) && Tracks(rest, entries, text[cursor..])
    && Expand(done) + Expand(rest) == Expand(ts)
    && LitCount(done) + LitCount(rest) + k <= LitCount(ts)
  }

  lemma PassStep(text: string, ts: seq<Token>, entries: seq<Entry>, entries': seq<Entry>, k: nat, cursor: nat,
                 out: string, done: seq<Token>, rest: seq<Token>, s: nat, e: nat, placeholder: string)
    returns (done': seq<Token>, rest': seq<Token>)
    requires Progress(text, ts, entries, k, cursor, out, done, rest)
    requires cursor <= s < e <= |text| && Foreign(text[s..e])
    requires entries <= entries' && IsPlaceholder(placeholder) && (placeholder, text[s..e]) in entries'
    ensures Progress(text, ts, entries', k + 1, e, out + text[cursor..s] + placeholder, done', rest')
  {
    var w := text[s..e];
    var front, back := CutWord(rest, text, cursor, s, e);
    done', rest' := Splice(done, front, w, back, placeholder);
    assert Expand(done') + Expand(rest') == Expand(ts);
    KnownAfterStep(done, rest, front, back, Hole(placeholder, w), entries, entries');
  }

  lemma Splice(done: seq<Token>, front: seq<Token>, w: string, back: seq<Token>, placeholder: string)
    returns (done': seq<Token>, rest': seq<Token>)
    requires HolesOk(done) && HolesOk(front) && HolesOk(back) && IsPlaceholder(placeholder)
    ensures done' == done + front + [Hole(placeholder, w)] && rest' == back
    ensures HolesOk(done') && Render(done') == Render(done) + Render(front) + placeholder
    ensures Expand(done') + Expand(rest') == Expand(done) + (Expand(front) + (w + Expand(back)))
    ensures LitCount(done') == LitCount(done) + LitCount(front)
  {
    PushHole(done, front, Hole(placeholder, w));
    done', rest' := done + front + [Hole(placeholder, w)], back;
    Regroup(Expand(done), Expand(front), w, Expand(back));
  }

  lemma Regroup(a: string, b: string, c: string, d: string)
    ensures a + (b + (c + d)) == ((a + b) + c) + d
  {}

  lemma KnownAfterStep(done: seq<Token>, rest: seq<Token>, front: seq<Token>, back: seq<Token>, hole: Token,
                       entries: seq<Entry>, entries': seq<Entry>)
    requires HolesKnown(done, entries) && HolesKnown(rest, entries) && entries <= entries'
    requires hole.Hole? && (hole.placeholder, hole.original) in entries'
    requires forall t | t in front || t in back :: t in rest
    ensures HolesKnown(done + front + [hole], entries') && HolesKnown(back, entries')
  {
    forall t: Token | t.Hole? && (t in done || t in front || t in back)
      ensures (t.placeholder, t.original) in entries'
    {
      assert (t.placeholder, t.original) in entries;
    }
  }

  /** While a word is still to come, a surviving character is still to be used up. */
  lemma WordToCome(text: string, ts: seq<Token>, entries: seq<Entry>, k: nat, cursor: nat, out: string,
                   done: seq<Token>, rest: seq<Token>, s: nat, e: nat)
    requires Progress(text, ts, entries, k, cursor, out, done, rest)
    requires cursor <= s < e <= |text| && Foreign(text[s..e])
    ensures k < LitCount(ts)
  {
    var front, back := CutWord(rest, text, cursor, s, e);
  }

  lemma PassEnd(text: string, ts: seq<Token>, entries: seq<Entry>, k: nat, cursor: nat, out: string,
                done: seq<Token>, rest: seq<Token>)
    requires Progress(text, ts, entries, k, cursor, out, done, rest)
    ensures Tracks(done + rest, entries, out + text[cursor..])
    ensures Expand(done + rest) == Expand(ts) && LitCount(done + rest) + k <= LitCount(ts)
  {
    RenderConcat(done, rest);
    ExpandConcat(done, rest);
    LitCountConcat(done, rest);
    HolesOkConcat(done, rest);
  }

  function WordOf(text: string, m: Found): string {
    if m.start <= m.end <= |text| then text[m.start..m.end] else ""
  }

  ghost function LearnedAll(st: MaskState, text: string, matches: seq<Found>): MaskState {
    if matches == [] then st
    else
      var init, m := matches[..|matches|-1], matches[|matches|-1];
      Learned(LearnedAll(st, text, init), WordOf(text, m), m.tag)
  }

  function Between(text: string, a: nat, b: nat): string {
    if a <= b <= |text| then text[a..b] else ""
  }

  function EndOf(matches: seq<Found>): nat {
    if matches == [] then 0 else matches[|matches|-1].end
  }

  /** The text up to the last match, every match swapped for the placeholder of its word. */
  ghost function Swapped(st: MaskState, text: string, matches: seq<Found>): string {
    if matches == [] then ""
    else
      var init, m, st' := matches[..|matches|-1], matches[|matches|-1], LearnedAll(st, text, matches);
      Swapped(st, text, init) + Between(text, EndOf(init), m.start)
        + if WordOf(text, m) in st'.given then st'.given[WordOf(text, m)] else ""
  }

  /** What a pass makes of a text and of what is known. */
  ghost function AfterPass(e: Engine, text: string, st: MaskState): (string, MaskState) {
    var matches := MatchesOf(e, text);
    (Swapped(st, text, matches) + Between(text, EndOf(matches), |text|), LearnedAll(st, text, matches))
  }

  /** How far a pass has come in this. */
  ghost predicate SwappedSoFar(st: MaskState, text: string, matches: seq<Found>, k: nat, cursor: nat, out: string,
                               st': MaskState) {
    k <= |matches| && st' == LearnedAll(st, text, matches[..k])
    && cursor == EndOf(matches[..k]) && out == Swapped(st, text, matches[..k])
  }

  lemma SwappedMore(st: MaskState, text: string, matches: seq<Found>, k: nat, cursor: nat, out: string, st1: MaskState,
                    st2: MaskState)
    requires SwappedSoFar(st, text, matches, k, cursor, out, st1) && k < |matches|
    requires st2 == Learned(st1, WordOf(text, matches[k]), matches[k].tag)
    requires cursor <= matches[k].start <= |text| && WordOf(text, matches[k]) in st2.given
    ensures SwappedSoFar(st, text, matches, k + 1, matches[k].end,
                         out + text[cursor..matches[k].start] + st2.given[WordOf(text, matches[k])], st2)
  {
    assert matches[..k+1][..k] == matches[..k];
  }

  /** The labels of the placeholders a pass hands out: one for every match whose word is not
      known yet. */
  ghost function NewTags(text: string, matches: seq<Found>, known: set<string>): seq<Label> {
    if matches == [] then []
    else
      var init, m := matches[..|matches|-1], matches[|matches|-1];
      NewTags(text, init, known) + if WordOf(text, m) in known + Words(text, init) then [] else [m.tag]
  }

  ghost function Words(text: string, matches: seq<Found>): set<string> {
    set m | m in matches :: WordOf(text, m)
  }

  lemma NewTagsMore(text: string, matches: seq<Found>, known: set<string>, k: nat)
    requires k < |matches|
    ensures Words(text, matches[..k+1]) == Words(text, matches[..k]) + {WordOf(text, matches[k])}
    ensures NewTags(text, matches[..k+1], known) == NewTags(text, matches[..k], known)
              + if WordOf(text, matches[k]) in known + Words(text, matches[..k]) then [] else [matches[k].tag]
  {
    assert matches[..k+1][..k] == matches[..k] && matches[..k+1] == matches[..k] + [matches[k]];
  }

  /** What has been handed out after some of a pass's matches. */
  ghost predicate Handed(text: string, st: MaskState, tags: seq<Label>, matches: seq<Found>, st': MaskState,
                         tags': seq<Label>) {
    && st'.given.Keys == st.given.Keys + Words(text, matches)
    && tags' == tags + NewTags(text, matches, st.given.Keys)
    && |st'.entries| <= |st.entries| + |matches|
  }

  lemma HandedNone(text: string, st: MaskState, tags: seq<Label>)
    ensures Handed(text, st, tags, [], st, tags)
  {
    assert tags + [] == tags;
  }

  lemma HandedMore(text: string, st: MaskState, tags: seq<Label>, matches: seq<Found>, k: nat, s1: MaskState,
                   tags1: seq<Label>, s2: MaskState, tags2: seq<Label>)
    requires k < |matches| && Handed(text, st, tags, matches[..k], s1, tags1)
    requires s2.given.Keys == s1.given.Keys + {WordOf(text, matches[k])} && |s2.entries| <= |s1.entries| + 1
    requires tags2 == tags1 + if WordOf(text, matches[k]) in s1.given then [] else [matches[k].tag]
    ensures Handed(text, st, tags, matches[..k+1], s2, tags2)
  {
    NewTagsMore(text, matches, st.given.Keys, k);
    KeysMore(st.given.Keys, Words(text, matches[..k]), WordOf(text, matches[k]));
    var newTag := if WordOf(text, matches[k]) in s1.given then [] else [matches[k].tag];
    TagsMore(tags, NewTags(text, matches[..k], st.given.Keys), newTag);
  }

  lemma KeysMore(a: set<string>, b: set<string>, w: string)
    ensures a + b + {w} == a + (b + {w})
  {}

  lemma TagsMore(a: seq<Label>, b: seq<Label>, c: seq<Label>)
    ensures a + b + c == a + (b + c)
  {}

  /** The labels of the first pass over a text. */
  ghost function FirstTags(e: Engine, text: string): seq<Label> {
    NewTags(text, MatchesOf(e, text), {})
  }

  /** A text without any word. */
  ghost predicate Wordless(e: Engine, text: string) {
    forall tag :: NoWord(e, tag, text)
  }

  lemma ChosenMatches(e: Engine, text: string)
    requires Sound(e)
    ensures Chain(MatchesOf(e, text), 0)
    ensures forall k | 0 <= k < |MatchesOf(e, text)| ::
              RangeOk(e, text, MatchesOf(e, text)[k])
                && Foreign(text[MatchesOf(e, text)[k].start..MatchesOf(e, text)[k].end])
    ensures MatchesOf(e, text) == [] <==> Wordless(e, text)
  {
    MatchesOfText(e, text);
  }

  /** A pass under way: `k` of its matches have been swapped. */
  ghost predicate PassSoFar(e: Engine, text: string, st: MaskState, ts: seq<Token>, tags: seq<Label>,
                            matches: seq<Found>, k: nat, cursor: nat, out: string, st': MaskState, tags': seq<Label>,
                            done: seq<Token>, rest: seq<Token>) {
    && Progress(text, ts, st'.entries, k, cursor, out, done, rest)
    && k <= |matches| && Chain(matches[k..], cursor)
    && Ledger(e, st', tags') && Handed(text, st, tags, matches[..k], st', tags')
    && SwappedSoFar(st, text, matches, k, cursor, out, st')
  }

  lemma PassStarts(e: Engine, text: string, st: MaskState, ts: seq<Token>, tags: seq<Label>, matches: seq<Found>)
    requires Ledger(e, st, tags) && Tracks(ts, st.entries, text) && Chain(matches, 0)
    ensures PassSoFar(e, text, st, ts, tags, matches, 0, 0, "", st, tags, [], ts)
  {
    HandedNone(text, st, tags);
    assert matches[..0] == [] && matches[0..] == matches && text[0..] == text;
  }

  /** Swap one match for its placeholder. */
  method SwapMatch(e: Engine, text: string, ghost st: MaskState, ghost ts: seq<Token>, ghost tags: seq<Label>,
                   matches: seq<Found>, k: nat, cursor: nat, out: string, st1: MaskState, ghost tags1: seq<Label>,
                   ghost done: seq<Token>, ghost rest: seq<Token>)
    returns (cursor': nat, out': string, st': MaskState, ghost tags': seq<Label>,
             ghost done': seq<Token>, ghost rest': seq<Token>)
    requires Sound(e) && |st.entries| + LitCount(ts) < REMATCH_LIMIT
    requires PassSoFar(e, text, st, ts, tags, matches, k, cursor, out, st1, tags1, done, rest) && k < |matches|
    requires RangeOk(e, text, matches[k]) && Foreign(text[matches[k].start..matches[k].end])
    ensures PassSoFar(e, text, st, ts, tags, matches, k + 1, cursor', out', st', tags', done', rest')
  {
    var m := matches[k];
    assert matches[k..][0] == m && matches[k..][1..] == matches[k+1..];
    var original := text[m.start..m.end];
    WordToCome(text, ts, st1.entries, k, cursor, out, done, rest, m.start, m.end);
    var placeholder;
    placeholder, st', tags' := Assign(e, original, m.tag, st1, tags1);
    HandedMore(text, st, tags, matches, k, st1, tags1, st', tags');
    SwappedMore(st, text, matches, k, cursor, out, st1, st');
    done', rest' := PassStep(text, ts, st1.entries, st'.entries, k, cursor, out, done, rest, m.start, m.end,
      placeholder);
    out' := out + text[cursor..m.start] + placeholder;
    cursor' := m.end;
  }

  lemma PassEnds(e: Engine, text: string, st: MaskState, ts: seq<Token>, tags: seq<Label>, cursor: nat, out: string,
                 st': MaskState, tags': seq<Label>, done: seq<Token>, rest: seq<Token>)
    requires var ms := MatchesOf(e, text);
      PassSoFar(e, text, st, ts, tags, ms, |ms|, cursor, out, st', tags', done, rest)
    ensures cursor <= |text| && Tracks(done + rest, st'.entries, out + text[cursor..])
    ensures Expand(done + rest) == Expand(ts) && LitCount(done + rest) + |MatchesOf(e, text)| <= LitCount(ts)
    ensures Ledger(e, st', tags') && tags' == tags + NewTags(text, MatchesOf(e, text), st.given.Keys)
    ensures |st'.entries| <= |st.entries| + |MatchesOf(e, text)|
    ensures (out + text[cursor..], st') == AfterPass(e, text, st)
  {
    var ms := MatchesOf(e, text);
    PassEnd(text, ts, st'.entries, |ms|, cursor, out, done, rest);
    SwappedEnds(st, text, ms, cursor, out, st');
    assert ms[..|ms|] == ms;
  }

  lemma SwappedEnds(st: MaskState, text: string, matches: seq<Found>, cursor: nat, out: string, st': MaskState)
    requires SwappedSoFar(st, text, matches, |matches|, cursor, out, st') && cursor <= |text|
    ensures out + text[cursor..] == Swapped(st, text, matches) + Between(text, EndOf(matches), |text|)
    ensures st' == LearnedAll(st, text, matches)
  {
    assert matches[..|matches|] == matches && text[cursor..] == text[cursor..|text|];
  }

  /** One masking pass. `ts` and `tags` are what the text and the ledger stand for. A
      changing pass strictly lowers the number of surviving input characters; an
      unchanging one has seen a text without any word. */
  method MaskPass(e: Engine, text: string, st: MaskState, ghost ts: seq<Token>, ghost tags: seq<Label>)
    returns (out: string, changed: bool, st': MaskState, ghost ts': seq<Token>, ghost tags': seq<Label>)
    requires Sound(e) && Ledger(e, st, tags) && Tracks(ts, st.entries, text)
    requires |st.entries| + LitCount(ts) < REMATCH_LIMIT
    ensures Ledger(e, st', tags') && Tracks(ts', st'.entries, out) && Expand(ts') == Expand(ts)
    ensures |st'.entries| + LitCount(ts') <= |st.entries| + LitCount(ts)
    ensures tags' == tags + NewTags(text, MatchesOf(e, text), st.given.Keys)
    ensures changed ==> LitCount(ts') < LitCount(ts)
    ensures changed == !Wordless(e, text)
    ensures !changed ==> out == text && st' == st
    ensures (out, st') == AfterPass(e, text, st)
  {
    var matches := FindMatches(e, text);
    ChosenMatches(e, text);
    st', ts', tags' := st, ts, tags;
    PassStarts(e, text, st, ts, tags, matches);
    if matches == [] {
      PassEnds(e, text, st, ts, tags, 0, "", st, tags, [], ts);
      assert "" + text[0..] == text;
      return text, false, st', ts', tags';
    }
    out := "";
    var cursor: nat := 0;
    ghost var done: seq<Token>, rest := [], ts;
    for k := 0 to |matches|
      invariant PassSoFar(e, text, st, ts, tags, matches, k, cursor, out, st', tags', done, rest)
    {
      cursor, out, st', tags', done, rest :=
        SwapMatch(e, text, st, ts, tags, matches, k, cursor, out, st', tags', done, rest);
    }
    PassEnds(e, text, st, ts, tags, cursor, out, st', tags', done, rest);
    out := out + text[cursor..];
    changed := true;
    ts' := done + rest;
  }

  // ---- mask and unmask -------------------------------------------------------------------

  /** The masked text is the input with pieces swapped for placeholders of the map. */
  ghost predicate Explains(ts: seq<Token>, entries: seq<Entry>, text: string, masked: string) {
    Tracks(ts, entries, masked) && Expand(ts) == text
  }

  /** What has become of a text after so many passes. */
  ghost function AfterPasses(e: Engine, text: string, passes: nat): (string, MaskState) {
    if passes == 0 then (text, MaskState([], map[], map[]))
    else var (masked, st) := AfterPasses(e, text, passes - 1); AfterPass(e, masked, st)
  }

  ghost predicate FindsMore(e: Engine, text: string, passes: nat) {
    !Wordless(e, AfterPasses(e, text, passes).0)
  }

  /** The passes go on while there are words. */
  ghost predicate GoesOn(e: Engine, text: string, passes: nat) {
    forall k {:trigger FindsMore(e, text, k)} | 0 <= k < passes :: FindsMore(e, text, k)
  }

  ghost predicate ComesTo(e: Engine, text: string, passes: nat, masked: string, entries: seq<Entry>) {
    GoesOn(e, text, passes) && AfterPasses(e, text, passes).0 == masked
      && AfterPasses(e, text, passes).1.entries == entries
  }

  /** What `mask` delivers. */
  ghost predicate MaskResult(e: Engine, text: string, masked: string, entries: seq<Entry>) {
    && Wordless(e, masked)
    && |entries| <= |text| < REMATCH_LIMIT
    && (exists tags :: Numbered(e, entries, tags) && FirstTags(e, text) <= tags)
    && (exists ts :: Explains(ts, entries, text, masked))
    && (Wordless(e, text) ==> masked == text && entries == [])
  }

  /** Before the first pass the text is untouched and nothing is known; afterwards its labels
      lead the ledger's. */
  ghost predicate FirstPassIn(e: Engine, text: string, passes: nat, masked: string, st: MaskState, tags: seq<Label>) {
    && (Wordless(e, text) ==> masked == text && st.entries == [])
    && if passes == 0 then masked == text && st.given.Keys == {} && tags == [] else FirstTags(e, text) <= tags
  }

  lemma FirstPassStaysIn(e: Engine, text: string, passes: nat, masked: string, st: MaskState, tags: seq<Label>,
                         masked': string, st': MaskState, tags': seq<Label>)
    requires FirstPassIn(e, text, passes, masked, st, tags)
    requires tags' == tags + NewTags(masked, MatchesOf(e, masked), st.given.Keys)
    requires Wordless(e, masked) ==> masked' == masked && st' == st
    ensures FirstPassIn(e, text, passes + 1, masked', st', tags')
  {}

  /** The passes so far. */
  ghost predicate MaskSoFar(e: Engine, text: string, passes: nat, masked: string, st: MaskState, ts: seq<Token>,
                            tags: seq<Label>) {
    && Ledger(e, st, tags) && Explains(ts, st.entries, text, masked)
    && |st.entries| + LitCount(ts) <= |text|
    && FirstPassIn(e, text, passes, masked, st, tags)
    && Came(e, text, passes, masked, st)
  }

  ghost predicate Came(e: Engine, text: string, passes: nat, masked: string, st: MaskState) {
    GoesOn(e, text, passes) && AfterPasses(e, text, passes) == (masked, st)
  }

  lemma CameFurther(e: Engine, text: string, passes: nat, masked: string, st: MaskState, masked': string,
                    st': MaskState)
    requires Came(e, text, passes, masked, st) && !Wordless(e, masked) && (masked', st') == AfterPass(e, masked, st)
    ensures Came(e, text, passes + 1, masked', st')
  {}

  /** A loop under way, with `left` input characters surviving. */
  ghost predicate Masking(e: Engine, text: string, passes: nat, masked: string, st: MaskState, left: nat) {
    exists ts, tags :: MaskSoFar(e, text, passes, masked, st, ts, tags) && LitCount(ts) == left
  }

  lemma MaskStarts(e: Engine, text: string)
    ensures Masking(e, text, 0, text, MaskState([], map[], map[]), |text|)
  {
    LitsSpell(text);
    LitsHaveNoHoles(text);
    assert MaskSoFar(e, text, 0, text, MaskState([], map[], map[]), Lits(text), []);
  }

  /** A pass that changed something is one more. */
  lemma MaskGoesOn(e: Engine, text: string, passes: nat, masked: string, st: MaskState, ts: seq<Token>,
                   tags: seq<Label>, masked': string, st': MaskState, ts': seq<Token>, tags': seq<Label>)
    requires MaskSoFar(e, text, passes, masked, st, ts, tags) && !Wordless(e, masked)
    requires Ledger(e, st', tags') && Tracks(ts', st'.entries, masked') && Expand(ts') == Expand(ts)
    requires |st'.entries| + LitCount(ts') <= |st.entries| + LitCount(ts)
    requires tags' == tags + NewTags(masked, MatchesOf(e, masked), st.given.Keys)
    requires (masked', st') == AfterPass(e, masked, st)
    ensures MaskSoFar(e, text, passes + 1, masked', st', ts', tags')
  {
    FirstPassStaysIn(e, text, passes, masked, st, tags, masked', st', tags');
    CameFurther(e, text, passes, masked, st, masked', st');
  }

  /** A pass that found nothing was the last. */
  lemma MaskEnds(e: Engine, text: string, passes: nat, masked: string, st: MaskState, ts: seq<Token>, tags: seq<Label>,
                 tags': seq<Label>)
    requires MaskSoFar(e, text, passes, masked, st, ts, tags) && Wordless(e, masked) && |text| < REMATCH_LIMIT
    requires Ledger(e, st, tags') && tags' == tags + NewTags(masked, MatchesOf(e, masked), st.given.Keys)
    ensures MaskResult(e, text, masked, st.entries) && ComesTo(e, text, passes, masked, st.entries)
  {
    FirstPassStaysIn(e, text, passes, masked, st, tags, masked, st, tags');
    assert Numbered(e, st.entries, tags') && FirstTags(e, text) <= tags';
  }

  /** One round of the loop. */
  method MaskRound(e: Engine, text: string, masked: string, st: MaskState, ghost passes: nat, ghost left: nat)
    returns (changed: bool, masked': string, st': MaskState, ghost left': nat)
    requires Sound(e) && |text| < REMATCH_LIMIT && Masking(e, text, passes, masked, st, left)
    ensures changed ==> Masking(e, text, passes + 1, masked', st', left') && left' < left
    ensures !changed ==> MaskResult(e, text, masked', st'.entries) && ComesTo(e, text, passes, masked', st'.entries)
  {
    ghost var ts, tags :| MaskSoFar(e, text, passes, masked, st, ts, tags) && LitCount(ts) == left;
    ghost var ts', tags';
    masked', changed, st', ts', tags' := MaskPass(e, masked, st, ts, tags);
    left' := LitCount(ts');
    if changed {
      MaskGoesOn(e, text, passes, masked, st, ts, tags, masked', st', ts', tags');
    } else {
      MaskEnds(e, text, passes, masked, st, ts, tags, tags');
    }
  }

  /** Passes until nothing changes. The loop ends because every changing pass uses up
      input characters, so no counter ever reaches nine digits. */
  method Mask(e: Engine, text: string) returns (masked: string, entries: seq<Entry>, ghost passes: nat)
    requires Sound(e) && |text| < REMATCH_LIMIT
    ensures MaskResult(e, text, masked, entries) && ComesTo(e, text, passes, masked, entries)
    ensures Unmask(masked, entries) == text <==> forall k | 0 <= k < |entries| :: !Contains(text, entries[k].0)
  {
    var st := MaskState([], map[], map[]);
    ghost var left: nat := |text|;
    MaskStarts(e, text);
    masked, passes := text, 0;
    while true
      invariant Masking(e, text, passes, masked, st, left)
      decreases left
    {
      var changed;
      changed, masked, st, left := MaskRound(e, text, masked, st, passes, left);
      if !changed { break; }
      passes := passes + 1;
    }
    entries := st.entries;
    RoundTripIff(e, text, masked, entries);
  }

  lemma {:induction false} LitsHaveNoHoles(s: string)
    ensures HolesOk(Lits(s)) && forall t | t in Lits(s) :: t.Lit?
  {
    if s != [] {
      LitsHaveNoHoles(s[1..]);
      assert Lits(s)[1..] == Lits(s[1..]);
    }
  }

  /** Replace placeholders one after the other, in insertion order. */
  function Unmask(text: string, entries: seq<Entry>): string
    decreases |entries|
  {
    if entries == [] then text
    else Unmask(ReplaceAll(text, entries[0].0, entries[0].1), entries[1..])
  }

  method UnmaskText(masked: string, entries: seq<Entry>) returns (text: string)
    ensures text == Unmask(masked, entries)
  {
    text := masked;
    for k := 0 to |entries|
      invariant Unmask(text, entries[k..]) == Unmask(masked, entries)
    {
      assert entries[k..][1..] == entries[k+1..];
      text := ReplaceAll(text, entries[k].0, entries[k].1);
    }
  }

  ghost predicate Restorable(entries: seq<Entry>) {
    && (forall k | 0 <= k < |entries| :: IsPlaceholder(entries[k].0))
    && (forall i, j | 0 <= i < j < |entries| :: entries[i].0 != entries[j].0)
  }

  /** Sequential replacement in insertion order does what replacing every placeholder
      at once would do, as long as the input spells none of them. */
  lemma {:induction false} UnmaskExpands(ts: seq<Token>, entries: seq<Entry>)
    requires Restorable(entries) && HolesOk(ts) && HolesKnown(ts, entries)
    requires forall k | 0 <= k < |entries| :: !Contains(Expand(ts), entries[k].0)
    ensures Unmask(Render(ts), entries) == Expand(ts)
    decreases |entries|
  {
    if entries == [] {
      NoHolesNoChange(ts);
    } else {
      var p, orig := entries[0].0, entries[0].1;
      OnlyFirstEntry(ts, entries);
      ReplaceRestores(ts, p, orig);
      RestoreHolesOk(ts, p);
      UnmaskExpands(Restore(ts, p), entries[1..]);
    }
  }

  lemma OnlyFirstEntry(ts: seq<Token>, entries: seq<Entry>)
    requires entries != [] && Restorable(entries) && HolesKnown(ts, entries)
    ensures forall t | t in ts && t.Hole? && t.placeholder == entries[0].0 :: t.original == entries[0].1
    ensures HolesKnown(Restore(ts, entries[0].0), entries[1..])
  {
    forall t | t in ts && t.Hole?
      ensures if t.placeholder == entries[0].0 then t.original == entries[0].1
              else (t.placeholder, t.original) in entries[1..]
    {
      var k :| 0 <= k < |entries| && entries[k] == (t.placeholder, t.original);
      assert k > 0 ==> entries[1..][k-1] == entries[k] && entries[0].0 != entries[k].0;
    }
    RestoreKeeps(ts, entries[0].0);
  }

  lemma {:induction false} RestoreHolesOk(ts: seq<Token>, p: string)
    requires HolesOk(ts)
    ensures HolesOk(Restore(ts, p))
  {
    if ts != [] {
      RestoreHolesOk(ts[1..], p);
      if ts[0].Hole? && ts[0].placeholder == p {
        LitsHaveNoHoles(ts[0].original);
        HolesOkConcat(Lits(ts[0].original), Restore(ts[1..], p));
      } else {
        HolesOkConcat([ts[0]], Restore(ts[1..], p));
      }
    }
  }

  /** A placeholder that is not in a text never comes back while others are undone. */
  lemma {:induction false} NeverComesBack(text: string, entries: seq<Entry>, p: string)
    requires IsPlaceholder(p) && Contains(Unmask(text, entries), p)
    requires forall k | 0 <= k < |entries| :: IsPlaceholder(entries[k].0) && Foreign(entries[k].1)
    ensures Contains(text, p)
    decreases |entries|
  {
    if entries != [] {
      NeverComesBack(ReplaceAll(text, entries[0].0, entries[0].1), entries[1..], p);
      ForeignApart(entries[0].1, p);
      PlaceholderShape(p);
      PlaceholderShape(entries[0].0);
      ReplaceCreatesNone(text, entries[0].0, entries[0].1, p);
    }
  }

  /** Once undone, a placeholder of the map is gone for good. */
  lemma {:induction false} UndoneIsGone(text: string, entries: seq<Entry>, k: nat)
    requires k < |entries|
    requires forall i | 0 <= i < |entries| :: IsPlaceholder(entries[i].0) && Foreign(entries[i].1)
    ensures !Contains(Unmask(text, entries), entries[k].0)
    decreases |entries|
  {
    var next := ReplaceAll(text, entries[0].0, entries[0].1);
    if k == 0 {
      var p := entries[0].0;
      ForeignApart(entries[0].1, p);
      PlaceholderShape(p);
      ReplacedIsGone(text, p, entries[0].1);
      if Contains(Unmask(next, entries[1..]), p) { NeverComesBack(next, entries[1..], p); }
    } else {
      UndoneIsGone(next, entries[1..], k - 1);
    }
  }

  /** The round trip succeeds exactly when the input spells none of the placeholders
      that masking it handed out. */
  lemma RoundTripIff(e: Engine, text: string, masked: string, entries: seq<Entry>)
    requires Sound(e) && MaskResult(e, text, masked, entries)
    ensures Unmask(masked, entries) == text <==> forall k | 0 <= k < |entries| :: !Contains(text, entries[k].0)
  {
    var tags :| Numbered(e, entries, tags) && FirstTags(e, text) <= tags;
    var ts :| Explains(ts, entries, text, masked);
    forall k | 0 <= k < |entries| ensures IsPlaceholder(entries[k].0) && Foreign(entries[k].1) {
      EntryPlaceholder(e, entries, tags, k);
    }
    forall i, j | 0 <= i < j < |entries| ensures entries[i].0 != entries[j].0 {
      DistinctPlaceholders(e, entries, tags, i, j);
    }
    if forall k | 0 <= k < |entries| :: !Contains(text, entries[k].0) {
      UnmaskExpands(ts, entries);
    } else {
      var k :| 0 <= k < |entries| && Contains(text, entries[k].0);
      UndoneIsGone(masked, entries, k);
    }
  }

  /** What can be said before the call. Every input comes back that spells no `«LABEL_n»` of
      the four labels with n up to its own length. */
  lemma RoundTripWithoutPlaceholders(e: Engine, text: string, masked: string, entries: seq<Entry>)
    requires Sound(e) && MaskResult(e, text, masked, entries)
    requires forall l, n | 1 <= n <= |text| :: !Contains(text, Placeholder(l, n))
    ensures Unmask(masked, entries) == text
  {
    RoundTripIff(e, text, masked, entries);
    var tags :| Numbered(e, entries, tags) && FirstTags(e, text) <= tags;
    forall k | 0 <= k < |entries| ensures !Contains(text, entries[k].0) {
      var n := EntryAt(e, entries, tags, k);
      CountBound(tags, tags[k]);
    }
  }

  /** In particular every input without an opening guillemet. */
  lemma RoundTripWithoutGuillemets(e: Engine, text: string, masked: string, entries: seq<Entry>)
    requires Sound(e) && MaskResult(e, text, masked, entries) && OPEN_QUOTE !in text
    ensures Unmask(masked, entries) == text
  {
    forall l, n | 1 <= n <= |text| ensures !Contains(text, Placeholder(l, n)) {
      PlaceholderShape(Placeholder(l, n));
      if Contains(text, Placeholder(l, n)) { ContainsFirst(text, Placeholder(l, n)); }
    }
    RoundTripWithoutPlaceholders(e, text, masked, entries);
  }

  /** And every input is damaged that spells a `«LABEL_n»` with n up to the number of
      different words of that label the first pass finds in it. */
  lemma SpelledPlaceholderDamages(e: Engine, text: string, masked: string, entries: seq<Entry>, l: Label, n: nat)
    requires Sound(e) && MaskResult(e, text, masked, entries)
    requires 1 <= n <= Count(FirstTags(e, text), l) && Contains(text, Placeholder(l, n))
    ensures Unmask(masked, entries) != text
  {
    RoundTripIff(e, text, masked, entries);
    var tags :| Numbered(e, entries, tags) && FirstTags(e, text) <= tags;
    CountOfPrefix(FirstTags(e, text), tags, l);
    var k := HandedOut(e, entries, tags, l, n);
  }

  lemma {:induction false} CountOfPrefix(a: seq<Label>, b: seq<Label>, l: Label)
    requires a <= b
    ensures Count(a, l) <= Count(b, l)
    decreases |b|
  {
    if |a| < |b| {
      CountOfPrefix(a, b[..|b|-1], l);
    } else {
      assert a == b;
    }
  }

  /** Every number up to the counter of a label has been handed out. */
  lemma {:induction false} HandedOut(e: Engine, entries: seq<Entry>, tags: seq<Label>, l: Label, n: nat)
    returns (k: nat)
    requires Numbered(e, entries, tags) && 1 <= n <= Count(tags, l)
    ensures k < |entries| && entries[k].0 == Placeholder(l, n)
    decreases |entries|
  {
    var last := |entries| - 1;
    if tags[last] == l && n == Count(tags, l) {
      k := last;
    } else {
      k := HandedOut(e, entries[..last], tags[..last], l, n);
    }
  }

  /** A reply to the masked text: it may mention placeholders of the map, and apart from them
      spells no opening guillemet. */
  ghost predicate IsReply(entries: seq<Entry>, reply: seq<Token>) {
    HolesKnown(reply, entries) && forall t | t in reply && t.Lit? :: t.c != OPEN_QUOTE
  }

  /** Unmasking such a reply puts the originals exactly where their placeholders are
      mentioned, also in other places or more often than in the masked text. */
  lemma ReplyIsRestored(e: Engine, text: string, masked: string, entries: seq<Entry>, reply: seq<Token>)
    requires Sound(e) && MaskResult(e, text, masked, entries) && IsReply(entries, reply)
    ensures Unmask(Render(reply), entries) == Expand(reply)
  {
    var tags :| Numbered(e, entries, tags) && FirstTags(e, text) <= tags;
    forall k | 0 <= k < |entries| ensures IsPlaceholder(entries[k].0) && Foreign(entries[k].1) {
      EntryPlaceholder(e, entries, tags, k);
    }
    forall i, j | 0 <= i < j < |entries| ensures entries[i].0 != entries[j].0 {
      DistinctPlaceholders(e, entries, tags, i, j);
    }
    ReplyShape(entries, reply);
    forall k | 0 <= k < |entries| ensures !Contains(Expand(reply), entries[k].0) {
      PlaceholderShape(entries[k].0);
      if Contains(Expand(reply), entries[k].0) { ContainsFirst(Expand(reply), entries[k].0); }
    }
    UnmaskExpands(reply, entries);
  }

  lemma {:induction false} ReplyShape(entries: seq<Entry>, reply: seq<Token>)
    requires forall k | 0 <= k < |entries| :: IsPlaceholder(entries[k].0) && Foreign(entries[k].1)
    requires IsReply(entries, reply)
    ensures HolesOk(reply) && OPEN_QUOTE !in Expand(reply)
  {
    if reply != [] {
      var t := reply[0];
      assert t in reply;
      assert t.Hole? ==> (t.placeholder, t.original) in entries;
      ReplyShape(entries, reply[1..]);
    }
  }

  /** No original that masking captured is left in the masked text. */
  lemma OriginalsAreHidden(e: Engine, text: string, masked: string, entries: seq<Entry>, k: nat)
    requires Sound(e) && MaskResult(e, text, masked, entries) && k < |entries|
    ensures !Contains(masked, entries[k].1)
  {
    var tags :| Numbered(e, entries, tags) && FirstTags(e, text) <= tags;
    EntryPlaceholder(e, entries, tags, k);
    assert NoWord(e, tags[k], masked);
  }

  /** An input that talks about placeholders: whichever label is handed out first, its
      number one is already spelled here. */
  const QuotedInput: string :=
    Placeholder(SECRET, 1) + Placeholder(EMAIL, 1) + Placeholder(URL, 1) + Placeholder(PHONE, 1) + "a@b.co"

  /** "`unmask(mask(x)) == x` for all inputs" fails on it, with any engine for the four
      patterns. */
  lemma QuotedInputFails(e: Engine, digit: char -> bool, masked: string, entries: seq<Entry>)
    requires Standard(e, digit) && MaskResult(e, QuotedInput, masked, entries)
    ensures Unmask(masked, entries) != QuotedInput
  {
    StandardIsSound(e, digit);
    forall tag ensures Contains(QuotedInput, Placeholder(tag, 1)) {
      QuotedInputSpells(tag);
    }
    EmailAtEnd(e, digit);
    MatchesOfText(e, QuotedInput);
    FirstPlaceholderSpelled(e, QuotedInput, masked, entries);
  }

  /** Whatever the first pass finds first: an input that spells number one of its label is
      damaged. */
  lemma FirstPlaceholderSpelled(e: Engine, text: string, masked: string, entries: seq<Entry>)
    requires Sound(e) && MaskResult(e, text, masked, entries) && MatchesOf(e, text) != []
    requires Contains(text, Placeholder(MatchesOf(e, text)[0].tag, 1))
    ensures Unmask(masked, entries) != text
  {
    FirstMatchIsNumbered(text, MatchesOf(e, text));
    SpelledPlaceholderDamages(e, text, masked, entries, MatchesOf(e, text)[0].tag, 1);
  }

  lemma {:induction false} FirstMatchIsNumbered(text: string, matches: seq<Found>)
    requires matches != []
    ensures Count(NewTags(text, matches, {}), matches[0].tag) >= 1
    decreases |matches|
  {
    var n := |matches| - 1;
    NewTagsMore(text, matches, {}, n);
    assert matches[..n+1] == matches;
    var tags := NewTags(text, matches[..n], {});
    if n > 0 {
      FirstMatchIsNumbered(text, matches[..n]);
      CountOfPrefix(tags, NewTags(text, matches, {}), matches[0].tag);
    } else {
      assert matches[..0] == [] && NewTags(text, matches, {}) == [matches[0].tag];
      assert [matches[0].tag][..0] == [];
    }
  }

  lemma EmailAtEnd(e: Engine, digit: char -> bool)
    requires Standard(e, digit)
    ensures !NoWord(e, EMAIL, QuotedInput)
  {
    var n := |QuotedInput| - 6;
    assert QuotedInput[n..|QuotedInput|] == "a@b.co";
    assert EmailSplit("a@b.co", 1, 3);
    assert Member(EMAIL, "a@b.co", digit);
  }

  lemma QuotedInputSpells(tag: Label)
    ensures Contains(QuotedInput, Placeholder(tag, 1))
  {
    var a, b, c, d := Placeholder(SECRET, 1), Placeholder(EMAIL, 1), Placeholder(URL, 1), Placeholder(PHONE, 1);
    assert OccursAt(QuotedInput, a, 0);
    assert OccursAt(QuotedInput, b, |a|);
    assert OccursAt(QuotedInput, c, |a + b|);
    assert OccursAt(QuotedInput, d, |a + b + c|);
  }
}
