/** `tokenize` of `knowledge/search_index.rs`: words for Latin and numeric runs,
    2-grams for CJK runs. */
module Tokenizer {
  import opened Texts

  /** The parts of Unicode the tokenizer leaves to its tables: which characters are
      alphanumeric, and lowercasing of a word. */
  datatype Tables = Tables(alnum: char -> bool, lower: string -> string)

  datatype Kind = Cjk | Word | Gap

  predicate IsCjk(c: char) {
    || '\U{3040}' <= c <= '\U{30FF}'
    || '\U{3400}' <= c <= '\U{4DBF}'
    || '\U{4E00}' <= c <= '\U{9FFF}'
    || '\U{1100}' <= c <= '\U{11FF}'
    || '\U{AC00}' <= c <= '\U{D7A3}'
  }

  function KindOf(tb: Tables, c: char): Kind {
    if IsCjk(c) then Cjk else if tb.alnum(c) then Word else Gap
  }

  predicate KindAt(tb: Tables, s: string, i: int, k: Kind) {
    0 <= i < |s| && KindOf(tb, s[i]) == k
  }

  // ---- what a token is ------------------------------------------------------------

  /** A maximal run of word characters. */
  predicate WordRun(tb: Tables, s: string, x: int, y: int) {
    && 0 <= x < y <= |s|
    && (forall i | x <= i < y :: KindAt(tb, s, i, Word))
    && !KindAt(tb, s, x - 1, Word) && !KindAt(tb, s, y, Word)
  }

  /** A CJK character with no CJK neighbour. */
  predicate Lone(tb: Tables, s: string, x: int) {
    KindAt(tb, s, x, Cjk) && !KindAt(tb, s, x - 1, Cjk) && !KindAt(tb, s, x + 1, Cjk)
  }

  /** Two adjacent CJK characters. */
  predicate Pair(tb: Tables, s: string, x: int) {
    KindAt(tb, s, x, Cjk) && KindAt(tb, s, x + 1, Cjk)
  }

  /** The 2-gram at position x. */
  function Gram(s: string, x: int): string
    requires 0 <= x && x + 2 <= |s|
  {
    s[x..x+2]
  }

  function WordsUpTo(tb: Tables, s: string, end: nat): set<string>
    requires end <= |s|
  {
    set x, y | 0 <= x < end && 0 <= y <= end && WordRun(tb, s, x, y) :: tb.lower(s[x..y])
  }

  function LonesUpTo(tb: Tables, s: string, end: nat): set<string>
    requires end <= |s|
  {
    set x | 0 <= x < end && Lone(tb, s, x) :: s[x..x+1]
  }

  function PairsUpTo(tb: Tables, s: string, end: nat): set<string>
    requires end <= |s|
  {
    set x | 0 <= x < end - 1 && Pair(tb, s, x) :: Gram(s, x)
  }

  function TokensUpTo(tb: Tables, s: string, end: nat): set<string>
    requires end <= |s|
  {
    WordsUpTo(tb, s, end) + LonesUpTo(tb, s, end) + PairsUpTo(tb, s, end)
  }

  /** The index terms of a text: lowercased words, lone CJK characters, CJK 2-grams. */
  function Tokens(tb: Tables, s: string): set<string> {
    TokensUpTo(tb, s, |s|)
  }

  // ---- the scan --------------------------------------------------------------------

  /** A run `[open, i)` of one kind is being read and started right after something else. */
  ghost predicate OpenRun(tb: Tables, s: string, open: nat, i: nat, k: Kind) {
    && open <= i <= |s| && k != Gap
    && (forall j | open <= j < i :: KindAt(tb, s, j, k))
    && !KindAt(tb, s, open - 1, k)
  }

  lemma SameRun(tb: Tables, s: string, x: int, y: int, u: int, v: int)
    requires WordRun(tb, s, x, y) && WordRun(tb, s, u, v) && x < v && u < y
    ensures x == u && y == v
  {
    assert x < u ==> KindAt(tb, s, u - 1, Word);
    assert u < x ==> KindAt(tb, s, x - 1, Word);
    assert y < v ==> KindAt(tb, s, y, Word);
    assert v < y ==> KindAt(tb, s, v, Word);
  }

  lemma FlushWord(tb: Tables, s: string, open: nat, i: nat)
    requires OpenRun(tb, s, open, i, Word) && !KindAt(tb, s, i, Word) && open < i
    ensures TokensUpTo(tb, s, i) == TokensUpTo(tb, s, open) + {tb.lower(s[open..i])}
  {
    assert WordRun(tb, s, open, i);
    forall x, y | 0 <= x < i && 0 <= y <= i && WordRun(tb, s, x, y)
      ensures (x < open && y <= open) || (x == open && y == i)
    {
      if y > open { SameRun(tb, s, x, y, open, i); }
    }
    assert WordsUpTo(tb, s, i) == WordsUpTo(tb, s, open) + {tb.lower(s[open..i])};
    forall x | open <= x < i ensures !Lone(tb, s, x) {
      assert KindAt(tb, s, x, Word);
    }
    assert LonesUpTo(tb, s, i) == LonesUpTo(tb, s, open);
    forall x | open - 1 <= x < i - 1 ensures !Pair(tb, s, x) {
      assert KindAt(tb, s, x + 1, Word);
    }
    assert PairsUpTo(tb, s, i) == PairsUpTo(tb, s, open);
  }

  function GramsUpTo(s: string, open: nat, n: nat): set<string>
    requires open + n < |s| || n == 0
  {
    set x | open <= x < open + n :: Gram(s, x)
  }

  /** The tokens of a flushed CJK run: the character itself, or all its pairs. */
  function CjkRunTokens(s: string, open: nat, i: nat): set<string>
    requires open < i <= |s|
  {
    if i == open + 1 then {s[open..i]} else GramsUpTo(s, open, i - open - 1)
  }

  lemma CjkRunWords(tb: Tables, s: string, open: nat, i: nat)
    requires OpenRun(tb, s, open, i, Cjk) && open < i
    ensures WordsUpTo(tb, s, i) == WordsUpTo(tb, s, open)
  {
    forall x, y | 0 <= x < i && 0 <= y <= i && WordRun(tb, s, x, y) ensures x < open && y <= open {
      assert KindAt(tb, s, x, Word);
      assert open <= x ==> KindAt(tb, s, x, Cjk);
      assert y > open ==> KindAt(tb, s, open, Word);
      assert KindAt(tb, s, open, Cjk);
    }
  }

  lemma CjkRunLones(tb: Tables, s: string, open: nat, i: nat)
    requires OpenRun(tb, s, open, i, Cjk) && !KindAt(tb, s, i, Cjk) && open < i
    ensures LonesUpTo(tb, s, i) == LonesUpTo(tb, s, open) + (if i == open + 1 then {s[open..i]} else {})
  {
    forall x | open <= x < i ensures Lone(tb, s, x) <==> i == open + 1 {
      assert KindAt(tb, s, x, Cjk);
      assert x > open ==> KindAt(tb, s, x - 1, Cjk);
      assert x + 1 < i ==> KindAt(tb, s, x + 1, Cjk);
    }
    if i == open + 1 {
      assert Lone(tb, s, open) && s[open..open+1] == s[open..i];
    }
  }

  lemma CjkRunPairs(tb: Tables, s: string, open: nat, i: nat)
    requires OpenRun(tb, s, open, i, Cjk) && !KindAt(tb, s, i, Cjk) && open < i
    ensures PairsUpTo(tb, s, i) == PairsUpTo(tb, s, open) + GramsUpTo(s, open, i - open - 1)
  {
    forall x | open <= x < i - 1 ensures Pair(tb, s, x) {
      assert KindAt(tb, s, x, Cjk) && KindAt(tb, s, x + 1, Cjk);
    }
    assert !Pair(tb, s, open - 1);
    forall g | g in PairsUpTo(tb, s, i) ensures g in PairsUpTo(tb, s, open) + GramsUpTo(s, open, i - open - 1) {
      var x :| 0 <= x < i - 1 && Pair(tb, s, x) && g == Gram(s, x);
      assert x != open - 1;
    }
    forall g | g in GramsUpTo(s, open, i - open - 1) ensures g in PairsUpTo(tb, s, i) {
      var x :| open <= x < open + (i - open - 1) && g == Gram(s, x);
      assert Pair(tb, s, x);
    }
  }

  lemma FlushCjk(tb: Tables, s: string, open: nat, i: nat)
    requires OpenRun(tb, s, open, i, Cjk) && !KindAt(tb, s, i, Cjk) && open < i
    ensures TokensUpTo(tb, s, i) == TokensUpTo(tb, s, open) + CjkRunTokens(s, open, i)
  {
    CjkRunWords(tb, s, open, i);
    CjkRunLones(tb, s, open, i);
    CjkRunPairs(tb, s, open, i);
  }

  lemma SkipGap(tb: Tables, s: string, i: nat)
    requires KindAt(tb, s, i, Gap)
    ensures TokensUpTo(tb, s, i + 1) == TokensUpTo(tb, s, i)
  {
    forall x, y | 0 <= x < i + 1 && 0 <= y <= i + 1 && WordRun(tb, s, x, y) ensures x < i && y <= i {
      assert y == i + 1 ==> KindAt(tb, s, i, Word);
    }
    assert WordsUpTo(tb, s, i + 1) == WordsUpTo(tb, s, i);
    assert LonesUpTo(tb, s, i + 1) == LonesUpTo(tb, s, i);
    assert PairsUpTo(tb, s, i + 1) == PairsUpTo(tb, s, i);
  }

  function LatinTokens(tb: Tables, latin: string): set<string> {
    if latin != [] then {tb.lower(latin)} else {}
  }

  function CjkTokens(cjk: string): set<string> {
    if cjk != [] then CjkRunTokens(cjk, 0, |cjk|) else {}
  }

  method FlushLatinBuffer(tb: Tables, latin: string, out: set<string>) returns (out': set<string>)
    ensures out' == out + LatinTokens(tb, latin)
  {
    out' := if latin != [] then out + {tb.lower(latin)} else out;
  }

  method FlushCjkBuffer(cjk: string, out: set<string>) returns (out': set<string>)
    ensures out' == out + CjkTokens(cjk)
  {
    out' := out;
    if |cjk| == 1 {
      out' := out + {cjk};
      assert cjk[0..1] == cjk;
    } else if |cjk| > 1 {
      for k := 0 to |cjk| - 1
        invariant out' == out + GramsUpTo(cjk, 0, k)
      {
        out' := out' + {Gram(cjk, k)};
      }
    }
  }

  lemma RunTokensOfSlice(s: string, open: nat, i: nat)
    requires open < i <= |s|
    ensures CjkRunTokens(s[open..i], 0, i - open) == CjkRunTokens(s, open, i)
  {
    var w := s[open..i];
    assert w[0..i-open] == w;
    forall x: nat | x + 2 <= |w| ensures Gram(w, x) == Gram(s, open + x) {
      assert w[x] == s[open+x] && w[x+1] == s[open+x+1];
      assert w[x..x+2] == [w[x], w[x+1]];
      assert s[open+x..open+x+2] == [s[open+x], s[open+x+1]];
    }
    if i > open + 1 {
      GramsAgree(w, s, open, i - open - 1);
    }
  }

  lemma GramsAgree(w: string, s: string, open: nat, n: nat)
    requires 0 < n < |w| && open + n < |s|
    requires forall x: nat | x + 2 <= |w| :: open + x + 2 <= |s| && Gram(w, x) == Gram(s, open + x)
    ensures GramsUpTo(w, 0, n) == GramsUpTo(s, open, n)
  {
    var ws, ss := GramsUpTo(w, 0, n), GramsUpTo(s, open, n);
    forall g: string ensures g in ws <==> g in ss {
      if g in ws {
        var x :| 0 <= x < n && g == Gram(w, x);
        assert g == Gram(s, open + x);
      }
      if g in ss {
        var x :| open <= x < open + n && g == Gram(s, x);
        assert g == Gram(w, x - open);
      }
    }
  }

  /** The scan has read `i` characters: `out` has the tokens of every finished run, and
      one of the buffers holds the run being read, which started at `open`. */
  ghost predicate Scanned(tb: Tables, text: string, i: nat, open: nat, latin: string, cjk: string, out: set<string>) {
    && open <= i <= |text| && out == TokensUpTo(tb, text, open)
    && (latin == [] || cjk == [])
    && (latin == [] && cjk == [] ==> open == i && !KindAt(tb, text, i - 1, Word) && !KindAt(tb, text, i - 1, Cjk))
    && (latin != [] ==> open < i && latin == text[open..i] && OpenRun(tb, text, open, i, Word))
    && (cjk != [] ==> open < i && cjk == text[open..i] && OpenRun(tb, text, open, i, Cjk))
  }

  lemma OneChar(text: string, i: nat)
    requires i < |text|
    ensures text[i..i+1] == [text[i]]
  {}

  lemma OneMoreChar(text: string, open: nat, i: nat)
    requires open <= i < |text|
    ensures text[open..i] + [text[i]] == text[open..i+1]
  {}

  lemma ScanCjk(tb: Tables, text: string, i: nat, open: nat, latin: string, cjk: string, out: set<string>)
    requires Scanned(tb, text, i, open, latin, cjk, out) && KindAt(tb, text, i, Cjk)
    ensures Scanned(tb, text, i + 1, if latin != [] then i else open, [], cjk + [text[i]], out + LatinTokens(tb, latin))
  {
    OneChar(text, i);
    OneMoreChar(text, open, i);
    if latin != [] {
      assert KindAt(tb, text, i - 1, Word);
      FlushWord(tb, text, open, i);
    } else {
      assert out + LatinTokens(tb, latin) == out;
    }
  }

  lemma ScanWord(tb: Tables, text: string, i: nat, open: nat, latin: string, cjk: string, out: set<string>)
    requires Scanned(tb, text, i, open, latin, cjk, out) && KindAt(tb, text, i, Word)
    ensures Scanned(tb, text, i + 1, if cjk != [] then i else open, latin + [text[i]], [], out + CjkTokens(cjk))
  {
    OneChar(text, i);
    OneMoreChar(text, open, i);
    if cjk != [] {
      assert KindAt(tb, text, i - 1, Cjk);
      FlushCjk(tb, text, open, i);
      RunTokensOfSlice(text, open, i);
    } else {
      assert out + CjkTokens(cjk) == out;
    }
  }

  /** A gap, or the end of the text, flushes both buffers. */
  lemma ScanFlush(tb: Tables, text: string, i: nat, open: nat, latin: string, cjk: string, out: set<string>)
    requires Scanned(tb, text, i, open, latin, cjk, out) && !KindAt(tb, text, i, Word) && !KindAt(tb, text, i, Cjk)
    ensures out + LatinTokens(tb, latin) + CjkTokens(cjk) == TokensUpTo(tb, text, i)
  {
    if latin != [] { FlushWord(tb, text, open, i); }
    if cjk != [] { FlushCjk(tb, text, open, i); RunTokensOfSlice(text, open, i); }
  }

  lemma ScanGap(tb: Tables, text: string, i: nat, open: nat, latin: string, cjk: string, out: set<string>)
    requires Scanned(tb, text, i, open, latin, cjk, out) && KindAt(tb, text, i, Gap)
    ensures Scanned(tb, text, i + 1, i + 1, [], [], out + LatinTokens(tb, latin) + CjkTokens(cjk))
  {
    ScanFlush(tb, text, i, open, latin, cjk, out);
    SkipGap(tb, text, i);
  }

  /** The single left-to-right scan collects exactly the tokens. */
  method Tokenize(tb: Tables, text: string) returns (out: set<string>)
    ensures out == Tokens(tb, text)
  {
    out := {};
    var latin: string, cjk: string := [], [];
    ghost var open: nat := 0;
    for i := 0 to |text|
      invariant Scanned(tb, text, i, open, latin, cjk, out)
    {
      var c := text[i];
      if IsCjk(c) {
        ScanCjk(tb, text, i, open, latin, cjk, out);
        open := if latin != [] then i else open;
        out := FlushLatinBuffer(tb, latin, out);
        latin, cjk := [], cjk + [c];
      } else if tb.alnum(c) {
        ScanWord(tb, text, i, open, latin, cjk, out);
        open := if cjk != [] then i else open;
        out := FlushCjkBuffer(cjk, out);
        latin, cjk := latin + [c], [];
      } else {
        ScanGap(tb, text, i, open, latin, cjk, out);
        open := i + 1;
        out := FlushLatinBuffer(tb, latin, out);
        out := FlushCjkBuffer(cjk, out);
        latin, cjk := [], [];
      }
    }
    ScanFlush(tb, text, |text|, open, latin, cjk, out);
    out := FlushLatinBuffer(tb, latin, out);
    out := FlushCjkBuffer(cjk, out);
  }

  // ---- what callers rely on ------------------------------------------------------------

  /** Every adjacent CJK pair of a text is one of its tokens. */
  lemma PairIsToken(tb: Tables, s: string, x: nat)
    requires x + 1 < |s| && IsCjk(s[x]) && IsCjk(s[x+1])
    ensures Gram(s, x) in Tokens(tb, s)
  {
    assert Pair(tb, s, x);
    assert Gram(s, x) in PairsUpTo(tb, s, |s|);
  }

  ghost predicate AllCjk(s: string) {
    forall i | 0 <= i < |s| :: IsCjk(s[i])
  }

  /** The tokens of an all-CJK text of two or more characters are its pairs. */
  lemma CjkTokensArePairs(tb: Tables, q: string)
    requires AllCjk(q) && |q| >= 2
    ensures Tokens(tb, q) == GramsUpTo(q, 0, |q| - 1)
  {
    assert OpenRun(tb, q, 0, |q|, Cjk) by {
      assert forall j | 0 <= j < |q| :: KindAt(tb, q, j, Cjk);
    }
    FlushCjk(tb, q, 0, |q|);
    assert TokensUpTo(tb, q, 0) == {};
  }

  /** An all-CJK query of at least two characters that occurs in a text asks only for
      tokens the text has. */
  lemma CjkQueryCovered(tb: Tables, q: string, s: string)
    requires AllCjk(q) && |q| >= 2 && Contains(s, q)
    ensures {} < Tokens(tb, q) <= Tokens(tb, s)
  {
    var a :| OccursAt(s, q, a);
    CjkTokensArePairs(tb, q);
    assert Gram(q, 0) in Tokens(tb, q);
    forall t | t in Tokens(tb, q) ensures t in Tokens(tb, s) {
      var x :| 0 <= x < |q| - 1 && t == Gram(q, x);
      GramOfOccurrence(s, q, a, x);
      PairIsToken(tb, s, a + x);
    }
  }

  lemma GramOfOccurrence(s: string, q: string, a: int, x: nat)
    requires OccursAt(s, q, a) && x + 1 < |q|
    ensures Gram(s, a + x) == Gram(q, x) && s[a+x] == q[x] && s[a+x+1] == q[x+1]
  {
    assert s[a..a+|q|][x] == s[a+x] && s[a..a+|q|][x+1] == s[a+x+1];
    assert q[x..x+2] == [q[x], q[x+1]];
    assert s[a+x..a+x+2] == [s[a+x], s[a+x+1]];
  }

  /** Joining two texts with a character that belongs to no token joins their tokens. */
  lemma TokensOfJoin(tb: Tables, a: string, b: string, gap: char)
    requires KindOf(tb, gap) == Gap
    ensures Tokens(tb, a + [gap] + b) == Tokens(tb, a) + Tokens(tb, b)
  {
    var s := a + [gap] + b;
    var n := |a| + 1;
    KindsOfJoin(tb, a, b, gap);
    forall t | t in Tokens(tb, s) ensures t in Tokens(tb, a) + Tokens(tb, b) {
      TokenOfJoinSplits(tb, a, b, gap, t);
    }
    forall t | t in Tokens(tb, a) + Tokens(tb, b) ensures t in Tokens(tb, s) {
      if t in Tokens(tb, a) { LeftTokenJoins(tb, a, b, gap, t); } else { RightTokenJoins(tb, a, b, gap, t); }
    }
  }

  lemma KindsOfJoin(tb: Tables, a: string, b: string, gap: char)
    requires KindOf(tb, gap) == Gap
    ensures var s := a + [gap] + b;
      forall i, k | k != Gap :: KindAt(tb, s, i, k) <==> KindAt(tb, a, i, k) || KindAt(tb, b, i - |a| - 1, k)
  {
    var s := a + [gap] + b;
    forall i, k | k != Gap ensures KindAt(tb, s, i, k) <==> KindAt(tb, a, i, k) || KindAt(tb, b, i - |a| - 1, k) {
      if 0 <= i < |s| {
        assert s[i] == if i < |a| then a[i] else if i == |a| then gap else b[i-|a|-1];
      }
    }
  }

  lemma JoinSlices(a: string, b: string, gap: char)
    ensures forall x, y | 0 <= x <= y <= |a| :: (a + [gap] + b)[x..y] == a[x..y]
    ensures forall x, y | 0 <= x <= y <= |b| :: (a + [gap] + b)[|a|+1+x..|a|+1+y] == b[x..y]
  {}

  lemma TokenOfJoinSplits(tb: Tables, a: string, b: string, gap: char, t: string)
    requires KindOf(tb, gap) == Gap && t in Tokens(tb, a + [gap] + b)
    ensures t in Tokens(tb, a) + Tokens(tb, b)
  {
    var s := a + [gap] + b;
    if t in WordsUpTo(tb, s, |s|) {
      var x, y :| 0 <= x < |s| && 0 <= y <= |s| && WordRun(tb, s, x, y) && t == tb.lower(s[x..y]);
      RunOfJoinSplits(tb, a, b, gap, x, y);
    } else {
      CjkOfJoinSplits(tb, a, b, gap, t);
    }
  }

  lemma RunOfJoinSplits(tb: Tables, a: string, b: string, gap: char, x: int, y: int)
    requires KindOf(tb, gap) == Gap && WordRun(tb, a + [gap] + b, x, y)
    ensures tb.lower((a + [gap] + b)[x..y]) in WordsUpTo(tb, a, |a|) + WordsUpTo(tb, b, |b|)
  {
    var s, n := a + [gap] + b, |a| + 1;
    KindsOfJoin(tb, a, b, gap);
    assert KindAt(tb, s, x, Word);
    if x < |a| {
      assert y > |a| ==> KindAt(tb, s, |a|, Word);
      assert forall i | x <= i < y :: KindAt(tb, s, i, Word);
      assert WordRun(tb, a, x, y);
      assert s[x..y] == a[x..y];
    } else {
      forall i | x - n <= i < y - n ensures KindAt(tb, b, i, Word) {
        assert KindAt(tb, s, i + n, Word);
      }
      assert WordRun(tb, b, x - n, y - n);
      assert s[x..y] == b[x-n..y-n];
    }
  }

  lemma CjkOfJoinSplits(tb: Tables, a: string, b: string, gap: char, t: string)
    requires KindOf(tb, gap) == Gap
    requires var s := a + [gap] + b; t in LonesUpTo(tb, s, |s|) + PairsUpTo(tb, s, |s|)
    ensures t in Tokens(tb, a) + Tokens(tb, b)
  {
    var s, n := a + [gap] + b, |a| + 1;
    KindsOfJoin(tb, a, b, gap);
    JoinSlices(a, b, gap);
    if t in LonesUpTo(tb, s, |s|) {
      var x :| 0 <= x < |s| && Lone(tb, s, x) && t == s[x..x+1];
      if x < |a| {
        assert Lone(tb, a, x) && t in LonesUpTo(tb, a, |a|);
      } else {
        assert Lone(tb, b, x - n) && t == b[x-n..x-n+1] && t in LonesUpTo(tb, b, |b|);
      }
    } else {
      var x :| 0 <= x < |s| - 1 && Pair(tb, s, x) && t == Gram(s, x);
      if x < |a| {
        assert Pair(tb, a, x) && t == Gram(a, x) && t in PairsUpTo(tb, a, |a|);
      } else {
        assert Pair(tb, b, x - n) && t == Gram(b, x - n) && t in PairsUpTo(tb, b, |b|);
      }
    }
  }

  lemma LeftTokenJoins(tb: Tables, a: string, b: string, gap: char, t: string)
    requires KindOf(tb, gap) == Gap && t in Tokens(tb, a)
    ensures t in Tokens(tb, a + [gap] + b)
  {
    var s := a + [gap] + b;
    KindsOfJoin(tb, a, b, gap);
    JoinSlices(a, b, gap);
    if t in WordsUpTo(tb, a, |a|) {
      var x, y :| 0 <= x < |a| && 0 <= y <= |a| && WordRun(tb, a, x, y) && t == tb.lower(a[x..y]);
      assert WordRun(tb, s, x, y) && t in WordsUpTo(tb, s, |s|);
    } else if t in LonesUpTo(tb, a, |a|) {
      var x :| 0 <= x < |a| && Lone(tb, a, x) && t == a[x..x+1];
      assert Lone(tb, s, x) && t in LonesUpTo(tb, s, |s|);
    } else {
      var x :| 0 <= x < |a| - 1 && Pair(tb, a, x) && t == Gram(a, x);
      assert Pair(tb, s, x) && t in PairsUpTo(tb, s, |s|);
    }
  }

  lemma RightTokenJoins(tb: Tables, a: string, b: string, gap: char, t: string)
    requires KindOf(tb, gap) == Gap && t in Tokens(tb, b)
    ensures t in Tokens(tb, a + [gap] + b)
  {
    if t in WordsUpTo(tb, b, |b|) {
      var x, y :| 0 <= x < |b| && 0 <= y <= |b| && WordRun(tb, b, x, y) && t == tb.lower(b[x..y]);
      RightRunJoins(tb, a, b, gap, x, y);
    } else if t in LonesUpTo(tb, b, |b|) {
      var x :| 0 <= x < |b| && Lone(tb, b, x) && t == b[x..x+1];
      RightLoneJoins(tb, a, b, gap, x);
    } else {
      var x :| 0 <= x < |b| - 1 && Pair(tb, b, x) && t == Gram(b, x);
      RightPairJoins(tb, a, b, gap, x);
    }
  }

  lemma RightLoneJoins(tb: Tables, a: string, b: string, gap: char, x: nat)
    requires KindOf(tb, gap) == Gap && x < |b| && Lone(tb, b, x)
    ensures var s := a + [gap] + b; b[x..x+1] in LonesUpTo(tb, s, |s|)
  {
    var s, n := a + [gap] + b, |a| + 1;
    KindsOfJoin(tb, a, b, gap);
    assert s[n+x..n+x+1] == b[x..x+1];
    assert Lone(tb, s, n + x);
  }

  lemma RightPairJoins(tb: Tables, a: string, b: string, gap: char, x: nat)
    requires KindOf(tb, gap) == Gap && x < |b| - 1 && Pair(tb, b, x)
    ensures var s := a + [gap] + b; Gram(b, x) in PairsUpTo(tb, s, |s|)
  {
    var s, n := a + [gap] + b, |a| + 1;
    KindsOfJoin(tb, a, b, gap);
    assert Gram(s, n + x) == b[x..x+2];
    assert Pair(tb, s, n + x);
  }

  lemma RightRunJoins(tb: Tables, a: string, b: string, gap: char, x: int, y: int)
    requires KindOf(tb, gap) == Gap && WordRun(tb, b, x, y)
    ensures var s := a + [gap] + b; tb.lower(b[x..y]) in WordsUpTo(tb, s, |s|)
  {
    var s, n := a + [gap] + b, |a| + 1;
    KindsOfJoin(tb, a, b, gap);
    forall i | n + x <= i < n + y ensures KindAt(tb, s, i, Word) {
      assert KindAt(tb, b, i - n, Word);
    }
    assert WordRun(tb, s, n + x, n + y);
    assert s[n+x..n+y] == b[x..y];
  }
}
