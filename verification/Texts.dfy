/** Text as the Rust core sees it: a sequence of Unicode scalar values, with the
    library operations (`str::replace`, `contains`, `trim`, `char::is_whitespace`,
    `char::is_control`) that the modelled code leans on. */
module Texts {

  /** The White_Space property: `char::is_whitespace` and the regex class `\s`. */
  predicate IsWhite(c: char) {
    || '\U{0009}' <= c <= '\U{000D}'
    || c == ' '
    || c == '\U{0085}'
    || c == '\U{00A0}'
    || c == '\U{1680}'
    || '\U{2000}' <= c <= '\U{200A}'
    || c == '\U{2028}' || c == '\U{2029}' || c == '\U{202F}' || c == '\U{205F}' || c == '\U{3000}'
  }

  /** General category Cc: `char::is_control`. */
  predicate IsControl(c: char) {
    '\U{0000}' <= c <= '\U{001F}' || '\U{007F}' <= c <= '\U{009F}'
  }

  predicate IsLetter(c: char) {
    'A' <= c <= 'Z' || 'a' <= c <= 'z'
  }

  predicate IsAsciiDigit(c: char) {
    '0' <= c <= '9'
  }

  predicate IsAsciiAlnum(c: char) {
    IsLetter(c) || IsAsciiDigit(c)
  }

  function TrimStart(s: string): string {
    if s != [] && IsWhite(s[0]) then TrimStart(s[1..]) else s
  }

  function TrimEnd(s: string): string {
    if s != [] && IsWhite(s[|s|-1]) then TrimEnd(s[..|s|-1]) else s
  }

  function Trim(s: string): string {
    TrimEnd(TrimStart(s))
  }

  predicate Blank(s: string) {
    forall i | 0 <= i < |s| :: IsWhite(s[i])
  }

  /** Trimming empties a text exactly when it is all whitespace. */
  lemma {:induction false} TrimEmptyIffBlank(s: string)
    ensures Trim(s) == [] <==> Blank(s)
  {
    if s == [] {
    } else if IsWhite(s[0]) {
      TrimEmptyIffBlank(s[1..]);
      assert Blank(s) <==> Blank(s[1..]);
    } else {
      TrimEndKeeps(s);
    }
  }

  lemma {:induction false} TrimEndKeeps(s: string)
    requires s != [] && !IsWhite(s[0])
    ensures TrimEnd(s) != []
  {
    if IsWhite(s[|s|-1]) {
      TrimEndKeeps(s[..|s|-1]);
    }
  }

  /** A trimmed text starts with something. */
  lemma {:induction false} TrimmedStart(s: string)
    requires Trim(s) != []
    ensures !IsWhite(Trim(s)[0])
  {
    StartTrimmed(s);
    EndTrimIsPrefix(TrimStart(s));
  }

  lemma {:induction false} StartTrimmed(s: string)
    ensures TrimStart(s) != [] ==> !IsWhite(TrimStart(s)[0])
  {
    if s != [] && IsWhite(s[0]) { StartTrimmed(s[1..]); }
  }

  lemma {:induction false} EndTrimIsPrefix(s: string)
    ensures TrimEnd(s) <= s
  {
    if s != [] && IsWhite(s[|s|-1]) { EndTrimIsPrefix(s[..|s|-1]); }
  }

  // ---- sequence identities -----------------------------------------------------

  lemma Assoc<T>(a: seq<T>, b: seq<T>, c: seq<T>)
    ensures a + (b + c) == (a + b) + c
  {}

  lemma ConsOf<T>(a: seq<T>, b: seq<T>)
    requires a != []
    ensures (a + b)[0] == a[0] && (a + b)[1..] == a[1..] + b
  {}

  lemma DropCat<T>(a: seq<T>, b: seq<T>)
    ensures (a + b)[|a|..] == b && (a + b)[..|a|] == a
  {}

  // ---- substrings ------------------------------------------------------------

  predicate OccursAt(s: string, p: string, i: int) {
    0 <= i && i + |p| <= |s| && s[i..i+|p|] == p
  }

  ghost predicate Contains(s: string, p: string) {
    exists i :: OccursAt(s, p, i)
  }

  lemma OccursInside(s: string, p: string, a: int, b: int, i: int)
    requires 0 <= a <= b <= |s| && OccursAt(s[a..b], p, i)
    ensures OccursAt(s, p, a + i)
  {
    forall k | 0 <= k < |p| ensures s[a+i..a+i+|p|][k] == p[k] {
      assert s[a..b][i..i+|p|][k] == s[a..b][i+k] == s[a+i+k];
    }
  }

  lemma ContainsInside(s: string, p: string, a: int, b: int)
    requires 0 <= a <= b <= |s| && Contains(s[a..b], p)
    ensures Contains(s, p)
  {
    var i :| OccursAt(s[a..b], p, i);
    OccursInside(s, p, a, b, i);
  }

  lemma ContainsFirst(s: string, p: string)
    requires p != [] && Contains(s, p)
    ensures p[0] in s
  {
    var i :| OccursAt(s, p, i);
    assert s[i..i+|p|][0] == s[i];
  }

  lemma ContainsSuffix(s: string, p: string, a: int)
    requires 0 <= a <= |s| && Contains(s[a..], p)
    ensures Contains(s, p)
  {
    assert s[a..] == s[a..|s|];
    ContainsInside(s, p, a, |s|);
  }

  // ---- str::replace ----------------------------------------------------------

  /** `s.replace(pat, rep)`: left to right, non-overlapping; an empty pattern
      matches in front of every character and at the end. */
  function ReplaceAll(s: string, pat: string, rep: string): string {
    if pat == [] then rep + (if s == [] then [] else [s[0]] + ReplaceAll(s[1..], pat, rep))
    else if s == [] then []
    else if pat <= s then rep + ReplaceAll(s[|pat|..], pat, rep)
    else [s[0]] + ReplaceAll(s[1..], pat, rep)
  }

  /** `rep` disagrees with every non-empty suffix of `t` before either runs out,
      so no occurrence of `t` can be completed by text coming from `rep`. */
  ghost predicate Apart(t: string, rep: string) {
    forall k | 0 <= k < |t| :: ClashesFrom(t, rep, k)
  }

  ghost predicate ClashesFrom(t: string, rep: string, k: nat) {
    exists m :: 0 <= m < |rep| && k + m < |t| && t[k+m] != rep[m]
  }

  /** A prefix of the replaced text that the replacement cannot supply was already
      a prefix of the original text. */
  lemma {:induction false} PrefixSurvives(u: string, pat: string, rep: string, t: string)
    requires pat != [] && Apart(t, rep)
    requires t <= ReplaceAll(u, pat, rep)
    ensures t <= u
  {
    if t == [] || u == [] {
      return;
    }
    assert ClashesFrom(t, rep, 0);
    if !(pat <= u) {
      var r := ReplaceAll(u[1..], pat, rep);
      PrefixTail(t, u[0], r);
      ApartTail(t, rep);
      PrefixSurvives(u[1..], pat, rep, t[1..]);
      assert t == [t[0]] + t[1..] && u == [u[0]] + u[1..];
    }
  }

  lemma PrefixTail(t: string, c: char, r: string)
    requires t != [] && t <= [c] + r
    ensures t[0] == c && t[1..] <= r
  {
    assert ([c] + r)[1..|t|] == r[..|t|-1];
  }

  lemma ApartTail(t: string, rep: string)
    requires t != [] && Apart(t, rep)
    ensures Apart(t[1..], rep)
  {
    forall k | 0 <= k < |t[1..]| ensures ClashesFrom(t[1..], rep, k) {
      assert ClashesFrom(t, rep, k + 1);
      var m :| 0 <= m < |rep| && k + 1 + m < |t| && t[k+1+m] != rep[m];
      assert t[1..][k+m] != rep[m];
    }
  }

  /** Replacing cannot create an occurrence of `q` when the replacement never
      holds `q`'s first character and clashes with the rest of `q`. */
  lemma {:induction false} ReplaceCreatesNone(s: string, pat: string, rep: string, q: string)
    requires pat != [] && q != [] && q[0] !in rep && Apart(q[1..], rep)
    requires Contains(ReplaceAll(s, pat, rep), q)
    ensures Contains(s, q)
  {
    var step := if pat <= s then |pat| else 1;
    var head := if pat <= s then rep else [s[0]];
    var tail := ReplaceAll(s[step..], pat, rep);
    var r := head + tail;
    var i :| OccursAt(r, q, i);
    OccurrenceInTail(head, tail, q, i);
    if i >= |head| {
      ReplaceCreatesNone(s[step..], pat, rep, q);
      ContainsSuffix(s, q, step);
    } else {
      assert r[i] == q[0];
      assert q[1..] <= tail by { assert r[0..|q|][1..] == q[1..]; assert r[1..] == tail; }
      PrefixSurvives(s[1..], pat, rep, q[1..]);
      assert q == [q[0]] + q[1..] && s == [s[0]] + s[1..];
      assert OccursAt(s, q, 0);
    }
  }

  lemma OccurrenceInTail(head: string, tail: string, q: string, i: int)
    requires OccursAt(head + tail, q, i)
    ensures i >= |head| ==> OccursAt(tail, q, i - |head|)
  {
    if i >= |head| {
      assert (head + tail)[i..i+|q|] == tail[i-|head|..i-|head|+|q|];
    }
  }

  /** Every verbatim `pat` is gone after it has been replaced. */
  lemma {:induction false} ReplacedIsGone(s: string, pat: string, rep: string)
    requires pat != [] && pat[0] !in rep && Apart(pat[1..], rep)
    ensures !Contains(ReplaceAll(s, pat, rep), pat)
  {
    if s == [] {
    } else {
      var step := if pat <= s then |pat| else 1;
      var head := if pat <= s then rep else [s[0]];
      var tail := ReplaceAll(s[step..], pat, rep);
      var r := ReplaceAll(s, pat, rep);
      assert r == head + tail;
      ReplacedIsGone(s[step..], pat, rep);
      forall i ensures !OccursAt(r, pat, i) {
        if OccursAt(r, pat, i) {
          OccurrenceInTail(head, tail, pat, i);
          if i < |head| {
            assert r[i] == pat[0];
            assert !(pat <= s);
            assert pat[1..] <= tail by { assert r[0..|pat|][1..] == pat[1..]; assert r[1..] == tail; }
            PrefixSurvives(s[1..], pat, rep, pat[1..]);
            assert false;
          }
        }
      }
    }
  }

  /** Replacing a pattern that does not occur changes nothing. */
  lemma {:induction false} ReplaceAbsent(s: string, pat: string, rep: string)
    requires pat != [] && !Contains(s, pat)
    ensures ReplaceAll(s, pat, rep) == s
  {
    if s != [] {
      assert !(pat <= s) by { if pat <= s { assert OccursAt(s, pat, 0); } }
      if Contains(s[1..], pat) { ContainsSuffix(s, pat, 1); }
      ReplaceAbsent(s[1..], pat, rep);
    }
  }
}
