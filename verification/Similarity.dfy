/** `core/text.rs`: when two titles say the same thing. */
module Similarity {
  import opened Texts
  import opened Ordering

  /** The parts of Unicode that folding leaves to its tables. */
  datatype Folding = Folding(alnum: char -> bool, lower: char -> string)

  /** Lowercase, without decoration and without spaces. */
  function Normalize(fd: Folding, title: string): string {
    if title == [] then []
    else
      var c := title[0];
      (if !IsWhite(c) && (fd.alnum(c) || c == '_') then fd.lower(c) else []) + Normalize(fd, title[1..])
  }

  type Bigram = (char, char)

  function BigramAt(s: string, i: nat): Bigram
    requires i + 1 < |s|
  {
    (s[i], s[i+1])
  }

  function Bigrams(s: string): set<Bigram> {
    set i: nat | i < |s| - 1 :: BigramAt(s, i)
  }

  /** Jaccard overlap of at least 0.45; two empty sets do not overlap. */
  predicate Overlap(a: set<Bigram>, b: set<Bigram>) {
    a + b != {} && 20 * |a * b| >= 9 * |a + b|
  }

  predicate NearDuplicate(fd: Folding, a: string, b: string) {
    var na, nb := Normalize(fd, a), Normalize(fd, b);
    (na != [] && na == nb) || Overlap(Bigrams(na), Bigrams(nb))
  }

  lemma NearIsSymmetric(fd: Folding, a: string, b: string)
    ensures NearDuplicate(fd, a, b) <==> NearDuplicate(fd, b, a)
  {
    var x, y := Bigrams(Normalize(fd, a)), Bigrams(Normalize(fd, b));
    assert x + y == y + x && x * y == y * x;
  }

  /** A title is a duplicate of itself exactly when something of it survives folding:
      punctuation alone is no evidence of sameness. */
  lemma NearItself(fd: Folding, a: string)
    ensures NearDuplicate(fd, a, a) <==> Normalize(fd, a) != []
  {
    if Normalize(fd, a) == [] {
      assert Bigrams(Normalize(fd, a)) == {};
    }
  }

  /** What resembles anything has something left after folding, so it resembles itself. */
  lemma NearImpliesSelf(fd: Folding, a: string, b: string)
    requires NearDuplicate(fd, a, b)
    ensures NearDuplicate(fd, a, a)
  {
    NearItself(fd, a);
    var x, y := Bigrams(Normalize(fd, a)), Bigrams(Normalize(fd, b));
    assert Normalize(fd, a) == [] ==> x == {};
    assert x == {} ==> x * y == {};
  }

  /** Spaces, quotes, punctuation. */
  predicate IsDecoration(fd: Folding, c: char) {
    IsWhite(c) || (!fd.alnum(c) && c != '_')
  }

  lemma {:induction false} NormalizeJoin(fd: Folding, a: string, b: string)
    ensures Normalize(fd, a + b) == Normalize(fd, a) + Normalize(fd, b)
  {
    if a == [] {
      assert a + b == b;
    } else {
      NormalizeJoin(fd, a[1..], b);
      assert (a + b)[1..] == a[1..] + b;
    }
  }

  lemma {:induction false} DecorationFoldsAway(fd: Folding, deco: string)
    requires forall c | c in deco :: IsDecoration(fd, c)
    ensures Normalize(fd, deco) == []
  {
    if deco != [] {
      assert deco[0] in deco;
      DecorationFoldsAway(fd, deco[1..]);
    }
  }

  lemma DecoratedFoldsAlike(fd: Folding, a: string, deco: string, b: string)
    requires forall c | c in deco :: IsDecoration(fd, c)
    ensures Normalize(fd, a + deco + b) == Normalize(fd, a + b)
  {
    DecorationFoldsAway(fd, deco);
    NormalizeJoin(fd, a, deco);
    NormalizeJoin(fd, a + deco, b);
    NormalizeJoin(fd, a, b);
    assert Normalize(fd, a) + [] == Normalize(fd, a);
  }

  /** Decoration, spacing and quotes, put anywhere, do not make a new title. */
  lemma OnlyFoldedTextCounts(fd: Folding, a: string, deco: string, b: string, t: string)
    requires forall c | c in deco :: IsDecoration(fd, c)
    ensures NearDuplicate(fd, a + deco + b, t) <==> NearDuplicate(fd, a + b, t)
    ensures NearDuplicate(fd, t, a + deco + b) <==> NearDuplicate(fd, t, a + b)
  {
    DecoratedFoldsAlike(fd, a, deco, b);
    var decorated, plain := a + deco + b, a + b;
    assert NearDuplicate(fd, decorated, t) <==> NearDuplicate(fd, plain, t);
    assert NearDuplicate(fd, t, decorated) <==> NearDuplicate(fd, t, plain);
  }

  // ---- not an equivalence ----------------------------------------------------------

  function PlainLower(c: char): string {
    [c]
  }

  predicate PlainAlnum(c: char) {
    IsAsciiAlnum(c)
  }

  /** Tables that are right for lowercase ASCII text. */
  const PLAIN := Folding(PlainAlnum, PlainLower)

  lemma {:induction false} PlainText(s: string)
    requires forall i | 0 <= i < |s| :: 'a' <= s[i] <= 'z'
    ensures Normalize(PLAIN, s) == s
  {
    if s != [] {
      PlainText(s[1..]);
      assert s == [s[0]] + s[1..];
    }
  }

  lemma FourLetters(s: string)
    requires |s| == 4
    ensures Bigrams(s) == {BigramAt(s, 0), BigramAt(s, 1), BigramAt(s, 2)}
  {}

  lemma SharingTwo(x: Bigram, y: Bigram, z: Bigram, w: Bigram)
    requires |{x, y, z, w}| == 4
    ensures Overlap({x, y, z}, {y, z, w})
  {
    assert {x, y, z} + {y, z, w} == {x, y, z, w};
    assert {x, y, z} * {y, z, w} >= {y, z};
    assert |{y, z}| == 2;
    SubsetSize({y, z}, {x, y, z} * {y, z, w});
  }

  lemma SharingOne(x: Bigram, y: Bigram, z: Bigram, v: Bigram, w: Bigram)
    requires |{x, y, z, v, w}| == 5
    ensures !Overlap({x, y, z}, {z, v, w})
  {
    assert {x, y, z} + {z, v, w} == {x, y, z, v, w};
    assert {x, y, z} * {z, v, w} == {z};
  }

  ghost predicate FourLowercase(s: string) {
    |s| == 4 && forall i | 0 <= i < |s| :: 'a' <= s[i] <= 'z'
  }

  lemma ShiftedByOne(s: string, t: string)
    requires FourLowercase(s) && FourLowercase(t) && s[1] == t[0] && s[2] == t[1] && s[3] == t[2]
    requires |{BigramAt(s, 0), BigramAt(s, 1), BigramAt(s, 2), BigramAt(t, 2)}| == 4
    ensures NearDuplicate(PLAIN, s, t)
  {
    PlainText(s);
    PlainText(t);
    FourLetters(s);
    FourLetters(t);
    SharingTwo(BigramAt(s, 0), BigramAt(s, 1), BigramAt(s, 2), BigramAt(t, 2));
  }

  lemma ShiftedByTwo(s: string, t: string)
    requires FourLowercase(s) && FourLowercase(t) && s != t && s[2] == t[0] && s[3] == t[1]
    requires |{BigramAt(s, 0), BigramAt(s, 1), BigramAt(s, 2), BigramAt(t, 1), BigramAt(t, 2)}| == 5
    ensures !NearDuplicate(PLAIN, s, t)
  {
    PlainText(s);
    PlainText(t);
    FourLetters(s);
    FourLetters(t);
    SharingOne(BigramAt(s, 0), BigramAt(s, 1), BigramAt(s, 2), BigramAt(t, 1), BigramAt(t, 2));
  }

  /** The first resembles the second and the second the third, but not the first the
      third. */
  lemma NearIsNotTransitive()
    ensures NearDuplicate(PLAIN, "abcd", "bcde") && NearDuplicate(PLAIN, "bcde", "cdef")
    ensures !NearDuplicate(PLAIN, "abcd", "cdef")
  {
    ShiftedByOne("abcd", "bcde");
    ShiftedByOne("bcde", "cdef");
    ShiftedByTwo("abcd", "cdef");
  }
}
