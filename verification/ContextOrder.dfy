/** When the order of the facts shows in the context that `persona/context.rs` selects. */
module ContextOrder {
  import opened Ordering
  import opened KnowledgeTypes
  import opened Tokenizer
  import opened ContextSelection

  // ---- the condition -----------------------------------------------------------------------

  /** All most relevant versions of the id of `y` outrank `x`. */
  ghost predicate SurelyAhead(cands: seq<Scored>, y: Scored, x: Scored) {
    && MostRelevant(cands, y) && !SameId(y, x)
    && forall z | MostRelevant(cands, z) && SameId(z, y) :: Best(z, x)
  }

  ghost function AheadOf(cands: seq<Scored>, x: Scored): set<FactId> {
    set y | y in cands && SurelyAhead(cands, y, x) :: y.entry.id
  }

  /** In some order of the facts there is room for `x` among the first `n`. */
  ghost predicate CanShow(cands: seq<Scored>, x: Scored, n: nat) {
    |AheadOf(cands, x)| < n
  }

  /** `x'` reads like `x`, and outranks whatever `x` outranks. */
  ghost predicate Alike(cands: seq<Scored>, x: Scored, x': Scored) {
    && x.entry == x'.entry
    && forall y | MostRelevant(cands, y) && !SameId(y, x) && Best(x, y) :: Best(x', y)
  }

  /** Where there is room for a most relevant version, all of its id are alike. */
  ghost predicate ShowsSame(cands: seq<Scored>, n: nat) {
    forall x, x' | MostRelevant(cands, x) && MostRelevant(cands, x') && SameId(x, x') && CanShow(cands, x, n) ::
      Alike(cands, x, x')
  }

  lemma OneBestShowsSame(cands: seq<Scored>, n: nat)
    requires OneBestVersion(cands)
    ensures ShowsSame(cands, n)
  {}

  // ---- places ------------------------------------------------------------------------------

  ghost function Before(kept: seq<Scored>, x: Scored): set<FactId> {
    set y | y in kept && !SameId(y, x) && Best(y, x) :: y.entry.id
  }

  lemma BestBothWays(x: Scored, y: Scored)
    requires Best(x, y) && Best(y, x)
    ensures SameId(x, y)
  {}

  lemma BestThen(x: Scored, y: Scored, z: Scored)
    requires Best(x, y) && Best(y, z)
    ensures Best(x, z)
  {}

  lemma BestEitherWay(x: Scored, y: Scored)
    ensures Best(x, y) || Best(y, x)
  {}

  /** An entry's place is the number of ids that outrank it. */
  lemma PlaceCounts(kept: seq<Scored>, i: nat)
    requires SortedBy(kept, Best) && AllDiffer(kept, SameId) && i < |kept|
    ensures |Before(kept, kept[i])| == i
  {
    var x := kept[i];
    var ids := seq(i, j requires 0 <= j < i => kept[j].entry.id);
    assert NoDup(ids);
    NoDupSetSize(ids);
    forall id ensures id in ids <==> id in Before(kept, x) {
      if id in ids {
        var j :| 0 <= j < i && ids[j] == id;
        assert kept[j] in kept && Best(kept[j], x) && !SameId(kept[j], x);
      }
      if id in Before(kept, x) {
        var y :| y in kept && !SameId(y, x) && Best(y, x) && y.entry.id == id;
        var j :| 0 <= j < |kept| && kept[j] == y;
        if i < j { BestBothWays(x, y); }
        assert ids[j] == id;
      }
    }
    assert Before(kept, x) == set id | id in ids;
  }

  /** What a choice keeps: of every id one of its most relevant versions. */
  lemma KeptVersion(cands: seq<Scored>, kept: seq<Scored>, x: Scored) returns (k: Scored)
    requires IsChoice(cands, kept) && x in cands
    ensures k in kept && SameId(k, x) && MostRelevant(cands, k)
  {
    assert Represented(kept, x);
    k :| k in kept && SameId(k, x);
    assert Leads(cands, k);
    LeadersAreMostRelevant(cands, k);
  }

  lemma KeptAreMostRelevant(cands: seq<Scored>, kept: seq<Scored>, k: Scored)
    requires IsChoice(cands, kept) && k in kept
    ensures MostRelevant(cands, k)
  {
    assert Leads(cands, k);
    LeadersAreMostRelevant(cands, k);
  }

  lemma AheadIsBefore(cands: seq<Scored>, kept: seq<Scored>, x: Scored)
    requires IsChoice(cands, kept)
    ensures AheadOf(cands, x) <= Before(kept, x)
  {
    forall id | id in AheadOf(cands, x) ensures id in Before(kept, x) {
      var y :| y in cands && SurelyAhead(cands, y, x) && y.entry.id == id;
      var k := KeptVersion(cands, kept, y);
      assert Best(k, x);
    }
  }

  lemma SameSetSameAhead(c1: seq<Scored>, c2: seq<Scored>)
    requires forall x :: x in c1 <==> x in c2
    ensures forall x :: MostRelevant(c1, x) <==> MostRelevant(c2, x)
    ensures forall x :: AheadOf(c1, x) == AheadOf(c2, x)
  {
    forall x ensures MostRelevant(c1, x) <==> MostRelevant(c2, x) {}
    forall x, y ensures SurelyAhead(c1, y, x) <==> SurelyAhead(c2, y, x) {}
  }

  lemma SameSetShowsSame(c1: seq<Scored>, c2: seq<Scored>, n: nat)
    requires ShowsSame(c1, n) && forall x :: x in c1 <==> x in c2
    ensures ShowsSame(c2, n)
  {
    SameSetSameAhead(c1, c2);
    forall u, v | MostRelevant(c2, u) && MostRelevant(c2, v) && SameId(u, v) && CanShow(c2, u, n)
      ensures Alike(c2, u, v)
    {
      assert Alike(c1, u, v);
    }
  }

  // ---- the condition suffices -----------------------------------------------------------------

  lemma AlikeCanShow(cands: seq<Scored>, n: nat, x: Scored, x': Scored)
    requires ShowsSame(cands, n) && MostRelevant(cands, x) && MostRelevant(cands, x') && SameId(x, x')
    requires CanShow(cands, x, n)
    ensures CanShow(cands, x', n)
  {
    assert Alike(cands, x, x');
    forall id | id in AheadOf(cands, x') ensures id in AheadOf(cands, x) {
      var y :| y in cands && SurelyAhead(cands, y, x') && y.entry.id == id;
      forall z | MostRelevant(cands, z) && SameId(z, y) ensures Best(z, x) {
        BestEitherWay(z, x);
        if Best(x, z) { BestBothWays(x', z); }
      }
      assert SurelyAhead(cands, y, x);
    }
    SubsetSize(AheadOf(cands, x'), AheadOf(cands, x));
  }

  /** Whoever surely outranks `y'` outranks what `y'` outranks. */
  lemma AheadPassesOn(cands: seq<Scored>, y': Scored, x': Scored)
    requires MostRelevant(cands, x') && !SameId(x', y') && Best(y', x')
    ensures AheadOf(cands, y') <= AheadOf(cands, x')
  {
    forall id | id in AheadOf(cands, y') ensures id in AheadOf(cands, x') {
      var w :| w in cands && SurelyAhead(cands, w, y') && w.entry.id == id;
      forall z | MostRelevant(cands, z) && SameId(z, w) ensures Best(z, x') {
        BestThen(z, y', x');
      }
      if SameId(w, x') { BestBothWays(x', y'); }
      assert SurelyAhead(cands, w, x');
    }
  }

  /** If `x` outranks `y`, any version of its id outranks any of the other's. */
  lemma OrderCarriesOver(cands: seq<Scored>, n: nat, x: Scored, x': Scored, y: Scored, y': Scored)
    requires ShowsSame(cands, n) && CanShow(cands, x, n)
    requires MostRelevant(cands, x) && MostRelevant(cands, x') && SameId(x, x')
    requires MostRelevant(cands, y) && MostRelevant(cands, y') && SameId(y, y')
    requires !SameId(x, y) && Best(x, y)
    ensures Best(x', y')
  {
    assert Alike(cands, x, x');
    BestEitherWay(x', y');
    if Best(y', x') {
      AlikeCanShow(cands, n, x, x');
      AheadPassesOn(cands, y', x');
      SubsetSize(AheadOf(cands, y'), AheadOf(cands, x'));
      assert Alike(cands, y', y);
      BestBothWays(x', y);
    }
  }

  lemma ShownCanShow(cands: seq<Scored>, n: nat, kept: seq<Scored>, i: nat)
    requires IsChoice(cands, kept) && i < |kept| && i < n
    ensures MostRelevant(cands, kept[i]) && CanShow(cands, kept[i], n) && |Before(kept, kept[i])| == i
  {
    KeptAreMostRelevant(cands, kept, kept[i]);
    PlaceCounts(kept, i);
    AheadIsBefore(cands, kept, kept[i]);
    SubsetSize(AheadOf(cands, kept[i]), Before(kept, kept[i]));
  }

  /** The same entries in the same places. */
  lemma SamePlace(c1: seq<Scored>, c2: seq<Scored>, n: nat, a: seq<Scored>, b: seq<Scored>, i: nat)
    requires ShowsSame(c1, n) && ShowsSame(c2, n) && (forall x :: x in c1 <==> x in c2)
    requires IsChoice(c1, a) && IsChoice(c2, b) && i < |a| && i < n
    ensures i < |b| && a[i].entry == b[i].entry
  {
    ShownCanShow(c1, n, a, i);
    var x' := KeptVersion(c2, b, a[i]);
    SameSetSameAhead(c1, c2);
    assert Alike(c1, a[i], x');
    AlikeCanShow(c1, n, a[i], x');
    SameBefore(c1, c2, n, a, b, a[i], x');
    SameBefore(c2, c1, n, b, a, x', a[i]);
    var j :| 0 <= j < |b| && b[j] == x';
    PlaceCounts(b, j);
    assert Before(a, a[i]) == Before(b, x');
  }

  lemma SameBefore(c1: seq<Scored>, c2: seq<Scored>, n: nat, a: seq<Scored>, b: seq<Scored>, x: Scored, x': Scored)
    requires ShowsSame(c1, n) && (forall y :: y in c1 <==> y in c2)
    requires IsChoice(c1, a) && IsChoice(c2, b)
    requires x in a && x' in b && SameId(x, x') && CanShow(c1, x', n)
    ensures Before(a, x) <= Before(b, x')
  {
    SameSetSameAhead(c1, c2);
    KeptAreMostRelevant(c1, a, x);
    KeptAreMostRelevant(c2, b, x');
    forall id | id in Before(a, x) ensures id in Before(b, x') {
      var y :| y in a && !SameId(y, x) && Best(y, x) && y.entry.id == id;
      KeptAreMostRelevant(c1, a, y);
      var y' := KeptVersion(c2, b, y);
      BestEitherWay(x', y');
      if Best(x', y') {
        OrderCarriesOver(c1, n, x', x, y', y);
        BestBothWays(x, y);
      }
    }
  }

  /** Where the condition holds, the context depends only on the set of facts. */
  lemma ContextIgnoresOrder(tb: Tables, fs: seq<Fact>, gs: seq<Fact>, query: string, sel: Selection, total: nat,
                            a: PersonaContext, b: PersonaContext)
    requires ShowsSame(Candidates(tb, query, sel, fs), sel.maxFacts) && forall f :: f in fs <==> f in gs
    requires IsContext(tb, fs, query, sel, total, a) && IsContext(tb, gs, query, sel, total, b)
    ensures a == b
  {
    var c1, c2, n := Candidates(tb, query, sel, fs), Candidates(tb, query, sel, gs), sel.maxFacts;
    SameFactsSameCandidates(tb, fs, gs, query, sel);
    SameSetShowsSame(c1, c2, n);
    var k1: seq<Scored> :| IsChoice(c1, k1) && a == PersonaContext(Entries(Truncate(k1, n)), total);
    var k2: seq<Scored> :| IsChoice(c2, k2) && b == PersonaContext(Entries(Truncate(k2, n)), total);
    forall i: nat | i < |k1| && i < n ensures i < |k2| && k1[i].entry == k2[i].entry {
      SamePlace(c1, c2, n, k1, k2, i);
    }
    forall i: nat | i < |k2| && i < n ensures i < |k1| && k2[i].entry == k1[i].entry {
      SamePlace(c2, c1, n, k2, k1, i);
    }
    ShowsNoMore(k1, k2, n);
    ShowsNoMore(k2, k1, n);
  }

  ghost predicate ShownIn(a: seq<Scored>, b: seq<Scored>, n: nat) {
    forall i: nat | i < |a| && i < n :: i < |b| && a[i].entry == b[i].entry
  }

  lemma ShowsNoMore(a: seq<Scored>, b: seq<Scored>, n: nat)
    requires ShownIn(a, b, n)
    ensures |Truncate(a, n)| <= |Truncate(b, n)|
  {
    var m := |Truncate(a, n)|;
    if m > 0 { assert a[m-1].entry == b[m-1].entry; }
  }

  // ---- the condition is needed ------------------------------------------------------------------

  /** The facts with a favoured score, or the others. */
  ghost function Pick(tb: Tables, query: string, facts: seq<Fact>, favoured: set<Scored>, yes: bool): seq<Fact> {
    if facts == [] then []
    else
      var f := facts[|facts|-1];
      Pick(tb, query, facts[..|facts|-1], favoured, yes) + if (Score(tb, query, f) in favoured) == yes then [f] else []
  }

  lemma OneMoreCounts(a: seq<Fact>, b: seq<Fact>, init: seq<Fact>, f: Fact)
    requires multiset(a) + multiset(b) == multiset(init)
    ensures multiset(a + [f]) + multiset(b + []) == multiset(init + [f])
    ensures multiset(a + []) + multiset(b + [f]) == multiset(init + [f])
  {
    assert a + [] == a && b + [] == b;
    assert multiset(init + [f]) == multiset(init) + multiset{f};
  }

  lemma {:induction false} PickPermutes(tb: Tables, query: string, facts: seq<Fact>, favoured: set<Scored>)
    ensures multiset(Pick(tb, query, facts, favoured, true)) + multiset(Pick(tb, query, facts, favoured, false))
         == multiset(facts)
  {
    if facts != [] {
      var init, f := facts[..|facts|-1], facts[|facts|-1];
      var a, b := Pick(tb, query, init, favoured, true), Pick(tb, query, init, favoured, false);
      PickPermutes(tb, query, init, favoured);
      OneMoreCounts(a, b, init, f);
      assert facts == init + [f];
      assert Pick(tb, query, facts, favoured, true) == a + if Score(tb, query, f) in favoured then [f] else [];
      assert Pick(tb, query, facts, favoured, false) == b + if Score(tb, query, f) in favoured then [] else [f];
    }
  }

  lemma {:induction false} PickMeans(tb: Tables, query: string, facts: seq<Fact>, favoured: set<Scored>, yes: bool)
    ensures forall f | f in Pick(tb, query, facts, favoured, yes) :: (Score(tb, query, f) in favoured) == yes
  {
    if facts != [] {
      PickMeans(tb, query, facts[..|facts|-1], favoured, yes);
    }
  }

  lemma {:induction false} CandidatesJoin(tb: Tables, query: string, sel: Selection, a: seq<Fact>, b: seq<Fact>)
    ensures Candidates(tb, query, sel, a + b) == Candidates(tb, query, sel, a) + Candidates(tb, query, sel, b)
  {
    if b == [] {
      assert a + b == a;
    } else {
      CandidatesJoin(tb, query, sel, a, b[..|b|-1]);
      assert (a + b)[..|a + b|-1] == a + b[..|b|-1];
    }
  }

  /** The facts can be ordered so that favoured versions are chosen wherever they are most
      relevant. */
  lemma Favour(tb: Tables, facts: seq<Fact>, query: string, sel: Selection, favoured: set<Scored>)
    returns (gs: seq<Fact>, kept: seq<Scored>)
    ensures multiset(gs) == multiset(facts) && IsChoice(Candidates(tb, query, sel, gs), kept)
    ensures forall x :: x in Candidates(tb, query, sel, gs) <==> x in Candidates(tb, query, sel, facts)
    ensures forall k, z | k in kept && z in favoured && SameId(z, k)
      && MostRelevant(Candidates(tb, query, sel, facts), z) ::
              k in favoured
  {
    var front, back := Pick(tb, query, facts, favoured, true), Pick(tb, query, facts, favoured, false);
    gs := front + back;
    PickPermutes(tb, query, facts, favoured);
    PickMeans(tb, query, facts, favoured, true);
    PickMeans(tb, query, facts, favoured, false);
    SamePermutation(gs, facts);
    SameFactsSameCandidates(tb, gs, facts, query, sel);
    var cands, c1 := Candidates(tb, query, sel, gs), Candidates(tb, query, sel, front);
    CandidatesJoin(tb, query, sel, front, back);
    PipelineChooses(cands);
    kept := Sort(Dedup(Sort(cands, ByIdThenRelevance), SameId), Best);
    forall c | c in c1 ensures c in favoured { CandidatesMean(tb, query, sel, front, c); }
    forall c | c in Candidates(tb, query, sel, back) ensures c !in favoured { CandidatesMean(tb, query, sel, back, c); }
    forall k, z | k in kept && z in favoured && SameId(z, k) && MostRelevant(Candidates(tb, query, sel, facts), z)
      ensures k in favoured
    {
      assert Leads(cands, k);
      assert cands[..|c1|] == c1 && z in c1;
      LeaderInFront(cands, |c1|, k, z);
    }
  }

  lemma LeaderInFront(cands: seq<Scored>, n: nat, k: Scored, z: Scored)
    requires n <= |cands| && Leads(cands, k) && z in cands[..n]
    requires SameId(z, k) && z.entry.relevance >= k.entry.relevance
    ensures k in cands[..n]
  {
    var i :| LeadsAt(cands, k, i);
    var j :| 0 <= j < n && cands[..n][j] == z;
    assert SameId(cands[j], k);
    assert i <= j;
    assert cands[..n][i] == k;
  }

  /** Shuffling the facts cannot change the context. */
  ghost predicate ContextIsFixed(tb: Tables, facts: seq<Fact>, query: string, sel: Selection) {
    forall gs, total, a, b |
      && multiset(gs) == multiset(facts)
      && IsContext(tb, facts, query, sel, total, a) && IsContext(tb, gs, query, sel, total, b) :: a == b
  }

  lemma FixedEntries(tb: Tables, facts: seq<Fact>, query: string, sel: Selection, gs: seq<Fact>, hs: seq<Fact>,
                     a: seq<Scored>, b: seq<Scored>)
    requires ContextIsFixed(tb, facts, query, sel) && multiset(gs) == multiset(facts) && multiset(hs) == multiset(facts)
    requires IsChoice(Candidates(tb, query, sel, gs), a) && IsChoice(Candidates(tb, query, sel, hs), b)
    ensures Entries(Truncate(a, sel.maxFacts)) == Entries(Truncate(b, sel.maxFacts))
  {
    var cands, n := Candidates(tb, query, sel, facts), sel.maxFacts;
    PipelineChooses(cands);
    var own := PersonaContext(Entries(Truncate(Sort(Dedup(Sort(cands, ByIdThenRelevance), SameId), Best), n)), 0);
    assert IsContext(tb, facts, query, sel, 0, own);
    assert IsContext(tb, gs, query, sel, 0, PersonaContext(Entries(Truncate(a, n)), 0));
    assert IsContext(tb, hs, query, sel, 0, PersonaContext(Entries(Truncate(b, n)), 0));
  }

  /** An order of the facts in which only what surely outranks `x` comes before it. */
  lemma AtItsBest(tb: Tables, facts: seq<Fact>, query: string, sel: Selection, x: Scored)
    returns (gs: seq<Fact>, kept: seq<Scored>, p: nat)
    requires MostRelevant(Candidates(tb, query, sel, facts), x)
    ensures multiset(gs) == multiset(facts) && IsChoice(Candidates(tb, query, sel, gs), kept)
    ensures p < |kept| && kept[p] == x && p <= |AheadOf(Candidates(tb, query, sel, facts), x)|
  {
    var cands := Candidates(tb, query, sel, facts);
    var favoured := {x} + set z | z in cands && MostRelevant(cands, z) && !SameId(z, x) && !Best(z, x);
    gs, kept := Favour(tb, facts, query, sel, favoured);
    var c2 := Candidates(tb, query, sel, gs);
    SameSetSameAhead(c2, cands);
    var k := KeptVersion(c2, kept, x);
    assert k in favoured;
    assert k == x;
    p :| 0 <= p < |kept| && kept[p] == x;
    PlaceCounts(kept, p);
    forall id | id in Before(kept, x) ensures id in AheadOf(cands, x) {
      var y :| y in kept && !SameId(y, x) && Best(y, x) && y.entry.id == id;
      KeptAreMostRelevant(c2, kept, y);
      forall z | MostRelevant(cands, z) && SameId(z, y) ensures Best(z, x) {
        assert z in cands;
        assert !Best(z, x) ==> z in favoured;
      }
      assert SurelyAhead(cands, y, x);
    }
    SubsetSize(Before(kept, x), AheadOf(cands, x));
  }

  /** An order in which these two are chosen. */
  lemma BothChosen(tb: Tables, facts: seq<Fact>, query: string, sel: Selection, x: Scored, y: Scored)
    returns (gs: seq<Fact>, kept: seq<Scored>)
    requires MostRelevant(Candidates(tb, query, sel, facts), x) && MostRelevant(Candidates(tb, query, sel, facts), y)
    requires SameId(x, y) ==> x == y
    ensures multiset(gs) == multiset(facts) && IsChoice(Candidates(tb, query, sel, gs), kept)
    ensures x in kept && y in kept
    ensures forall c :: c in Candidates(tb, query, sel, gs) <==> c in Candidates(tb, query, sel, facts)
  {
    gs, kept := Favour(tb, facts, query, sel, {x, y});
    var c2 := Candidates(tb, query, sel, gs);
    var kx := KeptVersion(c2, kept, x);
    var ky := KeptVersion(c2, kept, y);
    assert kx in {x, y} && ky in {x, y};
  }

  lemma FixedMeansAlike(tb: Tables, facts: seq<Fact>, query: string, sel: Selection, x: Scored, x': Scored)
    requires ContextIsFixed(tb, facts, query, sel)
    requires var cands := Candidates(tb, query, sel, facts);
      MostRelevant(cands, x) && MostRelevant(cands, x') && SameId(x, x') && CanShow(cands, x, sel.maxFacts)
    ensures Alike(Candidates(tb, query, sel, facts), x, x')
  {
    var cands := Candidates(tb, query, sel, facts);
    var gs, a, p := AtItsBest(tb, facts, query, sel, x);
    var hs, b := BothChosen(tb, facts, query, sel, x', x');
    FixedEntries(tb, facts, query, sel, gs, hs, a, b);
    SameAtPlace(a, b, sel.maxFacts, p, x');
    forall y | MostRelevant(cands, y) && !SameId(y, x) && Best(x, y) ensures Best(x', y) {
      var js, c := BothChosen(tb, facts, query, sel, x', y);
      FixedEntries(tb, facts, query, sel, gs, js, a, c);
      SameAtPlace(a, c, sel.maxFacts, p, x');
      PlaceCounts(c, p);
      BestEitherWay(x', y);
      if Best(y, x') {
        OneMoreBefore(cands, Candidates(tb, query, sel, js), c, x, x', y);
      }
    }
  }

  lemma SameAtPlace(a: seq<Scored>, b: seq<Scored>, n: nat, p: nat, x': Scored)
    requires Entries(Truncate(a, n)) == Entries(Truncate(b, n)) && p < |a| && p < n
    requires AllDiffer(b, SameId) && x' in b && SameId(a[p], x')
    ensures p < |b| && b[p] == x' && a[p].entry == x'.entry
  {
    assert |Entries(Truncate(a, n))| == |Truncate(a, n)| && |Entries(Truncate(b, n))| == |Truncate(b, n)|;
    assert Entries(Truncate(a, n))[p] == a[p].entry;
    assert Entries(Truncate(b, n))[p] == b[p].entry;
    OneOfAKind(b, b[p], x');
  }

  /** Where `x` outranks `y` but `x'` does not, one more id comes before `x'`. */
  lemma OneMoreBefore(cands: seq<Scored>, c2: seq<Scored>, kept: seq<Scored>, x: Scored, x': Scored, y: Scored)
    requires (forall c :: c in c2 <==> c in cands) && IsChoice(c2, kept) && SameId(x, x') && y in kept
    requires MostRelevant(cands, x) && MostRelevant(cands, x') && !SameId(y, x) && Best(x, y) && Best(y, x')
    ensures |Before(kept, x')| > |AheadOf(cands, x)|
  {
    SameSetSameAhead(c2, cands);
    KeptAreMostRelevant(c2, kept, y);
    BestThen(x, y, x');
    AheadIsBeforeWorse(c2, kept, x, x');
    NotAhead(c2, x, y);
    SubsetSize(AheadOf(c2, x) + {y.entry.id}, Before(kept, x'));
  }

  lemma AheadIsBeforeWorse(cands: seq<Scored>, kept: seq<Scored>, x: Scored, x': Scored)
    requires IsChoice(cands, kept) && SameId(x, x') && Best(x, x')
    ensures AheadOf(cands, x) <= Before(kept, x')
  {
    forall id | id in AheadOf(cands, x) ensures id in Before(kept, x') {
      var w :| w in cands && SurelyAhead(cands, w, x) && w.entry.id == id;
      var k := KeptVersion(cands, kept, w);
      BestThen(k, x, x');
    }
  }

  lemma NotAhead(cands: seq<Scored>, x: Scored, y: Scored)
    requires MostRelevant(cands, y) && !SameId(y, x) && Best(x, y)
    ensures y.entry.id !in AheadOf(cands, x)
  {
    if y.entry.id in AheadOf(cands, x) {
      var w :| w in cands && SurelyAhead(cands, w, x) && w.entry.id == y.entry.id;
      BestBothWays(x, y);
    }
  }

  /** When shuffling the facts cannot change the context: exactly if, wherever there is room for
      a most relevant version, all of its id read alike and rank alike. What is never shown, and
      what is less relevant, may differ as it likes. */
  lemma ContextIsFixedIff(tb: Tables, facts: seq<Fact>, query: string, sel: Selection)
    ensures ContextIsFixed(tb, facts, query, sel) <==> ShowsSame(Candidates(tb, query, sel, facts), sel.maxFacts)
  {
    var cands := Candidates(tb, query, sel, facts);
    if ShowsSame(cands, sel.maxFacts) {
      forall gs, total, a, b |
        && multiset(gs) == multiset(facts)
        && IsContext(tb, facts, query, sel, total, a) && IsContext(tb, gs, query, sel, total, b)
        ensures a == b
      {
        SamePermutation(gs, facts);
        ContextIgnoresOrder(tb, facts, gs, query, sel, total, a, b);
      }
    }
    if ContextIsFixed(tb, facts, query, sel) {
      forall x, x' | MostRelevant(cands, x) && MostRelevant(cands, x') && SameId(x, x')
        && CanShow(cands, x, sel.maxFacts)
        ensures Alike(cands, x, x')
      {
        FixedMeansAlike(tb, facts, query, sel, x, x');
      }
    }
  }
}
