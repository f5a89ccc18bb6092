/** `persona/context.rs`: scoring facts against a query and choosing the bounded context. */
module ContextSelection {
  import opened Wrappers
  import opened Texts
  import opened Ordering
  import opened Sources
  import opened KnowledgeTypes
  import opened Tokenizer

  const TITLE_WEIGHT: nat := 3
  const MIN_TERM_LEN: nat := 2

  datatype Selection = Selection(maxFacts: nat, scope: Option<Scope>)
  datatype Entry = Entry(id: FactId, title: string, body: string, scope: Scope, relevance: nat)
  datatype PersonaContext = PersonaContext(entries: seq<Entry>, totalConfirmed: nat)

  // ---- scoring ---------------------------------------------------------------------------

  /** `split` at every character that is not alphanumeric. */
  function Pieces(tb: Tables, s: string): (ps: seq<string>)
    ensures ps != []
  {
    if s == [] then [[]]
    else
      var ps, c := Pieces(tb, s[..|s|-1]), s[|s|-1];
      if tb.alnum(c) then ps[..|ps|-1] + [ps[|ps|-1] + [c]] else ps + [[]]
  }

  /** `matches(term).count()`: non-overlapping occurrences, left to right. */
  function Occurrences(s: string, term: string): nat
    requires term != []
    decreases |s|
  {
    if |s| < |term| then 0
    else if term <= s then 1 + Occurrences(s[|term|..], term)
    else Occurrences(s[1..], term)
  }

  function SumHits(pieces: seq<string>, haystack: string): nat {
    if pieces == [] then 0
    else
      var t := pieces[|pieces|-1];
      SumHits(pieces[..|pieces|-1], haystack) + if |t| >= MIN_TERM_LEN then Occurrences(haystack, t) else 0
  }

  /** `term_hits` */
  function TermHits(tb: Tables, query: string, haystack: string): nat {
    SumHits(Pieces(tb, tb.lower(query)), haystack)
  }

  function TitleRelevance(tb: Tables, query: string, title: string): nat {
    TermHits(tb, query, tb.lower(title)) * TITLE_WEIGHT
  }

  function Relevance(tb: Tables, query: string, f: Fact): nat {
    TitleRelevance(tb, query, f.title) + TermHits(tb, query, tb.lower(f.body))
  }

  lemma {:induction false} OccursIffCounted(s: string, term: string)
    requires term != []
    ensures Occurrences(s, term) > 0 <==> Contains(s, term)
    decreases |s|
  {
    if |s| >= |term| {
      if term <= s {
        assert OccursAt(s, term, 0);
      } else {
        OccursIffCounted(s[1..], term);
        if Contains(s, term) {
          var i :| OccursAt(s, term, i);
          assert i != 0;
          assert s[1..][i-1..i-1+|term|] == s[i..i+|term|];
          assert OccursAt(s[1..], term, i - 1);
        }
        if Contains(s[1..], term) { ContainsSuffix(s, term, 1); }
      }
    }
  }

  ghost predicate IsTerm(tb: Tables, query: string, t: string) {
    t in Pieces(tb, tb.lower(query)) && |t| >= MIN_TERM_LEN
  }

  lemma {:induction false} SumHitsPositive(pieces: seq<string>, haystack: string)
    ensures SumHits(pieces, haystack) > 0 <==> exists t :: t in pieces && |t| >= MIN_TERM_LEN && Contains(haystack, t)
  {
    if pieces != [] {
      var init, last := pieces[..|pieces|-1], pieces[|pieces|-1];
      SumHitsPositive(init, haystack);
      assert pieces == init + [last];
      if |last| >= MIN_TERM_LEN { OccursIffCounted(haystack, last); }
    }
  }

  /** A text scores exactly when one of the query's terms of two or more characters occurs
      in it; a query without such terms scores nothing anywhere. */
  lemma ScoresIffTermOccurs(tb: Tables, query: string, haystack: string)
    ensures TermHits(tb, query, haystack) > 0 <==> exists t :: IsTerm(tb, query, t) && Contains(haystack, t)
  {
    SumHitsPositive(Pieces(tb, tb.lower(query)), haystack);
  }

  // ---- candidates and their orders -------------------------------------------------------------

  /** An entry with the time that breaks ties. */
  datatype Scored = Scored(entry: Entry, confirmedAt: Option<Time>)

  predicate Eligible(sel: Selection, f: Fact) {
    f.meta.confirmed && InScope(sel.scope, f.meta.scope)
  }

  function Score(tb: Tables, query: string, f: Fact): Scored {
    Scored(Entry(f.id, f.title, f.body, f.meta.scope, Relevance(tb, query, f)), f.meta.confirmedAt)
  }

  function Candidates(tb: Tables, query: string, sel: Selection, facts: seq<Fact>): seq<Scored> {
    if facts == [] then []
    else
      var f := facts[|facts|-1];
      Candidates(tb, query, sel, facts[..|facts|-1]) + if Eligible(sel, f) then [Score(tb, query, f)] else []
  }

  lemma {:induction false} CandidatesMean(tb: Tables, query: string, sel: Selection, facts: seq<Fact>, c: Scored)
    ensures c in Candidates(tb, query, sel, facts)
      <==> exists f :: f in facts && Eligible(sel, f) && c == Score(tb, query, f)
  {
    if facts != [] {
      CandidatesMean(tb, query, sel, facts[..|facts|-1], c);
      assert facts == facts[..|facts|-1] + [facts[|facts|-1]];
    }
  }

  predicate SameId(a: Scored, b: Scored) {
    a.entry.id == b.entry.id
  }

  /** By id, the more relevant version first. */
  predicate ByIdThenRelevance(a: Scored, b: Scored) {
    a.entry.id < b.entry.id || (a.entry.id == b.entry.id && a.entry.relevance >= b.entry.relevance)
  }

  predicate Newer(a: Option<Time>, b: Option<Time>) {
    a.Some? && (b.None? || a.value > b.value)
  }

  /** Most relevant, then most recently confirmed, then by id. */
  predicate Best(a: Scored, b: Scored) {
    if a.entry.relevance != b.entry.relevance then a.entry.relevance > b.entry.relevance
    else if a.confirmedAt != b.confirmedAt then Newer(a.confirmedAt, b.confirmedAt)
    else a.entry.id <= b.entry.id
  }

  lemma CandidateOrders()
    ensures TotalPreorder(ByIdThenRelevance) && Equivalence(SameId) && KeepsTogether(ByIdThenRelevance, SameId)
    ensures TotalPreorder(Best)
  {}

  // ---- what is chosen -------------------------------------------------------------------------------

  ghost predicate Represented(kept: seq<Scored>, x: Scored) {
    exists k :: k in kept && SameId(k, x)
  }

  ghost predicate MostRelevant(cands: seq<Scored>, k: Scored) {
    k in cands && forall x | x in cands && SameId(x, k) :: x.entry.relevance <= k.entry.relevance
  }

  ghost predicate LeadsAt(cands: seq<Scored>, k: Scored, i: int) {
    && 0 <= i < |cands| && cands[i] == k
    && (forall j | 0 <= j < i && SameId(cands[j], k) :: cands[j].entry.relevance < k.entry.relevance)
    && (forall j | i <= j < |cands| && SameId(cands[j], k) :: cands[j].entry.relevance <= k.entry.relevance)
  }

  /** The first of the most relevant versions of its id. */
  ghost predicate Leads(cands: seq<Scored>, k: Scored) {
    exists i :: LeadsAt(cands, k, i)
  }

  /** Of every candidate id the first of its most relevant versions, best first. */
  ghost predicate IsChoice(cands: seq<Scored>, kept: seq<Scored>) {
    && SortedBy(kept, Best) && AllDiffer(kept, SameId)
    && (forall k {:trigger Leads(cands, k)} | k in kept :: Leads(cands, k))
    && (forall x {:trigger Represented(kept, x)} | x in cands :: Represented(kept, x))
  }

  function Entries(kept: seq<Scored>): seq<Entry> {
    seq(|kept|, i requires 0 <= i < |kept| => kept[i].entry)
  }

  ghost predicate IsContext(tb: Tables, facts: seq<Fact>, query: string, sel: Selection, total: nat,
                            ctx: PersonaContext) {
    exists kept :: IsChoice(Candidates(tb, query, sel, facts), kept)
                   && ctx == PersonaContext(Entries(Truncate(kept, sel.maxFacts)), total)
  }

  /** The version of `id` that leads, if any. */
  function Leader(cands: seq<Scored>, id: FactId): Option<Scored> {
    if cands == [] then None
    else
      var l, x := Leader(cands[..|cands|-1], id), cands[|cands|-1];
      if x.entry.id == id && (l.None? || x.entry.relevance > l.value.entry.relevance) then Some(x) else l
  }

  lemma {:induction false} LeaderLeads(cands: seq<Scored>, id: FactId)
    ensures Leader(cands, id).Some? ==> Leader(cands, id).value.entry.id == id && Leads(cands, Leader(cands, id).value)
    ensures forall x | x in cands && x.entry.id == id ::
      Leader(cands, id).Some? && x.entry.relevance <= Leader(cands, id).value.entry.relevance
  {
    if cands != [] {
      var n := |cands| - 1;
      var init, x, l := cands[..n], cands[n], Leader(cands[..n], id);
      LeaderLeads(init, id);
      assert cands == init + [x];
      if x.entry.id == id && (l.None? || x.entry.relevance > l.value.entry.relevance) {
        assert forall j | 0 <= j < n && SameId(cands[j], x) ::
          cands[j] in init && cands[j].entry.relevance < x.entry.relevance;
        assert LeadsAt(cands, x, n);
      } else if l.Some? {
        var i :| LeadsAt(init, l.value, i);
        assert forall j | 0 <= j < n :: init[j] == cands[j];
        assert LeadsAt(cands, l.value, i);
      }
    }
  }

  lemma LeadsOnce(cands: seq<Scored>, a: Scored, b: Scored)
    requires Leads(cands, a) && Leads(cands, b) && SameId(a, b)
    ensures a == b
  {
    var i :| LeadsAt(cands, a, i);
    var j :| LeadsAt(cands, b, j);
    assert SameId(cands[i], b) && SameId(cands[j], a);
  }

  function Ahead(x: Scored, l: Option<Scored>, id: FactId): Option<Scored> {
    if x.entry.id == id && (l.None? || x.entry.relevance >= l.value.entry.relevance) then Some(x) else l
  }

  lemma {:induction false} LeaderFromFront(x: Scored, ys: seq<Scored>, id: FactId)
    ensures Leader([x] + ys, id) == Ahead(x, Leader(ys, id), id)
  {
    if ys != [] {
      var n := |ys| - 1;
      LeaderFromFront(x, ys[..n], id);
      assert ([x] + ys)[..n+1] == [x] + ys[..n];
    } else {
      assert [x] + ys == [x] && [x][..0] == [];
    }
  }

  lemma {:induction false} InsertKeepsLeader(x: Scored, ys: seq<Scored>, id: FactId)
    ensures Leader(Insert(x, ys, ByIdThenRelevance), id) == Leader([x] + ys, id)
  {
    if ys != [] && !ByIdThenRelevance(x, ys[0]) {
      var rest := ys[1..];
      InsertKeepsLeader(x, rest, id);
      LeaderFromFront(ys[0], Insert(x, rest, ByIdThenRelevance), id);
      LeaderFromFront(x, rest, id);
      LeaderFromFront(ys[0], rest, id);
      LeaderFromFront(x, ys, id);
      assert ys == [ys[0]] + rest;
    } else if ys == [] {
      assert [x] + ys == [x];
    }
  }

  lemma {:induction false} SortKeepsLeader(xs: seq<Scored>, id: FactId)
    ensures Leader(Sort(xs, ByIdThenRelevance), id) == Leader(xs, id)
  {
    if xs != [] {
      var rest := xs[1..];
      SortKeepsLeader(rest, id);
      InsertKeepsLeader(xs[0], Sort(rest, ByIdThenRelevance), id);
      LeaderFromFront(xs[0], Sort(rest, ByIdThenRelevance), id);
      LeaderFromFront(xs[0], rest, id);
      assert xs == [xs[0]] + rest;
    }
  }

  lemma {:induction false} DedupKeepsLeader(xs: seq<Scored>, id: FactId)
    requires SortedBy(xs, ByIdThenRelevance)
    ensures Leader(Dedup(xs, SameId), id) == Leader(xs, id)
  {
    if |xs| >= 2 {
      var n := |xs| - 1;
      DedupKeepsLeader(xs[..n], id);
      if SameId(xs[n], xs[n-1]) {
        LeaderLeads(xs[..n], id);
        assert xs[n-1] == xs[..n][n-1] && ByIdThenRelevance(xs[n-1], xs[n]);
      } else {
        var kept := Dedup(xs[..n], SameId);
        assert (kept + [xs[n]])[..|kept|] == kept;
      }
    }
  }

  /** Sorting by id, deduplicating and sorting by rank makes the choice. */
  lemma PipelineChooses(cands: seq<Scored>)
    ensures IsChoice(cands, Sort(Dedup(Sort(cands, ByIdThenRelevance), SameId), Best))
  {
    var byId := Sort(cands, ByIdThenRelevance);
    var once := Dedup(byId, SameId);
    var kept := Sort(once, Best);
    CandidateOrders();
    SortSorts(cands, ByIdThenRelevance);
    DedupSorted(byId, ByIdThenRelevance, SameId);
    SortPermutes(once, Best);
    SortSorts(once, Best);
    SortKeepsDiffering(once, kept);
    forall id ensures Leader(once, id) == Leader(cands, id) {
      SortKeepsLeader(cands, id);
      DedupKeepsLeader(byId, id);
    }
    forall k | k in kept ensures Leads(cands, k) {
      LeaderLeads(once, k.entry.id);
      OneOfAKind(once, k, Leader(once, k.entry.id).value);
      LeaderLeads(cands, k.entry.id);
    }
    forall x | x in cands ensures Represented(kept, x) {
      LeaderLeads(cands, x.entry.id);
      LeaderLeads(once, x.entry.id);
      assert SameId(Leader(once, x.entry.id).value, x);
    }
  }

  lemma SortKeepsDiffering(xs: seq<Scored>, ys: seq<Scored>)
    requires multiset(xs) == multiset(ys) && AllDiffer(xs, SameId)
    ensures AllDiffer(ys, SameId)
  {
    SamePermutation(xs, ys);
    assert NoDup(xs);
    PermutationKeepsNoDup(xs, ys);
    forall i, j | 0 <= i < j < |ys| ensures !SameId(ys[i], ys[j]) {
      assert ys[i] in xs && ys[j] in xs && ys[i] != ys[j];
      if SameId(ys[i], ys[j]) { OneOfAKind(xs, ys[i], ys[j]); }
    }
  }

  lemma OneOfAKind(xs: seq<Scored>, a: Scored, b: Scored)
    requires AllDiffer(xs, SameId) && a in xs && b in xs && SameId(a, b)
    ensures a == b
  {
    var i :| 0 <= i < |xs| && xs[i] == a;
    var j :| 0 <= j < |xs| && xs[j] == b;
  }

  /** `select_context` */
  method SelectContext(tb: Tables, facts: seq<Fact>, query: string, sel: Selection, total: nat)
    returns (ctx: PersonaContext)
    ensures IsContext(tb, facts, query, sel, total, ctx)
  {
    var entries := Candidates(tb, query, sel, facts);
    PipelineChooses(entries);
    entries := Sort(entries, ByIdThenRelevance);
    entries := Dedup(entries, SameId);
    entries := Sort(entries, Best);
    ctx := PersonaContext(Entries(Truncate(entries, sel.maxFacts)), total);
  }

  // ---- order independence ----------------------------------------------------------------------------

  /** No id has two different versions that are both its most relevant. */
  ghost predicate OneBestVersion(cands: seq<Scored>) {
    forall a, b | MostRelevant(cands, a) && MostRelevant(cands, b) && SameId(a, b) :: a == b
  }

  lemma LeadersAreMostRelevant(cands: seq<Scored>, k: Scored)
    requires Leads(cands, k)
    ensures MostRelevant(cands, k)
  {
    var i :| LeadsAt(cands, k, i);
    forall x | x in cands && SameId(x, k) ensures x.entry.relevance <= k.entry.relevance {
      var j :| 0 <= j < |cands| && cands[j] == x;
    }
  }

  /** The choice is determined by the candidates in their order; and by the mere set of them
      if every id has one most relevant version. */
  lemma ChoiceIsUnique(c1: seq<Scored>, c2: seq<Scored>, a: seq<Scored>, b: seq<Scored>)
    requires c1 == c2 || (OneBestVersion(c1) && forall x :: x in c1 <==> x in c2)
    requires IsChoice(c1, a) && IsChoice(c2, b)
    ensures a == b
  {
    ChoiceIncluded(c1, c2, a, b);
    assert OneBestVersion(c1) && (forall x :: x in c1 <==> x in c2) ==> OneBestVersion(c2) by {
      if forall x :: x in c1 <==> x in c2 {
        forall x ensures MostRelevant(c1, x) <==> MostRelevant(c2, x) {}
      }
    }
    ChoiceIncluded(c2, c1, b, a);
    NoDupPermutation(a, b);
    CandidateOrders();
    forall x, y | x in a && y in a && Best(x, y) && Best(y, x) ensures x == y {
      assert x.entry.id == y.entry.id;
    }
    SortedUnique(a, b, Best);
  }

  lemma ChoiceIncluded(c1: seq<Scored>, c2: seq<Scored>, a: seq<Scored>, b: seq<Scored>)
    requires c1 == c2 || (OneBestVersion(c1) && forall x :: x in c1 <==> x in c2)
    requires IsChoice(c1, a) && IsChoice(c2, b)
    ensures forall k | k in a :: k in b
  {
    forall k | k in a ensures k in b {
      assert Leads(c1, k);
      LeadersAreMostRelevant(c1, k);
      assert Represented(b, k);
      var k' :| k' in b && SameId(k', k);
      assert Leads(c2, k');
      LeadersAreMostRelevant(c2, k');
      if c1 == c2 { LeadsOnce(c1, k, k'); } else { assert MostRelevant(c1, k'); }
    }
  }

  /** Equal ids mean equal facts. */
  ghost predicate IdsIdentify(facts: seq<Fact>) {
    forall f, g | f in facts && g in facts && f.id == g.id :: f == g
  }

  lemma IdentifiedOneBest(tb: Tables, facts: seq<Fact>, query: string, sel: Selection)
    requires IdsIdentify(facts)
    ensures OneBestVersion(Candidates(tb, query, sel, facts))
  {
    var cands := Candidates(tb, query, sel, facts);
    forall a, b | a in cands && b in cands && SameId(a, b) ensures a == b {
      CandidatesMean(tb, query, sel, facts, a);
      CandidatesMean(tb, query, sel, facts, b);
    }
  }

  lemma SameFactsSameCandidates(tb: Tables, fs: seq<Fact>, gs: seq<Fact>, query: string, sel: Selection)
    requires forall f :: f in fs <==> f in gs
    ensures forall c :: c in Candidates(tb, query, sel, fs) <==> c in Candidates(tb, query, sel, gs)
  {
    forall c ensures c in Candidates(tb, query, sel, fs) <==> c in Candidates(tb, query, sel, gs) {
      CandidatesMean(tb, query, sel, fs, c);
      CandidatesMean(tb, query, sel, gs, c);
    }
  }

  lemma ChoiceHasLeader(cands: seq<Scored>, kept: seq<Scored>, x: Scored)
    requires IsChoice(cands, kept) && Leads(cands, x)
    ensures x in kept
  {
    assert Represented(kept, x);
    var k :| k in kept && SameId(k, x);
    assert Leads(cands, k);
    LeadsOnce(cands, k, x);
  }

  /** Nothing whose id was dropped outranks anything that was kept, other than a version that
      had to give way to an equally relevant one. */
  lemma NothingDroppedOutranks(cands: seq<Scored>, kept: seq<Scored>, n: nat, x: Scored, y: Scored)
    requires IsChoice(cands, kept) && (MostRelevant(cands, x) ==> Leads(cands, x))
    requires x in cands && !Represented(Truncate(kept, n), x) && y in Truncate(kept, n)
    ensures Best(y, x)
  {
    var cut := Truncate(kept, n);
    assert Represented(kept, x);
    var k :| k in kept && SameId(k, x);
    assert Leads(cands, k);
    LeadersAreMostRelevant(cands, k);
    if x.entry.relevance == k.entry.relevance { LeadsOnce(cands, k, x); }
    var i :| 0 <= i < |cut| && cut[i] == y;
    var j :| 0 <= j < |kept| && kept[j] == k;
    KeptIsRepresented(kept, n, j, x);
    assert kept[i] == y && i < j;
    assert Best(kept[i], kept[j]);
    BestOverLesser(y, k, x);
  }

  lemma KeptIsRepresented(kept: seq<Scored>, n: nat, j: nat, x: Scored)
    requires j < |kept| && SameId(kept[j], x)
    ensures j < n ==> Represented(Truncate(kept, n), x)
  {
    if j < n { assert Truncate(kept, n)[j] == kept[j]; }
  }

  lemma BestOverLesser(y: Scored, k: Scored, x: Scored)
    requires Best(y, k) && SameId(k, x) && x.entry.relevance <= k.entry.relevance
    requires x.entry.relevance == k.entry.relevance ==> x == k
    ensures Best(y, x)
  {}

  /** Of two equally relevant versions of one id the first met is the context. */
  lemma FirstVersionWins(tb: Tables, f: Fact, g: Fact, query: string, sel: Selection, total: nat, ctx: PersonaContext)
    requires f.id == g.id && Eligible(sel, f) && Eligible(sel, g) && sel.maxFacts >= 1
    requires Relevance(tb, query, f) == Relevance(tb, query, g)
    requires IsContext(tb, [f, g], query, sel, total, ctx)
    ensures ctx.entries == [Score(tb, query, f).entry]
  {
    var cands, x := Candidates(tb, query, sel, [f, g]), Score(tb, query, f);
    assert [f, g][..1] == [f] && [f][..0] == [];
    assert Candidates(tb, query, sel, [f]) == [x];
    assert cands == [x, Score(tb, query, g)];
    assert LeadsAt(cands, x, 0);
    var kept :| IsChoice(cands, kept) && ctx == PersonaContext(Entries(Truncate(kept, sel.maxFacts)), total);
    ChoiceHasLeader(cands, kept, x);
    forall k | k in kept ensures k == x {
      assert Leads(cands, k);
      LeadsOnce(cands, k, x);
    }
    OnlyOne(kept, x);
  }

  lemma OnlyOne(kept: seq<Scored>, x: Scored)
    requires AllDiffer(kept, SameId) && x in kept && forall k | k in kept :: k == x
    ensures kept == [x]
  {
    assert forall i | 0 <= i < |kept| :: kept[i] in kept;
    assert |kept| > 1 ==> kept[0] == kept[1];
  }

  /** A version of one confirmed note. */
  function Version(body: string): Fact {
    Fact(0, "Note", body, [], FactMeta(SourceKind.File, 0, true, Personal, Some(0), Private, None, [], FactKind.Note))
  }

  /** The claim that shuffling cannot change the output fails: two versions of one fact, a
      blank query, and the context quotes whichever came first. */
  lemma ShufflingChangesContext(tb: Tables, sel: Selection, total: nat, a: PersonaContext, b: PersonaContext)
    requires tb.lower("") == "" && sel == Selection(10, None)
    requires IsContext(tb, [Version("tea"), Version("coffee")], "", sel, total, a)
    requires IsContext(tb, [Version("coffee"), Version("tea")], "", sel, total, b)
    ensures |a.entries| == |b.entries| == 1 && a.entries[0].body == "tea" && b.entries[0].body == "coffee"
  {
    forall f: Fact ensures Relevance(tb, "", f) == 0 { BlankScoresNothing(tb, f); }
    FirstVersionWins(tb, Version("tea"), Version("coffee"), "", sel, total, a);
    FirstVersionWins(tb, Version("coffee"), Version("tea"), "", sel, total, b);
  }

  lemma BlankScoresNothing(tb: Tables, f: Fact)
    requires tb.lower("") == ""
    ensures Relevance(tb, "", f) == 0
  {
    forall haystack: string ensures SumHits([""], haystack) == 0 {
      assert [""][..0] == [] && SumHits([], haystack) == 0;
    }
  }
}
