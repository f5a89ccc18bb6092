/** `build_context` of `persona/service.rs`: search, widen, rank by title, fetch within the
    cap, select. */
module PersonaService {
  import opened Wrappers
  import opened Ordering
  import opened KnowledgeTypes
  import opened Tokenizer
  import opened SearchIndex
  import opened ContextSelection
  import opened ContextOrder

  datatype StoreError = Unavailable

  /** What the knowledge service answers while a context is built. */
  datatype Knowledge = Knowledge(
    search: (string, Option<Scope>) -> Result<seq<FactSummary>, StoreError>,
    get: FactId -> Result<Fact, StoreError>)

  /** Answers are about this store; searches list what is found in any order, and any call
      may fail instead. */
  ghost predicate Serves(tb: Tables, docs: map<FactId, Fact>, k: Knowledge) {
    && Filed(docs)
    && (forall q, scope | k.search(q, scope).Ok? :: IsResult(docs, Found(tb, docs, q, scope), k.search(q, scope).value))
    && (forall id | k.get(id).Ok? :: id in docs && docs[id] == k.get(id).value)
  }

  ghost predicate Healthy(docs: map<FactId, Fact>, k: Knowledge) {
    (forall q, scope :: k.search(q, scope).Ok?) && forall id | id in docs :: k.get(id).Ok?
  }

  // ---- the candidate list --------------------------------------------------------------------

  function Confirmed(hits: seq<FactSummary>): seq<FactSummary> {
    if hits == [] then []
    else Confirmed(hits[..|hits|-1]) + if hits[|hits|-1].confirmed then [hits[|hits|-1]] else []
  }

  lemma {:induction false} ConfirmedMeans(hits: seq<FactSummary>)
    requires forall i, j | 0 <= i < j < |hits| :: hits[i].id != hits[j].id
    ensures forall h :: h in Confirmed(hits) <==> h in hits && h.confirmed
    ensures forall i, j | 0 <= i < j < |Confirmed(hits)| :: Confirmed(hits)[i].id != Confirmed(hits)[j].id
  {
    if hits != [] {
      var n := |hits| - 1;
      ConfirmedMeans(hits[..n]);
      assert hits == hits[..n] + [hits[n]];
      forall h | h in hits[..n] ensures h.id != hits[n].id {
        var i :| 0 <= i < n && hits[..n][i] == h;
      }
    }
  }

  /** The confirmed facts a search finds. */
  ghost function FoundConfirmed(tb: Tables, docs: map<FactId, Fact>, query: string, scope: Option<Scope>): set<FactId> {
    set id | id in Found(tb, docs, query, scope) && id in docs && docs[id].meta.confirmed
  }

  /** The ids considered: the confirmed hits, and the whole confirmed population when there
      are fewer hits than the context could hold. */
  ghost function Considered(tb: Tables, docs: map<FactId, Fact>, prompt: string, sel: Selection): set<FactId> {
    var hits := FoundConfirmed(tb, docs, prompt, sel.scope);
    if |hits| < sel.maxFacts then hits + FoundConfirmed(tb, docs, "", sel.scope) else hits
  }

  predicate TitleLe(tb: Tables, prompt: string, a: FactSummary, b: FactSummary) {
    var x, y := TitleRelevance(tb, prompt, a.title), TitleRelevance(tb, prompt, b.title);
    x > y || (x == y && a.id <= b.id)
  }

  function TitleOrder(tb: Tables, prompt: string): (FactSummary, FactSummary) -> bool {
    (a, b) => TitleLe(tb, prompt, a, b)
  }

  lemma OrdersHold(tb: Tables, prompt: string)
    ensures TotalPreorder(ById) && Equivalence(SameSummary) && KeepsTogether(ById, SameSummary)
    ensures TotalPreorder(TitleOrder(tb, prompt))
  {}

  ghost predicate SpeakOf(docs: map<FactId, Fact>, hits: seq<FactSummary>) {
    forall h | h in hits :: h.id in docs && h == Summarize(docs[h.id])
  }

  /** The facts considered, each once, by title relevance and then id. */
  ghost predicate IsShortlist(tb: Tables, docs: map<FactId, Fact>, prompt: string, ids: set<FactId>,
                              list: seq<FactSummary>) {
    && SortedBy(list, TitleOrder(tb, prompt)) && NoDup(list) && SpeakOf(docs, list)
    && (forall id | id in docs :: id in ids <==> Summarize(docs[id]) in list)
  }

  lemma ConfirmedHits(tb: Tables, docs: map<FactId, Fact>, query: string, scope: Option<Scope>, hits: seq<FactSummary>)
    requires Filed(docs) && IsResult(docs, Found(tb, docs, query, scope), hits)
    ensures SpeakOf(docs, Confirmed(hits)) && |Confirmed(hits)| == |FoundConfirmed(tb, docs, query, scope)|
    ensures forall id | id in docs ::
      id in FoundConfirmed(tb, docs, query, scope) <==> Summarize(docs[id]) in Confirmed(hits)
  {
    var kept := Confirmed(hits);
    ConfirmedMeans(hits);
    forall h | h in kept ensures h.id in docs && h == Summarize(docs[h.id]) {
      var i :| 0 <= i < |hits| && hits[i] == h;
    }
    forall id | id in docs ensures id in FoundConfirmed(tb, docs, query, scope) <==> Summarize(docs[id]) in kept {
      if id in FoundConfirmed(tb, docs, query, scope) {
        var i :| 0 <= i < |hits| && hits[i].id == id;
      }
      if Summarize(docs[id]) in hits {
        var i :| 0 <= i < |hits| && hits[i] == Summarize(docs[id]);
      }
    }
    CountByIds(docs, kept, FoundConfirmed(tb, docs, query, scope));
  }

  lemma CountByIds(docs: map<FactId, Fact>, list: seq<FactSummary>, ids: set<FactId>)
    requires forall i, j | 0 <= i < j < |list| :: list[i].id != list[j].id
    requires ids <= docs.Keys && SpeakOf(docs, list) && Filed(docs)
    requires forall id | id in docs :: id in ids <==> Summarize(docs[id]) in list
    ensures |list| == |ids|
  {
    var keys := seq(|list|, i requires 0 <= i < |list| => list[i].id);
    assert NoDup(keys);
    NoDupSetSize(keys);
    assert (set x | x in keys) == ids by {
      forall x ensures x in keys <==> x in ids {
        if x in keys {
          var i :| 0 <= i < |keys| && keys[i] == x;
          assert list[i] in list;
        }
        if x in ids {
          var i :| 0 <= i < |list| && list[i] == Summarize(docs[x]);
          assert keys[i] == x;
        }
      }
    }
  }

  /** Sorting by id, deduplicating and sorting by title relevance makes the shortlist. */
  lemma PipelineShortlists(tb: Tables, docs: map<FactId, Fact>, prompt: string, ids: set<FactId>, all: seq<FactSummary>)
    requires Filed(docs) && SpeakOf(docs, all)
    requires forall id | id in docs :: id in ids <==> Summarize(docs[id]) in all
    ensures IsShortlist(tb, docs, prompt, ids, Sort(Dedup(Sort(all, ById), SameSummary), TitleOrder(tb, prompt)))
  {
    var byId := Sort(all, ById);
    var once := Dedup(byId, SameSummary);
    var list := Sort(once, TitleOrder(tb, prompt));
    OrdersHold(tb, prompt);
    SortPermutes(all, ById);
    SortSorts(all, ById);
    DedupSorted(byId, ById, SameSummary);
    SortPermutes(once, TitleOrder(tb, prompt));
    SortSorts(once, TitleOrder(tb, prompt));
    assert NoDup(once);
    PermutationKeepsNoDup(once, list);
    forall h | h in byId ensures h in once {
      DedupRepresents(byId, ById, SameSummary, h);
      var y :| y in once && SameSummary(y, h) && ById(y, h);
      assert y in all && h in all;
    }
  }

  lemma ShortlistIsUnique(tb: Tables, docs: map<FactId, Fact>, prompt: string, ids: set<FactId>, a: seq<FactSummary>,
                          b: seq<FactSummary>)
    requires Filed(docs) && IsShortlist(tb, docs, prompt, ids, a) && IsShortlist(tb, docs, prompt, ids, b)
    ensures a == b
  {
    forall h ensures h in a <==> h in b {
      if h in a { assert Summarize(docs[h.id]) in a; }
      if h in b { assert Summarize(docs[h.id]) in b; }
    }
    NoDupPermutation(a, b);
    OrdersHold(tb, prompt);
    var le := TitleOrder(tb, prompt);
    forall x, y | x in a && y in a && le(x, y) && le(y, x) ensures x == y {
      assert x.id == y.id;
    }
    SortedUnique(a, b, le);
  }

  // ---- fetching -----------------------------------------------------------------------------------

  /** The stored facts of a shortlist; one that cannot be read is left out. */
  ghost function Fetched(get: FactId -> Result<Fact, StoreError>, list: seq<FactSummary>): seq<Fact> {
    if list == [] then []
    else
      var got := get(list[|list|-1].id);
      Fetched(get, list[..|list|-1]) + if got.Ok? then [got.value] else []
  }

  ghost function Stored(docs: map<FactId, Fact>, list: seq<FactSummary>): seq<Fact>
    requires forall h | h in list :: h.id in docs
  {
    seq(|list|, i requires 0 <= i < |list| => docs[list[i].id])
  }

  lemma {:induction false} FetchedIsStored(tb: Tables, docs: map<FactId, Fact>, k: Knowledge, list: seq<FactSummary>)
    requires Serves(tb, docs, k) && Healthy(docs, k) && forall h | h in list :: h.id in docs
    ensures Fetched(k.get, list) == Stored(docs, list)
  {
    if list != [] {
      var init, last := list[..|list|-1], list[|list|-1];
      assert forall h | h in init :: h in list;
      FetchedIsStored(tb, docs, k, init);
      assert last in list;
      assert k.get(last.id).Ok?;
    }
  }

  method FetchAll(get: FactId -> Result<Fact, StoreError>, list: seq<FactSummary>) returns (facts: seq<Fact>, gets: nat)
    ensures facts == Fetched(get, list) && gets == |list|
  {
    facts, gets := [], 0;
    for i := 0 to |list|
      invariant facts == Fetched(get, list[..i]) && gets == i
    {
      assert list[..i+1][..i] == list[..i];
      var got := get(list[i].id);
      gets := gets + 1;
      if got.Ok? { facts := facts + [got.value]; }
    }
    assert list[..|list|] == list;
  }

  // ---- the whole pipeline ---------------------------------------------------------------------------

  /** The context of a prompt: the best of the facts fetched for the first `cap` of the
      shortlist, with the size of the confirmed population. */
  ghost predicate IsBuilt(tb: Tables, docs: map<FactId, Fact>, get: FactId -> Result<Fact, StoreError>,
                          sel: Selection, cap: nat, prompt: string, ctx: PersonaContext) {
    exists list ::
      && IsShortlist(tb, docs, prompt, Considered(tb, docs, prompt, sel), list)
      && IsContext(tb, Fetched(get, Truncate(list, cap)), prompt, sel, |FoundConfirmed(tb, docs, "", sel.scope)|, ctx)
  }

  /** Gather the candidates: confirmed hits, widened by the population when they are few. */
  method Gather(tb: Tables, ghost docs: map<FactId, Fact>, k: Knowledge, sel: Selection, prompt: string)
    returns (r: Result<seq<FactSummary>, StoreError>, total: nat)
    requires Serves(tb, docs, k)
    ensures r.Ok? ==> SpeakOf(docs, r.value) && total == |FoundConfirmed(tb, docs, "", sel.scope)|
    ensures r.Ok? ==>
      forall id | id in docs :: id in Considered(tb, docs, prompt, sel) <==> Summarize(docs[id]) in r.value
    ensures Healthy(docs, k) ==> r.Ok?
  {
    total := 0;
    var hits := k.search(prompt, sel.scope);
    if hits.Err? { return Err(hits.error), 0; }
    var candidates := Confirmed(hits.value);
    ConfirmedHits(tb, docs, prompt, sel.scope, hits.value);
    var all := k.search("", sel.scope);
    if all.Err? { return Err(all.error), 0; }
    var population := Confirmed(all.value);
    ConfirmedHits(tb, docs, "", sel.scope, all.value);
    total := |population|;
    if |candidates| < sel.maxFacts { candidates := candidates + population; }
    r := Ok(candidates);
  }

  /** `build_context`. `gets` counts the facts fetched in full. */
  method BuildContext(tb: Tables, ghost docs: map<FactId, Fact>, k: Knowledge, sel: Selection, fetchCap: nat,
                      prompt: string)
    returns (r: Result<PersonaContext, StoreError>, gets: nat)
    requires Serves(tb, docs, k)
    ensures gets <= fetchCap
    ensures r.Ok? ==> IsBuilt(tb, docs, k.get, sel, fetchCap, prompt, r.value)
    ensures Healthy(docs, k) ==> r.Ok?
  {
    gets := 0;
    var gathered, total := Gather(tb, docs, k, sel, prompt);
    if gathered.Err? { return Err(gathered.error), 0; }
    var candidates := gathered.value;
    PipelineShortlists(tb, docs, prompt, Considered(tb, docs, prompt, sel), candidates);
    candidates := Sort(candidates, ById);
    candidates := Dedup(candidates, SameSummary);
    candidates := Sort(candidates, TitleOrder(tb, prompt));
    var facts;
    facts, gets := FetchAll(k.get, Truncate(candidates, fetchCap));
    var ctx := SelectContext(tb, facts, prompt, sel, total);
    r := Ok(ctx);
  }

  /** Over the same store the context does not depend on the order in which searches list
      their results. */
  lemma BuildIgnoresSearchOrder(tb: Tables, docs: map<FactId, Fact>, k1: Knowledge, k2: Knowledge, sel: Selection,
                                cap: nat, prompt: string, a: PersonaContext, b: PersonaContext)
    requires Serves(tb, docs, k1) && Serves(tb, docs, k2) && Healthy(docs, k1) && Healthy(docs, k2)
    requires IsBuilt(tb, docs, k1.get, sel, cap, prompt, a) && IsBuilt(tb, docs, k2.get, sel, cap, prompt, b)
    ensures a == b
  {
    var ids, total := Considered(tb, docs, prompt, sel), |FoundConfirmed(tb, docs, "", sel.scope)|;
    var l1 :| IsShortlist(tb, docs, prompt, ids, l1)
      && IsContext(tb, Fetched(k1.get, Truncate(l1, cap)), prompt, sel, total, a);
    var l2 :| IsShortlist(tb, docs, prompt, ids, l2)
      && IsContext(tb, Fetched(k2.get, Truncate(l2, cap)), prompt, sel, total, b);
    ShortlistIsUnique(tb, docs, prompt, ids, l1, l2);
    var list := Truncate(l1, cap);
    forall h | h in list ensures h.id in docs { assert h in l1; }
    FetchedIsStored(tb, docs, k1, list);
    FetchedIsStored(tb, docs, k2, list);
    StoredIdentify(docs, list);
    IdentifiedOneBest(tb, Stored(docs, list), prompt, sel);
    OneBestShowsSame(Candidates(tb, prompt, sel, Stored(docs, list)), sel.maxFacts);
    ContextIgnoresOrder(tb, Stored(docs, list), Stored(docs, list), prompt, sel, total, a, b);
  }

  lemma StoredIdentify(docs: map<FactId, Fact>, list: seq<FactSummary>)
    requires Filed(docs) && forall h | h in list :: h.id in docs
    ensures IdsIdentify(Stored(docs, list))
  {
    var facts := Stored(docs, list);
    forall f | f in facts ensures f.id in docs && docs[f.id] == f {
      var i :| 0 <= i < |facts| && facts[i] == f;
      assert list[i] in list;
    }
  }

  /** Every entry of a context is a confirmed, in-scope stored fact, and there are at most
      `maxFacts`. */
  lemma EntriesAreConfirmed(tb: Tables, docs: map<FactId, Fact>, k: Knowledge, sel: Selection, cap: nat,
                            prompt: string, ctx: PersonaContext, e: Entry)
    requires Serves(tb, docs, k) && IsBuilt(tb, docs, k.get, sel, cap, prompt, ctx) && e in ctx.entries
    ensures |ctx.entries| <= sel.maxFacts
    ensures e.id in docs && Eligible(sel, docs[e.id]) && e == Score(tb, prompt, docs[e.id]).entry
  {
    var ids, total := Considered(tb, docs, prompt, sel), |FoundConfirmed(tb, docs, "", sel.scope)|;
    var list :| IsShortlist(tb, docs, prompt, ids, list)
      && IsContext(tb, Fetched(k.get, Truncate(list, cap)), prompt, sel, total, ctx);
    var facts := Fetched(k.get, Truncate(list, cap));
    var f := EntryHasFact(tb, facts, prompt, sel, total, ctx, e);
    FetchedAreStored(tb, docs, k, Truncate(list, cap), f);
  }

  lemma EntryHasFact(tb: Tables, facts: seq<Fact>, prompt: string, sel: Selection, total: nat, ctx: PersonaContext,
                     e: Entry)
    returns (f: Fact)
    requires IsContext(tb, facts, prompt, sel, total, ctx) && e in ctx.entries
    ensures |ctx.entries| <= sel.maxFacts
    ensures f in facts && Eligible(sel, f) && e == Score(tb, prompt, f).entry
  {
    var cands := Candidates(tb, prompt, sel, facts);
    var kept :| IsChoice(cands, kept) && ctx == PersonaContext(Entries(Truncate(kept, sel.maxFacts)), total);
    var i :| 0 <= i < |ctx.entries| && ctx.entries[i] == e;
    assert kept[i] in kept && Leads(cands, kept[i]);
    LeadersAreMostRelevant(cands, kept[i]);
    CandidatesMean(tb, prompt, sel, facts, kept[i]);
    f :| f in facts && Eligible(sel, f) && kept[i] == Score(tb, prompt, f);
  }

  lemma {:induction false} FetchedAreStored(tb: Tables, docs: map<FactId, Fact>, k: Knowledge, list: seq<FactSummary>,
                                            f: Fact)
    requires Serves(tb, docs, k) && f in Fetched(k.get, list)
    ensures f.id in docs && docs[f.id] == f
  {
    var init, last := list[..|list|-1], list[|list|-1];
    if f in Fetched(k.get, init) {
      FetchedAreStored(tb, docs, k, init, f);
    } else {
      assert k.get(last.id).Ok?;
    }
  }
}
