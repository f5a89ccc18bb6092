/** `SearchIndex` of `knowledge/search_index.rs`: an in-memory inverted index with a
    metadata cache, kept in step with the facts it was told about. */
module SearchIndex {
  import opened Wrappers
  import opened Texts
  import opened Ordering
  import opened KnowledgeTypes
  import opened Tokenizer

  datatype MetaLite = MetaLite(
    title: string,
    scope: Scope,
    confirmed: bool,
    confirmedAt: Option<Time>,
    links: seq<FactId>,
    kind: FactKind,
    topics: seq<string>,
    visibility: Visibility)

  /** The whole content of an index, as a value. */
  datatype Index = Index(
    postings: map<string, set<FactId>>,
    tokens: map<FactId, set<string>>,
    meta: map<FactId, MetaLite>)

  function Lite(f: Fact): MetaLite {
    MetaLite(f.title, f.meta.scope, f.meta.confirmed, f.meta.confirmedAt, f.links, f.meta.kind, f.meta.topics,
      f.meta.visibility)
  }

  function SummaryOf(id: FactId, m: MetaLite): FactSummary {
    FactSummary(id, m.title, m.scope, m.kind, m.topics, m.visibility, m.confirmed)
  }

  /** What a fact is indexed under: `tokenize("{title} {body}")`. */
  function FactTokens(tb: Tables, f: Fact): set<string> {
    Tokens(tb, f.title + " " + f.body)
  }

  // ---- the index of a collection of facts ------------------------------------------

  function TokenSets(tb: Tables, docs: map<FactId, Fact>): map<FactId, set<string>> {
    map id | id in docs :: FactTokens(tb, docs[id])
  }

  /** Postings invert token sets: a term is present exactly when some fact has it, and
      then lists exactly the facts that have it. */
  function Invert(tokens: map<FactId, set<string>>): map<string, set<FactId>> {
    map t | t in Terms(tokens) :: set id | id in tokens && t in tokens[id]
  }

  function Terms(tokens: map<FactId, set<string>>): set<string> {
    set id, t | id in tokens && t in tokens[id] :: t
  }

  function Metas(docs: map<FactId, Fact>): map<FactId, MetaLite> {
    map id | id in docs :: Lite(docs[id])
  }

  function ConfirmedAt(docs: map<FactId, Fact>): map<FactId, Option<Time>> {
    map id | id in docs :: docs[id].meta.confirmedAt
  }

  function IndexOf(tb: Tables, docs: map<FactId, Fact>): Index {
    Index(Invert(TokenSets(tb, docs)), TokenSets(tb, docs), Metas(docs))
  }

  lemma InvertAt(tokens: map<FactId, set<string>>, t: string)
    ensures t in Invert(tokens) <==> exists id :: id in tokens && t in tokens[id]
    ensures t in Invert(tokens) ==>
      Invert(tokens)[t] != {} && forall id :: id in Invert(tokens)[t] <==> id in tokens && t in tokens[id]
  {
    if t in Invert(tokens) {
      var id :| id in tokens && t in tokens[id];
      assert id in Invert(tokens)[t];
    }
  }

  /** The postings after `id` has been taken off the terms in `gone`. */
  function Unlisted(p: map<string, set<FactId>>, id: FactId, gone: set<string>): map<string, set<FactId>> {
    map t | t in p && !(t in gone && p[t] - {id} == {}) :: if t in gone then p[t] - {id} else p[t]
  }

  /** The postings after `id` has been put on the terms in `added`. */
  function Listed(p: map<string, set<FactId>>, id: FactId, added: set<string>): map<string, set<FactId>> {
    map t | t in p.Keys + added :: if t in added then (if t in p then p[t] else {}) + {id} else p[t]
  }

  lemma UnlistedInverts(tokens: map<FactId, set<string>>, id: FactId)
    requires id in tokens
    ensures Unlisted(Invert(tokens), id, tokens[id]) == Invert(tokens - {id})
  {
    var l, r := Unlisted(Invert(tokens), id, tokens[id]), Invert(tokens - {id});
    forall t ensures (t in l <==> t in r) && (t in l ==> l[t] == r[t]) {
      InvertAt(tokens, t);
      InvertAt(tokens - {id}, t);
      if t in Invert(tokens) && Invert(tokens)[t] - {id} != {} {
        var x :| x in Invert(tokens)[t] - {id};
        assert x in tokens - {id} && t in (tokens - {id})[x];
      }
    }
  }

  lemma ListedInverts(tokens: map<FactId, set<string>>, id: FactId, toks: set<string>)
    requires id !in tokens
    ensures Listed(Invert(tokens), id, toks) == Invert(tokens[id := toks])
  {
    var l, r := Listed(Invert(tokens), id, toks), Invert(tokens[id := toks]);
    forall t ensures (t in l <==> t in r) && (t in l ==> l[t] == r[t]) {
      InvertAt(tokens, t);
      InvertAt(tokens[id := toks], t);
      if t in toks { assert t in tokens[id := toks][id]; }
      if t in Invert(tokens) {
        var x :| x in tokens && t in tokens[x];
        assert t in tokens[id := toks][x];
      }
    }
  }

  lemma IndexWithout(tb: Tables, docs: map<FactId, Fact>, id: FactId)
    ensures var tokens := TokenSets(tb, docs);
      IndexOf(tb, docs - {id}) ==
        Index(if id in tokens then Unlisted(Invert(tokens), id, tokens[id]) else Invert(tokens),
              tokens - {id}, Metas(docs) - {id})
  {
    var tokens := TokenSets(tb, docs);
    assert TokenSets(tb, docs - {id}) == tokens - {id};
    assert Metas(docs - {id}) == Metas(docs) - {id};
    if id in tokens {
      UnlistedInverts(tokens, id);
    } else {
      assert tokens - {id} == tokens;
    }
  }

  lemma TokenSetsWith(tb: Tables, docs: map<FactId, Fact>, f: Fact)
    ensures TokenSets(tb, docs[f.id := f]) == TokenSets(tb, docs)[f.id := FactTokens(tb, f)]
  {}

  lemma MetasWith(docs: map<FactId, Fact>, f: Fact)
    ensures Metas(docs[f.id := f]) == Metas(docs)[f.id := Lite(f)]
  {}

  lemma IndexWith(tb: Tables, docs: map<FactId, Fact>, f: Fact)
    requires f.id !in docs
    ensures var rest, toks := IndexOf(tb, docs), FactTokens(tb, f);
      IndexOf(tb, docs[f.id := f]) ==
        Index(Listed(rest.postings, f.id, toks), rest.tokens[f.id := toks], rest.meta[f.id := Lite(f)])
  {
    TokenSetsWith(tb, docs, f);
    MetasWith(docs, f);
    ListedInverts(TokenSets(tb, docs), f.id, FactTokens(tb, f));
  }

  /** Removing a fact and listing its new version gives the index of the new facts. */
  lemma Reindex(tb: Tables, docs: map<FactId, Fact>, f: Fact)
    requires Filed(docs)
    ensures Filed(docs[f.id := f])
    ensures var rest, toks := IndexOf(tb, docs - {f.id}), FactTokens(tb, f);
      IndexOf(tb, docs[f.id := f]) ==
        Index(Listed(rest.postings, f.id, toks), rest.tokens[f.id := toks], rest.meta[f.id := Lite(f)])
  {
    IndexWith(tb, docs - {f.id}, f);
    ReplaceEntry(docs, f);
  }

  lemma ReplaceEntry(docs: map<FactId, Fact>, f: Fact)
    ensures (docs - {f.id})[f.id := f] == docs[f.id := f]
  {}

  /** Take `id` off the postings of every term in `gone`. */
  method Unlist(p: map<string, set<FactId>>, id: FactId, gone: set<string>) returns (p': map<string, set<FactId>>)
    ensures p' == Unlisted(p, id, gone)
  {
    p' := p;
    var todo := gone;
    assert Unlisted(p, id, {}) == p;
    while todo != {}
      invariant todo <= gone && p' == Unlisted(p, id, gone - todo)
      decreases todo
    {
      var t :| t in todo;
      if t in p' {
        var ids := p'[t] - {id};
        p' := if ids == {} then p' - {t} else p'[t := ids];
      }
      assert gone - (todo - {t}) == (gone - todo) + {t};
      todo := todo - {t};
    }
    assert gone - todo == gone;
  }

  /** Put `id` on the postings of every term in `added`. */
  method List(p: map<string, set<FactId>>, id: FactId, added: set<string>) returns (p': map<string, set<FactId>>)
    ensures p' == Listed(p, id, added)
  {
    p' := p;
    var todo := added;
    assert Listed(p, id, {}) == p;
    while todo != {}
      invariant todo <= added && p' == Listed(p, id, added - todo)
      decreases todo
    {
      var t :| t in todo;
      p' := p'[t := (if t in p' then p'[t] else {}) + {id}];
      assert added - (todo - {t}) == (added - todo) + {t};
      todo := todo - {t};
    }
    assert added - todo == added;
  }

  // ---- queries, defined by a scan over all facts -------------------------------------

  ghost predicate Matches(tb: Tables, f: Fact, query: string) {
    Blank(query) || (Tokens(tb, query) != {} && Tokens(tb, query) <= FactTokens(tb, f))
  }

  /** What a naive scan over the facts finds: everything for a blank query, nothing for
      one without tokens, else the facts having every token; always within scope. */
  ghost function Found(tb: Tables, docs: map<FactId, Fact>, query: string, filter: Option<Scope>): set<FactId> {
    set id | id in docs && Matches(tb, docs[id], query) && InScope(filter, docs[id].meta.scope)
  }

  /** A result lists each found fact once, by its summary. */
  ghost predicate IsResult(docs: map<FactId, Fact>, found: set<FactId>, out: seq<FactSummary>) {
    && (forall i, j | 0 <= i < j < |out| :: out[i].id != out[j].id)
    && (forall i | 0 <= i < |out| :: out[i].id in found && out[i].id in docs && out[i] == Summarize(docs[out[i].id]))
    && (forall id | id in found :: exists i :: 0 <= i < |out| && out[i].id == id)
  }

  class SearchIndex {
    const tb: Tables
    var postings: map<string, set<FactId>>
    var tokens: map<FactId, set<string>>
    var meta: map<FactId, MetaLite>
    /** The facts the index stands for. */
    ghost var docs: map<FactId, Fact>

    ghost function View(): Index
      reads this
    {
      Index(postings, tokens, meta)
    }

    ghost predicate Valid()
      reads this
    {
      Filed(docs) && View() == IndexOf(tb, docs)
    }

    constructor (tb: Tables)
      ensures Valid() && docs == map[] && this.tb == tb
    {
      this.tb := tb;
      postings, tokens, meta, docs := map[], map[], map[], map[];
      new;
      assert TokenSets(tb, docs) == map[];
      assert Invert(tokens) == map[];
    }

    method Clear()
      modifies this
      ensures Valid() && docs == map[]
    {
      postings, tokens, meta, docs := map[], map[], map[], map[];
      assert TokenSets(tb, docs) == map[];
      assert Invert(tokens) == map[];
    }

    /** Forget a fact: its terms lose it, and a term that lists nobody disappears. */
    method Remove(id: FactId)
      requires Valid()
      modifies this
      ensures Valid() && docs == old(docs) - {id}
    {
      IndexWithout(tb, docs, id);
      if id in tokens {
        postings := Unlist(postings, id, tokens[id]);
        tokens := tokens - {id};
      } else {
        assert tokens - {id} == tokens;
      }
      meta := meta - {id};
      docs := docs - {id};
    }

    /** Insert or replace a fact, removing what was indexed before. */
    method Upsert(f: Fact)
      requires Valid()
      modifies this
      ensures Valid() && docs == old(docs)[f.id := f]
    {
      Remove(f.id);
      var toks := Tokenize(tb, f.title + " " + f.body);
      Reindex(tb, old(docs), f);
      postings := List(postings, f.id, toks);
      tokens := tokens[f.id := toks];
      meta := meta[f.id := Lite(f)];
      docs := old(docs)[f.id := f];
    }

    /** Keyword search: the inverted index finds exactly what a naive scan finds, each
        fact once. */
    method Search(query: string, filter: Option<Scope>) returns (out: seq<FactSummary>)
      requires Valid()
      ensures IsResult(docs, Found(tb, docs, query, filter), out)
    {
      var qtoks := Tokenize(tb, query);
      TrimEmptyIffBlank(query);
      var ids: set<FactId>;
      if Trim(query) == [] {
        ids := meta.Keys;
      } else if qtoks == {} {
        return [];
      } else {
        ids := Intersect(postings, qtoks);
        Intersected(tb, docs, qtoks);
      }
      out := Collect(meta, ids, filter);
      CollectedIsResult(tb, docs, query, filter, ids, out);
    }

    /** `confirmed_at_map` */
    method ConfirmedAtMap() returns (m: map<FactId, Option<Time>>)
      requires Valid()
      ensures m == ConfirmedAt(docs)
    {
      m := map id | id in meta :: meta[id].confirmedAt;
    }
  }

  // ---- the steps of a search -------------------------------------------------------------

  /** The facts listed under every one of the terms. */
  ghost predicate UnderAll(p: map<string, set<FactId>>, qtoks: set<string>, id: FactId) {
    forall t | t in qtoks :: t in p && id in p[t]
  }

  /** Intersect the postings of the query terms, smallest first; a term nobody has ends
      it. */
  method Intersect(p: map<string, set<FactId>>, qtoks: set<string>) returns (ids: set<FactId>)
    requires qtoks != {}
    ensures forall id :: id in ids <==> UnderAll(p, qtoks, id)
  {
    var sets: seq<set<FactId>> := [];
    var todo := qtoks;
    while todo != {}
      invariant todo <= qtoks
      invariant ListsOf(p, qtoks - todo, sets)
      decreases todo
    {
      var t :| t in todo;
      if t !in p {
        forall id ensures !UnderAll(p, qtoks, id) { assert t in qtoks; }
        return {};
      }
      OneMoreList(p, qtoks - todo, sets, t);
      assert qtoks - (todo - {t}) == (qtoks - todo) + {t};
      sets := sets + [p[t]];
      todo := todo - {t};
    }
    assert qtoks - todo == qtoks;
    var t0 :| t0 in qtoks;
    assert p[t0] in sets;
    SortPermutes(sets, Smaller);
    sets := Sort(sets, Smaller);
    ids := sets[0];
    for k := 1 to |sets|
      invariant forall id :: id in ids <==> forall j | 0 <= j < k :: id in sets[j]
    {
      ids := set id | id in ids && id in sets[k];
    }
    forall id ensures id in ids <==> UnderAll(p, qtoks, id) {
      InAllLists(p, qtoks, sets, id);
    }
  }

  predicate Smaller(a: set<FactId>, b: set<FactId>) {
    |a| <= |b|
  }

  ghost predicate ListsOf(p: map<string, set<FactId>>, qtoks: set<string>, sets: seq<set<FactId>>) {
    && (forall t | t in qtoks :: t in p && p[t] in sets)
    && (forall s | s in sets :: exists t :: t in qtoks && t in p && p[t] == s)
  }

  lemma OneMoreList(p: map<string, set<FactId>>, qtoks: set<string>, sets: seq<set<FactId>>, t: string)
    requires ListsOf(p, qtoks, sets) && t in p
    ensures ListsOf(p, qtoks + {t}, sets + [p[t]])
  {
    var more := sets + [p[t]];
    assert more[|sets|] == p[t];
    forall u | u in qtoks + {t} ensures u in p && p[u] in more {
      if u in qtoks { assert p[u] in sets; }
    }
    forall s | s in more ensures exists u :: u in qtoks + {t} && u in p && p[u] == s {
      if s in sets {
        var u :| u in qtoks && u in p && p[u] == s;
        assert u in qtoks + {t};
      } else {
        assert t in qtoks + {t} && p[t] == s;
      }
    }
  }

  lemma InAllLists(p: map<string, set<FactId>>, qtoks: set<string>, sets: seq<set<FactId>>, id: FactId)
    requires ListsOf(p, qtoks, sets)
    ensures (forall j | 0 <= j < |sets| :: id in sets[j]) <==> UnderAll(p, qtoks, id)
  {
    if forall j | 0 <= j < |sets| :: id in sets[j] {
      forall t | t in qtoks ensures t in p && id in p[t] {
        var j :| 0 <= j < |sets| && sets[j] == p[t];
      }
    }
    if UnderAll(p, qtoks, id) {
      forall j | 0 <= j < |sets| ensures id in sets[j] {
        assert sets[j] in sets;
        var t :| t in qtoks && t in p && p[t] == sets[j];
      }
    }
  }

  lemma Intersected(tb: Tables, docs: map<FactId, Fact>, qtoks: set<string>)
    requires qtoks != {}
    ensures forall id ::
      UnderAll(Invert(TokenSets(tb, docs)), qtoks, id) <==> id in docs && qtoks <= FactTokens(tb, docs[id])
  {
    var tokens := TokenSets(tb, docs);
    forall id ensures UnderAll(Invert(tokens), qtoks, id) <==> id in docs && qtoks <= FactTokens(tb, docs[id]) {
      UnderAllMeansHasAll(tokens, qtoks, id);
      assert id in docs ==> tokens[id] == FactTokens(tb, docs[id]);
    }
  }

  lemma UnderAllMeansHasAll(tokens: map<FactId, set<string>>, qtoks: set<string>, id: FactId)
    requires qtoks != {}
    ensures UnderAll(Invert(tokens), qtoks, id) <==> id in tokens && qtoks <= tokens[id]
  {
    forall t ensures (t in Invert(tokens) && id in Invert(tokens)[t]) <==> id in tokens && t in tokens[id] {
      InvertAt(tokens, t);
    }
    var t :| t in qtoks;
  }

  /** The summaries of the in-scope facts among `ids`, each once. */
  ghost predicate Summaries(meta: map<FactId, MetaLite>, ids: set<FactId>, filter: Option<Scope>,
                            out: seq<FactSummary>) {
    && (forall i, j | 0 <= i < j < |out| :: out[i].id != out[j].id)
    && (forall i | 0 <= i < |out| :: out[i].id in ids && out[i].id in meta && InScope(filter, meta[out[i].id].scope)
                                     && out[i] == SummaryOf(out[i].id, meta[out[i].id]))
    && (forall id | id in ids && id in meta && InScope(filter, meta[id].scope) ::
      exists i :: 0 <= i < |out| && out[i].id == id)
  }

  method Collect(meta: map<FactId, MetaLite>, ids: set<FactId>, filter: Option<Scope>) returns (out: seq<FactSummary>)
    ensures Summaries(meta, ids, filter, out)
  {
    out := [];
    var todo := ids;
    while todo != {}
      invariant todo <= ids && Summaries(meta, ids - todo, filter, out)
      decreases todo
    {
      var id :| id in todo;
      assert ids - (todo - {id}) == (ids - todo) + {id};
      OneMoreSummary(meta, ids - todo, filter, out, id);
      if id in meta && InScope(filter, meta[id].scope) {
        out := out + [SummaryOf(id, meta[id])];
      }
      todo := todo - {id};
    }
    assert ids - todo == ids;
  }

  lemma OneMoreSummary(meta: map<FactId, MetaLite>, ids: set<FactId>, filter: Option<Scope>, out: seq<FactSummary>,
                       id: FactId)
    requires Summaries(meta, ids, filter, out) && id !in ids
    ensures if id in meta && InScope(filter, meta[id].scope)
            then Summaries(meta, ids + {id}, filter, out + [SummaryOf(id, meta[id])])
            else Summaries(meta, ids + {id}, filter, out)
  {
    if id in meta && InScope(filter, meta[id].scope) {
      var more := out + [SummaryOf(id, meta[id])];
      assert more[|out|].id == id;
      forall x | x in ids + {id} && x in meta && InScope(filter, meta[x].scope)
        ensures exists i :: 0 <= i < |more| && more[i].id == x
      {
        if x != id {
          var i :| 0 <= i < |out| && out[i].id == x;
          assert more[i].id == x;
        }
      }
    }
  }

  lemma CollectedIsResult(tb: Tables, docs: map<FactId, Fact>, query: string, filter: Option<Scope>, ids: set<FactId>,
                          out: seq<FactSummary>)
    requires Filed(docs) && Summaries(Metas(docs), ids, filter, out)
    requires Blank(query) ==> ids == docs.Keys
    requires !Blank(query) ==> Tokens(tb, query) != {}
    requires !Blank(query) ==> forall id :: id in ids <==> id in docs && Tokens(tb, query) <= FactTokens(tb, docs[id])
    ensures IsResult(docs, Found(tb, docs, query, filter), out)
  {
    forall id ensures id in Found(tb, docs, query, filter)
      <==> id in ids && id in docs && InScope(filter, docs[id].meta.scope) {
      assert id in docs ==> (Matches(tb, docs[id], query) <==> id in ids);
    }
    forall i | 0 <= i < |out| ensures out[i] == Summarize(docs[out[i].id]) {
      assert Metas(docs)[out[i].id] == Lite(docs[out[i].id]);
    }
  }

  // ---- what the index is for -------------------------------------------------------------

  /** The index content determines every answer: whatever sequence of updates led to it,
      two indexes over the same facts are the same index. */
  lemma SameFactsSameIndex(a: SearchIndex, b: SearchIndex)
    requires a.Valid() && b.Valid() && a.tb == b.tb && a.docs == b.docs
    ensures a.View() == b.View()
  {}

  /** A CJK query of two or more characters always finds a fact whose title or body
      contains it. */
  lemma CjkSubstringIsFound(tb: Tables, docs: map<FactId, Fact>, q: string, id: FactId)
    requires KindOf(tb, ' ') == Gap
    requires AllCjk(q) && |q| >= 2 && id in docs
    requires Contains(docs[id].title, q) || Contains(docs[id].body, q)
    ensures id in Found(tb, docs, q, None)
  {
    var f := docs[id];
    TokensOfJoin(tb, f.title, f.body, ' ');
    assert FactTokens(tb, f) == Tokens(tb, f.title) + Tokens(tb, f.body);
    CjkQueryCovered(tb, q, if Contains(f.title, q) then f.title else f.body);
  }

  /** Results are the same set of facts in some order: equal queries over equal facts
      can only differ by a shuffle. */
  lemma ResultsArePermutations(docs: map<FactId, Fact>, found: set<FactId>, a: seq<FactSummary>, b: seq<FactSummary>)
    requires IsResult(docs, found, a) && IsResult(docs, found, b)
    ensures multiset(a) == multiset(b)
  {
    NoDupPermutation(a, b) by {
      forall x ensures x in a <==> x in b {
        if x in a { ResultHas(docs, found, b, x.id); }
        if x in b { ResultHas(docs, found, a, x.id); }
      }
    }
  }

  lemma ResultHas(docs: map<FactId, Fact>, found: set<FactId>, out: seq<FactSummary>, id: FactId)
    requires IsResult(docs, found, out) && id in found && id in docs
    ensures Summarize(docs[id]) in out
  {
    var i :| 0 <= i < |out| && out[i].id == id;
    assert out[i] == Summarize(docs[id]);
  }
}
