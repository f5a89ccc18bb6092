/** `KnowledgeService` as one caller sees it: the store, the histories and the index it
    updates in place, with an outage schedule deciding which store calls fail, and whether
    a failing write has taken effect. */
module KnowledgeService {
  import opened Wrappers
  import opened Texts
  import opened KnowledgeTypes
  import opened Tokenizer
  import opened SearchIndex
  import opened TopicGroups
  import opened TopicPages
  import opened TopicGraph
  import opened KnowledgeProtocol

  datatype Outage = Fine | Lost | Late

  datatype KnowledgeError = InvalidInput | NotFound | StoreFailed

  /** Every stored fact, in some order. */
  ghost predicate IsLoad(facts: map<FactId, Fact>, all: seq<Fact>) {
    (forall f | f in all :: f.id in facts && facts[f.id] == f) && (forall id | id in facts :: facts[id] in all)
  }

  lemma {:induction false} RebuiltMeans(all: seq<Fact>, x: FactId)
    ensures x in Rebuilt(all) ==> Rebuilt(all)[x] in all && Rebuilt(all)[x].id == x
    ensures forall f | f in all :: f.id in Rebuilt(all)
  {
    if all != [] {
      var init, last := all[..|all|-1], all[|all|-1];
      RebuiltMeans(init, x);
      assert all == init + [last];
    }
  }

  /** Inserting the loaded facts one by one gives back the store. */
  lemma RebuiltIsStore(facts: map<FactId, Fact>, all: seq<Fact>)
    requires Filed(facts) && IsLoad(facts, all)
    ensures Rebuilt(all) == facts
  {
    forall x ensures Find(Rebuilt(all), x) == Find(facts, x) {
      RebuiltMeans(all, x);
      if x in facts { assert facts[x] in all; }
    }
    SameFinds(Rebuilt(all), facts);
  }

  predicate Edits(prev: Option<Fact>, f: Fact) {
    prev.Some? && prev.value.body != f.body
  }

  /** The histories after `f` has replaced `prev`. */
  function Appended(history: map<FactId, seq<Change>>, prev: Option<Fact>, f: Fact): map<FactId, seq<Change>> {
    if Edits(prev, f) then history[f.id := Log(history, f.id) + [Change(prev.value.body, f.body)]] else history
  }

  class Service {
    const tb: Tables
    const outages: nat -> Outage
    const index: SearchIndex
    /** The fact store and the history store. */
    var facts: map<FactId, Fact>
    var history: map<FactId, seq<Change>>
    var initialized: bool
    var calls: nat
    /** The facts whose stored version may have changed without reaching the index. */
    ghost var stale: set<FactId>

    /** An initialized index agrees with the store, except on stale facts. */
    ghost predicate Valid()
      reads this, index
    {
      && index.Valid() && index.tb == tb && Filed(facts)
      && (initialized ==> forall x | x !in stale :: Find(index.docs, x) == Find(facts, x))
    }

    constructor (tb: Tables, outages: nat -> Outage, facts: map<FactId, Fact>, history: map<FactId, seq<Change>>)
      requires Filed(facts)
      ensures Valid() && fresh(index) && !initialized && stale == {}
      ensures this.facts == facts && this.history == history && this.tb == tb && this.outages == outages
    {
      this.tb, this.outages, this.facts, this.history := tb, outages, facts, history;
      initialized, calls, stale := false, 0, {};
      index := new SearchIndex(tb);
    }

    /** Every store call goes well. */
    ghost predicate NoOutage() {
      forall n :: outages(n).Fine?
    }

    method Call() returns (o: Outage)
      modifies `calls
      ensures NoOutage() ==> o.Fine?
    {
      o := outages(calls);
      calls := calls + 1;
    }

    /** `load_all`: list the keys, read them one by one. */
    method LoadAll() returns (r: Option<seq<Fact>>)
      requires Filed(facts)
      modifies `calls
      ensures r.Some? ==> IsLoad(facts, r.value)
      ensures NoOutage() ==> r.Some?
    {
      var o := Call();
      if !o.Fine? { return None; }
      var out: seq<Fact> := [];
      var todo := facts.Keys;
      while todo != {}
        invariant todo <= facts.Keys
        invariant forall f | f in out :: f.id in facts && facts[f.id] == f
        invariant forall id | id in facts && id !in todo :: facts[id] in out
        decreases todo
      {
        var id :| id in todo;
        o := Call();
        if !o.Fine? { return None; }
        out, todo := out + [facts[id]], todo - {id};
      }
      r := Some(out);
    }

    /** `rebuild_locked` and the flag. */
    method Rebuild(all: seq<Fact>)
      requires Valid() && IsLoad(facts, all)
      modifies `initialized, `stale, index
      ensures Valid() && initialized && stale == {} && index.docs == facts
    {
      index.Clear();
      for i := 0 to |all|
        invariant index.Valid() && index.docs == Rebuilt(all[..i])
      {
        index.Upsert(all[i]);
        assert all[..i+1][..i] == all[..i];
      }
      assert all[..|all|] == all;
      RebuiltIsStore(facts, all);
      initialized, stale := true, {};
    }

    /** `build_index`: whatever was wrong with the index before, it is right after. */
    method BuildIndex() returns (ok: bool)
      requires Valid()
      modifies `initialized, `stale, `calls, index
      ensures Valid()
      ensures if ok then initialized && stale == {} && index.docs == facts
              else initialized == old(initialized) && stale == old(stale) && index.docs == old(index.docs)
      ensures NoOutage() ==> ok
    {
      var all := LoadAll();
      if all.None? { return false; }
      Rebuild(all.value);
      ok := true;
    }

    /** `ensure_index` */
    method EnsureIndex() returns (ok: bool)
      requires Valid()
      modifies `initialized, `stale, `calls, index
      ensures Valid() && stale <= old(stale)
      ensures ok ==> initialized
      ensures ok && !old(initialized) ==> stale == {} && index.docs == facts
      ensures !ok || old(initialized) ==>
        initialized == old(initialized) && stale == old(stale) && index.docs == old(index.docs)
      ensures NoOutage() ==> ok
    {
      if initialized { return true; }
      ok := BuildIndex();
    }

    /** Write a fact. When the call fails the store may or may not have changed. */
    method Put(f: Fact) returns (ok: bool)
      modifies `facts, `calls
      ensures ok ==> facts == old(facts)[f.id := f]
      ensures !ok ==> facts == old(facts) || facts == old(facts)[f.id := f]
      ensures NoOutage() ==> ok
    {
      var o := Call();
      if !o.Lost? { facts := facts[f.id := f]; }
      ok := o.Fine?;
    }

    /** `append`: read the log, push, write it back. */
    method Append(id: FactId, change: Change) returns (ok: bool)
      modifies `history, `calls
      ensures ok ==> history == old(history)[id := Log(old(history), id) + [change]]
      ensures !ok ==> history == old(history) || history == old(history)[id := Log(old(history), id) + [change]]
      ensures NoOutage() ==> ok
    {
      var o := Call();
      if !o.Fine? { return false; }
      var log := Log(history, id);
      o := Call();
      if !o.Lost? { history := history[id := log + [change]]; }
      ok := o.Fine?;
    }

    /** Replace `prev` by `f` in the store, the history and the index, in that order. */
    method Write(prev: Option<Fact>, f: Fact) returns (ok: bool)
      requires Valid() && initialized && prev == Find(facts, f.id)
      modifies `facts, `history, `calls, `stale, index
      ensures Valid()
      ensures ok ==> facts == old(facts)[f.id := f] && stale == old(stale) - {f.id}
      ensures ok ==> history == Appended(old(history), prev, f)
      ensures !ok ==> (facts == old(facts) || facts == old(facts)[f.id := f]) && stale == old(stale) + {f.id}
      ensures !ok ==> history == old(history) || history == Appended(old(history), prev, f)
      ensures NoOutage() ==> ok
    {
      ok := Put(f);
      stale := stale + {f.id};
      if !ok { return; }
      if Edits(prev, f) {
        ok := Append(f.id, Change(prev.value.body, f.body));
        if !ok { return; }
      }
      index.Upsert(f);
      stale := stale - {f.id};
      assert stale == old(stale) - {f.id};
    }

    /** Store a fact. What it must be like is checked first; a changed body leaves a trace
        in the history, and the index follows. */
    method Upsert(f: Fact) returns (r: Result<FactId, KnowledgeError>)
      requires Valid()
      modifies this, index
      ensures Valid() && (old(initialized) ==> initialized)
      ensures r == Err(InvalidInput) <==> !Acceptable(f)
      ensures !Acceptable(f) ==>
        facts == old(facts) && history == old(history) && index.docs == old(index.docs) && stale == old(stale)
      ensures r.Ok? ==> r.value == f.id && initialized && facts == old(facts)[f.id := f]
      ensures r.Ok? ==> history == Appended(old(history), Find(old(facts), f.id), f)
      ensures r.Ok? && f.id in old(facts) && old(facts)[f.id].body != f.body ==>
        history == old(history)[f.id := Log(old(history), f.id) + [Change(old(facts)[f.id].body, f.body)]]
      ensures r.Ok? && (f.id !in old(facts) || old(facts)[f.id].body == f.body) ==> history == old(history)
      ensures r.Ok? ==> stale <= old(stale) - {f.id} && (!old(initialized) ==> stale == {})
      ensures r.Err? ==> (facts == old(facts) || facts == old(facts)[f.id := f]) && stale <= old(stale) + {f.id}
      ensures NoOutage() ==> (r.Ok? <==> Acceptable(f))
    {
      if !f.meta.confirmed { return Err(InvalidInput); }
      if f.meta.confirmedAt.None? { return Err(InvalidInput); }
      if Trim(f.title) == [] { return Err(InvalidInput); }
      var ok := EnsureIndex();
      if !ok { return Err(StoreFailed); }
      var o := Call();
      if !o.Fine? { return Err(StoreFailed); }
      ok := Write(Find(facts, f.id), f);
      r := if ok then Ok(f.id) else Err(StoreFailed);
    }

    /** Change who may see a fact; its body, and so its history, stays. */
    method SetSharing(id: FactId, visibility: Visibility, category: Option<Category>)
      returns (r: Result<Fact, KnowledgeError>)
      requires Valid()
      modifies this, index
      ensures Valid() && history == old(history)
      ensures r.Ok? ==> id in old(facts) && facts == old(facts)[id := r.value] && initialized
      ensures r.Ok? ==>
        r.value == old(facts)[id].(meta := old(facts)[id].meta.(visibility := visibility, category := category))
      ensures r.Ok? ==> stale <= old(stale) - {id}
      ensures r == Err(NotFound) ==> id !in old(facts) && facts == old(facts)
      ensures r.Err? ==> stale <= old(stale) + {id} && forall x | x != id :: Find(facts, x) == Find(old(facts), x)
      ensures NoOutage() ==> if id in old(facts) then r.Ok? else r == Err(NotFound)
    {
      var ok := EnsureIndex();
      if !ok { return Err(StoreFailed); }
      var o := Call();
      if !o.Fine? { return Err(StoreFailed); }
      if id !in facts { return Err(NotFound); }
      var prev := facts[id];
      var f := prev.(meta := prev.meta.(visibility := visibility, category := category));
      ok := Write(Some(prev), f);
      r := if ok then Ok(f) else Err(StoreFailed);
    }

    /** A search lists exactly the stored facts a naive scan finds, unless a failed write
        has left the index behind. */
    method Search(query: string, filter: Option<Scope>) returns (r: Result<seq<FactSummary>, KnowledgeError>)
      requires Valid()
      modifies `initialized, `stale, `calls, index
      ensures Valid() && stale <= old(stale)
      ensures r.Ok? ==> IsResult(index.docs, Found(tb, index.docs, query, filter), r.value)
      ensures r.Ok? && stale == {} ==> IsResult(facts, Found(tb, facts, query, filter), r.value)
      ensures NoOutage() ==> r.Ok?
    {
      var ok := EnsureIndex();
      if !ok { return Err(StoreFailed); }
      assert stale == {} ==> index.docs == facts by { if stale == {} { SameFinds(index.docs, facts); } }
      var out := index.Search(query, filter);
      r := Ok(out);
    }

    /** Topic pages of the facts in scope. */
    method Topics(filter: Option<Scope>)
      returns (r: Result<seq<TopicPage>, KnowledgeError>, ghost listed: seq<FactSummary>)
      requires Valid()
      modifies `initialized, `stale, `calls, index
      ensures Valid() && stale <= old(stale)
      ensures r.Ok? ==> IsResult(index.docs, Found(tb, index.docs, "", filter), listed)
      ensures r.Ok? ==> ArePages(tb, listed, ConfirmedAt(index.docs), r.value)
      ensures r.Ok? && stale == {} ==> index.docs == facts
      ensures NoOutage() ==> r.Ok?
    {
      listed := [];
      var ok := EnsureIndex();
      if !ok { return Err(StoreFailed), []; }
      assert stale == {} ==> index.docs == facts by { if stale == {} { SameFinds(index.docs, facts); } }
      var found := index.Search("", filter);
      var seenAt := index.ConfirmedAtMap();
      DistinctIdsAgree(found);
      var pages := MakeTopicPages(tb, found, seenAt);
      r, listed := Ok(pages), found;
    }

    /** The topic graph of the facts in scope. */
    method Graph(filter: Option<Scope>, hubId: string -> FactId)
      returns (r: Result<Graph, KnowledgeError>, ghost met: seq<FactSummary>, ghost hubs: seq<Hub>)
      requires Valid()
      modifies `initialized, `stale, `calls, index
      ensures Valid() && stale <= old(stale)
      ensures r.Ok? ==> IsResult(index.docs, Found(tb, index.docs, "", filter), met)
      ensures r.Ok? ==> AreHubs(tb, met, hubs) && IsGraph(Metas(index.docs), met, hubs, hubId, r.value)
      ensures r.Ok? && stale == {} ==> index.docs == facts
      ensures NoOutage() ==> r.Ok?
    {
      met, hubs := [], [];
      var ok := EnsureIndex();
      if !ok { return Err(StoreFailed), [], []; }
      assert stale == {} ==> index.docs == facts by { if stale == {} { SameFinds(index.docs, facts); } }
      var g;
      g, met, hubs := MakeGraph(index, filter, hubId);
      r := Ok(g);
    }
  }

  /** The topics and the graph of the same facts tell the same story: a page has a hub
      exactly when it has two mentions, with its name and as many edges as mentions. */
  lemma TopicsMatchGraph(tb: Tables, docs: map<FactId, Fact>, filter: Option<Scope>, listed: seq<FactSummary>,
                         pages: seq<TopicPage>, met: seq<FactSummary>, hubs: seq<Hub>, hubId: string -> FactId,
                         g: Graph, p: TopicPage)
    requires IsResult(docs, Found(tb, docs, "", filter), listed) && ArePages(tb, listed, ConfirmedAt(docs), pages)
      && p in pages
    requires IsResult(docs, Found(tb, docs, "", filter), met) && AreHubs(tb, met, hubs)
      && IsGraph(Metas(docs), met, hubs, hubId, g)
    requires HubIdsApart(hubId, met)
    ensures (exists h :: h in hubs && h.key == TopicKey(tb, p.topic) && h.caption == p.topic) <==> p.mentions >= 2
    ensures CountTo(g.edges, hubId(TopicKey(tb, p.topic))) == if p.mentions >= 2 then p.mentions else 0
  {
    ResultsArePermutations(docs, Found(tb, docs, "", filter), met, listed);
    HubIffTwoMentions(tb, met, listed, ConfirmedAt(docs), hubs, pages, p);
    EdgesCountMentions(tb, Metas(docs), met, listed, ConfirmedAt(docs), hubs, hubId, g, pages, p);
  }
}
