/** `SearchIndex::graph` of `knowledge/search_index.rs`: facts as nodes, explicit links
    between them, and one hub for every subject that joins at least two facts. */
module TopicGraph {
  import opened Wrappers
  import opened Ordering
  import opened KnowledgeTypes
  import opened Tokenizer
  import opened SearchIndex
  import opened TopicGroups
  import opened TopicPages

  datatype NodeKind = FactNode | TopicNode
  datatype Node = Node(id: FactId, caption: string, kind: NodeKind)
  datatype Edge = Edge(from: FactId, to: FactId)
  datatype Graph = Graph(nodes: seq<Node>, edges: seq<Edge>)

  /** A subject with its name and its members, before it becomes a node. */
  datatype Hub = Hub(key: string, caption: string, members: seq<FactSummary>)

  // ---- what the graph is, given the facts in the order they were met ---------------------

  ghost function IdsOf(facts: seq<FactSummary>): set<FactId> {
    set i | 0 <= i < |facts| :: facts[i].id
  }

  ghost function FactNodes(facts: seq<FactSummary>): seq<Node> {
    seq(|facts|, i requires 0 <= i < |facts| => Node(facts[i].id, facts[i].title, FactNode))
  }

  ghost function HubNodes(hubs: seq<Hub>, hubId: string -> FactId): seq<Node> {
    seq(|hubs|, i requires 0 <= i < |hubs| => Node(hubId(hubs[i].key), hubs[i].caption, TopicNode))
  }

  ghost function LinksFrom(id: FactId, links: seq<FactId>, ids: set<FactId>): seq<Edge> {
    if links == [] then []
    else LinksFrom(id, links[..|links|-1], ids) + if links[|links|-1] in ids then [Edge(id, links[|links|-1])] else []
  }

  ghost function LinkEdges(meta: map<FactId, MetaLite>, facts: seq<FactSummary>, ids: set<FactId>): seq<Edge>
    requires forall f | f in facts :: f.id in meta
  {
    if facts == [] then []
    else LinkEdges(meta, facts[..|facts|-1], ids) + LinksFrom(facts[|facts|-1].id, meta[facts[|facts|-1].id].links, ids)
  }

  ghost function MemberEdges(members: seq<FactSummary>, to: FactId): seq<Edge> {
    seq(|members|, i requires 0 <= i < |members| => Edge(members[i].id, to))
  }

  ghost function HubEdges(hubs: seq<Hub>, hubId: string -> FactId): seq<Edge> {
    if hubs == [] then []
    else HubEdges(hubs[..|hubs|-1], hubId) + MemberEdges(hubs[|hubs|-1].members, hubId(hubs[|hubs|-1].key))
  }

  /** At least two facts are on the subject. */
  ghost predicate Joins(tb: Tables, facts: seq<FactSummary>, key: string) {
    key != [] && exists f, g :: f != g && IsMember(tb, facts, key, f) && IsMember(tb, facts, key, g)
  }

  ghost predicate IsHub(tb: Tables, facts: seq<FactSummary>, h: Hub) {
    TopicKey(tb, h.caption) == h.key && Titled(tb, facts, h.caption, h.members) && |h.members| >= 2
  }

  ghost predicate KeysIncrease(hubs: seq<Hub>) {
    forall i, j | 0 <= i < j < |hubs| :: StrLe(hubs[i].key, hubs[j].key) && hubs[i].key != hubs[j].key
  }

  /** A hub for every subject that joins facts and for nothing else, in key order. */
  ghost predicate AreHubs(tb: Tables, facts: seq<FactSummary>, hubs: seq<Hub>) {
    && (forall h | h in hubs :: IsHub(tb, facts, h))
    && KeysIncrease(hubs)
    && (forall key | Joins(tb, facts, key) :: exists h :: h in hubs && h.key == key)
  }

  ghost predicate IsGraph(meta: map<FactId, MetaLite>, facts: seq<FactSummary>, hubs: seq<Hub>,
                          hubId: string -> FactId, g: Graph) {
    && (forall f | f in facts :: f.id in meta)
    && g.nodes == FactNodes(facts) + HubNodes(hubs, hubId)
    && g.edges == LinkEdges(meta, facts, IdsOf(facts)) + HubEdges(hubs, hubId)
  }

  // ---- the code: collecting hubs ------------------------------------------------------------

  datatype Draft = Draft(surfaces: map<string, nat>, members: seq<FactSummary>, seen: set<FactId>)

  /** The first of the members with each id. */
  ghost function Firsts(members: seq<FactSummary>): seq<FactSummary> {
    if members == [] then []
    else
      var rest, last := Firsts(members[..|members|-1]), members[|members|-1];
      if last.id in IdsOf(rest) then rest else rest + [last]
  }

  ghost function DraftOf(g: Group): Draft {
    Draft(g.surfaces, Firsts(g.members), IdsOf(Firsts(g.members)))
  }

  ghost predicate Drafted(tb: Tables, ms: seq<Mention>, drafts: map<string, Draft>) {
    && (forall key :: key in drafts <==> key != [] && GroupOf(tb, ms, key).members != [])
    && (forall key | key in drafts :: drafts[key] == DraftOf(GroupOf(tb, ms, key)))
  }

  function Extend(d: Draft, f: FactSummary, topic: string): Draft {
    if f.id in d.seen then d.(surfaces := Bump(d.surfaces, topic))
    else Draft(Bump(d.surfaces, topic), d.members + [f], d.seen + {f.id})
  }

  lemma DraftOfMore(g: Group, f: FactSummary, topic: string)
    ensures DraftOf(Group(Bump(g.surfaces, topic), g.members + [f])) == Extend(DraftOf(g), f, topic)
  {
    var more := g.members + [f];
    assert more[..|more|-1] == g.members;
    var rest := Firsts(g.members);
    if f.id !in IdsOf(rest) {
      var all := rest + [f];
      assert all[|rest|] == f;
      assert forall i | 0 <= i < |rest| :: all[i] == rest[i];
      assert IdsOf(all) == IdsOf(rest) + {f.id};
    }
  }

  lemma AddDraft(tb: Tables, ms: seq<Mention>, drafts: map<string, Draft>, m: Mention)
    requires Drafted(tb, ms, drafts)
    ensures var key := TopicKey(tb, m.1);
      var d := if key in drafts then drafts[key] else Draft(map[], [], {});
      Drafted(tb, ms + [m], if key == [] then drafts else drafts[key := Extend(d, m.0, m.1)])
  {
    assert (ms + [m])[..|ms|] == ms;
    var key := TopicKey(tb, m.1);
    if key != [] {
      EmptyGroup(tb, ms, key);
      DraftOfMore(GroupOf(tb, ms, key), m.0, m.1);
    }
  }

  /** `hubs.entry(key).or_insert_with(...)` over all facts and their topics. */
  method CollectDrafts(tb: Tables, facts: seq<FactSummary>) returns (drafts: map<string, Draft>)
    ensures Drafted(tb, Mentions(facts), drafts)
  {
    drafts := map[];
    for i := 0 to |facts|
      invariant Drafted(tb, Mentions(facts[..i]), drafts)
    {
      var f := facts[i];
      ghost var before := Mentions(facts[..i]);
      assert before + MentionsOf(f, 0) == before;
      for j := 0 to |f.topics|
        invariant Drafted(tb, before + MentionsOf(f, j), drafts)
      {
        var t := f.topics[j];
        var key := TopicKey(tb, t);
        AddDraft(tb, before + MentionsOf(f, j), drafts, (f, t));
        assert before + MentionsOf(f, j) + [(f, t)] == before + MentionsOf(f, j + 1);
        if key != [] {
          var d := if key in drafts then drafts[key] else Draft(map[], [], {});
          drafts := drafts[key := Extend(d, f, t)];
        }
      }
      assert facts[..i+1][..i] == facts[..i];
    }
    assert facts[..|facts|] == facts;
  }

  lemma {:induction false} FirstsMean(members: seq<FactSummary>, facts: seq<FactSummary>)
    requires IdsAgree(facts) && forall f | f in members :: f in facts
    ensures NoDup(Firsts(members)) && forall f :: f in Firsts(members) <==> f in members
  {
    if members != [] {
      var init, last := members[..|members|-1], members[|members|-1];
      assert members == init + [last];
      FirstsMean(init, facts);
      if last.id in IdsOf(Firsts(init)) {
        var i :| 0 <= i < |Firsts(init)| && Firsts(init)[i].id == last.id;
      } else {
        assert last !in Firsts(init);
      }
    }
  }

  /** The members of a draft in id order are the facts on its subject, once each. */
  lemma DraftTitled(tb: Tables, facts: seq<FactSummary>, drafts: map<string, Draft>, key: string, name: string)
    requires IdsAgree(facts) && Drafted(tb, Mentions(facts), drafts) && key in drafts
    requires name in drafts[key].surfaces && forall t | t in drafts[key].surfaces ::
      Beats(drafts[key].surfaces, name, t)
    ensures TopicKey(tb, name) == key && Titled(tb, facts, name, Sort(drafts[key].members, ById))
  {
    var g := GroupOf(tb, Mentions(facts), key);
    PickedNames(tb, facts, key, name);
    GroupExists(tb, facts, key);
    GroupOfFacts(tb, facts, key);
    FirstsMean(g.members, facts);
    var firsts := Firsts(g.members);
    SortPermutes(firsts, ById);
    PermutationKeepsNoDup(firsts, Sort(firsts, ById));
    ByIdIsTotal();
    SortSorts(firsts, ById);
  }

  lemma JoinsIffTwoMembers(tb: Tables, facts: seq<FactSummary>, name: string, members: seq<FactSummary>)
    requires Titled(tb, facts, name, members) && TopicKey(tb, name) != []
    ensures Joins(tb, facts, TopicKey(tb, name)) <==> |members| >= 2
  {
    TwoMembersJoin(tb, facts, TopicKey(tb, name), members);
  }

  lemma TwoMembersJoin(tb: Tables, facts: seq<FactSummary>, key: string, members: seq<FactSummary>)
    requires key != [] && NoDup(members) && forall f :: f in members <==> IsMember(tb, facts, key, f)
    ensures Joins(tb, facts, key) <==> |members| >= 2
  {
    if |members| >= 2 {
      assert members[0] in members && members[1] in members;
    }
    if Joins(tb, facts, key) {
      var f, g :| f != g && IsMember(tb, facts, key, f) && IsMember(tb, facts, key, g);
      assert f in members && g in members;
    }
  }

  method SortedKeys(drafts: map<string, Draft>) returns (keys: seq<string>)
    ensures forall k :: k in keys <==> k in drafts
    ensures forall i, j | 0 <= i < j < |keys| :: StrLe(keys[i], keys[j]) && keys[i] != keys[j]
  {
    keys := [];
    var todo := drafts.Keys;
    ghost var done: set<string> := {};
    while todo != {}
      invariant done + todo == drafts.Keys && done !! todo
      invariant NoDup(keys) && forall k :: k in keys <==> k in done
      decreases todo
    {
      var k :| k in todo;
      keys, todo, done := keys + [k], todo - {k}, done + {k};
    }
    SortPermutes(keys, StrLe);
    PermutationKeepsNoDup(keys, Sort(keys, StrLe));
    StrLeTotalOrder();
    SortSorts(keys, StrLe);
    keys := Sort(keys, StrLe);
  }

  // ---- the code: emitting nodes and edges -----------------------------------------------------

  /** The subjects among `keys` have been dealt with. */
  ghost predicate HubsOfKeys(tb: Tables, facts: seq<FactSummary>, keys: seq<string>, hubs: seq<Hub>) {
    && (forall h | h in hubs :: IsHub(tb, facts, h) && h.key in keys)
    && KeysIncrease(hubs)
    && (forall key | key in keys && Joins(tb, facts, key) :: exists h :: h in hubs && h.key == key)
  }

  lemma SkipKey(tb: Tables, facts: seq<FactSummary>, keys: seq<string>, hubs: seq<Hub>, key: string)
    requires HubsOfKeys(tb, facts, keys, hubs) && !Joins(tb, facts, key)
    ensures HubsOfKeys(tb, facts, keys + [key], hubs)
  {}

  lemma AddHub(tb: Tables, facts: seq<FactSummary>, keys: seq<string>, hubs: seq<Hub>, h: Hub)
    requires HubsOfKeys(tb, facts, keys, hubs) && IsHub(tb, facts, h)
    requires forall k | k in keys :: StrLe(k, h.key) && k != h.key
    ensures HubsOfKeys(tb, facts, keys + [h.key], hubs + [h])
  {
    var more := hubs + [h];
    assert more[|hubs|] == h;
    forall i | 0 <= i < |hubs| ensures StrLe(hubs[i].key, h.key) && hubs[i].key != h.key {
      assert hubs[i] in hubs;
    }
    forall key | key in keys + [h.key] && Joins(tb, facts, key) ensures exists x :: x in more && x.key == key {
      if key in keys {
        var x :| x in hubs && x.key == key;
        assert x in more;
      } else {
        assert h in more;
      }
    }
  }

  method MakeHub(tb: Tables, ghost facts: seq<FactSummary>, ghost drafts: map<string, Draft>, key: string, d: Draft)
    returns (h: Hub)
    requires IdsAgree(facts) && Drafted(tb, Mentions(facts), drafts) && key in drafts && drafts[key] == d
    ensures h.key == key && Titled(tb, facts, h.caption, h.members) && TopicKey(tb, h.caption) == key
    ensures |h.members| == |d.members|
    ensures Joins(tb, facts, key) <==> |d.members| >= 2
  {
    GroupExists(tb, facts, key);
    var name := PickName(d.surfaces);
    DraftTitled(tb, facts, drafts, key, name);
    SortPermutes(d.members, ById);
    h := Hub(key, name, Sort(d.members, ById));
    JoinsIffTwoMembers(tb, facts, name, h.members);
  }

  ghost predicate Emitted(hubs: seq<Hub>, hubId: string -> FactId, nodes: seq<Node>, edges: seq<Edge>) {
    nodes == HubNodes(hubs, hubId) && edges == HubEdges(hubs, hubId)
  }

  lemma EmitOne(hubs: seq<Hub>, hubId: string -> FactId, nodes: seq<Node>, edges: seq<Edge>, h: Hub)
    requires Emitted(hubs, hubId, nodes, edges)
    ensures Emitted(hubs + [h], hubId, nodes + [Node(hubId(h.key), h.caption, TopicNode)],
                    edges + MemberEdges(h.members, hubId(h.key)))
  {
    assert (hubs + [h])[..|hubs|] == hubs;
  }

  method Wire(members: seq<FactSummary>, to: FactId) returns (edges: seq<Edge>)
    ensures edges == MemberEdges(members, to)
  {
    edges := [];
    for i := 0 to |members|
      invariant edges == MemberEdges(members[..i], to)
    {
      edges := edges + [Edge(members[i].id, to)];
    }
    assert members[..|members|] == members;
  }

  method EmitHubs(tb: Tables, ghost facts: seq<FactSummary>, drafts: map<string, Draft>, hubId: string -> FactId)
    returns (nodes: seq<Node>, edges: seq<Edge>, ghost hubs: seq<Hub>)
    requires IdsAgree(facts) && Drafted(tb, Mentions(facts), drafts)
    ensures AreHubs(tb, facts, hubs) && nodes == HubNodes(hubs, hubId) && edges == HubEdges(hubs, hubId)
  {
    var keys := SortedKeys(drafts);
    nodes, edges, hubs := [], [], [];
    for k := 0 to |keys|
      invariant HubsOfKeys(tb, facts, keys[..k], hubs)
      invariant Emitted(hubs, hubId, nodes, edges)
    {
      var key := keys[k];
      assert keys[..k+1] == keys[..k] + [key];
      var h := MakeHub(tb, facts, drafts, key, drafts[key]);
      if |drafts[key].members| < 2 {
        SkipKey(tb, facts, keys[..k], hubs, key);
        continue;
      }
      AddHub(tb, facts, keys[..k], hubs, h);
      var wires := Wire(h.members, hubId(key));
      EmitOne(hubs, hubId, nodes, edges, h);
      nodes, edges := nodes + [Node(hubId(key), h.caption, TopicNode)], edges + wires;
      hubs := hubs + [h];
    }
    assert keys[..|keys|] == keys;
    AllKeysDone(tb, facts, drafts, keys, hubs);
  }

  lemma AllKeysDone(tb: Tables, facts: seq<FactSummary>, drafts: map<string, Draft>, keys: seq<string>, hubs: seq<Hub>)
    requires Drafted(tb, Mentions(facts), drafts) && (forall k :: k in keys <==> k in drafts)
    requires HubsOfKeys(tb, facts, keys, hubs)
    ensures AreHubs(tb, facts, hubs)
  {
    forall key | Joins(tb, facts, key) ensures key in keys {
      JoinedIsDrafted(tb, facts, drafts, key);
    }
  }

  lemma JoinedIsDrafted(tb: Tables, facts: seq<FactSummary>, drafts: map<string, Draft>, key: string)
    requires Drafted(tb, Mentions(facts), drafts) && Joins(tb, facts, key)
    ensures key in drafts
  {
    var f, g :| f != g && IsMember(tb, facts, key, f) && IsMember(tb, facts, key, g);
    assert IsKey(tb, facts, key);
    GroupExists(tb, facts, key);
  }

  method EmitLinks(meta: map<FactId, MetaLite>, facts: seq<FactSummary>, ids: set<FactId>) returns (edges: seq<Edge>)
    requires forall f | f in facts :: f.id in meta
    ensures edges == LinkEdges(meta, facts, ids)
  {
    edges := [];
    for i := 0 to |facts|
      invariant edges == LinkEdges(meta, facts[..i], ids)
    {
      var id := facts[i].id;
      assert facts[i] in facts;
      var links := meta[id].links;
      ghost var sofar := edges;
      for j := 0 to |links|
        invariant edges == sofar + LinksFrom(id, links[..j], ids)
      {
        assert links[..j+1][..j] == links[..j];
        if links[j] in ids { edges := edges + [Edge(id, links[j])]; }
      }
      assert links[..|links|] == links;
      assert facts[..i+1][..i] == facts[..i];
    }
    assert facts[..|facts|] == facts;
  }

  method EmitFacts(facts: seq<FactSummary>) returns (nodes: seq<Node>)
    ensures nodes == FactNodes(facts)
  {
    nodes := [];
    for i := 0 to |facts|
      invariant nodes == FactNodes(facts[..i])
    {
      nodes := nodes + [Node(facts[i].id, facts[i].title, FactNode)];
    }
    assert facts[..|facts|] == facts;
  }

  /** The projection of the metadata. `facts` is the order in which the scan met the
      facts in scope. */
  method Project(tb: Tables, meta: map<FactId, MetaLite>, filter: Option<Scope>, hubId: string -> FactId)
    returns (g: Graph, ghost facts: seq<FactSummary>, ghost hubs: seq<Hub>)
    ensures Summaries(meta, meta.Keys, filter, facts)
    ensures AreHubs(tb, facts, hubs) && IsGraph(meta, facts, hubs, hubId, g)
  {
    var ids := set id | id in meta && InScope(filter, meta[id].scope);
    var order := Collect(meta, ids, filter);
    AllInScope(meta, ids, filter, order);
    var nodes := EmitFacts(order);
    var links := EmitLinks(meta, order, ids);
    var drafts := CollectDrafts(tb, order);
    DistinctIdsAgree(order);
    var hubNodes, hubEdges;
    hubNodes, hubEdges, hubs := EmitHubs(tb, order, drafts, hubId);
    g := Graph(nodes + hubNodes, links + hubEdges);
    facts := order;
  }

  /** `graph` of an index: its facts are those a blank search lists. */
  method MakeGraph(ix: SearchIndex, filter: Option<Scope>, hubId: string -> FactId)
    returns (g: Graph, ghost facts: seq<FactSummary>, ghost hubs: seq<Hub>)
    requires ix.Valid()
    ensures IsResult(ix.docs, Found(ix.tb, ix.docs, "", filter), facts)
    ensures AreHubs(ix.tb, facts, hubs) && IsGraph(ix.meta, facts, hubs, hubId, g)
  {
    g, facts, hubs := Project(ix.tb, ix.meta, filter, hubId);
    CollectedIsResult(ix.tb, ix.docs, "", filter, ix.docs.Keys, facts);
  }

  lemma AllInScope(meta: map<FactId, MetaLite>, ids: set<FactId>, filter: Option<Scope>, out: seq<FactSummary>)
    requires ids == set id | id in meta && InScope(filter, meta[id].scope)
    requires Summaries(meta, ids, filter, out)
    ensures Summaries(meta, meta.Keys, filter, out) && IdsOf(out) == ids && DistinctIds(out)
    ensures forall f | f in out :: f.id in meta
  {
    forall id | id in ids ensures id in IdsOf(out) {
      var i :| 0 <= i < |out| && out[i].id == id;
    }
  }

  // ---- what readers rely on -----------------------------------------------------------------------

  /** Hub ids come from hashing the key: different keys get different ids, and none is the
      id of a fact. */
  ghost predicate HubIdsApart(hubId: string -> FactId, facts: seq<FactSummary>) {
    && (forall a, b | hubId(a) == hubId(b) :: a == b)
    && (forall k, f | f in facts :: hubId(k) != f.id)
  }

  ghost predicate IsNodeId(g: Graph, id: FactId) {
    exists n :: n in g.nodes && n.id == id
  }

  lemma {:induction false} LinkEdgesInside(meta: map<FactId, MetaLite>, facts: seq<FactSummary>, ids: set<FactId>,
                                           e: Edge)
    requires (forall f | f in facts :: f.id in meta) && e in LinkEdges(meta, facts, ids)
    ensures e.from in IdsOf(facts) && e.to in ids
  {
    var init, last := facts[..|facts|-1], facts[|facts|-1];
    if e in LinkEdges(meta, init, ids) {
      LinkEdgesInside(meta, init, ids, e);
    } else {
      LinksFromInside(last.id, meta[last.id].links, ids, e);
    }
  }

  lemma {:induction false} LinksFromInside(id: FactId, links: seq<FactId>, ids: set<FactId>, e: Edge)
    requires e in LinksFrom(id, links, ids)
    ensures e.from == id && e.to in ids
  {
    if e in LinksFrom(id, links[..|links|-1], ids) { LinksFromInside(id, links[..|links|-1], ids, e); }
  }

  lemma {:induction false} HubEdgeHasHub(hubs: seq<Hub>, hubId: string -> FactId, e: Edge) returns (h: Hub)
    requires e in HubEdges(hubs, hubId)
    ensures h in hubs && e.to == hubId(h.key) && exists f :: f in h.members && e.from == f.id
  {
    var init, last := hubs[..|hubs|-1], hubs[|hubs|-1];
    if e in HubEdges(init, hubId) {
      h := HubEdgeHasHub(init, hubId, e);
    } else {
      h := last;
      var i :| 0 <= i < |h.members| && MemberEdges(h.members, hubId(h.key))[i] == e;
      assert h.members[i] in h.members;
    }
  }

  /** Edges stay within the node set. */
  lemma EdgesStayInside(tb: Tables, meta: map<FactId, MetaLite>, facts: seq<FactSummary>, hubs: seq<Hub>,
                        hubId: string -> FactId, g: Graph, e: Edge)
    requires IsGraph(meta, facts, hubs, hubId, g) && AreHubs(tb, facts, hubs) && e in g.edges
    ensures IsNodeId(g, e.from) && IsNodeId(g, e.to)
  {
    if e in LinkEdges(meta, facts, IdsOf(facts)) {
      LinkEdgesInside(meta, facts, IdsOf(facts), e);
      FactIsNode(meta, facts, hubs, hubId, g, e.from);
      FactIsNode(meta, facts, hubs, hubId, g, e.to);
    } else {
      var h := HubEdgeHasHub(hubs, hubId, e);
      var f :| f in h.members && e.from == f.id;
      MemberInScope(tb, facts, h, f);
      FactIsNode(meta, facts, hubs, hubId, g, f.id);
      HubIsNode(meta, facts, hubs, hubId, g, h);
    }
  }

  lemma MemberInScope(tb: Tables, facts: seq<FactSummary>, h: Hub, f: FactSummary)
    requires IsHub(tb, facts, h) && f in h.members
    ensures f.id in IdsOf(facts)
  {
    assert f in facts;
    var j :| 0 <= j < |facts| && facts[j] == f;
  }

  lemma HubIsNode(meta: map<FactId, MetaLite>, facts: seq<FactSummary>, hubs: seq<Hub>, hubId: string -> FactId,
                  g: Graph, h: Hub)
    requires IsGraph(meta, facts, hubs, hubId, g) && h in hubs
    ensures IsNodeId(g, hubId(h.key))
  {
    var i :| 0 <= i < |hubs| && hubs[i] == h;
    assert g.nodes[|facts| + i] == HubNodes(hubs, hubId)[i];
  }

  lemma FactIsNode(meta: map<FactId, MetaLite>, facts: seq<FactSummary>, hubs: seq<Hub>, hubId: string -> FactId,
                   g: Graph, id: FactId)
    requires IsGraph(meta, facts, hubs, hubId, g) && id in IdsOf(facts)
    ensures IsNodeId(g, id)
  {
    var i :| 0 <= i < |facts| && facts[i].id == id;
    assert g.nodes[i] == FactNodes(facts)[i];
  }

  lemma NodesAreDistinct(tb: Tables, meta: map<FactId, MetaLite>, facts: seq<FactSummary>, hubs: seq<Hub>,
                         hubId: string -> FactId, g: Graph)
    requires IsGraph(meta, facts, hubs, hubId, g) && AreHubs(tb, facts, hubs)
    requires DistinctIds(facts) && HubIdsApart(hubId, facts)
    ensures forall i, j | 0 <= i < j < |g.nodes| :: g.nodes[i].id != g.nodes[j].id
  {
    var n := |facts|;
    forall i, j | 0 <= i < j < |g.nodes| ensures g.nodes[i].id != g.nodes[j].id {
      if i < n <= j {
        assert facts[i] in facts;
      }
    }
  }

  function CountTo(edges: seq<Edge>, to: FactId): nat {
    if edges == [] then 0 else CountTo(edges[..|edges|-1], to) + if edges[|edges|-1].to == to then 1 else 0
  }

  lemma {:induction false} CountToConcat(a: seq<Edge>, b: seq<Edge>, to: FactId)
    ensures CountTo(a + b, to) == CountTo(a, to) + CountTo(b, to)
  {
    if b == [] {
      assert a + b == a;
    } else {
      CountToConcat(a, b[..|b|-1], to);
      assert (a + b)[..|a+b|-1] == a + b[..|b|-1];
    }
  }

  lemma {:induction false} CountUniform(edges: seq<Edge>, to: FactId, hit: bool)
    requires forall e | e in edges :: (e.to == to) == hit
    ensures CountTo(edges, to) == if hit then |edges| else 0
  {
    if edges != [] { CountUniform(edges[..|edges|-1], to, hit); }
  }

  /** The edges to a hub are one for each of its members. */
  lemma {:induction false} HubEdgeCount(hubs: seq<Hub>, hubId: string -> FactId, key: string)
    requires KeysIncrease(hubs) && forall a, b | hubId(a) == hubId(b) :: a == b
    ensures (forall h | h in hubs :: h.key != key) ==> CountTo(HubEdges(hubs, hubId), hubId(key)) == 0
    ensures forall h | h in hubs && h.key == key :: CountTo(HubEdges(hubs, hubId), hubId(key)) == |h.members|
  {
    if hubs != [] {
      var init, last := hubs[..|hubs|-1], hubs[|hubs|-1];
      HubEdgeCount(init, hubId, key);
      CountToConcat(HubEdges(init, hubId), MemberEdges(last.members, hubId(last.key)), hubId(key));
      CountUniform(MemberEdges(last.members, hubId(last.key)), hubId(key), last.key == key);
      assert hubs == init + [last];
      forall h | h in init ensures h.key != last.key {
        var i :| 0 <= i < |init| && init[i] == h;
        assert hubs[i] == h;
      }
    }
  }

  /** A subject of the graph and its page are about the same facts. */
  lemma HubMatchesPage(tb: Tables, a: seq<FactSummary>, b: seq<FactSummary>, seenAt: SeenMap, h: Hub, p: TopicPage)
    requires multiset(a) == multiset(b) && IsHub(tb, a, h)
    requires h.key == TopicKey(tb, p.topic) && IsPage(tb, b, seenAt, h.key, p)
    ensures h.caption == p.topic && |h.members| == p.mentions && multiset(h.members) == multiset(p.facts)
  {
    TopicsPermute(a, b);
    NameIsUnique(tb, a, h.key, h.caption, p.topic);
    SamePermutation(a, b);
    NoDupPermutation(h.members, p.facts);
    SamePermutation(h.members, p.facts);
  }

  lemma JoinsIffTwoMentions(tb: Tables, a: seq<FactSummary>, b: seq<FactSummary>, seenAt: SeenMap, p: TopicPage)
    requires multiset(a) == multiset(b)
    requires IsKey(tb, b, TopicKey(tb, p.topic)) && IsPage(tb, b, seenAt, TopicKey(tb, p.topic), p)
    ensures Joins(tb, a, TopicKey(tb, p.topic)) <==> p.mentions >= 2
  {
    SamePermutation(a, b);
    TwoMembersJoin(tb, a, TopicKey(tb, p.topic), p.facts);
  }

  /** A topic page has a hub exactly when it has at least two mentions; the hub carries the
      page's name and its facts. */
  lemma HubIffTwoMentions(tb: Tables, a: seq<FactSummary>, b: seq<FactSummary>, seenAt: SeenMap,
                          hubs: seq<Hub>, pages: seq<TopicPage>, p: TopicPage)
    requires multiset(a) == multiset(b)
    requires AreHubs(tb, a, hubs) && ArePages(tb, b, seenAt, pages) && p in pages
    ensures (exists h :: h in hubs && h.key == TopicKey(tb, p.topic)) <==> p.mentions >= 2
    ensures forall h | h in hubs && h.key == TopicKey(tb, p.topic) ::
      h.caption == p.topic && multiset(h.members) == multiset(p.facts)
  {
    var key := TopicKey(tb, p.topic);
    JoinsIffTwoMentions(tb, a, b, seenAt, p);
    forall h | h in hubs && h.key == key
      ensures h.caption == p.topic && multiset(h.members) == multiset(p.facts) && p.mentions >= 2
    {
      HubMatchesPage(tb, a, b, seenAt, h, p);
    }
  }

  /** Every hub has its page. */
  lemma EveryHubHasItsPage(tb: Tables, a: seq<FactSummary>, b: seq<FactSummary>, seenAt: SeenMap,
                           hubs: seq<Hub>, pages: seq<TopicPage>, h: Hub)
    requires multiset(a) == multiset(b)
    requires AreHubs(tb, a, hubs) && ArePages(tb, b, seenAt, pages) && h in hubs
    ensures exists p :: p in pages && TopicKey(tb, p.topic) == h.key && p.topic == h.caption
  {
    SamePermutation(a, b);
    var f :| f in a && HasKey(tb, f, h.key);
    assert IsKey(tb, b, h.key);
    var p :| p in pages && TopicKey(tb, p.topic) == h.key;
    HubMatchesPage(tb, a, b, seenAt, h, p);
  }

  /** The hub of a page has as many edges as the page has mentions, and there are no edges
      when the page has fewer than two. */
  lemma EdgesCountMentions(tb: Tables, meta: map<FactId, MetaLite>, a: seq<FactSummary>, b: seq<FactSummary>,
                           seenAt: SeenMap, hubs: seq<Hub>, hubId: string -> FactId, g: Graph, pages: seq<TopicPage>,
                           p: TopicPage)
    requires multiset(a) == multiset(b) && HubIdsApart(hubId, a)
    requires AreHubs(tb, a, hubs) && IsGraph(meta, a, hubs, hubId, g)
    requires ArePages(tb, b, seenAt, pages) && p in pages
    ensures CountTo(g.edges, hubId(TopicKey(tb, p.topic))) == if p.mentions >= 2 then p.mentions else 0
  {
    var key := TopicKey(tb, p.topic);
    var links := LinkEdges(meta, a, IdsOf(a));
    forall e | e in links ensures e.to != hubId(key) {
      LinkEdgesInside(meta, a, IdsOf(a), e);
    }
    CountUniform(links, hubId(key), false);
    CountToConcat(links, HubEdges(hubs, hubId), hubId(key));
    HubEdgeCount(hubs, hubId, key);
    HubIffTwoMentions(tb, a, b, seenAt, hubs, pages, p);
    if h :| h in hubs && h.key == key {
      SamePermutation(h.members, p.facts);
    }
  }
}
