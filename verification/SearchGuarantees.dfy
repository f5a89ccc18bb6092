/** What search, topic pages and the graph promise, in the characters of queries and facts
    and in the facts' own fields. */
module SearchGuarantees {
  import opened Wrappers
  import opened Texts
  import opened TextGuarantees
  import opened Ordering
  import opened KnowledgeTypes
  import opened Tokenizer
  import opened SearchIndex
  import opened TopicGroups
  import opened TopicPages
  import opened TopicGraph
  import KnowledgeProtocol

  // ---- facts ------------------------------------------------------------------------------

  /** Stored are facts that are confirmed, know when, and have a title that is not blank. */
  lemma AcceptableMeans(f: Fact)
    ensures KnowledgeProtocol.Acceptable(f) <==> f.meta.confirmed && f.meta.confirmedAt.Some? && !AllSpacing(f.title)
  {
    var _, _ := TrimMeans(f.title);
  }

  // ---- terms ------------------------------------------------------------------------------

  /** Hangul jamo, kana, and the Han and Hangul syllable blocks. */
  predicate EastAsian(c: char) {
    var n := c as int;
    || 0x1100 <= n < 0x1200 || 0x3040 <= n < 0x3100 || 0x3400 <= n < 0x4DC0
    || 0x4E00 <= n < 0xA000 || 0xAC00 <= n < 0xD7A4
  }

  predicate LetterAt(tb: Tables, s: string, i: int) {
    0 <= i < |s| && !EastAsian(s[i]) && tb.alnum(s[i])
  }

  predicate EastAsianAt(s: string, i: int) {
    0 <= i < |s| && EastAsian(s[i])
  }

  /** A word: a longest run of letters and digits. */
  predicate WordAt(tb: Tables, s: string, x: int, y: int) {
    0 <= x < y <= |s| && (forall i | x <= i < y :: LetterAt(tb, s, i)) && !LetterAt(tb, s, x - 1) && !LetterAt(tb, s, y)
  }

  ghost predicate IsWordOf(tb: Tables, s: string, t: string) {
    exists x, y :: WordAt(tb, s, x, y) && t == tb.lower(s[x..y])
  }

  predicate StandsAlone(s: string, x: int) {
    EastAsianAt(s, x) && !EastAsianAt(s, x - 1) && !EastAsianAt(s, x + 1)
  }

  predicate StandTogether(s: string, x: int) {
    EastAsianAt(s, x) && EastAsianAt(s, x + 1)
  }

  /** A text is found by its words in lowercase, by its East Asian characters that stand
      alone, and by any two of them that stand together. */
  ghost predicate IsTermOf(tb: Tables, s: string, t: string) {
    || IsWordOf(tb, s, t)
    || (exists x :: StandsAlone(s, x) && t == [s[x]])
    || (exists x :: StandTogether(s, x) && t == [s[x], s[x+1]])
  }

  lemma KindsMean(tb: Tables, s: string, i: int)
    ensures KindAt(tb, s, i, Word) <==> LetterAt(tb, s, i)
    ensures KindAt(tb, s, i, Cjk) <==> EastAsianAt(s, i)
  {}

  lemma WordsMean(tb: Tables, s: string, t: string)
    ensures t in WordsUpTo(tb, s, |s|) <==> IsWordOf(tb, s, t)
  {
    forall i ensures KindAt(tb, s, i, Word) <==> LetterAt(tb, s, i) { KindsMean(tb, s, i); }
    if t in WordsUpTo(tb, s, |s|) {
      var x, y :| 0 <= x < |s| && 0 <= y <= |s| && WordRun(tb, s, x, y) && tb.lower(s[x..y]) == t;
      assert WordAt(tb, s, x, y);
    }
    if IsWordOf(tb, s, t) {
      var x, y :| WordAt(tb, s, x, y) && t == tb.lower(s[x..y]);
      assert WordRun(tb, s, x, y);
    }
  }

  lemma LonesMean(tb: Tables, s: string, t: string)
    ensures t in LonesUpTo(tb, s, |s|) <==> exists x :: StandsAlone(s, x) && t == [s[x]]
  {
    forall i ensures KindAt(tb, s, i, Cjk) <==> EastAsianAt(s, i) { KindsMean(tb, s, i); }
    if t in LonesUpTo(tb, s, |s|) {
      var x :| 0 <= x < |s| && Lone(tb, s, x) && s[x..x+1] == t;
      assert StandsAlone(s, x) && t == [s[x]];
    }
    if exists x :: StandsAlone(s, x) && t == [s[x]] {
      var x :| StandsAlone(s, x) && t == [s[x]];
      assert Lone(tb, s, x) && s[x..x+1] == t;
    }
  }

  lemma PairsMean(tb: Tables, s: string, t: string)
    ensures t in PairsUpTo(tb, s, |s|) <==> exists x :: StandTogether(s, x) && t == [s[x], s[x+1]]
  {
    if t in PairsUpTo(tb, s, |s|) {
      var x :| 0 <= x < |s| - 1 && Pair(tb, s, x) && Gram(s, x) == t;
      PairAt(tb, s, x);
    }
    if exists x :: StandTogether(s, x) && t == [s[x], s[x+1]] {
      var x :| StandTogether(s, x) && t == [s[x], s[x+1]];
      PairAt(tb, s, x);
    }
  }

  lemma PairAt(tb: Tables, s: string, x: int)
    ensures Pair(tb, s, x) <==> StandTogether(s, x)
    ensures Pair(tb, s, x) ==> Gram(s, x) == [s[x], s[x+1]]
  {
    KindsMean(tb, s, x);
    KindsMean(tb, s, x + 1);
  }

  lemma TokensMean(tb: Tables, s: string, t: string)
    ensures t in Tokens(tb, s) <==> IsTermOf(tb, s, t)
  {
    WordsMean(tb, s, t);
    LonesMean(tb, s, t);
    PairsMean(tb, s, t);
  }

  // ---- search -----------------------------------------------------------------------------

  predicate WithinScope(filter: Option<Scope>, f: Fact) {
    match filter
    case None => true
    case Some(scope) => f.meta.scope == scope
  }

  ghost predicate HasTerms(tb: Tables, query: string) {
    exists t :: IsTermOf(tb, query, t)
  }

  /** Every term of the query is one of the title or of the body. */
  ghost predicate Answers(tb: Tables, f: Fact, query: string) {
    forall t | IsTermOf(tb, query, t) :: IsTermOf(tb, f.title, t) || IsTermOf(tb, f.body, t)
  }

  lemma FactTokensMean(tb: Tables, f: Fact, t: string)
    requires !tb.alnum(' ')
    ensures t in FactTokens(tb, f) <==> IsTermOf(tb, f.title, t) || IsTermOf(tb, f.body, t)
  {
    TokensOfJoin(tb, f.title, f.body, ' ');
    TokensMean(tb, f.title, t);
    TokensMean(tb, f.body, t);
  }

  /** A query of nothing but spacing finds every fact in scope; any other finds those in
      scope that answer it, and nothing when it has no terms. */
  lemma FoundMeans(tb: Tables, docs: map<FactId, Fact>, query: string, filter: Option<Scope>, id: FactId)
    requires !tb.alnum(' ') && id in docs
    ensures id in Found(tb, docs, query, filter) <==>
      WithinScope(filter, docs[id])
      && (AllSpacing(query) || (HasTerms(tb, query) && Answers(tb, docs[id], query)))
  {
    var _, _ := TrimMeans(query);
    TrimEmptyIffBlank(query);
    forall t ensures t in Tokens(tb, query) <==> IsTermOf(tb, query, t) { TokensMean(tb, query, t); }
    forall t ensures t in FactTokens(tb, docs[id])
      <==> IsTermOf(tb, docs[id].title, t) || IsTermOf(tb, docs[id].body, t) {
      FactTokensMean(tb, docs[id], t);
    }
  }

  /** A summary says of the fact what the fact says of itself. */
  predicate Summarizes(s: FactSummary, f: Fact) {
    && s.id == f.id && s.title == f.title && s.scope == f.meta.scope && s.kind == f.meta.kind
    && s.topics == f.meta.topics && s.visibility == f.meta.visibility && s.confirmed == f.meta.confirmed
  }

  /** A result holds a summary of every fact found, once, and nothing else. */
  lemma ResultMeans(tb: Tables, docs: map<FactId, Fact>, query: string, filter: Option<Scope>, out: seq<FactSummary>)
    requires Filed(docs) && !tb.alnum(' ') && IsResult(docs, Found(tb, docs, query, filter), out)
    ensures forall s | s in out :: s.id in docs && Summarizes(s, docs[s.id])
    ensures forall i, j | 0 <= i < j < |out| :: out[i].id != out[j].id
    ensures forall id | id in docs :: (exists s :: s in out && s.id == id) <==>
      WithinScope(filter, docs[id])
      && (AllSpacing(query) || (HasTerms(tb, query) && Answers(tb, docs[id], query)))
  {
    forall s | s in out ensures s.id in docs && Summarizes(s, docs[s.id]) {
      var i :| 0 <= i < |out| && out[i] == s;
    }
    forall id | id in docs ensures (exists s :: s in out && s.id == id) <==> id in Found(tb, docs, query, filter) {
      if id in Found(tb, docs, query, filter) { ResultHas(docs, Found(tb, docs, query, filter), out, id); }
      if exists s :: s in out && s.id == id {
        var s :| s in out && s.id == id;
        var i :| 0 <= i < |out| && out[i] == s;
      }
    }
    forall id | id in docs ensures id in Found(tb, docs, query, filter) <==>
      WithinScope(filter, docs[id])
      && (AllSpacing(query) || (HasTerms(tb, query) && Answers(tb, docs[id], query))) {
      FoundMeans(tb, docs, query, filter, id);
    }
  }

  /** Two or more East Asian characters in a row find every fact that has them in its title
      or in its body. */
  lemma EastAsianTextIsFound(tb: Tables, docs: map<FactId, Fact>, q: string, id: FactId)
    requires !tb.alnum(' ') && |q| >= 2 && (forall c | c in q :: EastAsian(c)) && id in docs
    requires Contains(docs[id].title, q) || Contains(docs[id].body, q)
    ensures id in Found(tb, docs, q, None)
  {
    assert forall i | 0 <= i < |q| :: q[i] in q;
    CjkSubstringIsFound(tb, docs, q, id);
  }

  // ---- subjects -----------------------------------------------------------------------------

  /** A topic without what is neither a letter nor a digit. */
  function Letters(tb: Tables, topic: string): string {
    Joined(seq(|topic|, i requires 0 <= i < |topic| => if tb.alnum(topic[i]) then [topic[i]] else ""))
  }

  lemma {:induction false} KeyIsLetters(tb: Tables, topic: string)
    ensures TopicKey(tb, topic) == Letters(tb, topic)
  {
    if topic != [] {
      var parts := seq(|topic|, i requires 0 <= i < |topic| => if tb.alnum(topic[i]) then [topic[i]] else "");
      KeyIsLetters(tb, topic[1..]);
      assert parts[1..] ==
        seq(|topic|-1, i requires 0 <= i < |topic|-1 => if tb.alnum(topic[1..][i]) then [topic[1..][i]] else "");
    }
  }

  /** Is the fact about this, however the topic is separated? */
  predicate IsAbout(tb: Tables, f: FactSummary, topic: string) {
    exists i | 0 <= i < |f.topics| :: Letters(tb, f.topics[i]) == Letters(tb, topic)
  }

  lemma AboutMeans(tb: Tables, f: FactSummary, topic: string)
    ensures HasKey(tb, f, TopicKey(tb, topic)) <==> IsAbout(tb, f, topic)
  {
    KeyIsLetters(tb, topic);
    forall i | 0 <= i < |f.topics| ensures TopicKey(tb, f.topics[i]) == Letters(tb, f.topics[i]) {
      KeyIsLetters(tb, f.topics[i]);
    }
  }

  /** A page is about a topic that has letters, and holds every fact about it, once: the
      most recently seen first, then by title. */
  lemma PageMeans(tb: Tables, facts: seq<FactSummary>, seenAt: SeenMap, pages: seq<TopicPage>, p: TopicPage)
    requires ArePages(tb, facts, seenAt, pages) && p in pages
    ensures Letters(tb, p.topic) != "" && NoDup(p.facts)
    ensures forall f :: f in p.facts <==> f in facts && IsAbout(tb, f, p.topic)
    ensures p.mentions == |p.facts|
    ensures forall i, j | 0 <= i < j < |p.facts| ::
      ShownBefore(SeenAt(seenAt, p.facts[i]), p.facts[i].title, SeenAt(seenAt, p.facts[j]), p.facts[j].title)
  {
    KeyIsLetters(tb, p.topic);
    forall f ensures HasKey(tb, f, TopicKey(tb, p.topic)) <==> IsAbout(tb, f, p.topic) {
      AboutMeans(tb, f, p.topic);
    }
    forall i, j | 0 <= i < j < |p.facts|
      ensures ShownBefore(SeenAt(seenAt, p.facts[i]), p.facts[i].title, SeenAt(seenAt, p.facts[j]), p.facts[j].title)
    {
      assert PageOrder(seenAt)(p.facts[i], p.facts[j]);
      StrLeMeans(p.facts[i].title, p.facts[j].title);
    }
  }

  /** Every topic that has letters has one page, whatever its separators. */
  lemma OnePagePerTopic(tb: Tables, facts: seq<FactSummary>, seenAt: SeenMap, pages: seq<TopicPage>)
    requires ArePages(tb, facts, seenAt, pages)
    ensures forall f, t | f in facts && t in f.topics && Letters(tb, t) != "" ::
      exists p :: p in pages && Letters(tb, p.topic) == Letters(tb, t)
    ensures forall i, j | 0 <= i < j < |pages| :: Letters(tb, pages[i].topic) != Letters(tb, pages[j].topic)
  {
    forall f, t | f in facts && t in f.topics && Letters(tb, t) != ""
      ensures exists p :: p in pages && Letters(tb, p.topic) == Letters(tb, t)
    {
      var i :| 0 <= i < |f.topics| && f.topics[i] == t;
      KeyIsLetters(tb, t);
      var p := SubjectPage(tb, facts, seenAt, pages, f, i);
      KeyIsLetters(tb, p.topic);
    }
    forall i, j | 0 <= i < j < |pages| ensures Letters(tb, pages[i].topic) != Letters(tb, pages[j].topic) {
      KeyIsLetters(tb, pages[i].topic);
      KeyIsLetters(tb, pages[j].topic);
    }
  }

  /** Pages with more mentions come first, then those seen more recently, then by name. */
  lemma PagesInOrder(tb: Tables, facts: seq<FactSummary>, seenAt: SeenMap, pages: seq<TopicPage>, i: nat, j: nat)
    requires ArePages(tb, facts, seenAt, pages) && i < j < |pages|
    ensures pages[i].mentions > pages[j].mentions
      || (pages[i].mentions == pages[j].mentions
          && ShownBefore(pages[i].lastSeen, pages[i].topic, pages[j].lastSeen, pages[j].topic))
  {
    assert Ranked(pages[i], pages[j]);
    StrLeMeans(pages[i].topic, pages[j].topic);
  }

  /** A page was first seen when its earliest fact was and last when its latest was. */
  lemma SeenMeans(tb: Tables, facts: seq<FactSummary>, seenAt: SeenMap, pages: seq<TopicPage>, p: TopicPage)
    requires ArePages(tb, facts, seenAt, pages) && p in pages
    ensures p.firstSeen == None <==> forall f | f in p.facts :: SeenAt(seenAt, f) == None
    ensures p.lastSeen == None <==> forall f | f in p.facts :: SeenAt(seenAt, f) == None
    ensures p.firstSeen != None ==> exists f :: f in p.facts && SeenAt(seenAt, f) == p.firstSeen
    ensures p.lastSeen != None ==> exists f :: f in p.facts && SeenAt(seenAt, f) == p.lastSeen
    ensures forall f | f in p.facts && SeenAt(seenAt, f) != None && p.firstSeen != None && p.lastSeen != None ::
      p.firstSeen.value <= SeenAt(seenAt, f).value <= p.lastSeen.value
  {
    forall f ensures Seen(seenAt, f) == SeenAt(seenAt, f) {}
    assert IsFirstSeen(seenAt, p.facts, p.firstSeen) && IsLastSeen(seenAt, p.facts, p.lastSeen);
    if p.lastSeen != None {
      var f :| f in p.facts && Seen(seenAt, f) == p.lastSeen;
    }
  }

  lemma SubjectPage(tb: Tables, facts: seq<FactSummary>, seenAt: SeenMap, pages: seq<TopicPage>, f: FactSummary, i: nat)
    returns (p: TopicPage)
    requires ArePages(tb, facts, seenAt, pages) && f in facts && i < |f.topics| && TopicKey(tb, f.topics[i]) != []
    ensures p in pages && TopicKey(tb, p.topic) == TopicKey(tb, f.topics[i])
  {
    assert HasKey(tb, f, TopicKey(tb, f.topics[i]));
    assert IsKey(tb, facts, TopicKey(tb, f.topics[i]));
    p :| p in pages && TopicKey(tb, p.topic) == TopicKey(tb, f.topics[i]);
  }

  function SeenAt(seenAt: SeenMap, f: FactSummary): Option<Time> {
    if f.id !in seenAt then None else seenAt[f.id]
  }

  /** The later time first and an unknown time last; at equal times by code points. */
  ghost predicate ShownBefore(t: Option<Time>, a: string, u: Option<Time>, b: string) {
    match (t, u)
    case (Some(x), Some(y)) => x > y || (x == y && (a <= b || exists i :: PartsAt(a, b, i)))
    case (Some(_), None) => true
    case (None, Some(_)) => false
    case (None, None) => a <= b || exists i :: PartsAt(a, b, i)
  }

  /** The graph has a hub exactly for the topics with letters that at least two facts are
      about, and joins exactly those facts to it. */
  lemma HubsMean(tb: Tables, facts: seq<FactSummary>, hubs: seq<Hub>)
    requires AreHubs(tb, facts, hubs)
    ensures forall h | h in hubs :: |h.members| >= 2 && NoDup(h.members) && h.key == Letters(tb, h.caption)
    ensures forall h, f | h in hubs :: f in h.members <==> f in facts && IsAbout(tb, f, h.caption)
    ensures forall t, f, g | f in facts && g in facts && f != g && Letters(tb, t) != ""
                             && IsAbout(tb, f, t) && IsAbout(tb, g, t) ::
      exists h :: h in hubs && h.key == Letters(tb, t)
  {
    forall h | h in hubs
      ensures h.key == Letters(tb, h.caption) && forall f :: f in h.members <==> f in facts && IsAbout(tb, f, h.caption)
    {
      assert IsHub(tb, facts, h);
      KeyIsLetters(tb, h.caption);
      forall f ensures HasKey(tb, f, h.key) <==> IsAbout(tb, f, h.caption) { AboutMeans(tb, f, h.caption); }
    }
    forall t, f, g | f in facts && g in facts && f != g && Letters(tb, t) != ""
                     && IsAbout(tb, f, t) && IsAbout(tb, g, t)
      ensures exists h :: h in hubs && h.key == Letters(tb, t)
    {
      KeyIsLetters(tb, t);
      AboutMeans(tb, f, t);
      AboutMeans(tb, g, t);
      assert IsMember(tb, facts, TopicKey(tb, t), f) && IsMember(tb, facts, TopicKey(tb, t), g);
      assert Joins(tb, facts, TopicKey(tb, t));
    }
  }

  ghost predicate IsLink(docs: map<FactId, Fact>, facts: seq<FactSummary>, e: Edge) {
    && (exists f :: f in facts && f.id == e.from) && (exists f :: f in facts && f.id == e.to)
    && e.from in docs && e.to in docs[e.from].links
  }

  /** The edges of a graph are the links its facts have to one another, and one from each
      member of a hub to the hub. */
  lemma EdgesMean(docs: map<FactId, Fact>, facts: seq<FactSummary>, hubs: seq<Hub>, hubId: string -> FactId, g: Graph,
                  e: Edge)
    requires IsGraph(Metas(docs), facts, hubs, hubId, g)
    ensures e in g.edges <==>
      || IsLink(docs, facts, e)
      || exists h, f :: h in hubs && f in h.members && e == Edge(f.id, hubId(h.key))
  {
    LinksMean(docs, facts, IdsOf(facts), e);
    HubEdgesMean(hubs, hubId, e);
    IdsMean(facts, e.from);
    IdsMean(facts, e.to);
  }

  lemma IdsMean(facts: seq<FactSummary>, id: FactId)
    ensures id in IdsOf(facts) <==> exists f :: f in facts && f.id == id
  {
    if f :| f in facts && f.id == id {
      var i :| 0 <= i < |facts| && facts[i] == f;
    }
  }

  lemma {:induction false} LinksMean(docs: map<FactId, Fact>, facts: seq<FactSummary>, ids: set<FactId>, e: Edge)
    requires forall f | f in facts :: f.id in Metas(docs)
    ensures e in LinkEdges(Metas(docs), facts, ids) <==>
      (exists f :: f in facts && f.id == e.from) && e.to in ids && e.from in docs && e.to in docs[e.from].links
  {
    if facts != [] {
      var init, last := facts[..|facts|-1], facts[|facts|-1];
      assert facts == init + [last];
      LinksMean(docs, init, ids, e);
      OneFactsLinks(last.id, docs[last.id].links, ids, e);
    }
  }

  lemma {:induction false} OneFactsLinks(id: FactId, links: seq<FactId>, ids: set<FactId>, e: Edge)
    ensures e in LinksFrom(id, links, ids) <==> e.from == id && e.to in links && e.to in ids
  {
    if links != [] {
      OneFactsLinks(id, links[..|links|-1], ids, e);
      assert links == links[..|links|-1] + [links[|links|-1]];
    }
  }

  lemma {:induction false} HubEdgesMean(hubs: seq<Hub>, hubId: string -> FactId, e: Edge)
    ensures e in HubEdges(hubs, hubId) <==> exists h, f :: h in hubs && f in h.members && e == Edge(f.id, hubId(h.key))
  {
    if hubs != [] {
      var init, last := hubs[..|hubs|-1], hubs[|hubs|-1];
      assert hubs == init + [last];
      HubEdgesMean(init, hubId, e);
      MembersMean(last.members, hubId(last.key), e);
    }
  }

  lemma MembersMean(members: seq<FactSummary>, to: FactId, e: Edge)
    ensures e in MemberEdges(members, to) <==> exists f :: f in members && e == Edge(f.id, to)
  {
    if e in MemberEdges(members, to) {
      var i :| 0 <= i < |members| && MemberEdges(members, to)[i] == e;
      assert members[i] in members;
    }
    if f :| f in members && e == Edge(f.id, to) {
      var i :| 0 <= i < |members| && members[i] == f;
      assert MemberEdges(members, to)[i] == e;
    }
  }

  /** Its nodes are the facts, under their titles, and the hubs, under their names. */
  lemma NodesMean(docs: map<FactId, Fact>, facts: seq<FactSummary>, hubs: seq<Hub>, hubId: string -> FactId, g: Graph)
    requires IsGraph(Metas(docs), facts, hubs, hubId, g)
    ensures |g.nodes| == |facts| + |hubs|
    ensures forall i | 0 <= i < |facts| :: g.nodes[i] == Node(facts[i].id, facts[i].title, FactNode)
    ensures forall i | 0 <= i < |hubs| ::
      g.nodes[|facts| + i] == Node(hubId(hubs[i].key), hubs[i].caption, TopicNode)
  {}
}
