/** `topic_pages` of `knowledge/search_index.rs`: one page per subject, ranked by
    repetition and recency. */
module TopicPages {
  import opened Wrappers
  import opened Ordering
  import opened KnowledgeTypes
  import opened Tokenizer
  import opened TopicGroups

  datatype TopicPage = TopicPage(
    topic: string,
    mentions: nat,
    concerns: nat,
    firstSeen: Option<Time>,
    lastSeen: Option<Time>,
    facts: seq<FactSummary>)

  type SeenMap = map<FactId, Option<Time>>

  /** `seen_at.get(&id).copied().flatten()` */
  function Seen(seenAt: SeenMap, f: FactSummary): Option<Time> {
    if f.id in seenAt then seenAt[f.id] else None
  }

  /** `Option`'s order: nothing comes before something. */
  predicate OptLe(a: Option<Time>, b: Option<Time>) {
    a.None? || (b.Some? && a.value <= b.value)
  }

  // ---- the orders ----------------------------------------------------------------------

  /** Newest first, then by title. */
  predicate NewestThenTitle(seenAt: SeenMap, a: FactSummary, b: FactSummary) {
    var x, y := Seen(seenAt, a), Seen(seenAt, b);
    if x == y then StrLe(a.title, b.title) else OptLe(y, x)
  }

  /** Most mentions first, then most recent, then by name. */
  predicate Ranked(a: TopicPage, b: TopicPage) {
    if a.mentions != b.mentions then a.mentions > b.mentions
    else if a.lastSeen != b.lastSeen then OptLe(b.lastSeen, a.lastSeen)
    else StrLe(a.topic, b.topic)
  }

  function NewestFirst(seenAt: SeenMap): (FactSummary, FactSummary) -> bool {
    (a, b) => NewestThenTitle(seenAt, a, b)
  }

  /** Newest, then title, then id: the order of the facts on a page. */
  predicate OnPage(seenAt: SeenMap, a: FactSummary, b: FactSummary) {
    NewestThenTitle(seenAt, a, b) && (NewestThenTitle(seenAt, b, a) ==> a.id <= b.id)
  }

  function PageOrder(seenAt: SeenMap): (FactSummary, FactSummary) -> bool {
    (a, b) => OnPage(seenAt, a, b)
  }

  lemma RankedIsTotal()
    ensures TotalPreorder(Ranked)
    ensures forall a, b | Ranked(a, b) && Ranked(b, a) :: a.topic == b.topic
  {
    StrLeTotalOrder();
  }

  lemma NewestFirstIsTotal(seenAt: SeenMap)
    ensures TotalPreorder(NewestFirst(seenAt))
  {
    StrLeTotalOrder();
  }

  lemma PageOrderIsTotal(seenAt: SeenMap)
    ensures TotalPreorder(PageOrder(seenAt))
  {
    StrLeTotalOrder();
  }

  // ---- what the pages are, whatever the order of the facts --------------------------------

  ghost function Concerns(facts: seq<FactSummary>): nat {
    if facts == [] then 0 else Concerns(facts[..|facts|-1]) + (if facts[|facts|-1].kind == Concern then 1 else 0)
  }

  ghost predicate IsFirstSeen(seenAt: SeenMap, facts: seq<FactSummary>, o: Option<Time>) {
    && (o.None? ==> forall f | f in facts :: Seen(seenAt, f).None?)
    && (o.Some? ==> (exists f :: f in facts && Seen(seenAt, f) == o)
                    && forall f | f in facts && Seen(seenAt, f).Some? :: o.value <= Seen(seenAt, f).value)
  }

  ghost predicate IsLastSeen(seenAt: SeenMap, facts: seq<FactSummary>, o: Option<Time>) {
    && ((exists f :: f in facts && Seen(seenAt, f) == o) || (facts == [] && o.None?))
    && forall f | f in facts :: OptLe(Seen(seenAt, f), o)
  }

  ghost predicate IsPage(tb: Tables, facts: seq<FactSummary>, seenAt: SeenMap, key: string, p: TopicPage) {
    && Names(tb, facts, key, p.topic)
    && NoDup(p.facts) && (forall f :: f in p.facts <==> IsMember(tb, facts, key, f))
    && SortedBy(p.facts, PageOrder(seenAt))
    && p.mentions == |p.facts| && p.concerns == Concerns(p.facts)
    && IsFirstSeen(seenAt, p.facts, p.firstSeen) && IsLastSeen(seenAt, p.facts, p.lastSeen)
  }

  /** Each is the page of a subject. */
  ghost predicate AllPages(tb: Tables, facts: seq<FactSummary>, seenAt: SeenMap, pages: seq<TopicPage>) {
    forall p | p in pages ::
      IsKey(tb, facts, TopicKey(tb, p.topic)) && IsPage(tb, facts, seenAt, TopicKey(tb, p.topic), p)
  }

  /** One page for every subject, no page for anything else, no two pages under one
      name, in rank order. */
  ghost predicate ArePages(tb: Tables, facts: seq<FactSummary>, seenAt: SeenMap, pages: seq<TopicPage>) {
    && AllPages(tb, facts, seenAt, pages)
    && (forall key | IsKey(tb, facts, key) :: exists p :: p in pages && TopicKey(tb, p.topic) == key)
    && (forall i, j | 0 <= i < j < |pages| :: TopicKey(tb, pages[i].topic) != TopicKey(tb, pages[j].topic))
    && SortedBy(pages, Ranked)
  }

  lemma PageUnique(tb: Tables, a: seq<FactSummary>, b: seq<FactSummary>, seenAt: SeenMap, key: string, p: TopicPage,
                   q: TopicPage)
    requires multiset(a) == multiset(b) && IdsAgree(a)
    requires IsPage(tb, a, seenAt, key, p) && IsPage(tb, b, seenAt, key, q)
    ensures p == q
  {
    TopicsPermute(a, b);
    NameIsUnique(tb, a, key, p.topic, q.topic);
    SamePermutation(a, b);
    NoDupPermutation(p.facts, q.facts);
    PageFactsUnique(a, seenAt, p.facts, q.facts);
    FirstSeenUnique(seenAt, p.facts, p.firstSeen, q.firstSeen);
    LastSeenUnique(seenAt, p.facts, p.lastSeen, q.lastSeen);
  }

  lemma PageFactsUnique(facts: seq<FactSummary>, seenAt: SeenMap, xs: seq<FactSummary>, ys: seq<FactSummary>)
    requires IdsAgree(facts) && (forall x | x in xs :: x in facts)
    requires multiset(xs) == multiset(ys) && SortedBy(xs, PageOrder(seenAt)) && SortedBy(ys, PageOrder(seenAt))
    ensures xs == ys
  {
    var le := PageOrder(seenAt);
    PageOrderIsTotal(seenAt);
    forall x, y | x in xs && y in xs && le(x, y) && le(y, x) ensures x == y {
      assert x.id == y.id;
    }
    SortedUnique(xs, ys, le);
  }

  lemma FirstSeenUnique(seenAt: SeenMap, facts: seq<FactSummary>, a: Option<Time>, b: Option<Time>)
    requires IsFirstSeen(seenAt, facts, a) && IsFirstSeen(seenAt, facts, b)
    ensures a == b
  {}

  lemma LastSeenUnique(seenAt: SeenMap, facts: seq<FactSummary>, a: Option<Time>, b: Option<Time>)
    requires IsLastSeen(seenAt, facts, a) && IsLastSeen(seenAt, facts, b)
    ensures a == b
  {
    if facts != [] {
      assert OptLe(a, b) && OptLe(b, a);
    }
  }

  /** `topic_pages` is independent of the order of its input: any two answers for
      permutations of the same facts are equal. */
  lemma PagesIgnoreOrder(tb: Tables, a: seq<FactSummary>, b: seq<FactSummary>, seenAt: SeenMap, ps: seq<TopicPage>,
                         qs: seq<TopicPage>)
    requires multiset(a) == multiset(b) && IdsAgree(a)
    requires ArePages(tb, a, seenAt, ps) && ArePages(tb, b, seenAt, qs)
    ensures ps == qs
  {
    SamePermutation(a, b);
    PagesIncluded(tb, a, b, seenAt, ps, qs);
    PagesIncluded(tb, b, a, seenAt, qs, ps);
    NoDupPermutation(ps, qs);
    RankedIsTotal();
    forall p, q | p in ps && q in ps && Ranked(p, q) && Ranked(q, p) ensures p == q {
      assert p.topic == q.topic;
      var i :| 0 <= i < |ps| && ps[i] == p;
      var j :| 0 <= j < |ps| && ps[j] == q;
    }
    SortedUnique(ps, qs, Ranked);
  }

  lemma PagesIncluded(tb: Tables, a: seq<FactSummary>, b: seq<FactSummary>, seenAt: SeenMap, ps: seq<TopicPage>,
                      qs: seq<TopicPage>)
    requires multiset(a) == multiset(b) && IdsAgree(a)
    requires ArePages(tb, a, seenAt, ps) && ArePages(tb, b, seenAt, qs)
    ensures forall p | p in ps :: p in qs
  {
    SamePermutation(a, b);
    forall p | p in ps ensures p in qs {
      var key := TopicKey(tb, p.topic);
      var f :| f in a && HasKey(tb, f, key);
      assert f in b;
      assert IsKey(tb, b, key);
      var q :| q in qs && TopicKey(tb, q.topic) == key;
      PageUnique(tb, a, b, seenAt, key, p, q);
    }
  }

  // ---- the code -----------------------------------------------------------------------------

  /** The members of a group, once each, by id. */
  function OnceById(members: seq<FactSummary>): seq<FactSummary> {
    Dedup(Sort(members, ById), SameSummary)
  }

  lemma ByIdIsTotal()
    ensures TotalPreorder(ById) && Equivalence(SameSummary) && KeepsTogether(ById, SameSummary)
  {}

  lemma OnceByIdMeans(members: seq<FactSummary>, facts: seq<FactSummary>)
    requires IdsAgree(facts) && forall f | f in members :: f in facts
    ensures var once := OnceById(members);
      NoDup(once) && SortedBy(once, ById) && forall f :: f in once <==> f in members
  {
    var sorted := Sort(members, ById);
    SortPermutes(members, ById);
    ByIdIsTotal();
    SortSorts(members, ById);
    DedupSorted(sorted, ById, SameSummary);
    var once := OnceById(members);
    assert NoDup(once);
    forall f ensures f in once <==> f in members {
      if f in members {
        assert f in sorted;
        DedupRepresents(sorted, ById, SameSummary, f);
        var y :| y in once && SameSummary(y, f) && ById(y, f);
        assert y in sorted;
      }
    }
  }

  /** `by_topic` while it is being collected: the finished groups under their names. */
  ghost predicate Named(tb: Tables, facts: seq<FactSummary>, groups: map<string, Group>, done: set<string>,
                        byTopic: map<string, seq<FactSummary>>)
  {
    && done <= groups.Keys
    && (forall name | name in byTopic ::
          && TopicKey(tb, name) in done
          && Names(tb, facts, TopicKey(tb, name), name)
          && byTopic[name] == OnceById(groups[TopicKey(tb, name)].members))
    && (forall key | key in done :: exists name :: name in byTopic && TopicKey(tb, name) == key)
  }

  lemma AddNamed(tb: Tables, facts: seq<FactSummary>, groups: map<string, Group>, done: set<string>,
                 byTopic: map<string, seq<FactSummary>>, key: string, name: string)
    requires Named(tb, facts, groups, done, byTopic) && key in groups && key !in done && Names(tb, facts, key, name)
    ensures Named(tb, facts, groups, done + {key}, byTopic[name := OnceById(groups[key].members)])
  {
    var byTopic' := byTopic[name := OnceById(groups[key].members)];
    forall k | k in done + {key} ensures exists n :: n in byTopic' && TopicKey(tb, n) == k {
      if k == key {
        assert name in byTopic' && TopicKey(tb, name) == k;
      } else {
        var n :| n in byTopic && TopicKey(tb, n) == k;
        assert n in byTopic';
      }
    }
  }

  method NameGroups(tb: Tables, facts: seq<FactSummary>, groups: map<string, Group>)
    returns (byTopic: map<string, seq<FactSummary>>)
    requires Grouped(tb, Mentions(facts), groups)
    ensures Named(tb, facts, groups, groups.Keys, byTopic)
  {
    byTopic := map[];
    var todo := groups.Keys;
    while todo != {}
      invariant todo <= groups.Keys && Named(tb, facts, groups, groups.Keys - todo, byTopic)
      decreases todo
    {
      var key :| key in todo;
      GroupExists(tb, facts, key);
      var name := PickName(groups[key].surfaces);
      PickedNames(tb, facts, key, name);
      AddNamed(tb, facts, groups, groups.Keys - todo, byTopic, key, name);
      assert groups.Keys - (todo - {key}) == (groups.Keys - todo) + {key};
      byTopic := byTopic[name := OnceById(groups[key].members)];
      todo := todo - {key};
    }
    assert groups.Keys - todo == groups.Keys;
  }

  /** What a scan of these members tells. */
  ghost predicate Scanned(seenAt: SeenMap, members: seq<FactSummary>, concerns: nat, first: Option<Time>,
                          last: Option<Time>) {
    concerns == Concerns(members) && IsFirstSeen(seenAt, members, first) && IsLastSeen(seenAt, members, last)
  }

  lemma ScannedMore(seenAt: SeenMap, members: seq<FactSummary>, i: nat, concerns: nat, first: Option<Time>,
                    last: Option<Time>)
    requires i < |members| && Scanned(seenAt, members[..i], concerns, first, last)
    ensures var t := Seen(seenAt, members[i]);
      Scanned(seenAt, members[..i+1], concerns + (if members[i].kind == Concern then 1 else 0),
              if t.Some? && (first.None? || t.value < first.value) then t else first,
              if t.Some? && (last.None? || t.value > last.value) then t else last)
  {
    assert members[..i+1][..i] == members[..i] && members[..i+1] == members[..i] + [members[i]];
    OneMoreSeen(seenAt, members[..i], members[i], first, last);
  }

  method ScanMembers(members: seq<FactSummary>, seenAt: SeenMap)
    returns (concerns: nat, first: Option<Time>, last: Option<Time>)
    ensures Scanned(seenAt, members, concerns, first, last)
  {
    concerns, first, last := 0, None, None;
    for i := 0 to |members|
      invariant Scanned(seenAt, members[..i], concerns, first, last)
    {
      ScannedMore(seenAt, members, i, concerns, first, last);
      var f := members[i];
      if f.kind == Concern { concerns := concerns + 1; }
      var t := Seen(seenAt, f);
      if t.Some? && (first.None? || t.value < first.value) { first := t; }
      if t.Some? && (last.None? || t.value > last.value) { last := t; }
    }
    assert members[..|members|] == members;
  }

  lemma SortedOnPage(seenAt: SeenMap, members: seq<FactSummary>)
    requires SortedBy(members, ById)
    ensures SortedBy(Sort(members, NewestFirst(seenAt)), PageOrder(seenAt))
  {
    var facts := Sort(members, NewestFirst(seenAt));
    NewestFirstIsTotal(seenAt);
    SortIsStable(members, NewestFirst(seenAt), ById);
    forall i, j | 0 <= i < j < |facts| ensures OnPage(seenAt, facts[i], facts[j]) {
      assert Then(NewestFirst(seenAt), ById, facts[i], facts[j]);
    }
  }

  method MakePage(topic: string, members: seq<FactSummary>, seenAt: SeenMap) returns (p: TopicPage)
    requires SortedBy(members, ById)
    ensures p.topic == topic && multiset(p.facts) == multiset(members)
    ensures SortedBy(p.facts, PageOrder(seenAt))
    ensures p.mentions == |p.facts| && p.concerns == Concerns(members)
    ensures IsFirstSeen(seenAt, members, p.firstSeen) && IsLastSeen(seenAt, members, p.lastSeen)
  {
    var concerns, first, last := ScanMembers(members, seenAt);
    var facts := Sort(members, NewestFirst(seenAt));
    SortPermutes(members, NewestFirst(seenAt));
    SortedOnPage(seenAt, members);
    p := TopicPage(topic, |members|, concerns, first, last, facts);
  }

  lemma OneMoreSeen(seenAt: SeenMap, facts: seq<FactSummary>, f: FactSummary, first: Option<Time>, last: Option<Time>)
    requires IsFirstSeen(seenAt, facts, first) && IsLastSeen(seenAt, facts, last)
    ensures var t := Seen(seenAt, f);
      && IsFirstSeen(seenAt, facts + [f], if t.Some? && (first.None? || t.value < first.value) then t else first)
      && IsLastSeen(seenAt, facts + [f], if t.Some? && (last.None? || t.value > last.value) then t else last)
  {
    var more := facts + [f];
    assert more[|facts|] == f;
    if first.Some? {
      var g :| g in facts && Seen(seenAt, g) == first;
      assert g in more;
    }
    if facts != [] {
      var g :| g in facts && Seen(seenAt, g) == last;
      assert g in more;
    }
  }

  lemma {:induction false} ConcernsConcat(a: seq<FactSummary>, b: seq<FactSummary>)
    ensures Concerns(a + b) == Concerns(a) + Concerns(b)
  {
    if b == [] {
      assert a + b == a;
    } else {
      ConcernsConcat(a, b[..|b|-1]);
      assert (a + b)[..|a+b|-1] == a + b[..|b|-1];
    }
  }

  lemma {:induction false} ConcernsPermute(a: seq<FactSummary>, b: seq<FactSummary>)
    requires multiset(a) == multiset(b)
    ensures Concerns(a) == Concerns(b)
    decreases |a|
  {
    SamePermutation(a, b);
    if a != [] {
      var i := TakeOut(a, b);
      ConcernsPermute(a[..|a|-1], b[..i] + b[i+1..]);
      ConcernsConcat(b[..i], b[i+1..]);
      assert b == b[..i+1] + b[i+1..] && b[..i+1][..i] == b[..i];
      ConcernsConcat(b[..i+1], b[i+1..]);
    }
  }

  /** A named group holds exactly the facts on its subject, once each, by id. */
  ghost predicate Titled(tb: Tables, facts: seq<FactSummary>, name: string, members: seq<FactSummary>) {
    var key := TopicKey(tb, name);
    && IsKey(tb, facts, key) && Names(tb, facts, key, name)
    && NoDup(members) && SortedBy(members, ById)
    && forall f :: f in members <==> IsMember(tb, facts, key, f)
  }

  lemma NamedAreTitled(tb: Tables, facts: seq<FactSummary>, groups: map<string, Group>,
                       byTopic: map<string, seq<FactSummary>>)
    requires IdsAgree(facts) && Grouped(tb, Mentions(facts), groups) && Named(tb, facts, groups, groups.Keys, byTopic)
    ensures forall name | name in byTopic :: Titled(tb, facts, name, byTopic[name])
  {
    forall name | name in byTopic ensures Titled(tb, facts, name, byTopic[name]) {
      MembersOf(tb, facts, groups, TopicKey(tb, name));
    }
  }

  lemma PageMade(tb: Tables, facts: seq<FactSummary>, seenAt: SeenMap, members: seq<FactSummary>, p: TopicPage)
    requires Titled(tb, facts, p.topic, members) && multiset(p.facts) == multiset(members)
    requires SortedBy(p.facts, PageOrder(seenAt)) && p.mentions == |p.facts| && p.concerns == Concerns(members)
    requires IsFirstSeen(seenAt, members, p.firstSeen) && IsLastSeen(seenAt, members, p.lastSeen)
    ensures IsPage(tb, facts, seenAt, TopicKey(tb, p.topic), p)
  {
    SamePermutation(p.facts, members);
    PermutationKeepsNoDup(members, p.facts);
    ConcernsPermute(members, p.facts);
    SeenPermute(seenAt, members, p.facts, p.firstSeen, p.lastSeen);
  }

  lemma MembersOf(tb: Tables, facts: seq<FactSummary>, groups: map<string, Group>, key: string)
    requires IdsAgree(facts) && Grouped(tb, Mentions(facts), groups) && key in groups
    ensures var once := OnceById(groups[key].members);
      NoDup(once) && SortedBy(once, ById) && forall f :: f in once <==> IsMember(tb, facts, key, f)
    ensures IsKey(tb, facts, key)
  {
    GroupOfFacts(tb, facts, key);
    GroupExists(tb, facts, key);
    OnceByIdMeans(groups[key].members, facts);
  }

  lemma SeenPermute(seenAt: SeenMap, a: seq<FactSummary>, b: seq<FactSummary>, first: Option<Time>, last: Option<Time>)
    requires multiset(a) == multiset(b) && IsFirstSeen(seenAt, a, first) && IsLastSeen(seenAt, a, last)
    ensures IsFirstSeen(seenAt, b, first) && IsLastSeen(seenAt, b, last)
  {
    SamePermutation(a, b);
  }

  ghost predicate TopicsAreThose(pages: seq<TopicPage>, names: set<string>) {
    && (forall p | p in pages :: p.topic in names)
    && (forall n | n in names :: exists p :: p in pages && p.topic == n)
    && (forall i, j | 0 <= i < j < |pages| :: pages[i].topic != pages[j].topic)
  }

  lemma OneMorePage(pages: seq<TopicPage>, names: set<string>, p: TopicPage)
    requires TopicsAreThose(pages, names) && p.topic !in names
    ensures TopicsAreThose(pages + [p], names + {p.topic})
  {
    var more := pages + [p];
    assert more[|pages|] == p;
    forall n | n in names + {p.topic} ensures exists q :: q in more && q.topic == n {
      if n in names {
        var q :| q in pages && q.topic == n;
        assert q in more;
      } else {
        assert p in more;
      }
    }
    forall i | 0 <= i < |pages| ensures pages[i].topic != p.topic {
      assert pages[i] in pages;
    }
  }

  lemma PagesCover(tb: Tables, facts: seq<FactSummary>, groups: map<string, Group>,
                   byTopic: map<string, seq<FactSummary>>, pages: seq<TopicPage>, key: string)
    requires Grouped(tb, Mentions(facts), groups) && Named(tb, facts, groups, groups.Keys, byTopic)
    requires TopicsAreThose(pages, byTopic.Keys) && IsKey(tb, facts, key)
    ensures exists p :: p in pages && TopicKey(tb, p.topic) == key
  {
    GroupExists(tb, facts, key);
    var name :| name in byTopic && TopicKey(tb, name) == key;
    var p :| p in pages && p.topic == name;
  }

  lemma PagesDiffer(tb: Tables, facts: seq<FactSummary>, seenAt: SeenMap, names: set<string>, pages: seq<TopicPage>,
                    p: TopicPage, q: TopicPage)
    requires AllPages(tb, facts, seenAt, pages) && TopicsAreThose(pages, names)
    requires p in pages && q in pages && p != q
    ensures TopicKey(tb, p.topic) != TopicKey(tb, q.topic)
  {
    var k :| 0 <= k < |pages| && pages[k] == p;
    var l :| 0 <= l < |pages| && pages[l] == q;
    assert p.topic != q.topic;
    if TopicKey(tb, p.topic) == TopicKey(tb, q.topic) {
      NameIsUnique(tb, facts, TopicKey(tb, p.topic), p.topic, q.topic);
    }
  }

  lemma PagesRanked(tb: Tables, facts: seq<FactSummary>, seenAt: SeenMap, groups: map<string, Group>,
                    byTopic: map<string, seq<FactSummary>>, pages: seq<TopicPage>)
    requires Grouped(tb, Mentions(facts), groups) && Named(tb, facts, groups, groups.Keys, byTopic)
    requires AllPages(tb, facts, seenAt, pages) && TopicsAreThose(pages, byTopic.Keys)
    ensures ArePages(tb, facts, seenAt, Sort(pages, Ranked))
  {
    var sorted := Sort(pages, Ranked);
    SortPermutes(pages, Ranked);
    assert AllPages(tb, facts, seenAt, sorted);
    assert SortedBy(sorted, Ranked) by {
      RankedIsTotal();
      SortSorts(pages, Ranked);
    }
    forall key | IsKey(tb, facts, key) ensures exists p :: p in sorted && TopicKey(tb, p.topic) == key {
      PagesCover(tb, facts, groups, byTopic, pages, key);
    }
    assert NoDup(pages);
    PermutationKeepsNoDup(pages, sorted);
    forall i, j | 0 <= i < j < |sorted| ensures TopicKey(tb, sorted[i].topic) != TopicKey(tb, sorted[j].topic) {
      PagesDiffer(tb, facts, seenAt, byTopic.Keys, pages, sorted[i], sorted[j]);
    }
  }

  /** The pages made so far are those of the named groups. */
  ghost predicate Assembled(tb: Tables, facts: seq<FactSummary>, seenAt: SeenMap, pages: seq<TopicPage>,
                            names: set<string>) {
    AllPages(tb, facts, seenAt, pages) && TopicsAreThose(pages, names)
  }

  lemma AddPage(tb: Tables, facts: seq<FactSummary>, seenAt: SeenMap, pages: seq<TopicPage>, names: set<string>,
                p: TopicPage)
    requires Assembled(tb, facts, seenAt, pages, names) && AllPages(tb, facts, seenAt, [p]) && p.topic !in names
    ensures Assembled(tb, facts, seenAt, pages + [p], names + {p.topic})
  {
    OneMorePage(pages, names, p);
    assert p in [p];
  }

  method PageOf(tb: Tables, ghost facts: seq<FactSummary>, seenAt: SeenMap, name: string, members: seq<FactSummary>)
    returns (p: TopicPage)
    requires Titled(tb, facts, name, members)
    ensures p.topic == name && AllPages(tb, facts, seenAt, [p])
  {
    p := MakePage(name, members, seenAt);
    PageMade(tb, facts, seenAt, members, p);
  }

  /** Every group has its members under its name. */
  ghost predicate AllTitled(tb: Tables, facts: seq<FactSummary>, byTopic: map<string, seq<FactSummary>>) {
    forall name | name in byTopic :: Titled(tb, facts, name, byTopic[name])
  }

  lemma OneFewer(all: set<string>, todo: set<string>, name: string)
    requires name in todo && todo <= all
    ensures all - (todo - {name}) == all - todo + {name}
  {}

  method AssemblePages(tb: Tables, ghost facts: seq<FactSummary>, seenAt: SeenMap,
                       byTopic: map<string, seq<FactSummary>>)
    returns (pages: seq<TopicPage>)
    requires AllTitled(tb, facts, byTopic)
    ensures Assembled(tb, facts, seenAt, pages, byTopic.Keys)
  {
    var todo := byTopic.Keys;
    pages := [];
    assert byTopic.Keys - todo == {};
    while todo != {}
      invariant todo <= byTopic.Keys && Assembled(tb, facts, seenAt, pages, byTopic.Keys - todo)
      decreases todo
    {
      var name :| name in todo;
      var p := PageOf(tb, facts, seenAt, name, byTopic[name]);
      AddPage(tb, facts, seenAt, pages, byTopic.Keys - todo, p);
      OneFewer(byTopic.Keys, todo, name);
      pages, todo := pages + [p], todo - {name};
    }
    assert byTopic.Keys - {} == byTopic.Keys;
  }

  /** One page for every group of facts, ranked. */
  method MakeTopicPages(tb: Tables, facts: seq<FactSummary>, seenAt: SeenMap) returns (pages: seq<TopicPage>)
    requires IdsAgree(facts)
    ensures ArePages(tb, facts, seenAt, pages)
  {
    var groups := CollectGroups(tb, facts);
    var byTopic := NameGroups(tb, facts, groups);
    NamedAreTitled(tb, facts, groups, byTopic);
    pages := AssemblePages(tb, facts, seenAt, byTopic);
    PagesRanked(tb, facts, seenAt, groups, byTopic, pages);
    pages := Sort(pages, Ranked);
  }

  // ---- what readers rely on ---------------------------------------------------------------------

  /** Each fact is on exactly the pages of its own non-empty topic keys, once on each. */
  lemma FactOnItsPages(tb: Tables, facts: seq<FactSummary>, seenAt: SeenMap, pages: seq<TopicPage>, f: FactSummary,
                       p: TopicPage)
    requires ArePages(tb, facts, seenAt, pages) && f in facts && p in pages
    ensures f in p.facts <==> HasKey(tb, f, TopicKey(tb, p.topic))
    ensures multiset(p.facts)[f] == if HasKey(tb, f, TopicKey(tb, p.topic)) then 1 else 0
    ensures TopicKey(tb, p.topic) != []
  {
    NoDupMultiset(p.facts);
  }

  /** No subject is lost: every non-empty key of a fact has its page. */
  lemma EverySubjectHasItsPage(tb: Tables, facts: seq<FactSummary>, seenAt: SeenMap, pages: seq<TopicPage>,
                               f: FactSummary, i: nat)
    requires ArePages(tb, facts, seenAt, pages) && f in facts && i < |f.topics| && TopicKey(tb, f.topics[i]) != []
    ensures exists p :: p in pages && TopicKey(tb, p.topic) == TopicKey(tb, f.topics[i]) && f in p.facts
  {
    var key := TopicKey(tb, f.topics[i]);
    assert HasKey(tb, f, key);
    assert IsKey(tb, facts, key);
    var p :| p in pages && TopicKey(tb, p.topic) == key;
    assert IsMember(tb, facts, key, f);
  }
}
