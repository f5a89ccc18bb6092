/** `KnowledgeSharing` of `sharing/knowledge.rs`: every read narrowed by the one access
    predicate of `sharing/mod.rs`. */
module KnowledgeSharing {
  import opened Wrappers
  import opened Ordering
  import opened KnowledgeTypes
  import opened Tokenizer
  import opened SearchIndex

  datatype Token = Token(id: string, granted: set<Category>, owner: bool)

  datatype AccessError = NotFound | Unauthorized | Locked | Unavailable | InvalidInput

  datatype AppError = AppLocked | AppNotFound | AppInvalidInput | AppCrypto | AppIo | AppExternal | AppSerde

  function ToAccessError(e: AppError): AccessError {
    match e
    case AppLocked => Locked
    case AppNotFound => NotFound
    case AppInvalidInput => InvalidInput
    case AppCrypto | AppIo | AppExternal | AppSerde => Unavailable
  }

  // ---- the access rule ----------------------------------------------------------------

  /** Readable by the owner, or shared under a granted category. */
  predicate CanAccess(token: Token, visibility: Visibility, category: Option<Category>) {
    token.owner || (visibility == Shared && category.Some? && category.value in token.granted)
  }

  predicate Reads(token: Token, f: Fact) {
    CanAccess(token, f.meta.visibility, f.meta.category)
  }

  predicate Grants(token: Token, category: Category) {
    token.owner || category in token.granted
  }

  /** All a token can see of a store. */
  ghost function View(docs: map<FactId, Fact>, token: Token): map<FactId, Fact> {
    map id | id in docs && Reads(token, docs[id]) :: docs[id]
  }

  // ---- the knowledge service, as one tool call sees it ------------------------------------

  /** What the service answers during one call. */
  datatype Knowledge = Knowledge(
    allFacts: Result<seq<Fact>, AppError>,
    search: string -> Result<seq<FactSummary>, AppError>,
    get: FactId -> Result<Fact, AppError>)

  ghost predicate IsAllFacts(docs: map<FactId, Fact>, facts: seq<Fact>) {
    && (forall i, j | 0 <= i < j < |facts| :: facts[i].id != facts[j].id)
    && (forall f | f in facts :: f.id in docs && docs[f.id] == f)
    && (forall id | id in docs :: docs[id] in facts)
  }

  /** Whatever answers there are, are about this store; any call may fail instead. */
  ghost predicate Serves(tb: Tables, docs: map<FactId, Fact>, k: Knowledge) {
    && Filed(docs)
    && (if k.allFacts.Ok? then IsAllFacts(docs, k.allFacts.value) else !k.allFacts.error.AppNotFound?)
    && (forall q | k.search(q).Ok? :: IsResult(docs, Found(tb, docs, q, None), k.search(q).value))
    && ServesPages(docs, k.get)
  }

  ghost predicate ServesPages(docs: map<FactId, Fact>, get: FactId -> Result<Fact, AppError>) {
    forall id ::
      && (get(id).Ok? ==> id in docs && docs[id] == get(id).value)
      && (get(id).Err? && get(id).error.AppNotFound? ==> id !in docs)
  }

  /** No call fails. */
  ghost predicate Healthy(k: Knowledge) {
    && k.allFacts.Ok? && (forall q :: k.search(q).Ok?)
    && (forall id :: k.get(id).Ok? || k.get(id).error.AppNotFound?)
  }

  // ---- ranked lists ---------------------------------------------------------------------------

  predicate SummaryLe(a: FactSummary, b: FactSummary) {
    StrLe(a.title, b.title) && (a.title == b.title ==> a.id <= b.id)
  }

  predicate FactLe(a: Fact, b: Fact) {
    StrLe(a.title, b.title) && (a.title == b.title ==> a.id <= b.id)
  }

  lemma ListingOrders()
    ensures TotalPreorder(SummaryLe) && TotalPreorder(FactLe)
  {
    StrLeTotalOrder();
  }

  /** The facts of `v`, each once, by title and then id. */
  ghost predicate IsRanked(v: map<FactId, Fact>, all: seq<Fact>) {
    && SortedBy(all, FactLe) && NoDup(all)
    && forall f :: f in all <==> f.id in v && v[f.id] == f
  }

  lemma RankedIsUnique(v: map<FactId, Fact>, a: seq<Fact>, b: seq<Fact>)
    requires IsRanked(v, a) && IsRanked(v, b)
    ensures a == b
  {
    NoDupPermutation(a, b);
    ListingOrders();
    forall x, y | x in a && y in a && FactLe(x, y) && FactLe(y, x) ensures x == y {
      StrLeAntisym(x.title, y.title);
    }
    SortedUnique(a, b, FactLe);
  }

  /** The facts of `v` a query matches. */
  ghost function Hits(tb: Tables, v: map<FactId, Fact>, query: string): map<FactId, Fact> {
    map id | id in v && Matches(tb, v[id], query) :: v[id]
  }

  /** The facts of `v` filed under a category. */
  ghost function InCategory(v: map<FactId, Fact>, c: Category): map<FactId, Fact> {
    map id | id in v && v[id].meta.category == Some(c) :: v[id]
  }

  // ---- search ------------------------------------------------------------------------------------

  ghost function Visible(docs: map<FactId, Fact>, token: Token, hits: seq<FactSummary>): seq<Fact> {
    if hits == [] then []
    else
      var h := hits[|hits|-1];
      Visible(docs, token, hits[..|hits|-1]) + if h.id in docs && Reads(token, docs[h.id]) then [docs[h.id]] else []
  }

  lemma {:induction false} VisiblePrefix(docs: map<FactId, Fact>, token: Token, hits: seq<FactSummary>, n: nat)
    requires n <= |hits|
    ensures Visible(docs, token, hits[..n]) <= Visible(docs, token, hits)
  {
    if n < |hits| {
      var init := hits[..|hits|-1];
      VisiblePrefix(docs, token, init, n);
      assert init[..n] == hits[..n];
    } else {
      assert hits[..n] == hits;
    }
  }

  /** Every summary speaks of a stored fact. */
  ghost predicate Faithful(docs: map<FactId, Fact>, hits: seq<FactSummary>) {
    forall h | h in hits :: h.id in docs && h == Summarize(docs[h.id])
  }

  lemma {:induction false} VisibleMeans(docs: map<FactId, Fact>, token: Token, hits: seq<FactSummary>, f: Fact)
    requires Filed(docs)
    ensures f in Visible(docs, token, hits)
      <==> f.id in docs && docs[f.id] == f && Reads(token, f) && exists h :: h in hits && h.id == f.id
  {
    if hits != [] {
      VisibleMeans(docs, token, hits[..|hits|-1], f);
      assert hits == hits[..|hits|-1] + [hits[|hits|-1]];
    }
  }

  lemma {:induction false} VisibleSorted(docs: map<FactId, Fact>, token: Token, hits: seq<FactSummary>)
    requires Filed(docs) && Faithful(docs, hits) && SortedBy(hits, SummaryLe)
    requires forall i, j | 0 <= i < j < |hits| :: hits[i].id != hits[j].id
    ensures SortedBy(Visible(docs, token, hits), FactLe) && NoDup(Visible(docs, token, hits))
  {
    if hits != [] {
      var n := |hits| - 1;
      var init, last := hits[..n], hits[n];
      assert Faithful(docs, init) by {
        forall h | h in init ensures h in hits { }
      }
      VisibleSorted(docs, token, init);
      assert last in hits;
      forall f | f in Visible(docs, token, init) ensures FactLe(f, docs[last.id]) && f != docs[last.id] {
        VisibleMeans(docs, token, init, f);
        var h :| h in init && h.id == f.id;
        var i :| 0 <= i < n && init[i] == h;
        assert SummaryLe(hits[i], hits[n]) && hits[i] in hits;
      }
    }
  }

  /** The sorted hits a token can read are the ranked matches within its view. */
  lemma VisibleIsRanked(tb: Tables, docs: map<FactId, Fact>, token: Token, query: string, found: seq<FactSummary>)
    requires Filed(docs) && IsResult(docs, Found(tb, docs, query, None), found)
    ensures IsRanked(Hits(tb, View(docs, token), query), Visible(docs, token, Sort(found, SummaryLe)))
  {
    var hits := Sort(found, SummaryLe);
    SortPermutes(found, SummaryLe);
    ListingOrders();
    SortSorts(found, SummaryLe);
    SortedFaithful(docs, Found(tb, docs, query, None), found, hits);
    VisibleSorted(docs, token, hits);
    forall f ensures f in Visible(docs, token, hits)
        <==> f.id in Hits(tb, View(docs, token), query) && Hits(tb, View(docs, token), query)[f.id] == f {
      VisibleMeans(docs, token, hits, f);
      ListedIffFound(tb, docs, query, found, hits, f.id);
    }
  }

  lemma SortedFaithful(docs: map<FactId, Fact>, ids: set<FactId>, found: seq<FactSummary>, hits: seq<FactSummary>)
    requires IsResult(docs, ids, found) && multiset(hits) == multiset(found)
    ensures Faithful(docs, hits) && forall i, j | 0 <= i < j < |hits| :: hits[i].id != hits[j].id
  {
    SamePermutation(hits, found);
    forall h | h in hits ensures h.id in docs && h == Summarize(docs[h.id]) {
      var i :| 0 <= i < |found| && found[i] == h;
    }
    assert NoDup(found);
    PermutationKeepsNoDup(found, hits);
    forall i, j | 0 <= i < j < |hits| ensures hits[i].id != hits[j].id {
      assert hits[i] in hits && hits[j] in hits && hits[i] != hits[j];
    }
  }

  lemma ListedIffFound(tb: Tables, docs: map<FactId, Fact>, query: string, found: seq<FactSummary>,
                       hits: seq<FactSummary>, id: FactId)
    requires IsResult(docs, Found(tb, docs, query, None), found) && forall h :: h in hits <==> h in found
    ensures (exists h :: h in hits && h.id == id) <==> id in docs && Matches(tb, docs[id], query)
  {
    if h :| h in hits && h.id == id {
      var i :| 0 <= i < |found| && found[i] == h;
      assert found[i].id in Found(tb, docs, query, None);
    }
    if id in docs && Matches(tb, docs[id], query) {
      assert id in Found(tb, docs, query, None);
      var i :| 0 <= i < |found| && found[i].id == id;
      assert found[i] in hits;
    }
  }

  /** The first `limit` matches within a view, by title and then id. */
  ghost predicate IsSearchPage(tb: Tables, v: map<FactId, Fact>, query: string, limit: nat, out: seq<Fact>) {
    exists all :: IsRanked(Hits(tb, v, query), all) && out == Truncate(all, limit)
  }

  function Prepend(out: seq<Fact>, r: Result<seq<Fact>, AccessError>): Result<seq<Fact>, AccessError> {
    if r.Ok? then Ok(out + r.value) else r
  }

  /** What loading the hits one by one comes to, failures included. */
  ghost function Taken(get: FactId -> Result<Fact, AppError>, token: Token, hits: seq<FactSummary>, limit: nat)
    : Result<seq<Fact>, AccessError>
    decreases |hits|
  {
    if hits == [] || limit == 0 then Ok([])
    else
      match get(hits[0].id)
      case Ok(f) =>
        if Reads(token, f) then Prepend([f], Taken(get, token, hits[1..], limit - 1))
        else Taken(get, token, hits[1..], limit)
      case Err(e) =>
        if e.AppNotFound? then Taken(get, token, hits[1..], limit) else Err(ToAccessError(e))
  }

  lemma PrependNone(r: Result<seq<Fact>, AccessError>)
    ensures Prepend([], r) == r
  {
    if r.Ok? { assert [] + r.value == r.value; }
  }

  lemma PrependTwice(out: seq<Fact>, f: Fact, r: Result<seq<Fact>, AccessError>)
    ensures Prepend(out + [f], r) == Prepend(out, Prepend([f], r))
  {
    if r.Ok? { assert (out + [f]) + r.value == out + ([f] + r.value); }
  }

  /** What the first `i` hits have come to, and the rest is still to come. */
  ghost predicate TakenSoFar(get: FactId -> Result<Fact, AppError>, token: Token, hits: seq<FactSummary>, limit: nat,
                             i: nat, out: seq<Fact>) {
    && i <= |hits| && |out| <= limit
    && Prepend(out, Taken(get, token, hits[i..], limit - |out|)) == Taken(get, token, hits, limit)
  }

  lemma TakenNext(get: FactId -> Result<Fact, AppError>, token: Token, hits: seq<FactSummary>, limit: nat, i: nat,
                  out: seq<Fact>)
    requires TakenSoFar(get, token, hits, limit, i, out) && i < |hits| && |out| < limit
    ensures match get(hits[i].id)
      case Ok(f) => TakenSoFar(get, token, hits, limit, i + 1, if Reads(token, f) then out + [f] else out)
      case Err(e) =>
        if e.AppNotFound? then TakenSoFar(get, token, hits, limit, i + 1, out)
        else Taken(get, token, hits, limit) == Err(ToAccessError(e))
  {
    assert hits[i..][1..] == hits[i+1..];
    var got := get(hits[i].id);
    if got.Ok? { PrependTwice(out, got.value, Taken(get, token, hits[i+1..], limit - |out| - 1)); }
  }

  /** Load the hits one by one, skipping what the token cannot read or what is gone, until
      the page is full. */
  method TakeVisible(ghost docs: map<FactId, Fact>, get: FactId -> Result<Fact, AppError>, token: Token,
                     hits: seq<FactSummary>, limit: nat)
    returns (r: Result<seq<Fact>, AccessError>)
    requires ServesPages(docs, get)
    ensures r == Taken(get, token, hits, limit)
    ensures r.Ok? ==> r.value == Truncate(Visible(docs, token, hits), limit)
    ensures (forall id :: get(id).Ok? || get(id).error.AppNotFound?) ==> r.Ok?
  {
    var out: seq<Fact> := [];
    var i: nat := 0;
    assert hits[0..] == hits;
    PrependNone(Taken(get, token, hits, limit));
    while i < |hits| && |out| < limit
      invariant TakenSoFar(get, token, hits, limit, i, out) && out == Visible(docs, token, hits[..i])
    {
      assert hits[..i+1][..i] == hits[..i];
      TakenNext(get, token, hits, limit, i, out);
      var got := get(hits[i].id);
      if got.Ok? {
        if Reads(token, got.value) { out := out + [got.value]; }
      } else if !got.error.AppNotFound? {
        return Err(ToAccessError(got.error));
      }
      i := i + 1;
    }
    VisiblePrefix(docs, token, hits, i);
    assert i == |hits| ==> hits[..i] == hits;
    assert out + [] == out;
    r := Ok(out);
  }

  /** What a search comes to, failures included. */
  ghost function SearchRun(k: Knowledge, token: Token, query: string, limit: nat): Result<seq<Fact>, AccessError> {
    match k.search(query)
    case Err(e) => Err(ToAccessError(e))
    case Ok(found) => Taken(k.get, token, Sort(found, SummaryLe), limit)
  }

  /** `search_visible` */
  method SearchVisible(tb: Tables, ghost docs: map<FactId, Fact>, k: Knowledge, token: Token, query: string, limit: nat)
    returns (r: Result<seq<Fact>, AccessError>)
    requires Serves(tb, docs, k)
    ensures r == SearchRun(k, token, query, limit)
    ensures r.Ok? ==> IsSearchPage(tb, View(docs, token), query, limit, r.value)
    ensures Healthy(k) ==> r.Ok?
  {
    var found := k.search(query);
    if found.Err? { return Err(ToAccessError(found.error)); }
    var hits := Sort(found.value, SummaryLe);
    VisibleIsRanked(tb, docs, token, query, found.value);
    r := TakeVisible(docs, k.get, token, hits, limit);
  }

  // ---- failing calls ---------------------------------------------------------------------------------

  predicate EndAlike<T>(a: Result<T, AppError>, b: Result<T, AppError>) {
    (a.Ok? && b.Ok?) || (a.Err? && b.Err? && a.error == b.error)
  }

  /** Two services whose reads of the facts of `v` end the same, and whose other calls succeed
      or fail together. */
  ghost predicate AgreeInside(v: map<FactId, Fact>, k1: Knowledge, k2: Knowledge) {
    && (forall id | id in v :: k1.get(id) == k2.get(id))
    && EndAlike(k1.allFacts, k2.allFacts) && forall q :: EndAlike(k1.search(q), k2.search(q))
  }

  /** A read of a fact outside `v` fails. */
  ghost predicate FailsOutside(v: map<FactId, Fact>, k: Knowledge) {
    exists id :: id !in v && k.get(id).Err? && !k.get(id).error.AppNotFound?
  }

  /** The hits a token can read. */
  ghost function Inside(v: map<FactId, Fact>, hits: seq<FactSummary>): seq<FactSummary> {
    if hits == [] then [] else (if hits[0].id in v then [hits[0]] else []) + Inside(v, hits[1..])
  }

  /** Reads of the other hits leave no trace unless they fail. */
  lemma {:induction false} OnlyInsideCounts(docs: map<FactId, Fact>, k: Knowledge, token: Token,
                                            hits: seq<FactSummary>, limit: nat)
    requires ServesPages(docs, k.get) && !FailsOutside(View(docs, token), k)
    ensures Taken(k.get, token, hits, limit) == Taken(k.get, token, Inside(View(docs, token), hits), limit)
    decreases |hits|
  {
    if hits != [] && limit > 0 {
      var v, rest := View(docs, token), Inside(View(docs, token), hits[1..]);
      OnlyInsideCounts(docs, k, token, hits[1..], limit);
      OnlyInsideCounts(docs, k, token, hits[1..], limit - 1);
      assert hits[0].id !in v ==> k.get(hits[0].id).Ok? || k.get(hits[0].id).error.AppNotFound?;
      assert ([hits[0]] + rest)[1..] == rest && [] + rest == rest;
    }
  }

  lemma {:induction false} InsideMeans(v: map<FactId, Fact>, hits: seq<FactSummary>)
    ensures forall h :: h in Inside(v, hits) <==> h in hits && h.id in v
  {
    if hits != [] { InsideMeans(v, hits[1..]); }
  }

  lemma {:induction false} InsideSorted(v: map<FactId, Fact>, hits: seq<FactSummary>)
    requires SortedBy(hits, SummaryLe) && NoDup(hits)
    ensures SortedBy(Inside(v, hits), SummaryLe) && NoDup(Inside(v, hits))
  {
    if hits != [] {
      InsideSorted(v, hits[1..]);
      InsideMeans(v, hits[1..]);
      var rest := Inside(v, hits[1..]);
      forall h | h in rest ensures SummaryLe(hits[0], h) && hits[0] != h {
        var i :| 0 <= i < |hits[1..]| && hits[1..][i] == h;
        assert hits[i+1] == h;
      }
    }
  }

  lemma {:induction false} TakenAlike(v: map<FactId, Fact>, k1: Knowledge, k2: Knowledge, token: Token,
                                      hits: seq<FactSummary>, limit: nat)
    requires AgreeInside(v, k1, k2) && forall h | h in hits :: h.id in v
    ensures Taken(k1.get, token, hits, limit) == Taken(k2.get, token, hits, limit)
    decreases |hits|
  {
    if hits != [] && limit > 0 {
      assert hits[0] in hits;
      TakenAlike(v, k1, k2, token, hits[1..], limit);
      TakenAlike(v, k1, k2, token, hits[1..], limit - 1);
    }
  }

  /** The readable hits of a search, sorted, are the same over stores with the same view. */
  lemma InsideIsUnique(tb: Tables, d1: map<FactId, Fact>, d2: map<FactId, Fact>, token: Token, query: string,
                       f1: seq<FactSummary>, f2: seq<FactSummary>)
    requires Filed(d1) && Filed(d2) && View(d1, token) == View(d2, token)
    requires IsResult(d1, Found(tb, d1, query, None), f1) && IsResult(d2, Found(tb, d2, query, None), f2)
    ensures Inside(View(d1, token), Sort(f1, SummaryLe)) == Inside(View(d2, token), Sort(f2, SummaryLe))
  {
    var v := View(d1, token);
    var a, b := Inside(v, Sort(f1, SummaryLe)), Inside(v, Sort(f2, SummaryLe));
    InsideOfResult(tb, d1, token, query, f1);
    InsideOfResult(tb, d2, token, query, f2);
    NoDupPermutation(a, b);
    ListingOrders();
    forall x, y | x in a && y in a && SummaryLe(x, y) && SummaryLe(y, x) ensures x == y {
      StrLeAntisym(x.title, y.title);
    }
    SortedUnique(a, b, SummaryLe);
  }

  lemma InsideOfResult(tb: Tables, docs: map<FactId, Fact>, token: Token, query: string, found: seq<FactSummary>)
    requires Filed(docs) && IsResult(docs, Found(tb, docs, query, None), found)
    ensures var v := View(docs, token); var a := Inside(v, Sort(found, SummaryLe));
      && SortedBy(a, SummaryLe) && NoDup(a)
      && forall h :: h in a <==> h.id in v && h == Summarize(v[h.id]) && Matches(tb, v[h.id], query)
  {
    var v, hits := View(docs, token), Sort(found, SummaryLe);
    SortPermutes(found, SummaryLe);
    ListingOrders();
    SortSorts(found, SummaryLe);
    SortedFaithful(docs, Found(tb, docs, query, None), found, hits);
    assert NoDup(hits);
    InsideSorted(v, hits);
    InsideMeans(v, hits);
    forall h ensures h in Inside(v, hits) <==> h.id in v && h == Summarize(v[h.id]) && Matches(tb, v[h.id], query) {
      ListedIffFound(tb, docs, query, found, hits, h.id);
    }
  }

  /** Over stores with the same view, two searches come to the same unless a read of a fact
      outside the view fails. */
  lemma SearchRunsAlike(tb: Tables, d1: map<FactId, Fact>, d2: map<FactId, Fact>, k1: Knowledge, k2: Knowledge,
                        token: Token, query: string, limit: nat)
    requires Serves(tb, d1, k1) && Serves(tb, d2, k2) && View(d1, token) == View(d2, token)
    requires AgreeInside(View(d1, token), k1, k2)
    requires !FailsOutside(View(d1, token), k1) && !FailsOutside(View(d1, token), k2)
    ensures SearchRun(k1, token, query, limit) == SearchRun(k2, token, query, limit)
  {
    assert EndAlike(k1.search(query), k2.search(query));
    if k1.search(query).Ok? {
      var v := View(d1, token);
      var h1, h2 := Sort(k1.search(query).value, SummaryLe), Sort(k2.search(query).value, SummaryLe);
      OnlyInsideCounts(d1, k1, token, h1, limit);
      OnlyInsideCounts(d2, k2, token, h2, limit);
      InsideIsUnique(tb, d1, d2, token, query, k1.search(query).value, k2.search(query).value);
      InsideMeans(v, h1);
      TakenAlike(v, k1, k2, token, Inside(v, h1), limit);
    }
  }

  // ---- categories ----------------------------------------------------------------------------------

  /** `accessible` */
  function Accessible(token: Token, facts: seq<Fact>): seq<Fact> {
    if facts == [] then []
    else Accessible(token, facts[..|facts|-1]) + if Reads(token, facts[|facts|-1]) then [facts[|facts|-1]] else []
  }

  lemma {:induction false} AccessibleMeans(token: Token, facts: seq<Fact>)
    requires forall i, j | 0 <= i < j < |facts| :: facts[i].id != facts[j].id
    ensures forall f :: f in Accessible(token, facts) <==> f in facts && Reads(token, f)
    ensures forall i, j | 0 <= i < j < |Accessible(token, facts)| ::
      Accessible(token, facts)[i].id != Accessible(token, facts)[j].id
  {
    if facts != [] {
      var n := |facts| - 1;
      AccessibleMeans(token, facts[..n]);
      assert facts == facts[..n] + [facts[n]];
      forall f | f in facts[..n] ensures f.id != facts[n].id {
        var i :| 0 <= i < n && facts[..n][i] == f;
      }
    }
  }

  lemma AccessibleIsView(docs: map<FactId, Fact>, token: Token, facts: seq<Fact>)
    requires Filed(docs) && IsAllFacts(docs, facts)
    ensures IsAllFacts(View(docs, token), Accessible(token, facts))
  {
    AccessibleMeans(token, facts);
  }

  ghost predicate NamesIncrease<T>(out: seq<(string, T)>) {
    forall i, j | 0 <= i < j < |out| :: StrLe(out[i].0, out[j].0) && out[i].0 != out[j].0
  }

  /** Every category with a page in the view, with the number of its pages, by name. */
  ghost predicate IsCategoryCounts(v: map<FactId, Fact>, out: seq<(string, nat)>) {
    && NamesIncrease(out)
    && (forall e | e in out :: e.1 == |InCategory(v, e.0)| && e.1 > 0)
    && (forall c | InCategory(v, c) != map[] :: exists e :: e in out && e.0 == c)
  }

  function Bumped(counts: map<string, nat>, c: Option<Category>): map<string, nat> {
    if c.None? then counts else counts[c.value := (if c.value in counts then counts[c.value] else 0) + 1]
  }

  function CountOf(facts: seq<Fact>, c: Category): nat {
    if facts == [] then 0
    else CountOf(facts[..|facts|-1], c) + if facts[|facts|-1].meta.category == Some(c) then 1 else 0
  }

  ghost predicate Counted(facts: seq<Fact>, counts: map<string, nat>) {
    && (forall c :: c in counts <==> CountOf(facts, c) > 0)
    && (forall c | c in counts :: counts[c] == CountOf(facts, c))
  }

  lemma {:induction false} CountIsSize(v: map<FactId, Fact>, facts: seq<Fact>, c: Category)
    requires Filed(v) && IsAllFacts(v, facts)
    ensures CountOf(facts, c) == |InCategory(v, c)|
  {
    if facts == [] {
      assert v == map[];
      assert InCategory(v, c) == map[];
    } else {
      var last := facts[|facts|-1];
      assert last in facts;
      ListingWithoutLast(v, facts);
      CountIsSize(v - {last.id}, facts[..|facts|-1], c);
      InCategoryWithout(v, last.id, c);
    }
  }

  lemma InCategoryWithout(v: map<FactId, Fact>, id: FactId, c: Category)
    requires id in v
    ensures |InCategory(v, c)| == |InCategory(v - {id}, c)| + if v[id].meta.category == Some(c) then 1 else 0
  {
    var all, rest := InCategory(v, c), InCategory(v - {id}, c);
    assert all.Keys == rest.Keys + if v[id].meta.category == Some(c) then {id} else {};
    assert |all| == |all.Keys| && |rest| == |rest.Keys|;
  }

  lemma ListingWithoutLast(v: map<FactId, Fact>, facts: seq<Fact>)
    requires Filed(v) && facts != [] && IsAllFacts(v, facts)
    ensures Filed(v - {facts[|facts|-1].id}) && IsAllFacts(v - {facts[|facts|-1].id}, facts[..|facts|-1])
  {
    var n := |facts| - 1;
    assert facts == facts[..n] + [facts[n]];
    forall f | f in facts[..n] ensures f.id in v - {facts[n].id} && v[f.id] == f {
      var i :| 0 <= i < n && facts[..n][i] == f;
      assert f in facts;
    }
  }

  /** The iteration order of a `BTreeSet` of strings. */
  method InOrder(cats: set<string>) returns (names: seq<string>)
    ensures forall i, j | 0 <= i < j < |names| :: StrLe(names[i], names[j]) && names[i] != names[j]
    ensures forall c :: c in names <==> c in cats
  {
    names := [];
    var todo := cats;
    ghost var done: set<string> := {};
    while todo != {}
      invariant done + todo == cats && done !! todo
      invariant NoDup(names) && forall c :: c in names <==> c in done
      decreases todo
    {
      var c :| c in todo;
      names, todo, done := names + [c], todo - {c}, done + {c};
    }
    SortPermutes(names, StrLe);
    PermutationKeepsNoDup(names, Sort(names, StrLe));
    StrLeTotalOrder();
    SortSorts(names, StrLe);
    names := Sort(names, StrLe);
  }

  /** The iteration order of a `BTreeMap` keyed by strings. */
  method InNameOrder(counts: map<string, nat>) returns (out: seq<(string, nat)>)
    ensures NamesIncrease(out)
    ensures forall e :: e in out <==> e.0 in counts && counts[e.0] == e.1
  {
    var names := InOrder(counts.Keys);
    out := [];
    for i := 0 to |names|
      invariant |out| == i && forall j | 0 <= j < i :: out[j] == (names[j], counts[names[j]])
    {
      assert names[i] in names;
      out := out + [(names[i], counts[names[i]])];
    }
    forall e ensures e in out <==> e.0 in counts && counts[e.0] == e.1 {
      if e.0 in counts && counts[e.0] == e.1 {
        var i :| 0 <= i < |names| && names[i] == e.0;
        assert out[i] == e;
      }
    }
  }

  lemma CountsAreCategories(v: map<FactId, Fact>, facts: seq<Fact>, counts: map<string, nat>, out: seq<(string, nat)>)
    requires Filed(v) && IsAllFacts(v, facts) && Counted(facts, counts)
    requires NamesIncrease(out) && forall e :: e in out <==> e.0 in counts && counts[e.0] == e.1
    ensures IsCategoryCounts(v, out)
  {
    forall e | e in out ensures e.1 == |InCategory(v, e.0)| && e.1 > 0 {
      CountIsSize(v, facts, e.0);
    }
    forall c | InCategory(v, c) != map[] ensures exists e :: e in out && e.0 == c {
      CountIsSize(v, facts, c);
      assert InCategory(v, c).Keys != {};
      assert |InCategory(v, c)| == |InCategory(v, c).Keys|;
      assert c in counts;
      assert (c, counts[c]) in out;
    }
  }

  method CountFacts(facts: seq<Fact>) returns (counts: map<string, nat>)
    ensures Counted(facts, counts)
  {
    counts := map[];
    for i := 0 to |facts|
      invariant Counted(facts[..i], counts)
    {
      assert facts[..i+1][..i] == facts[..i];
      counts := Bumped(counts, facts[i].meta.category);
    }
    assert facts[..|facts|] == facts;
  }

  /** `category_counts` */
  method CategoryCounts(tb: Tables, ghost docs: map<FactId, Fact>, k: Knowledge, token: Token)
    returns (r: Result<seq<(string, nat)>, AccessError>)
    requires Serves(tb, docs, k)
    ensures if k.allFacts.Ok? then r.Ok? && IsCategoryCounts(View(docs, token), r.value)
            else r == Err(ToAccessError(k.allFacts.error))
  {
    if k.allFacts.Err? { return Err(ToAccessError(k.allFacts.error)); }
    var facts := Accessible(token, k.allFacts.value);
    AccessibleIsView(docs, token, k.allFacts.value);
    var counts := CountFacts(facts);
    var out := InNameOrder(counts);
    CountsAreCategories(View(docs, token), facts, counts, out);
    r := Ok(out);
  }

  /** `list_categories` */
  method ListCategories(tb: Tables, ghost docs: map<FactId, Fact>, k: Knowledge, token: Token)
    returns (r: Result<seq<string>, AccessError>)
    requires Serves(tb, docs, k)
    ensures if k.allFacts.Ok? then r.Ok? && IsCategoryList(View(docs, token), r.value)
            else r == Err(ToAccessError(k.allFacts.error))
  {
    if k.allFacts.Err? { return Err(ToAccessError(k.allFacts.error)); }
    var facts := Accessible(token, k.allFacts.value);
    AccessibleIsView(docs, token, k.allFacts.value);
    var cats := set f | f in facts && f.meta.category.Some? :: f.meta.category.value;
    var out := InOrder(cats);
    CatsAreCategories(View(docs, token), facts, cats);
    r := Ok(out);
  }

  /** The categories with a page in the view, by name. */
  ghost predicate IsCategoryList(v: map<FactId, Fact>, out: seq<string>) {
    && (forall i, j | 0 <= i < j < |out| :: StrLe(out[i], out[j]) && out[i] != out[j])
    && (forall c :: c in out <==> InCategory(v, c) != map[])
  }

  lemma CatsAreCategories(v: map<FactId, Fact>, facts: seq<Fact>, cats: set<string>)
    requires IsAllFacts(v, facts) && cats == set f | f in facts && f.meta.category.Some? :: f.meta.category.value
    ensures forall c :: c in cats <==> InCategory(v, c) != map[]
  {
    forall c ensures c in cats <==> InCategory(v, c) != map[] {
      if c in cats {
        var f :| f in facts && f.meta.category == Some(c);
        assert f.id in InCategory(v, c);
      }
      if InCategory(v, c) != map[] {
        var id :| id in InCategory(v, c);
        assert v[id] in facts;
      }
    }
  }

  /** The listing of names is the listing of counts without the counts. */
  lemma ListAgreesWithCounts(v: map<FactId, Fact>, names: seq<string>, counts: seq<(string, nat)>)
    requires IsCategoryList(v, names) && IsCategoryCounts(v, counts)
    ensures |names| == |counts| && forall i | 0 <= i < |names| :: names[i] == counts[i].0
  {
    var firsts := seq(|counts|, i requires 0 <= i < |counts| => counts[i].0);
    forall c ensures c in names <==> c in firsts {
      if c in names {
        var e :| e in counts && e.0 == c;
        var i :| 0 <= i < |counts| && counts[i] == e;
        assert firsts[i] == c;
      }
      if c in firsts {
        var i :| 0 <= i < |firsts| && firsts[i] == c;
        assert counts[i] in counts;
        assert |InCategory(v, c)| > 0 ==> InCategory(v, c) != map[];
      }
    }
    NoDupPermutation(names, firsts);
    StrLeTotalOrder();
    SortedUnique(names, firsts, StrLe);
  }

  lemma CountsAreUnique(v: map<FactId, Fact>, a: seq<(string, nat)>, b: seq<(string, nat)>)
    requires IsCategoryCounts(v, a) && IsCategoryCounts(v, b)
    ensures a == b
  {
    forall e ensures e in a <==> e in b {
      if e in a { EntryIn(v, b, e); }
      if e in b { EntryIn(v, a, e); }
    }
    NamesUnique(a, b);
  }

  lemma EntryIn(v: map<FactId, Fact>, out: seq<(string, nat)>, e: (string, nat))
    requires IsCategoryCounts(v, out) && e.1 == |InCategory(v, e.0)| && e.1 > 0
    ensures e in out
  {
    assert InCategory(v, e.0) != map[];
    var x :| x in out && x.0 == e.0;
    assert x == e;
  }

  predicate ByName(a: (string, nat), b: (string, nat)) {
    StrLe(a.0, b.0)
  }

  lemma NamesUnique(a: seq<(string, nat)>, b: seq<(string, nat)>)
    requires NamesIncrease(a) && NamesIncrease(b) && forall e :: e in a <==> e in b
    ensures a == b
  {
    NoDupPermutation(a, b);
    StrLeTotalOrder();
    forall x, y | x in a && y in a && ByName(x, y) && ByName(y, x) ensures x == y {
      var i :| 0 <= i < |a| && a[i] == x;
      var j :| 0 <= j < |a| && a[j] == y;
    }
    SortedUnique(a, b, ByName);
  }

  // ---- pages and guides -------------------------------------------------------------------------------

  /** `get_page` */
  function GetPage(get: FactId -> Result<Fact, AppError>, token: Token, id: FactId): Result<Fact, AccessError> {
    match get(id)
    case Ok(f) => if Reads(token, f) then Ok(f) else Err(NotFound)
    case Err(e) => Err(ToAccessError(e))
  }

  /** A page is served exactly when it is in the token's view; out of scope is the same as
      absent, and anything else is a failure of the store. */
  lemma PageIffInView(docs: map<FactId, Fact>, get: FactId -> Result<Fact, AppError>, token: Token, id: FactId)
    requires ServesPages(docs, get)
    ensures var r := GetPage(get, token, id);
      && (r.Ok? ==> id in View(docs, token) && r.value == View(docs, token)[id])
      && (r == Err(NotFound) ==> id !in View(docs, token))
      && (r.Ok? || r == Err(NotFound) || (get(id).Err? && !get(id).error.AppNotFound?))
  {}

  function OfCategory(facts: seq<Fact>, c: Category): seq<Fact> {
    if facts == [] then []
    else
      var f := facts[|facts|-1];
      OfCategory(facts[..|facts|-1], c) + if f.meta.category == Some(c) then [f] else []
  }

  lemma {:induction false} OfCategoryMeans(facts: seq<Fact>, c: Category)
    requires NoDup(facts)
    ensures NoDup(OfCategory(facts, c))
    ensures forall f :: f in OfCategory(facts, c) <==> f in facts && f.meta.category == Some(c)
  {
    if facts != [] {
      var n := |facts| - 1;
      OfCategoryMeans(facts[..n], c);
      assert facts == facts[..n] + [facts[n]];
    }
  }

  lemma GuideRanked(v: map<FactId, Fact>, facts: seq<Fact>, c: Category)
    requires Filed(v) && IsAllFacts(v, facts)
    ensures IsRanked(InCategory(v, c), Sort(OfCategory(facts, c), FactLe))
  {
    var pages := OfCategory(facts, c);
    OfCategoryMeans(facts, c);
    SortPermutes(pages, FactLe);
    PermutationKeepsNoDup(pages, Sort(pages, FactLe));
    ListingOrders();
    SortSorts(pages, FactLe);
  }

  /** A token that does not grant a category sees no page of it, so refusing before
      looking gives nothing away. */
  lemma UngrantedIsEmpty(docs: map<FactId, Fact>, token: Token, c: Category)
    requires !Grants(token, c)
    ensures InCategory(View(docs, token), c) == map[]
  {}

  /** The pages of one category, in order; not found exactly when the token sees none. */
  ghost predicate IsGuide(v: map<FactId, Fact>, c: Category, r: Result<seq<Fact>, AccessError>) {
    match r
    case Ok(pages) => pages != [] && IsRanked(InCategory(v, c), pages)
    case Err(e) => e.NotFound? && InCategory(v, c) == map[]
  }

  /** `guide_pages` */
  method GuidePages(tb: Tables, ghost docs: map<FactId, Fact>, k: Knowledge, token: Token, c: Category)
    returns (r: Result<seq<Fact>, AccessError>)
    requires Serves(tb, docs, k)
    ensures r.Ok? || r == Err(NotFound) ==> IsGuide(View(docs, token), c, r)
    ensures if !Grants(token, c) || k.allFacts.Ok? then r.Ok? || r == Err(NotFound)
            else r == Err(ToAccessError(k.allFacts.error))
  {
    if !Grants(token, c) {
      UngrantedIsEmpty(docs, token, c);
      return Err(NotFound);
    }
    if k.allFacts.Err? { return Err(ToAccessError(k.allFacts.error)); }
    var facts := Accessible(token, k.allFacts.value);
    AccessibleIsView(docs, token, k.allFacts.value);
    var pages := OfCategory(facts, c);
    GuideRanked(View(docs, token), facts, c);
    SortPermutes(pages, FactLe);
    EmptyRanked(InCategory(View(docs, token), c), Sort(pages, FactLe));
    if pages == [] {
      return Err(NotFound);
    }
    r := Ok(Sort(pages, FactLe));
  }

  lemma EmptyRanked(v: map<FactId, Fact>, all: seq<Fact>)
    requires Filed(v) && IsRanked(v, all)
    ensures all == [] <==> v == map[]
  {
    if id :| id in v { assert v[id] in all; }
    if all != [] { assert all[0] in all; }
  }

  function Section(f: Fact): string {
    "## " + f.title + "\n" + f.body
  }

  function Composed(pages: seq<Fact>): string {
    if pages == [] then []
    else if |pages| == 1 then Section(pages[0])
    else Composed(pages[..|pages|-1]) + "\n\n" + Section(pages[|pages|-1])
  }

  method Compose(pages: seq<Fact>) returns (guide: string)
    ensures guide == Composed(pages)
  {
    guide := "";
    for i := 0 to |pages|
      invariant guide == Composed(pages[..i]) && (i > 0 ==> guide != "")
    {
      var f := pages[i];
      assert pages[..i+1][..i] == pages[..i];
      if guide != "" { guide := guide + "\n\n"; }
      guide := guide + "## ";
      guide := guide + f.title;
      guide := guide + "\n";
      guide := guide + f.body;
    }
    assert pages[..|pages|] == pages;
  }

  /** `get_guide`: the same pages as one text. */
  method GetGuide(tb: Tables, ghost docs: map<FactId, Fact>, k: Knowledge, token: Token, c: Category)
    returns (r: Result<string, AccessError>, ghost pages: seq<Fact>)
    requires Serves(tb, docs, k)
    ensures r.Ok? ==> IsGuide(View(docs, token), c, Ok(pages)) && r.value == Composed(pages)
    ensures r == Err(NotFound) ==> InCategory(View(docs, token), c) == map[]
    ensures Healthy(k) ==> r.Ok? || r == Err(NotFound)
  {
    var got := GuidePages(tb, docs, k, token, c);
    if got.Err? { return Err(got.error), []; }
    pages := got.value;
    var guide := Compose(got.value);
    r := Ok(guide);
  }

  lemma GuideIsUnique(v: map<FactId, Fact>, c: Category, a: Result<seq<Fact>, AccessError>,
                      b: Result<seq<Fact>, AccessError>)
    requires Filed(v) && IsGuide(v, c, a) && IsGuide(v, c, b)
    ensures a == b
  {
    if a.Ok? && b.Ok? {
      RankedIsUnique(InCategory(v, c), a.value, b.value);
    }
    if a.Ok? { assert a.value[0] in a.value; }
    if b.Ok? { assert b.value[0] in b.value; }
  }
}
