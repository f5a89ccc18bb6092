/** The four tool handlers of `sharing/mcp.rs`: arguments are checked, the sharing layer is
    asked, and every text that leaves is cleaned or framed. */
module SharingTools {
  import opened Wrappers
  import opened Texts
  import opened Ordering
  import opened Sources
  import opened KnowledgeTypes
  import opened Tokenizer
  import opened SearchIndex
  import opened Envelope
  import opened KnowledgeSharing
  import Categories

  const DEFAULT_SEARCH_LIMIT: nat := 10
  const MAX_SEARCH_LIMIT: nat := 50
  const MAX_QUERY_CHARS: nat := 500
  const EXCERPT_MAX_CHARS: nat := 200

  datatype ToolError = Refused(error: AccessError) | BadArgument(field: string)

  function ToToolError(e: AccessError): ToolError {
    if e.InvalidInput? then BadArgument("인자") else Refused(e)
  }

  /** The `limit` argument: missing or null, a number, or something else. */
  datatype LimitArg = Absent | Number(n: nat) | Other

  datatype CategoryOut = CategoryOut(name: string, pageCount: nat)
  datatype SearchHit = SearchHit(id: FactId, title: string, category: Option<string>, excerpt: string, updatedAt: Time)
  datatype SearchOut = SearchOut(results: seq<SearchHit>, truncated: bool)
  datatype LinkOut = LinkOut(id: FactId, title: string)
  datatype PageOut = PageOut(
    id: FactId,
    title: string,
    category: Option<string>,
    body: string,
    links: seq<LinkOut>,
    source: SourceKind,
    collectedAt: Time,
    confirmedAt: Option<Time>,
    updatedAt: Time)
  datatype GuidePage = GuidePage(id: FactId, title: string, excerpt: string)
  datatype GuideOut = GuideOut(category: string, pages: seq<GuidePage>)

  function UpdatedAt(meta: FactMeta): Time {
    if meta.confirmedAt.Some? then meta.confirmedAt.value else meta.collectedAt
  }

  function Excerpt(body: string): string {
    if |body| <= EXCERPT_MAX_CHARS then body else body[..EXCERPT_MAX_CHARS] + "…"
  }

  function CleanCategory(c: Option<Category>): Option<string> {
    if c.Some? then Some(Sanitized(c.value)) else None
  }

  function ToHit(f: Fact): SearchHit {
    SearchHit(f.id, Sanitized(f.title), CleanCategory(f.meta.category), Wrap(Excerpt(f.body)), UpdatedAt(f.meta))
  }

  function ToHits(facts: seq<Fact>): seq<SearchHit> {
    seq(|facts|, i requires 0 <= i < |facts| => ToHit(facts[i]))
  }

  function ToGuidePages(facts: seq<Fact>): seq<GuidePage> {
    seq(|facts|, i requires 0 <= i < |facts| => GuidePage(facts[i].id, Sanitized(facts[i].title),
      Wrap(Excerpt(facts[i].body))))
  }

  function ToCategories(counts: seq<(string, nat)>): seq<CategoryOut> {
    seq(|counts|, i requires 0 <= i < |counts| => CategoryOut(Sanitized(counts[i].0), counts[i].1))
  }

  // ---- what each tool answers, in terms of the token's view alone --------------------------

  ghost predicate CategoriesAnswer(v: map<FactId, Fact>, r: Result<seq<CategoryOut>, ToolError>) {
    exists counts :: IsCategoryCounts(v, counts) && r == Ok(ToCategories(counts))
  }

  predicate BadQuery(query: Option<string>) {
    query.None? || Trim(query.value) == [] || |query.value| > MAX_QUERY_CHARS
  }

  function Limit(arg: LimitArg): Option<nat> {
    match arg
    case Absent => Some(DEFAULT_SEARCH_LIMIT)
    case Number(n) => if 1 <= n <= MAX_SEARCH_LIMIT then Some(n) else None
    case Other => None
  }

  /** The first `limit` matches of the view, and whether there are more. */
  ghost predicate SearchAnswer(tb: Tables, v: map<FactId, Fact>, query: Option<string>, limit: LimitArg,
                               r: Result<SearchOut, ToolError>) {
    if BadQuery(query) then r == Err(BadArgument("query"))
    else if Limit(limit).None? then r == Err(BadArgument("limit"))
    else exists all ::
      && IsRanked(Hits(tb, v, query.value), all)
      && r == Ok(SearchOut(ToHits(Truncate(all, Limit(limit).value)), |all| > Limit(limit).value))
  }

  /** The links of a page that lead to pages of the view. */
  ghost function VisibleLinks(v: map<FactId, Fact>, links: seq<FactId>): seq<LinkOut> {
    if links == [] then []
    else
      var id := links[|links|-1];
      VisibleLinks(v, links[..|links|-1]) + if id in v then [LinkOut(id, Sanitized(v[id].title))] else []
  }

  function ToPage(f: Fact, links: seq<LinkOut>): PageOut {
    PageOut(f.id, Sanitized(f.title), CleanCategory(f.meta.category), Wrap(f.body), links,
            f.meta.source, f.meta.collectedAt, f.meta.confirmedAt, UpdatedAt(f.meta))
  }

  ghost predicate PageAnswer(v: map<FactId, Fact>, id: Option<FactId>, r: Result<PageOut, ToolError>) {
    if id.None? then r == Err(BadArgument("id"))
    else if id.value !in v then r == Err(Refused(NotFound))
    else r == Ok(ToPage(v[id.value], VisibleLinks(v, v[id.value].links)))
  }

  ghost predicate GuideAnswer(lower: string -> string, v: map<FactId, Fact>, raw: Option<string>,
                              r: Result<GuideOut, ToolError>) {
    if raw.None? || !Categories.Fits(Categories.Normalized(lower, raw.value)) then r == Err(BadArgument("category"))
    else
      var c := Categories.Normalized(lower, raw.value);
      if InCategory(v, c) == map[] then r == Err(Refused(NotFound))
      else exists pages :: IsRanked(InCategory(v, c), pages) && r == Ok(GuideOut(Sanitized(c), ToGuidePages(pages)))
  }

  // ---- what each tool answers, failures included -----------------------------------------------

  ghost predicate CategoriesReply(k: Knowledge, v: map<FactId, Fact>, r: Result<seq<CategoryOut>, ToolError>) {
    if k.allFacts.Ok? then CategoriesAnswer(v, r) else r == Err(ToToolError(ToAccessError(k.allFacts.error)))
  }

  ghost function SearchReply(k: Knowledge, token: Token, query: Option<string>,
                             limit: LimitArg): Result<SearchOut, ToolError> {
    if BadQuery(query) then Err(BadArgument("query"))
    else if Limit(limit).None? then Err(BadArgument("limit"))
    else
      Paged(SearchRun(k, token, query.value, Limit(limit).value + 1), Limit(limit).value)
  }

  /** One page of what was found. */
  ghost function Paged(run: Result<seq<Fact>, AccessError>, n: nat): Result<SearchOut, ToolError> {
    match run
    case Ok(found) => Ok(SearchOut(ToHits(Truncate(found, n)), |found| > n))
    case Err(e) => Err(ToToolError(e))
  }

  /** The links up to the first that fails. */
  ghost function LinksReply(get: FactId -> Result<Fact, AppError>, token: Token,
                            links: seq<FactId>): Result<seq<LinkOut>, ToolError> {
    if links == [] then Ok([])
    else
      var init, page := LinksReply(get, token, links[..|links|-1]), GetPage(get, token, links[|links|-1]);
      if init.Err? then init
      else if page.Ok? then Ok(init.value + [LinkOut(page.value.id, Sanitized(page.value.title))])
      else if page.error.NotFound? then init
      else Err(ToToolError(page.error))
  }

  ghost function PageReply(get: FactId -> Result<Fact, AppError>, token: Token,
                           id: Option<FactId>): Result<PageOut, ToolError> {
    if id.None? then Err(BadArgument("id"))
    else
      match GetPage(get, token, id.value)
      case Err(e) => Err(ToToolError(e))
      case Ok(f) =>
        match LinksReply(get, token, f.links)
        case Ok(links) => Ok(ToPage(f, links))
        case Err(e) => Err(e)
  }

  ghost predicate GuideReply(lower: string -> string, k: Knowledge, token: Token, v: map<FactId, Fact>,
                             raw: Option<string>, r: Result<GuideOut, ToolError>) {
    if raw.Some? && Categories.Fits(Categories.Normalized(lower, raw.value))
       && Grants(token, Categories.Normalized(lower, raw.value)) && k.allFacts.Err?
    then r == Err(ToToolError(ToAccessError(k.allFacts.error)))
    else GuideAnswer(lower, v, raw, r)
  }

  // ---- the handlers --------------------------------------------------------------------------

  method HandleListCategories(tb: Tables, ghost docs: map<FactId, Fact>, k: Knowledge, token: Token)
    returns (r: Result<seq<CategoryOut>, ToolError>)
    requires Serves(tb, docs, k)
    ensures CategoriesReply(k, View(docs, token), r)
    ensures Healthy(k) || r.Ok? ==> CategoriesAnswer(View(docs, token), r)
  {
    var counts := CategoryCounts(tb, docs, k, token);
    if counts.Err? { return Err(ToToolError(counts.error)); }
    r := Ok(ToCategories(counts.value));
  }

  /** The hits shown, and whether there are more. */
  method MakePage(found: Result<seq<Fact>, AccessError>, n: nat) returns (r: Result<SearchOut, ToolError>)
    ensures r == Paged(found, n)
  {
    match found {
      case Ok(facts) => r := Ok(SearchOut(ToHits(Truncate(facts, n)), |facts| > n));
      case Err(e) => r := Err(ToToolError(e));
    }
  }

  method HandleSearch(tb: Tables, ghost docs: map<FactId, Fact>, k: Knowledge, token: Token, query: Option<string>,
                      limit: LimitArg)
    returns (r: Result<SearchOut, ToolError>)
    requires Serves(tb, docs, k)
    ensures r == SearchReply(k, token, query, limit)
    ensures Healthy(k) || r.Ok? || BadQuery(query) || Limit(limit).None? ==>
      SearchAnswer(tb, View(docs, token), query, limit, r)
  {
    if query.None? { return Err(BadArgument("query")); }
    if Trim(query.value) == [] || |query.value| > MAX_QUERY_CHARS { return Err(BadArgument("query")); }
    var n: nat;
    match limit {
      case Absent => n := DEFAULT_SEARCH_LIMIT;
      case Number(given) =>
        if !(1 <= given <= MAX_SEARCH_LIMIT) { return Err(BadArgument("limit")); }
        n := given;
      case Other => return Err(BadArgument("limit"));
    }
    var found := SearchVisible(tb, docs, k, token, query.value, n + 1);
    if found.Ok? { OneMoreShows(tb, View(docs, token), query, limit, n, found.value); }
    r := MakePage(found, n);
  }

  /** Asking for one more than the page holds shows whether it is truncated. */
  lemma OneMoreShows(tb: Tables, v: map<FactId, Fact>, query: Option<string>, limit: LimitArg, n: nat, found: seq<Fact>)
    requires !BadQuery(query) && Limit(limit) == Some(n) && IsSearchPage(tb, v, query.value, n + 1, found)
    ensures SearchAnswer(tb, v, query, limit, Paged(Ok(found), n))
  {
    var all :| IsRanked(Hits(tb, v, query.value), all) && found == Truncate(all, n + 1);
    assert Truncate(found, n) == Truncate(all, n);
  }

  /** Collect the links that may be shown; a failing store ends it. */
  method CollectLinks(ghost docs: map<FactId, Fact>, get: FactId -> Result<Fact, AppError>, token: Token,
                      links: seq<FactId>)
    returns (r: Result<seq<LinkOut>, ToolError>)
    requires Filed(docs) && ServesPages(docs, get)
    ensures r == LinksReply(get, token, links)
    ensures if r.Ok? then r.value == VisibleLinks(View(docs, token), links) else r.error != Refused(NotFound)
    ensures (forall id :: get(id).Ok? || get(id).error.AppNotFound?) ==> r.Ok?
  {
    var out: seq<LinkOut> := [];
    for i := 0 to |links|
      invariant out == VisibleLinks(View(docs, token), links[..i]) && LinksReply(get, token, links[..i]) == Ok(out)
    {
      assert links[..i+1][..i] == links[..i];
      PageIffInView(docs, get, token, links[i]);
      var page := GetPage(get, token, links[i]);
      if page.Ok? {
        out := out + [LinkOut(page.value.id, Sanitized(page.value.title))];
      } else if !page.error.NotFound? {
        FirstFailureStays(get, token, links, i + 1);
        return Err(ToToolError(page.error));
      }
    }
    assert links[..|links|] == links;
    r := Ok(out);
  }

  lemma {:induction false} FirstFailureStays(get: FactId -> Result<Fact, AppError>, token: Token, links: seq<FactId>,
                                             n: nat)
    requires n <= |links| && LinksReply(get, token, links[..n]).Err?
    ensures LinksReply(get, token, links) == LinksReply(get, token, links[..n])
  {
    if n < |links| {
      var init := links[..|links|-1];
      assert init[..n] == links[..n];
      FirstFailureStays(get, token, init, n);
    } else {
      assert links[..n] == links;
    }
  }

  method HandleGetPage(tb: Tables, ghost docs: map<FactId, Fact>, k: Knowledge, token: Token, id: Option<FactId>)
    returns (r: Result<PageOut, ToolError>)
    requires Serves(tb, docs, k)
    ensures r == PageReply(k.get, token, id)
    ensures Healthy(k) || r.Ok? || r == Err(Refused(NotFound)) ==> PageAnswer(View(docs, token), id, r)
  {
    if id.None? { return Err(BadArgument("id")); }
    PageIffInView(docs, k.get, token, id.value);
    var page := GetPage(k.get, token, id.value);
    if page.Err? { return Err(ToToolError(page.error)); }
    var links := CollectLinks(docs, k.get, token, page.value.links);
    if links.Err? { return Err(links.error); }
    r := Ok(ToPage(page.value, links.value));
  }

  method HandleGetGuide(tb: Tables, lower: string -> string, ghost docs: map<FactId, Fact>, k: Knowledge,
                        token: Token, raw: Option<string>)
    returns (r: Result<GuideOut, ToolError>)
    requires Serves(tb, docs, k)
    ensures GuideReply(lower, k, token, View(docs, token), raw, r)
    ensures Healthy(k) || r.Ok? || r == Err(Refused(NotFound)) ==> GuideAnswer(lower, View(docs, token), raw, r)
  {
    if raw.None? { return Err(BadArgument("category")); }
    var c := Categories.Parse(lower, raw.value);
    if c.None? { return Err(BadArgument("category")); }
    var pages := GuidePages(tb, docs, k, token, c.value);
    if pages.Ok? { EmptyRanked(InCategory(View(docs, token), c.value), pages.value); }
    if pages.Err? { return Err(ToToolError(pages.error)); }
    r := Ok(GuideOut(Sanitized(c.value), ToGuidePages(pages.value)));
  }

  // ---- nothing outside the view shows -----------------------------------------------------------

  /** Two stores with the same view give the same categories and counts. */
  lemma CategoriesAreBlind(d1: map<FactId, Fact>, d2: map<FactId, Fact>, token: Token,
                           r1: Result<seq<CategoryOut>, ToolError>, r2: Result<seq<CategoryOut>, ToolError>)
    requires View(d1, token) == View(d2, token)
    requires CategoriesAnswer(View(d1, token), r1) && CategoriesAnswer(View(d2, token), r2)
    ensures r1 == r2
  {
    var v := View(d1, token);
    var c1 :| IsCategoryCounts(v, c1) && r1 == Ok(ToCategories(c1));
    var c2 :| IsCategoryCounts(v, c2) && r2 == Ok(ToCategories(c2));
    CountsAreUnique(v, c1, c2);
  }

  /** Two stores with the same view give the same search page and the same `truncated`
      flag. */
  lemma SearchIsBlind(tb: Tables, d1: map<FactId, Fact>, d2: map<FactId, Fact>, token: Token, query: Option<string>,
                      limit: LimitArg, r1: Result<SearchOut, ToolError>, r2: Result<SearchOut, ToolError>)
    requires View(d1, token) == View(d2, token)
    requires SearchAnswer(tb, View(d1, token), query, limit, r1) && SearchAnswer(tb, View(d2, token), query, limit, r2)
    ensures r1 == r2
  {
    if !BadQuery(query) && Limit(limit).Some? {
      var hits, n := Hits(tb, View(d1, token), query.value), Limit(limit).value;
      var a1 :| IsRanked(hits, a1) && r1 == Ok(SearchOut(ToHits(Truncate(a1, n)), |a1| > n));
      var a2 :| IsRanked(hits, a2) && r2 == Ok(SearchOut(ToHits(Truncate(a2, n)), |a2| > n));
      RankedIsUnique(hits, a1, a2);
    }
  }

  /** Two stores with the same view give the same page with the same links. */
  lemma PageIsBlind(d1: map<FactId, Fact>, d2: map<FactId, Fact>, token: Token, id: Option<FactId>,
                    r1: Result<PageOut, ToolError>, r2: Result<PageOut, ToolError>)
    requires View(d1, token) == View(d2, token)
    requires PageAnswer(View(d1, token), id, r1) && PageAnswer(View(d2, token), id, r2)
    ensures r1 == r2
  {}

  /** Two stores with the same view give the same guide. */
  lemma GuideIsBlind(lower: string -> string, d1: map<FactId, Fact>, d2: map<FactId, Fact>, token: Token,
                     raw: Option<string>, r1: Result<GuideOut, ToolError>, r2: Result<GuideOut, ToolError>)
    requires View(d1, token) == View(d2, token)
    requires GuideAnswer(lower, View(d1, token), raw, r1) && GuideAnswer(lower, View(d2, token), raw, r2)
    ensures r1 == r2
  {
    if raw.Some? && Categories.Fits(Categories.Normalized(lower, raw.value)) {
      var c := Categories.Normalized(lower, raw.value);
      var pages := InCategory(View(d1, token), c);
      if pages != map[] {
        var p1 :| IsRanked(pages, p1) && r1 == Ok(GuideOut(Sanitized(c), ToGuidePages(p1)));
        var p2 :| IsRanked(pages, p2) && r2 == Ok(GuideOut(Sanitized(c), ToGuidePages(p2)));
        RankedIsUnique(pages, p1, p2);
      }
    }
  }

  lemma {:induction false} LinksAlike(g1: FactId -> Result<Fact, AppError>, g2: FactId -> Result<Fact, AppError>,
                                      token: Token, links: seq<FactId>)
    requires forall id :: GetPage(g1, token, id) == GetPage(g2, token, id)
    ensures LinksReply(g1, token, links) == LinksReply(g2, token, links)
  {
    if links != [] { LinksAlike(g1, g2, token, links[..|links|-1]); }
  }

  lemma PagesAlike(d1: map<FactId, Fact>, d2: map<FactId, Fact>, k1: Knowledge, k2: Knowledge, token: Token, id: FactId)
    requires ServesPages(d1, k1.get) && ServesPages(d2, k2.get) && View(d1, token) == View(d2, token)
    requires AgreeInside(View(d1, token), k1, k2)
    requires !FailsOutside(View(d1, token), k1) && !FailsOutside(View(d1, token), k2)
    ensures GetPage(k1.get, token, id) == GetPage(k2.get, token, id)
  {
    PageIffInView(d1, k1.get, token, id);
    PageIffInView(d2, k2.get, token, id);
  }

  /** With failing stores: where the calls about the view end the same, two stores with the same
      view give the same search reply, failures included, unless a read of a fact outside the
      view fails. */
  lemma OnlyFailuresOutsideShowInSearch(tb: Tables, d1: map<FactId, Fact>, d2: map<FactId, Fact>, k1: Knowledge,
                                        k2: Knowledge, token: Token, query: Option<string>, limit: LimitArg)
    requires Serves(tb, d1, k1) && Serves(tb, d2, k2) && View(d1, token) == View(d2, token)
    requires AgreeInside(View(d1, token), k1, k2)
    ensures SearchReply(k1, token, query, limit) == SearchReply(k2, token, query, limit)
         || FailsOutside(View(d1, token), k1) || FailsOutside(View(d1, token), k2)
  {
    var v := View(d1, token);
    if !BadQuery(query) && Limit(limit).Some? && !FailsOutside(v, k1) && !FailsOutside(v, k2) {
      SearchRunsAlike(tb, d1, d2, k1, k2, token, query.value, Limit(limit).value + 1);
    }
  }

  /** The same of a page and its links. */
  lemma OnlyFailuresOutsideShowInPages(d1: map<FactId, Fact>, d2: map<FactId, Fact>, k1: Knowledge, k2: Knowledge,
                                       token: Token, id: Option<FactId>)
    requires ServesPages(d1, k1.get) && ServesPages(d2, k2.get) && View(d1, token) == View(d2, token)
    requires AgreeInside(View(d1, token), k1, k2)
    ensures PageReply(k1.get, token, id) == PageReply(k2.get, token, id)
         || FailsOutside(View(d1, token), k1) || FailsOutside(View(d1, token), k2)
  {
    var v := View(d1, token);
    if !FailsOutside(v, k1) && !FailsOutside(v, k2) {
      forall x ensures GetPage(k1.get, token, x) == GetPage(k2.get, token, x) {
        PagesAlike(d1, d2, k1, k2, token, x);
      }
      if id.Some? && GetPage(k1.get, token, id.value).Ok? {
        LinksAlike(k1.get, k2.get, token, GetPage(k1.get, token, id.value).value.links);
      }
    }
  }

  /** Categories and guides read all facts at once: where that ends the same, so do they. */
  lemma ListingsFailAlike(lower: string -> string, d1: map<FactId, Fact>, d2: map<FactId, Fact>, k1: Knowledge,
                          k2: Knowledge, token: Token, raw: Option<string>, c1: Result<seq<CategoryOut>, ToolError>,
                          c2: Result<seq<CategoryOut>, ToolError>, g1: Result<GuideOut, ToolError>,
                          g2: Result<GuideOut, ToolError>)
    requires View(d1, token) == View(d2, token) && EndAlike(k1.allFacts, k2.allFacts)
    requires CategoriesReply(k1, View(d1, token), c1) && CategoriesReply(k2, View(d2, token), c2)
    requires GuideReply(lower, k1, token, View(d1, token), raw, g1)
      && GuideReply(lower, k2, token, View(d2, token), raw, g2)
    ensures c1 == c2 && g1 == g2
  {
    if k1.allFacts.Ok? {
      CategoriesAreBlind(d1, d2, token, c1, c2);
      GuideIsBlind(lower, d1, d2, token, raw, g1, g2);
    } else {
      GuideFailsAlike(lower, d1, d2, k1, k2, token, raw, g1, g2);
    }
  }

  lemma GuideFailsAlike(lower: string -> string, d1: map<FactId, Fact>, d2: map<FactId, Fact>, k1: Knowledge,
                        k2: Knowledge, token: Token, raw: Option<string>, g1: Result<GuideOut, ToolError>,
                        g2: Result<GuideOut, ToolError>)
    requires View(d1, token) == View(d2, token) && EndAlike(k1.allFacts, k2.allFacts) && k1.allFacts.Err?
    requires GuideReply(lower, k1, token, View(d1, token), raw, g1)
      && GuideReply(lower, k2, token, View(d2, token), raw, g2)
    ensures g1 == g2
  {
    if raw.Some? && Categories.Fits(Categories.Normalized(lower, raw.value)) {
      var c := Categories.Normalized(lower, raw.value);
      if !Grants(token, c) {
        UngrantedIsEmpty(d1, token, c);
      }
    }
  }

  lemma ResultSize(docs: map<FactId, Fact>, ids: set<FactId>, out: seq<FactSummary>)
    requires IsResult(docs, ids, out)
    ensures |out| == |ids| && forall i | 0 <= i < |out| :: out[i].id in ids
  {
    var found := seq(|out|, i requires 0 <= i < |out| => out[i].id);
    NoDupSetSize(found);
    forall id ensures id in found <==> id in ids {
      if id in ids {
        var i :| 0 <= i < |out| && out[i].id == id;
        assert found[i] == id;
      }
    }
    assert ids == set id | id in found;
  }

  /** And such a failure does show: of an empty store and one with a single matching fact the
      token cannot read and whose read fails, the second refuses the search and the page. */
  lemma OutsideFailureShows(tb: Tables, f: Fact, k1: Knowledge, k2: Knowledge, token: Token, query: string)
    requires !Reads(token, f) && Matches(tb, f, query) && !BadQuery(Some(query))
    requires Serves(tb, map[], k1) && Serves(tb, map[f.id := f], k2)
    requires k1.search(query).Ok? && k2.search(query).Ok?
    requires k1.get(f.id) == Err(AppNotFound) && k2.get(f.id) == Err(AppIo)
    ensures View(map[], token) == View(map[f.id := f], token)
    ensures SearchReply(k1, token, Some(query), Absent) == Ok(SearchOut([], false))
    ensures SearchReply(k2, token, Some(query), Absent) == Err(ToToolError(Unavailable))
    ensures PageReply(k1.get, token, Some(f.id)) == Err(Refused(NotFound))
    ensures PageReply(k2.get, token, Some(f.id)) == Err(ToToolError(Unavailable))
  {
    var d2 := map[f.id := f];
    var none, found := k1.search(query).value, k2.search(query).value;
    assert Found(tb, map[], query, None) == {} && Found(tb, d2, query, None) == {f.id};
    ResultSize(map[], Found(tb, map[], query, None), none);
    ResultSize(d2, {f.id}, found);
    assert found == [found[0]] && found[1..] == [];
    assert Sort([], SummaryLe) == [];
    assert Sort(found, SummaryLe) == found;
    assert SearchRun(k1, token, query, 11) == Ok([]);
    assert SearchRun(k2, token, query, 11) == Err(Unavailable);
    assert ToHits([]) == [];
  }

  /** Changing, adding or removing facts a token cannot read does not change its view. */
  lemma UnreadableEditsDoNotShow(docs: map<FactId, Fact>, token: Token, f: Fact)
    requires !Reads(token, f) && (f.id in docs ==> !Reads(token, docs[f.id]))
    ensures View(docs[f.id := f], token) == View(docs, token)
    ensures View(docs - {f.id}, token) == View(docs, token)
  {}

  // ---- every text served is safe ------------------------------------------------------------------

  ghost predicate SafeField(s: string) {
    SingleLine(s) && Trimmed(s) && NoDelimiters(s)
  }

  ghost predicate Framed(s: string) {
    && (forall i :: OccursAt(s, OPEN, i) <==> i == 0)
    && (forall i :: OccursAt(s, CLOSE, i) <==> i == |s| - |CLOSE|)
  }

  lemma FramedText(text: string)
    ensures Framed(Wrap(text))
  {
    forall i ensures OccursAt(Wrap(text), OPEN, i) <==> i == 0 { ExactlyOnePair(text, i); }
    forall i ensures OccursAt(Wrap(text), CLOSE, i) <==> i == |Wrap(text)| - |CLOSE| { ExactlyOnePair(text, i); }
  }

  lemma HitIsSafe(f: Fact)
    ensures var h := ToHit(f);
      SafeField(h.title) && (h.category.Some? ==> SafeField(h.category.value)) && Framed(h.excerpt)
  {
    SanitizedIsSafe(f.title);
    if f.meta.category.Some? { SanitizedIsSafe(f.meta.category.value); }
    FramedText(Excerpt(f.body));
  }

  lemma HitIsMatch(tb: Tables, v: map<FactId, Fact>, query: Option<string>, limit: LimitArg,
                   r: Result<SearchOut, ToolError>, h: SearchHit)
    returns (f: Fact)
    requires SearchAnswer(tb, v, query, limit, r) && r.Ok? && h in r.value.results
    ensures h == ToHit(f) && f.id in v && v[f.id] == f && Matches(tb, f, query.value)
  {
    var hits, n := Hits(tb, v, query.value), Limit(limit).value;
    var all :| IsRanked(hits, all) && r == Ok(SearchOut(ToHits(Truncate(all, n)), |all| > n));
    var i :| 0 <= i < |r.value.results| && r.value.results[i] == h;
    f := all[i];
    assert f in all;
  }

  /** Every hit is a page of the view that matches the query, safely projected. */
  lemma HitsAreSafe(tb: Tables, v: map<FactId, Fact>, query: Option<string>, limit: LimitArg,
                    r: Result<SearchOut, ToolError>, h: SearchHit)
    requires SearchAnswer(tb, v, query, limit, r) && r.Ok? && h in r.value.results
    ensures h.id in v && Matches(tb, v[h.id], query.value)
    ensures SafeField(h.title) && (h.category.Some? ==> SafeField(h.category.value)) && Framed(h.excerpt)
  {
    var f := HitIsMatch(tb, v, query, limit, r, h);
    HitIsSafe(f);
  }

  lemma {:induction false} LinksAreSafe(v: map<FactId, Fact>, links: seq<FactId>, l: LinkOut)
    requires l in VisibleLinks(v, links)
    ensures l.id in v && l.id in links && SafeField(l.title)
  {
    var n := |links| - 1;
    assert links == links[..n] + [links[n]];
    if l in VisibleLinks(v, links[..n]) {
      LinksAreSafe(v, links[..n], l);
    } else {
      SanitizedIsSafe(v[links[n]].title);
    }
  }

  lemma PageIsSafe(v: map<FactId, Fact>, id: Option<FactId>, r: Result<PageOut, ToolError>)
    requires PageAnswer(v, id, r) && r.Ok?
    ensures SafeField(r.value.title) && (r.value.category.Some? ==> SafeField(r.value.category.value))
      && Framed(r.value.body)
    ensures forall l | l in r.value.links :: l.id in v && SafeField(l.title)
  {
    var f := v[id.value];
    SanitizedIsSafe(f.title);
    if f.meta.category.Some? { SanitizedIsSafe(f.meta.category.value); }
    FramedText(f.body);
    forall l | l in r.value.links ensures l.id in v && SafeField(l.title) {
      LinksAreSafe(v, f.links, l);
    }
  }
}
