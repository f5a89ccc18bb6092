/** What a consumer gets to see through the tools, in the facts' own fields: shared pages of the
    granted categories, all of them, and nothing else. */
module SharingGuarantees {
  import opened Wrappers
  import opened Ordering
  import opened KnowledgeTypes
  import opened Tokenizer
  import opened SearchIndex
  import opened Envelope
  import opened KnowledgeSharing
  import opened SharingTools
  import Categories
  import opened TextGuarantees

  // ---- the access rule -----------------------------------------------------------------------

  /** Visibility and category are both needed; the owner sees everything. */
  lemma ViewInFields(docs: map<FactId, Fact>, token: Token, id: FactId)
    ensures id in View(docs, token) <==>
      && id in docs
      && (|| token.owner
          || (&& docs[id].meta.visibility == Shared && docs[id].meta.category.Some?
              && docs[id].meta.category.value in token.granted))
    ensures id in View(docs, token) ==> View(docs, token)[id] == docs[id]
  {}

  // ---- search ----------------------------------------------------------------------------------

  /** What a hit shows of a fact. */
  lemma HitShows(f: Fact)
    ensures var h := ToHit(f);
      && h.id == f.id && h.title == Sanitized(f.title)
      && (h.category.Some? <==> f.meta.category.Some?)
      && (h.category.Some? ==> h.category.value == Sanitized(f.meta.category.value))
      && (|f.body| <= 200 ==> h.excerpt == Wrap(f.body))
      && (|f.body| > 200 ==> h.excerpt == Wrap(f.body[..200] + "…"))
      && h.updatedAt == (if f.meta.confirmedAt.Some? then f.meta.confirmedAt.value else f.meta.collectedAt)
  {}

  /** Every hit is a stored fact that matches, and for a consumer a shared one of a granted
      category. */
  lemma HitsAreShared(tb: Tables, docs: map<FactId, Fact>, token: Token, query: Option<string>, limit: LimitArg,
                      r: Result<SearchOut, ToolError>, h: SearchHit)
    requires Filed(docs) && SearchAnswer(tb, View(docs, token), query, limit, r) && r.Ok? && h in r.value.results
    ensures h.id in docs && h == ToHit(docs[h.id]) && Matches(tb, docs[h.id], query.value)
    ensures !token.owner ==>
      && docs[h.id].meta.visibility == Shared && docs[h.id].meta.category.Some?
      && docs[h.id].meta.category.value in token.granted
  {
    var f := HitIsMatch(tb, View(docs, token), query, limit, r, h);
  }

  /** Every such fact is a hit, unless the page is full; then all hits come before it by title
      and then id. */
  lemma SharedMatchesAreHits(tb: Tables, docs: map<FactId, Fact>, token: Token, query: Option<string>, limit: LimitArg,
                             r: Result<SearchOut, ToolError>, id: FactId)
    requires Filed(docs) && SearchAnswer(tb, View(docs, token), query, limit, r) && r.Ok?
    requires id in docs && Matches(tb, docs[id], query.value)
    requires token.owner || (docs[id].meta.visibility == Shared && docs[id].meta.category.Some?
                             && docs[id].meta.category.value in token.granted)
    ensures ToHit(docs[id]) in r.value.results
         || (r.value.truncated && |r.value.results| == Limit(limit).value
             && forall h | h in r.value.results :: h.id in docs && Precedes(docs[h.id], docs[id]))
  {
    var v, n := View(docs, token), Limit(limit).value;
    var all, k := PlaceAmongHits(tb, v, query, limit, r, id);
    HitsUpTo(Hits(tb, v, query.value), all, n, k);
    forall h | k >= n && h in r.value.results ensures h.id in docs {
      var f := HitIsMatch(tb, v, query, limit, r, h);
    }
  }

  /** The place of a match in the ranking. */
  lemma PlaceAmongHits(tb: Tables, v: map<FactId, Fact>, query: Option<string>, limit: LimitArg,
                       r: Result<SearchOut, ToolError>, id: FactId)
    returns (all: seq<Fact>, k: nat)
    requires SearchAnswer(tb, v, query, limit, r) && r.Ok? && id in v && v[id].id == id
      && Matches(tb, v[id], query.value)
    ensures IsRanked(Hits(tb, v, query.value), all) && k < |all| && all[k] == v[id]
    ensures r == Ok(SearchOut(ToHits(Truncate(all, Limit(limit).value)), |all| > Limit(limit).value))
  {
    all :| IsRanked(Hits(tb, v, query.value), all)
      && r == Ok(SearchOut(ToHits(Truncate(all, Limit(limit).value)), |all| > Limit(limit).value));
    assert v[id] in all;
    k :| 0 <= k < |all| && all[k] == v[id];
  }

  /** A fact of the ranking is among the first `n`, or all of these come before it. */
  lemma HitsUpTo(v: map<FactId, Fact>, all: seq<Fact>, n: nat, k: nat)
    requires IsRanked(v, all) && k < |all|
    ensures var hits := ToHits(Truncate(all, n));
      if k < n then ToHit(all[k]) in hits
      else |hits| == n && forall h | h in hits :: h.id in v && Precedes(v[h.id], all[k])
  {
    var hits := ToHits(Truncate(all, n));
    if k < n {
      assert hits[k] == ToHit(all[k]);
    } else {
      forall h | h in hits ensures h.id in v && Precedes(v[h.id], all[k]) {
        var j :| 0 <= j < |hits| && hits[j] == h;
        RankedPrecedes(v, all, j, k);
        assert all[j] in all;
      }
    }
  }

  predicate Precedes(f: Fact, g: Fact) {
    StrLe(f.title, g.title) && (f.title == g.title ==> f.id < g.id)
  }

  lemma RankedPrecedes(v: map<FactId, Fact>, all: seq<Fact>, j: nat, k: nat)
    requires IsRanked(v, all) && j < k < |all|
    ensures Precedes(all[j], all[k])
  {
    assert all[j] in all && all[k] in all && all[j] != all[k] && FactLe(all[j], all[k]);
  }

  /** What a search may ask for, and how much it gets. */
  lemma SearchBounds(tb: Tables, v: map<FactId, Fact>, query: Option<string>, limit: LimitArg,
                     r: Result<SearchOut, ToolError>)
    requires SearchAnswer(tb, v, query, limit, r)
    ensures r.Err? <==>
      || query.None? || AllSpacing(query.value) || |query.value| > 500
      || limit.Other? || (limit.Number? && (limit.n < 1 || limit.n > 50))
    ensures r.Ok? ==> |r.value.results| <= if limit.Number? then limit.n else 10
    ensures r.Ok? && r.value.truncated ==> |r.value.results| == if limit.Number? then limit.n else 10
  {
    if query.Some? { var _, _ := TrimMeans(query.value); }
  }

  // ---- pages -------------------------------------------------------------------------------------

  /** A page is served exactly if it is stored and, for a consumer, shared under a granted
      category. */
  lemma PagesAreShared(docs: map<FactId, Fact>, token: Token, id: FactId, r: Result<PageOut, ToolError>)
    requires PageAnswer(View(docs, token), Some(id), r)
    ensures r.Ok? <==>
      && id in docs
      && (|| token.owner
          || (&& docs[id].meta.visibility == Shared && docs[id].meta.category.Some?
              && docs[id].meta.category.value in token.granted))
    ensures r.Err? ==> r == Err(Refused(NotFound))
    ensures r.Ok? ==>
      && r.value.id == docs[id].id && r.value.title == Sanitized(docs[id].title) && r.value.body == Wrap(docs[id].body)
      && r.value.source == docs[id].meta.source && r.value.collectedAt == docs[id].meta.collectedAt
      && r.value.confirmedAt == docs[id].meta.confirmedAt
      && (r.value.category.Some? <==> docs[id].meta.category.Some?)
      && (r.value.category.Some? ==> r.value.category.value == Sanitized(docs[id].meta.category.value))
      && r.value.updatedAt
         == (if docs[id].meta.confirmedAt.Some? then docs[id].meta.confirmedAt.value else docs[id].meta.collectedAt)
  {}

  /** Its links are those to such pages. */
  lemma LinksAreShared(docs: map<FactId, Fact>, token: Token, id: FactId, r: Result<PageOut, ToolError>, l: FactId)
    requires PageAnswer(View(docs, token), Some(id), r) && r.Ok?
    ensures id in docs
    ensures (exists o :: o in r.value.links && o.id == l) <==>
      && l in docs[id].links && l in docs
      && (|| token.owner
          || (&& docs[l].meta.visibility == Shared && docs[l].meta.category.Some?
              && docs[l].meta.category.value in token.granted))
  {
    LinksAreVisible(View(docs, token), docs[id].links, l);
    ViewInFields(docs, token, l);
  }

  lemma {:induction false} LinksAreVisible(v: map<FactId, Fact>, links: seq<FactId>, l: FactId)
    ensures (exists o :: o in VisibleLinks(v, links) && o.id == l) <==> l in links && l in v
  {
    if links != [] {
      var init, last := links[..|links|-1], links[|links|-1];
      LinksAreVisible(v, init, l);
      assert links == init + [last];
      if last in v {
        var o := LinkOut(last, Sanitized(v[last].title));
        assert VisibleLinks(v, links) == VisibleLinks(v, init) + [o];
        assert o in VisibleLinks(v, links);
      }
    }
  }

  // ---- guides and categories -----------------------------------------------------------------------

  /** A guide lists exactly the stored facts filed under the category that, for a consumer, are
      shared and whose category is granted; and it is refused as absent if there is none. */
  lemma GuidesAreShared(lower: string -> string, docs: map<FactId, Fact>, token: Token, raw: string,
                        r: Result<GuideOut, ToolError>, id: FactId)
    requires Filed(docs) && GuideAnswer(lower, View(docs, token), Some(raw), r)
    requires Categories.Fits(Categories.Normalized(lower, raw))
    ensures r.Err? ==> r == Err(Refused(NotFound))
    ensures (r.Ok? && exists p :: p in r.value.pages && p.id == id) <==>
      && id in docs && docs[id].meta.category == Some(Categories.Normalized(lower, raw))
      && (token.owner || (docs[id].meta.visibility == Shared && Categories.Normalized(lower, raw) in token.granted))
  {
    var c := Categories.Normalized(lower, raw);
    var v := InCategory(View(docs, token), c);
    assert id in v <==>
      && id in docs && docs[id].meta.category == Some(c)
      && (token.owner || (docs[id].meta.visibility == Shared && c in token.granted));
    if r.Ok? {
      var pages :| IsRanked(v, pages) && r == Ok(GuideOut(Sanitized(c), ToGuidePages(pages)));
      GuideListsAll(v, pages, id);
    }
  }

  lemma GuideListsAll(v: map<FactId, Fact>, pages: seq<Fact>, id: FactId)
    requires Filed(v) && IsRanked(v, pages)
    ensures (exists p :: p in ToGuidePages(pages) && p.id == id) <==> id in v
  {
    var out := ToGuidePages(pages);
    if id in v {
      assert v[id] in pages;
      var i :| 0 <= i < |pages| && pages[i] == v[id];
      assert out[i].id == id;
    }
    if p :| p in out && p.id == id {
      var i :| 0 <= i < |out| && out[i] == p;
      assert pages[i] in pages;
    }
  }

  /** What the guide shows of a fact. */
  lemma GuidePageShows(facts: seq<Fact>, i: nat)
    requires i < |facts|
    ensures |ToGuidePages(facts)| == |facts|
    ensures var p, f := ToGuidePages(facts)[i], facts[i];
      && p.id == f.id && p.title == Sanitized(f.title)
      && p.excerpt == Wrap(if |f.body| <= 200 then f.body else f.body[..200] + "…")
  {}

  /** To a consumer without the grant a category is not found, whatever happens to the store. */
  lemma UngrantedIsNotFound(lower: string -> string, docs: map<FactId, Fact>, k: Knowledge, token: Token, raw: string,
                            r: Result<GuideOut, ToolError>)
    requires GuideReply(lower, k, token, View(docs, token), Some(raw), r)
    requires Categories.Fits(Categories.Normalized(lower, raw))
    requires !token.owner && Categories.Normalized(lower, raw) !in token.granted
    ensures r == Err(Refused(NotFound))
  {
    UngrantedIsEmpty(docs, token, Categories.Normalized(lower, raw));
  }

  /** The stored facts filed under a category that count for a token. */
  ghost function Countable(docs: map<FactId, Fact>, token: Token, c: Category): set<FactId> {
    set id | id in docs && docs[id].meta.category == Some(c)
             && (token.owner || (docs[id].meta.visibility == Shared && c in token.granted))
  }

  /** The categories listed are those with such a fact, each with their number. */
  lemma CountsAreShared(docs: map<FactId, Fact>, token: Token, r: Result<seq<CategoryOut>, ToolError>, c: Category)
    requires CategoriesAnswer(View(docs, token), r)
    ensures r.Ok?
    ensures Countable(docs, token, c) != {} ==> CategoryOut(Sanitized(c), |Countable(docs, token, c)|) in r.value
    ensures forall o | o in r.value :: exists d: Category :: Stands(docs, token, d, o)
  {
    var v := View(docs, token);
    var counts: seq<(string, nat)> :| IsCategoryCounts(v, counts) && r == Ok(ToCategories(counts));
    if Countable(docs, token, c) != {} {
      var i := CountListed(docs, token, counts, c);
      assert ToCategories(counts)[i] in ToCategories(counts);
    }
    forall o | o in r.value ensures exists d: Category :: Stands(docs, token, d, o) {
      EntryStands(docs, token, counts, o);
    }
  }

  lemma EntryStands(docs: map<FactId, Fact>, token: Token, counts: seq<(string, nat)>, o: CategoryOut)
    requires IsCategoryCounts(View(docs, token), counts) && o in ToCategories(counts)
    ensures exists d: Category :: Stands(docs, token, d, o)
  {
    var i :| 0 <= i < |counts| && ToCategories(counts)[i] == o;
    CountEntry(docs, token, counts, i);
  }

  /** This entry is the category `d` with the number of its countable facts. */
  ghost predicate Stands(docs: map<FactId, Fact>, token: Token, d: Category, o: CategoryOut) {
    Countable(docs, token, d) != {} && o == CategoryOut(Sanitized(d), |Countable(docs, token, d)|)
  }

  lemma CountListed(docs: map<FactId, Fact>, token: Token, counts: seq<(string, nat)>, c: Category) returns (i: nat)
    requires IsCategoryCounts(View(docs, token), counts) && Countable(docs, token, c) != {}
    ensures i < |counts| && Stands(docs, token, c, ToCategories(counts)[i])
  {
    CountableInView(docs, token, c);
    var e: (string, nat) :| e in counts && e.0 == c;
    i :| 0 <= i < |counts| && counts[i] == e;
  }

  lemma CountEntry(docs: map<FactId, Fact>, token: Token, counts: seq<(string, nat)>, i: nat)
    requires IsCategoryCounts(View(docs, token), counts) && i < |counts|
    ensures Stands(docs, token, counts[i].0, ToCategories(counts)[i])
  {
    assert counts[i] in counts;
    CountableInView(docs, token, counts[i].0);
  }

  lemma CountableInView(docs: map<FactId, Fact>, token: Token, c: Category)
    ensures Countable(docs, token, c) == InCategory(View(docs, token), c).Keys
    ensures |Countable(docs, token, c)| == |InCategory(View(docs, token), c)|
  {
    assert Countable(docs, token, c) == InCategory(View(docs, token), c).Keys;
    assert |InCategory(View(docs, token), c)| == |InCategory(View(docs, token), c).Keys|;
  }

  // ---- refusals --------------------------------------------------------------------------------------

  /** What a failing call of the store becomes for the caller: only absence is "not found". */
  lemma RefusalsTellApart(e: AppError)
    ensures ToToolError(ToAccessError(e)) == Refused(NotFound) <==> e.AppNotFound?
    ensures ToToolError(ToAccessError(e)) == Refused(Locked) <==> e.AppLocked?
    ensures ToToolError(ToAccessError(e)).BadArgument? <==> e.AppInvalidInput?
    ensures ToToolError(ToAccessError(e)) == Refused(Unavailable) <==>
      e.AppCrypto? || e.AppIo? || e.AppExternal? || e.AppSerde?
  {}
}
