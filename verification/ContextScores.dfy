/** What `persona/context.rs` promises of a context, in terms of the facts' own fields and
    of counted occurrences. */
module ContextScores {
  import opened Wrappers
  import opened Texts
  import opened Ordering
  import opened KnowledgeTypes
  import opened Tokenizer
  import opened ContextSelection
  import opened PersonaService

  // ---- terms -------------------------------------------------------------------------------

  /** The pieces with one character of `gaps` between any two. */
  function Woven(pieces: seq<string>, gaps: string): string
    requires |pieces| == |gaps| + 1
  {
    var n := |gaps|;
    if n == 0 then pieces[0] else Woven(pieces[..n], gaps[..n-1]) + [gaps[n-1]] + pieces[n]
  }

  ghost predicate CutAt(tb: Tables, q: string, pieces: seq<string>, gaps: string) {
    && |pieces| == |gaps| + 1 && q == Woven(pieces, gaps)
    && (forall c | c in gaps :: !tb.alnum(c)) && forall p, c | p in pieces && c in p :: tb.alnum(c)
  }

  /** The text cut at every character that is not alphanumeric. */
  ghost predicate IsCut(tb: Tables, q: string, pieces: seq<string>) {
    exists gaps :: CutAt(tb, q, pieces, gaps)
  }

  lemma CutLonger(tb: Tables, q: string, pieces: seq<string>, gaps: string, c: char)
    requires CutAt(tb, q, pieces, gaps)
    ensures tb.alnum(c) ==> CutAt(tb, q + [c], pieces[|gaps| := pieces[|gaps|] + [c]], gaps)
    ensures !tb.alnum(c) ==> CutAt(tb, q + [c], pieces + [[]], gaps + [c])
  {
    var n := |gaps|;
    if tb.alnum(c) {
      var more := pieces[n := pieces[n] + [c]];
      assert more[..n] == pieces[..n];
      assert Woven(more, gaps) == q + [c];
      forall p, d | p in more && d in p ensures tb.alnum(d) {
        assert p in pieces || p == pieces[n] + [c];
      }
    } else {
      assert (pieces + [[]])[..n+1] == pieces && (gaps + [c])[..n] == gaps;
      assert Woven(pieces + [[]], gaps + [c]) == q + [c];
    }
  }

  lemma {:induction false} PiecesAreCut(tb: Tables, q: string)
    ensures IsCut(tb, q, Pieces(tb, q))
  {
    if q == [] {
      assert CutAt(tb, q, [[]], []);
    } else {
      var init, ps := q[..|q|-1], Pieces(tb, q[..|q|-1]);
      PiecesAreCut(tb, init);
      var gaps :| CutAt(tb, init, ps, gaps);
      CutLonger(tb, init, ps, gaps, q[|q|-1]);
      assert q == init + [q[|q|-1]];
      assert ps[|gaps| := ps[|gaps|] + [q[|q|-1]]] == ps[..|ps|-1] + [ps[|ps|-1] + [q[|q|-1]]];
    }
  }

  /** Without its last character, which belonged to the last piece. */
  lemma CutShorter(tb: Tables, q: string, pieces: seq<string>, gaps: string, last: string, c: char)
    requires CutAt(tb, q, pieces, gaps) && pieces[|gaps|] == last + [c]
    ensures q != [] && q[|q|-1] == c && tb.alnum(c) && CutAt(tb, q[..|q|-1], pieces[|gaps| := last], gaps)
  {
    var init := pieces[|gaps| := last];
    assert init[..|gaps|] == pieces[..|gaps|];
    assert q == Woven(init, gaps) + [c];
    assert last + [c] in pieces && c in last + [c];
    forall p, d | p in init && d in p ensures tb.alnum(d) {
      assert p in pieces || (p == last && d in last + [c]);
    }
  }

  /** Without its last character, which cut off an empty piece. */
  lemma CutShorterGap(tb: Tables, q: string, pieces: seq<string>, gaps: string)
    requires CutAt(tb, q, pieces, gaps) && gaps != [] && pieces[|gaps|] == []
    ensures q != [] && !tb.alnum(q[|q|-1]) && CutAt(tb, q[..|q|-1], pieces[..|gaps|], gaps[..|gaps|-1])
  {
    var n := |gaps|;
    assert q == Woven(pieces[..n], gaps[..n-1]) + [gaps[n-1]];
    assert gaps[n-1] in gaps;
  }

  lemma {:induction false} CutIsPieces(tb: Tables, q: string, pieces: seq<string>, gaps: string)
    requires CutAt(tb, q, pieces, gaps)
    ensures pieces == Pieces(tb, q)
    decreases |q|
  {
    var n := |gaps|;
    var last := pieces[n];
    if last != [] {
      var shorter := last[..|last|-1];
      assert last == shorter + [last[|last|-1]];
      CutShorter(tb, q, pieces, gaps, shorter, last[|last|-1]);
      CutIsPieces(tb, q[..|q|-1], pieces[n := shorter], gaps);
      assert pieces == pieces[n := shorter][..n] + [last];
    } else if n > 0 {
      CutShorterGap(tb, q, pieces, gaps);
      CutIsPieces(tb, q[..|q|-1], pieces[..n], gaps[..n-1]);
      assert pieces == pieces[..n] + [[]];
    }
  }

  /** There is one way to cut a text, and it is the one the code computes. */
  lemma CutIffPieces(tb: Tables, q: string, pieces: seq<string>)
    ensures IsCut(tb, q, pieces) <==> pieces == Pieces(tb, q)
  {
    PiecesAreCut(tb, q);
    if IsCut(tb, q, pieces) {
      var gaps :| CutAt(tb, q, pieces, gaps);
      CutIsPieces(tb, q, pieces, gaps);
    }
  }

  // ---- occurrences ---------------------------------------------------------------------------

  /** Places where `t` stands in `s`, from left to right and without overlap. */
  ghost predicate StandsAt(s: string, t: string, at: seq<nat>) {
    forall k | 0 <= k < |at| :: OccursAt(s, t, at[k]) && (k > 0 ==> at[k-1] + |t| <= at[k])
  }

  /** `n` is the largest number of such places. */
  ghost predicate Counts(s: string, t: string, n: nat) {
    (exists at :: StandsAt(s, t, at) && |at| == n) && forall at | StandsAt(s, t, at) :: |at| <= n
  }

  function Moved(at: seq<nat>, d: int): seq<nat>
    requires forall k | 0 <= k < |at| :: at[k] + d >= 0
  {
    seq(|at|, k requires 0 <= k < |at| => at[k] + d)
  }

  lemma OccursLater(s: string, t: string, d: nat, i: nat)
    requires d <= |s|
    ensures OccursAt(s, t, d + i) <==> OccursAt(s[d..], t, i)
  {
    if d + i + |t| <= |s| { assert s[d..][i..i+|t|] == s[d+i..d+i+|t|]; }
  }

  lemma StandsFurther(s: string, t: string, d: nat, at: seq<nat>)
    requires d <= |s| && StandsAt(s[d..], t, at)
    ensures StandsAt(s, t, Moved(at, d))
  {
    forall k | 0 <= k < |at| ensures OccursAt(s, t, at[k] + d) { OccursLater(s, t, d, at[k]); }
  }

  lemma StandsNearer(s: string, t: string, d: int, at: seq<nat>)
    requires 0 <= d <= |s| && StandsAt(s, t, at) && (at != [] ==> at[0] >= d)
    ensures forall k | 0 <= k < |at| :: at[k] >= d
    ensures StandsAt(s[d..], t, Moved(at, -d))
  {
    for i := 0 to |at|
      invariant forall k | 0 <= k < i :: at[k] >= d
    {
      assert i > 0 ==> at[i-1] + |t| <= at[i];
    }
    forall k | 0 <= k < |at| ensures OccursAt(s[d..], t, at[k] - d) { OccursLater(s, t, d, at[k] - d); }
  }

  /** Counting greedily from the left finds as many places as there can be. */
  lemma {:induction false} GreedyCounts(s: string, t: string)
    requires t != []
    ensures Counts(s, t, Occurrences(s, t))
    decreases |s|
  {
    if |s| < |t| {
      assert StandsAt(s, t, []);
      forall at | StandsAt(s, t, at) ensures at == [] {
        assert at != [] ==> OccursAt(s, t, at[0]);
      }
    } else {
      var here := t <= s;
      var d := if here then |t| else 1;
      GreedyCounts(s[d..], t);
      var rest :| StandsAt(s[d..], t, rest) && |rest| == Occurrences(s[d..], t);
      StandsFurther(s, t, d, rest);
      if here { FirstStands(s, t, rest); }
      forall at | StandsAt(s, t, at) ensures |at| <= Occurrences(s, t) {
        AtMostGreedy(s, t, at);
      }
    }
  }

  lemma FirstStands(s: string, t: string, rest: seq<nat>)
    requires t != [] && t <= s && StandsAt(s[|t|..], t, rest)
    ensures StandsAt(s, t, [0] + Moved(rest, |t|))
  {
    StandsFurther(s, t, |t|, rest);
    var at := [0] + Moved(rest, |t|);
    forall k | 0 <= k < |at| ensures OccursAt(s, t, at[k]) && (k > 0 ==> at[k-1] + |t| <= at[k]) {
      assert k > 0 ==> at[k] == Moved(rest, |t|)[k-1];
      assert k > 1 ==> at[k-1] == Moved(rest, |t|)[k-2];
    }
  }

  lemma AtMostGreedy(s: string, t: string, at: seq<nat>)
    requires t != [] && |t| <= |s| && StandsAt(s, t, at)
    requires var d := if t <= s then |t| else 1; Counts(s[d..], t, Occurrences(s[d..], t))
    ensures |at| <= Occurrences(s, t)
  {
    if at != [] {
      assert OccursAt(s, t, at[0]);
      if t <= s {
        var tail := at[1..];
        forall k | 0 <= k < |tail| ensures OccursAt(s, t, tail[k]) && (k > 0 ==> tail[k-1] + |t| <= tail[k]) {
          assert tail[k] == at[k+1];
        }
        assert tail != [] ==> at[0] + |t| <= at[1];
        StandsNearer(s, t, |t|, tail);
      } else {
        assert at[0] != 0;
        StandsNearer(s, t, 1, at);
      }
    }
  }

  // ---- relevance ---------------------------------------------------------------------------

  function Total(ns: seq<nat>): nat {
    if ns == [] then 0 else Total(ns[..|ns|-1]) + ns[|ns|-1]
  }

  /** For every piece of at least two characters its number of occurrences, and nothing for
      shorter ones. */
  ghost predicate Tally(pieces: seq<string>, text: string, ns: seq<nat>) {
    |ns| == |pieces|
    && forall i | 0 <= i < |pieces| :: if |pieces[i]| >= 2 then Counts(text, pieces[i], ns[i]) else ns[i] == 0
  }

  /** How often the query's terms occur in a text, in the case-folded form of both. */
  ghost predicate Mentions(tb: Tables, query: string, text: string, n: nat) {
    exists pieces, ns :: IsCut(tb, tb.lower(query), pieces) && Tally(pieces, tb.lower(text), ns) && n == Total(ns)
  }

  /** A mention in the title weighs three times one in the body. */
  ghost predicate Weighs(tb: Tables, query: string, title: string, body: string, r: nat) {
    exists inTitle: nat, inBody: nat ::
      Mentions(tb, query, title, inTitle) && Mentions(tb, query, body, inBody) && r == 3 * inTitle + inBody
  }

  lemma {:induction false} TalliesSum(pieces: seq<string>, text: string, ns: seq<nat>)
    requires Tally(pieces, text, ns)
    ensures Total(ns) == SumHits(pieces, text)
  {
    if pieces != [] {
      var n := |pieces| - 1;
      TalliesSum(pieces[..n], text, ns[..n]);
      if |pieces[n]| >= 2 { SameCount(text, pieces[n], ns[n]); }
    }
  }

  lemma SameCount(s: string, t: string, n: nat)
    requires t != [] && Counts(s, t, n)
    ensures n == Occurrences(s, t)
  {
    GreedyCounts(s, t);
    var a :| StandsAt(s, t, a) && |a| == n;
    var b :| StandsAt(s, t, b) && |b| == Occurrences(s, t);
  }

  lemma TallyOf(pieces: seq<string>, text: string) returns (ns: seq<nat>)
    ensures Tally(pieces, text, ns)
  {
    ns := seq(|pieces|, i requires 0 <= i < |pieces| => if |pieces[i]| >= 2 then Occurrences(text, pieces[i]) else 0);
    forall i | 0 <= i < |pieces| && |pieces[i]| >= 2 ensures Counts(text, pieces[i], ns[i]) {
      GreedyCounts(text, pieces[i]);
    }
  }

  lemma HitsAreMentions(tb: Tables, query: string, text: string, n: nat)
    ensures Mentions(tb, query, text, n) <==> n == TermHits(tb, query, tb.lower(text))
  {
    var pieces := Pieces(tb, tb.lower(query));
    CutIffPieces(tb, tb.lower(query), pieces);
    var ns := TallyOf(pieces, tb.lower(text));
    TalliesSum(pieces, tb.lower(text), ns);
    if Mentions(tb, query, text, n) {
      var ps, ms :| IsCut(tb, tb.lower(query), ps) && Tally(ps, tb.lower(text), ms) && n == Total(ms);
      CutIffPieces(tb, tb.lower(query), ps);
      TalliesSum(ps, tb.lower(text), ms);
    }
  }

  /** The relevance of a fact is what it weighs. */
  lemma RelevanceIsWeight(tb: Tables, query: string, f: Fact, r: nat)
    ensures Weighs(tb, query, f.title, f.body, r) <==> r == Relevance(tb, query, f)
  {
    HitsAreMentions(tb, query, f.title, TermHits(tb, query, tb.lower(f.title)));
    HitsAreMentions(tb, query, f.body, TermHits(tb, query, tb.lower(f.body)));
    if Weighs(tb, query, f.title, f.body, r) {
      var a: nat, b: nat :| Mentions(tb, query, f.title, a) && Mentions(tb, query, f.body, b) && r == 3 * a + b;
      HitsAreMentions(tb, query, f.title, a);
      HitsAreMentions(tb, query, f.body, b);
    }
  }

  /** A fact scores exactly when a term of the query, of at least two characters, occurs in
      its title or in its body. */
  lemma PositiveIffTermOccurs(tb: Tables, query: string, title: string, body: string, pieces: seq<string>, r: nat)
    requires IsCut(tb, tb.lower(query), pieces) && Weighs(tb, query, title, body, r)
    ensures r > 0 <==>
      exists t :: t in pieces && |t| >= 2 && (Contains(tb.lower(title), t) || Contains(tb.lower(body), t))
  {
    var a: nat, b: nat :| Mentions(tb, query, title, a) && Mentions(tb, query, body, b) && r == 3 * a + b;
    CutIffPieces(tb, tb.lower(query), pieces);
    HitsAreMentions(tb, query, title, a);
    HitsAreMentions(tb, query, body, b);
    SumHitsPositive(pieces, tb.lower(title));
    SumHitsPositive(pieces, tb.lower(body));
  }

  // ---- what a context shows -------------------------------------------------------------------

  predicate Qualifies(sel: Selection, f: Fact) {
    f.meta.confirmed && (sel.scope.Some? ==> f.meta.scope == sel.scope.value)
  }

  /** The entry quotes this fact and says what it weighs. */
  ghost predicate Quotes(tb: Tables, query: string, e: Entry, f: Fact) {
    && e.id == f.id && e.title == f.title && e.body == f.body && e.scope == f.meta.scope
    && Weighs(tb, query, f.title, f.body, e.relevance)
  }

  predicate LaterThan(a: Option<Time>, b: Option<Time>) {
    match (a, b)
    case (Some(x), Some(y)) => x > y
    case (Some(_), None) => true
    case (None, _) => false
  }

  /** More relevant; or as relevant and confirmed later; or also confirmed at the same time
      and of a smaller id. */
  predicate Outranks(r: nat, f: Fact, r': nat, g: Fact) {
    r > r' || (r == r' && (LaterThan(f.meta.confirmedAt, g.meta.confirmedAt)
                           || (f.meta.confirmedAt == g.meta.confirmedAt && f.id < g.id)))
  }

  /** `quoted` are the facts behind the entries: some of these, each at most once. */
  ghost predicate Behind(tb: Tables, facts: seq<Fact>, query: string, sel: Selection, entries: seq<Entry>,
                         quoted: seq<Fact>) {
    && |quoted| == |entries|
    && (forall i | 0 <= i < |quoted| :: quoted[i] in facts && Qualifies(sel, quoted[i]))
    && (forall i | 0 <= i < |quoted| :: Quotes(tb, query, entries[i], quoted[i]))
    && (forall i, j | 0 <= i < j < |quoted| ::
          quoted[i].id != quoted[j].id && Outranks(entries[i].relevance, quoted[i], entries[j].relevance, quoted[j]))
  }

  /** The fact a chosen version was made of. */
  ghost predicate MadeOf(tb: Tables, facts: seq<Fact>, query: string, sel: Selection, k: Scored, f: Fact) {
    f in facts && Qualifies(sel, f) && Quotes(tb, query, k.entry, f) && k.confirmedAt == f.meta.confirmedAt
  }

  lemma FactBehind(tb: Tables, facts: seq<Fact>, query: string, sel: Selection, k: Scored) returns (f: Fact)
    requires Leads(Candidates(tb, query, sel, facts), k)
    ensures MadeOf(tb, facts, query, sel, k, f)
  {
    var cands := Candidates(tb, query, sel, facts);
    LeadersAreMostRelevant(cands, k);
    CandidatesMean(tb, query, sel, facts, k);
    f :| f in facts && Eligible(sel, f) && k == Score(tb, query, f);
    RelevanceIsWeight(tb, query, f, k.entry.relevance);
  }

  lemma FactsBehind(tb: Tables, facts: seq<Fact>, query: string, sel: Selection, kept: seq<Scored>)
    returns (quoted: seq<Fact>)
    requires forall i | 0 <= i < |kept| :: Leads(Candidates(tb, query, sel, facts), kept[i])
    ensures |quoted| == |kept| && forall i | 0 <= i < |kept| :: MadeOf(tb, facts, query, sel, kept[i], quoted[i])
  {
    quoted := [];
    for n := 0 to |kept|
      invariant |quoted| == n && forall i | 0 <= i < n :: MadeOf(tb, facts, query, sel, kept[i], quoted[i])
    {
      var f := FactBehind(tb, facts, query, sel, kept[n]);
      quoted := quoted + [f];
    }
  }

  lemma QuotedInOrder(tb: Tables, facts: seq<Fact>, query: string, sel: Selection, kept: seq<Scored>, quoted: seq<Fact>)
    requires SortedBy(kept, Best) && AllDiffer(kept, SameId) && |quoted| == |kept|
    requires forall i | 0 <= i < |kept| :: MadeOf(tb, facts, query, sel, kept[i], quoted[i])
    ensures Behind(tb, facts, query, sel, Entries(kept), quoted)
  {
    forall i, j | 0 <= i < j < |quoted|
      ensures quoted[i].id != quoted[j].id
        && Outranks(kept[i].entry.relevance, quoted[i], kept[j].entry.relevance, quoted[j])
    {
      assert MadeOf(tb, facts, query, sel, kept[i], quoted[i]) && MadeOf(tb, facts, query, sel, kept[j], quoted[j]);
      assert Best(kept[i], kept[j]) && !SameId(kept[i], kept[j]);
    }
  }

  /** Of this id something that weighs as much is quoted, or there is no room left and
      everything quoted weighs as much. */
  ghost predicate QuotedOrBeaten(entries: seq<Entry>, room: nat, id: FactId, r: nat) {
    || (exists i :: 0 <= i < |entries| && entries[i].id == id && entries[i].relevance >= r)
    || (|entries| == room && forall i | 0 <= i < |entries| :: entries[i].relevance >= r)
  }

  /** A context quotes at most `maxFacts` confirmed facts of the scope, each once and best
      first; what it leaves out while weighing more than something it quotes is another
      version of a fact it quotes. */
  lemma ContextQuotes(tb: Tables, facts: seq<Fact>, query: string, sel: Selection, total: nat, ctx: PersonaContext)
    returns (quoted: seq<Fact>)
    requires IsContext(tb, facts, query, sel, total, ctx)
    ensures |ctx.entries| <= sel.maxFacts && ctx.totalConfirmed == total
    ensures Behind(tb, facts, query, sel, ctx.entries, quoted)
    ensures forall g, r | g in facts && Qualifies(sel, g) && Weighs(tb, query, g.title, g.body, r) ::
      QuotedOrBeaten(ctx.entries, sel.maxFacts, g.id, r)
  {
    var cands := Candidates(tb, query, sel, facts);
    var kept :| IsChoice(cands, kept) && ctx == PersonaContext(Entries(Truncate(kept, sel.maxFacts)), total);
    var cut := Truncate(kept, sel.maxFacts);
    forall i | 0 <= i < |cut| ensures Leads(cands, cut[i]) { assert kept[i] in kept; }
    quoted := FactsBehind(tb, facts, query, sel, cut);
    QuotedInOrder(tb, facts, query, sel, cut, quoted);
    forall g, r | g in facts && Qualifies(sel, g) && Weighs(tb, query, g.title, g.body, r)
      ensures QuotedOrBeaten(ctx.entries, sel.maxFacts, g.id, r)
    {
      RelevanceIsWeight(tb, query, g, r);
      CandidatesMean(tb, query, sel, facts, Score(tb, query, g));
      ChosenOrBeaten(cands, kept, sel.maxFacts, Score(tb, query, g));
    }
  }

  lemma ChosenOrBeaten(cands: seq<Scored>, kept: seq<Scored>, n: nat, x: Scored)
    requires IsChoice(cands, kept) && x in cands
    ensures QuotedOrBeaten(Entries(Truncate(kept, n)), n, x.entry.id, x.entry.relevance)
  {
    var es := Entries(Truncate(kept, n));
    assert Represented(kept, x);
    var k :| k in kept && SameId(k, x);
    assert Leads(cands, k);
    LeadersAreMostRelevant(cands, k);
    var j :| 0 <= j < |kept| && kept[j] == k;
    if j < n {
      assert es[j] == k.entry;
    } else {
      forall i | 0 <= i < |es| ensures es[i].relevance >= x.entry.relevance {
        assert es[i] == kept[i].entry && Best(kept[i], kept[j]);
      }
    }
  }

  /** One mention more in the title weighs three more. */
  lemma TitleMentionsWeigh(tb: Tables, query: string, title: string, title': string, body: string, n: nat, m: nat,
                           r: nat, r': nat)
    requires Mentions(tb, query, title, n) && Mentions(tb, query, title', m)
    requires Weighs(tb, query, title, body, r) && Weighs(tb, query, title', body, r')
    ensures r - r' == 3 * (n - m)
  {
    var a: nat, b: nat :| Mentions(tb, query, title, a) && Mentions(tb, query, body, b) && r == 3 * a + b;
    var c: nat, d: nat :| Mentions(tb, query, title', c) && Mentions(tb, query, body, d) && r' == 3 * c + d;
    HitsAreMentions(tb, query, title, a);
    HitsAreMentions(tb, query, title, n);
    HitsAreMentions(tb, query, title', c);
    HitsAreMentions(tb, query, title', m);
    HitsAreMentions(tb, query, body, b);
    HitsAreMentions(tb, query, body, d);
  }

  /** With equal bodies, the fact whose title mentions the query more often goes first. */
  lemma TitleMentionsDecide(tb: Tables, facts: seq<Fact>, query: string, sel: Selection, total: nat,
                            ctx: PersonaContext, f: Fact, g: Fact, n: nat, m: nat, j: nat)
    returns (i: nat)
    requires IsContext(tb, facts, query, sel, total, ctx)
    requires f in facts && Qualifies(sel, f) && f.id != g.id && f.body == g.body
    requires Mentions(tb, query, f.title, n) && Mentions(tb, query, g.title, m) && n > m
    requires j < |ctx.entries| && Quotes(tb, query, ctx.entries[j], g)
    ensures i < j && ctx.entries[i].id == f.id
  {
    var quoted := ContextQuotes(tb, facts, query, sel, total, ctx);
    var r := Relevance(tb, query, f);
    RelevanceIsWeight(tb, query, f, r);
    TitleMentionsWeigh(tb, query, f.title, g.title, f.body, n, m, r, ctx.entries[j].relevance);
    assert QuotedOrBeaten(ctx.entries, sel.maxFacts, f.id, r);
    Descending(tb, facts, query, sel, ctx.entries, quoted);
    i := HeavierFirst(ctx.entries, sel.maxFacts, f.id, r, j);
  }

  lemma HeavierFirst(entries: seq<Entry>, room: nat, id: FactId, r: nat, j: nat) returns (i: nat)
    requires forall i, j | 0 <= i < j < |entries| :: entries[i].relevance >= entries[j].relevance
    requires QuotedOrBeaten(entries, room, id, r) && j < |entries| && entries[j].relevance < r
    ensures i < j && entries[i].id == id
  {
    i :| 0 <= i < |entries| && entries[i].id == id && entries[i].relevance >= r;
  }

  lemma Descending(tb: Tables, facts: seq<Fact>, query: string, sel: Selection, entries: seq<Entry>, quoted: seq<Fact>)
    requires Behind(tb, facts, query, sel, entries, quoted)
    ensures forall i, j | 0 <= i < j < |entries| :: entries[i].relevance >= entries[j].relevance
  {
    forall i, j | 0 <= i < j < |entries| ensures entries[i].relevance >= entries[j].relevance {
      assert Outranks(entries[i].relevance, quoted[i], entries[j].relevance, quoted[j]);
    }
  }

  // ---- what is fetched ------------------------------------------------------------------------

  /** A fact whose title mentions the prompt more often is fetched before any other; of
      equals the one of the smaller id. */
  lemma FetchedByTitle(tb: Tables, docs: map<FactId, Fact>, prompt: string, ids: set<FactId>, list: seq<FactSummary>,
                       i: nat, j: nat, n: nat, m: nat)
    requires IsShortlist(tb, docs, prompt, ids, list) && i < j < |list|
    requires Mentions(tb, prompt, list[i].title, n) && Mentions(tb, prompt, list[j].title, m)
    ensures n > m || (n == m && list[i].id <= list[j].id)
  {
    HitsAreMentions(tb, prompt, list[i].title, n);
    HitsAreMentions(tb, prompt, list[j].title, m);
    assert TitleOrder(tb, prompt)(list[i], list[j]);
  }

  lemma FetchedHas(get: FactId -> Result<Fact, StoreError>, list: seq<FactSummary>, i: nat)
    requires i < |list| && get(list[i].id).Ok?
    ensures get(list[i].id).value in Fetched(get, list)
  {
    if i + 1 < |list| {
      assert list[..|list|-1][i] == list[i];
      FetchedHas(get, list[..|list|-1], i);
    }
  }

  /** What a built context quotes is stored, confirmed and in scope; when all that is
      considered may be fetched, any considered fact left out weighs no more than what is
      quoted. */
  lemma BuiltQuotes(tb: Tables, docs: map<FactId, Fact>, k: Knowledge, sel: Selection, cap: nat, prompt: string,
                    ctx: PersonaContext)
    returns (quoted: seq<Fact>)
    requires Serves(tb, docs, k) && IsBuilt(tb, docs, k.get, sel, cap, prompt, ctx)
    ensures |ctx.entries| <= sel.maxFacts && ctx.totalConfirmed == |FoundConfirmed(tb, docs, "", sel.scope)|
    ensures Behind(tb, quoted, prompt, sel, ctx.entries, quoted)
    ensures forall f | f in quoted :: f.id in docs && docs[f.id] == f
    ensures Healthy(docs, k) && |Considered(tb, docs, prompt, sel)| <= cap ==>
      forall id, r | id in Considered(tb, docs, prompt, sel) && Qualifies(sel, docs[id])
                     && Weighs(tb, prompt, docs[id].title, docs[id].body, r) ::
        QuotedOrBeaten(ctx.entries, sel.maxFacts, id, r)
  {
    var ids, total := Considered(tb, docs, prompt, sel), |FoundConfirmed(tb, docs, "", sel.scope)|;
    var list :| IsShortlist(tb, docs, prompt, ids, list)
      && IsContext(tb, Fetched(k.get, Truncate(list, cap)), prompt, sel, total, ctx);
    var facts := Fetched(k.get, Truncate(list, cap));
    quoted := ContextQuotes(tb, facts, prompt, sel, total, ctx);
    forall f | f in quoted ensures f.id in docs && docs[f.id] == f {
      FetchedAreStored(tb, docs, k, Truncate(list, cap), f);
    }
    if Healthy(docs, k) && |ids| <= cap { AllFetched(tb, docs, k, prompt, ids, list, cap); }
  }

  /** Where the shortlist fits, everything considered is fetched. */
  lemma AllFetched(tb: Tables, docs: map<FactId, Fact>, k: Knowledge, prompt: string, ids: set<FactId>,
                   list: seq<FactSummary>, cap: nat)
    requires Serves(tb, docs, k) && Healthy(docs, k) && ids <= docs.Keys && |ids| <= cap
    requires IsShortlist(tb, docs, prompt, ids, list)
    ensures forall id | id in ids :: docs[id] in Fetched(k.get, Truncate(list, cap))
  {
    ShortlistSize(tb, docs, prompt, ids, list);
    assert Truncate(list, cap) == list;
    forall id | id in ids ensures docs[id] in Fetched(k.get, list) {
      assert Summarize(docs[id]) in list;
      var i :| 0 <= i < |list| && list[i] == Summarize(docs[id]);
      assert k.get(id).Ok?;
      FetchedHas(k.get, list, i);
    }
  }

  lemma ShortlistSize(tb: Tables, docs: map<FactId, Fact>, prompt: string, ids: set<FactId>, list: seq<FactSummary>)
    requires Filed(docs) && ids <= docs.Keys && IsShortlist(tb, docs, prompt, ids, list)
    ensures |list| == |ids|
  {
    forall i, j | 0 <= i < j < |list| ensures list[i].id != list[j].id {
      assert list[i] in list && list[j] in list;
    }
    CountByIds(docs, list, ids);
  }
}
