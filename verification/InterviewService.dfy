/** `InterviewService` of `interview/service.rs`, working in place on the stored queue. Any
    store or knowledge call may fail, as the outage schedule says, and a failing write may
    have taken effect; the clock never runs backwards. */
module InterviewService {
  import opened Wrappers
  import opened Texts
  import opened Ordering
  import opened Sources
  import opened KnowledgeTypes
  import opened Similarity
  import opened InterviewQueue
  import Masker
  import KnowledgeProtocol

  /** How a store or knowledge call ends. */
  datatype Fate = Fine | Fails(took: bool)

  datatype Error = InvalidInput | NotFound | StoreFailed | KnowledgeFailed

  datatype AnswerInput = Choice(choice: string) | Text(text: string) | Skip

  datatype AnswerResult = AnswerResult(fact: Option<Fact>, followUps: seq<Item>)

  const MAX_FOLLOW_UPS: nat := 3
  const TITLE_CHARS: nat := 80
  const MORE_ABOUT := "에 대해 더 알려주세요"
  const REJECTIONS := {"no", "n", "reject", "false", "x", "아니오", "아니요", "아니", "아님"}

  predicate Affirmative(lower: string -> string, choice: string) {
    Trim(choice) != [] && lower(Trim(choice)) !in REJECTIONS
  }

  predicate BlankAnswer(answer: AnswerInput) {
    match answer
    case Choice(c) => Trim(c) == []
    case Text(t) => Trim(t) == []
    case Skip => false
  }

  /** Does this answer to this item put a fact into the knowledge base? */
  predicate Confirms(lower: string -> string, kind: Kind, answer: AnswerInput) {
    !answer.Skip? && !BlankAnswer(answer)
    && (kind.Confirm? && answer.Choice? ==> Affirmative(lower, answer.choice))
  }

  /** The fact such an answer amounts to has no title, and is refused. */
  predicate Untitled(kind: Kind) {
    match kind
    case Confirm(c) => Trim(c.title) == []
    case Deepen(question, _) => Trim(question) == []
  }

  function FactFromCandidate(id: FactId, c: Candidate, now: Time): Fact {
    Fact(id, c.title, c.body, [],
      FactMeta(c.source, c.collectedAt, true, c.suggestedScope, Some(now), c.visibility, None, c.topics, c.kind))
  }

  /** The two times are read one after the other. */
  function FactFromDeepen(id: FactId, question: string, text: string, collected: Time, confirmed: Time): Fact {
    var t := Trim(question);
    var title := if |t| <= TITLE_CHARS then t else t[..TITLE_CHARS];
    Fact(id, title, text, [], FactMeta(Session, collected, true, Unknown, Some(confirmed), Private, None, [], Practice))
  }

  /** What the recorded fact says: the candidate, with the owner's correction if there was
      one, or the owner's own words, which nobody else gets to see by default. */
  ghost predicate Records(kind: Kind, answer: AnswerInput, f: Fact) {
    && f.meta.confirmed && f.meta.confirmedAt.Some? && f.meta.category == None && f.links == []
    && match kind
       case Confirm(c) =>
         && f.title == c.title && f.body == (if answer.Text? then answer.text else c.body)
         && f.meta.scope == c.suggestedScope && f.meta.visibility == c.visibility && f.meta.topics == c.topics
         && f.meta.source == c.source && f.meta.collectedAt == c.collectedAt && f.meta.kind == c.kind
       case Deepen(question, _) =>
         && f.title == (if |Trim(question)| <= 80 then Trim(question) else Trim(question)[..80])
         && (answer.Text? ==> f.body == answer.text) && (answer.Choice? ==> f.body == answer.choice)
         && f.meta.visibility == Private && f.meta.scope == Unknown && f.meta.topics == []
         && f.meta.source == Session && f.meta.kind == Practice
  }

  /** What taking an answer did to the knowledge base: one fact, confirmed at the time of the
      answer, if the answer confirms anything, and nothing otherwise. */
  ghost predicate Accepted(lower: string -> string, kind: Kind, answer: AnswerInput, at: Time,
                           before: seq<Fact>, facts: seq<Fact>, fact: Option<Fact>) {
    && (fact.Some? <==> Confirms(lower, kind, answer))
    && facts == before + (if fact.Some? then [fact.value] else [])
    && (fact.Some? ==> Records(kind, answer, fact.value) && fact.value.meta.confirmedAt == Some(at))
  }

  /** Refused before anything happens: a blank answer, or one that would confirm a fact
      without a title. */
  predicate Refused(lower: string -> string, kind: Kind, answer: AnswerInput) {
    BlankAnswer(answer) || (Confirms(lower, kind, answer) && Untitled(kind))
  }

  /** After a failure: no fact is recorded, or the one the answer amounts to is. */
  ghost predicate MayHaveRecorded(before: seq<Fact>, kind: Kind, answer: AnswerInput, facts: seq<Fact>) {
    facts == before || exists f :: facts == before + [f] && Records(kind, answer, f)
  }

  /** A title is blank only if what it was taken from is. */
  lemma TitleOfQuestion(id: FactId, question: string, text: string, collected: Time, confirmed: Time)
    ensures Trim(FactFromDeepen(id, question, text, collected, confirmed).title) == [] <==> Trim(question) == []
  {
    var t, title := Trim(question), FactFromDeepen(id, question, text, collected, confirmed).title;
    TrimEmptyIffBlank(title);
    if t != [] {
      TrimmedStart(question);
      assert title[0] == t[0];
    }
  }

  /** A question about a label, with what the label's placeholders stand for. */
  predicate IsFollowUp(up: Item, about: string, entries: seq<Masker.Entry>) {
    up.kind == Deepen(Masker.Unmask(about, entries) + MORE_ABOUT, None) && up.priority == 0 && up.expiresAt.None?
  }

  /** The question as it is offered: scored and dated. */
  ghost predicate AsksAbout(item: Item, about: string, entries: seq<Masker.Entry>) {
    && item.kind == Deepen(Masker.Unmask(about, entries) + "에 대해 더 알려주세요", None)
    && item.priority == 125 && item.expiresAt == Some(item.createdAt + 2_592_000)
  }

  /** One question for each of the first three labels of the answer, in order. */
  ghost predicate AskedAbout(offers: seq<Offer>, labels: Option<seq<string>>, entries: seq<Masker.Entry>) {
    && |offers| == (if labels.None? then 0 else if |labels.value| < 3 then |labels.value| else 3)
    && forall k | 0 <= k < |offers| :: AsksAbout(offers[k].item, labels.value[k], entries)
  }

  /** The offers of the first of these items, finalized. */
  ghost predicate OffersOf(ups: seq<Item>, offers: seq<Offer>) {
    |offers| <= |ups| && forall k | 0 <= k < |offers| :: offers[k].item == Finalize(ups[k])
  }

  /** A question for each of the first labels. */
  ghost predicate DerivedFrom(ups: seq<Item>, labels: Option<seq<string>>, entries: seq<Masker.Entry>) {
    && |ups| == (if labels.None? then 0 else if |labels.value| < MAX_FOLLOW_UPS then |labels.value| else MAX_FOLLOW_UPS)
    && forall k | 0 <= k < |ups| :: IsFollowUp(ups[k], labels.value[k], entries)
  }

  lemma FollowUpOffered(up: Item, about: string, entries: seq<Masker.Entry>)
    requires IsFollowUp(up, about, entries)
    ensures AsksAbout(Finalize(up), about, entries)
  {}

  lemma FollowUpsOffered(ups: seq<Item>, offers: seq<Offer>, labels: Option<seq<string>>, entries: seq<Masker.Entry>)
    requires DerivedFrom(ups, labels, entries) && OffersOf(ups, offers) && |offers| == |ups|
    ensures AskedAbout(offers, labels, entries)
  {
    forall k | 0 <= k < |offers| ensures AsksAbout(offers[k].item, labels.value[k], entries) {
      FollowUpOffered(ups[k], labels.value[k], entries);
    }
  }

  /** Of these items none is more important. */
  ghost predicate MostImportant(items: map<ItemId, Item>, ids: set<ItemId>, id: ItemId) {
    id in ids && id in items && forall i | i in ids && i in items :: items[i].priority <= items[id].priority
  }

  /** An answered item leaving the queue after its follow-ups were offered is one step of the
      queue's runs. */
  lemma AnsweredIsEvent(fd: Folding, s: State, id: ItemId, offers: seq<Offer>)
    requires id in s.items
    ensures After(fd, s, Event.Answer(id, offers)).items == OfferedAll(fd, s, offers).items - {id}
  {}

  function WordsOf(answer: AnswerInput): string {
    match answer
    case Text(t) => t
    case Choice(c) => c
    case Skip => ""
  }

  /** A generated question is never blank, whatever the label. */
  lemma FollowUpNotBlank(up: Item, about: string)
    requires up.kind == Deepen(about + MORE_ABOUT, None)
    ensures !BlankQuestion(up) && !BlankQuestion(Finalize(up))
  {
    var q := about + MORE_ABOUT;
    TrimEmptyIffBlank(q);
    assert q[|about|] == MORE_ABOUT[0] && !IsWhite(MORE_ABOUT[0]);
  }

  lemma FinalizeTwice(item: Item)
    ensures Finalize(Finalize(item)) == Finalize(item)
  {}

  // ---- the ids a sweep deletes --------------------------------------------------------------

  function DeadIds(order: seq<Item>, now: Time): seq<ItemId> {
    if order == [] then []
    else DeadIds(order[..|order|-1], now) + if IsExpired(order[|order|-1], now) then [order[|order|-1].id] else []
  }

  ghost function Elems<T>(xs: seq<T>): set<T> {
    set x | x in xs
  }

  lemma {:induction false} DeadMeans(order: seq<Item>, now: Time, id: ItemId)
    ensures id in DeadIds(order, now) <==> exists item :: item in order && item.id == id && IsExpired(item, now)
  {
    if order != [] {
      DeadMeans(order[..|order|-1], now, id);
      assert order == order[..|order|-1] + [order[|order|-1]];
    }
  }

  lemma {:induction false} AliveDistinct(order: seq<Item>, now: Time)
    requires forall i, j | 0 <= i < j < |order| :: order[i].id != order[j].id
    ensures forall i, j | 0 <= i < j < |Alive(order, now)| :: Alive(order, now)[i].id != Alive(order, now)[j].id
  {
    if order != [] {
      var init, last := order[..|order|-1], order[|order|-1];
      AliveDistinct(init, now);
      forall x | x in Alive(init, now) ensures x.id != last.id {
        AliveMeans(init, now, x);
        var i :| 0 <= i < |init| && init[i] == x;
        assert order[i] == x;
      }
    }
  }

  lemma NoDupFromCounts<T>(xs: seq<T>)
    requires forall x :: multiset(xs)[x] <= 1
    ensures NoDup(xs)
  {
    forall i, j | 0 <= i < j < |xs| ensures xs[i] != xs[j] {
      TwiceCounted(xs, i, j);
    }
  }

  /** Each item is either kept or dropped, and dropped once. */
  lemma KeptOrDropped(fd: Folding, alive: seq<Item>)
    requires NoDup(alive)
    ensures var s := Swept(fd, alive);
      && NoDup(Dropped(s.drops))
      && (forall x :: x in alive <==> x in s.kept || x in Dropped(s.drops))
      && (forall x | x in s.kept :: x !in Dropped(s.drops))
  {
    var s := Swept(fd, alive);
    SweepConserves(fd, alive);
    NoDupMultiset(alive);
    assert forall x :: multiset(alive)[x] == multiset(s.kept)[x] + multiset(Dropped(s.drops))[x];
    NoDupFromCounts(Dropped(s.drops));
    forall x ensures x in alive <==> x in s.kept || x in Dropped(s.drops) {
      assert x in s.kept <==> multiset(s.kept)[x] > 0;
      assert x in Dropped(s.drops) <==> multiset(Dropped(s.drops))[x] > 0;
    }
  }

  function IdsOfDrops(drops: seq<Drop>): seq<ItemId> {
    seq(|drops|, i requires 0 <= i < |drops| => drops[i].item.id)
  }

  ghost predicate IdsDistinct(xs: seq<Item>) {
    forall i, j | 0 <= i < j < |xs| :: xs[i].id != xs[j].id
  }

  lemma SameItem(xs: seq<Item>, a: Item, b: Item)
    requires IdsDistinct(xs) && a in xs && b in xs && a.id == b.id
    ensures a == b
  {
    var i :| 0 <= i < |xs| && xs[i] == a;
    var j :| 0 <= j < |xs| && xs[j] == b;
  }

  lemma OtherItem(xs: seq<Item>, a: Item, b: Item)
    requires IdsDistinct(xs) && a in xs && b in xs && a != b
    ensures a.id != b.id
  {
    if a.id == b.id { SameItem(xs, a, b); }
  }

  /** The ids a sweep takes out as duplicates are distinct, and are those of the items that
      are alive but not kept. */
  lemma DropIdsMean(fd: Folding, alive: seq<Item>)
    requires IdsDistinct(alive)
    ensures var s := Swept(fd, alive);
      NoDup(IdsOfDrops(s.drops)) && forall x | x in alive :: x.id in IdsOfDrops(s.drops) <==> x !in s.kept
    ensures forall id | id in IdsOfDrops(Swept(fd, alive).drops) :: exists x :: x in alive && x.id == id
  {
    var s := Swept(fd, alive);
    var gone := Dropped(s.drops);
    KeptOrDropped(fd, alive);
    assert forall i | 0 <= i < |s.drops| :: gone[i] in alive && IdsOfDrops(s.drops)[i] == gone[i].id;
    forall i, j | 0 <= i < j < |s.drops| ensures IdsOfDrops(s.drops)[i] != IdsOfDrops(s.drops)[j] {
      if gone[i].id == gone[j].id { SameItem(alive, gone[i], gone[j]); }
    }
    forall x | x in alive ensures x.id in IdsOfDrops(s.drops) <==> x !in s.kept {
      if x.id in IdsOfDrops(s.drops) {
        var i :| 0 <= i < |s.drops| && IdsOfDrops(s.drops)[i] == x.id;
        SameItem(alive, gone[i], x);
      }
      if x !in s.kept {
        var i :| 0 <= i < |gone| && gone[i] == x;
        assert IdsOfDrops(s.drops)[i] == x.id;
      }
    }
  }

  /** What a sweep deletes: the expired, then the duplicates. */
  ghost function SweptIds(fd: Folding, order: seq<Item>, now: Time): set<ItemId> {
    Elems(DeadIds(order, now)) + Elems(IdsOfDrops(Swept(fd, Alive(order, now)).drops))
  }

  lemma LiveNotDead(order: seq<Item>, now: Time, x: Item)
    requires IdsDistinct(order) && x in order && !IsExpired(x, now)
    ensures x.id !in DeadIds(order, now)
  {
    DeadMeans(order, now, x.id);
    forall y | y in order && y.id == x.id ensures !IsExpired(y, now) {
      SameItem(order, x, y);
    }
  }

  lemma GoneIffNotKept(fd: Folding, items: map<ItemId, Item>, order: seq<Item>, now: Time, id: ItemId)
    requires Keyed(items) && IsListing(items, order) && id in items
    ensures (id in DeadIds(order, now) || id in IdsOfDrops(Swept(fd, Alive(order, now)).drops))
        <==> items[id] !in Swept(fd, Alive(order, now)).kept
  {
    var alive := Alive(order, now);
    var x := items[id];
    AliveDistinct(order, now);
    AliveMeans(order, now, x);
    DeadMeans(order, now, id);
    DropIdsMean(fd, alive);
    KeptOrDropped(fd, alive);
    assert x in order && x.id == id;
    if IsExpired(x, now) {
      assert x !in alive;
    } else {
      LiveNotDead(order, now, x);
    }
  }

  /** Deleting the expired and then the duplicates leaves the swept queue. */
  lemma DeletedIsExpired(fd: Folding, items: map<ItemId, Item>, order: seq<Item>, now: Time)
    requires Keyed(items) && IsListing(items, order)
    ensures items - SweptIds(fd, order, now) == Expired(fd, items, order, now)
  {
    forall id | id in items
      ensures (id in DeadIds(order, now) || id in IdsOfDrops(Swept(fd, Alive(order, now)).drops))
          <==> items[id] !in Swept(fd, Alive(order, now)).kept
    {
      GoneIffNotKept(fd, items, order, now, id);
    }
  }

  lemma LossKeepsApart(fd: Folding, items: map<ItemId, Item>, gone: set<ItemId>, now: Time, now': Time)
    requires now <= now'
    ensures NoTwins(fd, items, now) ==> NoTwins(fd, items - gone, now')
  {
    if NoTwins(fd, items, now) { FewerAndLater(fd, items, now, items - gone, now'); }
  }

  lemma WaitKeepsApart(fd: Folding, items: map<ItemId, Item>, now: Time, now': Time)
    requires now <= now'
    ensures NoTwins(fd, items, now) ==> NoTwins(fd, items, now')
  {
    if NoTwins(fd, items, now) { FewerAndLater(fd, items, now, items, now'); }
  }

  /** The queue has taken these offers, by the time `t`. */
  ghost predicate Took(fd: Folding, before: State, offers: seq<Offer>, items: map<ItemId, Item>, t: Time) {
    var s := OfferedAll(fd, before, offers);
    items == s.items && s.now <= t
  }

  lemma TookMore(fd: Folding, before: State, offers: seq<Offer>, items: map<ItemId, Item>, t: Time, item: Item,
                 t': Time)
    requires Took(fd, before, offers, items, t) && t <= t'
    ensures Took(fd, before, offers + [Offer(item, t)], Offered(fd, items, item, t), t')
  {
    assert (offers + [Offer(item, t)])[..|offers|] == offers;
  }

  /** Only offered items are reported. */
  ghost predicate FromOffers(added: seq<Item>, offers: seq<Offer>) {
    forall up | up in added :: exists o :: o in offers && o.item == up
  }

  lemma FromMoreOffers(added: seq<Item>, offers: seq<Offer>, o: Offer)
    requires FromOffers(added, offers)
    ensures FromOffers(added, offers + [o]) && FromOffers(added + [o.item], offers + [o])
  {
    var more := offers + [o];
    assert more[|offers|] == o;
    forall up | up in added ensures exists x :: x in more && x.item == up {
      var x :| x in offers && x.item == up;
      assert x in more;
    }
  }

  /** No offer has the id of something that is stored when it is made. */
  ghost predicate FreshIds(fd: Folding, before: State, offers: seq<Offer>) {
    forall k | 0 <= k < |offers| :: offers[k].item.id !in OfferedAll(fd, before, offers[..k]).items
  }

  /** The offered items that were stored, and not turned away for a duplicate. */
  ghost function StoredOf(fd: Folding, before: State, offers: seq<Offer>): seq<Item> {
    if offers == [] then []
    else
      var init, o := offers[..|offers|-1], offers[|offers|-1];
      var s := OfferedAll(fd, before, init);
      StoredOf(fd, before, init)
      + if Beaten(fd, s.items, Finalize(o.item), Later(s.now, o.at)) then [] else [o.item]
  }

  /** What is reported about offers: those that were stored, and nothing that was not offered. */
  ghost predicate Reports(fd: Folding, before: State, offers: seq<Offer>, added: seq<Item>) {
    FromOffers(added, offers) && (FreshIds(fd, before, offers) ==> added == StoredOf(fd, before, offers))
  }

  /** One more offer: it is reported if the answer to it names it. */
  lemma ReportsMore(fd: Folding, before: State, offers: seq<Offer>, items: map<ItemId, Item>, t: Time, up: Item,
                    added: seq<Item>, stored: ItemId)
    requires Took(fd, before, offers, items, t) && Reports(fd, before, offers, added)
    requires if Beaten(fd, items, Finalize(up), t) then stored in Dups(fd, items, Finalize(up), t) else stored == up.id
    ensures Reports(fd, before, offers + [Offer(up, t)], if stored == up.id then added + [up] else added)
  {
    var more := offers + [Offer(up, t)];
    FromMoreOffers(added, offers, Offer(up, t));
    assert more[..|offers|] == offers;
    if FreshIds(fd, before, more) {
      assert up.id !in OfferedAll(fd, before, more[..|offers|]).items by { assert more[|offers|].item == up; }
      forall k | 0 <= k < |offers| ensures offers[k].item.id !in OfferedAll(fd, before, offers[..k]).items {
        assert more[k] == offers[k] && more[..k] == offers[..k];
      }
    }
  }

  lemma OfferKeepsApart(fd: Folding, items: map<ItemId, Item>, item: Item, now: Time, now': Time)
    requires now <= now' && Keyed(items)
    ensures Keyed(Offered(fd, items, item, now))
    ensures NoTwins(fd, items, now) ==> NoTwins(fd, Offered(fd, items, item, now), now')
  {
    if NoTwins(fd, items, now) {
      OfferedKeepsNoTwins(fd, items, item, now);
      FewerAndLater(fd, Offered(fd, items, item, now), now, Offered(fd, items, item, now), now');
    }
  }

  function ItemIds(xs: seq<Item>): seq<ItemId> {
    seq(|xs|, i requires 0 <= i < |xs| => xs[i].id)
  }

  lemma DupsListed(fd: Folding, items: map<ItemId, Item>, order: seq<Item>, it: Item, now: Time, dups: seq<Item>)
    requires Keyed(items) && IsListing(items, order)
    requires forall e :: e in dups <==> e in order && !IsExpired(e, now) && Near(fd, e.kind, it.kind)
    ensures Elems(ItemIds(dups)) == Dups(fd, items, it, now)
    ensures forall e | e in dups :: e.id in Dups(fd, items, it, now) && items[e.id] == e
    ensures Beaten(fd, items, it, now) <==> exists e :: e in dups && e.priority >= it.priority
  {
    var ids := ItemIds(dups);
    forall id ensures id in ids <==> id in Dups(fd, items, it, now) {
      if id in ids {
        var i :| 0 <= i < |ids| && ids[i] == id;
        assert dups[i] in dups;
      }
      if id in Dups(fd, items, it, now) {
        assert items[id] in dups;
        var i :| 0 <= i < |dups| && dups[i] == items[id];
        assert ids[i] == id;
      }
    }
    if Beaten(fd, items, it, now) {
      var id :| id in items && id in Dups(fd, items, it, now) && items[id].priority >= it.priority;
      assert items[id] in dups;
    }
  }

  /** Nothing but some of the duplicates of `it` is missing. */
  ghost predicate SomeGone(fd: Folding, items: map<ItemId, Item>, it: Item, now: Time, left: map<ItemId, Item>) {
    exists gone :: gone <= Dups(fd, items, it, now) && left == items - gone
  }

  lemma NoneGone(fd: Folding, items: map<ItemId, Item>, it: Item, now: Time)
    ensures SomeGone(fd, items, it, now, items)
  {
    assert items - {} == items;
  }

  lemma PrefixElems<T>(xs: seq<T>, n: nat)
    requires n <= |xs|
    ensures Elems(xs[..n]) <= Elems(xs)
  {}

  lemma DropsStillThere(fd: Folding, items: map<ItemId, Item>, order: seq<Item>, now: Time)
    requires Keyed(items) && IsListing(items, order)
    ensures forall id | id in IdsOfDrops(Swept(fd, Alive(order, now)).drops) :: id in items - Elems(DeadIds(order, now))
  {
    var alive := Alive(order, now);
    AliveDistinct(order, now);
    DropIdsMean(fd, alive);
    forall id | id in IdsOfDrops(Swept(fd, alive).drops) ensures id in items - Elems(DeadIds(order, now)) {
      var x :| x in alive && x.id == id;
      AliveMeans(order, now, x);
      LiveNotDead(order, now, x);
    }
  }

  lemma NextDead(order: seq<Item>, now: Time, i: nat)
    requires IdsDistinct(order) && i < |order|
    ensures DeadIds(order[..i+1], now)
         == DeadIds(order[..i], now) + if IsExpired(order[i], now) then [order[i].id] else []
    ensures Alive(order[..i+1], now) == Alive(order[..i], now) + if IsExpired(order[i], now) then [] else [order[i]]
    ensures order[i].id !in DeadIds(order[..i], now)
  {
    assert order[..i+1][..i] == order[..i];
    DeadMeans(order[..i], now, order[i].id);
  }

  lemma {:induction false} DeadDistinct(order: seq<Item>, now: Time)
    requires IdsDistinct(order)
    ensures NoDup(DeadIds(order, now))
  {
    if order != [] {
      var n := |order| - 1;
      DeadDistinct(order[..n], now);
      assert order[..n+1] == order;
      NextDead(order, now, n);
    }
  }

  lemma MinusMore(m: map<ItemId, Item>, s: set<ItemId>, id: ItemId)
    ensures m - s - {id} == m - (s + {id})
  {}

  lemma MinusBoth(m: map<ItemId, Item>, s: set<ItemId>, t: set<ItemId>)
    ensures m - s - t == m - (s + t)
  {}

  lemma MinusSize(m: map<ItemId, Item>, s: set<ItemId>)
    requires s <= m.Keys
    ensures |m - s| + |s| == |m|
  {
    assert (m - s).Keys == m.Keys - s;
    assert |m.Keys| == |m| && |(m - s).Keys| == |m - s|;
  }

  /** As many items are gone as were deleted: nothing is deleted twice. */
  lemma SweepCounts(fd: Folding, items: map<ItemId, Item>, order: seq<Item>, now: Time)
    requires Keyed(items) && IsListing(items, order)
    ensures |DeadIds(order, now)| + |Swept(fd, Alive(order, now)).drops| + |Expired(fd, items, order, now)| == |items|
  {
    var dead, twins := DeadIds(order, now), IdsOfDrops(Swept(fd, Alive(order, now)).drops);
    DeadDistinct(order, now);
    AliveDistinct(order, now);
    DropIdsMean(fd, Alive(order, now));
    DropsStillThere(fd, items, order, now);
    NoDupSetSize(dead);
    NoDupSetSize(twins);
    forall id | id in dead ensures id in items { DeadMeans(order, now, id); }
    MinusSize(items, Elems(dead));
    MinusSize(items - Elems(dead), Elems(twins));
    MinusBoth(items, Elems(dead), Elems(twins));
    DeletedIsExpired(fd, items, order, now);
  }

  lemma ElemsMore<T>(xs: seq<T>, x: T)
    ensures Elems(xs + [x]) == Elems(xs) + {x}
  {}

  /** The kept indices and the removal list of the sweep so far. */
  ghost predicate Tracks(alive: seq<Item>, kept: seq<nat>, gone: seq<ItemId>, s: Sweep) {
    && |kept| == |s.kept| && gone == IdsOfDrops(s.drops)
    && forall k | 0 <= k < |kept| :: kept[k] < |alive| && alive[kept[k]] == s.kept[k]
  }

  lemma TracksStep(fd: Folding, alive: seq<Item>, kept: seq<nat>, gone: seq<ItemId>, s: Sweep, i: nat)
    requires Tracks(alive, kept, gone, s) && i < |alive|
    ensures var item, pos := alive[i], FirstNear(fd, s.kept, alive[i].kind); var s' := SweepStep(fd, s, item);
      if pos == |kept| then Tracks(alive, kept + [i], gone, s')
      else if item.priority > alive[kept[pos]].priority then
        Tracks(alive, kept[pos := i], gone + [alive[kept[pos]].id], s')
      else Tracks(alive, kept, gone + [item.id], s')
  {
    var pos := FirstNear(fd, s.kept, alive[i].kind);
    var s' := SweepStep(fd, s, alive[i]);
    if pos < |kept| {
      DropIdsMore(s.drops, s'.drops[|s.drops|]);
    }
  }

  lemma DropIdsMore(drops: seq<Drop>, d: Drop)
    ensures IdsOfDrops(drops + [d]) == IdsOfDrops(drops) + [d.item.id]
  {}

  lemma {:induction false} FirstNearIs(fd: Folding, kept: seq<Item>, k: Kind, pos: nat)
    requires pos <= |kept| && (pos < |kept| ==> Near(fd, kept[pos].kind, k))
    requires forall i | 0 <= i < pos :: !Near(fd, kept[i].kind, k)
    ensures FirstNear(fd, kept, k) == pos
  {
    if kept != [] && !Near(fd, kept[0].kind, k) {
      FirstNearIs(fd, kept[1..], k, pos - 1);
    }
  }

  lemma ShownIs(items: map<ItemId, Item>, order: seq<Item>, now: Time, sort: QueueSort)
    requires Keyed(items) && IsListing(items, order)
    ensures IsShown(items, now, sort, Sort(Alive(order, now), OrderOf(sort)))
  {
    var alive := Alive(order, now);
    var shown := Sort(alive, OrderOf(sort));
    AliveDistinct(order, now);
    SortPermutes(alive, OrderOf(sort));
    SortSorts(alive, OrderOf(sort));
    assert NoDup(alive);
    PermutationKeepsNoDup(alive, shown);
    forall item ensures item in shown <==> item.id in items && items[item.id] == item && !IsExpired(item, now) {
      AliveMeans(order, now, item);
    }
    forall i, j | 0 <= i < j < |shown| ensures shown[i].id != shown[j].id {
      assert shown[i] in alive && shown[j] in alive && shown[i] != shown[j];
      OtherItem(alive, shown[i], shown[j]);
    }
  }

  // ---- the service ----------------------------------------------------------------------------

  class InterviewService {
    const fd: Folding
    const lower: string -> string
    const clock: nat -> Time
    const fate: nat -> Fate
    /** `Masker::mask`: the masked text and the placeholders with their originals. */
    const mask: string -> (string, seq<Masker.Entry>)
    /** The classifier's labels for a text, none when it is down. */
    const classify: string -> Option<seq<string>>
    const newId: nat -> nat
    /** The stored queue. */
    var items: map<ItemId, Item>
    /** Everything handed to the knowledge base. */
    var facts: seq<Fact>
    var ticks: nat
    var calls: nat
    var ids: nat

    ghost predicate Valid()
      reads `items
    {
      Keyed(items) && forall i: nat, j: nat | i <= j :: clock(i) <= clock(j)
    }

    /** The queue invariant, at the next reading of the clock. */
    ghost predicate Apart()
      reads `items, `ticks
    {
      NoTwins(fd, items, clock(ticks))
    }

    constructor (fd: Folding, lower: string -> string, clock: nat -> Time, fate: nat -> Fate,
                 mask: string -> (string, seq<Masker.Entry>), classify: string -> Option<seq<string>>,
                 newId: nat -> nat)
      requires forall i: nat, j: nat | i <= j :: clock(i) <= clock(j)
      ensures Valid() && Apart() && items == map[] && facts == []
    {
      this.fd, this.lower, this.clock, this.fate, this.newId := fd, lower, clock, fate, newId;
      this.mask, this.classify := mask, classify;
      items, facts, ticks, calls, ids := map[], [], 0, 0, 0;
    }

    method Now() returns (t: Time)
      modifies `ticks
      ensures t == clock(old(ticks)) && ticks == old(ticks) + 1
    {
      t := clock(ticks);
      ticks := ticks + 1;
    }

    /** Every store and knowledge call goes well. */
    ghost predicate NoOutage() {
      forall n :: fate(n).Fine?
    }

    method Attempt() returns (f: Fate)
      modifies `calls
      ensures f == fate(old(calls)) && calls == old(calls) + 1
    {
      f := fate(calls);
      calls := calls + 1;
    }

    method NewId() returns (id: nat)
      modifies `ids
    {
      id := newId(ids);
      ids := ids + 1;
    }

    method List() returns (order: Option<seq<Item>>)
      requires Keyed(items)
      modifies `calls
      ensures order.Some? ==> IsListing(items, order.value)
      ensures NoOutage() ==> order.Some?
    {
      var f := Attempt();
      if !f.Fine? { return None; }
      var out: seq<Item> := [];
      var todo := items.Keys;
      ghost var done: set<ItemId> := {};
      while todo != {}
        invariant done + todo == items.Keys && done !! todo
        invariant IdsDistinct(out) && forall item | item in out :: item.id in done && items[item.id] == item
        invariant forall id | id in done :: items[id] in out
        decreases todo
      {
        var id :| id in todo;
        out, todo, done := out + [items[id]], todo - {id}, done + {id};
      }
      order := Some(out);
    }

    method Delete(id: ItemId) returns (ok: bool)
      modifies `calls, `items
      ensures items == old(items) - {id} || (!ok && items == old(items))
      ensures NoOutage() ==> ok
    {
      var f := Attempt();
      ok := f.Fine?;
      if ok || f.took { items := items - {id}; }
    }

    method Put(item: Item) returns (ok: bool)
      modifies `calls, `items
      ensures items == old(items)[item.id := item] || (!ok && items == old(items))
      ensures NoOutage() ==> ok
    {
      var f := Attempt();
      ok := f.Fine?;
      if ok || f.took { items := items[item.id := item]; }
    }

    /** Delete them all; after a failure some are left. */
    method DeleteAll(gone: seq<ItemId>) returns (ok: bool, removed: nat, ghost done: set<ItemId>)
      modifies `calls, `items
      ensures items == old(items) - done && done <= Elems(gone)
      ensures ok ==> removed == |gone| && done == Elems(gone)
      ensures NoOutage() ==> ok
    {
      ok, removed, done := true, 0, {};
      assert old(items) - {} == old(items);
      for i := 0 to |gone|
        invariant ok && removed == i && done == Elems(gone[..i]) && items == old(items) - done
      {
        PrefixElems(gone, i);
        assert gone[..i+1] == gone[..i] + [gone[i]];
        ElemsMore(gone[..i], gone[i]);
        MinusMore(old(items), done, gone[i]);
        PrefixElems(gone, i + 1);
        ghost var was := items;
        ok := Delete(gone[i]);
        if items != was { done := done + {gone[i]}; }
        if !ok { return; }
        removed, done := removed + 1, done + {gone[i]};
      }
      assert gone[..|gone|] == gone;
    }

    /** The unexpired duplicates in a listing, and the first of the most important. */
    method FindDups(order: seq<Item>, it: Item, now: Time) returns (dups: seq<Item>)
      requires IsListing(items, order)
      ensures forall e :: e in dups <==> e in order && !IsExpired(e, now) && Near(fd, e.kind, it.kind)
    {
      dups := [];
      for i := 0 to |order|
        invariant forall e :: e in dups <==> e in order[..i] && !IsExpired(e, now) && Near(fd, e.kind, it.kind)
      {
        assert order[..i+1] == order[..i] + [order[i]];
        if !IsExpired(order[i], now) && Near(fd, order[i].kind, it.kind) { dups := dups + [order[i]]; }
      }
      assert order[..|order|] == order;
    }

    method Best(dups: seq<Item>) returns (best: Item)
      requires dups != []
      ensures best in dups && forall e | e in dups :: e.priority <= best.priority
    {
      best := dups[0];
      for i := 1 to |dups|
        invariant best in dups && forall k | 0 <= k < i :: dups[k].priority <= best.priority
      {
        if dups[i].priority >= best.priority { best := dups[i]; }
      }
    }

    /** The queue as the owner sees it, without what has expired. */
    method Pending(sort: QueueSort) returns (r: Option<seq<Item>>)
      requires Valid()
      modifies `ticks, `calls
      ensures r.Some? ==> IsShown(items, clock(old(ticks)), sort, r.value)
      ensures NoOutage() ==> r.Some?
    {
      var now := Now();
      var order := List();
      if order.None? { return None; }
      var alive := Alive(order.value, now);
      ShownIs(items, order.value, now, sort);
      r := Some(Sort(alive, OrderOf(sort)));
    }

    /** Put an item in the place of its duplicates. */
    method Replace(gone: seq<ItemId>, it: Item) returns (ok: bool, ghost done: set<ItemId>, ghost put: bool)
      modifies `items, `calls
      ensures done <= Elems(gone) && (put ==> done == Elems(gone)) && (ok ==> put)
      ensures items == if put then (old(items) - done)[it.id := it] else old(items) - done
      ensures NoOutage() ==> ok
    {
      put := false;
      var count;
      ok, count, done := DeleteAll(gone);
      if ok {
        ghost var left := items;
        ok := Put(it);
        put := ok || items != left;
      }
    }

    /** Offer an item. When every store call succeeds the queue is as `Offered` says and
        the answer names what now stands for the item; when one fails, at most some of
        the duplicates that were about to be replaced are gone, or all is done already. */
    method Enqueue(item: Item) returns (r: Result<ItemId, Error>)
      requires Valid()
      modifies `items, `ticks, `calls
      ensures Valid() && (old(Apart()) ==> Apart())
      ensures r == Err(InvalidInput) <==> BlankQuestion(item)
      ensures r.Err? ==> r.error.InvalidInput? || r.error.StoreFailed?
      ensures BlankQuestion(item) ==> items == old(items)
      ensures NoOutage() ==> (r.Ok? <==> !BlankQuestion(item))
      ensures r.Ok? ==> ticks == old(ticks) + 1 && items == Offered(fd, old(items), item, clock(old(ticks)))
      ensures r.Ok? ==> r.value in items && items[r.value].priority >= Finalize(item).priority
      ensures r.Ok? ==>
        if Beaten(fd, old(items), Finalize(item), clock(old(ticks)))
        then MostImportant(old(items), Dups(fd, old(items), Finalize(item), clock(old(ticks))), r.value)
        else r.value == item.id
      ensures r.Err? ==> SomeGone(fd, old(items), Finalize(item), clock(old(ticks)), items)
                         || items == Offered(fd, old(items), item, clock(old(ticks)))
    {
      NoneGone(fd, items, Finalize(item), clock(ticks));
      if item.kind.Deepen? && Trim(item.kind.question) == [] {
        return Err(InvalidInput);
      }
      var it := Finalize(item);
      var now := Now();
      WaitKeepsApart(fd, items, now, clock(ticks));
      OfferKeepsApart(fd, items, item, now, clock(ticks));
      var order := List();
      if order.None? {
        return Err(StoreFailed);
      }
      var dups := FindDups(order.value, it, now);
      DupsListed(fd, items, order.value, it, now, dups);
      if dups != [] {
        var best := Best(dups);
        if best.priority >= it.priority {
          return Ok(best.id);
        }
      }
      var ok, done, put := Replace(ItemIds(dups), it);
      assert !put ==> SomeGone(fd, old(items), it, now, old(items) - done);
      LossKeepsApart(fd, old(items), done, now, clock(ticks));
      r := if ok then Ok(item.id) else Err(StoreFailed);
    }

    /** First pass of the sweep: delete what has expired, remember the rest. */
    method DeleteExpired(order: seq<Item>, now: Time)
      returns (ok: bool, alive: seq<Item>, removed: nat, ghost done: set<ItemId>)
      requires IdsDistinct(order)
      modifies `calls, `items
      ensures items == old(items) - done
      ensures NoOutage() ==> ok
      ensures ok ==> alive == Alive(order, now)
      ensures ok ==> removed == |DeadIds(order, now)| && done == Elems(DeadIds(order, now))
    {
      ok, alive, removed, done := true, [], 0, {};
      assert old(items) - {} == old(items);
      for i := 0 to |order|
        invariant ok && alive == Alive(order[..i], now) && removed == |DeadIds(order[..i], now)|
        invariant done == Elems(DeadIds(order[..i], now)) && items == old(items) - done
      {
        NextDead(order, now, i);
        if IsExpired(order[i], now) {
          ElemsMore(DeadIds(order[..i], now), order[i].id);
          MinusMore(old(items), done, order[i].id);
          ghost var was := items;
          ok := Delete(order[i].id);
          if items != was { done := done + {order[i].id}; }
          if !ok { return; }
          removed, done := removed + 1, done + {order[i].id};
        } else {
          alive := alive + [order[i]];
        }
      }
      assert order[..|order|] == order;
    }

    method FirstKept(alive: seq<Item>, kept: seq<nat>, k: Kind, ghost s: Sweep) returns (pos: nat)
      requires Tracks(alive, kept, IdsOfDrops(s.drops), s)
      ensures pos == FirstNear(fd, s.kept, k)
    {
      pos := 0;
      while pos < |kept| && !Near(fd, alive[kept[pos]].kind, k)
        invariant pos <= |kept| && forall i | 0 <= i < pos :: !Near(fd, s.kept[i].kind, k)
      {
        pos := pos + 1;
      }
      FirstNearIs(fd, s.kept, k, pos);
    }

    /** One item of the second pass. */
    method PlaceItem(alive: seq<Item>, i: nat, kept: seq<nat>, gone: seq<ItemId>, ghost s: Sweep)
      returns (kept': seq<nat>, gone': seq<ItemId>)
      requires i < |alive| && Tracks(alive, kept, gone, s)
      ensures Tracks(alive, kept', gone', SweepStep(fd, s, alive[i]))
    {
      TracksStep(fd, alive, kept, gone, s, i);
      var pos := FirstKept(alive, kept, alive[i].kind, s);
      if pos == |kept| {
        kept', gone' := kept + [i], gone;
      } else if alive[i].priority > alive[kept[pos]].priority {
        kept', gone' := kept[pos := i], gone + [alive[kept[pos]].id];
      } else {
        kept', gone' := kept, gone + [alive[i].id];
      }
    }

    /** Second pass: compare each item against the ones already kept. */
    method FindTwins(alive: seq<Item>) returns (gone: seq<ItemId>)
      ensures gone == IdsOfDrops(Swept(fd, alive).drops)
    {
      var kept: seq<nat> := [];
      gone := [];
      for i := 0 to |alive|
        invariant Tracks(alive, kept, gone, Swept(fd, alive[..i]))
      {
        assert alive[..i+1] == alive[..i] + [alive[i]];
        SweptMore(fd, alive[..i], alive[i]);
        kept, gone := PlaceItem(alive, i, kept, gone, Swept(fd, alive[..i]));
      }
      assert alive[..|alive|] == alive;
    }

    /** The sweep over one listing. */
    method SweepListed(order: seq<Item>, now: Time) returns (ok: bool, removed: nat, ghost done: set<ItemId>)
      requires IdsDistinct(order)
      modifies `calls, `items
      ensures items == old(items) - done
      ensures NoOutage() ==> ok
      ensures ok ==> done == SweptIds(fd, order, now)
      ensures ok ==> removed == |DeadIds(order, now)| + |Swept(fd, Alive(order, now)).drops|
    {
      var alive;
      ok, alive, removed, done := DeleteExpired(order, now);
      if !ok { return; }
      var gone := FindTwins(alive);
      var twins: nat;
      ghost var doneTwins: set<ItemId>;
      ok, twins, doneTwins := DeleteAll(gone);
      MinusBoth(old(items), done, doneTwins);
      removed, done := removed + twins, done + doneTwins;
    }

    /** Sweep the queue. The number returned is the number of items that are gone. */
    method Expire() returns (r: Result<nat, Error>, ghost order: seq<Item>)
      requires Valid()
      modifies `items, `ticks, `calls
      ensures Valid() && (old(Apart()) ==> Apart())
      ensures r.Ok? ==> IsListing(old(items), order) && items == Expired(fd, old(items), order, clock(old(ticks)))
      ensures r.Ok? ==> r.value + |items| == |old(items)|
      ensures r.Err? ==> r == Err(StoreFailed) && exists gone :: items == old(items) - gone
      ensures NoOutage() ==> r.Ok?
    {
      var now := Now();
      var listed := List();
      assert old(items) - {} == old(items);
      WaitKeepsApart(fd, items, now, clock(ticks));
      if listed.None? { return Err(StoreFailed), []; }
      var ok, removed, done := SweepListed(listed.value, now);
      LossKeepsApart(fd, old(items), done, now, clock(ticks));
      order := listed.value;
      if !ok { return Err(StoreFailed), order; }
      DeletedIsExpired(fd, old(items), order, now);
      SweepCounts(fd, old(items), order, now);
      r := Ok(removed);
    }

    /** Questions about what the classifier saw in the masked answer, with the originals back
        in place of placeholders; none when it is down. */
    method DeriveFollowUps(answer: string) returns (ups: seq<Item>)
      modifies `ticks, `ids
      ensures ticks >= old(ticks)
      ensures DerivedFrom(ups, classify(mask(answer).0), mask(answer).1)
      ensures forall up | up in ups :: !BlankQuestion(Finalize(up))
    {
      var (masked, entries) := mask(answer);
      var labels := classify(masked);
      ups := [];
      if labels.Some? {
        while |ups| < MAX_FOLLOW_UPS && |ups| < |labels.value|
          invariant ticks >= old(ticks) && |ups| <= MAX_FOLLOW_UPS && |ups| <= |labels.value|
          invariant forall k | 0 <= k < |ups| :: IsFollowUp(ups[k], labels.value[k], entries)
        {
          var restored := Masker.Unmask(labels.value[|ups|], entries);
          var id := NewId();
          var now := Now();
          ups := ups + [Item(id, Deepen(restored + MORE_ABOUT, None), 0, now, None)];
        }
        forall up | up in ups ensures !BlankQuestion(Finalize(up)) {
          var k :| 0 <= k < |ups| && ups[k] == up;
          FollowUpNotBlank(up, Masker.Unmask(labels.value[k], entries));
        }
      }
    }

    /** Offer one more follow-up, and report it if it was added. */
    method OfferNext(up: Item, added: seq<Item>, ghost before: State, ghost offers: seq<Offer>)
      returns (ok: bool, added': seq<Item>, ghost offers': seq<Offer>)
      requires Valid() && !BlankQuestion(Finalize(up))
      requires Took(fd, before, offers, items, clock(ticks)) && Reports(fd, before, offers, added)
      modifies `items, `ticks, `calls
      ensures Valid() && (old(Apart()) ==> Apart())
      ensures offers' == offers + if ok then [Offer(Finalize(up), clock(old(ticks)))] else []
      ensures ok ==> Took(fd, before, offers', items, clock(ticks)) && Reports(fd, before, offers', added')
      ensures NoOutage() ==> ok
    {
      var it := Finalize(up);
      ghost var was, t := items, clock(ticks);
      var stored := Enqueue(it);
      ok, added', offers' := stored.Ok?, added, offers;
      if ok {
        TookMore(fd, before, offers, was, t, it, clock(ticks));
        ReportsMore(fd, before, offers, was, t, it, added, stored.value);
        offers' := offers + [Offer(it, t)];
        if stored.value == it.id { added' := added + [it]; }
      }
    }

    /** Offer the follow-ups one after another, reporting those that were added. */
    method OfferFollowUps(ups: seq<Item>, ghost start: Time)
      returns (r: Result<seq<Item>, Error>, ghost offers: seq<Offer>)
      requires Valid() && start <= clock(ticks)
      requires forall up | up in ups :: !BlankQuestion(Finalize(up))
      modifies `items, `ticks, `calls
      ensures Valid() && (old(Apart()) ==> Apart())
      ensures |offers| <= |ups| && (r.Err? ==> r == Err(StoreFailed))
      ensures OffersOf(ups, offers) && (r.Ok? ==> |offers| == |ups|)
      ensures NoOutage() ==> r.Ok?
      ensures r.Ok? ==> items == OfferedAll(fd, State(old(items), start), offers).items
      ensures r.Ok? ==> Reports(fd, State(old(items), start), offers, r.value)
    {
      var added: seq<Item> := [];
      offers := [];
      ghost var before := State(items, start);
      for i := 0 to |ups|
        invariant Valid() && (old(Apart()) ==> Apart())
        invariant |offers| == i && OffersOf(ups, offers)
        invariant Took(fd, before, offers, items, clock(ticks)) && Reports(fd, before, offers, added)
      {
        var ok;
        ok, added, offers := OfferNext(ups[i], added, before, offers);
        if !ok { return Err(StoreFailed), offers; }
      }
      r := Ok(added);
    }

    /** Record the fact an answer amounts to. A fact that must not be stored is refused at
        once; after any other failure it may have been stored all the same. */
    method RecordFact(f: Fact) returns (r: Result<(), Error>)
      modifies `facts, `calls
      ensures r == Err(InvalidInput) <==> !KnowledgeProtocol.Acceptable(f)
      ensures r.Err? ==> r.error.InvalidInput? || r.error.KnowledgeFailed?
      ensures facts == old(facts) + [f] || (r.Err? && facts == old(facts))
      ensures r == Err(InvalidInput) ==> facts == old(facts)
      ensures NoOutage() ==> r.Ok? || r == Err(InvalidInput)
    {
      if !KnowledgeProtocol.Acceptable(f) { return Err(InvalidInput); }
      var fate := Attempt();
      if fate.Fine? || fate.took { facts := facts + [f]; }
      r := if fate.Fine? then Ok(()) else Err(KnowledgeFailed);
    }

    /** A confirmation: a correction or an affirmative choice records the candidate, any
        other choice discards it. */
    method TakeConfirm(candidate: Candidate, answer: AnswerInput) returns (r: Result<Option<Fact>, Error>)
      requires !answer.Skip? && !BlankAnswer(answer)
      modifies `ticks, `calls, `ids, `facts
      ensures ticks >= old(ticks)
      ensures r == Err(InvalidInput) <==> Confirms(lower, Confirm(candidate), answer) && Untitled(Confirm(candidate))
      ensures r.Err? ==> r.error.InvalidInput? || r.error.KnowledgeFailed?
      ensures r.Ok? ==> (r.value.Some? <==> Confirms(lower, Confirm(candidate), answer))
      ensures r.Ok? ==> facts == old(facts) + if r.value.Some? then [r.value.value] else []
      ensures r.Ok? && r.value.Some? ==> Records(Confirm(candidate), answer, r.value.value)
      ensures r.Ok? && r.value.Some? ==> r.value.value.meta.confirmedAt == Some(clock(old(ticks)))
      ensures NoOutage() ==> r.Ok? || r == Err(InvalidInput)
      ensures r.Err? ==> MayHaveRecorded(old(facts), Confirm(candidate), answer, facts)
      ensures r == Err(InvalidInput) ==> facts == old(facts)
    {
      if answer.Choice? && !Affirmative(lower, answer.choice) { return Ok(None); }
      var id := NewId();
      var now := Now();
      var f := FactFromCandidate(id, candidate, now);
      if answer.Text? { f := f.(body := answer.text); }
      var recorded := RecordFact(f);
      r := if recorded.Ok? then Ok(Some(f)) else Err(recorded.error);
    }

    method RecordDeepen(question: string, hypothesis: Option<string>, answer: AnswerInput)
      returns (r: Result<Fact, Error>)
      requires !answer.Skip?
      modifies `ticks, `calls, `ids, `facts
      ensures ticks >= old(ticks)
      ensures r == Err(InvalidInput) <==> Untitled(Deepen(question, hypothesis))
      ensures r.Err? ==> r.error.InvalidInput? || r.error.KnowledgeFailed?
      ensures r.Ok? ==> facts == old(facts) + [r.value] && Records(Deepen(question, hypothesis), answer, r.value)
      ensures r.Ok? ==> r.value.meta.collectedAt == clock(old(ticks))
      ensures r.Ok? ==> r.value.meta.confirmedAt == Some(clock(old(ticks) + 1))
      ensures NoOutage() ==> r.Ok? || r == Err(InvalidInput)
      ensures r.Err? ==> MayHaveRecorded(old(facts), Deepen(question, hypothesis), answer, facts)
      ensures r == Err(InvalidInput) ==> facts == old(facts)
    {
      var id := NewId();
      var collected := Now();
      var confirmed := Now();
      var text := WordsOf(answer);
      var fact := FactFromDeepen(id, question, text, collected, confirmed);
      TitleOfQuestion(id, question, text, collected, confirmed);
      var recorded := RecordFact(fact);
      r := if recorded.Ok? then Ok(fact) else Err(recorded.error);
    }

    /** An open answer: it is recorded as said, then its follow-ups are offered. */
    method TakeDeepen(question: string, hypothesis: Option<string>, answer: AnswerInput, ghost start: Time)
      returns (r: Result<AnswerResult, Error>, ghost offers: seq<Offer>)
      requires !answer.Skip? && Valid() && start <= clock(ticks)
      modifies `items, `ticks, `calls, `ids, `facts
      ensures Valid() && (old(Apart()) ==> Apart())
      ensures |offers| <= MAX_FOLLOW_UPS
      ensures r.Ok? ==> AskedAbout(offers, classify(mask(WordsOf(answer)).0), mask(WordsOf(answer)).1)
      ensures r.Ok? ==> r.value.fact.Some? && r.value.fact.value.meta.collectedAt == clock(old(ticks))
      ensures r.Ok? ==> r.value.fact.value.meta.confirmedAt == Some(clock(old(ticks) + 1))
      ensures NoOutage() ==> r.Ok? || r == Err(InvalidInput)
      ensures r.Ok? ==> items == OfferedAll(fd, State(old(items), start), offers).items
      ensures r.Ok? ==> r.value.fact.Some? && facts == old(facts) + [r.value.fact.value]
      ensures r.Ok? ==> Records(Deepen(question, hypothesis), answer, r.value.fact.value)
      ensures r.Ok? ==> Reports(fd, State(old(items), start), offers, r.value.followUps)
      ensures r.Err? ==> MayHaveRecorded(old(facts), Deepen(question, hypothesis), answer, facts)
      ensures r.Err? && facts == old(facts) ==> items == old(items)
      ensures r == Err(InvalidInput) <==> Untitled(Deepen(question, hypothesis))
      ensures r == Err(InvalidInput) ==> facts == old(facts)
      ensures r.Err? ==> !r.error.NotFound?
    {
      offers := [];
      var recorded := RecordDeepen(question, hypothesis, answer);
      WaitKeepsApart(fd, items, clock(old(ticks)), clock(ticks));
      if recorded.Err? { return Err(recorded.error), []; }
      assert |facts| == |old(facts)| + 1;
      var ups := DeriveFollowUps(WordsOf(answer));
      WaitKeepsApart(fd, items, clock(old(ticks)), clock(ticks));
      var offered;
      offered, offers := OfferFollowUps(ups, start);
      if offered.Err? { return Err(offered.error), offers; }
      FollowUpsOffered(ups, offers, classify(mask(WordsOf(answer)).0), mask(WordsOf(answer)).1);
      r := Ok(AnswerResult(Some(recorded.value), offered.value));
    }

    /** An answer that says something, to either kind of item. */
    method TakeAnswer(kind: Kind, answer: AnswerInput, ghost start: Time)
      returns (r: Result<AnswerResult, Error>, ghost offers: seq<Offer>)
      requires !answer.Skip? && !BlankAnswer(answer) && Valid() && start <= clock(ticks)
      modifies `items, `ticks, `calls, `ids, `facts
      ensures Valid() && (old(Apart()) ==> Apart())
      ensures |offers| <= MAX_FOLLOW_UPS && (kind.Confirm? ==> offers == [] && items == old(items))
      ensures r.Ok? && kind.Deepen? ==> AskedAbout(offers, classify(mask(WordsOf(answer)).0), mask(WordsOf(answer)).1)
      ensures r.Ok? ==> Accepted(lower, kind, answer, clock(old(ticks) + if kind.Deepen? then 1 else 0),
                                 old(facts), facts, r.value.fact)
      ensures NoOutage() ==> (r.Ok? <==> !Refused(lower, kind, answer))
      ensures r.Ok? ==> items == OfferedAll(fd, State(old(items), start), offers).items
      ensures r.Ok? ==> Reports(fd, State(old(items), start), offers, r.value.followUps)
      ensures r.Err? ==> MayHaveRecorded(old(facts), kind, answer, facts)
      ensures r.Err? && facts == old(facts) ==> items == old(items)
      ensures r == Err(InvalidInput) <==> Refused(lower, kind, answer)
      ensures r == Err(InvalidInput) ==> facts == old(facts)
      ensures r.Err? ==> !r.error.NotFound?
    {
      offers := [];
      match kind {
        case Confirm(candidate) =>
          var taken := TakeConfirm(candidate, answer);
          WaitKeepsApart(fd, items, clock(old(ticks)), clock(ticks));
          r := if taken.Err? then Err(taken.error) else Ok(AnswerResult(taken.value, []));
        case Deepen(question, hypothesis) =>
          r, offers := TakeDeepen(question, hypothesis, answer, start);
      }
    }

    /** The answered item leaves the queue. */
    method Withdraw(id: ItemId) returns (ok: bool)
      requires Valid()
      modifies `calls, `items
      ensures Valid() && (old(Apart()) ==> Apart())
      ensures items == old(items) - {id} || (!ok && items == old(items))
      ensures NoOutage() ==> ok
    {
      LossKeepsApart(fd, items, {id}, clock(ticks), clock(ticks));
      ok := Delete(id);
    }

    /** An answer that says something is taken, and its item leaves the queue. */
    method Settle(id: ItemId, answer: AnswerInput, ghost start: Time)
      returns (r: Result<AnswerResult, Error>, ghost offers: seq<Offer>)
      requires !answer.Skip? && !BlankAnswer(answer) && Valid() && start <= clock(ticks) && id in items
      modifies `items, `ticks, `calls, `ids, `facts
      ensures Valid() && (old(Apart()) ==> Apart())
      ensures |offers| <= MAX_FOLLOW_UPS && (old(items)[id].kind.Confirm? ==> offers == [])
      ensures r.Ok? && old(items)[id].kind.Deepen? ==>
        AskedAbout(offers, classify(mask(WordsOf(answer)).0), mask(WordsOf(answer)).1)
      ensures r.Ok? ==> Accepted(lower, old(items)[id].kind, answer,
                                 clock(old(ticks) + if old(items)[id].kind.Deepen? then 1 else 0),
                                 old(facts), facts, r.value.fact)
      ensures NoOutage() ==> (r.Ok? <==> !Refused(lower, old(items)[id].kind, answer))
      ensures r.Ok? ==> items == OfferedAll(fd, State(old(items), start), offers).items - {id}
      ensures r.Ok? ==> Reports(fd, State(old(items), start), offers, r.value.followUps)
      ensures r.Err? ==> MayHaveRecorded(old(facts), old(items)[id].kind, answer, facts)
      ensures r.Err? && facts == old(facts) ==>
        items == old(items) || (!Confirms(lower, old(items)[id].kind, answer) && items == old(items) - {id})
      ensures r == Err(InvalidInput) <==> Refused(lower, old(items)[id].kind, answer)
      ensures r == Err(InvalidInput) ==> facts == old(facts) && items == old(items)
      ensures r.Err? ==> !r.error.NotFound?
    {
      r, offers := TakeAnswer(items[id].kind, answer, start);
      if r.Ok? {
        var ok := Withdraw(id);
        r := if ok then r else Err(StoreFailed);
      }
    }

    /** Take the owner's answer. A skipped item stays; an accepted answer records exactly one
        fact, a rejection none; either way the item leaves the queue, after its follow-ups
        have been offered. A failure that records nothing changes nothing, except that a
        rejected item may be gone. */
    method Answer(id: ItemId, answer: AnswerInput) returns (r: Result<AnswerResult, Error>, ghost offers: seq<Offer>)
      requires Valid()
      modifies `items, `ticks, `calls, `ids, `facts
      ensures Valid() && (old(Apart()) ==> Apart())
      ensures r.Ok? ==> id in old(items) && !BlankAnswer(answer)
      ensures r.Ok? && answer.Skip? ==> r.value == AnswerResult(None, []) && items == old(items)
      ensures r.Ok? && !answer.Skip? ==>
        items == OfferedAll(fd, State(old(items), clock(old(ticks))), offers).items - {id}
      ensures r.Ok? && !answer.Skip? && old(items)[id].kind.Deepen? ==>
        AskedAbout(offers, classify(mask(WordsOf(answer)).0), mask(WordsOf(answer)).1)
      ensures NoOutage() ==> (r.Ok? <==> id in old(items) && !Refused(lower, old(items)[id].kind, answer))
      ensures |offers| <= MAX_FOLLOW_UPS && (id in old(items) && old(items)[id].kind.Confirm? ==> offers == [])
      ensures r.Ok? ==> Accepted(lower, old(items)[id].kind, answer,
                                 clock(old(ticks) + if old(items)[id].kind.Deepen? then 1 else 0),
                                 old(facts), facts, r.value.fact)
      ensures r.Ok? ==> Reports(fd, State(old(items), clock(old(ticks))), offers, r.value.followUps)
      ensures r.Err? && id !in old(items) ==> facts == old(facts)
      ensures r.Err? && id in old(items) ==> MayHaveRecorded(old(facts), old(items)[id].kind, answer, facts)
      ensures r.Err? && facts == old(facts) ==>
        items == old(items)
        || (id in old(items) && !Confirms(lower, old(items)[id].kind, answer) && items == old(items) - {id})
      ensures fate(old(calls)).Fine? ==> (r == Err(NotFound) <==> id !in old(items))
      ensures fate(old(calls)).Fine? ==>
        (r == Err(InvalidInput) <==> id in old(items) && Refused(lower, old(items)[id].kind, answer))
      ensures r == Err(InvalidInput) ==> facts == old(facts) && items == old(items)
    {
      offers := [];
      var f := Attempt();
      if !f.Fine? { return Err(StoreFailed), []; }
      if id !in items { return Err(NotFound), []; }
      if answer.Skip? { return Ok(AnswerResult(None, [])), []; }
      if BlankAnswer(answer) { return Err(InvalidInput), []; }
      r, offers := Settle(id, answer, clock(old(ticks)));
    }
  }
}
