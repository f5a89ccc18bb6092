/** The pending-question queue of `interview/queue_manager.rs` and
    `interview/service.rs`: priorities, expiry and the suppression of near-duplicates. */
module InterviewQueue {
  import opened Wrappers
  import opened Texts
  import opened Ordering
  import opened Sources
  import opened KnowledgeTypes
  import opened Similarity

  type ItemId = nat
  type Priority = n: nat | n < 256

  /** Times are in seconds. */
  const DAY: nat := 86_400

  datatype Candidate = Candidate(
    title: string,
    body: string,
    source: SourceKind,
    collectedAt: Time,
    suggestedScope: Scope,
    topics: seq<string>,
    kind: FactKind,
    visibility: Visibility)

  datatype Kind = Confirm(candidate: Candidate) | Deepen(question: string, hypothesis: Option<string>)

  datatype Item = Item(id: ItemId, kind: Kind, priority: Priority, createdAt: Time, expiresAt: Option<Time>)

  // ---- policy ---------------------------------------------------------------------------

  function SourceTrust(source: SourceKind): nat {
    match source
    case Session => 40
    case Notion | Gmail | Confluence | Jira => 25
    case File => 10
  }

  /** Base, source trust and need for confirmation, clamped to a byte. */
  function ScorePriority(kind: Kind): (p: Priority)
    ensures 100 <= p
  {
    var s := 100 + match kind
      case Confirm(candidate) => SourceTrust(candidate.source) + 20
      case Deepen(_, _) => 15 + 10;
    if s > 255 then 255 else s
  }

  function TtlDays(kind: Kind): nat {
    if kind.Confirm? then 14 else 30
  }

  function DedupText(kind: Kind): string {
    match kind
    case Confirm(candidate) => candidate.title
    case Deepen(question, _) => question
  }

  /** The same item asked twice; a confirmation and a question never collide. */
  predicate Near(fd: Folding, a: Kind, b: Kind) {
    a.Confirm? == b.Confirm? && NearDuplicate(fd, DedupText(a), DedupText(b))
  }

  predicate IsExpired(item: Item, now: Time) {
    item.expiresAt.Some? && item.expiresAt.value <= now
  }

  /** Score and expiry for an item that left them unset. */
  function Finalize(item: Item): Item {
    var scored := if item.priority == 0 then item.(priority := ScorePriority(item.kind)) else item;
    if scored.expiresAt.None? then scored.(expiresAt := Some(scored.createdAt + TtlDays(scored.kind) * DAY)) else scored
  }

  /** A confirmation always outranks an open question, sessions outrank the other sources
      and files come last. */
  lemma ConfirmationsFirst(a: Candidate, b: Candidate, question: string, hypothesis: Option<string>)
    ensures ScorePriority(Confirm(a)) > ScorePriority(Deepen(question, hypothesis))
    ensures a.source.Session? && !b.source.Session? ==> ScorePriority(Confirm(a)) > ScorePriority(Confirm(b))
    ensures !a.source.File? && b.source.File? ==> ScorePriority(Confirm(a)) > ScorePriority(Confirm(b))
    ensures !a.source.Session? && !b.source.Session? && !a.source.File? && !b.source.File?
      ==> ScorePriority(Confirm(a)) == ScorePriority(Confirm(b))
  {}

  lemma NearSymmetric(fd: Folding, a: Kind, b: Kind)
    ensures Near(fd, a, b) <==> Near(fd, b, a)
  {
    NearIsSymmetric(fd, DedupText(a), DedupText(b));
  }

  // ---- the queue as a map -----------------------------------------------------------------

  ghost predicate Keyed(items: map<ItemId, Item>) {
    forall id | id in items :: items[id].id == id
  }

  ghost predicate Twins(fd: Folding, items: map<ItemId, Item>, now: Time, a: ItemId, b: ItemId)
    requires a in items && b in items
  {
    a != b && !IsExpired(items[a], now) && !IsExpired(items[b], now) && Near(fd, items[a].kind, items[b].kind)
  }

  /** No two unexpired items are near-duplicates. */
  ghost predicate NoTwins(fd: Folding, items: map<ItemId, Item>, now: Time) {
    forall a, b | a in items && b in items :: !Twins(fd, items, now, a, b)
  }

  /** Waiting and removing cannot make twins. */
  lemma FewerAndLater(fd: Folding, items: map<ItemId, Item>, now: Time, items': map<ItemId, Item>, now': Time)
    requires NoTwins(fd, items, now) && now <= now'
    requires forall id | id in items' :: id in items && items'[id] == items[id]
    ensures NoTwins(fd, items', now')
  {
    forall a, b | a in items' && b in items' ensures !Twins(fd, items', now', a, b) {
      assert !Twins(fd, items, now, a, b);
    }
  }

  /** What a store listing returns: every item once, in any order. */
  ghost predicate IsListing(items: map<ItemId, Item>, order: seq<Item>) {
    && (forall i, j | 0 <= i < j < |order| :: order[i].id != order[j].id)
    && (forall item | item in order :: item.id in items && items[item.id] == item)
    && (forall id | id in items :: items[id] in order)
  }

  // ---- enqueue -------------------------------------------------------------------------------

  predicate BlankQuestion(item: Item) {
    item.kind.Deepen? && Trim(item.kind.question) == []
  }

  /** The unexpired stored duplicates of an item. */
  function Dups(fd: Folding, items: map<ItemId, Item>, item: Item, now: Time): set<ItemId> {
    set id | id in items && !IsExpired(items[id], now) && Near(fd, items[id].kind, item.kind)
  }

  /** A stored duplicate is at least as important. */
  ghost predicate Beaten(fd: Folding, items: map<ItemId, Item>, item: Item, now: Time) {
    exists id :: id in items && id in Dups(fd, items, item, now) && items[id].priority >= item.priority
  }

  /** The queue after an item has been offered: untouched when a duplicate beats it, else
      with the item in the place of all its duplicates. */
  ghost function Offered(fd: Folding, items: map<ItemId, Item>, item: Item, now: Time): map<ItemId, Item> {
    var it := Finalize(item);
    if Beaten(fd, items, it, now) then items else (items - Dups(fd, items, it, now))[it.id := it]
  }

  lemma OfferedKeepsNoTwins(fd: Folding, items: map<ItemId, Item>, item: Item, now: Time)
    requires Keyed(items) && NoTwins(fd, items, now)
    ensures Keyed(Offered(fd, items, item, now)) && NoTwins(fd, Offered(fd, items, item, now), now)
  {
    var it := Finalize(item);
    var items' := Offered(fd, items, item, now);
    if !Beaten(fd, items, it, now) {
      forall a, b | a in items' && b in items' ensures !Twins(fd, items', now, a, b) {
        NearSymmetric(fd, items'[a].kind, items'[b].kind);
        if a != it.id && b != it.id {
          assert !Twins(fd, items, now, a, b);
        }
      }
    }
  }

  /** An offered idea is never lost: afterwards some stored item of at least its priority
      is the item or a duplicate of it. */
  lemma OfferedIsCovered(fd: Folding, items: map<ItemId, Item>, item: Item, now: Time)
    ensures var it, items' := Finalize(item), Offered(fd, items, item, now);
      exists id :: id in items' && (items'[id] == it || Near(fd, items'[id].kind, it.kind))
        && items'[id].priority >= it.priority
  {
    var it := Finalize(item);
    if Beaten(fd, items, it, now) {
      var id :| id in items && id in Dups(fd, items, it, now) && items[id].priority >= it.priority;
      assert id in Offered(fd, items, item, now);
    } else {
      assert it.id in Offered(fd, items, item, now);
    }
  }

  /** Only duplicates of lower priority, and whatever was filed under the same id, give
      way to an offered item. */
  lemma OfferedEvictsLesser(fd: Folding, items: map<ItemId, Item>, item: Item, now: Time, id: ItemId)
    requires id in items && id != item.id
    ensures var it, items' := Finalize(item), Offered(fd, items, item, now);
      id in items' || (Near(fd, items[id].kind, it.kind) && items[id].priority < it.priority && it.id in items')
  {}

  // ---- expire --------------------------------------------------------------------------------

  function Alive(order: seq<Item>, now: Time): seq<Item> {
    if order == [] then []
    else Alive(order[..|order|-1], now) + if IsExpired(order[|order|-1], now) then [] else [order[|order|-1]]
  }

  /** An item the sweep drops, the item that beat it, and the slot they met in. */
  datatype Drop = Drop(item: Item, winner: Item, slot: nat)

  datatype Sweep = Sweep(kept: seq<Item>, drops: seq<Drop>)

  /** The first kept item that resembles `k`; the number of kept items if none does. */
  function FirstNear(fd: Folding, kept: seq<Item>, k: Kind): (r: nat)
    ensures r <= |kept| && (r < |kept| ==> Near(fd, kept[r].kind, k))
    ensures forall i | 0 <= i < r :: !Near(fd, kept[i].kind, k)
  {
    if kept == [] then 0
    else if Near(fd, kept[0].kind, k) then 0
    else
      var r := FirstNear(fd, kept[1..], k);
      assert forall i | 1 <= i < r + 1 :: kept[i] == kept[1..][i-1];
      r + 1
  }

  function SweepStep(fd: Folding, s: Sweep, item: Item): Sweep {
    var pos := FirstNear(fd, s.kept, item.kind);
    if pos == |s.kept| then Sweep(s.kept + [item], s.drops)
    else if item.priority > s.kept[pos].priority then
      Sweep(s.kept[pos := item], s.drops + [Drop(s.kept[pos], item, pos)])
    else Sweep(s.kept, s.drops + [Drop(item, s.kept[pos], pos)])
  }

  function Swept(fd: Folding, alive: seq<Item>): Sweep {
    if alive == [] then Sweep([], []) else SweepStep(fd, Swept(fd, alive[..|alive|-1]), alive[|alive|-1])
  }

  ghost function Dropped(drops: seq<Drop>): seq<Item> {
    seq(|drops|, i requires 0 <= i < |drops| => drops[i].item)
  }

  /** The queue after a sweep that met the items in this order. */
  ghost function Expired(fd: Folding, items: map<ItemId, Item>, order: seq<Item>, now: Time): map<ItemId, Item> {
    map id | id in items && items[id] in Swept(fd, Alive(order, now)).kept :: items[id]
  }

  lemma {:induction false} AliveMeans(order: seq<Item>, now: Time, item: Item)
    ensures item in Alive(order, now) <==> item in order && !IsExpired(item, now)
  {
    if order != [] {
      AliveMeans(order[..|order|-1], now, item);
      assert order == order[..|order|-1] + [order[|order|-1]];
    }
  }

  /** Sweeping loses and invents nothing: the survivors and the dropped are the items. */
  lemma {:induction false} SweepConserves(fd: Folding, alive: seq<Item>)
    ensures var s := Swept(fd, alive); multiset(s.kept) + multiset(Dropped(s.drops)) == multiset(alive)
  {
    if alive != [] {
      var init, last := alive[..|alive|-1], alive[|alive|-1];
      SweepConserves(fd, init);
      assert alive == init + [last];
      assert multiset(alive) == multiset(init) + multiset{last};
      SweptMore(fd, init, last);
      StepConserves(fd, Swept(fd, init), last);
    }
  }

  lemma StepConserves(fd: Folding, s: Sweep, item: Item)
    ensures var s' := SweepStep(fd, s, item);
      multiset(s'.kept) + multiset(Dropped(s'.drops)) == multiset(s.kept) + multiset(Dropped(s.drops)) + multiset{item}
  {
    var pos := FirstNear(fd, s.kept, item.kind);
    var s' := SweepStep(fd, s, item);
    if pos < |s.kept| {
      var d := s'.drops[|s.drops|];
      assert s'.drops == s.drops + [d];
      assert Dropped(s'.drops) == Dropped(s.drops) + [d.item];
    }
  }

  ghost predicate Explained(fd: Folding, kept: seq<Item>, d: Drop) {
    && Near(fd, d.winner.kind, d.item.kind) && d.winner.priority >= d.item.priority
    && d.slot < |kept| && kept[d.slot].priority >= d.winner.priority
  }

  /** Every dropped item was beaten by a near-duplicate of at least its priority, and the
      final survivor of its slot has at least that priority too. */
  lemma {:induction false} DropsExplained(fd: Folding, alive: seq<Item>)
    ensures forall d | d in Swept(fd, alive).drops :: Explained(fd, Swept(fd, alive).kept, d)
  {
    if alive != [] {
      var init, last := alive[..|alive|-1], alive[|alive|-1];
      DropsExplained(fd, init);
      StepExplains(fd, Swept(fd, init), last);
    }
  }

  lemma StepExplains(fd: Folding, s: Sweep, item: Item)
    requires forall d | d in s.drops :: Explained(fd, s.kept, d)
    ensures var s' := SweepStep(fd, s, item); forall d | d in s'.drops :: Explained(fd, s'.kept, d)
  {
    var pos := FirstNear(fd, s.kept, item.kind);
    var s' := SweepStep(fd, s, item);
    forall d | d in s'.drops ensures Explained(fd, s'.kept, d) {
      if d in s.drops {
        assert Explained(fd, s.kept, d);
      } else {
        NearSymmetric(fd, s.kept[pos].kind, item.kind);
      }
    }
  }

  ghost predicate PairwiseApart(fd: Folding, xs: seq<Item>) {
    forall i, j | 0 <= i < j < |xs| :: !Near(fd, xs[i].kind, xs[j].kind)
  }

  /** Items that are already apart all stay. */
  lemma {:induction false} SweepKeepsApart(fd: Folding, alive: seq<Item>)
    requires PairwiseApart(fd, alive)
    ensures Swept(fd, alive) == Sweep(alive, [])
  {
    if alive != [] {
      var init, last := alive[..|alive|-1], alive[|alive|-1];
      SweepKeepsApart(fd, init);
      assert alive == init + [last];
      var pos := FirstNear(fd, init, last.kind);
      assert pos == |init|;
    }
  }

  ghost predicate Descending(xs: seq<Item>) {
    forall i, j | 0 <= i < j < |xs| :: xs[i].priority >= xs[j].priority
  }

  /** `b` resembles two items that do not resemble one another, and outranks the first. */
  predicate Bridge(fd: Folding, a: Item, b: Item, c: Item) {
    Near(fd, a.kind, b.kind) && Near(fd, b.kind, c.kind) && !Near(fd, a.kind, c.kind) && b.priority > a.priority
  }

  /** No item comes after two others that it bridges. */
  ghost predicate NoneBridgesEarlier(fd: Folding, xs: seq<Item>) {
    forall i, j, k | 0 <= i < k < |xs| && 0 <= j < k :: !Bridge(fd, xs[i], xs[k], xs[j])
  }

  lemma {:induction false} UnbridgedSurvivorsApart(fd: Folding, alive: seq<Item>)
    requires NoneBridgesEarlier(fd, alive)
    ensures PairwiseApart(fd, Swept(fd, alive).kept)
    ensures forall x | x in Swept(fd, alive).kept :: x in alive
  {
    if alive != [] {
      var n := |alive| - 1;
      var init, s := alive[..n], Swept(fd, alive[..n]);
      UnbridgedSurvivorsApart(fd, init);
      assert alive == init + [alive[n]];
      forall i, j | 0 <= i < |s.kept| && 0 <= j < |s.kept| ensures !Bridge(fd, s.kept[i], alive[n], s.kept[j]) {
        assert s.kept[i] in init && s.kept[j] in init;
        var i', j' :| 0 <= i' < n && 0 <= j' < n && alive[i'] == s.kept[i] && alive[j'] == s.kept[j];
      }
      UnbridgedStep(fd, s, alive[n]);
    }
  }

  lemma UnbridgedStep(fd: Folding, s: Sweep, item: Item)
    requires PairwiseApart(fd, s.kept)
    requires forall i, j | 0 <= i < |s.kept| && 0 <= j < |s.kept| :: !Bridge(fd, s.kept[i], item, s.kept[j])
    ensures PairwiseApart(fd, SweepStep(fd, s, item).kept)
    ensures forall x | x in SweepStep(fd, s, item).kept :: x in s.kept || x == item
  {
    var pos := FirstNear(fd, s.kept, item.kind);
    if pos < |s.kept| && item.priority > s.kept[pos].priority {
      forall i | 0 <= i < |s.kept| && i != pos
        ensures !Near(fd, s.kept[i].kind, item.kind) && !Near(fd, item.kind, s.kept[i].kind)
      {
        NearSymmetric(fd, s.kept[i].kind, item.kind);
        NearSymmetric(fd, s.kept[pos].kind, s.kept[i].kind);
        assert !Bridge(fd, s.kept[pos], item, s.kept[i]);
      }
    }
  }

  /** Met in priority order, the survivors are apart. */
  lemma DescendingSurvivorsApart(fd: Folding, alive: seq<Item>)
    requires Descending(alive)
    ensures PairwiseApart(fd, Swept(fd, alive).kept)
    ensures forall x | x in Swept(fd, alive).kept :: x in alive
  {
    UnbridgedSurvivorsApart(fd, alive);
  }

  ghost predicate TransitiveOn(fd: Folding, xs: seq<Item>) {
    forall a, b, c | a in xs && b in xs && c in xs && Near(fd, a.kind, b.kind) && Near(fd, b.kind, c.kind) ::
      Near(fd, a.kind, c.kind)
  }

  /** Where resemblance happens to be transitive, the survivors are apart whatever the
      order. */
  lemma TransitiveSurvivorsApart(fd: Folding, alive: seq<Item>)
    requires TransitiveOn(fd, alive)
    ensures PairwiseApart(fd, Swept(fd, alive).kept)
    ensures forall x | x in Swept(fd, alive).kept :: x in alive
  {
    UnbridgedSurvivorsApart(fd, alive);
  }

  ghost predicate NoStrictBridge(fd: Folding, items: set<Item>) {
    forall a, b, c | a in items && b in items && c in items :: !Bridge(fd, a, b, c)
  }

  /** Some of the items, in some order. */
  ghost predicate OrderOfSome(items: set<Item>, order: seq<Item>) {
    NoDup(order) && forall x | x in order :: x in items
  }

  /** No sweep of any of these items, in whatever order it meets them, leaves two that
      resemble one another. */
  ghost predicate AlwaysSweptApart(fd: Folding, items: set<Item>) {
    forall order | OrderOfSome(items, order) :: PairwiseApart(fd, Swept(fd, order).kept)
  }

  /** When that is so: exactly if none of the items bridges two others and outranks one of
      these. */
  lemma AlwaysSweptApartIff(fd: Folding, items: set<Item>)
    ensures AlwaysSweptApart(fd, items) <==> NoStrictBridge(fd, items)
  {
    if NoStrictBridge(fd, items) {
      forall order | OrderOfSome(items, order) ensures PairwiseApart(fd, Swept(fd, order).kept) {
        UnbridgedSurvivorsApart(fd, order);
      }
    } else {
      var a, b, c :| a in items && b in items && c in items && Bridge(fd, a, b, c);
      var order := BridgedOrder(fd, items, a, b, c);
    }
  }

  lemma BridgedOrder(fd: Folding, items: set<Item>, a: Item, b: Item, c: Item) returns (order: seq<Item>)
    requires a in items && b in items && c in items && Bridge(fd, a, b, c)
    ensures OrderOfSome(items, order) && !PairwiseApart(fd, Swept(fd, order).kept)
  {
    var alive := [a, c];
    BridgeLeavesTwins(fd, alive, b);
    order := alive + [b];
    EndsDiffer(fd, a, b, c);
    ThreeInOrder(items, a, b, c);
    NearPair(fd, b, c);
  }

  lemma EndsDiffer(fd: Folding, a: Item, b: Item, c: Item)
    requires Bridge(fd, a, b, c)
    ensures a != b && b != c && a != c
  {
    NearEnds(fd, a.kind, b.kind);
  }

  lemma ThreeInOrder(items: set<Item>, a: Item, b: Item, c: Item)
    requires a in items && b in items && c in items && a != b && b != c && a != c
    ensures OrderOfSome(items, [a, c] + [b])
  {
    assert [a, c] + [b] == [a, c, b];
  }

  lemma NearPair(fd: Folding, b: Item, c: Item)
    requires Near(fd, b.kind, c.kind)
    ensures !PairwiseApart(fd, [b, c])
  {
    var kept := [b, c];
    assert Near(fd, kept[0].kind, kept[1].kind);
  }

  /** What resembles anything resembles itself. */
  lemma NearEnds(fd: Folding, a: Kind, b: Kind)
    requires Near(fd, a, b)
    ensures Near(fd, a, a) && Near(fd, b, b)
  {
    NearImpliesSelf(fd, DedupText(a), DedupText(b));
    NearIsSymmetric(fd, DedupText(a), DedupText(b));
    NearImpliesSelf(fd, DedupText(b), DedupText(a));
  }

  function Ask(id: ItemId, question: string, priority: Priority): Item {
    Item(id, Deepen(question, None), priority, 0, None)
  }

  lemma SweptMore(fd: Folding, alive: seq<Item>, item: Item)
    ensures Swept(fd, alive + [item]) == SweepStep(fd, Swept(fd, alive), item)
  {
    assert (alive + [item])[..|alive|] == alive;
  }

  /** In general they are not: an item that resembles two kept ones and outranks the
      first replaces only that one, and stays beside the second. */
  lemma BridgeLeavesTwins(fd: Folding, alive: seq<Item>, b: Item)
    requires |alive| == 2 && !Near(fd, alive[0].kind, alive[1].kind)
    requires Near(fd, alive[0].kind, b.kind) && Near(fd, b.kind, alive[1].kind) && b.priority > alive[0].priority
    ensures Swept(fd, alive + [b]).kept == [b, alive[1]]
  {
    SweepKeepsApart(fd, alive);
    SweptMore(fd, alive, b);
    assert alive[0 := b] == [b, alive[1]];
  }

  lemma TwinsCanSurvive()
    ensures var a, b, c := Ask(0, "abcd", 1), Ask(1, "bcde", 2), Ask(2, "cdef", 1);
      Swept(PLAIN, [a, c, b]).kept == [b, c] && Near(PLAIN, b.kind, c.kind)
  {
    NearIsNotTransitive();
    var alive := [Ask(0, "abcd", 1), Ask(2, "cdef", 1)];
    BridgeLeavesTwins(PLAIN, alive, Ask(1, "bcde", 2));
    assert alive + [Ask(1, "bcde", 2)] == [Ask(0, "abcd", 1), Ask(2, "cdef", 1), Ask(1, "bcde", 2)];
  }

  lemma ListingApart(fd: Folding, items: map<ItemId, Item>, order: seq<Item>, now: Time)
    requires IsListing(items, order) && NoTwins(fd, items, now)
    ensures PairwiseApart(fd, Alive(order, now))
  {
    AliveApart(fd, items, order, now);
  }

  lemma {:induction false} AliveApart(fd: Folding, items: map<ItemId, Item>, order: seq<Item>, now: Time)
    requires forall i, j | 0 <= i < j < |order| :: order[i].id != order[j].id
    requires forall item | item in order :: item.id in items && items[item.id] == item
    requires NoTwins(fd, items, now)
    ensures PairwiseApart(fd, Alive(order, now))
  {
    if order != [] {
      var init, last := order[..|order|-1], order[|order|-1];
      assert order == init + [last];
      AliveApart(fd, items, init, now);
      if !IsExpired(last, now) {
        var alive := Alive(init, now);
        forall i | 0 <= i < |alive| ensures !Near(fd, alive[i].kind, last.kind) {
          AliveMeans(init, now, alive[i]);
          var j :| 0 <= j < |init| && init[j] == alive[i];
          assert order[j] == alive[i] && last in order && alive[i] in order;
          assert !Twins(fd, items, now, alive[i].id, last.id);
        }
      }
    }
  }

  /** From a queue without twins, a sweep in any order removes exactly the expired
      items. */
  lemma ExpireIsExact(fd: Folding, items: map<ItemId, Item>, order: seq<Item>, now: Time)
    requires IsListing(items, order) && NoTwins(fd, items, now)
    ensures Expired(fd, items, order, now) == map id | id in items && !IsExpired(items[id], now) :: items[id]
  {
    ListingApart(fd, items, order, now);
    SweepKeepsApart(fd, Alive(order, now));
    forall id | id in items ensures items[id] in Alive(order, now) <==> !IsExpired(items[id], now) {
      AliveMeans(order, now, items[id]);
    }
  }

  /** The item or a near-duplicate of it is stored. */
  ghost predicate Remains(fd: Folding, items: map<ItemId, Item>, it: Item) {
    exists id :: id in items && (items[id] == it || Near(fd, items[id].kind, it.kind))
  }

  /** The item or a near-duplicate of it is stored and has not expired. */
  ghost predicate RemainsLive(fd: Folding, items: map<ItemId, Item>, it: Item, now: Time) {
    exists id :: id in items && !IsExpired(items[id], now) && (items[id] == it || Near(fd, items[id].kind, it.kind))
  }

  /** What is left of an offered idea: nothing unexpired exactly when the item had already
      expired on arrival and no duplicate beats it. So a live duplicate was there before and
      both are gone if and only if the item has expired, there is such a duplicate, and none
      of them has at least its priority. */
  lemma BothGoneIff(fd: Folding, items: map<ItemId, Item>, item: Item, now: Time)
    ensures var it, offered := Finalize(item), Offered(fd, items, item, now);
      && (RemainsLive(fd, offered, it, now) <==> !IsExpired(it, now) || Beaten(fd, items, it, now))
      && ((Dups(fd, items, it, now) != {} && !RemainsLive(fd, offered, it, now)) <==>
          IsExpired(it, now) && Dups(fd, items, it, now) != {} && !Beaten(fd, items, it, now))
  {
    var it, offered := Finalize(item), Offered(fd, items, item, now);
    if Beaten(fd, items, it, now) {
      var id :| id in items && id in Dups(fd, items, it, now) && items[id].priority >= it.priority;
      assert id in offered && Near(fd, offered[id].kind, it.kind);
    } else if !IsExpired(it, now) {
      assert it.id in offered && offered[it.id] == it;
    }
  }

  /** In a queue without twins, as `enqueue` keeps it, the next sweep shows it: of the idea
      nothing at all is stored afterwards in exactly these cases. */
  lemma SurvivesSweepIff(fd: Folding, items: map<ItemId, Item>, item: Item, now: Time, order: seq<Item>)
    requires Keyed(items) && NoTwins(fd, items, now) && IsListing(Offered(fd, items, item, now), order)
    ensures Remains(fd, Expired(fd, Offered(fd, items, item, now), order, now), Finalize(item))
        <==> !IsExpired(Finalize(item), now) || Beaten(fd, items, Finalize(item), now)
  {
    var it, offered := Finalize(item), Offered(fd, items, item, now);
    OfferedKeepsNoTwins(fd, items, item, now);
    ExpireIsExact(fd, offered, order, now);
    var swept := Expired(fd, offered, order, now);
    BothGoneIff(fd, items, item, now);
    if RemainsLive(fd, offered, it, now) {
      var id :| id in offered && !IsExpired(offered[id], now)
        && (offered[id] == it || Near(fd, offered[id].kind, it.kind));
      assert id in swept && swept[id] == offered[id];
    } else {
      forall id | id in swept ensures swept[id] != it && !Near(fd, swept[id].kind, it.kind) {
        assert !IsExpired(offered[id], now) && swept[id] == offered[id];
      }
    }
  }

  /** The promise never to drop both fails: a question that is good until second 100 is
      stored, the same question arrives at second 10 with a higher priority but an expiry of
      5, and the next sweep leaves an empty queue. */
  lemma BothAreDropped(order: seq<Item>)
    requires var late := Ask(1, "abcd", 2).(expiresAt := Some(5));
      IsListing(Offered(PLAIN, map[0 := Ask(0, "abcd", 1).(expiresAt := Some(100))], late, 10), order)
    ensures var stored, late := Ask(0, "abcd", 1).(expiresAt := Some(100)), Ask(1, "abcd", 2).(expiresAt := Some(5));
      && !IsExpired(stored, 10) && Near(PLAIN, stored.kind, late.kind)
      && Expired(PLAIN, Offered(PLAIN, map[0 := stored], late, 10), order, 10) == map[]
  {
    var stored, late := Ask(0, "abcd", 1).(expiresAt := Some(100)), Ask(1, "abcd", 2).(expiresAt := Some(5));
    var items := map[0 := stored];
    PlainText("abcd");
    NearItself(PLAIN, "abcd");
    assert Finalize(late) == late && Near(PLAIN, stored.kind, late.kind);
    assert Dups(PLAIN, items, late, 10) == {0};
    assert Offered(PLAIN, items, late, 10) == map[1 := late];
    OfferedKeepsNoTwins(PLAIN, items, late, 10);
    ExpireIsExact(PLAIN, map[1 := late], order, 10);
  }

  /** Whatever the queue was, nothing expired is left. */
  lemma NothingExpiredLeft(fd: Folding, items: map<ItemId, Item>, order: seq<Item>, now: Time, id: ItemId)
    requires id in Expired(fd, items, order, now)
    ensures !IsExpired(items[id], now)
  {
    var alive := Alive(order, now);
    SweepConserves(fd, alive);
    assert items[id] in multiset(alive);
    AliveMeans(order, now, items[id]);
  }

  /** Whatever the queue was, an unexpired item that is gone lost to a near-duplicate of
      at least its priority, and a survivor of at least that priority is left. */
  lemma DroppedForAReason(fd: Folding, items: map<ItemId, Item>, order: seq<Item>, now: Time, id: ItemId)
    requires IsListing(items, order) && id in items && !IsExpired(items[id], now)
    requires id !in Expired(fd, items, order, now)
    ensures exists d :: d in Swept(fd, Alive(order, now)).drops && d.item == items[id]
                        && Explained(fd, Swept(fd, Alive(order, now)).kept, d)
  {
    var alive := Alive(order, now);
    var s := Swept(fd, alive);
    AliveMeans(order, now, items[id]);
    SweepConserves(fd, alive);
    assert items[id] in multiset(alive);
    assert items[id] !in s.kept;
    assert items[id] in multiset(Dropped(s.drops));
    var i :| 0 <= i < |s.drops| && Dropped(s.drops)[i] == items[id];
    DropsExplained(fd, alive);
    assert s.drops[i] in s.drops;
  }

  // ---- display -------------------------------------------------------------------------------

  datatype QueueSort = PriorityDesc | NewestFirst

  predicate ByPriority(a: Item, b: Item) {
    a.priority > b.priority || (a.priority == b.priority && a.createdAt >= b.createdAt)
  }

  predicate ByAge(a: Item, b: Item) {
    a.createdAt >= b.createdAt
  }

  function OrderOf(sort: QueueSort): (Item, Item) -> bool {
    if sort.PriorityDesc? then ByPriority else ByAge
  }

  /** What is shown: every unexpired item once, in the chosen order. */
  ghost predicate IsShown(items: map<ItemId, Item>, now: Time, sort: QueueSort, shown: seq<Item>) {
    && SortedBy(shown, OrderOf(sort))
    && (forall i, j | 0 <= i < j < |shown| :: shown[i].id != shown[j].id)
    && (forall item :: item in shown <==> item.id in items && items[item.id] == item && !IsExpired(item, now))
  }

  /** Where all scores are defaults, the queue by priority shows every confirmation before
      any open question. */
  lemma ConfirmationsShownFirst(items: map<ItemId, Item>, now: Time, shown: seq<Item>, i: nat, j: nat)
    requires IsShown(items, now, PriorityDesc, shown) && i < j < |shown|
    requires forall item | item in shown :: item.priority == ScorePriority(item.kind)
    ensures shown[j].kind.Confirm? ==> shown[i].kind.Confirm?
    ensures shown[i].kind.Confirm? && shown[j].kind.Confirm? && shown[j].kind.candidate.source.Session?
      ==> shown[i].kind.candidate.source.Session?
  {
    assert shown[i] in shown && shown[j] in shown && ByPriority(shown[i], shown[j]);
    if shown[i].kind.Confirm? && shown[j].kind.Confirm? {
      ConfirmationsFirst(shown[j].kind.candidate, shown[i].kind.candidate, "", None);
    }
  }

  // ---- runs ------------------------------------------------------------------------------------

  datatype State = State(items: map<ItemId, Item>, now: Time)

  /** An item offered at a reading of the clock. */
  datatype Offer = Offer(item: Item, at: Time)

  /** What can happen to the queue, the outside supplying items, listings and times. */
  datatype Event =
    | Enqueue(offer: Offer)
    | Answer(id: ItemId, ups: seq<Offer>)
    | ExpireAll(order: seq<Item>)
    | Wait(until: Time)

  function Later(now: Time, at: Time): Time {
    if now <= at then at else now
  }

  ghost function OfferedAt(fd: Folding, s: State, o: Offer): State {
    State(Offered(fd, s.items, o.item, Later(s.now, o.at)), Later(s.now, o.at))
  }

  /** The follow-ups of an answer, offered one after another. */
  ghost function OfferedAll(fd: Folding, s: State, ups: seq<Offer>): State {
    if ups == [] then s else OfferedAt(fd, OfferedAll(fd, s, ups[..|ups|-1]), ups[|ups|-1])
  }

  ghost function After(fd: Folding, s: State, e: Event): State {
    match e
    case Enqueue(offer) => if BlankQuestion(offer.item) then s else OfferedAt(fd, s, offer)
    case Answer(id, ups) =>
      if id in s.items then var s' := OfferedAll(fd, s, ups); s'.(items := s'.items - {id}) else s
    case ExpireAll(order) => if IsListing(s.items, order) then s.(items := Expired(fd, s.items, order, s.now)) else s
    case Wait(until) => s.(now := Later(s.now, until))
  }

  ghost function Run(fd: Folding, s: State, events: seq<Event>): State {
    if events == [] then s else After(fd, Run(fd, s, events[..|events|-1]), events[|events|-1])
  }

  ghost predicate Sound(fd: Folding, s: State) {
    Keyed(s.items) && NoTwins(fd, s.items, s.now)
  }

  lemma OfferedAtKeeps(fd: Folding, s: State, o: Offer)
    requires Sound(fd, s)
    ensures Sound(fd, OfferedAt(fd, s, o)) && s.now <= OfferedAt(fd, s, o).now
  {
    FewerAndLater(fd, s.items, s.now, s.items, Later(s.now, o.at));
    OfferedKeepsNoTwins(fd, s.items, o.item, Later(s.now, o.at));
  }

  lemma {:induction false} OfferedAllKeeps(fd: Folding, s: State, ups: seq<Offer>)
    requires Sound(fd, s)
    ensures Sound(fd, OfferedAll(fd, s, ups)) && s.now <= OfferedAll(fd, s, ups).now
  {
    if ups != [] {
      OfferedAllKeeps(fd, s, ups[..|ups|-1]);
      OfferedAtKeeps(fd, OfferedAll(fd, s, ups[..|ups|-1]), ups[|ups|-1]);
    }
  }

  lemma AfterKeeps(fd: Folding, s: State, e: Event)
    requires Sound(fd, s)
    ensures Sound(fd, After(fd, s, e)) && s.now <= After(fd, s, e).now
  {
    var s' := After(fd, s, e);
    match e
    case Enqueue(offer) =>
      OfferedAtKeeps(fd, s, offer);
    case Answer(id, ups) =>
      OfferedAllKeeps(fd, s, ups);
      var t := OfferedAll(fd, s, ups);
      FewerAndLater(fd, t.items, t.now, t.items - {id}, t.now);
    case ExpireAll(order) =>
      FewerAndLater(fd, s.items, s.now, s'.items, s.now);
    case Wait(until) =>
      FewerAndLater(fd, s.items, s.now, s.items, s'.now);
  }

  /** Over every run from an empty queue, no two unexpired items are near-duplicates,
      although near-duplication is not transitive. */
  lemma {:induction false} RunsNeverHaveTwins(fd: Folding, start: Time, events: seq<Event>)
    ensures var s := Run(fd, State(map[], start), events); Keyed(s.items) && NoTwins(fd, s.items, s.now)
  {
    if events != [] {
      RunsNeverHaveTwins(fd, start, events[..|events|-1]);
      AfterKeeps(fd, Run(fd, State(map[], start), events[..|events|-1]), events[|events|-1]);
    }
  }

  /** So in every reachable state a sweep removes the expired items and nothing else. */
  lemma ReachableExpireIsExact(fd: Folding, start: Time, events: seq<Event>, order: seq<Item>)
    requires IsListing(Run(fd, State(map[], start), events).items, order)
    ensures var s := Run(fd, State(map[], start), events);
      Expired(fd, s.items, order, s.now) == map id | id in s.items && !IsExpired(s.items[id], s.now) :: s.items[id]
  {
    RunsNeverHaveTwins(fd, start, events);
    var s := Run(fd, State(map[], start), events);
    ExpireIsExact(fd, s.items, order, s.now);
  }
}
