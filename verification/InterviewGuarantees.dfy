/** What the interview queue promises, in the characters of titles and questions, in
    seconds and in the items' own fields. */
module InterviewGuarantees {
  import opened Wrappers
  import opened Texts
  import opened TextGuarantees
  import opened Sources
  import opened KnowledgeTypes
  import opened Similarity
  import opened InterviewQueue
  import opened InterviewService

  // ---- saying the same thing ---------------------------------------------------------------

  /** What each character of a title contributes to the comparison: its lowercase form if it
      is a letter, a digit or an underscore, and nothing otherwise. */
  function Contributions(fd: Folding, title: string): seq<string> {
    seq(|title|, i requires 0 <= i < |title| =>
      if !Spacing(title[i]) && (fd.alnum(title[i]) || title[i] == '_') then fd.lower(title[i]) else "")
  }

  function Comparable(fd: Folding, title: string): string {
    Joined(Contributions(fd, title))
  }

  function Neighbours(s: string): set<(char, char)> {
    set i {:trigger s[i]} | 0 <= i < |s| - 1 :: (s[i], s[i+1])
  }

  /** Equal once folded, or with at least 45 of every 100 pairs of neighbours in common. */
  predicate SaysTheSame(fd: Folding, a: string, b: string) {
    var x, y := Comparable(fd, a), Comparable(fd, b);
    var common, all := Neighbours(x) * Neighbours(y), Neighbours(x) + Neighbours(y);
    (x == y && x != "") || (all != {} && |common| as real / |all| as real >= 0.45)
  }

  lemma {:induction false} NormalizeIsComparable(fd: Folding, title: string)
    ensures Normalize(fd, title) == Comparable(fd, title)
  {
    if title != [] {
      NormalizeIsComparable(fd, title[1..]);
      WhiteIsSpacing(title[0]);
      assert Contributions(fd, title)[1..] == Contributions(fd, title[1..]);
    }
  }

  lemma BigramsAreNeighbours(s: string)
    ensures Bigrams(s) == Neighbours(s)
  {
    forall p ensures p in Bigrams(s) <==> p in Neighbours(s) {
      if p in Bigrams(s) {
        var i: nat :| i < |s| - 1 && BigramAt(s, i) == p;
      }
      if p in Neighbours(s) {
        var i :| 0 <= i < |s| - 1 && (s[i], s[i+1]) == p;
        assert BigramAt(s, i) == p;
      }
    }
  }

  lemma Fraction(n: nat, d: nat)
    requires d > 0
    ensures n as real / d as real >= 0.45 <==> 20 * n >= 9 * d
  {
    var q := n as real / d as real;
    assert q * d as real == n as real;
    Times(q, 0.45, d as real);
    Times(0.45, q, d as real);
  }

  lemma Times(x: real, y: real, z: real)
    requires z > 0.0
    ensures x > y ==> x * z > y * z
  {}

  /** Two titles are duplicates exactly when they say the same. */
  lemma NearMeans(fd: Folding, a: string, b: string)
    ensures NearDuplicate(fd, a, b) <==> SaysTheSame(fd, a, b)
  {
    NormalizeIsComparable(fd, a);
    NormalizeIsComparable(fd, b);
    var x, y := Comparable(fd, a), Comparable(fd, b);
    BigramsAreNeighbours(x);
    BigramsAreNeighbours(y);
    var all := Neighbours(x) + Neighbours(y);
    if all != {} { Fraction(|Neighbours(x) * Neighbours(y)|, |all|); }
  }

  /** The same character, or letters of the same lowercase form. */
  predicate SameLetter(fd: Folding, c: char, d: char) {
    c == d || (fd.alnum(c) && fd.alnum(d) && !Spacing(c) && !Spacing(d) && fd.lower(c) == fd.lower(d))
  }

  /** Writing a title in other cases does not make it a new title. */
  lemma CaseDoesNotCount(fd: Folding, a: string, b: string, t: string)
    requires |a| == |b|
    requires forall i | 0 <= i < |a| :: SameLetter(fd, a[i], b[i])
    ensures NearDuplicate(fd, a, t) <==> NearDuplicate(fd, b, t)
  {
    assert Contributions(fd, a) == Contributions(fd, b);
    NearMeans(fd, a, t);
    NearMeans(fd, b, t);
  }

  /** Asking for the same: two confirmations of titles, or two questions, that say the same;
      never a confirmation and a question. */
  predicate AsksTheSame(fd: Folding, a: Kind, b: Kind) {
    match (a, b)
    case (Confirm(c), Confirm(d)) => SaysTheSame(fd, c.title, d.title)
    case (Deepen(q, _), Deepen(r, _)) => SaysTheSame(fd, q, r)
    case _ => false
  }

  lemma NearItemsAskTheSame(fd: Folding, a: Kind, b: Kind)
    ensures Near(fd, a, b) <==> AsksTheSame(fd, a, b)
  {
    NearMeans(fd, DedupText(a), DedupText(b));
  }

  // ---- offering ------------------------------------------------------------------------------

  /** An item as it is stored: what it left unset is filled in. */
  function Stored(item: Item): Item {
    var priority := if item.priority != 0 then item.priority else match item.kind
      case Deepen(_, _) => 125
      case Confirm(c) => if c.source == Session then 160 else if c.source == SourceKind.File then 130 else 145;
    var days := if item.kind.Deepen? then 2_592_000 else 1_209_600;
    var expiresAt := if item.expiresAt.Some? then item.expiresAt else Some(item.createdAt + days);
    Item(item.id, item.kind, priority, item.createdAt, expiresAt)
  }

  predicate Due(item: Item, now: Time) {
    match item.expiresAt
    case Some(t) => t <= now
    case None => false
  }

  lemma FinalizedIsStored(item: Item)
    ensures Finalize(item) == Stored(item)
  {}

  /** The stored items that ask for the same and are not due. */
  function Twice(fd: Folding, items: map<ItemId, Item>, kind: Kind, now: Time): set<ItemId> {
    set id | id in items && !Due(items[id], now) && AsksTheSame(fd, items[id].kind, kind)
  }

  /** Offering an item changes nothing when something stored that asks for the same is at
      least as important; otherwise the item, completed, takes the place of all of those. */
  lemma OfferMeans(fd: Folding, items: map<ItemId, Item>, item: Item, now: Time)
    ensures
      var twice := Twice(fd, items, item.kind, now);
      Offered(fd, items, item, now) ==
        if exists id :: id in twice && items[id].priority >= Stored(item).priority then items
        else (items - twice)[item.id := Stored(item)]
  {
    FinalizedIsStored(item);
    var twice := Twice(fd, items, item.kind, now);
    forall id | id in items ensures id in twice <==> id in Dups(fd, items, Stored(item), now) {
      NearItemsAskTheSame(fd, items[id].kind, item.kind);
    }
    assert twice == Dups(fd, items, Stored(item), now);
  }

  /** In no reachable queue do two items that are not due ask for the same. */
  lemma NothingIsAskedTwice(fd: Folding, start: Time, events: seq<Event>, a: ItemId, b: ItemId)
    requires var s := Run(fd, State(map[], start), events);
      a in s.items && b in s.items && a != b && !Due(s.items[a], s.now) && !Due(s.items[b], s.now)
    ensures var s := Run(fd, State(map[], start), events); !AsksTheSame(fd, s.items[a].kind, s.items[b].kind)
  {
    RunsNeverHaveTwins(fd, start, events);
    var s := Run(fd, State(map[], start), events);
    assert !Twins(fd, s.items, s.now, a, b);
    NearItemsAskTheSame(fd, s.items[a].kind, s.items[b].kind);
  }

  /** A sweep of a reachable queue removes what is due and nothing else. */
  lemma SweepRemovesTheDue(fd: Folding, start: Time, events: seq<Event>, order: seq<Item>)
    requires IsListing(Run(fd, State(map[], start), events).items, order)
    ensures var s := Run(fd, State(map[], start), events);
      Expired(fd, s.items, order, s.now) == map id | id in s.items && !Due(s.items[id], s.now) :: s.items[id]
  {
    ReachableExpireIsExact(fd, start, events, order);
    forall item, now ensures IsExpired(item, now) <==> Due(item, now) {}
  }

  /** The queue shows what is not due: the more important first and of equals the newer, or
      simply the newer first. */
  lemma ShownMeans(items: map<ItemId, Item>, now: Time, sort: QueueSort, shown: seq<Item>, i: nat, j: nat)
    requires Keyed(items) && IsShown(items, now, sort, shown) && i < j < |shown|
    ensures forall id | id in items :: items[id] in shown <==> !Due(items[id], now)
    ensures sort.PriorityDesc? ==> shown[i].priority >= shown[j].priority
    ensures sort.NewestFirst? || shown[i].priority == shown[j].priority ==> shown[i].createdAt >= shown[j].createdAt
  {
    assert OrderOf(sort)(shown[i], shown[j]);
  }

  // ---- answering -----------------------------------------------------------------------------

  /** An answer puts a fact into the knowledge base when it says something and does not
      reject the candidate: a choice on a confirmation must not be one of these words, once
      trimmed and lowercased. */
  lemma ConfirmsMeans(lower: string -> string, kind: Kind, answer: AnswerInput)
    ensures Confirms(lower, kind, answer) <==>
      match answer
      case Skip => false
      case Text(t) => !AllSpacing(t)
      case Choice(c) =>
        !AllSpacing(c) && (kind.Confirm? ==>
          lower(Trim(c)) !in ["no", "n", "reject", "false", "x", "아니오", "아니요", "아니", "아님"])
  {
    if !answer.Skip? { var _, _ := TrimMeans(WordsOf(answer)); }
  }

  /** Refused are blank answers, and answers that would record a fact without a title. */
  lemma RefusedMeans(lower: string -> string, kind: Kind, answer: AnswerInput)
    ensures Refused(lower, kind, answer) <==>
      !answer.Skip? && (AllSpacing(WordsOf(answer))
        || (Confirms(lower, kind, answer)
            && AllSpacing(if kind.Confirm? then kind.candidate.title else kind.question)))
  {
    var _, _ := TrimMeans(WordsOf(answer));
    var _, _ := TrimMeans(if kind.Confirm? then kind.candidate.title else kind.question);
  }

  /** A question of nothing but spacing is not taken into the queue. */
  lemma BlankQuestionMeans(item: Item)
    ensures BlankQuestion(item) <==> item.kind.Deepen? && AllSpacing(item.kind.question)
  {
    if item.kind.Deepen? { var _, _ := TrimMeans(item.kind.question); }
  }
}
