/** What passes and drains, done or failed, make of the ledger of `ingestion/service.rs`: the
    cursors, the seen-set and what the sink has received. */
module IngestionLedger {
  import opened Ordering
  import opened Wrappers
  import opened Sources
  import opened IngestionProtocol

  /** A connector, as the service uses it. */
  datatype Connector = Connector(sync: Option<Cursor> -> (seq<string>, Cursor), remaining: Option<Cursor> -> nat)

  /** What the service has on record. */
  datatype Ledger = Ledger(cursors: map<SourceKind, Cursor>, seen: set<Key>, delivered: seq<Key>)

  // ---- what a pass does when nothing fails -------------------------------------------

  /** The items of a batch that are new: not seen before, first occurrence only. */
  function Unseen(src: SourceKind, items: seq<string>, seen: set<Key>): seq<string> {
    if items == [] then []
    else
      var n := |items| - 1;
      if (src, items[n]) in seen || items[n] in items[..n] then Unseen(src, items[..n], seen)
      else Unseen(src, items[..n], seen) + [items[n]]
  }

  ghost function PassLedger(l: Ledger, src: SourceKind, items: seq<string>, next: Cursor): Ledger {
    Ledger(l.cursors[src := next], l.seen + KeySet(src, items), l.delivered + Keys(src, Unseen(src, items, l.seen)))
  }

  ghost function OnePass(l: Ledger, src: SourceKind, c: Connector): Ledger {
    var (items, next) := c.sync(Lookup(l.cursors, src));
    PassLedger(l, src, items, next)
  }

  ghost predicate Moves(l: Ledger, src: SourceKind, c: Connector) {
    Lookup(l.cursors, src) != Some(c.sync(Lookup(l.cursors, src)).1)
  }

  /** `run_until_done`: pass after pass while the cursor moves, `passes` at most. */
  ghost function Drain(l: Ledger, src: SourceKind, c: Connector, passes: nat): Ledger
    decreases passes
  {
    if passes == 0 then l
    else if Moves(l, src, c) then Drain(OnePass(l, src, c), src, c, passes - 1)
    else OnePass(l, src, c)
  }

  ghost predicate Safe(l: Ledger) {
    NoDup(l.delivered) && forall k | k in l.delivered :: k in l.seen
  }

  /** What a failing pass leaves: some of the batch marked; a first part of the new items
      delivered, and that only once all are marked; and the cursor saved only when nothing is
      missing. */
  ghost predicate FailedAt(l: Ledger, l': Ledger, src: SourceKind, items: seq<string>, next: Cursor, n: nat, k: nat) {
    var ids := Unseen(src, items, l.seen);
    && n <= |items| && k <= |ids|
    && l'.seen == l.seen + KeySet(src, items[..n]) && l'.delivered == l.delivered + Keys(src, ids[..k])
    && (k > 0 ==> n == |items|) && (l'.cursors == l.cursors || l' == PassLedger(l, src, items, next))
  }

  ghost predicate FailedPass(l: Ledger, l': Ledger, src: SourceKind, c: Connector) {
    var (items, next) := c.sync(Lookup(l.cursors, src));
    exists n, k :: FailedAt(l, l', src, items, next, n, k)
  }

  /** Every one of the first passes moves the cursor. */
  ghost predicate StillMoving(l: Ledger, src: SourceKind, c: Connector, passes: nat)
    decreases passes
  {
    passes == 0 || (Moves(l, src, c) && StillMoving(OnePass(l, src, c), src, c, passes - 1))
  }

  /** A drain that failed: some passes went well and moved the cursor, the next one failed. */
  ghost predicate FailedDrain(l: Ledger, l': Ledger, src: SourceKind, c: Connector, passes: nat) {
    exists p: nat :: p < passes && StillMoving(l, src, c, p) && FailedPass(Drain(l, src, c, p), l', src, c)
  }

  lemma {:induction false} UnseenIsNew(src: SourceKind, items: seq<string>, seen: set<Key>)
    ensures NoDup(Unseen(src, items, seen))
    ensures forall e :: e in Unseen(src, items, seen) <==> e in items && (src, e) !in seen
  {
    if items != [] {
      var n := |items| - 1;
      UnseenIsNew(src, items[..n], seen);
      assert items == items[..n] + [items[n]];
    }
  }

  lemma PassIsSafe(l: Ledger, src: SourceKind, items: seq<string>, next: Cursor)
    requires Safe(l)
    ensures Safe(PassLedger(l, src, items, next))
  {
    var ids := Unseen(src, items, l.seen);
    UnseenIsNew(src, items, l.seen);
    KeysOf(src, ids);
    var ks := Keys(src, ids);
    forall k | k in ks ensures k !in l.delivered && k in KeySet(src, items) {
      assert k in KeySet(src, ids);
    }
    forall i, j | 0 <= i < j < |l.delivered + ks| ensures (l.delivered + ks)[i] != (l.delivered + ks)[j] {
      if i < |l.delivered| <= j {
        assert (l.delivered + ks)[j] in ks && (l.delivered + ks)[i] in l.delivered;
      }
    }
  }

  lemma OneMore(src: SourceKind, items: seq<string>, i: nat, seen: set<Key>)
    requires i < |items|
    ensures KeySet(src, items[..i+1]) == KeySet(src, items[..i]) + {(src, items[i])}
    ensures Unseen(src, items[..i+1], seen) ==
              if (src, items[i]) in seen + KeySet(src, items[..i]) then Unseen(src, items[..i], seen)
              else Unseen(src, items[..i], seen) + [items[i]]
  {
    assert items[..i+1][..i] == items[..i] && items[..i+1] == items[..i] + [items[i]];
    assert items[i] in items[..i] <==> (src, items[i]) in KeySet(src, items[..i]);
  }

  lemma FailedPassIsSafe(l: Ledger, l': Ledger, src: SourceKind, items: seq<string>, next: Cursor, n: nat, k: nat)
    requires Safe(l) && FailedAt(l, l', src, items, next, n, k)
    ensures Safe(l') && l.seen <= l'.seen
  {
    var full := PassLedger(l, src, items, next);
    PassIsSafe(l, src, items, next);
    var ids := Unseen(src, items, l.seen);
    assert l'.delivered <= full.delivered by { KeysPrefix(src, ids, k); }
    if k == 0 {
      assert Keys(src, ids[..0]) == [];
    } else {
      assert items[..n] == items;
    }
  }

  lemma KeysPrefix(src: SourceKind, ids: seq<string>, k: nat)
    requires k <= |ids|
    ensures Keys(src, ids[..k]) == Keys(src, ids)[..k]
  {}

  // ---- one source at a time --------------------------------------------------------------

  ghost function Of(keys: seq<Key>, src: SourceKind): seq<Key> {
    if keys == [] then []
    else Of(keys[..|keys|-1], src) + if keys[|keys|-1].0 == src then [keys[|keys|-1]] else []
  }

  ghost function SeenOf(seen: set<Key>, src: SourceKind): set<Key> {
    set k | k in seen && k.0 == src
  }

  ghost function CursorOf(cursors: map<SourceKind, Cursor>, src: SourceKind): map<SourceKind, Cursor> {
    if src in cursors then map[src := cursors[src]] else map[]
  }

  /** The part of a ledger that is about one source. */
  ghost function Restrict(l: Ledger, src: SourceKind): Ledger {
    Ledger(CursorOf(l.cursors, src), SeenOf(l.seen, src), Of(l.delivered, src))
  }

  lemma SeenOfMore(seen: set<Key>, src: SourceKind, items: seq<string>, other: SourceKind)
    ensures SeenOf(seen + KeySet(src, items), other)
         == SeenOf(seen, other) + if other == src then KeySet(src, items) else {}
  {}

  lemma CursorOfMore(cursors: map<SourceKind, Cursor>, src: SourceKind, next: Cursor, other: SourceKind)
    ensures CursorOf(cursors[src := next], other)
         == if other == src then CursorOf(cursors, src)[src := next] else CursorOf(cursors, other)
  {}

  lemma OfMore(keys: seq<Key>, k: Key, src: SourceKind)
    ensures Of(keys + [k], src) == Of(keys, src) + if k.0 == src then [k] else []
  {
    assert (keys + [k])[..|keys|] == keys;
  }

  lemma KeysAppend(src: SourceKind, ids: seq<string>)
    requires ids != []
    ensures Keys(src, ids) == Keys(src, ids[..|ids|-1]) + [(src, ids[|ids|-1])]
  {}

  lemma SeqAssoc(a: seq<Key>, b: seq<Key>, c: seq<Key>)
    ensures a + (b + c) == (a + b) + c
  {}

  lemma {:induction false} OfKeys(keys: seq<Key>, src: SourceKind, ids: seq<string>, other: SourceKind)
    ensures Of(keys + Keys(src, ids), other) == Of(keys, other) + if other == src then Keys(src, ids) else []
  {
    if ids == [] {
      assert keys + Keys(src, ids) == keys;
    } else {
      var n := |ids| - 1;
      OfKeys(keys, src, ids[..n], other);
      KeysAppend(src, ids);
      SeqAssoc(keys, Keys(src, ids[..n]), [(src, ids[n])]);
      OfMore(keys + Keys(src, ids[..n]), (src, ids[n]), other);
    }
  }

  lemma {:induction false} UnseenOfSource(src: SourceKind, items: seq<string>, seen: set<Key>)
    ensures Unseen(src, items, SeenOf(seen, src)) == Unseen(src, items, seen)
  {
    if items != [] { UnseenOfSource(src, items[..|items|-1], seen); }
  }

  /** A pass, done or failed, reads and changes its own source's part only. */
  lemma PassIsLocal(l: Ledger, src: SourceKind, items: seq<string>, next: Cursor, other: SourceKind)
    ensures Restrict(PassLedger(l, src, items, next), other)
         == if other == src then PassLedger(Restrict(l, src), src, items, next) else Restrict(l, other)
  {
    UnseenOfSource(src, items, l.seen);
    SeenOfMore(l.seen, src, items, other);
    CursorOfMore(l.cursors, src, next, other);
    OfKeys(l.delivered, src, Unseen(src, items, l.seen), other);
  }

  lemma FailureIsLocal(l: Ledger, l': Ledger, src: SourceKind, c: Connector, other: SourceKind)
    requires FailedPass(l, l', src, c)
    ensures other == src ==> FailedPass(Restrict(l, src), Restrict(l', src), src, c)
    ensures other != src ==> Restrict(l', other) == Restrict(l, other)
  {
    var (items, next) := c.sync(Lookup(l.cursors, src));
    var n: nat, k: nat :| FailedAt(l, l', src, items, next, n, k);
    FailureAtIsLocal(l, l', src, items, next, n, k, other);
    CursorOfPart(l, src);
  }

  lemma FailureAtIsLocal(l: Ledger, l': Ledger, src: SourceKind, items: seq<string>, next: Cursor, n: nat, k: nat,
                         other: SourceKind)
    requires FailedAt(l, l', src, items, next, n, k)
    ensures other == src ==> FailedAt(Restrict(l, src), Restrict(l', src), src, items, next, n, k)
    ensures other != src ==> Restrict(l', other) == Restrict(l, other)
  {
    UnseenOfSource(src, items, l.seen);
    SeenOfMore(l.seen, src, items[..n], other);
    OfKeys(l.delivered, src, Unseen(src, items, l.seen)[..k], other);
    if l'.cursors != l.cursors { PassIsLocal(l, src, items, next, other); }
  }

  lemma {:induction false} DrainIsLocal(l: Ledger, src: SourceKind, c: Connector, passes: nat, other: SourceKind)
    ensures Restrict(Drain(l, src, c, passes), other)
         == if other == src then Drain(Restrict(l, src), src, c, passes) else Restrict(l, other)
    ensures StillMoving(Restrict(l, src), src, c, passes) <==> StillMoving(l, src, c, passes)
    decreases passes
  {
    if passes > 0 {
      var (items, next) := c.sync(Lookup(l.cursors, src));
      PassIsLocal(l, src, items, next, other);
      PassIsLocal(l, src, items, next, src);
      DrainIsLocal(OnePass(l, src, c), src, c, passes - 1, other);
    }
  }

  lemma FailedDrainIsLocal(l: Ledger, l': Ledger, src: SourceKind, c: Connector, passes: nat, other: SourceKind)
    requires FailedDrain(l, l', src, c, passes)
    ensures other == src ==> FailedDrain(Restrict(l, src), Restrict(l', src), src, c, passes)
    ensures other != src ==> Restrict(l', other) == Restrict(l, other)
  {
    var p: nat :| p < passes && StillMoving(l, src, c, p) && FailedPass(Drain(l, src, c, p), l', src, c);
    DrainIsLocal(l, src, c, p, other);
    FailureIsLocal(Drain(l, src, c, p), l', src, c, other);
  }

  // ---- what one call is asked to do ------------------------------------------------------

  /** A call: `trigger` makes one pass over each source (`passes` absent), `trigger_all` drains
      it; sources in `busy` are being run by others. */
  datatype Request = Request(registry: map<SourceKind, Connector>, passes: Option<nat>, busy: set<SourceKind>)

  /** What became of a ledger when one source was worked on. */
  ghost predicate Became(q: Request, l: Ledger, l': Ledger, src: SourceKind, idle: bool, failed: bool) {
    if idle || src !in q.registry then l' == l && !failed
    else
      match q.passes
      case None => if failed then FailedPass(l, l', src, q.registry[src]) else l' == OnePass(l, src, q.registry[src])
      case Some(p) =>
        if failed then FailedDrain(l, l', src, q.registry[src], p) else l' == Drain(l, src, q.registry[src], p)
  }

  lemma BecameIsLocal(q: Request, l: Ledger, l': Ledger, src: SourceKind, idle: bool, failed: bool, other: SourceKind)
    requires Became(q, l, l', src, idle, failed)
    ensures other == src ==> Became(q, Restrict(l, src), Restrict(l', src), src, idle, failed)
    ensures other != src ==> Restrict(l', other) == Restrict(l, other)
  {
    if !idle && src in q.registry {
      var c := q.registry[src];
      var (items, next) := c.sync(Lookup(l.cursors, src));
      match q.passes
      case None => if failed { FailureIsLocal(l, l', src, c, other); } else { PassIsLocal(l, src, items, next, other); }
      case Some(p) =>
        if failed { FailedDrainIsLocal(l, l', src, c, p, other); } else { DrainIsLocal(l, src, c, p, other); }
    }
  }

  lemma CursorOfPart(l: Ledger, src: SourceKind)
    ensures Lookup(Restrict(l, src).cursors, src) == Lookup(l.cursors, src)
  {}

  // ---- how many items there were -------------------------------------------------------------

  ghost function DrainItems(l: Ledger, src: SourceKind, c: Connector, passes: nat): nat
    decreases passes
  {
    if passes == 0 then 0
    else
      |c.sync(Lookup(l.cursors, src)).0|
      + if Moves(l, src, c) then DrainItems(OnePass(l, src, c), src, c, passes - 1) else 0
  }

  /** What a source adds to `collected` and `skipped` together: its items, or one if it is
      busy. */
  ghost function Counts(q: Request, l: Ledger, src: SourceKind): nat {
    if src in q.busy then 1
    else if src !in q.registry then 0
    else
      match q.passes
      case None => |q.registry[src].sync(Lookup(l.cursors, src)).0|
      case Some(p) => DrainItems(l, src, q.registry[src], p)
  }

  ghost function AllCounts(q: Request, l: Ledger, targets: seq<SourceKind>): nat {
    if targets == [] then 0
    else AllCounts(q, l, targets[..|targets|-1]) + Counts(q, l, targets[|targets|-1])
  }

  lemma {:induction false} DrainItemsAreLocal(l: Ledger, src: SourceKind, c: Connector, passes: nat)
    ensures DrainItems(Restrict(l, src), src, c, passes) == DrainItems(l, src, c, passes)
    decreases passes
  {
    CursorOfPart(l, src);
    if passes > 0 {
      var (items, next) := c.sync(Lookup(l.cursors, src));
      PassIsLocal(l, src, items, next, src);
      DrainItemsAreLocal(OnePass(l, src, c), src, c, passes - 1);
    }
  }

  lemma CountsAreLocal(q: Request, l1: Ledger, l2: Ledger, src: SourceKind)
    requires Restrict(l1, src) == Restrict(l2, src)
    ensures Counts(q, l1, src) == Counts(q, l2, src)
  {
    CursorOfPart(l1, src);
    CursorOfPart(l2, src);
    if src in q.registry && q.passes.Some? {
      DrainItemsAreLocal(l1, src, q.registry[src], q.passes.value);
      DrainItemsAreLocal(l2, src, q.registry[src], q.passes.value);
    }
  }

  // ---- what is left --------------------------------------------------------------------------

  /** Whether a source is asked what it has left: by `trigger` always, by `trigger_all` unless
      it is busy. */
  predicate IsAsked(q: Request, src: SourceKind) {
    src in q.registry && (q.passes.None? || src !in q.busy)
  }

  /** What the connector of a source has left, as it reports it for the saved cursor. */
  ghost function Left(q: Request, l: Ledger, src: SourceKind): nat {
    if IsAsked(q, src) then q.registry[src].remaining(Lookup(l.cursors, src)) else 0
  }

  /** What a source may answer: that, or what it reports for no cursor when the cursor could
      not be read, or nothing. */
  ghost predicate MayAnswer(q: Request, l: Ledger, src: SourceKind, n: nat) {
    n == 0 || n == Left(q, l, src) || (IsAsked(q, src) && n == q.registry[src].remaining(None))
  }

  function Sum(ns: seq<nat>): nat {
    if ns == [] then 0 else Sum(ns[..|ns|-1]) + ns[|ns|-1]
  }

  /** The answers of all targets, each what it may be; without an outage, what is left. */
  ghost predicate Answered(q: Request, l: Ledger, targets: seq<SourceKind>, answers: seq<nat>, fine: bool) {
    && |answers| == |targets|
    && forall i | 0 <= i < |targets| ::
         MayAnswer(q, l, targets[i], answers[i]) && (fine ==> answers[i] == Left(q, l, targets[i]))
  }

  lemma AnsweredElsewhere(q: Request, l: Ledger, l': Ledger, targets: seq<SourceKind>, answers: seq<nat>, fine: bool)
    requires Answered(q, l, targets, answers, fine)
    requires forall src | src in targets :: Restrict(l', src) == Restrict(l, src)
    ensures Answered(q, l', targets, answers, fine)
  {
    forall i | 0 <= i < |targets| ensures Lookup(l'.cursors, targets[i]) == Lookup(l.cursors, targets[i]) {
      assert targets[i] in targets;
      CursorOfPart(l, targets[i]);
      CursorOfPart(l', targets[i]);
    }
  }

  lemma AnsweredMore(q: Request, l: Ledger, targets: seq<SourceKind>, i: nat, answers: seq<nat>, n: nat, fine: bool)
    requires i < |targets| && Answered(q, l, targets[..i], answers, fine)
    requires MayAnswer(q, l, targets[i], n) && (fine ==> n == Left(q, l, targets[i]))
    ensures Answered(q, l, targets[..i+1], answers + [n], fine) && Sum(answers + [n]) == Sum(answers) + n
  {
    assert (answers + [n])[..|answers|] == answers;
  }

  // ---- one target after the other ---------------------------------------------------------------

  /** One source's part after the targets have been dealt with. */
  ghost predicate PartDone(q: Request, l: Ledger, l': Ledger, src: SourceKind, targets: seq<SourceKind>,
                           failed: set<SourceKind>) {
    && (src in failed ==> src in targets)
    && Became(q, Restrict(l, src), Restrict(l', src), src, src !in targets || src in q.busy, src in failed)
  }

  /** The targets have been dealt with, one by one; all other sources are as they were. */
  ghost predicate Handled(q: Request, l: Ledger, l': Ledger, targets: seq<SourceKind>, failed: set<SourceKind>) {
    forall src {:trigger PartDone(q, l, l', src, targets, failed)} :: PartDone(q, l, l', src, targets, failed)
  }

  /** Failures are counted; without one `collected` is what was delivered, and `skipped` the
      rest of the items and the busy sources. */
  ghost predicate Tallied(q: Request, report: Report, failed: set<SourceKind>, before: Ledger, l: Ledger,
                          targets: seq<SourceKind>) {
    && report.errors == |failed|
    && (failed == {} ==>
          && report.collected == |l.delivered| - |before.delivered|
          && report.collected + report.skipped == AllCounts(q, before, targets))
  }

  /** What one target adds to the report. */
  ghost predicate Adds(q: Request, l: Ledger, l': Ledger, src: SourceKind, report: Report, report': Report) {
    && report.errors <= report'.errors <= report.errors + 1 && report'.remaining == report.remaining
    && Became(q, l, l', src, src in q.busy, report'.errors > report.errors)
    && (report'.errors == report.errors ==>
          && report'.collected == report.collected + |l'.delivered| - |l.delivered|
          && report'.collected + report'.skipped == report.collected + report.skipped + Counts(q, l, src))
  }

  ghost function Blamed(failed: set<SourceKind>, src: SourceKind, fails: bool): set<SourceKind> {
    if fails then failed + {src} else failed
  }

  lemma NothingHandled(q: Request, l: Ledger)
    ensures Handled(q, l, l, [], {}) && Tallied(q, Report(0, 0, 0, 0), {}, l, l, [])
  {}

  lemma HandledMore(q: Request, l: Ledger, l1: Ledger, l2: Ledger, targets: seq<SourceKind>, i: nat,
                    failed: set<SourceKind>, fails: bool)
    requires NoDup(targets) && i < |targets| && Handled(q, l, l1, targets[..i], failed)
    requires Became(q, l1, l2, targets[i], targets[i] in q.busy, fails)
    ensures Handled(q, l, l2, targets[..i+1], Blamed(failed, targets[i], fails))
    ensures targets[i] !in failed && Restrict(l1, targets[i]) == Restrict(l, targets[i])
  {
    assert PartDone(q, l, l1, targets[i], targets[..i], failed);
    var done, failed' := targets[..i+1], Blamed(failed, targets[i], fails);
    forall src ensures PartDone(q, l, l2, src, done, failed') {
      assert PartDone(q, l, l1, src, targets[..i], failed);
      PartDoneMore(q, l, l1, l2, targets, i, failed, fails, src);
    }
  }

  /** A part that had been left alone becomes what the step makes of it; every other stays what
      it has become. */
  lemma PartDoneMore(q: Request, l: Ledger, l1: Ledger, l2: Ledger, targets: seq<SourceKind>, i: nat,
                     failed: set<SourceKind>, fails: bool, src: SourceKind)
    requires NoDup(targets) && i < |targets| && PartDone(q, l, l1, src, targets[..i], failed)
    requires Became(q, l1, l2, targets[i], targets[i] in q.busy, fails)
    ensures PartDone(q, l, l2, src, targets[..i+1], Blamed(failed, targets[i], fails))
  {
    assert targets[..i+1] == targets[..i] + [targets[i]];
    BecameIsLocal(q, l1, l2, targets[i], targets[i] in q.busy, fails, src);
    BecameSoFar(q, l, l1, l2, src, src !in targets[..i] || src in q.busy, src in failed);
  }

  lemma BecameSoFar(q: Request, l: Ledger, l1: Ledger, l2: Ledger, src: SourceKind, idle: bool, failed: bool)
    requires Became(q, Restrict(l, src), Restrict(l1, src), src, idle, failed)
    ensures idle ==> Restrict(l, src) == Restrict(l1, src) && !failed
    ensures Restrict(l2, src) == Restrict(l1, src) ==> Became(q, Restrict(l, src), Restrict(l2, src), src, idle, failed)
  {}

  lemma TalliedMore(q: Request, before: Ledger, l1: Ledger, l2: Ledger, targets: seq<SourceKind>, i: nat,
                    failed: set<SourceKind>, report: Report, report': Report)
    requires i < |targets| && targets[i] !in failed && Counts(q, l1, targets[i]) == Counts(q, before, targets[i])
    requires Tallied(q, report, failed, before, l1, targets[..i]) && Adds(q, l1, l2, targets[i], report, report')
    ensures Tallied(q, report', Blamed(failed, targets[i], report'.errors > report.errors), before, l2, targets[..i+1])
  {
    assert targets[i] in failed + {targets[i]};
    assert targets[..i+1][..i] == targets[..i];
  }

  /** One more target has been dealt with. */
  lemma TargetDone(q: Request, before: Ledger, l1: Ledger, l2: Ledger, targets: seq<SourceKind>, i: nat,
                   failed: set<SourceKind>, report: Report, report': Report, answers: seq<nat>, fine: bool)
    requires NoDup(targets) && i < |targets|
    requires Handled(q, before, l1, targets[..i], failed) && Tallied(q, report, failed, before, l1, targets[..i])
    requires Answered(q, l1, targets[..i], answers, fine) && Adds(q, l1, l2, targets[i], report, report')
    ensures var failed' := Blamed(failed, targets[i], report'.errors > report.errors);
      && Handled(q, before, l2, targets[..i+1], failed') && Tallied(q, report', failed', before, l2, targets[..i+1])
    ensures Answered(q, l2, targets[..i], answers, fine)
  {
    var fails := report'.errors > report.errors;
    HandledMore(q, before, l1, l2, targets, i, failed, fails);
    CountsAreLocal(q, l1, before, targets[i]);
    TalliedMore(q, before, l1, l2, targets, i, failed, report, report');
    forall src | src in targets[..i] ensures Restrict(l2, src) == Restrict(l1, src) {
      BecameIsLocal(q, l1, l2, targets[i], targets[i] in q.busy, fails, src);
    }
    AnsweredElsewhere(q, l1, l2, targets[..i], answers, fine);
  }

  /** How many newly marked items were not counted as collected. */
  ghost function Uncounted(report: Report, before: set<Key>, report': Report, seen: set<Key>): int {
    (|seen| - |before|) - (report'.collected - report.collected)
  }

  // ---- loops so far --------------------------------------------------------------------------------

  /** The gate so far: `i` items of the batch have been dealt with. */
  ghost predicate Gated(src: SourceKind, items: seq<string>, i: nat, before: set<Key>, seen: set<Key>,
                        picked: seq<string>, report: Report, report': Report) {
    && i <= |items| && seen == before + KeySet(src, items[..i]) && picked == Unseen(src, items[..i], before)
    && report'.collected == report.collected + |picked| && report'.skipped == report.skipped + i - |picked|
    && report'.errors == report.errors && report'.remaining == report.remaining
  }

  lemma GatedMore(src: SourceKind, items: seq<string>, i: nat, before: set<Key>, seen: set<Key>, picked: seq<string>,
                  report: Report, r: Report)
    requires i < |items| && Gated(src, items, i, before, seen, picked, report, r)
    ensures seen + {(src, items[i])} == before + KeySet(src, items[..i+1])
    ensures (src, items[i]) !in seen ==> |seen + {(src, items[i])}| == |seen| + 1
    ensures if (src, items[i]) in seen then
              Gated(src, items, i + 1, before, seen, picked, report, r.(skipped := r.skipped + 1))
            else Gated(src, items, i + 1, before, seen + {(src, items[i])}, picked + [items[i]], report,
                       r.(collected := r.collected + 1))
  {
    OneMore(src, items, i, before);
  }

  /** A drain so far: all of the first passes moved the cursor. `report` stands for the start. */
  ghost predicate DrainedSoFar(start: Ledger, l: Ledger, src: SourceKind, c: Connector, pass: nat, passes: nat,
                               report: Report, report': Report) {
    && pass <= passes && l == Drain(start, src, c, pass) && StillMoving(start, src, c, pass)
    && Drain(l, src, c, passes - pass) == Drain(start, src, c, passes)
    && report'.collected + report'.skipped + DrainItems(l, src, c, passes - pass)
       == report.collected + report.skipped + DrainItems(start, src, c, passes)
  }

  lemma DrainedMore(start: Ledger, l: Ledger, l': Ledger, src: SourceKind, c: Connector, pass: nat, passes: nat,
                    report: Report, report1: Report, report2: Report)
    requires DrainedSoFar(start, l, src, c, pass, passes, report, report1) && pass < passes && l' == OnePass(l, src, c)
    requires report2.collected + report2.skipped
          == report1.collected + report1.skipped + |c.sync(Lookup(l.cursors, src)).0|
    ensures if Moves(l, src, c) then DrainedSoFar(start, l', src, c, pass + 1, passes, report, report2)
            else l' == Drain(start, src, c, passes)
                 && report2.collected + report2.skipped
                    == report.collected + report.skipped + DrainItems(start, src, c, passes)
  {
    OneMorePass(start, src, c, pass);
  }

  lemma NothingYet(l: Ledger, src: SourceKind, items: seq<string>, next: Cursor)
    ensures FailedAt(l, l, src, items, next, 0, 0)
  {
    assert items[..0] == [] && KeySet(src, []) == {} && Unseen(src, items, l.seen)[..0] == [] && Keys(src, []) == [];
  }

  lemma PartlyMarked(l: Ledger, l': Ledger, src: SourceKind, items: seq<string>, next: Cursor, n: nat)
    requires Safe(l) && n <= |items| && l' == l.(seen := l.seen + KeySet(src, items[..n]))
    ensures FailedAt(l, l', src, items, next, n, 0) && Safe(l')
  {
    assert Unseen(src, items, l.seen)[..0] == [] && Keys(src, []) == [];
    FailedPassIsSafe(l, l', src, items, next, n, 0);
  }

  lemma AllDelivered(l: Ledger, l': Ledger, src: SourceKind, items: seq<string>, next: Cursor, picked: seq<string>)
    requires Safe(l) && picked == Unseen(src, items, l.seen)
    requires l'.seen == l.seen + KeySet(src, items) && l'.delivered == l.delivered + Keys(src, picked)
    requires l'.cursors == l.cursors || l'.cursors == l.cursors[src := next]
    ensures FailedAt(l, l', src, items, next, |items|, |picked|) && Safe(l')
    ensures l'.cursors == l.cursors[src := next] ==> l' == PassLedger(l, src, items, next)
  {
    assert items[..|items|] == items && picked[..|picked|] == picked;
    FailedPassIsSafe(l, l', src, items, next, |items|, |picked|);
  }

  lemma {:induction false} OneMorePass(l: Ledger, src: SourceKind, c: Connector, passes: nat)
    requires StillMoving(l, src, c, passes)
    ensures Drain(l, src, c, passes + 1) == OnePass(Drain(l, src, c, passes), src, c)
    ensures Moves(Drain(l, src, c, passes), src, c) ==> StillMoving(l, src, c, passes + 1)
    decreases passes
  {
    if passes > 0 { OneMorePass(OnePass(l, src, c), src, c, passes - 1); }
  }
}
