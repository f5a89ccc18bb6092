/** What `trigger_all` makes of a backlog that a connector hands out in batches. */
module IngestionDraining {
  import opened Ordering
  import opened Wrappers
  import opened Sources
  import opened IngestionProtocol
  import opened IngestionLedger

  /** A connector handing out a backlog `batch` items at a time: its cursor encodes how
      many items it has covered, and never goes back. */
  ghost predicate HandsOut(c: Connector, ids: seq<string>, batch: nat, encode: nat -> Cursor) {
    && batch >= 1 && NoDup(ids)
    && (forall a, b | encode(a) == encode(b) :: a == b)
    && (forall cursor, d: nat | Covered(cursor, d, encode) && d <= |ids| ::
          && c.sync(cursor) == (ids[d..Reach(d, batch, |ids|)], encode(Reach(d, batch, |ids|)))
          && c.remaining(cursor) == |ids| - d)
  }

  ghost predicate Covered(cursor: Option<Cursor>, d: nat, encode: nat -> Cursor) {
    cursor == Some(encode(d)) || (cursor == None && d == 0)
  }

  function Reach(d: nat, batch: nat, total: nat): (r: nat)
    ensures d <= total ==> d <= r <= total
  {
    if d + batch < total then d + batch else if d < total then total else d
  }

  /** The ledger after the first `d` items of the backlog and nothing else of `src`. */
  ghost predicate HasTaken(l0: Ledger, l: Ledger, src: SourceKind, ids: seq<string>, d: nat, encode: nat -> Cursor) {
    && d <= |ids| && Covered(Lookup(l.cursors, src), d, encode)
    && l.seen == l0.seen + KeySet(src, ids[..d])
    && l.delivered == l0.delivered + Keys(src, ids[..d])
  }

  /** Nothing of `src` has been collected yet. */
  ghost predicate FromScratch(l: Ledger, src: SourceKind) {
    src !in l.cursors && forall e :: (src, e) !in l.seen
  }

  lemma {:induction false} AllNew(src: SourceKind, items: seq<string>, seen: set<Key>)
    requires NoDup(items) && forall e | e in items :: (src, e) !in seen
    ensures Unseen(src, items, seen) == items
  {
    if items != [] {
      var n := |items| - 1;
      assert items[n] in items && items[n] !in items[..n];
      AllNew(src, items[..n], seen);
    }
  }

  lemma PassTakes(l0: Ledger, l: Ledger, src: SourceKind, c: Connector, ids: seq<string>, batch: nat, d: nat,
                  encode: nat -> Cursor)
    requires HandsOut(c, ids, batch, encode) && FromScratch(l0, src) && HasTaken(l0, l, src, ids, d, encode)
    ensures HasTaken(l0, OnePass(l, src, c), src, ids, Reach(d, batch, |ids|), encode)
    ensures Lookup(OnePass(l, src, c).cursors, src).Some?
    ensures !Moves(l, src, c) ==> d == |ids|
    ensures d == |ids| && Lookup(l.cursors, src).Some? ==> !Moves(l, src, c)
  {
    var d' := Reach(d, batch, |ids|);
    SyncOf(l, src, c, ids, batch, d, encode);
    TakeSlice(l0, l, src, ids, d, d', encode);
  }

  lemma SyncOf(l: Ledger, src: SourceKind, c: Connector, ids: seq<string>, batch: nat, d: nat, encode: nat -> Cursor)
    requires HandsOut(c, ids, batch, encode) && d <= |ids| && Covered(Lookup(l.cursors, src), d, encode)
    ensures c.sync(Lookup(l.cursors, src)) == (ids[d..Reach(d, batch, |ids|)], encode(Reach(d, batch, |ids|)))
    ensures !Moves(l, src, c) ==> d == |ids|
    ensures d == |ids| && Lookup(l.cursors, src).Some? ==> !Moves(l, src, c)
  {}

  lemma TakeSlice(l0: Ledger, l: Ledger, src: SourceKind, ids: seq<string>, d: nat, d': nat, encode: nat -> Cursor)
    requires NoDup(ids) && FromScratch(l0, src) && HasTaken(l0, l, src, ids, d, encode) && d <= d' <= |ids|
    ensures HasTaken(l0, PassLedger(l, src, ids[d..d'], encode(d')), src, ids, d', encode)
  {
    SliceIsNew(l0, l, src, ids, d, d');
    AllNew(src, ids[d..d'], l.seen);
    SliceKeys(src, ids, d, d');
    SetAssoc(l0.seen, KeySet(src, ids[..d]), KeySet(src, ids[d..d']));
    SeqAssoc(l0.delivered, Keys(src, ids[..d]), Keys(src, ids[d..d']));
  }

  lemma SetAssoc(a: set<Key>, b: set<Key>, c: set<Key>)
    ensures (a + b) + c == a + (b + c)
  {}

  lemma SliceIsNew(l0: Ledger, l: Ledger, src: SourceKind, ids: seq<string>, d: nat, d': nat)
    requires NoDup(ids) && d <= d' <= |ids| && FromScratch(l0, src) && l.seen == l0.seen + KeySet(src, ids[..d])
    ensures NoDup(ids[d..d'])
    ensures forall e | e in ids[d..d'] :: (src, e) !in l.seen
  {
    forall e | e in ids[d..d'] ensures (src, e) !in l.seen {
      var i :| d <= i < d' && ids[i] == e;
      assert forall j | 0 <= j < d :: ids[j] != ids[i];
    }
  }

  lemma SliceKeys(src: SourceKind, ids: seq<string>, d: nat, d': nat)
    requires d <= d' <= |ids|
    ensures Keys(src, ids[..d']) == Keys(src, ids[..d]) + Keys(src, ids[d..d'])
    ensures KeySet(src, ids[..d']) == KeySet(src, ids[..d]) + KeySet(src, ids[d..d'])
  {
    assert ids[..d'] == ids[..d] + ids[d..d'];
    KeysConcat(src, ids[..d], ids[d..d']);
  }

  lemma KeysConcat(src: SourceKind, a: seq<string>, b: seq<string>)
    ensures Keys(src, a + b) == Keys(src, a) + Keys(src, b)
    ensures KeySet(src, a + b) == KeySet(src, a) + KeySet(src, b)
  {}

  function CoveredAfter(d: nat, batch: nat, total: nat, passes: nat): nat
    decreases passes
  {
    if passes == 0 then d else CoveredAfter(Reach(d, batch, total), batch, total, passes - 1)
  }

  lemma {:induction false} DrainTakes(l0: Ledger, l: Ledger, src: SourceKind, c: Connector, ids: seq<string>,
                                      batch: nat, d: nat, encode: nat -> Cursor, passes: nat)
    requires HandsOut(c, ids, batch, encode) && FromScratch(l0, src) && HasTaken(l0, l, src, ids, d, encode)
    ensures HasTaken(l0, Drain(l, src, c, passes), src, ids, CoveredAfter(d, batch, |ids|, passes), encode)
    decreases passes
  {
    if passes > 0 {
      PassTakes(l0, l, src, c, ids, batch, d, encode);
      if Moves(l, src, c) {
        DrainTakes(l0, OnePass(l, src, c), src, c, ids, batch, Reach(d, batch, |ids|), encode, passes - 1);
      } else {
        AllCovered(|ids|, batch, passes);
      }
    }
  }

  lemma {:induction false} AllCovered(total: nat, batch: nat, passes: nat)
    ensures CoveredAfter(total, batch, total, passes) == total
  {
    if passes > 0 { AllCovered(total, batch, passes - 1); }
  }

  lemma {:induction false} CoveredClosedForm(d: nat, batch: nat, total: nat, passes: nat)
    requires d <= total && batch >= 1
    ensures CoveredAfter(d, batch, total, passes) == if d + passes * batch < total then d + passes * batch else total
    decreases passes
  {
    if passes > 0 {
      CoveredClosedForm(Reach(d, batch, total), batch, total, passes - 1);
      assert passes * batch == batch + (passes - 1) * batch;
    } else {
      assert passes * batch == 0;
    }
  }

  /** Draining from scratch with a bound of `passes` delivers exactly the first
      min(total, passes * batch) items of the backlog, in order, each once, and leaves
      exactly the rest as `remaining`. */
  lemma DrainDeliversPrefix(l: Ledger, src: SourceKind, c: Connector, ids: seq<string>, batch: nat,
                            encode: nat -> Cursor, passes: nat)
    requires HandsOut(c, ids, batch, encode) && FromScratch(l, src)
    ensures var n := if passes * batch < |ids| then passes * batch else |ids|;
      var l' := Drain(l, src, c, passes);
      && l'.delivered == l.delivered + Keys(src, ids[..n])
      && l'.seen == l.seen + KeySet(src, ids[..n])
      && c.remaining(Lookup(l'.cursors, src)) == |ids| - n
  {
    assert ids[..0] == [] && KeySet(src, ids[..0]) == {} && Keys(src, ids[..0]) == [];
    assert HasTaken(l, l, src, ids, 0, encode);
    DrainTakes(l, l, src, c, ids, batch, 0, encode, passes);
    CoveredClosedForm(0, batch, |ids|, passes);
  }

  /** Bounds past the first standstill are never used: once the backlog is covered, a
      larger bound drains to the same ledger. */
  lemma StopsAtStandstill(l: Ledger, src: SourceKind, c: Connector, ids: seq<string>, batch: nat, encode: nat -> Cursor,
                          passes: nat, more: nat)
    requires HandsOut(c, ids, batch, encode) && FromScratch(l, src)
    requires passes <= more && passes >= 2 && (passes - 1) * batch >= |ids|
    ensures Drain(l, src, c, more) == Drain(l, src, c, passes)
  {
    CoveredClosedForm(0, batch, |ids|, passes - 1);
    DrainSettles(l, src, c, ids, batch, encode, passes, more);
  }

  lemma DrainSettles(l: Ledger, src: SourceKind, c: Connector, ids: seq<string>, batch: nat, encode: nat -> Cursor,
                     passes: nat, more: nat)
    requires HandsOut(c, ids, batch, encode) && FromScratch(l, src)
    requires 2 <= passes <= more && CoveredAfter(0, batch, |ids|, passes - 1) == |ids|
    ensures Drain(l, src, c, more) == Drain(l, src, c, passes)
  {
    assert ids[..0] == [] && KeySet(src, ids[..0]) == {} && Keys(src, ids[..0]) == [];
    assert HasTaken(l, l, src, ids, 0, encode);
    PassTakes(l, l, src, c, ids, batch, 0, encode);
    if Moves(l, src, c) {
      BacklogSettles(l, OnePass(l, src, c), src, c, ids, batch, Reach(0, batch, |ids|), encode, passes - 1);
    }
    SettledDrain(l, src, c, passes, more);
  }

  /** Within the bound, some pass leaves the cursor where it was. */
  ghost predicate Settles(l: Ledger, src: SourceKind, c: Connector, passes: nat)
    decreases passes
  {
    passes > 0 && (!Moves(l, src, c) || Settles(OnePass(l, src, c), src, c, passes - 1))
  }

  lemma {:induction false} SettledDrain(l: Ledger, src: SourceKind, c: Connector, passes: nat, more: nat)
    requires Settles(l, src, c, passes) && passes <= more
    ensures Drain(l, src, c, more) == Drain(l, src, c, passes)
    decreases passes
  {
    if Moves(l, src, c) { SettledDrain(OnePass(l, src, c), src, c, passes - 1, more - 1); }
  }

  lemma {:induction false} BacklogSettles(l0: Ledger, l: Ledger, src: SourceKind, c: Connector, ids: seq<string>,
                                          batch: nat, d: nat, encode: nat -> Cursor, passes: nat)
    requires HandsOut(c, ids, batch, encode) && FromScratch(l0, src) && HasTaken(l0, l, src, ids, d, encode)
    requires Lookup(l.cursors, src).Some? && 1 <= passes && CoveredAfter(d, batch, |ids|, passes - 1) == |ids|
    ensures Settles(l, src, c, passes)
    decreases passes
  {
    PassTakes(l0, l, src, c, ids, batch, d, encode);
    if Moves(l, src, c) {
      BacklogSettles(l0, OnePass(l, src, c), src, c, ids, batch, Reach(d, batch, |ids|), encode, passes - 1);
    }
  }
}
