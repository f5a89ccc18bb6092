/** `ingestion/service.rs` under concurrency: any number of `trigger` and `trigger_all`
    calls, interleaved at every `await`, with every store, connector and sink call free
    to fail, and to fail after having taken effect.

    A call is a program counter. A run is any sequence of actions: a call begins, or a
    waiting call resumes with a response from the outside. */
module IngestionProtocol {
  import opened Ordering
  import opened Wrappers
  import opened Sources

  type Cursor = string

  /** The dedup key: the source a run works on and the connector's stable id. */
  type Key = (SourceKind, string)

  datatype Report = Report(collected: nat, skipped: nat, errors: nat, remaining: nat)

  /** Where a call is suspended. `pass` counts finished passes of the current drain;
      `todo` is the rest of the synced batch, `picked` what is marked but not handed on. */
  datatype Pc =
    | AtTarget
    | AtCursor(src: SourceKind, pass: nat)
    | AtSync(src: SourceKind, pass: nat, before: Option<Cursor>)
    | AtCheck(src: SourceKind, pass: nat, before: Option<Cursor>, next: Cursor, todo: seq<string>, picked: seq<string>)
    | AtMark(src: SourceKind, pass: nat, before: Option<Cursor>, next: Cursor, todo: seq<string>, picked: seq<string>)
    | AtAccept(src: SourceKind, pass: nat, before: Option<Cursor>, next: Cursor, picked: seq<string>)
    | AtSave(src: SourceKind, pass: nat, before: Option<Cursor>, next: Cursor)
    | AtUnlock(src: SourceKind)
    | AtRemainingCursor(src: SourceKind)
    | AtRemaining(src: SourceKind, cursor: Option<Cursor>)

  /** One `trigger` (`drain` false) or `trigger_all` (`drain` true). `marked` records the
      keys this call has marked seen. */
  datatype Call = Call(targets: seq<SourceKind>, drain: bool, maxPasses: nat, pc: Pc, report: Report, marked: set<Key>)

  /** The shared state. `prior` is the seen-set before the run; `lost` records keys that are
      marked seen although the error that followed kept them from the sink. */
  datatype State = State(
    running: set<SourceKind>,
    cursors: map<SourceKind, Cursor>,
    seen: set<Key>,
    delivered: seq<Key>,
    calls: map<nat, Call>,
    prior: set<Key>,
    lost: set<Key>)

  /** How an awaited call comes back. A failed write or delivery may still have had an
      effect: `effect` says how much of it. */
  datatype Response =
    | Fail(effect: nat)
    | Done
    | Batch(items: seq<string>, next: Cursor)
    | Count(n: nat)

  datatype Action =
    | Begin(id: nat, targets: seq<SourceKind>, drain: bool, maxPasses: nat)
    | Resume(id: nat, response: Response)

  // ---- the code between two awaits ---------------------------------------------------

  function Lookup(cursors: map<SourceKind, Cursor>, src: SourceKind): Option<Cursor> {
    if src in cursors then Some(cursors[src]) else None
  }

  function Min(a: nat, b: nat): nat {
    if a < b then a else b
  }

  /** Start of `run_one_inner`: an unregistered source has nothing to do. */
  function BeginPass(registry: set<SourceKind>, src: SourceKind, pass: nat): Pc {
    if src in registry then AtCursor(src, pass) else AtUnlock(src)
  }

  /** The loop head over the synced batch, up to the next await. */
  function NextItem(src: SourceKind, pass: nat, before: Option<Cursor>, next: Cursor, todo: seq<string>,
                    picked: seq<string>): Pc {
    if todo != [] then AtCheck(src, pass, before, next, todo, picked)
    else if picked != [] then AtAccept(src, pass, before, next, picked)
    else AtSave(src, pass, before, next)
  }

  /** After a pass that came back `Ok(moved)`: `trigger` runs one pass, `trigger_all`
      goes on while the cursor moves and passes are left. */
  function AfterPass(registry: set<SourceKind>, c: Call, src: SourceKind, pass: nat, moved: bool): Pc {
    if c.drain && moved && pass + 1 < c.maxPasses then BeginPass(registry, src, pass + 1) else AtUnlock(src)
  }

  /** `source_remaining`: an unregistered source contributes nothing. */
  function AskRemaining(registry: set<SourceKind>, src: SourceKind): Pc {
    if src in registry then AtRemainingCursor(src) else AtTarget
  }

  function Keys(src: SourceKind, ids: seq<string>): (ks: seq<Key>)
    ensures |ks| == |ids| && forall i | 0 <= i < |ids| :: ks[i] == (src, ids[i])
  {
    seq(|ids|, i requires 0 <= i < |ids| => (src, ids[i]))
  }

  ghost function KeySet(src: SourceKind, ids: seq<string>): set<Key> {
    set e | e in ids :: (src, e)
  }

  ghost function Goto(s: State, id: nat, c: Call, pc: Pc): State {
    s.(calls := s.calls[id := c.(pc := pc)])
  }

  /** The `Err` exit of a pass: one error is reported and the lock goes next. */
  ghost function Abort(s: State, id: nat, c: Call, src: SourceKind, gone: set<Key>): State {
    s.(calls := s.calls[id := c.(pc := AtUnlock(src), report := c.report.(errors := c.report.errors + 1))],
       lost := s.lost + gone)
  }

  ghost function WakeAtTarget(registry: set<SourceKind>, s: State, id: nat, c: Call): State
    requires c.targets != []
  {
    var src, c' := c.targets[0], c.(targets := c.targets[1..]);
    if src in s.running then
      var c'' := c'.(report := c.report.(skipped := c.report.skipped + 1));
      Goto(s, id, c'', if c.drain then AtTarget else AskRemaining(registry, src))
    else
      Goto(s.(running := s.running + {src}), id, c',
           if c.drain && c.maxPasses == 0 then AtUnlock(src) else BeginPass(registry, src, 0))
  }

  ghost function WakeAtMark(s: State, id: nat, c: Call, r: Response): State
    requires c.pc.AtMark? && c.pc.todo != []
  {
    var AtMark(src, pass, before, next, todo, picked) := c.pc;
    var key := (src, todo[0]);
    if r.Fail? && r.effect == 0 then
      Abort(s, id, c, src, KeySet(src, picked))
    else if r.Fail? then
      Abort(s.(seen := s.seen + {key}), id, c, src, KeySet(src, picked) + {key})
    else
      Goto(s.(seen := s.seen + {key}), id,
           c.(report := c.report.(collected := c.report.collected + 1), marked := c.marked + {key}),
           NextItem(src, pass, before, next, todo[1..], picked + [todo[0]]))
  }

  ghost function WakeAtAccept(s: State, id: nat, c: Call, r: Response): State
    requires c.pc.AtAccept?
  {
    var AtAccept(src, pass, before, next, picked) := c.pc;
    if r.Fail? then
      var k := Min(r.effect, |picked|);
      Abort(s.(delivered := s.delivered + Keys(src, picked[..k])), id, c, src, KeySet(src, picked[k..]))
    else Goto(s.(delivered := s.delivered + Keys(src, picked)), id, c, AtSave(src, pass, before, next))
  }

  /** A waiting call has an item to check or mark. */
  predicate Ready(pc: Pc) {
    pc.AtCheck? || pc.AtMark? ==> pc.todo != []
  }

  /** A call wakes up with a response, runs to its next await, and goes to sleep. */
  ghost function Wake(registry: set<SourceKind>, s: State, id: nat, c: Call, r: Response): State
    requires Ready(c.pc)
  {
    match c.pc
    case AtTarget =>
      if c.targets == [] then s else WakeAtTarget(registry, s, id, c)
    case AtCursor(src, pass) =>
      if r.Fail? then Abort(s, id, c, src, {})
      else Goto(s, id, c, AtSync(src, pass, Lookup(s.cursors, src)))
    case AtSync(src, pass, before) =>
      if r.Batch? then Goto(s, id, c, NextItem(src, pass, before, r.next, r.items, []))
      else Abort(s, id, c, src, {})
    case AtCheck(src, pass, before, next, todo, picked) =>
      if r.Fail? then Abort(s, id, c, src, KeySet(src, picked))
      else if (src, todo[0]) in s.seen then
        Goto(s, id, c.(report := c.report.(skipped := c.report.skipped + 1)),
             NextItem(src, pass, before, next, todo[1..], picked))
      else Goto(s, id, c, AtMark(src, pass, before, next, todo, picked))
    case AtMark(_, _, _, _, _, _) => WakeAtMark(s, id, c, r)
    case AtAccept(_, _, _, _, _) => WakeAtAccept(s, id, c, r)
    case AtSave(src, pass, before, next) =>
      if r.Fail? then
        Abort(if r.effect == 0 then s else s.(cursors := s.cursors[src := next]), id, c, src, {})
      else
        Goto(s.(cursors := s.cursors[src := next]), id, c, AfterPass(registry, c, src, pass, before != Some(next)))
    case AtUnlock(src) =>
      Goto(s.(running := s.running - {src}), id, c, AskRemaining(registry, src))
    case AtRemainingCursor(src) =>
      Goto(s, id, c, AtRemaining(src, if r.Fail? then None else Lookup(s.cursors, src)))
    case AtRemaining(src, cursor) =>
      var n := if r.Count? then r.n else 0;
      Goto(s, id, c.(report := c.report.(remaining := c.report.remaining + n)), AtTarget)
  }

  ghost function Do(registry: set<SourceKind>, s: State, a: Action): State {
    match a
    case Begin(id, targets, drain, maxPasses) =>
      if id in s.calls then s
      else s.(calls := s.calls[id := Call(targets, drain, maxPasses, AtTarget, Report(0, 0, 0, 0), {})])
    case Resume(id, r) =>
      if id in s.calls && Ready(s.calls[id].pc) then Wake(registry, s, id, s.calls[id], r) else s
  }

  ghost function Run(registry: set<SourceKind>, s: State, actions: seq<Action>): State
    decreases |actions|
  {
    if actions == [] then s else Run(registry, Do(registry, s, actions[0]), actions[1..])
  }

  ghost predicate Initial(s: State) {
    s.running == {} && s.calls == map[] && s.delivered == [] && s.lost == {} && s.prior == s.seen
  }

  // ---- the invariant --------------------------------------------------------------------

  /** The source whose lock a call holds. */
  function Holds(pc: Pc): Option<SourceKind> {
    match pc
    case AtTarget => None
    case AtRemainingCursor(_) => None
    case AtRemaining(_, _) => None
    case _ => Some(pc.src)
  }

  /** Items marked seen and not yet offered to the sink. */
  function Picked(pc: Pc): seq<string> {
    if pc.AtCheck? || pc.AtMark? || pc.AtAccept? then pc.picked else []
  }

  ghost function InFlight(c: Call): set<Key> {
    if c.pc.AtCheck? || c.pc.AtMark? || c.pc.AtAccept? then KeySet(c.pc.src, c.pc.picked) else {}
  }

  ghost predicate CallOk(s: State, c: Call) {
    && Ready(c.pc)
    && NoDup(Picked(c.pc))
    && InFlight(c) <= c.marked && c.marked <= s.seen - s.prior
    && InFlight(c) !! s.lost
    && (forall k | k in InFlight(c) :: k !in s.delivered)
    && (c.pc.AtMark? ==> (c.pc.src, c.pc.todo[0]) !in s.seen)
    && |c.marked| == c.report.collected
  }

  ghost predicate HasRunner(s: State, src: SourceKind) {
    exists id :: id in s.calls && Holds(s.calls[id].pc) == Some(src)
  }

  ghost predicate InSomeHands(s: State, k: Key) {
    exists id :: id in s.calls && k in InFlight(s.calls[id])
  }

  ghost predicate LocksOk(s: State) {
    && (forall id | id in s.calls && Holds(s.calls[id].pc).Some? :: Holds(s.calls[id].pc).value in s.running)
    && (forall src {:trigger HasRunner(s, src)} | src in s.running :: HasRunner(s, src))
    && (forall a, b | a in s.calls && b in s.calls && a != b && Holds(s.calls[a].pc).Some? ::
          Holds(s.calls[a].pc) != Holds(s.calls[b].pc))
  }

  ghost predicate LedgerOk(s: State) {
    && NoDup(s.delivered)
    && s.prior <= s.seen && s.lost <= s.seen - s.prior
    && (forall k | k in s.delivered :: k in s.seen && k !in s.prior && k !in s.lost)
    && (forall k {:trigger InSomeHands(s, k)} | k in s.seen && k !in s.prior && k !in s.delivered && k !in s.lost ::
      InSomeHands(s, k))
  }

  ghost predicate CallsOk(s: State) {
    && (forall id | id in s.calls :: CallOk(s, s.calls[id]))
    && (forall a, b | a in s.calls && b in s.calls && a != b :: s.calls[a].marked !! s.calls[b].marked)
  }

  ghost predicate Inv(s: State) {
    LocksOk(s) && LedgerOk(s) && CallsOk(s)
  }

  // ---- every action keeps the invariant ----------------------------------------------

  /** Only call `id` has moved. */
  ghost predicate OneMoved(s: State, s': State, id: nat) {
    id in s.calls && id in s'.calls && s'.calls == s.calls[id := s'.calls[id]] && s'.prior == s.prior
  }

  /** The shared ledgers only grew, and only by keys of `src`. */
  ghost predicate GrewFor(s: State, s': State, src: SourceKind) {
    && s.seen <= s'.seen && s.lost <= s'.lost && s.delivered <= s'.delivered
    && (forall k | k in s'.seen - s.seen :: k.0 == src)
    && (forall k | k in s'.lost - s.lost :: k.0 == src)
    && (forall k | k in s'.delivered && k !in s.delivered :: k.0 == src)
  }

  lemma LedgerKept(s: State, s': State, id: nat)
    requires Inv(s) && OneMoved(s, s', id)
    requires s.seen <= s'.seen && s.lost <= s'.lost && s.delivered <= s'.delivered
    requires NoDup(s'.delivered) && s'.lost <= s'.seen - s'.prior
    requires forall k | k in s'.delivered :: k in s'.seen && k !in s'.prior && k !in s'.lost
    requires forall k | k in s'.seen - s.seen || k in InFlight(s.calls[id]) ::
               k in InFlight(s'.calls[id]) || k in s'.lost || k in s'.delivered
    ensures LedgerOk(s')
  {
    forall k | k in s'.seen && k !in s'.prior && k !in s'.delivered && k !in s'.lost
      ensures InSomeHands(s', k)
    {
      if k !in InFlight(s'.calls[id]) {
        assert InSomeHands(s, k);
        var j :| j in s.calls && k in InFlight(s.calls[j]);
        assert s'.calls[j] == s.calls[j];
      }
    }
  }

  /** The other calls do not notice: what they hold belongs to other sources. */
  lemma CallsKept(s: State, s': State, id: nat, src: SourceKind)
    requires Inv(s) && OneMoved(s, s', id) && GrewFor(s, s', src)
    requires Holds(s.calls[id].pc) == Some(src)
      || (s'.seen == s.seen && s'.lost == s.lost && s'.delivered == s.delivered)
    requires CallOk(s', s'.calls[id])
    requires s'.calls[id].marked - s.calls[id].marked !! s.seen
    ensures CallsOk(s')
  {
    forall j | j in s'.calls && j != id
      ensures CallOk(s', s'.calls[j]) && s'.calls[j].marked !! s'.calls[id].marked
    {
      OtherCallKept(s, s', id, src, j);
    }
  }

  lemma OtherCallKept(s: State, s': State, id: nat, src: SourceKind, j: nat)
    requires Inv(s) && OneMoved(s, s', id) && GrewFor(s, s', src) && j in s'.calls && j != id
    requires Holds(s.calls[id].pc) == Some(src)
      || (s'.seen == s.seen && s'.lost == s.lost && s'.delivered == s.delivered)
    requires s'.calls[id].marked - s.calls[id].marked !! s.seen
    ensures CallOk(s', s'.calls[j]) && s'.calls[j].marked !! s'.calls[id].marked
  {
    var c := s.calls[j];
    assert s'.calls[j] == c && CallOk(s, c);
    if Holds(s.calls[id].pc) == Some(src) && Holds(c.pc).Some? {
      assert Holds(c.pc) != Some(src);
      assert c.pc.AtMark? ==> (c.pc.src, c.pc.todo[0]) !in s'.seen;
    }
  }

  lemma LocksKept(s: State, s': State, id: nat)
    requires Inv(s) && OneMoved(s, s', id)
    requires var h, h' := Holds(s.calls[id].pc), Holds(s'.calls[id].pc);
      || (h' == h && s'.running == s.running)
      || (h.None? && h'.Some? && h'.value !in s.running && s'.running == s.running + {h'.value})
      || (h.Some? && h'.None? && s'.running == s.running - {h.value})
    ensures LocksOk(s')
  {
    forall src | src in s'.running ensures HasRunner(s', src) {
      if Holds(s'.calls[id].pc) != Some(src) {
        assert HasRunner(s, src);
        var j :| j in s.calls && Holds(s.calls[j].pc) == Some(src);
        assert j != id && s'.calls[j] == s.calls[j];
      }
    }
  }

  /** A step that leaves the ledgers and what the call has in hand as they are. */
  lemma QuietKept(s: State, s': State, id: nat)
    requires Inv(s) && OneMoved(s, s', id)
    requires s'.seen == s.seen && s'.lost == s.lost && s'.delivered == s.delivered
    requires var c, c' := s.calls[id], s'.calls[id];
      && InFlight(c') == InFlight(c) && NoDup(Picked(c'.pc)) && Ready(c'.pc)
      && c'.marked == c.marked && c'.report.collected == c.report.collected
      && (c'.pc.AtMark? ==> (c'.pc.src, c'.pc.todo[0]) !in s.seen)
    requires LocksOk(s')
    ensures Inv(s')
  {
    assert CallOk(s, s.calls[id]);
    LedgerKept(s, s', id);
    CallsKept(s, s', id, Session);
  }

  /** A step that gives up: what the call had in hand is lost. */
  lemma AbortKept(s: State, s': State, id: nat, src: SourceKind)
    requires Inv(s) && OneMoved(s, s', id) && Holds(s.calls[id].pc) == Some(src)
    requires s'.running == s.running && s'.calls[id].pc == AtUnlock(src)
    requires s'.calls[id].marked == s.calls[id].marked && s'.calls[id].report.collected == s.calls[id].report.collected
    requires GrewFor(s, s', src) && NoDup(s'.delivered) && s'.lost <= s'.seen - s'.prior
    requires forall k | k in s'.delivered :: k in s'.seen && k !in s'.prior && k !in s'.lost
    requires forall k | k in s'.seen - s.seen || k in InFlight(s.calls[id]) :: k in s'.lost || k in s'.delivered
    ensures Inv(s')
  {
    assert CallOk(s, s.calls[id]);
    LocksKept(s, s', id);
    LedgerKept(s, s', id);
    CallsKept(s, s', id, src);
  }

  lemma WakeKeepsBusyTarget(registry: set<SourceKind>, s: State, id: nat)
    requires Inv(s) && id in s.calls && s.calls[id].pc.AtTarget? && s.calls[id].targets != []
    requires s.calls[id].targets[0] in s.running
    ensures Inv(WakeAtTarget(registry, s, id, s.calls[id]))
  {
    var s' := WakeAtTarget(registry, s, id, s.calls[id]);
    assert Holds(s'.calls[id].pc) == None && s'.running == s.running;
    LocksKept(s, s', id);
    QuietKept(s, s', id);
  }

  lemma WakeKeepsFreeTarget(registry: set<SourceKind>, s: State, id: nat)
    requires Inv(s) && id in s.calls && s.calls[id].pc.AtTarget? && s.calls[id].targets != []
    requires s.calls[id].targets[0] !in s.running
    ensures Inv(WakeAtTarget(registry, s, id, s.calls[id]))
  {
    var src := s.calls[id].targets[0];
    var s' := WakeAtTarget(registry, s, id, s.calls[id]);
    assert Holds(s'.calls[id].pc) == Some(src) && s'.running == s.running + {src};
    LocksKept(s, s', id);
    QuietKept(s, s', id);
  }

  lemma WakeKeepsCursor(registry: set<SourceKind>, s: State, id: nat, r: Response)
    requires Inv(s) && id in s.calls && s.calls[id].pc.AtCursor?
    ensures Inv(Wake(registry, s, id, s.calls[id], r))
  {
    var s' := Wake(registry, s, id, s.calls[id], r);
    LocksKept(s, s', id);
    QuietKept(s, s', id);
  }

  lemma WakeKeepsSync(registry: set<SourceKind>, s: State, id: nat, r: Response)
    requires Inv(s) && id in s.calls && s.calls[id].pc.AtSync?
    ensures Inv(Wake(registry, s, id, s.calls[id], r))
  {
    var s' := Wake(registry, s, id, s.calls[id], r);
    assert KeySet(s.calls[id].pc.src, []) == {};
    assert Holds(s'.calls[id].pc) == Holds(s.calls[id].pc) && s'.running == s.running;
    LocksKept(s, s', id);
    QuietKept(s, s', id);
  }

  lemma WakeKeepsSave(registry: set<SourceKind>, s: State, id: nat, r: Response)
    requires Inv(s) && id in s.calls && s.calls[id].pc.AtSave?
    ensures Inv(Wake(registry, s, id, s.calls[id], r))
  {
    var s' := Wake(registry, s, id, s.calls[id], r);
    LocksKept(s, s', id);
    QuietKept(s, s', id);
  }

  lemma WakeKeepsWindingDown(registry: set<SourceKind>, s: State, id: nat, r: Response)
    requires Inv(s) && id in s.calls
    requires s.calls[id].pc.AtUnlock? || s.calls[id].pc.AtRemainingCursor? || s.calls[id].pc.AtRemaining?
    ensures Inv(Wake(registry, s, id, s.calls[id], r))
  {
    var s' := Wake(registry, s, id, s.calls[id], r);
    LocksKept(s, s', id);
    QuietKept(s, s', id);
  }

  lemma WakeKeepsCheck(registry: set<SourceKind>, s: State, id: nat, r: Response)
    requires Inv(s) && id in s.calls && s.calls[id].pc.AtCheck? && Ready(s.calls[id].pc) && !r.Fail?
    ensures Inv(Wake(registry, s, id, s.calls[id], r))
  {
    if (s.calls[id].pc.src, s.calls[id].pc.todo[0]) in s.seen {
      WakeKeepsOldItem(registry, s, id, r);
    } else {
      WakeKeepsNewItem(registry, s, id, r);
    }
  }

  lemma WakeKeepsOldItem(registry: set<SourceKind>, s: State, id: nat, r: Response)
    requires Inv(s) && id in s.calls && s.calls[id].pc.AtCheck? && Ready(s.calls[id].pc) && !r.Fail?
    requires (s.calls[id].pc.src, s.calls[id].pc.todo[0]) in s.seen
    ensures Inv(Wake(registry, s, id, s.calls[id], r))
  {
    var c := s.calls[id];
    assert CallOk(s, c);
    var s' := Wake(registry, s, id, c, r);
    assert KeySet(c.pc.src, []) == {};
    LocksKept(s, s', id);
    QuietKept(s, s', id);
  }

  lemma WakeKeepsNewItem(registry: set<SourceKind>, s: State, id: nat, r: Response)
    requires Inv(s) && id in s.calls && s.calls[id].pc.AtCheck? && Ready(s.calls[id].pc) && !r.Fail?
    requires (s.calls[id].pc.src, s.calls[id].pc.todo[0]) !in s.seen
    ensures Inv(Wake(registry, s, id, s.calls[id], r))
  {
    var c := s.calls[id];
    assert CallOk(s, c);
    var s' := Wake(registry, s, id, c, r);
    LocksKept(s, s', id);
    QuietKept(s, s', id);
  }

  lemma WakeKeepsCheckFailure(registry: set<SourceKind>, s: State, id: nat, r: Response)
    requires Inv(s) && id in s.calls && s.calls[id].pc.AtCheck? && Ready(s.calls[id].pc) && r.Fail?
    ensures Inv(Wake(registry, s, id, s.calls[id], r))
  {
    var c := s.calls[id];
    assert CallOk(s, c);
    AbortKept(s, Wake(registry, s, id, c, r), id, c.pc.src);
  }

  lemma WakeKeepsMarkFailure(s: State, id: nat, r: Response)
    requires Inv(s) && id in s.calls && s.calls[id].pc.AtMark? && Ready(s.calls[id].pc) && r.Fail?
    ensures Inv(WakeAtMark(s, id, s.calls[id], r))
  {
    if r.effect == 0 { WakeKeepsUnmarked(s, id, r); } else { WakeKeepsHalfMarked(s, id, r); }
  }

  lemma WakeKeepsUnmarked(s: State, id: nat, r: Response)
    requires Inv(s) && id in s.calls && s.calls[id].pc.AtMark? && Ready(s.calls[id].pc) && r.Fail? && r.effect == 0
    ensures Inv(WakeAtMark(s, id, s.calls[id], r))
  {
    assert CallOk(s, s.calls[id]);
    AbortKept(s, WakeAtMark(s, id, s.calls[id], r), id, s.calls[id].pc.src);
  }

  lemma WakeKeepsHalfMarked(s: State, id: nat, r: Response)
    requires Inv(s) && id in s.calls && s.calls[id].pc.AtMark? && Ready(s.calls[id].pc) && r.Fail? && r.effect > 0
    ensures Inv(WakeAtMark(s, id, s.calls[id], r))
  {
    assert CallOk(s, s.calls[id]);
    AbortKept(s, WakeAtMark(s, id, s.calls[id], r), id, s.calls[id].pc.src);
  }

  lemma KeySetAppend(src: SourceKind, ids: seq<string>, e: string)
    requires NoDup(ids) && (src, e) !in KeySet(src, ids)
    ensures NoDup(ids + [e]) && KeySet(src, ids + [e]) == KeySet(src, ids) + {(src, e)}
  {
    forall i | 0 <= i < |ids| ensures ids[i] != e {
      assert (src, ids[i]) in KeySet(src, ids);
    }
  }

  lemma WakeKeepsMark(s: State, id: nat, r: Response)
    requires Inv(s) && id in s.calls && s.calls[id].pc.AtMark? && Ready(s.calls[id].pc) && !r.Fail?
    ensures Inv(WakeAtMark(s, id, s.calls[id], r))
  {
    var c := s.calls[id];
    assert CallOk(s, c);
    var src, e, key := c.pc.src, c.pc.todo[0], (c.pc.src, c.pc.todo[0]);
    var s' := WakeAtMark(s, id, c, r);
    var c' := s'.calls[id];
    KeySetAppend(src, c.pc.picked, e);
    assert InFlight(c') == InFlight(c) + {key};
    assert CallOk(s', c');
    LocksKept(s, s', id);
    LedgerKept(s, s', id);
    CallsKept(s, s', id, src);
  }

  lemma KeysOf(src: SourceKind, ids: seq<string>)
    requires NoDup(ids)
    ensures NoDup(Keys(src, ids))
    ensures forall k :: k in Keys(src, ids) <==> k in KeySet(src, ids)
  {
    forall k | k in KeySet(src, ids) ensures k in Keys(src, ids) {
      var i :| 0 <= i < |ids| && k == (src, ids[i]);
      assert Keys(src, ids)[i] == k;
    }
  }

  lemma KeySetSplit(src: SourceKind, ids: seq<string>, k: nat)
    requires NoDup(ids) && k <= |ids|
    ensures KeySet(src, ids[..k]) !! KeySet(src, ids[k..])
    ensures KeySet(src, ids) == KeySet(src, ids[..k]) + KeySet(src, ids[k..])
  {
    assert ids == ids[..k] + ids[k..];
    forall x | x in KeySet(src, ids[..k]) ensures x !in KeySet(src, ids[k..]) {
      var i :| 0 <= i < k && x == (src, ids[i]);
    }
  }

  lemma DeliverMore(s: State, ks: seq<Key>)
    requires NoDup(s.delivered) && NoDup(ks) && forall k | k in ks :: k !in s.delivered
    ensures NoDup(s.delivered + ks)
  {
    var xs := s.delivered + ks;
    forall i, j | 0 <= i < j < |xs| ensures xs[i] != xs[j] {
      if i < |s.delivered| <= j {
        assert xs[j] == ks[j-|s.delivered|] && xs[j] in ks && xs[i] in s.delivered;
      } else if |s.delivered| <= i {
        assert xs[i] == ks[i-|s.delivered|] && xs[j] == ks[j-|s.delivered|];
      }
    }
  }

  lemma WakeKeepsRefusal(s: State, id: nat, r: Response)
    requires Inv(s) && id in s.calls && s.calls[id].pc.AtAccept? && r.Fail?
    ensures Inv(WakeAtAccept(s, id, s.calls[id], r))
  {
    var c := s.calls[id];
    assert CallOk(s, c);
    var src, ids := c.pc.src, c.pc.picked;
    var k := Min(r.effect, |ids|);
    KeySetSplit(src, ids, k);
    KeysOf(src, ids[..k]);
    DeliverMore(s, Keys(src, ids[..k]));
    AbortKept(s, WakeAtAccept(s, id, c, r), id, src);
  }

  lemma WakeKeepsAccept(s: State, id: nat, r: Response)
    requires Inv(s) && id in s.calls && s.calls[id].pc.AtAccept? && !r.Fail?
    ensures Inv(WakeAtAccept(s, id, s.calls[id], r))
  {
    var c := s.calls[id];
    assert CallOk(s, c);
    var src, ids := c.pc.src, c.pc.picked;
    var s' := WakeAtAccept(s, id, c, r);
    KeysOf(src, ids);
    DeliverMore(s, Keys(src, ids));
    assert KeySet(src, []) == {};
    LocksKept(s, s', id);
    LedgerKept(s, s', id);
    CallsKept(s, s', id, src);
  }

  lemma WakeKeeps(registry: set<SourceKind>, s: State, id: nat, r: Response)
    requires Inv(s) && id in s.calls && Ready(s.calls[id].pc)
    ensures Inv(Wake(registry, s, id, s.calls[id], r))
  {
    match s.calls[id].pc
    case AtTarget =>
      if s.calls[id].targets != [] {
        if s.calls[id].targets[0] in s.running {
          WakeKeepsBusyTarget(registry, s, id);
        } else {
          WakeKeepsFreeTarget(registry, s, id);
        }
      }
    case AtMark(_, _, _, _, _, _) => if r.Fail? { WakeKeepsMarkFailure(s, id, r); } else { WakeKeepsMark(s, id, r); }
    case AtAccept(_, _, _, _, _) => if r.Fail? { WakeKeepsRefusal(s, id, r); } else { WakeKeepsAccept(s, id, r); }
    case AtCheck(_, _, _, _, _, _) =>
      if r.Fail? { WakeKeepsCheckFailure(registry, s, id, r); } else { WakeKeepsCheck(registry, s, id, r); }
    case AtCursor(_, _) => WakeKeepsCursor(registry, s, id, r);
    case AtSync(_, _, _) => WakeKeepsSync(registry, s, id, r);
    case AtSave(_, _, _, _) => WakeKeepsSave(registry, s, id, r);
    case _ => WakeKeepsWindingDown(registry, s, id, r);
  }

  lemma BeginKeeps(s: State, id: nat, c: Call)
    requires Inv(s) && id !in s.calls && c.pc.AtTarget? && c.marked == {} && c.report.collected == 0
    ensures Inv(s.(calls := s.calls[id := c]))
  {
    var s' := s.(calls := s.calls[id := c]);
    forall j | j in s.calls ensures s'.calls[j] == s.calls[j] && CallOk(s', s'.calls[j]) {
      assert CallOk(s, s.calls[j]);
    }
    forall src | src in s'.running ensures HasRunner(s', src) {
      assert HasRunner(s, src);
      var j :| j in s.calls && Holds(s.calls[j].pc) == Some(src);
      assert s'.calls[j] == s.calls[j];
    }
    forall k | k in s'.seen && k !in s'.prior && k !in s'.delivered && k !in s'.lost
      ensures InSomeHands(s', k)
    {
      assert InSomeHands(s, k);
      var j :| j in s.calls && k in InFlight(s.calls[j]);
      assert s'.calls[j] == s.calls[j];
    }
    assert CallOk(s', c);
    assert LocksOk(s');
    assert LedgerOk(s');
  }

  lemma {:induction false} RunKeeps(registry: set<SourceKind>, s: State, actions: seq<Action>)
    requires Inv(s)
    ensures Inv(Run(registry, s, actions))
    decreases |actions|
  {
    if actions != [] {
      var a := actions[0];
      match a {
        case Begin(id, targets, drain, maxPasses) =>
          if id !in s.calls { BeginKeeps(s, id, Call(targets, drain, maxPasses, AtTarget, Report(0, 0, 0, 0), {})); }
        case Resume(id, r) =>
          if id in s.calls && Ready(s.calls[id].pc) { WakeKeeps(registry, s, id, r); }
      }
      RunKeeps(registry, Do(registry, s, a), actions[1..]);
    }
  }
}
