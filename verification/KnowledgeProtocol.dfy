/** `knowledge/service.rs` under concurrency: any number of `upsert`, `set_sharing`,
    `build_index` and lazily initializing reads, interleaved at every `await`, with store
    calls free to fail, and to fail after having taken effect.

    The in-memory index is represented by the facts it stands for; module SearchIndex
    proves that its content is `IndexOf` of these. */
module KnowledgeProtocol {
  import opened Wrappers
  import opened Texts
  import opened Ordering
  import opened KnowledgeTypes
  import opened Tokenizer
  import opened SearchIndex

  datatype Change = Change(before: string, after: string)

  datatype Op =
    | Upsert(fact: Fact)
    | SetSharing(id: FactId, visibility: Visibility, category: Option<Category>)
    | Build
    | Read(query: string, filter: Option<Scope>)

  /** Where a call is suspended. From `Listing` to `Loading` and from `GetPrev` to
      `LogWriting` it holds the write lock. */
  datatype Pc =
    | Begin
    | WantBuild
    | WantInit
    | Listing
    | Loading(todo: seq<FactId>, got: seq<Fact>)
    | Ready
    | WantWrite
    | GetPrev
    | Putting(next: Fact, prev: Option<Fact>)
    | LogReading(next: Fact, before: string)
    | LogWriting(next: Fact, before: string, log: seq<Change>)
    | Finished(ok: bool)

  datatype Call = Call(op: Op, pc: Pc, answer: map<FactId, FactSummary>)

  /** `stale` records facts whose stored version may have changed without reaching the
      index, `torn` facts whose body may have changed without reaching the history, and
      `bodies` every body a fact has had, in order: all three only record. */
  datatype State = State(
    facts: map<FactId, Fact>,
    history: map<FactId, seq<Change>>,
    indexed: map<FactId, Fact>,
    initialized: bool,
    lock: Option<nat>,
    calls: map<nat, Call>,
    stale: set<FactId>,
    torn: set<FactId>,
    bodies: map<FactId, seq<string>>)

  datatype Response = Fail(effect: bool) | Done | Keys(order: seq<FactId>)

  datatype Action = Enter(id: nat, op: Op) | Resume(id: nat, response: Response)

  // ---- the code between two awaits -----------------------------------------------------

  /** KR-1, KR-2: only confirmed facts with a time and a title are stored. */
  predicate Acceptable(f: Fact) {
    f.meta.confirmed && f.meta.confirmedAt.Some? && Trim(f.title) != []
  }

  function Target(op: Op): FactId
    requires op.Upsert? || op.SetSharing?
  {
    if op.Upsert? then op.fact.id else op.id
  }

  function Find(facts: map<FactId, Fact>, id: FactId): Option<Fact> {
    if id in facts then Some(facts[id]) else None
  }

  function Log(history: map<FactId, seq<Change>>, id: FactId): seq<Change> {
    if id in history then history[id] else []
  }

  /** `rebuild_locked`: clear the index and insert the loaded facts one by one. */
  function Rebuilt(got: seq<Fact>): map<FactId, Fact> {
    if got == [] then map[] else Rebuilt(got[..|got|-1])[got[|got|-1].id := got[|got|-1]]
  }

  ghost function Goto(s: State, id: nat, c: Call, pc: Pc): State {
    s.(calls := s.calls[id := c.(pc := pc)])
  }

  /** Give the lock back on the way out. */
  ghost function Leave(s: State, id: nat, c: Call, pc: Pc): State {
    Goto(s.(lock := None), id, c, pc)
  }

  /** The write leaves through the index. */
  ghost function IndexAndLeave(s: State, id: nat, c: Call, f: Fact): State {
    Leave(s.(indexed := s.indexed[f.id := f], stale := s.stale - {f.id}), id, c, Finished(true))
  }

  /** What is recorded about a put: a changed body is a new body of the fact. */
  ghost function Recorded(s: State, next: Fact, prev: Option<Fact>): map<FactId, seq<string>> {
    if prev.None? then s.bodies[next.id := [next.body]]
    else if prev.value.body != next.body && next.id in s.bodies then
      s.bodies[next.id := s.bodies[next.id] + [next.body]]
    else s.bodies
  }

  /** A call starts: an unacceptable fact is refused, a forced build goes for the lock,
      everything else wants an initialized index. */
  function FirstPc(op: Op, initialized: bool): Pc {
    if op.Build? then WantBuild
    else if op.Upsert? && !Acceptable(op.fact) then Finished(false)
    else if initialized then Ready
    else WantInit
  }

  /** What a search over these facts answers. */
  ghost function Answer(tb: Tables, facts: map<FactId, Fact>, query: string,
                        filter: Option<Scope>): map<FactId, FactSummary> {
    map x | x in Found(tb, facts, query, filter) && x in facts :: Summarize(facts[x])
  }

  /** The index is there: a writer goes for the write lock, a reader looks at the index
      under its own short lock. */
  ghost function WakeReady(tb: Tables, s: State, id: nat, c: Call): State {
    match c.op
    case Read(query, filter) =>
      s.(calls := s.calls[id := c.(pc := Finished(true), answer := Answer(tb, s.indexed, query, filter))])
    case Build => Goto(s, id, c, Finished(true))
    case _ => Goto(s, id, c, WantWrite)
  }

  /** Waiting for the write lock: nothing happens while somebody has it. */
  ghost function WakeWaiting(s: State, id: nat, c: Call): State {
    if s.lock.Some? then s
    else
      match c.pc
      case WantBuild => Goto(s.(lock := Some(id)), id, c, Listing)
      case WantInit => if s.initialized then Goto(s, id, c, Ready) else Goto(s.(lock := Some(id)), id, c, Listing)
      case _ => Goto(s.(lock := Some(id)), id, c, GetPrev)
  }

  ghost function WakeLoader(s: State, id: nat, c: Call, r: Response): State
    requires c.pc.Listing? || c.pc.Loading?
  {
    if c.pc.Listing? then
      if r.Keys? && NoDup(r.order) && (forall x :: x in r.order <==> x in s.facts) then
        Goto(s, id, c, Loading(r.order, []))
      else Leave(s, id, c, Finished(false))
    else if c.pc.todo == [] then
      Leave(s.(indexed := Rebuilt(c.pc.got), initialized := true, stale := {}), id, c,
            if c.op.Build? then Finished(true) else Ready)
    else if r.Fail? then Leave(s, id, c, Finished(false))
    else
      var x := c.pc.todo[0];
      Goto(s, id, c, Loading(c.pc.todo[1..], if x in s.facts then c.pc.got + [s.facts[x]] else c.pc.got))
  }

  ghost function WakeGetPrev(s: State, id: nat, c: Call, r: Response): State
    requires c.op.Upsert? || c.op.SetSharing?
  {
    var prev := Find(s.facts, Target(c.op));
    if r.Fail? then Leave(s, id, c, Finished(false))
    else if c.op.Upsert? then Goto(s, id, c, Putting(c.op.fact, prev))
    else if prev.None? then Leave(s, id, c, Finished(false))
    else
      var f := prev.value;
      Goto(s, id, c, Putting(f.(meta := f.meta.(visibility := c.op.visibility, category := c.op.category)), prev))
  }

  ghost function Stored(s: State, next: Fact, prev: Option<Fact>): State {
    s.(facts := s.facts[next.id := next], bodies := Recorded(s, next, prev))
  }

  ghost function WakePutting(s: State, id: nat, c: Call, r: Response): State
    requires c.pc.Putting?
  {
    var next, prev := c.pc.next, c.pc.prev;
    if r.Fail? && !r.effect then Leave(s, id, c, Finished(false))
    else
      var s' := Stored(s, next, prev);
      var edited := prev.Some? && prev.value.body != next.body;
      if r.Fail? then
        var torn' := if edited then s'.torn + {next.id} else s'.torn;
        Leave(s'.(stale := s'.stale + {next.id}, torn := torn'), id, c, Finished(false))
      else if edited then Goto(s', id, c, LogReading(next, prev.value.body))
      else IndexAndLeave(s', id, c, next)
  }

  ghost function WakeLogging(s: State, id: nat, c: Call, r: Response): State
    requires c.pc.LogReading? || c.pc.LogWriting?
  {
    var next := c.pc.next;
    if c.pc.LogReading? then
      if r.Fail? then Leave(s.(stale := s.stale + {next.id}, torn := s.torn + {next.id}), id, c, Finished(false))
      else Goto(s, id, c, LogWriting(next, c.pc.before, Log(s.history, next.id)))
    else
      var history' := s.history[next.id := c.pc.log + [Change(c.pc.before, next.body)]];
      if r.Fail? && !r.effect then
        Leave(s.(stale := s.stale + {next.id}, torn := s.torn + {next.id}), id, c, Finished(false))
      else if r.Fail? then Leave(s.(history := history', stale := s.stale + {next.id}), id, c, Finished(false))
      else IndexAndLeave(s.(history := history'), id, c, next)
  }

  predicate WritesOp(c: Call) {
    (c.pc.GetPrev? || c.pc.WantWrite? || c.pc.Putting? || c.pc.LogReading? || c.pc.LogWriting?) ==>
      c.op.Upsert? || c.op.SetSharing?
  }

  ghost function Wake(tb: Tables, s: State, id: nat, c: Call, r: Response): State
    requires WritesOp(c)
  {
    match c.pc
    case Begin => Goto(s, id, c, FirstPc(c.op, s.initialized))
    case Ready => WakeReady(tb, s, id, c)
    case WantBuild => WakeWaiting(s, id, c)
    case WantInit => WakeWaiting(s, id, c)
    case WantWrite => WakeWaiting(s, id, c)
    case Listing => WakeLoader(s, id, c, r)
    case Loading(_, _) => WakeLoader(s, id, c, r)
    case GetPrev => WakeGetPrev(s, id, c, r)
    case Putting(_, _) => WakePutting(s, id, c, r)
    case LogReading(_, _) => WakeLogging(s, id, c, r)
    case LogWriting(_, _, _) => WakeLogging(s, id, c, r)
    case Finished(_) => s
  }

  ghost function Do(tb: Tables, s: State, a: Action): State {
    match a
    case Enter(id, op) => if id in s.calls then s else s.(calls := s.calls[id := Call(op, Begin, map[])])
    case Resume(id, r) => if id in s.calls && WritesOp(s.calls[id]) then Wake(tb, s, id, s.calls[id], r) else s
  }

  ghost function Run(tb: Tables, s: State, actions: seq<Action>): State
    decreases |actions|
  {
    if actions == [] then s else Run(tb, Do(tb, s, actions[0]), actions[1..])
  }

  // ---- the invariant -----------------------------------------------------------------------

  predicate Holds(pc: Pc) {
    pc.Listing? || pc.Loading? || pc.GetPrev? || pc.Putting? || pc.LogReading? || pc.LogWriting?
  }

  /** The fact whose stored version is ahead of the index because its writer, who holds
      the lock, has put it and not yet indexed it. */
  ghost predicate Ahead(s: State, x: FactId) {
    s.lock.Some? && s.lock.value in s.calls
    && var pc := s.calls[s.lock.value].pc; (pc.LogReading? || pc.LogWriting?) && pc.next.id == x
  }

  ghost predicate Agree(s: State, x: FactId) {
    Find(s.indexed, x) == Find(s.facts, x)
  }

  ghost predicate LockOk(s: State) {
    && (s.lock.Some? ==> s.lock.value in s.calls && Holds(s.calls[s.lock.value].pc))
    && (forall id | id in s.calls && Holds(s.calls[id].pc) :: s.lock == Some(id))
    && (forall id | id in s.calls :: WritesOp(s.calls[id]))
  }

  predicate Logging(pc: Pc) {
    pc.LogReading? || pc.LogWriting?
  }

  /** What a call remembers still holds of the store: nobody else writes meanwhile. */
  ghost predicate PcOk(s: State, pc: Pc) {
    match pc
    case Loading(todo, got) => LoadOk(s, todo, got)
    case Putting(next, prev) => prev == Find(s.facts, next.id)
    case LogReading(next, before) => Find(s.facts, next.id) == Some(next) && before != next.body
    case LogWriting(next, before, log) =>
      Find(s.facts, next.id) == Some(next) && before != next.body && log == Log(s.history, next.id)
    case _ => true
  }

  /** What is loaded and what is still to load make up the store. */
  ghost predicate LoadOk(s: State, todo: seq<FactId>, got: seq<Fact>) {
    && (forall x | x in todo :: x in s.facts)
    && (forall x | x !in todo :: Find(Rebuilt(got), x) == Find(s.facts, x))
  }

  ghost predicate StoreOk(s: State) {
    Filed(s.facts) && s.facts.Keys <= s.bodies.Keys
  }

  ghost predicate PcsOk(s: State) {
    forall id | id in s.calls :: PcOk(s, s.calls[id].pc)
  }

  ghost predicate IndexOk(s: State) {
    s.initialized ==> forall x :: x in s.stale || Ahead(s, x) || Agree(s, x)
  }

  /** The bodies a history tells of, given the current one: each entry takes over where
      the one before it ended, and changes the body. */
  ghost function Replay(log: seq<Change>, current: string): seq<string> {
    if log == [] then [current] else Replay(log[..|log|-1], log[|log|-1].before) + [current]
  }

  ghost predicate Chained(log: seq<Change>, current: string) {
    log != [] ==>
      var last := log[|log|-1];
      last.after == current && last.before != last.after && Chained(log[..|log|-1], last.before)
  }

  /** The body up to which the history of a stored fact reaches. */
  ghost function Told(s: State, x: FactId): string
    requires x in s.facts
  {
    if Ahead(s, x) then s.calls[s.lock.value].pc.before else s.facts[x].body
  }

  ghost predicate HistoryAt(s: State, x: FactId)
    requires x in s.facts
  {
    var log := Log(s.history, x);
    && Chained(log, Told(s, x))
    && x in s.bodies
    && s.bodies[x] == Replay(log, Told(s, x)) + (if Ahead(s, x) then [s.facts[x].body] else [])
  }

  ghost predicate HistoryOk(s: State) {
    && (forall x | x in s.facts && x !in s.torn :: HistoryAt(s, x))
    && (forall x | x !in s.facts && x !in s.torn :: Log(s.history, x) == [])
  }

  ghost predicate Inv(s: State) {
    LockOk(s) && PcsOk(s) && StoreOk(s) && IndexOk(s) && HistoryOk(s)
  }

  /** A fresh service over a store whose histories tell every body there has been. */
  ghost predicate Initial(s: State) {
    && !s.initialized && s.lock.None? && s.calls == map[] && s.stale == {} && s.torn == {}
    && Filed(s.facts) && s.facts.Keys <= s.bodies.Keys && HistoryOk(s)
  }

  // ---- every action keeps the invariant ------------------------------------------------------

  /** A step of a call that does not hold the lock and does not take it. */
  lemma BystanderKept(s: State, id: nat, c': Call)
    requires Inv(s) && id in s.calls && !Holds(s.calls[id].pc) && !Holds(c'.pc) && WritesOp(c')
    ensures Inv(s.(calls := s.calls[id := c']))
  {
    var s' := s.(calls := s.calls[id := c']);
    assert forall x :: Ahead(s', x) <==> Ahead(s, x);
    forall j | j in s'.calls ensures PcOk(s', s'.calls[j].pc) {
      assert j != id ==> PcOk(s, s.calls[j].pc);
    }
    forall x | x in s'.facts && x !in s'.torn ensures HistoryAt(s', x) {
      assert HistoryAt(s, x);
    }
  }

  lemma EnterKept(s: State, id: nat, op: Op)
    requires Inv(s) && id !in s.calls
    ensures Inv(s.(calls := s.calls[id := Call(op, Begin, map[])]))
  {
    var s' := s.(calls := s.calls[id := Call(op, Begin, map[])]);
    assert forall x :: Ahead(s', x) <==> Ahead(s, x);
    forall j | j in s'.calls ensures PcOk(s', s'.calls[j].pc) {
      assert j != id ==> PcOk(s, s.calls[j].pc);
    }
    forall x | x in s'.facts && x !in s'.torn ensures HistoryAt(s', x) {
      assert HistoryAt(s, x);
    }
  }

  lemma AcquireKept(s: State, id: nat, c': Call)
    requires Inv(s) && id in s.calls && s.lock.None? && (c'.pc.Listing? || c'.pc.GetPrev?) && WritesOp(c')
    ensures Inv(s.(lock := Some(id), calls := s.calls[id := c']))
  {
    var s' := s.(lock := Some(id), calls := s.calls[id := c']);
    assert forall x :: !Ahead(s', x) && !Ahead(s, x);
    forall j | j in s'.calls ensures PcOk(s', s'.calls[j].pc) {
      assert j != id ==> PcOk(s, s.calls[j].pc);
    }
    forall x | x in s'.facts && x !in s'.torn ensures HistoryAt(s', x) {
      assert HistoryAt(s, x);
    }
  }

  /** A step of the lock holder: the others remember nothing about the store. */
  lemma HolderKept(s: State, s': State, id: nat)
    requires Inv(s) && s.lock == Some(id) && id in s'.calls && s'.calls == s.calls[id := s'.calls[id]]
    requires s'.lock == if Holds(s'.calls[id].pc) then Some(id) else None
    requires WritesOp(s'.calls[id]) && PcOk(s', s'.calls[id].pc)
    requires StoreOk(s') && IndexOk(s') && HistoryOk(s')
    ensures Inv(s')
  {
    forall j | j in s'.calls && j != id ensures s'.calls[j] == s.calls[j] && !Holds(s.calls[j].pc) {}
  }

  /** While nothing is ahead, the index and the history need no exception. */
  lemma NothingAhead(s: State)
    requires s.lock.None? || (s.lock.value in s.calls && !Logging(s.calls[s.lock.value].pc))
    ensures forall x :: !Ahead(s, x)
  {}

  /** The holder moves on, or leaves, without having touched anything shared. */
  lemma UntouchedKept(s: State, id: nat, c': Call, lock': Option<nat>)
    requires Inv(s) && s.lock == Some(id) && !Logging(s.calls[id].pc) && !Logging(c'.pc)
    requires lock' == if Holds(c'.pc) then Some(id) else None
    requires WritesOp(c') && PcOk(s, c'.pc)
    ensures Inv(s.(lock := lock', calls := s.calls[id := c']))
  {
    var s' := s.(lock := lock', calls := s.calls[id := c']);
    NothingAhead(s);
    NothingAhead(s');
    forall x | x in s'.facts && x !in s'.torn ensures HistoryAt(s', x) {
      assert HistoryAt(s, x);
    }
    HolderKept(s, s', id);
  }

  lemma {:induction false} RebuiltAppend(got: seq<Fact>, f: Fact)
    ensures Rebuilt(got + [f]) == Rebuilt(got)[f.id := f]
  {
    assert (got + [f])[..|got|] == got;
  }

  lemma LoaderKept(s: State, id: nat, r: Response)
    requires Inv(s) && s.lock == Some(id) && (s.calls[id].pc.Listing? || s.calls[id].pc.Loading?)
    ensures Inv(WakeLoader(s, id, s.calls[id], r))
  {
    if s.calls[id].pc.Listing? {
      ListingKept(s, id, r);
    } else if s.calls[id].pc.todo == [] {
      LoadedKept(s, id);
    } else {
      LoadingKept(s, id, r);
    }
  }

  lemma ListingKept(s: State, id: nat, r: Response)
    requires Inv(s) && s.lock == Some(id) && s.calls[id].pc.Listing?
    ensures Inv(WakeLoader(s, id, s.calls[id], r))
  {
    var c := s.calls[id];
    if r.Keys? && NoDup(r.order) && (forall x :: x in r.order <==> x in s.facts) {
      UntouchedKept(s, id, c.(pc := Loading(r.order, [])), s.lock);
    } else {
      UntouchedKept(s, id, c.(pc := Finished(false)), None);
    }
  }

  lemma LoadingKept(s: State, id: nat, r: Response)
    requires Inv(s) && s.lock == Some(id) && s.calls[id].pc.Loading? && s.calls[id].pc.todo != []
    ensures Inv(WakeLoader(s, id, s.calls[id], r))
  {
    var c := s.calls[id];
    var s' := WakeLoader(s, id, c, r);
    assert PcOk(s, c.pc);
    if !r.Fail? {
      var x := c.pc.todo[0];
      RebuiltAppend(c.pc.got, s.facts[x]);
      assert LoadOk(s, c.pc.todo[1..], c.pc.got + [s.facts[x]]);
    }
    UntouchedKept(s, id, s'.calls[id], s'.lock);
  }

  lemma LoadedKept(s: State, id: nat)
    requires Inv(s) && s.lock == Some(id) && s.calls[id].pc.Loading? && s.calls[id].pc.todo == []
    ensures Inv(WakeLoader(s, id, s.calls[id], Done))
    ensures WakeLoader(s, id, s.calls[id], Done).indexed == s.facts
  {
    var c := s.calls[id];
    var s' := WakeLoader(s, id, c, Done);
    assert PcOk(s, c.pc);
    NothingAhead(s);
    NothingAhead(s');
    forall x ensures Find(s'.indexed, x) == Find(s.facts, x) {}
    SameFinds(s'.indexed, s.facts);
    forall x | x in s'.facts && x !in s'.torn ensures HistoryAt(s', x) {
      assert HistoryAt(s, x);
    }
    HolderKept(s, s', id);
  }

  lemma SameFinds(a: map<FactId, Fact>, b: map<FactId, Fact>)
    requires forall x :: Find(a, x) == Find(b, x)
    ensures a == b
  {
    forall x ensures x in a <==> x in b { assert Find(a, x) == Find(b, x); }
    forall x | x in a ensures a[x] == b[x] { assert Find(a, x) == Find(b, x); }
  }

  lemma GetPrevKept(s: State, id: nat, r: Response)
    requires Inv(s) && s.lock == Some(id) && s.calls[id].pc.GetPrev?
    ensures Inv(WakeGetPrev(s, id, s.calls[id], r))
  {
    var c := s.calls[id];
    var prev := Find(s.facts, Target(c.op));
    if r.Fail? || (c.op.SetSharing? && prev.None?) {
      UntouchedKept(s, id, c.(pc := Finished(false)), None);
    } else if c.op.Upsert? {
      UntouchedKept(s, id, c.(pc := Putting(c.op.fact, prev)), s.lock);
    } else {
      var f := prev.value;
      UntouchedKept(s, id,
        c.(pc := Putting(f.(meta := f.meta.(visibility := c.op.visibility, category := c.op.category)), prev)), s.lock);
    }
  }

  ghost predicate Edited(next: Fact, prev: Option<Fact>) {
    prev.Some? && prev.value.body != next.body
  }

  /** A put that leaves the body as it was, or stores a fact for the first time. */
  lemma PlainPutHistory(s: State, s': State, next: Fact, prev: Option<Fact>)
    requires Inv(s) && prev == Find(s.facts, next.id) && !Edited(next, prev)
    requires (forall x :: !Ahead(s, x)) && (forall x :: !Ahead(s', x))
    requires s'.facts == s.facts[next.id := next] && s'.bodies == Recorded(s, next, prev)
    requires s'.history == s.history && s'.torn == s.torn
    ensures HistoryOk(s')
  {
    forall x | x in s'.facts && x !in s'.torn ensures HistoryAt(s', x) {
      if x != next.id || prev.Some? {
        assert HistoryAt(s, x);
      } else {
        assert Log(s.history, x) == [];
      }
    }
  }

  /** A put with a new body, not told to the history yet. */
  lemma EditedPutHistory(s: State, s': State, next: Fact, prev: Option<Fact>)
    requires Inv(s) && prev == Find(s.facts, next.id) && Edited(next, prev) && (forall x :: !Ahead(s, x))
    requires s'.facts == s.facts[next.id := next] && s'.bodies == Recorded(s, next, prev) && s'.history == s.history
    requires s'.torn == s.torn || s'.torn == s.torn + {next.id}
    requires next.id !in s'.torn ==> Ahead(s', next.id) && s'.calls[s'.lock.value].pc.before == prev.value.body
    requires forall x | x != next.id :: !Ahead(s', x)
    ensures HistoryOk(s')
  {
    forall x | x in s'.facts && x !in s'.torn ensures HistoryAt(s', x) {
      assert HistoryAt(s, x);
    }
  }

  /** A put that reaches the index at once. */
  lemma PutPlainKept(s: State, id: nat)
    requires Inv(s) && s.lock == Some(id) && s.calls[id].pc.Putting?
      && !Edited(s.calls[id].pc.next, s.calls[id].pc.prev)
    ensures Inv(WakePutting(s, id, s.calls[id], Done))
  {
    var c := s.calls[id];
    var next, prev := c.pc.next, c.pc.prev;
    var s' := IndexAndLeave(Stored(s, next, prev), id, c, next);
    assert WakePutting(s, id, c, Done) == s';
    assert PcOk(s, c.pc);
    NothingAhead(s);
    NothingAhead(s');
    PlainPutHistory(s, s', next, prev);
    IndexedPut(s, s', next);
    HolderKept(s, s', id);
  }

  lemma IndexedPut(s: State, s': State, next: Fact)
    requires StoreOk(s) && IndexOk(s) && (forall x :: !Ahead(s, x)) && (forall x :: !Ahead(s', x))
    requires s'.facts == s.facts[next.id := next] && s'.indexed == s.indexed[next.id := next]
    requires s'.stale == s.stale - {next.id} && s'.initialized == s.initialized
    requires s.bodies.Keys + {next.id} <= s'.bodies.Keys || (next.id in s.facts && s.bodies.Keys <= s'.bodies.Keys)
    ensures StoreOk(s') && IndexOk(s')
  {}

  lemma PutEditedKept(s: State, id: nat)
    requires Inv(s) && s.lock == Some(id) && s.calls[id].pc.Putting? && Edited(s.calls[id].pc.next, s.calls[id].pc.prev)
    ensures Inv(WakePutting(s, id, s.calls[id], Done))
  {
    var c := s.calls[id];
    var s' := WakePutting(s, id, c, Done);
    assert PcOk(s, c.pc);
    NothingAhead(s);
    assert forall x :: Ahead(s', x) <==> x == c.pc.next.id;
    EditedPutHistory(s, s', c.pc.next, c.pc.prev);
    HolderKept(s, s', id);
  }

  lemma PutFailedKept(s: State, id: nat, r: Response)
    requires Inv(s) && s.lock == Some(id) && s.calls[id].pc.Putting? && r.Fail?
    ensures Inv(WakePutting(s, id, s.calls[id], r))
  {
    if r.effect { PutHalfKept(s, id, r); } else { PutNotKept(s, id, r); }
  }

  /** The put failed and nothing was stored. */
  lemma PutNotKept(s: State, id: nat, r: Response)
    requires Inv(s) && s.lock == Some(id) && s.calls[id].pc.Putting? && r.Fail? && !r.effect
    ensures Inv(WakePutting(s, id, s.calls[id], r))
  {
    UntouchedKept(s, id, s.calls[id].(pc := Finished(false)), None);
  }

  /** The put failed after having taken effect. */
  lemma PutHalfKept(s: State, id: nat, r: Response)
    requires Inv(s) && s.lock == Some(id) && s.calls[id].pc.Putting? && r.Fail? && r.effect
    ensures Inv(WakePutting(s, id, s.calls[id], r))
  {
    var c := s.calls[id];
    var s' := WakePutting(s, id, c, r);
    assert PcOk(s, c.pc);
    FailedPutHistory(s, id, r);
    NothingAhead(s);
    NothingAhead(s');
    HolderKept(s, s', id);
  }

  lemma FailedPutHistory(s: State, id: nat, r: Response)
    requires Inv(s) && s.lock == Some(id) && s.calls[id].pc.Putting? && r.Fail? && r.effect
    ensures HistoryOk(WakePutting(s, id, s.calls[id], r))
  {
    var c := s.calls[id];
    var s' := WakePutting(s, id, c, r);
    assert PcOk(s, c.pc);
    NothingAhead(s);
    NothingAhead(s');
    if Edited(c.pc.next, c.pc.prev) {
      EditedPutHistory(s, s', c.pc.next, c.pc.prev);
    } else {
      PlainPutHistory(s, s', c.pc.next, c.pc.prev);
    }
  }

  /** The history of the fact being written is read; nothing else happens. */
  lemma LogReadKept(s: State, id: nat)
    requires Inv(s) && s.lock == Some(id) && s.calls[id].pc.LogReading?
    ensures Inv(WakeLogging(s, id, s.calls[id], Done))
  {
    var c := s.calls[id];
    var s' := WakeLogging(s, id, c, Done);
    assert PcOk(s, c.pc);
    assert forall x :: Ahead(s', x) <==> Ahead(s, x);
    forall x | x in s'.facts && x !in s'.torn ensures HistoryAt(s', x) {
      assert HistoryAt(s, x);
    }
    HolderKept(s, s', id);
  }

  /** The write is given up with the history left behind. */
  lemma LogGivenUpKept(s: State, id: nat, r: Response)
    requires Inv(s) && s.lock == Some(id) && Logging(s.calls[id].pc)
    requires r.Fail? && (s.calls[id].pc.LogReading? || !r.effect)
    ensures Inv(WakeLogging(s, id, s.calls[id], r))
  {
    var c := s.calls[id];
    var s' := WakeLogging(s, id, c, r);
    assert PcOk(s, c.pc);
    assert forall x :: Ahead(s, x) <==> x == c.pc.next.id;
    NothingAhead(s');
    forall x | x in s'.facts && x !in s'.torn ensures HistoryAt(s', x) {
      assert HistoryAt(s, x);
    }
    HolderKept(s, s', id);
  }

  lemma ChainGrows(log: seq<Change>, before: string, after: string)
    requires Chained(log, before) && before != after
    ensures Chained(log + [Change(before, after)], after)
    ensures Replay(log + [Change(before, after)], after) == Replay(log, before) + [after]
  {
    assert (log + [Change(before, after)])[..|log|] == log;
  }

  /** The history entry is on record. */
  lemma LoggedHistory(s: State, s': State, id: nat)
    requires Inv(s) && s.lock == Some(id) && s.calls[id].pc.LogWriting?
    requires s'.facts == s.facts && s'.bodies == s.bodies && s'.torn == s.torn && s'.lock == None
    requires var pc := s.calls[id].pc;
      s'.history == s.history[pc.next.id := pc.log + [Change(pc.before, pc.next.body)]]
    ensures HistoryOk(s')
  {
    var pc := s.calls[id].pc;
    assert PcOk(s, pc);
    assert forall x :: Ahead(s, x) <==> x == pc.next.id;
    forall x | x in s'.facts && x !in s'.torn ensures HistoryAt(s', x) {
      assert HistoryAt(s, x);
      if x == pc.next.id {
        ChainGrows(pc.log, pc.before, pc.next.body);
      }
    }
  }

  lemma LogWrittenKept(s: State, id: nat, r: Response)
    requires Inv(s) && s.lock == Some(id) && s.calls[id].pc.LogWriting? && (!r.Fail? || r.effect)
    ensures Inv(WakeLogging(s, id, s.calls[id], r))
  {
    var c := s.calls[id];
    var s' := WakeLogging(s, id, c, r);
    assert PcOk(s, c.pc);
    assert forall x :: Ahead(s, x) <==> x == c.pc.next.id;
    NothingAhead(s');
    LoggedHistory(s, s', id);
    HolderKept(s, s', id);
  }

  lemma WriterKept(s: State, id: nat, r: Response)
    requires Inv(s) && s.lock == Some(id) && WritesOp(s.calls[id])
    ensures s.calls[id].pc.Putting? ==> Inv(WakePutting(s, id, s.calls[id], r))
    ensures Logging(s.calls[id].pc) ==> Inv(WakeLogging(s, id, s.calls[id], r))
  {
    match s.calls[id].pc
    case Putting(next, prev) =>
      if r.Fail? { PutFailedKept(s, id, r); }
      else if Edited(next, prev) { PutEditedKept(s, id); }
      else { PutPlainKept(s, id); }
    case LogReading(_, _) => if r.Fail? { LogGivenUpKept(s, id, r); } else { LogReadKept(s, id); }
    case LogWriting(_, _, _) => if r.Fail? && !r.effect { LogGivenUpKept(s, id, r); } else { LogWrittenKept(s, id, r); }
    case _ =>
  }

  lemma HolderIs(s: State, id: nat)
    requires Inv(s) && id in s.calls && Holds(s.calls[id].pc)
    ensures s.lock == Some(id)
  {}

  lemma WakeHolderKept(tb: Tables, s: State, id: nat, r: Response)
    requires Inv(s) && id in s.calls && WritesOp(s.calls[id]) && s.lock == Some(id)
    ensures Inv(Wake(tb, s, id, s.calls[id], r))
  {
    var pc := s.calls[id].pc;
    if pc.Listing? || pc.Loading? {
      LoaderKept(s, id, r);
    } else if pc.GetPrev? {
      GetPrevKept(s, id, r);
    } else {
      WriterKept(s, id, r);
    }
  }

  lemma WakeOtherKept(tb: Tables, s: State, id: nat, r: Response)
    requires Inv(s) && id in s.calls && WritesOp(s.calls[id]) && !Holds(s.calls[id].pc)
    ensures Inv(Wake(tb, s, id, s.calls[id], r))
  {
    var pc := s.calls[id].pc;
    if pc.Begin? {
      BeginKept(s, id);
    } else if pc.Ready? {
      ReadyKept(tb, s, id);
    } else if !pc.Finished? {
      WaitingKept(s, id);
    }
  }

  lemma BeginKept(s: State, id: nat)
    requires Inv(s) && id in s.calls && s.calls[id].pc.Begin?
    ensures Inv(Goto(s, id, s.calls[id], FirstPc(s.calls[id].op, s.initialized)))
  {
    var c := s.calls[id];
    BystanderKept(s, id, c.(pc := FirstPc(c.op, s.initialized)));
  }

  lemma ReadyKept(tb: Tables, s: State, id: nat)
    requires Inv(s) && id in s.calls && s.calls[id].pc.Ready?
    ensures Inv(WakeReady(tb, s, id, s.calls[id]))
  {
    var c := s.calls[id];
    match c.op
    case Read(query, filter) =>
      BystanderKept(s, id, c.(pc := Finished(true), answer := Answer(tb, s.indexed, query, filter)));
    case Build => BystanderKept(s, id, c.(pc := Finished(true)));
    case _ => BystanderKept(s, id, c.(pc := WantWrite));
  }

  lemma WakeKept(tb: Tables, s: State, id: nat, r: Response)
    requires Inv(s) && id in s.calls && WritesOp(s.calls[id])
    ensures Inv(Wake(tb, s, id, s.calls[id], r))
  {
    if Holds(s.calls[id].pc) {
      HolderIs(s, id);
      WakeHolderKept(tb, s, id, r);
    } else {
      WakeOtherKept(tb, s, id, r);
    }
  }

  lemma WaitingKept(s: State, id: nat)
    requires Inv(s) && id in s.calls && WritesOp(s.calls[id])
    requires s.calls[id].pc.WantBuild? || s.calls[id].pc.WantInit? || s.calls[id].pc.WantWrite?
    ensures Inv(WakeWaiting(s, id, s.calls[id]))
  {
    var c := s.calls[id];
    if s.lock.None? {
      var c' := WakeWaiting(s, id, c).calls[id];
      if c.pc.WantInit? && s.initialized { BystanderKept(s, id, c'); } else { AcquireKept(s, id, c'); }
    }
  }

  lemma DoKept(tb: Tables, s: State, a: Action)
    requires Inv(s)
    ensures Inv(Do(tb, s, a))
  {
    match a
    case Enter(id, op) => if id !in s.calls { EnterKept(s, id, op); }
    case Resume(id, r) => if id in s.calls && WritesOp(s.calls[id]) { WakeKept(tb, s, id, r); }
  }

  lemma {:induction false} RunKept(tb: Tables, s: State, actions: seq<Action>)
    requires Inv(s)
    ensures Inv(Run(tb, s, actions))
    decreases |actions|
  {
    if actions != [] {
      DoKept(tb, s, actions[0]);
      RunKept(tb, Do(tb, s, actions[0]), actions[1..]);
    }
  }

  lemma InitialInv(s: State)
    requires Initial(s)
    ensures Inv(s)
  {}
}
