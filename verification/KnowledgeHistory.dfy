/** Exactly when a fact's history tells every body it has had: unless an edit was torn, that is,
    stored without its history entry; and what is torn stays so. */
module KnowledgeHistory {
  import opened Wrappers
  import opened Ordering
  import opened KnowledgeTypes
  import opened Tokenizer
  import opened KnowledgeProtocol

  // ---- the count of bodies and entries ---------------------------------------------------------

  lemma {:induction false} ReplayLength(log: seq<Change>, current: string)
    ensures |Replay(log, current)| == |log| + 1
  {
    if log != [] { ReplayLength(log[..|log|-1], log[|log|-1].before); }
  }

  /** A torn fact has had more bodies than its history can tell. */
  ghost predicate Counted(s: State, x: FactId) {
    x in s.torn ==>
      && x in s.facts && x in s.bodies
      && |s.bodies[x]| >= |Log(s.history, x)| + 2 + (if Ahead(s, x) then 1 else 0)
  }

  ghost predicate TornOk(s: State) {
    forall x :: Counted(s, x)
  }

  /** Every stored fact has had at least the bodies its history tells. */
  lemma AtLeastTold(s: State, x: FactId)
    requires Inv(s) && Counted(s, x) && x in s.facts
    ensures x in s.bodies && |s.bodies[x]| >= |Log(s.history, x)| + 1 + (if Ahead(s, x) then 1 else 0)
  {
    if x !in s.torn {
      assert HistoryAt(s, x);
      ReplayLength(Log(s.history, x), Told(s, x));
    }
  }

  lemma TornIsUntold(s: State, x: FactId)
    requires Counted(s, x) && x in s.torn
    ensures x in s.facts && !HistoryAt(s, x)
  {
    ReplayLength(Log(s.history, x), Told(s, x));
  }

  // ---- every action keeps it --------------------------------------------------------------------

  /** Facts, bodies, history and torn are as they were. */
  ghost predicate Untouched(s: State, s': State) {
    s'.facts == s.facts && s'.bodies == s.bodies && s'.history == s.history && s'.torn == s.torn
  }

  lemma UntouchedCounted(s: State, s': State, x: FactId)
    requires Counted(s, x) && Untouched(s, s') && (Ahead(s', x) ==> Ahead(s, x))
    ensures Counted(s', x)
  {}

  lemma BystanderCounted(s: State, id: nat, c': Call, x: FactId)
    requires Inv(s) && Counted(s, x) && id in s.calls && !Holds(s.calls[id].pc) && !Holds(c'.pc)
    ensures Counted(s.(calls := s.calls[id := c']), x)
  {
    UntouchedCounted(s, s.(calls := s.calls[id := c']), x);
  }

  /** A step that ends with nobody between the store and the history. */
  lemma CalmCounted(s: State, s': State, x: FactId)
    requires Counted(s, x) && Untouched(s, s')
    requires s'.lock.None? || (s'.lock.value in s'.calls && !Logging(s'.calls[s'.lock.value].pc))
    ensures Counted(s', x)
  {
    NothingAhead(s');
    UntouchedCounted(s, s', x);
  }

  lemma ReadyCounted(tb: Tables, s: State, id: nat, x: FactId)
    requires Inv(s) && Counted(s, x) && id in s.calls && s.calls[id].pc.Ready?
    ensures Counted(WakeReady(tb, s, id, s.calls[id]), x)
  {
    var c := s.calls[id];
    match c.op
    case Read(query, filter) =>
      BystanderCounted(s, id, c.(pc := Finished(true), answer := Answer(tb, s.indexed, query, filter)), x);
    case Build => BystanderCounted(s, id, c.(pc := Finished(true)), x);
    case _ => BystanderCounted(s, id, c.(pc := WantWrite), x);
  }

  lemma WaitingCounted(s: State, id: nat, x: FactId)
    requires Inv(s) && Counted(s, x) && id in s.calls && WritesOp(s.calls[id])
    requires s.calls[id].pc.WantBuild? || s.calls[id].pc.WantInit? || s.calls[id].pc.WantWrite?
    ensures Counted(WakeWaiting(s, id, s.calls[id]), x)
  {
    if s.lock.None? { CalmCounted(s, WakeWaiting(s, id, s.calls[id]), x); }
  }

  lemma LoaderCounted(s: State, id: nat, r: Response, x: FactId)
    requires Inv(s) && Counted(s, x) && s.lock == Some(id) && (s.calls[id].pc.Listing? || s.calls[id].pc.Loading?)
    ensures Counted(WakeLoader(s, id, s.calls[id], r), x)
  {
    var c := s.calls[id];
    if c.pc.Listing? {
      ListingCounted(s, id, r, x);
    } else if c.pc.todo == [] {
      LoadedCounted(s, id, r, x);
    } else {
      CalmCounted(s, WakeLoader(s, id, c, r), x);
    }
  }

  lemma ListingCounted(s: State, id: nat, r: Response, x: FactId)
    requires Inv(s) && Counted(s, x) && s.lock == Some(id) && s.calls[id].pc.Listing?
    ensures Counted(WakeLoader(s, id, s.calls[id], r), x)
  {
    var c := s.calls[id];
    if r.Keys? && NoDup(r.order) && (forall x :: x in r.order <==> x in s.facts) {
      CalmCounted(s, Goto(s, id, c, Loading(r.order, [])), x);
    } else {
      CalmCounted(s, Leave(s, id, c, Finished(false)), x);
    }
  }

  lemma LoadedCounted(s: State, id: nat, r: Response, x: FactId)
    requires Inv(s) && Counted(s, x) && s.lock == Some(id) && s.calls[id].pc.Loading? && s.calls[id].pc.todo == []
    ensures Counted(WakeLoader(s, id, s.calls[id], r), x)
  {
    CalmCounted(s, WakeLoader(s, id, s.calls[id], r), x);
  }

  lemma GetPrevCounted(s: State, id: nat, r: Response, x: FactId)
    requires Inv(s) && Counted(s, x) && s.lock == Some(id) && s.calls[id].pc.GetPrev?
    ensures Counted(WakeGetPrev(s, id, s.calls[id], r), x)
  {
    CalmCounted(s, WakeGetPrev(s, id, s.calls[id], r), x);
  }

  /** The bookkeeping of a put: a changed body is one more. */
  lemma PutCounted(s: State, s': State, next: Fact, prev: Option<Fact>, x: FactId)
    requires Inv(s) && Counted(s, x) && prev == Find(s.facts, next.id) && !Ahead(s, x)
    requires s'.facts == s.facts[next.id := next] && s'.bodies == Recorded(s, next, prev) && s'.history == s.history
    requires s'.torn == s.torn || (s'.torn == s.torn + {next.id} && Edited(next, prev) && !Ahead(s', x))
    requires Ahead(s', x) ==> x == next.id && Edited(next, prev)
    ensures Counted(s', x)
  {
    if x in s.facts { AtLeastTold(s, x); }
  }

  lemma PuttingCounted(s: State, id: nat, r: Response, x: FactId)
    requires Inv(s) && Counted(s, x) && s.lock == Some(id) && s.calls[id].pc.Putting?
    ensures Counted(WakePutting(s, id, s.calls[id], r), x)
  {
    var c := s.calls[id];
    var s' := WakePutting(s, id, c, r);
    assert PcOk(s, c.pc);
    NothingAhead(s);
    if r.Fail? && !r.effect {
      CalmCounted(s, s', x);
    } else if r.Fail? || !Edited(c.pc.next, c.pc.prev) {
      assert s'.lock.None?;
      NothingAhead(s');
      PutCounted(s, s', c.pc.next, c.pc.prev, x);
    } else {
      PutCounted(s, s', c.pc.next, c.pc.prev, x);
    }
  }

  /** The write leaves: with its entry in, or torn. */
  lemma LoggedCounted(s: State, s': State, id: nat, x: FactId)
    requires Inv(s) && Counted(s, x) && s.lock == Some(id) && Logging(s.calls[id].pc) && s'.lock.None?
    requires s'.facts == s.facts && s'.bodies == s.bodies
    requires var pc := s.calls[id].pc;
      || (s'.history == s.history && s'.torn == s.torn + {pc.next.id})
      || (pc.LogWriting? && s'.torn == s.torn
          && s'.history == s.history[pc.next.id := pc.log + [Change(pc.before, pc.next.body)]])
    ensures Counted(s', x)
  {
    var pc := s.calls[id].pc;
    assert PcOk(s, pc);
    NothingAhead(s');
    assert Ahead(s, x) <==> x == pc.next.id;
    if x in s.facts { AtLeastTold(s, x); }
  }

  lemma LoggingCounted(s: State, id: nat, r: Response, x: FactId)
    requires Inv(s) && Counted(s, x) && s.lock == Some(id) && Logging(s.calls[id].pc)
    ensures Counted(WakeLogging(s, id, s.calls[id], r), x)
  {
    var c := s.calls[id];
    var s' := WakeLogging(s, id, c, r);
    if c.pc.LogReading? && !r.Fail? {
      UntouchedCounted(s, s', x);
    } else {
      LoggedCounted(s, s', id, x);
    }
  }

  lemma WakeCounted(tb: Tables, s: State, id: nat, r: Response, x: FactId)
    requires Inv(s) && Counted(s, x) && id in s.calls && WritesOp(s.calls[id])
    ensures Counted(Wake(tb, s, id, s.calls[id], r), x)
  {
    var c := s.calls[id];
    if Holds(c.pc) { HolderIs(s, id); }
    match c.pc
    case Begin => BystanderCounted(s, id, c.(pc := FirstPc(c.op, s.initialized)), x);
    case Ready => ReadyCounted(tb, s, id, x);
    case Listing => LoaderCounted(s, id, r, x);
    case Loading(_, _) => LoaderCounted(s, id, r, x);
    case GetPrev => GetPrevCounted(s, id, r, x);
    case Putting(_, _) => PuttingCounted(s, id, r, x);
    case LogReading(_, _) => LoggingCounted(s, id, r, x);
    case LogWriting(_, _, _) => LoggingCounted(s, id, r, x);
    case Finished(_) =>
    case _ => WaitingCounted(s, id, x);
  }

  lemma DoCounted(tb: Tables, s: State, a: Action, x: FactId)
    requires Inv(s) && Counted(s, x)
    ensures Counted(Do(tb, s, a), x)
  {
    match a
    case Enter(id, op) =>
      if id !in s.calls { UntouchedCounted(s, Do(tb, s, a), x); }
    case Resume(id, r) =>
      if id in s.calls && WritesOp(s.calls[id]) { WakeCounted(tb, s, id, r, x); }
  }

  lemma {:induction false} RunCounted(tb: Tables, s: State, actions: seq<Action>)
    requires Inv(s) && TornOk(s)
    ensures Inv(Run(tb, s, actions)) && TornOk(Run(tb, s, actions))
    decreases |actions|
  {
    if actions != [] {
      DoKept(tb, s, actions[0]);
      forall x ensures Counted(Do(tb, s, actions[0]), x) { DoCounted(tb, s, actions[0], x); }
      RunCounted(tb, Do(tb, s, actions[0]), actions[1..]);
    }
  }

  // ---- what tears ---------------------------------------------------------------------------------

  /** A failure that leaves an edit stored without its history entry: the put failed but took
      effect, or the history could not be read, or its entry not be written. */
  ghost predicate TearsAt(pc: Pc, r: Response) {
    && r.Fail?
    && (|| (pc.Putting? && r.effect && Edited(pc.next, pc.prev))
        || pc.LogReading?
        || (pc.LogWriting? && !r.effect))
  }

  ghost predicate Tears(s: State, a: Action) {
    a.Resume? && a.id in s.calls && WritesOp(s.calls[a.id]) && TearsAt(s.calls[a.id].pc, a.response)
  }

  ghost predicate NeverTears(tb: Tables, s: State, actions: seq<Action>)
    decreases |actions|
  {
    actions != [] ==> !Tears(s, actions[0]) && NeverTears(tb, Do(tb, s, actions[0]), actions[1..])
  }

  /** The fact that is torn by a step. */
  ghost function TornBy(pc: Pc, r: Response): set<FactId> {
    if TearsAt(pc, r) then {pc.next.id} else {}
  }

  lemma PutTears(s: State, id: nat, c: Call, r: Response)
    requires c.pc.Putting?
    ensures WakePutting(s, id, c, r).torn == s.torn + TornBy(c.pc, r)
  {}

  lemma LogReadTears(s: State, id: nat, c: Call, r: Response)
    requires c.pc.LogReading?
    ensures WakeLogging(s, id, c, r).torn == s.torn + TornBy(c.pc, r)
  {}

  lemma LogWriteTears(s: State, id: nat, c: Call, r: Response)
    requires c.pc.LogWriting? && TearsAt(c.pc, r)
    ensures WakeLogging(s, id, c, r).torn == s.torn + TornBy(c.pc, r)
  {}

  lemma LogWriteTearsNothing(s: State, id: nat, c: Call, r: Response)
    requires c.pc.LogWriting? && !TearsAt(c.pc, r)
    ensures WakeLogging(s, id, c, r).torn == s.torn
  {}

  lemma ListTearsNothing(s: State, id: nat, c: Call, r: Response)
    requires c.pc.Listing?
    ensures WakeLoader(s, id, c, r).torn == s.torn
  {}

  lemma LoadTearsNothing(s: State, id: nat, c: Call, r: Response)
    requires c.pc.Loading?
    ensures WakeLoader(s, id, c, r).torn == s.torn
  {}

  lemma GetPrevTearsNothing(s: State, id: nat, c: Call, r: Response)
    requires c.pc.GetPrev? && WritesOp(c)
    ensures WakeGetPrev(s, id, c, r).torn == s.torn
  {}

  lemma OtherTearsNothing(tb: Tables, s: State, id: nat, c: Call)
    ensures c.pc.Ready? ==> WakeReady(tb, s, id, c).torn == s.torn
    ensures c.pc.WantBuild? || c.pc.WantInit? || c.pc.WantWrite? ==> WakeWaiting(s, id, c).torn == s.torn
  {}

  lemma WakeTears(tb: Tables, s: State, id: nat, c: Call, r: Response)
    requires WritesOp(c)
    ensures Wake(tb, s, id, c, r).torn == s.torn + TornBy(c.pc, r)
  {
    match c.pc
    case Putting(_, _) => PutTears(s, id, c, r);
    case LogReading(_, _) => LogReadTears(s, id, c, r);
    case LogWriting(_, _, _) =>
      if TearsAt(c.pc, r) { LogWriteTears(s, id, c, r); } else { LogWriteTearsNothing(s, id, c, r); }
    case Listing => ListTearsNothing(s, id, c, r);
    case Loading(_, _) => LoadTearsNothing(s, id, c, r);
    case GetPrev => GetPrevTearsNothing(s, id, c, r);
    case _ => OtherTearsNothing(tb, s, id, c);
  }

  lemma StepTears(tb: Tables, s: State, a: Action)
    ensures s.torn <= Do(tb, s, a).torn
    ensures s.torn == {} ==> (Do(tb, s, a).torn == {} <==> !Tears(s, a))
  {
    if a.Resume? && a.id in s.calls && WritesOp(s.calls[a.id]) {
      WakeTears(tb, s, a.id, s.calls[a.id], a.response);
    }
  }

  lemma {:induction false} TornGrows(tb: Tables, s: State, actions: seq<Action>)
    ensures s.torn <= Run(tb, s, actions).torn
    decreases |actions|
  {
    if actions != [] {
      StepTears(tb, s, actions[0]);
      TornGrows(tb, Do(tb, s, actions[0]), actions[1..]);
    }
  }

  // ---- the results ----------------------------------------------------------------------------------

  /** Over every run: the history of a stored fact is a chain that tells every body it has had,
      in order, exactly if none of its edits was torn. */
  lemma HistoryTellsIffNotTorn(tb: Tables, s: State, actions: seq<Action>, x: FactId)
    requires Initial(s) && x in Run(tb, s, actions).facts
    ensures var t := Run(tb, s, actions); HistoryAt(t, x) <==> x !in t.torn
  {
    InitialInv(s);
    RunCounted(tb, s, actions);
    var t := Run(tb, s, actions);
    assert Counted(t, x);
    if x in t.torn { TornIsUntold(t, x); }
  }

  /** An edit that was torn is never made up for: whatever continuation, with whatever retries,
      the fact has had more bodies than its history tells. */
  lemma TornForGood(tb: Tables, s: State, actions: seq<Action>, later: seq<Action>, x: FactId)
    requires Initial(s) && x in Run(tb, s, actions).torn
    ensures var t := Run(tb, Run(tb, s, actions), later);
      && x in t.torn && x in t.facts && x in t.bodies && !HistoryAt(t, x)
      && |t.bodies[x]| > |Log(t.history, x)| + 1
  {
    InitialInv(s);
    RunCounted(tb, s, actions);
    var m := Run(tb, s, actions);
    RunCounted(tb, m, later);
    TornGrows(tb, m, later);
    var t := Run(tb, m, later);
    assert Counted(t, x);
    TornIsUntold(t, x);
  }

  /** When nothing is torn: exactly in the runs without a failing edit put that took effect, a
      failing read of the history, or a failing write of its entry that took no effect. */
  lemma {:induction false} NothingTornIff(tb: Tables, s: State, actions: seq<Action>)
    requires s.torn == {}
    ensures Run(tb, s, actions).torn == {} <==> NeverTears(tb, s, actions)
    decreases |actions|
  {
    if actions != [] {
      StepTears(tb, s, actions[0]);
      if Tears(s, actions[0]) {
        TornGrows(tb, Do(tb, s, actions[0]), actions[1..]);
      } else {
        NothingTornIff(tb, Do(tb, s, actions[0]), actions[1..]);
      }
    }
  }

  lemma RunThen(tb: Tables, s: State, a: Action, rest: seq<Action>)
    ensures Run(tb, s, [a] + rest) == Run(tb, Do(tb, s, a), rest)
  {
    assert ([a] + rest)[1..] == rest;
  }

  lemma RunFour(tb: Tables, s: State, a: Action, b: Action, c: Action, d: Action)
    ensures Run(tb, s, [a, b, c, d]) == Do(tb, Do(tb, Do(tb, Do(tb, s, a), b), c), d)
  {
    var s1 := Do(tb, s, a);
    var s2 := Do(tb, s1, b);
    var s3 := Do(tb, s2, c);
    RunThen(tb, s, a, [b] + ([c] + ([d] + [])));
    RunThen(tb, s1, b, [c] + ([d] + []));
    RunThen(tb, s2, c, [d] + []);
    RunThen(tb, s3, d, []);
    assert [a] + ([b] + ([c] + ([d] + []))) == [a, b, c, d];
  }

  /** It does happen: an edit goes for the lock, is stored, and the history cannot be read. */
  lemma FailedAppendTears(tb: Tables, s: State, id: nat, f: Fact)
    requires s.lock.None? && id in s.calls && s.calls[id].pc.WantWrite? && s.calls[id].op == Upsert(f)
    requires f.id in s.facts && s.facts[f.id].body != f.body
    ensures f.id in Run(tb, s, [Resume(id, Done), Resume(id, Done), Resume(id, Done), Resume(id, Fail(false))]).torn
  {
    var s1 := Do(tb, s, Resume(id, Done));
    assert s1 == Goto(s.(lock := Some(id)), id, s.calls[id], GetPrev);
    var s2 := Do(tb, s1, Resume(id, Done));
    assert s2.calls[id].pc == Putting(f, Some(s.facts[f.id]));
    var s3 := Do(tb, s2, Resume(id, Done));
    assert s3.calls[id].pc.LogReading? && s3.calls[id].pc.next == f;
    var ok, no := Resume(id, Done), Resume(id, Fail(false));
    WakeTears(tb, s3, id, s3.calls[id], Fail(false));
    RunFour(tb, s, ok, ok, ok, no);
  }
}
