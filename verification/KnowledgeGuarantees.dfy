/** What the knowledge service promises over every run. */
module KnowledgeGuarantees {
  import opened Wrappers
  import opened KnowledgeTypes
  import opened Tokenizer
  import opened KnowledgeProtocol

  /** Whatever interleaves and whatever fails: an initialized index agrees with the store
      on every fact except those a failed write left stale and, while the lock is held,
      the one fact its holder is writing. */
  lemma IndexFollowsStore(tb: Tables, s: State, actions: seq<Action>, x: FactId)
    requires Initial(s)
    ensures var t := Run(tb, s, actions);
      t.initialized && x !in t.stale && !Ahead(t, x) ==> Find(t.indexed, x) == Find(t.facts, x)
    ensures var t := Run(tb, s, actions);
      forall y | Ahead(t, x) && Ahead(t, y) :: x == y
  {
    InitialInv(s);
    RunKept(tb, s, actions);
  }

  /** A completed (re)build makes the index the index of the store again, whatever failed
      before it. */
  lemma RebuildRepairs(tb: Tables, s: State, actions: seq<Action>, id: nat, r: Response)
    requires Initial(s)
    requires var t := Run(tb, s, actions); id in t.calls && t.calls[id].pc.Loading? && t.calls[id].pc.todo == []
    ensures var t := Run(tb, s, actions + [Resume(id, r)]);
      t.initialized && t.lock.None? && t.stale == {} && t.indexed == t.facts
  {
    InitialInv(s);
    RunKept(tb, s, actions);
    var t := Run(tb, s, actions);
    assert t.lock == Some(id);
    LoadedKept(t, id);
    RunAppend(tb, s, actions, Resume(id, r));
  }

  lemma {:induction false} RunAppend(tb: Tables, s: State, actions: seq<Action>, a: Action)
    ensures Run(tb, s, actions + [a]) == Do(tb, Run(tb, s, actions), a)
    decreases |actions|
  {
    if actions == [] {
      assert actions + [a] == [a] && [a][1..] == [];
    } else {
      RunAppend(tb, Do(tb, s, actions[0]), actions[1..], a);
      assert (actions + [a])[1..] == actions[1..] + [a];
    }
  }

  predicate ReadsOnly(op: Op) {
    op.Read? || op.Build?
  }

  /** What a step of call `id` leaves alone, and when it answers a read. */
  ghost predicate Moved(tb: Tables, s: State, s': State, id: nat, c: Call) {
    && id in s'.calls && s'.calls == s.calls[id := s'.calls[id]] && s'.calls[id].op == c.op
    && (s.initialized ==> s'.initialized)
    && (s'.calls[id].pc.Ready? ==> s'.initialized || c.pc.Ready?)
    && (ReadsOnly(c.op) && s.stale == {} ==> s'.facts == s.facts && s'.stale == {})
    && Answers(tb, s, s'.calls[id], c)
  }

  ghost predicate Answers(tb: Tables, s: State, c': Call, c: Call) {
    c.op.Read? && c'.pc == Finished(true) ==>
      c' == c || (c.pc.Ready? && c'.answer == Answer(tb, s.indexed, c.op.query, c.op.filter))
  }

  lemma GotoMoves(tb: Tables, s: State, s1: State, id: nat, c: Call, pc: Pc)
    requires id in s.calls && s.calls[id] == c && s1.calls == s.calls
    requires (s.initialized ==> s1.initialized) && (pc.Ready? ==> s1.initialized)
    requires ReadsOnly(c.op) && s.stale == {} ==> s1.facts == s.facts && s1.stale == {}
    requires !(c.op.Read? && pc == Finished(true))
    ensures Moved(tb, s, Goto(s1, id, c, pc), id, c)
  {}

  lemma LeaveMoves(tb: Tables, s: State, s1: State, id: nat, c: Call, pc: Pc)
    requires id in s.calls && s.calls[id] == c && s1.calls == s.calls
    requires (s.initialized ==> s1.initialized) && (pc.Ready? ==> s1.initialized)
    requires ReadsOnly(c.op) && s.stale == {} ==> s1.facts == s.facts && s1.stale == {}
    requires !(c.op.Read? && pc == Finished(true))
    ensures Moved(tb, s, Leave(s1, id, c, pc), id, c)
  {
    GotoMoves(tb, s, s1.(lock := None), id, c, pc);
  }

  lemma BeginMoves(tb: Tables, s: State, id: nat, c: Call)
    requires id in s.calls && s.calls[id] == c
    ensures Moved(tb, s, Goto(s, id, c, FirstPc(c.op, s.initialized)), id, c)
  {
    GotoMoves(tb, s, s, id, c, FirstPc(c.op, s.initialized));
  }

  lemma ReadyMoves(tb: Tables, s: State, id: nat, c: Call)
    requires id in s.calls && s.calls[id] == c && c.pc.Ready?
    ensures Moved(tb, s, WakeReady(tb, s, id, c), id, c)
  {
    if !c.op.Read? { GotoMoves(tb, s, s, id, c, if c.op.Build? then Finished(true) else WantWrite); }
  }

  lemma WaiterMoves(tb: Tables, s: State, id: nat, c: Call)
    requires id in s.calls && s.calls[id] == c && WritesOp(c) && (c.pc.WantBuild? || c.pc.WantInit? || c.pc.WantWrite?)
    ensures Moved(tb, s, WakeWaiting(s, id, c), id, c)
  {
    assert s.lock.Some? ==> s.calls == s.calls[id := c];
  }

  lemma ListingMoves(tb: Tables, s: State, id: nat, c: Call, r: Response)
    requires id in s.calls && s.calls[id] == c && c.pc.Listing?
    ensures Moved(tb, s, WakeLoader(s, id, c, r), id, c)
  {
    if r.Keys? { GotoMoves(tb, s, s, id, c, Loading(r.order, [])); }
    LeaveMoves(tb, s, s, id, c, Finished(false));
  }

  lemma LoadingMoves(tb: Tables, s: State, id: nat, c: Call, r: Response)
    requires id in s.calls && s.calls[id] == c && c.pc.Loading? && c.pc.todo != []
    ensures Moved(tb, s, WakeLoader(s, id, c, r), id, c)
  {
    var x := c.pc.todo[0];
    if r.Fail? {
      LeaveMoves(tb, s, s, id, c, Finished(false));
    } else {
      GotoMoves(tb, s, s, id, c, Loading(c.pc.todo[1..], if x in s.facts then c.pc.got + [s.facts[x]] else c.pc.got));
    }
  }

  lemma LoadedMoves(tb: Tables, s: State, id: nat, c: Call, r: Response)
    requires id in s.calls && s.calls[id] == c && c.pc.Loading? && c.pc.todo == []
    ensures Moved(tb, s, WakeLoader(s, id, c, r), id, c)
  {
    LeaveMoves(tb, s, s.(indexed := Rebuilt(c.pc.got), initialized := true, stale := {}), id, c,
               if c.op.Build? then Finished(true) else Ready);
  }

  lemma GetPrevMoves(tb: Tables, s: State, id: nat, c: Call, r: Response)
    requires id in s.calls && s.calls[id] == c && WritesOp(c) && c.pc.GetPrev?
    ensures Moved(tb, s, WakeGetPrev(s, id, c, r), id, c)
  {}

  lemma PutMoves(tb: Tables, s: State, id: nat, c: Call, r: Response)
    requires id in s.calls && s.calls[id] == c && WritesOp(c) && c.pc.Putting?
    ensures Moved(tb, s, WakePutting(s, id, c, r), id, c)
  {
    if r.Fail? { PutFailMoves(tb, s, id, c, r); } else { PutDoneMoves(tb, s, id, c, r); }
  }

  lemma PutFailMoves(tb: Tables, s: State, id: nat, c: Call, r: Response)
    requires id in s.calls && s.calls[id] == c && WritesOp(c) && c.pc.Putting? && r.Fail?
    ensures Moved(tb, s, WakePutting(s, id, c, r), id, c)
  {
    var next, s1 := c.pc.next, Stored(s, c.pc.next, c.pc.prev);
    if r.effect {
      var torn' := if Edited(next, c.pc.prev) then s1.torn + {next.id} else s1.torn;
      LeaveMoves(tb, s, s1.(stale := s1.stale + {next.id}, torn := torn'), id, c, Finished(false));
    } else {
      LeaveMoves(tb, s, s, id, c, Finished(false));
    }
  }

  lemma PutDoneMoves(tb: Tables, s: State, id: nat, c: Call, r: Response)
    requires id in s.calls && s.calls[id] == c && WritesOp(c) && c.pc.Putting? && !r.Fail?
    ensures Moved(tb, s, WakePutting(s, id, c, r), id, c)
  {
    var next, s1 := c.pc.next, Stored(s, c.pc.next, c.pc.prev);
    if Edited(next, c.pc.prev) {
      GotoMoves(tb, s, s1, id, c, LogReading(next, c.pc.prev.value.body));
    } else {
      LeaveMoves(tb, s, s1.(indexed := s1.indexed[next.id := next], stale := s1.stale - {next.id}), id, c,
        Finished(true));
    }
  }

  lemma LoggerMoves(tb: Tables, s: State, id: nat, c: Call, r: Response)
    requires id in s.calls && s.calls[id] == c && WritesOp(c) && Logging(c.pc)
    ensures Moved(tb, s, WakeLogging(s, id, c, r), id, c)
  {
    if r.Fail? { LogFailMoves(tb, s, id, c, r); } else { LogDoneMoves(tb, s, id, c, r); }
  }

  lemma LogFailMoves(tb: Tables, s: State, id: nat, c: Call, r: Response)
    requires id in s.calls && s.calls[id] == c && WritesOp(c) && Logging(c.pc) && r.Fail?
    ensures Moved(tb, s, WakeLogging(s, id, c, r), id, c)
  {
    var next := c.pc.next;
    if c.pc.LogReading? || !r.effect {
      LeaveMoves(tb, s, s.(stale := s.stale + {next.id}, torn := s.torn + {next.id}), id, c, Finished(false));
    } else {
      var history' := s.history[next.id := c.pc.log + [Change(c.pc.before, next.body)]];
      LeaveMoves(tb, s, s.(history := history', stale := s.stale + {next.id}), id, c, Finished(false));
    }
  }

  lemma LogDoneMoves(tb: Tables, s: State, id: nat, c: Call, r: Response)
    requires id in s.calls && s.calls[id] == c && WritesOp(c) && Logging(c.pc) && !r.Fail?
    ensures Moved(tb, s, WakeLogging(s, id, c, r), id, c)
  {}

  lemma WakeMoves(tb: Tables, s: State, id: nat, c: Call, r: Response)
    requires id in s.calls && s.calls[id] == c && WritesOp(c)
    ensures Moved(tb, s, Wake(tb, s, id, c, r), id, c)
  {
    match c.pc
    case Begin => BeginMoves(tb, s, id, c);
    case Ready => ReadyMoves(tb, s, id, c);
    case Listing => ListingMoves(tb, s, id, c, r);
    case Loading(todo, _) => if todo == [] { LoadedMoves(tb, s, id, c, r); } else { LoadingMoves(tb, s, id, c, r); }
    case GetPrev => GetPrevMoves(tb, s, id, c, r);
    case Putting(_, _) => PutMoves(tb, s, id, c, r);
    case LogReading(_, _) => LoggerMoves(tb, s, id, c, r);
    case LogWriting(_, _, _) => LoggerMoves(tb, s, id, c, r);
    case Finished(_) => assert s.calls == s.calls[id := c];
    case _ => WaiterMoves(tb, s, id, c);
  }

  /** Whoever goes on to the index finds it initialized. */
  ghost predicate ReadyOk(s: State) {
    forall id | id in s.calls && s.calls[id].pc.Ready? :: s.initialized
  }

  lemma ReadyStep(tb: Tables, s: State, a: Action)
    requires ReadyOk(s)
    ensures ReadyOk(Do(tb, s, a))
  {
    if a.Resume? && a.id in s.calls && WritesOp(s.calls[a.id]) {
      WakeMoves(tb, s, a.id, s.calls[a.id], a.response);
    }
  }

  ghost predicate ToldOf(tb: Tables, m: State, query: string, filter: Option<Scope>, answer: map<FactId, FactSummary>,
                         x: FactId) {
    x in m.stale || Ahead(m, x) || ((x in answer <==> x in Answer(tb, m.facts, query, filter))
                                    && (x in answer ==> answer[x] == Answer(tb, m.facts, query, filter)[x]))
  }

  /** The answer is what the store holds at this moment, up to the facts a failed write left
      stale and the one being written. */
  ghost predicate TrueAt(tb: Tables, m: State, query: string, filter: Option<Scope>, answer: map<FactId, FactSummary>) {
    forall x :: ToldOf(tb, m, query, filter, answer, x)
  }

  lemma LookIsTrue(tb: Tables, s: State, query: string, filter: Option<Scope>)
    requires Inv(s) && s.initialized
    ensures TrueAt(tb, s, query, filter, Answer(tb, s.indexed, query, filter))
  {
    forall x ensures ToldOf(tb, s, query, filter, Answer(tb, s.indexed, query, filter), x) {
      if x !in s.stale && !Ahead(s, x) { assert Agree(s, x); }
    }
  }

  predicate Answered(s: State, id: nat) {
    id in s.calls && s.calls[id].op.Read? && s.calls[id].pc == Finished(true)
  }

  /** A step that answers a read: it looks at the index then and there. Otherwise the answer
      was there before. */
  lemma AnsweringStep(tb: Tables, s: State, a: Action, id: nat)
    requires Answered(Do(tb, s, a), id)
    ensures if Answered(s, id) then Do(tb, s, a).calls[id] == s.calls[id]
      else id in s.calls && s.calls[id].pc.Ready? && s.calls[id].op == Do(tb, s, a).calls[id].op
           && Do(tb, s, a).calls[id].answer == Answer(tb, s.indexed, s.calls[id].op.query, s.calls[id].op.filter)
  {
    if a.Resume? && a.id in s.calls && WritesOp(s.calls[a.id]) {
      WakeMoves(tb, s, a.id, s.calls[a.id], a.response);
    }
  }

  /** Every answered read answered with what the store held at some moment of the run, on or
      after the moment it was entered, up to the facts excepted at that moment. */
  lemma {:induction false} ReadsTellTheStore(tb: Tables, s: State, actions: seq<Action>, id: nat) returns (k: nat)
    requires Inv(s) && ReadyOk(s) && id !in s.calls
    requires Answered(Run(tb, s, actions), id)
    ensures k <= |actions|
    ensures var t, m := Run(tb, s, actions), Run(tb, s, actions[..k]);
      id in m.calls && TrueAt(tb, m, t.calls[id].op.query, t.calls[id].op.filter, t.calls[id].answer)
    decreases |actions|
  {
    var n := |actions| - 1;
    var init, a := actions[..n], actions[n];
    RunAppend(tb, s, init, a);
    assert actions == init + [a];
    var m := Run(tb, s, init);
    AnsweringStep(tb, m, a, id);
    if Answered(m, id) {
      k := ReadsTellTheStore(tb, s, init, id);
      assert actions[..k] == init[..k];
    } else {
      k := n;
      RunKept(tb, s, init);
      RunReady(tb, s, init);
      LookIsTrue(tb, m, m.calls[id].op.query, m.calls[id].op.filter);
    }
  }

  lemma {:induction false} RunReady(tb: Tables, s: State, actions: seq<Action>)
    requires ReadyOk(s)
    ensures ReadyOk(Run(tb, s, actions))
    decreases |actions|
  {
    if actions != [] {
      ReadyStep(tb, s, actions[0]);
      RunReady(tb, Do(tb, s, actions[0]), actions[1..]);
    }
  }

  /** No failed write has left the index behind, nobody is writing, and nobody starts to. */
  ghost predicate Quiet(s: State, actions: seq<Action>) {
    && s.stale == {}
    && (forall id | id in s.calls :: ReadsOnly(s.calls[id].op) || s.calls[id].pc.Finished?)
    && (forall i | 0 <= i < |actions| && actions[i].Enter? :: ReadsOnly(actions[i].op))
  }

  lemma {:induction false} QuietRun(tb: Tables, s: State, actions: seq<Action>)
    requires Inv(s) && Quiet(s, actions)
    ensures var t := Run(tb, s, actions);
      t.facts == s.facts && t.stale == {} && forall x :: !Ahead(t, x)
    decreases |actions|
  {
    if actions == [] {
      forall x ensures !Ahead(s, x) { assert s.lock.Some? ==> WritesOp(s.calls[s.lock.value]); }
    } else {
      var a := actions[0];
      DoKept(tb, s, a);
      QuietStep(tb, s, a);
      assert Quiet(Do(tb, s, a), actions[1..]);
      QuietRun(tb, Do(tb, s, a), actions[1..]);
    }
  }

  lemma QuietStep(tb: Tables, s: State, a: Action)
    requires Inv(s) && Quiet(s, [a])
    ensures Quiet(Do(tb, s, a), []) && Do(tb, s, a).facts == s.facts
  {
    assert a.Enter? ==> [a][0].Enter? && ReadsOnly(a.op);
    if a.Resume? && a.id in s.calls {
      WakeMoves(tb, s, a.id, s.calls[a.id], a.response);
    }
  }

  /** While nobody writes, every read answers exactly what the store holds. */
  lemma QuietReadsAreExact(tb: Tables, s: State, actions: seq<Action>, id: nat)
    requires Inv(s) && ReadyOk(s) && Quiet(s, actions) && id !in s.calls && Answered(Run(tb, s, actions), id)
    ensures var c := Run(tb, s, actions).calls[id];
      c.answer == Answer(tb, s.facts, c.op.query, c.op.filter)
  {
    var k := ReadsTellTheStore(tb, s, actions, id);
    QuietRun(tb, s, actions[..k]);
    var m, c := Run(tb, s, actions[..k]), Run(tb, s, actions).calls[id];
    forall x ensures (x in c.answer <==> x in Answer(tb, s.facts, c.op.query, c.op.filter))
                     && (x in c.answer ==> c.answer[x] == Answer(tb, s.facts, c.op.query, c.op.filter)[x])
    {
      assert ToldOf(tb, m, c.op.query, c.op.filter, c.answer, x);
    }
  }

  /** A service just started over a store. */
  ghost function Restarted(t: State): State {
    t.(indexed := map[], initialized := false, lock := None, calls := map[])
  }

  /** Whatever a service has been through: from a moment at which nobody is writing and no
      failed write has left the index behind, any read it answers and any read that a fresh service over the same
      store answers, for the same query and in whatever company of other reads and builds,
      have the same answer. */
  lemma FreshServiceAnswersTheSame(
      tb: Tables, s: State, actions: seq<Action>, onwards: seq<Action>, anew: seq<Action>, id: nat, id': nat)
    requires Initial(s)
    requires var t := Run(tb, s, actions);
      && Quiet(t, onwards) && Quiet(Restarted(t), anew)
      && id !in t.calls && Answered(Run(tb, t, onwards), id) && Answered(Run(tb, Restarted(t), anew), id')
    requires var t := Run(tb, s, actions); Run(tb, t, onwards).calls[id].op == Run(tb, Restarted(t), anew).calls[id'].op
    ensures var t := Run(tb, s, actions);
      Run(tb, t, onwards).calls[id].answer == Run(tb, Restarted(t), anew).calls[id'].answer
  {
    InitialInv(s);
    RunKept(tb, s, actions);
    RunReady(tb, s, actions);
    var t := Run(tb, s, actions);
    QuietReadsAreExact(tb, t, onwards, id);
    RestartedInv(t);
    QuietReadsAreExact(tb, Restarted(t), anew, id');
  }

  lemma RestartedInv(t: State)
    requires Inv(t) && Quiet(t, [])
    ensures Inv(Restarted(t))
  {
    var u := Restarted(t);
    assert forall x :: !Ahead(u, x);
    forall x ensures !Ahead(t, x) { assert t.lock.Some? ==> WritesOp(t.calls[t.lock.value]); }
    forall x | x in u.facts && x !in u.torn ensures HistoryAt(u, x) {
      assert HistoryAt(t, x);
    }
  }

  /** Each fact's history is a chain: entries change the body, each takes over where the
      one before ended, the last ends at the stored body; and replaying it gives every
      body the fact ever had, in order. Only facts whose write failed between the store
      and the history are excepted, and the fact being written until its entry is in. */
  lemma HistoryTellsEveryBody(tb: Tables, s: State, actions: seq<Action>, x: FactId)
    requires Initial(s)
    requires var t := Run(tb, s, actions); x in t.facts && x !in t.torn && !Ahead(t, x)
    ensures var t := Run(tb, s, actions);
      var log := Log(t.history, x);
      && (forall i | 0 <= i < |log| :: log[i].before != log[i].after)
      && (forall i | 0 < i < |log| :: log[i-1].after == log[i].before)
      && (log != [] ==> log[|log|-1].after == t.facts[x].body)
      && x in t.bodies && t.bodies[x] == Replay(log, t.facts[x].body)
  {
    InitialInv(s);
    RunKept(tb, s, actions);
    var t := Run(tb, s, actions);
    assert HistoryAt(t, x);
    ChainedMeans(Log(t.history, x), t.facts[x].body);
  }

  lemma {:induction false} ChainedMeans(log: seq<Change>, current: string)
    requires Chained(log, current)
    ensures forall i | 0 <= i < |log| :: log[i].before != log[i].after
    ensures forall i | 0 < i < |log| :: log[i-1].after == log[i].before
    ensures log != [] ==> log[|log|-1].after == current
  {
    if log != [] {
      ChainedMeans(log[..|log|-1], log[|log|-1].before);
    }
  }

  predicate Writing(pc: Pc) {
    pc.Putting? || pc.LogReading? || pc.LogWriting?
  }

  /** A run in which no write fails. */
  ghost predicate WritesSucceed(tb: Tables, s: State, actions: seq<Action>)
    decreases |actions|
  {
    actions != [] ==> !WriteFails(s, actions[0]) && WritesSucceed(tb, Do(tb, s, actions[0]), actions[1..])
  }

  ghost predicate WriteFails(s: State, a: Action) {
    a.Resume? && a.response.Fail? && a.id in s.calls && Writing(s.calls[a.id].pc)
  }

  /** The exceptions are only ever due to failed writes. */
  lemma {:induction false} NoFailureNoException(tb: Tables, s: State, actions: seq<Action>)
    requires s.stale == {} && s.torn == {} && WritesSucceed(tb, s, actions)
    ensures Run(tb, s, actions).stale == {} && Run(tb, s, actions).torn == {}
    decreases |actions|
  {
    if actions != [] {
      StepNoException(tb, s, actions[0]);
      NoFailureNoException(tb, Do(tb, s, actions[0]), actions[1..]);
    }
  }

  ghost predicate NoException(s: State) {
    s.stale == {} && s.torn == {}
  }

  lemma StepNoException(tb: Tables, s: State, a: Action)
    requires NoException(s) && !WriteFails(s, a)
    ensures NoException(Do(tb, s, a))
  {
    if a.Resume? && a.id in s.calls && WritesOp(s.calls[a.id]) {
      WakeNoException(tb, s, a.id, s.calls[a.id], a.response);
    }
  }

  lemma WakeNoException(tb: Tables, s: State, id: nat, c: Call, r: Response)
    requires NoException(s) && WritesOp(c) && !(Writing(c.pc) && r.Fail?)
    ensures NoException(Wake(tb, s, id, c, r))
  {
    match c.pc
    case Putting(_, _) => PutNoException(s, id, c, r);
    case LogReading(_, _) => LogNoException(s, id, c, r);
    case LogWriting(_, _, _) => LogNoException(s, id, c, r);
    case GetPrev => GetPrevNoException(s, id, c, r);
    case Listing => ReadNoException(s, id, c, r);
    case Loading(_, _) => ReadNoException(s, id, c, r);
    case Ready => LookNoException(tb, s, id, c);
    case Begin =>
    case Finished(_) =>
    case _ => WaitNoException(s, id, c);
  }

  lemma LookNoException(tb: Tables, s: State, id: nat, c: Call)
    requires NoException(s)
    ensures NoException(WakeReady(tb, s, id, c))
  {}

  lemma WaitNoException(s: State, id: nat, c: Call)
    requires NoException(s)
    ensures NoException(WakeWaiting(s, id, c))
  {}

  lemma PutNoException(s: State, id: nat, c: Call, r: Response)
    requires NoException(s) && !r.Fail? && c.pc.Putting?
    ensures NoException(WakePutting(s, id, c, r))
  {}

  lemma LogNoException(s: State, id: nat, c: Call, r: Response)
    requires NoException(s) && !r.Fail? && Logging(c.pc)
    ensures NoException(WakeLogging(s, id, c, r))
  {}

  lemma ReadNoException(s: State, id: nat, c: Call, r: Response)
    requires NoException(s) && (c.pc.Listing? || c.pc.Loading?)
    ensures NoException(WakeLoader(s, id, c, r))
  {
    if c.pc.Listing? { ListNoException(s, id, c, r); } else { LoadNoException(s, id, c, r); }
  }

  lemma ListNoException(s: State, id: nat, c: Call, r: Response)
    requires NoException(s) && c.pc.Listing?
    ensures NoException(WakeLoader(s, id, c, r))
  {}

  lemma LoadNoException(s: State, id: nat, c: Call, r: Response)
    requires NoException(s) && c.pc.Loading?
    ensures NoException(WakeLoader(s, id, c, r))
  {}

  lemma GetPrevNoException(s: State, id: nat, c: Call, r: Response)
    requires NoException(s) && WritesOp(c) && c.pc.GetPrev?
    ensures NoException(WakeGetPrev(s, id, c, r))
  {}
}
