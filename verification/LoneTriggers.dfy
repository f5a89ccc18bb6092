/** The protocol of `ingestion/service.rs` without its concurrency: a trigger that runs alone,
    over stores, connectors and a sink that answer, does to every source what IngestionLedger
    says of a pass or a drain. IngestionService promises the same of its methods. */
module LoneTriggers {
  import opened Wrappers
  import opened Steps
  import opened Sources
  import opened IngestionProtocol
  import opened IngestionLedger

  type Registry = map<SourceKind, Connector>

  /** Everything answers. */
  function Reply(conn: Registry, pc: Pc): Response {
    match pc
    case AtSync(src, _, before) =>
      if src in conn then Batch(conn[src].sync(before).0, conn[src].sync(before).1) else Done
    case AtRemaining(src, cursor) => if src in conn then Count(conn[src].remaining(cursor)) else Done
    case _ => Done
  }

  /** One call is woken, nothing else happens. */
  ghost function Woken(conn: Registry, id: nat): State -> State {
    (s: State) => if id in s.calls then Do(conn.Keys, s, Resume(id, Reply(conn, s.calls[id].pc))) else s
  }

  /** Running alone, a call takes one state to the other. */
  ghost predicate Comes(conn: Registry, s: State, id: nat, s': State) {
    Leads(Woken(conn, id), s, s')
  }

  lemma Joined(conn: Registry, s: State, id: nat, s1: State, s2: State)
    requires Comes(conn, s, id, s1) && Comes(conn, s1, id, s2)
    ensures Comes(conn, s, id, s2)
  {
    LeadsOn(Woken(conn, id), s, s1, s2);
  }

  lemma ComesHere(conn: Registry, s: State, id: nat)
    ensures Comes(conn, s, id, s)
  {
    LeadsHere(Woken(conn, id), s);
  }

  /** One more wake. */
  lemma WakeAgain(conn: Registry, s: State, id: nat, s1: State) returns (s2: State)
    requires Comes(conn, s, id, s1) && id in s1.calls && Ready(s1.calls[id].pc)
    ensures Comes(conn, s, id, s2)
    ensures s2 == Wake(conn.Keys, s1, id, s1.calls[id], Reply(conn, s1.calls[id].pc))
  {
    s2 := Woken(conn, id)(s1);
    LeadsFurther(Woken(conn, id), s, s1);
  }

  function View(s: State): Ledger {
    Ledger(s.cursors, s.seen, s.delivered)
  }

  /** What a call asked for. */
  datatype Ask = Ask(targets: seq<SourceKind>, drain: bool, maxPasses: nat)

  ghost predicate Stands(s: State, id: nat, a: Ask, pc: Pc, report: Report) {
    && id in s.calls && Ready(pc)
    && var c := s.calls[id];
       c.targets == a.targets && c.drain == a.drain && c.maxPasses == a.maxPasses && c.pc == pc && c.report == report
  }

  // ---- a pass -------------------------------------------------------------------------------

  /** The new items, read from the front. */
  lemma {:induction false} UnseenFront(src: SourceKind, x: string, rest: seq<string>, seen: set<Key>)
    ensures Unseen(src, [x] + rest, seen) ==
      (if (src, x) in seen then [] else [x]) + Unseen(src, rest, seen + {(src, x)})
  {
    if rest == [] {
      assert [x] + rest == [x] && [x][..0] == [];
    } else {
      var n := |rest| - 1;
      UnseenFront(src, x, rest[..n], seen);
      assert ([x] + rest)[..n+1] == [x] + rest[..n] && ([x] + rest)[n+1] == rest[n];
    }
  }

  function GateReport(report: Report, items: nat, picked: nat): Report
    requires picked <= items
  {
    report.(collected := report.collected + picked, skipped := report.skipped + items - picked)
  }

  lemma {:induction false} FewerUnseen(src: SourceKind, items: seq<string>, seen: set<Key>)
    ensures |Unseen(src, items, seen)| <= |items|
  {
    if items != [] { FewerUnseen(src, items[..|items|-1], seen); }
  }

  /** One item: known and skipped, or marked and picked. */
  lemma ItemRuns(conn: Registry, s: State, id: nat, a: Ask, src: SourceKind, pass: nat, before: Option<Cursor>,
                 next: Cursor, x: string, rest: seq<string>, picked: seq<string>, report: Report)
    returns (s': State)
    requires Stands(s, id, a, AtCheck(src, pass, before, next, [x] + rest, picked), report)
    ensures Comes(conn, s, id, s') && s'.running == s.running && View(s') == View(s).(seen := s.seen + {(src, x)})
    ensures var n := if (src, x) in s.seen then 0 else 1;
      Stands(s', id, a, NextItem(src, pass, before, next, rest, picked + [x][..n]), GateReport(report, 1, n))
  {
    ComesHere(conn, s, id);
    s' := WakeAgain(conn, s, id, s);
    assert ([x] + rest)[1..] == rest && [x][..0] == [] && [x][..1] == [x] && picked + [] == picked;
    if (src, x) in s.seen {
      assert s.seen + {(src, x)} == s.seen;
    } else {
      s' := WakeAgain(conn, s, id, s');
    }
  }

  lemma KeysOfFront(src: SourceKind, x: string, rest: seq<string>, seen: set<Key>)
    ensures seen + {(src, x)} + KeySet(src, rest) == seen + KeySet(src, [x] + rest)
  {}

  lemma PickedOfFront(x: string, n: nat, picked: seq<string>, more: seq<string>)
    requires n <= 1
    ensures picked + [x][..n] + more == picked + ((if n == 0 then [] else [x]) + more)
  {}

  lemma FrontOfBatch(src: SourceKind, x: string, rest: seq<string>, seen: set<Key>, picked: seq<string>)
    ensures seen + {(src, x)} + KeySet(src, rest) == seen + KeySet(src, [x] + rest)
    ensures var n := if (src, x) in seen then 0 else 1;
      && picked + [x][..n] + Unseen(src, rest, seen + {(src, x)}) == picked + Unseen(src, [x] + rest, seen)
      && n + |Unseen(src, rest, seen + {(src, x)})| == |Unseen(src, [x] + rest, seen)|
  {
    KeysOfFront(src, x, rest, seen);
    UnseenFront(src, x, rest, seen);
    PickedOfFront(x, if (src, x) in seen then 0 else 1, picked, Unseen(src, rest, seen + {(src, x)}));
  }

  lemma ReportsAdd(report: Report, n: nat, items: nat, picked: nat)
    requires n <= 1 && picked <= items
    ensures GateReport(GateReport(report, 1, n), items, picked) == GateReport(report, 1 + items, n + picked)
  {}

  /** The gate over a batch: what is new is marked and picked. */
  lemma {:induction false} GateRuns(conn: Registry, s: State, id: nat, a: Ask, src: SourceKind, pass: nat,
                                    before: Option<Cursor>, next: Cursor, todo: seq<string>, picked: seq<string>,
                                    report: Report)
    returns (s': State)
    requires Stands(s, id, a, NextItem(src, pass, before, next, todo, picked), report)
    ensures Comes(conn, s, id, s') && s'.running == s.running && |Unseen(src, todo, s.seen)| <= |todo|
    ensures Stands(s', id, a, NextItem(src, pass, before, next, [], picked + Unseen(src, todo, s.seen)),
                   GateReport(report, |todo|, |Unseen(src, todo, s.seen)|))
    ensures View(s') == View(s).(seen := s.seen + KeySet(src, todo))
    decreases |todo|
  {
    FewerUnseen(src, todo, s.seen);
    if todo == [] {
      ComesHere(conn, s, id);
      s' := s;
      assert picked + [] == picked && s.seen + KeySet(src, []) == s.seen;
    } else {
      var x, rest := todo[0], todo[1..];
      assert todo == [x] + rest;
      var n := if (src, x) in s.seen then 0 else 1;
      var s1 := ItemRuns(conn, s, id, a, src, pass, before, next, x, rest, picked, report);
      s' := GateRuns(conn, s1, id, a, src, pass, before, next, rest, picked + [x][..n], GateReport(report, 1, n));
      Joined(conn, s, id, s1, s');
      FrontOfBatch(src, x, rest, s.seen, picked);
      ReportsAdd(report, n, |rest|, |Unseen(src, rest, s1.seen)|);
    }
  }

  /** From the gate to the saved cursor. */
  lemma HandOverRuns(conn: Registry, s: State, id: nat, a: Ask, src: SourceKind, pass: nat, before: Option<Cursor>,
                     next: Cursor, picked: seq<string>, report: Report)
    returns (s': State)
    requires Stands(s, id, a, NextItem(src, pass, before, next, [], picked), report)
    ensures Comes(conn, s, id, s') && s'.running == s.running
    ensures View(s') == Ledger(s.cursors[src := next], s.seen, s.delivered + Keys(src, picked))
    ensures Stands(s', id, a, Onwards(conn, a, src, pass, before != Some(next)), report)
  {
    ComesHere(conn, s, id);
    s' := WakeAgain(conn, s, id, s);
    if picked != [] {
      s' := WakeAgain(conn, s, id, s');
    } else {
      assert s.delivered + Keys(src, picked) == s.delivered;
    }
  }

  /** Where a call goes on after a pass. */
  function Onwards(conn: Registry, a: Ask, src: SourceKind, pass: nat, moved: bool): Pc {
    if a.drain && moved && pass + 1 < a.maxPasses && src in conn then AtCursor(src, pass + 1) else AtUnlock(src)
  }

  /** How many more keys have been delivered is counted as collected, and every item is
      counted once. */
  ghost predicate CountsItems(s: State, report: Report, s': State, report': Report, items: nat) {
    && report'.collected == report.collected + |s'.delivered| - |s.delivered|
    && report'.collected + report'.skipped == report.collected + report.skipped + items
    && report'.errors == report.errors && report'.remaining == report.remaining
  }

  /** A pass is `OnePass`. */
  lemma PassRuns(conn: Registry, s: State, id: nat, a: Ask, src: SourceKind, pass: nat, report: Report)
    returns (s': State, report': Report)
    requires src in conn && Stands(s, id, a, AtCursor(src, pass), report)
    ensures Comes(conn, s, id, s') && s'.running == s.running && View(s') == OnePass(View(s), src, conn[src])
    ensures Stands(s', id, a, Onwards(conn, a, src, pass, Moves(View(s), src, conn[src])), report')
    ensures CountsItems(s, report, s', report', |conn[src].sync(Lookup(s.cursors, src)).0|)
  {
    ComesHere(conn, s, id);
    var (items, next) := conn[src].sync(Lookup(s.cursors, src));
    var s1 := WakeAgain(conn, s, id, s);
    var s2 := WakeAgain(conn, s, id, s1);
    var before := Lookup(s.cursors, src);
    assert Stands(s2, id, a, NextItem(src, pass, before, next, items, []), report);
    var s3 := GateRuns(conn, s2, id, a, src, pass, before, next, items, [], report);
    Joined(conn, s, id, s2, s3);
    var picked := Unseen(src, items, s.seen);
    assert [] + picked == picked;
    report' := GateReport(report, |items|, |picked|);
    s' := HandOverRuns(conn, s3, id, a, src, pass, before, next, picked, report');
    Joined(conn, s, id, s3, s');
  }

  /** The passes of a drain are `Drain`. */
  lemma {:induction false} DrainRuns(conn: Registry, s: State, id: nat, a: Ask, src: SourceKind, pass: nat,
                                     report: Report)
    returns (s': State, report': Report)
    requires src in conn && a.drain && pass < a.maxPasses && Stands(s, id, a, AtCursor(src, pass), report)
    ensures Comes(conn, s, id, s') && s'.running == s.running
    ensures View(s') == Drain(View(s), src, conn[src], a.maxPasses - pass)
    ensures Stands(s', id, a, AtUnlock(src), report')
    ensures CountsItems(s, report, s', report', DrainItems(View(s), src, conn[src], a.maxPasses - pass))
    decreases a.maxPasses - pass
  {
    var l, c := View(s), conn[src];
    s', report' := PassRuns(conn, s, id, a, src, pass, report);
    if Moves(l, src, c) && pass + 1 < a.maxPasses {
      var s1 := s';
      s', report' := DrainRuns(conn, s1, id, a, src, pass + 1, report');
      Joined(conn, s, id, s1, s');
    } else {
      assert Moves(l, src, c) ==> Drain(OnePass(l, src, c), src, c, 0) == OnePass(l, src, c);
      assert Moves(l, src, c) ==> DrainItems(OnePass(l, src, c), src, c, 0) == 0;
    }
  }

  // ---- one target ---------------------------------------------------------------------------

  /** What one target makes of the ledger. */
  ghost function Served(conn: Registry, l: Ledger, src: SourceKind, busy: bool, a: Ask): Ledger {
    if busy || src !in conn then l
    else if a.drain then Drain(l, src, conn[src], a.maxPasses)
    else OnePass(l, src, conn[src])
  }

  /** The items it syncs; a busy source counts as one. */
  ghost function ItemsOf(conn: Registry, l: Ledger, src: SourceKind, busy: bool, a: Ask): nat {
    if busy then 1
    else if src !in conn then 0
    else if a.drain then DrainItems(l, src, conn[src], a.maxPasses)
    else |conn[src].sync(Lookup(l.cursors, src)).0|
  }

  /** What it reports as left. */
  ghost function LeftOf(conn: Registry, l: Ledger, src: SourceKind, busy: bool, a: Ask): nat {
    if src !in conn || (busy && a.drain) then 0 else conn[src].remaining(Lookup(l.cursors, src))
  }

  /** The lock is given back, and the rest asked for. */
  lemma UnlockRuns(conn: Registry, s: State, id: nat, a: Ask, src: SourceKind, report: Report) returns (s': State)
    requires Stands(s, id, a, AtUnlock(src), report)
    ensures Comes(conn, s, id, s') && s'.running == s.running - {src} && View(s') == View(s)
    ensures var n := if src in conn then conn[src].remaining(Lookup(s.cursors, src)) else 0;
      Stands(s', id, a, AtTarget, report.(remaining := report.remaining + n))
  {
    ComesHere(conn, s, id);
    s' := WakeAgain(conn, s, id, s);
    if src in conn {
      s' := WakeAgain(conn, s, id, s');
      s' := WakeAgain(conn, s, id, s');
    }
  }

  /** A target that is free: its lock, a pass or a drain, the lock again. */
  lemma FreeRuns(conn: Registry, s: State, id: nat, a: Ask, src: SourceKind, report: Report)
    returns (s': State, report': Report)
    requires Stands(s, id, a.(targets := [src] + a.targets), AtTarget, report) && src !in s.running
    ensures Comes(conn, s, id, s') && s'.running == s.running + {src} && Stands(s', id, a, AtUnlock(src), report')
    ensures View(s') == Served(conn, View(s), src, false, a)
    ensures CountsItems(s, report, s', report', ItemsOf(conn, View(s), src, false, a))
  {
    ComesHere(conn, s, id);
    assert ([src] + a.targets)[1..] == a.targets;
    var s1 := WakeAgain(conn, s, id, s);
    s', report' := s1, report;
    if src in conn && (!a.drain || a.maxPasses > 0) {
      if a.drain {
        s', report' := DrainRuns(conn, s1, id, a, src, 0, report);
      } else {
        s', report' := PassRuns(conn, s1, id, a, src, 0, report);
      }
      Joined(conn, s, id, s1, s');
    }
  }

  /** A busy target is counted and left alone; `trigger` still asks what it has left. */
  lemma BusyRuns(conn: Registry, s: State, id: nat, a: Ask, src: SourceKind, report: Report) returns (s': State)
    requires Stands(s, id, a.(targets := [src] + a.targets), AtTarget, report) && src in s.running
    ensures Comes(conn, s, id, s') && s'.running == s.running && View(s') == View(s)
    ensures Stands(s', id, a, AtTarget, report.(skipped := report.skipped + 1,
                                                remaining := report.remaining + LeftOf(conn, View(s), src, true, a)))
  {
    ComesHere(conn, s, id);
    assert ([src] + a.targets)[1..] == a.targets;
    s' := WakeAgain(conn, s, id, s);
    if src in conn && !a.drain {
      s' := WakeAgain(conn, s, id, s');
      s' := WakeAgain(conn, s, id, s');
    }
  }

  /** One target served: what is left is added to what is reported as left. */
  ghost predicate CountsTarget(conn: Registry, s: State, report: Report, s': State, report': Report, src: SourceKind,
                               a: Ask) {
    && report'.collected == report.collected + |s'.delivered| - |s.delivered|
    && report'.collected + report'.skipped
       == report.collected + report.skipped + ItemsOf(conn, View(s), src, src in s.running, a)
    && report'.errors == report.errors
    && report'.remaining == report.remaining + LeftOf(conn, View(s'), src, src in s.running, a)
  }

  lemma TargetRuns(conn: Registry, s: State, id: nat, a: Ask, src: SourceKind, report: Report)
    returns (s': State, report': Report)
    requires Stands(s, id, a.(targets := [src] + a.targets), AtTarget, report)
    ensures Comes(conn, s, id, s') && s'.running == s.running && Stands(s', id, a, AtTarget, report')
    ensures View(s') == Served(conn, View(s), src, src in s.running, a)
    ensures CountsTarget(conn, s, report, s', report', src, a)
  {
    if src in s.running {
      s' := BusyRuns(conn, s, id, a, src, report);
      report' := s'.calls[id].report;
    } else {
      s', report' := FreeRuns(conn, s, id, a, src, report);
      var s1 := s';
      s' := UnlockRuns(conn, s1, id, a, src, report');
      Joined(conn, s, id, s1, s');
      assert s1.running - {src} == s.running;
      report' := s'.calls[id].report;
    }
  }

  // ---- all targets ------------------------------------------------------------------------------

  /** All targets, one after the other. */
  ghost function ServedAll(conn: Registry, l: Ledger, busy: set<SourceKind>, targets: seq<SourceKind>, a: Ask): Ledger
    decreases |targets|
  {
    if targets == [] then l
    else ServedAll(conn, Served(conn, l, targets[0], targets[0] in busy, a), busy, targets[1..], a)
  }

  ghost function ItemsOfAll(conn: Registry, l: Ledger, busy: set<SourceKind>, targets: seq<SourceKind>, a: Ask): nat
    decreases |targets|
  {
    if targets == [] then 0
    else
      var l' := Served(conn, l, targets[0], targets[0] in busy, a);
      ItemsOf(conn, l, targets[0], targets[0] in busy, a) + ItemsOfAll(conn, l', busy, targets[1..], a)
  }

  ghost function LeftOfAll(conn: Registry, l: Ledger, busy: set<SourceKind>, targets: seq<SourceKind>, a: Ask): nat
    decreases |targets|
  {
    if targets == [] then 0
    else
      var l' := Served(conn, l, targets[0], targets[0] in busy, a);
      LeftOf(conn, l', targets[0], targets[0] in busy, a) + LeftOfAll(conn, l', busy, targets[1..], a)
  }

  lemma {:induction false} TargetsRun(conn: Registry, s: State, id: nat, a: Ask, targets: seq<SourceKind>,
                                      report: Report)
    returns (s': State, report': Report)
    requires Stands(s, id, a.(targets := targets), AtTarget, report)
    ensures Comes(conn, s, id, s') && s'.running == s.running
    ensures Stands(s', id, a.(targets := []), AtTarget, report')
    ensures View(s') == ServedAll(conn, View(s), s.running, targets, a)
    ensures report'.collected == report.collected + |s'.delivered| - |s.delivered|
    ensures report'.collected + report'.skipped
         == report.collected + report.skipped + ItemsOfAll(conn, View(s), s.running, targets, a)
    ensures report'.errors == report.errors
    ensures report'.remaining == report.remaining + LeftOfAll(conn, View(s), s.running, targets, a)
    decreases |targets|
  {
    if targets == [] {
      ComesHere(conn, s, id);
      s', report' := s, report;
    } else {
      var rest := a.(targets := targets[1..]);
      assert targets == [targets[0]] + targets[1..];
      var s1, report1 := TargetRuns(conn, s, id, rest, targets[0], report);
      SameAsk(conn, View(s), targets[0], targets[0] in s.running, rest, a);
      s', report' := TargetsRun(conn, s1, id, a, targets[1..], report1);
      Joined(conn, s, id, s1, s');
    }
  }

  /** Which targets come later makes no difference to one. */
  lemma SameAsk(conn: Registry, l: Ledger, src: SourceKind, busy: bool, a: Ask, b: Ask)
    requires a.drain == b.drain && a.maxPasses == b.maxPasses
    ensures Served(conn, l, src, busy, a) == Served(conn, l, src, busy, b)
    ensures ItemsOf(conn, l, src, busy, a) == ItemsOf(conn, l, src, busy, b)
    ensures forall l' :: LeftOf(conn, l', src, busy, a) == LeftOf(conn, l', src, busy, b)
  {}

  /** `trigger` and `trigger_all` on their own, when nothing fails: every free target gets its
      pass or its drain, busy ones are left alone, all locks are given back; what is collected
      is what is delivered, every item is counted, and what is left is asked for. */
  lemma LoneTrigger(conn: Registry, s: State, id: nat, a: Ask) returns (s': State)
    requires id !in s.calls
    ensures var s0 := Do(conn.Keys, s, Begin(id, a.targets, a.drain, a.maxPasses)); Comes(conn, s0, id, s')
    ensures id in s'.calls && s'.calls[id].targets == [] && s'.calls[id].pc == AtTarget && s'.running == s.running
    ensures View(s') == ServedAll(conn, View(s), s.running, a.targets, a)
    ensures var r := s'.calls[id].report;
      && r.errors == 0 && r.collected == |s'.delivered| - |s.delivered|
      && r.collected + r.skipped == ItemsOfAll(conn, View(s), s.running, a.targets, a)
      && r.remaining == LeftOfAll(conn, View(s), s.running, a.targets, a)
  {
    var s0 := Do(conn.Keys, s, Begin(id, a.targets, a.drain, a.maxPasses));
    var report;
    s', report := TargetsRun(conn, s0, id, a, a.targets, Report(0, 0, 0, 0));
  }
}
