/** `IngestionService` as one caller sees it: the pass, the drain loop, `trigger` and
    `trigger_all`, on the fields they update, with an outage schedule deciding which store,
    connector and sink calls fail, and how far a failing one has taken effect. */
module IngestionService {
  import opened Ordering
  import opened Wrappers
  import opened Sources
  import opened IngestionProtocol
  import opened IngestionLedger

  /** How a call on the outside ends. A failed write or delivery may still have had an
      effect: `effect` says how much of it. */
  datatype Fate = Fine | Fails(effect: nat)

  datatype Outcome = Advanced(moved: bool) | Failed

  class Service {
    const registry: map<SourceKind, Connector>
    /** How the n-th external call ends. */
    const fate: nat -> Fate
    var running: set<SourceKind>
    var cursors: map<SourceKind, Cursor>
    var seen: set<Key>
    var delivered: seq<Key>
    var clock: nat

    constructor (registry: map<SourceKind, Connector>, fate: nat -> Fate)
      ensures this.registry == registry && this.fate == fate
      ensures running == {} && View() == Ledger(map[], {}, [])
    {
      this.registry, this.fate := registry, fate;
      running, cursors, seen, delivered, clock := {}, map[], {}, [], 0;
    }

    ghost function View(): Ledger
      reads this
    {
      Ledger(cursors, seen, delivered)
    }

    ghost predicate NoOutage() {
      forall n :: fate(n).Fine?
    }

    /** One await on the outside world. */
    method Attempt() returns (f: Fate)
      modifies this`clock
      ensures clock == old(clock) + 1 && f == fate(old(clock))
    {
      f := fate(clock);
      clock := clock + 1;
    }

    method TryLock(src: SourceKind) returns (locked: bool)
      modifies this`running
      ensures locked == (src !in old(running)) && running == old(running) + {src}
    {
      locked := src !in running;
      running := running + {src};
    }

    method Unlock(src: SourceKind)
      modifies this`running
      ensures running == old(running) - {src}
    {
      running := running - {src};
    }

    method MarkSeen(src: SourceKind, item: string) returns (ok: bool)
      modifies this`seen, this`clock
      ensures seen == old(seen) + {(src, item)} || (!ok && seen == old(seen))
      ensures NoOutage() ==> ok
    {
      var f := Attempt();
      ok := f.Fine?;
      if ok || f.effect > 0 { seen := seen + {(src, item)}; }
    }

    /** The idempotency gate over one synced batch: skip what was seen, mark the rest. `n` items
        are marked in the end. */
    method PickNew(src: SourceKind, items: seq<string>, report: Report)
      returns (ok: bool, picked: seq<string>, report': Report, ghost n: nat)
      modifies this`seen, this`clock
      ensures n <= |items| && seen == old(seen) + KeySet(src, items[..n])
      ensures ok ==> n == |items| && picked == Unseen(src, items, old(seen))
      ensures ok ==> report'.collected == report.collected + |picked|
                     && report'.skipped == report.skipped + |items| - |picked|
      ensures report'.errors == report.errors && report'.remaining == report.remaining
      ensures 0 <= Uncounted(report, old(seen), report', seen) <= if ok then 0 else 1
      ensures NoOutage() ==> ok
    {
      ok, picked, report', n := false, [], report, 0;
      assert items[..0] == [] && items[..|items|] == items;
      for i := 0 to |items|
        invariant n == i && Gated(src, items, i, old(seen), seen, picked, report, report')
        invariant Uncounted(report, old(seen), report', seen) == 0
      {
        GatedMore(src, items, i, old(seen), seen, picked, report, report');
        var f := Attempt();
        if !f.Fine? { return; }
        if (src, items[i]) in seen {
          report' := report'.(skipped := report'.skipped + 1);
        } else {
          ok := MarkSeen(src, items[i]);
          if !ok {
            if (src, items[i]) in seen { n := i + 1; }
            return;
          }
          ok := false;
          report' := report'.(collected := report'.collected + 1);
          picked := picked + [items[i]];
        }
        n := i + 1;
      }
      ok := true;
    }

    /** Hand the new items to the sink; a sink that fails may have taken some. */
    method HandOver(src: SourceKind, picked: seq<string>) returns (ok: bool, ghost k: nat)
      modifies this`delivered, this`clock
      ensures k <= |picked| && delivered == old(delivered) + Keys(src, picked[..k]) && (ok ==> k == |picked|)
      ensures NoOutage() ==> ok
    {
      ok, k := true, |picked|;
      assert picked[..|picked|] == picked && picked[..0] == [] && Keys(src, []) == [];
      if picked != [] {
        var f := Attempt();
        if !f.Fine? {
          ok, k := false, Min(f.effect, |picked|);
          delivered := delivered + Keys(src, picked[..Min(f.effect, |picked|)]);
          return;
        }
      }
      delivered := delivered + Keys(src, picked);
    }

    /** From a synced batch to the saved cursor. */
    method TakeBatch(src: SourceKind, items: seq<string>, next: Cursor, report: Report)
      returns (ok: bool, report': Report, ghost n: nat, ghost k: nat)
      requires Safe(View())
      modifies this`cursors, this`seen, this`delivered, this`clock
      ensures Safe(View()) && old(seen) <= seen
      ensures report'.errors == report.errors && report'.remaining == report.remaining
      ensures ok ==>
        && View() == PassLedger(old(View()), src, items, next)
        && report'.collected == report.collected + |delivered| - |old(delivered)|
        && report'.collected + report'.skipped == report.collected + report.skipped + |items|
      ensures !ok ==> FailedAt(old(View()), View(), src, items, next, n, k)
      ensures 0 <= Uncounted(report, old(seen), report', seen) <= if ok then 0 else 1
      ensures NoOutage() ==> ok
    {
      ghost var l := View();
      var picked;
      ok, picked, report', n := PickNew(src, items, report);
      if !ok {
        PartlyMarked(l, View(), src, items, next, n);
        return ok, report', n, 0;
      }
      ok, k := HandOver(src, picked);
      assert items[..n] == items;
      FailedPassIsSafe(l, View(), src, items, next, |items|, k);
      if !ok { return; }
      var f := Attempt();
      ok := f.Fine?;
      if ok || f.effect > 0 { cursors := cursors[src := next]; }
      AllDelivered(l, View(), src, items, next, picked);
    }

    /** One pass. Without a failure it is `OnePass`; a failure leaves what `FailedPass` says;
        the ledger stays safe either way. */
    method RunOneInner(src: SourceKind, report: Report) returns (r: Outcome, report': Report)
      requires Safe(View())
      modifies this`cursors, this`seen, this`delivered, this`clock
      ensures Safe(View()) && old(seen) <= seen
      ensures report'.errors == report.errors && report'.remaining == report.remaining
      ensures src !in registry ==> View() == old(View()) && r == Advanced(false) && report' == report
      ensures src in registry && r.Advanced? ==>
                && View() == OnePass(old(View()), src, registry[src])
                && r == Advanced(Moves(old(View()), src, registry[src]))
                && report'.collected == report.collected + |delivered| - |old(delivered)|
                && report'.collected + report'.skipped
                   == report.collected + report.skipped + |registry[src].sync(Lookup(old(cursors), src)).0|
      ensures r.Failed? ==> src in registry && FailedPass(old(View()), View(), src, registry[src])
      ensures 0 <= Uncounted(report, old(seen), report', seen) <= if r.Failed? then 1 else 0
      ensures NoOutage() ==> r.Advanced?
    {
      r, report' := Failed, report;
      if src !in registry { return Advanced(false), report'; }
      ghost var start := registry[src].sync(Lookup(cursors, src));
      NothingYet(View(), src, start.0, start.1);
      var f := Attempt();
      if !f.Fine? { return; }
      var cursor := Lookup(cursors, src);
      var before := cursor;
      f := Attempt();
      if !f.Fine? { return; }
      var (items, next) := registry[src].sync(cursor);
      var ok;
      ghost var n: nat, k: nat;
      ok, report', n, k := TakeBatch(src, items, next, report);
      if ok { r := Advanced(before != Some(next)); }
    }

    /** Pass after pass. One failure ends the drain and is reported as one error. */
    method RunUntilDone(src: SourceKind, report: Report, maxPasses: nat) returns (report': Report)
      requires Safe(View())
      modifies this`cursors, this`seen, this`delivered, this`clock
      ensures Safe(View()) && old(seen) <= seen
      ensures Adds(Request(registry, Some(maxPasses), {}), old(View()), View(), src, report, report')
      ensures 0 <= Uncounted(report, old(seen), report', seen) <= report'.errors - report.errors
      ensures NoOutage() ==> report'.errors == report.errors
    {
      report' := report;
      for pass := 0 to maxPasses
        invariant Safe(View()) && old(seen) <= seen
        invariant src !in registry ==> View() == old(View()) && report' == report
        invariant src in registry ==>
          DrainedSoFar(old(View()), View(), src, registry[src], pass, maxPasses, report, report')
        invariant report'.collected == report.collected + |delivered| - |old(delivered)|
        invariant Uncounted(report, old(seen), report', seen) == 0
        invariant report'.errors == report.errors && report'.remaining == report.remaining
      {
        ghost var l, was := View(), report';
        var r;
        r, report' := RunOneInner(src, report');
        if src in registry && r.Advanced? {
          DrainedMore(old(View()), l, View(), src, registry[src], pass, maxPasses, report, was, report');
        }
        match r
        case Advanced(true) =>
        case Advanced(false) => return;
        case Failed =>
          report' := report'.(errors := report'.errors + 1);
          return;
      }
    }

    /** Best effort: a source whose cursor cannot be read is asked from scratch, and one that
        cannot answer contributes nothing. */
    method SourceRemaining(src: SourceKind) returns (n: nat)
      modifies this`clock
      ensures src !in registry ==> n == 0
      ensures src in registry ==>
        n == if !fate(old(clock) + 1).Fine? then 0
             else registry[src].remaining(if fate(old(clock)).Fine? then Lookup(cursors, src) else None)
    {
      if src !in registry { return 0; }
      var f := Attempt();
      var cursor := if f.Fine? then Lookup(cursors, src) else None;
      f := Attempt();
      n := if f.Fine? then registry[src].remaining(cursor) else 0;
    }

    /** `run_one`: a busy source counts as skipped, a failing one as an error; the lock is
        free again afterwards. */
    method RunOne(src: SourceKind, report: Report) returns (report': Report)
      requires Safe(View())
      modifies this
      ensures Safe(View()) && running == old(running) && old(seen) <= seen
      ensures src in old(running) ==> report' == report.(skipped := report.skipped + 1)
      ensures Adds(Request(registry, None, running), old(View()), View(), src, report, report')
      ensures 0 <= Uncounted(report, old(seen), report', seen) <= report'.errors - report.errors
      ensures NoOutage() ==> report'.errors == report.errors
    {
      report' := report;
      var locked := TryLock(src);
      if !locked {
        report' := report'.(skipped := report'.skipped + 1);
        return;
      }
      var r;
      r, report' := RunOneInner(src, report');
      if r.Failed? { report' := report'.(errors := report'.errors + 1); }
      Unlock(src);
    }

    /** The requested source, or all registered ones in any order. */
    method Targets(source: Option<SourceKind>) returns (targets: seq<SourceKind>)
      ensures NoDup(targets)
      ensures forall src :: src in targets <==> if source.Some? then src == source.value else src in registry
    {
      if source.Some? { return [source.value]; }
      targets := [];
      var todo := registry.Keys;
      while todo != {}
        invariant todo <= registry.Keys && NoDup(targets)
        invariant forall src :: src in targets <==> src in registry && src !in todo
        decreases todo
      {
        var src :| src in todo;
        targets, todo := targets + [src], todo - {src};
      }
    }

    /** How far a call over several targets has come. */
    ghost predicate HandledSoFar(q: Request, before: Ledger, targets: seq<SourceKind>, i: nat, report: Report,
                                 failed: set<SourceKind>, answers: seq<nat>)
      reads this
    {
      && NoDup(targets) && i <= |targets| && Safe(View()) && running == q.busy && q.registry == registry
      && Handled(q, before, View(), targets[..i], failed) && Tallied(q, report, failed, before, View(), targets[..i])
      && Answered(q, View(), targets[..i], answers, NoOutage()) && report.remaining == Sum(answers)
      && (NoOutage() ==> failed == {})
      && 0 <= Uncounted(Report(0, 0, 0, 0), before.seen, report, seen) <= report.errors
    }

    /** `trigger` for one of the targets: a pass, then what is left. */
    method TriggerOne(ghost q: Request, ghost before: Ledger, targets: seq<SourceKind>, i: nat, report: Report,
                      ghost failed: set<SourceKind>, ghost answers: seq<nat>)
      returns (report': Report, ghost failed': set<SourceKind>, ghost answers': seq<nat>)
      requires q.passes.None? && i < |targets| && HandledSoFar(q, before, targets, i, report, failed, answers)
      modifies this
      ensures HandledSoFar(q, before, targets, i + 1, report', failed', answers') && old(seen) <= seen
    {
      ghost var l := View();
      report' := RunOne(targets[i], report);
      assert Request(registry, None, running) == q;
      failed' := Blamed(failed, targets[i], report'.errors > report.errors);
      TargetDone(q, before, l, View(), targets, i, failed, report, report', answers, NoOutage());
      var n := SourceRemaining(targets[i]);
      AnsweredMore(q, View(), targets, i, answers, n, NoOutage());
      report', answers' := report'.(remaining := report'.remaining + n), answers + [n];
    }

    /** `trigger`: one pass over every requested source, and then what each has left. A source
        that fails is counted once and stops none of the others, a busy one is left alone. */
    method Trigger(source: Option<SourceKind>)
      returns (report: Report, ghost targets: seq<SourceKind>, ghost failed: set<SourceKind>, ghost answers: seq<nat>)
      requires Safe(View())
      modifies this
      ensures Safe(View()) && running == old(running) && old(seen) <= seen
      ensures forall src :: src in targets <==> if source.Some? then src == source.value else src in registry
      ensures var q := Request(registry, None, running);
        && Handled(q, old(View()), View(), targets, failed) && Tallied(q, report, failed, old(View()), View(), targets)
        && Answered(q, View(), targets, answers, NoOutage()) && report.remaining == Sum(answers)
      ensures NoOutage() ==> failed == {}
      ensures 0 <= |seen| - |old(seen)| - report.collected <= report.errors
    {
      ghost var q := Request(registry, None, running);
      report, failed, answers := Report(0, 0, 0, 0), {}, [];
      var order := Targets(source);
      targets := order;
      NothingHandled(q, View());
      assert targets[..0] == [];
      for i := 0 to |order|
        invariant HandledSoFar(q, old(View()), targets, i, report, failed, answers) && old(seen) <= seen
      {
        report, failed, answers := TriggerOne(q, old(View()), order, i, report, failed, answers);
      }
      assert targets[..|order|] == targets;
    }

    /** The guarded drain of one source; the lock is free again afterwards. */
    method DrainFree(src: SourceKind, report: Report, maxPasses: nat) returns (report': Report, locked: bool)
      requires Safe(View())
      modifies this
      ensures Safe(View()) && running == old(running) && old(seen) <= seen && locked == (src !in old(running))
      ensures !locked ==> report' == report.(skipped := report.skipped + 1)
      ensures Adds(Request(registry, Some(maxPasses), running), old(View()), View(), src, report, report')
      ensures 0 <= Uncounted(report, old(seen), report', seen) <= report'.errors - report.errors
      ensures NoOutage() ==> report'.errors == report.errors
    {
      report' := report;
      locked := TryLock(src);
      if !locked {
        report' := report'.(skipped := report'.skipped + 1);
        return;
      }
      report' := RunUntilDone(src, report', maxPasses);
      Unlock(src);
    }

    /** `trigger_all` for one of the targets: a drain unless it is busy, then what is left. */
    method DrainOne(ghost q: Request, ghost before: Ledger, targets: seq<SourceKind>, i: nat, maxPasses: nat,
                    report: Report, ghost failed: set<SourceKind>, ghost answers: seq<nat>)
      returns (report': Report, ghost failed': set<SourceKind>, ghost answers': seq<nat>)
      requires q.passes == Some(maxPasses) && i < |targets|
        && HandledSoFar(q, before, targets, i, report, failed, answers)
      modifies this
      ensures HandledSoFar(q, before, targets, i + 1, report', failed', answers') && old(seen) <= seen
    {
      ghost var l := View();
      var locked;
      report', locked := DrainFree(targets[i], report, maxPasses);
      assert Request(registry, Some(maxPasses), running) == q;
      failed' := Blamed(failed, targets[i], report'.errors > report.errors);
      TargetDone(q, before, l, View(), targets, i, failed, report, report', answers, NoOutage());
      var n := 0;
      if locked { n := SourceRemaining(targets[i]); }
      AnsweredMore(q, View(), targets, i, answers, n, NoOutage());
      report', answers' := report'.(remaining := report'.remaining + n), answers + [n];
    }

    /** `trigger_all`: a drain of every requested source. A busy source is skipped untouched;
        the locks are free again afterwards whatever failed; the rest of a source is asked for
        once, from its final cursor. */
    method TriggerAll(source: Option<SourceKind>, maxPasses: nat)
      returns (report: Report, ghost targets: seq<SourceKind>, ghost failed: set<SourceKind>, ghost answers: seq<nat>)
      requires Safe(View())
      modifies this
      ensures Safe(View()) && running == old(running) && old(seen) <= seen
      ensures forall src :: src in targets <==> if source.Some? then src == source.value else src in registry
      ensures var q := Request(registry, Some(maxPasses), running);
        && Handled(q, old(View()), View(), targets, failed) && Tallied(q, report, failed, old(View()), View(), targets)
        && Answered(q, View(), targets, answers, NoOutage()) && report.remaining == Sum(answers)
      ensures NoOutage() ==> failed == {}
      ensures 0 <= |seen| - |old(seen)| - report.collected <= report.errors
    {
      ghost var q := Request(registry, Some(maxPasses), running);
      report, failed, answers := Report(0, 0, 0, 0), {}, [];
      var order := Targets(source);
      targets := order;
      NothingHandled(q, View());
      assert targets[..0] == [];
      for i := 0 to |order|
        invariant HandledSoFar(q, old(View()), targets, i, report, failed, answers) && old(seen) <= seen
      {
        report, failed, answers := DrainOne(q, old(View()), order, i, maxPasses, report, failed, answers);
      }
      assert targets[..|order|] == targets;
    }
  }
}
