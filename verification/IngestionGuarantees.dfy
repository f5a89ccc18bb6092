/** What the ingestion protocol promises over every run. */
module IngestionGuarantees {
  import opened Ordering
  import opened Wrappers
  import opened Sources
  import opened IngestionProtocol

  /** However calls interleave and whatever fails, the sink never receives the same
      (source, external id) twice, nor anything an earlier run had already seen. */
  lemma DeliveredAtMostOnce(registry: set<SourceKind>, s: State, actions: seq<Action>)
    requires Initial(s)
    ensures var t := Run(registry, s, actions);
      NoDup(t.delivered) && forall k | k in t.delivered :: k in t.seen && k !in s.seen
  {
    RunKeeps(registry, s, actions);
    RunKeepsOld(registry, s, actions);
  }

  lemma {:induction false} RunKeepsOld(registry: set<SourceKind>, s: State, actions: seq<Action>)
    ensures Run(registry, s, actions).prior == s.prior
    decreases |actions|
  {
    if actions != [] { RunKeepsOld(registry, Do(registry, s, actions[0]), actions[1..]); }
  }

  /** At most one call per source is between its lock and its unlock, and a source is
      marked running exactly while such a call exists. */
  lemma SingleFlight(registry: set<SourceKind>, s: State, actions: seq<Action>)
    requires Initial(s)
    ensures var t := Run(registry, s, actions);
      && (forall a, b | a in t.calls && b in t.calls && Holds(t.calls[a].pc).Some?
            && Holds(t.calls[a].pc) == Holds(t.calls[b].pc) :: a == b)
      && (forall src :: src in t.running <==> exists a :: a in t.calls && Holds(t.calls[a].pc) == Some(src))
  {
    RunKeeps(registry, s, actions);
    var t := Run(registry, s, actions);
    assert forall src | src in t.running :: HasRunner(t, src);
  }

  /** Conservation: every key marked during the run is delivered, or lost to an error, or
      in the hands of the one call that holds its source, and never two of these. */
  lemma SeenIsAccountedFor(registry: set<SourceKind>, s: State, actions: seq<Action>, k: Key)
    requires Initial(s)
    ensures var t := Run(registry, s, actions);
      && (k in t.seen - s.seen <==>
            k in t.delivered || k in t.lost || exists id :: id in t.calls && k in InFlight(t.calls[id]))
      && !(k in t.delivered && k in t.lost)
      && (forall id | id in t.calls && k in InFlight(t.calls[id]) ::
            k !in t.delivered && k !in t.lost && Holds(t.calls[id].pc) == Some(k.0))
  {
    RunKeeps(registry, s, actions);
    RunKeepsOld(registry, s, actions);
    var t := Run(registry, s, actions);
    forall id | id in t.calls && k in InFlight(t.calls[id]) ensures k in t.seen && k !in t.prior {
      assert CallOk(t, t.calls[id]);
    }
    assert k in t.seen && k !in t.prior && k !in t.delivered && k !in t.lost ==> InSomeHands(t, k);
  }

  /** The price of marking before delivering: once an error has lost a key, no later
      call, however it interleaves, ever delivers it. */
  lemma LostForGood(registry: set<SourceKind>, s: State, actions: seq<Action>, later: seq<Action>, k: Key)
    requires Initial(s) && k in Run(registry, s, actions).lost
    ensures var t := Run(registry, Run(registry, s, actions), later);
      k in t.lost && k in t.seen && k !in t.delivered
  {
    RunKeeps(registry, s, actions);
    var m := Run(registry, s, actions);
    RunKeeps(registry, m, later);
    LostGrows(registry, m, later);
  }

  lemma {:induction false} LostGrows(registry: set<SourceKind>, s: State, actions: seq<Action>)
    ensures s.lost <= Run(registry, s, actions).lost
    decreases |actions|
  {
    if actions != [] { LostGrows(registry, Do(registry, s, actions[0]), actions[1..]); }
  }

  const Refusal: seq<Action> := [
    Begin(0, [Session], false, 1), Resume(0, Done), Resume(0, Done), Resume(0, Batch(["a"], "c")),
    Resume(0, Done), Resume(0, Done), Resume(0, Fail(0))]

  /** It does happen: one call, one item, one refusal by the sink. */
  lemma SinkRefusalLosesItem(s: State)
    requires Initial(s) && (Session, "a") !in s.seen
    ensures (Session, "a") in Run({Session}, s, Refusal).lost
  {
    var reg := {Session};
    var s1 := Do(reg, s, Refusal[0]);
    var s2 := Do(reg, s1, Refusal[1]);
    var s3 := Do(reg, s2, Refusal[2]);
    var s4 := Do(reg, s3, Refusal[3]);
    var zero := Report(0, 0, 0, 0);
    assert s1.calls[0] == Call([Session], false, 1, AtTarget, zero, {});
    assert s2.calls[0] == Call([], false, 1, AtCursor(Session, 0), zero, {});
    assert s3.calls[0] == Call([], false, 1, AtSync(Session, 0, Lookup(s.cursors, Session)), zero, {});
    assert s4.calls[0] == Call([], false, 1, AtCheck(Session, 0, Lookup(s.cursors, Session), "c", ["a"], []), zero, {});
    RefusedAfterMark(s4, s4.calls[0].pc.before);
    var rest := [Resume(0, Done), Resume(0, Done), Resume(0, Fail(0))];
    RunUnfold(reg, s3, Refusal[3], rest);
    RunUnfold(reg, s2, Refusal[2], [Refusal[3]] + rest);
    RunUnfold(reg, s1, Refusal[1], [Refusal[2]] + ([Refusal[3]] + rest));
    RunUnfold(reg, s, Refusal[0], [Refusal[1]] + ([Refusal[2]] + ([Refusal[3]] + rest)));
    assert Refusal == [Refusal[0]] + ([Refusal[1]] + ([Refusal[2]] + ([Refusal[3]] + rest)));
  }

  lemma RefusedAfterMark(s: State, before: Option<Cursor>)
    requires 0 in s.calls && (Session, "a") !in s.seen
    requires s.calls[0] == Call([], false, 1, AtCheck(Session, 0, before, "c", ["a"], []), Report(0, 0, 0, 0), {})
    ensures (Session, "a") in Run({Session}, s, [Resume(0, Done), Resume(0, Done), Resume(0, Fail(0))]).lost
  {
    var reg := {Session};
    var s1 := Do(reg, s, Resume(0, Done));
    assert s1.calls[0].pc == AtMark(Session, 0, before, "c", ["a"], []);
    var s2 := Do(reg, s1, Resume(0, Done));
    assert s2.calls[0].pc == AtAccept(Session, 0, before, "c", ["a"]);
    var s3 := Do(reg, s2, Resume(0, Fail(0)));
    assert (Session, "a") in KeySet(Session, ["a"][0..]);
    RunUnfold(reg, s2, Resume(0, Fail(0)), []);
    RunUnfold(reg, s1, Resume(0, Done), [Resume(0, Fail(0))]);
    RunUnfold(reg, s, Resume(0, Done), [Resume(0, Done)] + [Resume(0, Fail(0))]);
    assert [Resume(0, Done)] + ([Resume(0, Done)] + [Resume(0, Fail(0))])
        == [Resume(0, Done), Resume(0, Done), Resume(0, Fail(0))];
    assert [Resume(0, Fail(0))] + [] == [Resume(0, Fail(0))];
  }

  lemma RunUnfold(registry: set<SourceKind>, s: State, a: Action, rest: seq<Action>)
    ensures Run(registry, s, [a] + rest) == Run(registry, Do(registry, s, a), rest)
  {
    assert ([a] + rest)[1..] == rest;
  }

  /** `collected` counts distinct items, and no item is counted by two calls. */
  lemma CollectedCountsOnce(registry: set<SourceKind>, s: State, actions: seq<Action>, a: nat, b: nat)
    requires Initial(s)
    ensures var t := Run(registry, s, actions);
      a in t.calls && b in t.calls ==>
        && |t.calls[a].marked| == t.calls[a].report.collected
        && t.calls[a].marked <= t.seen - s.seen
        && (a != b ==> t.calls[a].marked !! t.calls[b].marked)
  {
    RunKeeps(registry, s, actions);
    RunKeepsOld(registry, s, actions);
    var t := Run(registry, s, actions);
    assert a in t.calls ==> CallOk(t, t.calls[a]);
  }

  /** A failure with which a waiting call gives up keys it holds: an error while looking up the
      next item or marking it, with earlier items of the batch in hand, a mark that took
      effect although it failed, or a hand-over the sink took only part of. */
  predicate LosesAt(pc: Pc, r: Response) {
    && r.Fail?
    && (|| (pc.AtCheck? && pc.picked != [])
        || (pc.AtMark? && (pc.picked != [] || r.effect > 0))
        || (pc.AtAccept? && r.effect < |pc.picked|))
  }

  predicate Loses(s: State, a: Action) {
    a.Resume? && a.id in s.calls && LosesAt(s.calls[a.id].pc, a.response)
  }

  ghost predicate NeverLoses(registry: set<SourceKind>, s: State, actions: seq<Action>)
    decreases |actions|
  {
    actions != [] ==> !Loses(s, actions[0]) && NeverLoses(registry, Do(registry, s, actions[0]), actions[1..])
  }

  lemma StepLosesIff(registry: set<SourceKind>, s: State, a: Action)
    requires Inv(s)
    ensures Do(registry, s, a).lost == s.lost <==> !Loses(s, a)
  {
    if a.Resume? && a.id in s.calls {
      var c := s.calls[a.id];
      assert CallOk(s, c);
      match c.pc
      case AtCheck(src, _, _, _, _, picked) => HeldIsNotLost(s, c, src, picked, 0);
      case AtMark(src, _, _, _, todo, picked) => HeldIsNotLost(s, c, src, picked, 0);
      case AtAccept(src, _, _, _, picked) =>
        HeldIsNotLost(s, c, src, picked, Min(if a.response.Fail? then a.response.effect else 0, |picked|));
      case _ =>
    }
  }

  /** Losing any of the items in hand is a new loss. */
  lemma HeldIsNotLost(s: State, c: Call, src: SourceKind, picked: seq<string>, k: nat)
    requires CallOk(s, c) && InFlight(c) == KeySet(src, picked) && k <= |picked|
    ensures s.lost + KeySet(src, picked[k..]) == s.lost <==> k == |picked|
    ensures k == 0 ==> KeySet(src, picked[k..]) == KeySet(src, picked)
  {
    if k < |picked| {
      assert picked[k] in picked[k..] && picked[k] in picked;
      assert (src, picked[k]) in KeySet(src, picked[k..]) && (src, picked[k]) in InFlight(c);
    } else {
      assert picked[k..] == [];
    }
    assert k == 0 ==> picked[k..] == picked;
  }

  /** When nothing is lost: exactly in the runs without one of the three kinds of failure
      above. All other failures, of cursor reads, of syncs, of cursor writes and of everything
      before the first item is marked, are harmless. */
  lemma {:induction false} NothingLostIff(registry: set<SourceKind>, s: State, actions: seq<Action>)
    requires Inv(s)
    ensures Run(registry, s, actions).lost == s.lost <==> NeverLoses(registry, s, actions)
    decreases |actions|
  {
    if actions != [] {
      var a := actions[0];
      var s1 := Do(registry, s, a);
      assert [a][1..] == [] && Run(registry, s, [a]) == Run(registry, s1, []);
      RunKeeps(registry, s, [a]);
      StepLosesIff(registry, s, a);
      LostGrows(registry, s, [a]);
      LostGrows(registry, s1, actions[1..]);
      NothingLostIff(registry, s1, actions[1..]);
    }
  }

  lemma {:induction false} InitialIsInv(s: State)
    requires Initial(s)
    ensures Inv(s)
  {}

  /** From a fresh start, exactly once, precisely: if no failure of those kinds happens, for a source nobody is
      running the keys marked during the run are the keys delivered, each once; and if one
      does, some key is marked that no continuation ever delivers. */
  lemma ExactlyOnceIffNeverLoses(registry: set<SourceKind>, s: State, actions: seq<Action>)
    requires Initial(s)
    ensures var t := Run(registry, s, actions);
      && NoDup(t.delivered)
      && (t.lost == {} <==> NeverLoses(registry, s, actions))
      && (NeverLoses(registry, s, actions) ==>
        forall k: Key | k.0 !in t.running :: k in t.seen - s.seen <==> k in t.delivered)
      && (!NeverLoses(registry, s, actions) ==>
            exists k: Key :: k in t.seen - s.seen && forall later :: k !in Run(registry, t, later).delivered)
  {
    InitialIsInv(s);
    var t := Run(registry, s, actions);
    RunKeeps(registry, s, actions);
    RunKeepsOld(registry, s, actions);
    NothingLostIff(registry, s, actions);
    if NeverLoses(registry, s, actions) {
      forall k: Key | k.0 !in t.running ensures k in t.seen - s.seen <==> k in t.delivered {
        SeenIsAccountedFor(registry, s, actions, k);
      }
    } else {
      var k :| k in t.lost;
      forall later ensures k !in Run(registry, t, later).delivered {
        LostForGood(registry, s, actions, later, k);
      }
    }
  }

  /** Whether a response makes a waiting call take its `Err` exit. */
  predicate Fails(pc: Pc, r: Response) {
    if pc.AtSync? then !r.Batch?
    else (pc.AtCursor? || pc.AtCheck? || pc.AtMark? || pc.AtAccept? || pc.AtSave?) && r.Fail?
  }

  ghost predicate FailureFree(registry: set<SourceKind>, s: State, actions: seq<Action>)
    decreases |actions|
  {
    actions != [] ==>
      && (actions[0].Resume? && actions[0].id in s.calls ==> !Fails(s.calls[actions[0].id].pc, actions[0].response))
      && FailureFree(registry, Do(registry, s, actions[0]), actions[1..])
  }

  /** In particular nothing is lost without failures. */
  lemma {:induction false} FailureFreeLosesNothing(registry: set<SourceKind>, s: State, actions: seq<Action>)
    requires FailureFree(registry, s, actions)
    ensures NeverLoses(registry, s, actions) && Run(registry, s, actions).lost == s.lost
    decreases |actions|
  {
    if actions != [] {
      FailureFreeLosesNothing(registry, Do(registry, s, actions[0]), actions[1..]);
    }
  }

  /** How often a call takes its `Err` exit. */
  ghost function FailuresOf(registry: set<SourceKind>, s: State, actions: seq<Action>, id: nat): nat
    decreases |actions|
  {
    if actions == [] then 0
    else
      var a := actions[0];
      (if a.Resume? && a.id == id && id in s.calls && Fails(s.calls[id].pc, a.response) then 1 else 0)
        + FailuresOf(registry, Do(registry, s, a), actions[1..], id)
  }

  function ErrorsOf(s: State, id: nat): nat {
    if id in s.calls then s.calls[id].report.errors else 0
  }

  /** One call may have moved on, the others are where they were. */
  ghost predicate OnlyMoved(s: State, s': State, id: nat) {
    id in s'.calls && s'.calls == s.calls[id := s'.calls[id]] && Ready(s'.calls[id].pc)
  }

  lemma MarkIsLocal(s: State, id: nat, c: Call, r: Response)
    requires c.pc.AtMark? && c.pc.todo != []
    ensures OnlyMoved(s, WakeAtMark(s, id, c, r), id)
  {}

  lemma AcceptIsLocal(s: State, id: nat, c: Call, r: Response)
    requires c.pc.AtAccept?
    ensures OnlyMoved(s, WakeAtAccept(s, id, c, r), id)
  {}

  lemma TargetIsLocal(registry: set<SourceKind>, s: State, id: nat, c: Call)
    requires c.targets != []
    ensures OnlyMoved(s, WakeAtTarget(registry, s, id, c), id)
  {}

  /** A wake touches no other call. */
  lemma WakeIsLocal(registry: set<SourceKind>, s: State, id: nat, r: Response)
    requires id in s.calls && Ready(s.calls[id].pc)
    ensures OnlyMoved(s, Wake(registry, s, id, s.calls[id], r), id)
  {
    var c := s.calls[id];
    if c.pc.AtMark? {
      MarkIsLocal(s, id, c, r);
    } else if c.pc.AtAccept? {
      AcceptIsLocal(s, id, c, r);
    } else if c.pc.AtTarget? && c.targets != [] {
      TargetIsLocal(registry, s, id, c);
    }
  }

  /** A wake counts its failure. */
  lemma WakeCountsErrors(registry: set<SourceKind>, s: State, id: nat, r: Response)
    requires id in s.calls && Ready(s.calls[id].pc)
    ensures var s' := Wake(registry, s, id, s.calls[id], r);
      id in s'.calls
      && s'.calls[id].report.errors == s.calls[id].report.errors + if Fails(s.calls[id].pc, r) then 1 else 0
  {}

  lemma StepCountsErrors(registry: set<SourceKind>, s: State, a: Action, id: nat)
    requires forall x | x in s.calls :: Ready(s.calls[x].pc)
    ensures ErrorsOf(Do(registry, s, a), id) == ErrorsOf(s, id)
      + if a.Resume? && a.id == id && id in s.calls && Fails(s.calls[id].pc, a.response) then 1 else 0
    ensures forall x | x in Do(registry, s, a).calls :: Ready(Do(registry, s, a).calls[x].pc)
  {
    if a.Resume? && a.id in s.calls {
      WakeIsLocal(registry, s, a.id, a.response);
      WakeCountsErrors(registry, s, a.id, a.response);
    }
  }

  /** A call reports exactly as many errors as it has taken its `Err` exit. */
  lemma {:induction false} ErrorsAreCounted(registry: set<SourceKind>, s: State, actions: seq<Action>, id: nat)
    requires forall x | x in s.calls :: Ready(s.calls[x].pc)
    ensures ErrorsOf(Run(registry, s, actions), id) == ErrorsOf(s, id) + FailuresOf(registry, s, actions, id)
    decreases |actions|
  {
    if actions != [] {
      StepCountsErrors(registry, s, actions[0], id);
      ErrorsAreCounted(registry, Do(registry, s, actions[0]), actions[1..], id);
    }
  }
}
