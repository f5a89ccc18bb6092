/** The protocol of `knowledge/service.rs` without its concurrency: a call that runs alone,
    with a store that answers, does what its name says. This is also what KnowledgeService
    promises of its methods. */
module LoneCalls {
  import opened Wrappers
  import opened Steps
  import opened Ordering
  import opened TextGuarantees
  import opened KnowledgeTypes
  import opened Tokenizer
  import opened SearchIndex
  import opened KnowledgeProtocol
  import KnowledgeService

  /** A listing of the store. */
  ghost predicate IsListing(facts: map<FactId, Fact>, order: seq<FactId>) {
    NoDup(order) && forall x :: x in order <==> x in facts
  }

  /** A store that answers: a listing where one is asked for. */
  function Reply(pc: Pc, order: seq<FactId>): Response {
    if pc.Listing? then Keys(order) else Done
  }

  /** One call is woken, nothing else happens. */
  ghost function Woken(tb: Tables, id: nat, order: seq<FactId>): State -> State {
    (s: State) => if id in s.calls then Do(tb, s, Resume(id, Reply(s.calls[id].pc, order))) else s
  }

  /** Running alone, a call takes one state to the other. */
  ghost predicate Comes(tb: Tables, s: State, id: nat, order: seq<FactId>, s': State) {
    Leads(Woken(tb, id, order), s, s')
  }

  lemma Joined(tb: Tables, s: State, id: nat, order: seq<FactId>, s1: State, s2: State)
    requires Comes(tb, s, id, order, s1) && Comes(tb, s1, id, order, s2)
    ensures Comes(tb, s, id, order, s2)
  {
    LeadsOn(Woken(tb, id, order), s, s1, s2);
  }

  /** One more wake. */
  lemma WakeAgain(tb: Tables, s: State, id: nat, order: seq<FactId>, s1: State) returns (s2: State)
    requires Comes(tb, s, id, order, s1) && id in s1.calls && WritesOp(s1.calls[id])
    ensures Comes(tb, s, id, order, s2)
    ensures s2 == Wake(tb, s1, id, s1.calls[id], Reply(s1.calls[id].pc, order))
  {
    s2 := Woken(tb, id, order)(s1);
    LeadsFurther(Woken(tb, id, order), s, s1);
  }

  lemma ComesHere(tb: Tables, s: State, id: nat, order: seq<FactId>)
    ensures Comes(tb, s, id, order, s)
  {
    LeadsHere(Woken(tb, id, order), s);
  }

  /** The state with one call at this point. */
  ghost predicate Stands(s: State, id: nat, op: Op, pc: Pc) {
    id in s.calls && s.calls[id].op == op && s.calls[id].pc == pc && WritesOp(s.calls[id])
  }

  /** The same store and histories. */
  ghost predicate SameStore(s: State, s': State) {
    s'.facts == s.facts && s'.history == s.history
  }

  ghost predicate SameIndex(s: State, s': State) {
    s'.indexed == s.indexed && s'.initialized == s.initialized
  }

  // ---- loading ------------------------------------------------------------------------------

  ghost function Gotten(facts: map<FactId, Fact>, order: seq<FactId>): seq<Fact>
    requires forall x | x in order :: x in facts
  {
    seq(|order|, i requires 0 <= i < |order| => facts[order[i]])
  }

  lemma {:induction false} LoadRuns(tb: Tables, s: State, id: nat, op: Op, order: seq<FactId>, todo: seq<FactId>,
                                    got: seq<Fact>)
    returns (s': State)
    requires Stands(s, id, op, Loading(todo, got)) && forall x | x in todo :: x in s.facts
    ensures Comes(tb, s, id, order, s') && Stands(s', id, op, Loading([], got + Gotten(s.facts, todo)))
    ensures SameStore(s, s') && SameIndex(s, s') && s'.lock == s.lock
    decreases |todo|
  {
    ComesHere(tb, s, id, order);
    if todo == [] {
      s' := s;
      assert got + Gotten(s.facts, todo) == got;
    } else {
      var got1 := got + [s.facts[todo[0]]];
      var s1 := WakeAgain(tb, s, id, order, s);
      s' := LoadRuns(tb, s1, id, op, order, todo[1..], got1);
      Joined(tb, s, id, order, s1, s');
      assert got1 + Gotten(s.facts, todo[1..]) == got + Gotten(s.facts, todo);
    }
  }

  lemma GottenIsLoad(facts: map<FactId, Fact>, order: seq<FactId>)
    requires Filed(facts) && IsListing(facts, order)
    ensures Rebuilt([] + Gotten(facts, order)) == facts
  {
    var all := Gotten(facts, order);
    assert [] + all == all;
    assert KnowledgeService.IsLoad(facts, all) by {
      forall x | x in facts ensures facts[x] in all {
        var i :| 0 <= i < |order| && order[i] == x;
        assert all[i] == facts[x];
      }
    }
    KnowledgeService.RebuiltIsStore(facts, all);
  }

  /** From the lock to a fresh index. */
  lemma RebuildRuns(tb: Tables, s: State, id: nat, op: Op, order: seq<FactId>) returns (s': State)
    requires Stands(s, id, op, Listing) && Filed(s.facts) && IsListing(s.facts, order)
    ensures Comes(tb, s, id, order, s') && Stands(s', id, op, if op.Build? then Finished(true) else Ready)
    ensures SameStore(s, s') && s'.indexed == s.facts && s'.initialized && s'.lock == None
  {
    ComesHere(tb, s, id, order);
    var s1 := WakeAgain(tb, s, id, order, s);
    var s2 := LoadRuns(tb, s1, id, op, order, order, []);
    Joined(tb, s, id, order, s1, s2);
    GottenIsLoad(s.facts, order);
    s' := WakeAgain(tb, s, id, order, s2);
  }

  /** What the index holds once it is there. */
  ghost function Indexed(s: State): map<FactId, Fact> {
    if s.initialized then s.indexed else s.facts
  }

  /** A call that wants the index finds it or builds it. */
  lemma IndexRuns(tb: Tables, s: State, id: nat, op: Op, order: seq<FactId>) returns (s': State)
    requires Stands(s, id, op, Begin) && s.lock == None && Filed(s.facts) && IsListing(s.facts, order)
    requires !op.Build? && (op.Upsert? ==> Acceptable(op.fact))
    ensures Comes(tb, s, id, order, s') && Stands(s', id, op, Ready)
    ensures SameStore(s, s') && s'.indexed == Indexed(s) && s'.initialized && s'.lock == None
  {
    ComesHere(tb, s, id, order);
    s' := WakeAgain(tb, s, id, order, s);
    if !s.initialized {
      var s2 := WakeAgain(tb, s, id, order, s');
      s' := RebuildRuns(tb, s2, id, op, order);
      Joined(tb, s, id, order, s2, s');
    }
  }

  // ---- writing ------------------------------------------------------------------------------

  /** From the put on: the store, the history of an edit, the index. */
  lemma PutRuns(tb: Tables, s: State, id: nat, op: Op, order: seq<FactId>, next: Fact, prev: Option<Fact>)
    returns (s': State)
    requires Stands(s, id, op, Putting(next, prev))
    ensures Comes(tb, s, id, order, s') && Stands(s', id, op, Finished(true))
    ensures s'.lock == None && s'.initialized == s.initialized
    ensures s'.facts == s.facts[next.id := next] && s'.indexed == s.indexed[next.id := next]
    ensures s'.history == KnowledgeService.Appended(s.history, prev, next)
  {
    ComesHere(tb, s, id, order);
    s' := WakeAgain(tb, s, id, order, s);
    if prev.Some? && prev.value.body != next.body {
      var s1 := s';
      s' := LogRuns(tb, s1, id, op, order, next, prev.value.body);
      Joined(tb, s, id, order, s1, s');
    }
  }

  lemma LogRuns(tb: Tables, s: State, id: nat, op: Op, order: seq<FactId>, next: Fact, before: string)
    returns (s': State)
    requires Stands(s, id, op, LogReading(next, before))
    ensures Comes(tb, s, id, order, s') && Stands(s', id, op, Finished(true))
    ensures s'.lock == None && s'.initialized == s.initialized
    ensures s'.facts == s.facts && s'.indexed == s.indexed[next.id := next]
    ensures s'.history == s.history[next.id := Log(s.history, next.id) + [Change(before, next.body)]]
  {
    ComesHere(tb, s, id, order);
    s' := WakeAgain(tb, s, id, order, s);
    s' := WakeAgain(tb, s, id, order, s');
  }

  /** From the start of a writer to its previous version, under the lock. */
  lemma StartRuns(tb: Tables, s: State, id: nat, op: Op, order: seq<FactId>) returns (s': State)
    requires Stands(s, id, op, Begin) && s.lock == None && Filed(s.facts) && IsListing(s.facts, order)
    requires op.SetSharing? || (op.Upsert? && Acceptable(op.fact))
    ensures Comes(tb, s, id, order, s') && Stands(s', id, op, GetPrev)
    ensures SameStore(s, s') && s'.indexed == Indexed(s) && s'.initialized
  {
    s' := IndexRuns(tb, s, id, op, order);
    s' := WakeAgain(tb, s, id, order, s');
    s' := WakeAgain(tb, s, id, order, s');
  }

  // ---- whole calls ----------------------------------------------------------------------------

  ghost function Entered(tb: Tables, s: State, id: nat, op: Op): State {
    Do(tb, s, Enter(id, op))
  }

  /** Nobody else is about. */
  ghost predicate Quiet(s: State, id: nat, order: seq<FactId>) {
    id !in s.calls && s.lock == None && Filed(s.facts) && IsListing(s.facts, order)
  }

  /** An upsert stores the fact as it is, logs a changed body, and indexes it. */
  lemma LoneUpsert(tb: Tables, s: State, id: nat, f: Fact, order: seq<FactId>) returns (s': State)
    requires Quiet(s, id, order) && f.meta.confirmed && f.meta.confirmedAt.Some? && !AllSpacing(f.title)
    ensures Comes(tb, Entered(tb, s, id, Upsert(f)), id, order, s') && Stands(s', id, Upsert(f), Finished(true))
    ensures s'.lock == None && s'.initialized
    ensures s'.facts == s.facts[f.id := f] && s'.indexed == Indexed(s)[f.id := f]
    ensures s'.history == (if f.id in s.facts && s.facts[f.id].body != f.body
                           then s.history[f.id := Log(s.history, f.id) + [Change(s.facts[f.id].body, f.body)]]
                           else s.history)
  {
    var s0, op, prev := Entered(tb, s, id, Upsert(f)), Upsert(f), Find(s.facts, f.id);
    var _, _ := TrimMeans(f.title);
    var s1 := StartRuns(tb, s0, id, op, order);
    var s2 := WakeAgain(tb, s0, id, order, s1);
    s' := PutRuns(tb, s2, id, op, order, f, prev);
    Joined(tb, s0, id, order, s2, s');
  }

  /** A fact that must not be stored is refused at once. */
  lemma LoneRefusal(tb: Tables, s: State, id: nat, f: Fact, order: seq<FactId>) returns (s': State)
    requires id !in s.calls && !(f.meta.confirmed && f.meta.confirmedAt.Some? && !AllSpacing(f.title))
    ensures Comes(tb, Entered(tb, s, id, Upsert(f)), id, order, s') && Stands(s', id, Upsert(f), Finished(false))
    ensures SameStore(s, s') && SameIndex(s, s') && s'.lock == s.lock
  {
    var s0 := Entered(tb, s, id, Upsert(f));
    var _, _ := TrimMeans(f.title);
    ComesHere(tb, s0, id, order);
    s' := WakeAgain(tb, s0, id, order, s0);
  }

  /** A fact with another visibility and category. */
  function Shared(f: Fact, v: Visibility, c: Option<Category>): Fact {
    Fact(f.id, f.title, f.body, f.links,
      FactMeta(f.meta.source, f.meta.collectedAt, f.meta.confirmed, f.meta.scope, f.meta.confirmedAt, v, c,
               f.meta.topics, f.meta.kind))
  }

  /** Sharing changes the visibility and the category of a stored fact, and nothing else;
      of an unknown fact it changes nothing. */
  lemma LoneSetSharing(tb: Tables, s: State, id: nat, x: FactId, v: Visibility, c: Option<Category>,
                       order: seq<FactId>)
    returns (s': State)
    requires Quiet(s, id, order)
    ensures Comes(tb, Entered(tb, s, id, SetSharing(x, v, c)), id, order, s')
    ensures Stands(s', id, SetSharing(x, v, c), Finished(x in s.facts))
    ensures s'.lock == None && s'.initialized && s'.history == s.history
    ensures x !in s.facts ==> s'.facts == s.facts && s'.indexed == Indexed(s)
    ensures x in s.facts ==>
      s'.facts == s.facts[x := Shared(s.facts[x], v, c)] && s'.indexed == Indexed(s)[x := Shared(s.facts[x], v, c)]
  {
    var s0, op := Entered(tb, s, id, SetSharing(x, v, c)), SetSharing(x, v, c);
    var s1 := StartRuns(tb, s0, id, op, order);
    var s2 := WakeAgain(tb, s0, id, order, s1);
    s' := s2;
    if x in s.facts {
      s' := PutRuns(tb, s2, id, op, order, Shared(s.facts[x], v, c), Some(s.facts[x]));
      Joined(tb, s0, id, order, s2, s');
    }
  }

  /** A forced build makes the index that of the store. */
  lemma LoneBuild(tb: Tables, s: State, id: nat, order: seq<FactId>) returns (s': State)
    requires Quiet(s, id, order)
    ensures Comes(tb, Entered(tb, s, id, Build), id, order, s') && Stands(s', id, Build, Finished(true))
    ensures SameStore(s, s') && s'.lock == None && s'.initialized && s'.indexed == s.facts
  {
    var s0 := Entered(tb, s, id, Build);
    ComesHere(tb, s0, id, order);
    var s1 := WakeAgain(tb, s0, id, order, s0);
    var s2 := WakeAgain(tb, s0, id, order, s1);
    s' := RebuildRuns(tb, s2, id, Build, order);
    Joined(tb, s0, id, order, s2, s');
  }

  /** A read answers with the summaries of the indexed facts a naive scan finds. */
  lemma LoneRead(tb: Tables, s: State, id: nat, query: string, filter: Option<Scope>, order: seq<FactId>)
    returns (s': State)
    requires Quiet(s, id, order)
    ensures Comes(tb, Entered(tb, s, id, Read(query, filter)), id, order, s')
    ensures Stands(s', id, Read(query, filter), Finished(true)) && SameStore(s, s') && s'.lock == None
    ensures forall x :: x in s'.calls[id].answer <==> x in Found(tb, Indexed(s), query, filter)
    ensures forall x | x in s'.calls[id].answer && x in Indexed(s) ::
      s'.calls[id].answer[x] == Summarize(Indexed(s)[x])
  {
    var s0 := Entered(tb, s, id, Read(query, filter));
    var s1 := IndexRuns(tb, s0, id, Read(query, filter), order);
    s' := WakeAgain(tb, s0, id, order, s1);
  }
}
