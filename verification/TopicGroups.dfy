/** Grouping facts by subject, as `topic_pages` and `graph` both do: topics that differ
    only in separators share a merge key, and the commonest spelling names the group. */
module TopicGroups {
  import opened Ordering
  import opened KnowledgeTypes
  import opened Tokenizer

  /** `topic_key`: the topic without its separators. */
  function TopicKey(tb: Tables, topic: string): string {
    if topic == [] then []
    else (if tb.alnum(topic[0]) then [topic[0]] else []) + TopicKey(tb, topic[1..])
  }

  // ---- what a group is, whatever the order of the facts -------------------------------

  predicate HasKey(tb: Tables, f: FactSummary, key: string) {
    exists i | 0 <= i < |f.topics| :: TopicKey(tb, f.topics[i]) == key
  }

  /** Every topic of every fact, as often as it is mentioned. */
  ghost function Topics(facts: seq<FactSummary>): multiset<string> {
    if facts == [] then multiset{} else Topics(facts[..|facts|-1]) + multiset(facts[|facts|-1].topics)
  }

  ghost predicate IsKey(tb: Tables, facts: seq<FactSummary>, key: string) {
    key != [] && exists f :: f in facts && HasKey(tb, f, key)
  }

  /** The facts on the subject. */
  ghost predicate IsMember(tb: Tables, facts: seq<FactSummary>, key: string, f: FactSummary) {
    f in facts && HasKey(tb, f, key)
  }

  /** The most mentioned spelling, ties going to the smallest. */
  ghost predicate Names(tb: Tables, facts: seq<FactSummary>, key: string, name: string) {
    && name in Topics(facts) && TopicKey(tb, name) == key
    && forall t | t in Topics(facts) && TopicKey(tb, t) == key :: NotBetter(Topics(facts), t, name)
  }

  ghost predicate NotBetter(counts: multiset<string>, t: string, name: string) {
    counts[t] < counts[name] || (counts[t] == counts[name] && StrLe(name, t))
  }

  /** A fact may be listed more than once, but equal ids mean equal summaries. */
  ghost predicate IdsAgree(facts: seq<FactSummary>) {
    forall x, y | x in facts && y in facts && x.id == y.id :: x == y
  }

  lemma DistinctIdsAgree(facts: seq<FactSummary>)
    requires DistinctIds(facts)
    ensures IdsAgree(facts)
  {
    forall x, y | x in facts && y in facts && x.id == y.id ensures x == y {
      var i :| 0 <= i < |facts| && facts[i] == x;
      var j :| 0 <= j < |facts| && facts[j] == y;
    }
  }

  ghost predicate DistinctIds(facts: seq<FactSummary>) {
    forall i, j | 0 <= i < j < |facts| :: facts[i].id != facts[j].id
  }

  lemma NameIsUnique(tb: Tables, facts: seq<FactSummary>, key: string, a: string, b: string)
    requires Names(tb, facts, key, a) && Names(tb, facts, key, b)
    ensures a == b
  {
    assert NotBetter(Topics(facts), a, b) && NotBetter(Topics(facts), b, a);
    StrLeTotalOrder();
  }

  lemma {:induction false} TopicsConcat(a: seq<FactSummary>, b: seq<FactSummary>)
    ensures Topics(a + b) == Topics(a) + Topics(b)
  {
    if b == [] {
      assert a + b == a;
    } else {
      var init, last := b[..|b|-1], b[|b|-1];
      TopicsConcat(a, init);
      assert (a + b)[..|a+b|-1] == a + init && (a + b)[|a+b|-1] == last;
      AddAssoc(Topics(a), Topics(init), multiset(last.topics));
    }
  }

  /** Mention counts do not depend on the order of the facts. */
  lemma {:induction false} TopicsPermute(a: seq<FactSummary>, b: seq<FactSummary>)
    requires multiset(a) == multiset(b)
    ensures Topics(a) == Topics(b)
    decreases |a|
  {
    SamePermutation(a, b);
    if a != [] {
      var i := TakeOut(a, b);
      TopicsPermute(a[..|a|-1], b[..i] + b[i+1..]);
      TopicsWithout(b, i);
    }
  }

  lemma TopicsWithout(b: seq<FactSummary>, i: nat)
    requires i < |b|
    ensures Topics(b) == Topics(b[..i] + b[i+1..]) + multiset(b[i].topics)
  {
    assert b == b[..i+1] + b[i+1..] && b[..i+1][..i] == b[..i];
    TopicsConcat(b[..i+1], b[i+1..]);
    TopicsConcat(b[..i], b[i+1..]);
  }

  lemma {:induction false} TopicsAre(facts: seq<FactSummary>, t: string)
    ensures t in Topics(facts) <==> exists f :: f in facts && t in f.topics
  {
    if facts != [] {
      var init, last := facts[..|facts|-1], facts[|facts|-1];
      TopicsAre(init, t);
      assert facts == init + [last];
      assert t in last.topics <==> t in multiset(last.topics);
    }
  }

  lemma KeyHasTopic(tb: Tables, facts: seq<FactSummary>, key: string)
    ensures IsKey(tb, facts, key) <==> key != [] && exists t :: t in Topics(facts) && TopicKey(tb, t) == key
  {
    if IsKey(tb, facts, key) {
      var f :| f in facts && HasKey(tb, f, key);
      var i :| 0 <= i < |f.topics| && TopicKey(tb, f.topics[i]) == key;
      TopicsAre(facts, f.topics[i]);
    }
    if key != [] && exists t :: t in Topics(facts) && TopicKey(tb, t) == key {
      var t :| t in Topics(facts) && TopicKey(tb, t) == key;
      TopicsAre(facts, t);
      var f :| f in facts && t in f.topics;
      assert HasKey(tb, f, key);
    }
  }

  // ---- the grouping loop -----------------------------------------------------------------

  /** One group while it is being filled: how often each spelling came up, and a member
      for every mention. */
  datatype Group = Group(surfaces: map<string, nat>, members: seq<FactSummary>)

  type Mention = (FactSummary, string)

  /** Every (fact, topic) pair, in the order the loop meets them. */
  ghost function Mentions(facts: seq<FactSummary>): seq<Mention> {
    if facts == [] then [] else Mentions(facts[..|facts|-1]) + MentionsOf(facts[|facts|-1], |facts[|facts|-1].topics|)
  }

  ghost function MentionsOf(f: FactSummary, n: nat): seq<Mention>
    requires n <= |f.topics|
  {
    seq(n, i requires 0 <= i < n => (f, f.topics[i]))
  }

  function Bump(surfaces: map<string, nat>, topic: string): map<string, nat> {
    surfaces[topic := (if topic in surfaces then surfaces[topic] else 0) + 1]
  }

  ghost function GroupOf(tb: Tables, ms: seq<Mention>, key: string): Group {
    if ms == [] then Group(map[], [])
    else
      var g, m := GroupOf(tb, ms[..|ms|-1], key), ms[|ms|-1];
      if TopicKey(tb, m.1) == key then Group(Bump(g.surfaces, m.1), g.members + [m.0]) else g
  }

  ghost predicate Grouped(tb: Tables, ms: seq<Mention>, groups: map<string, Group>) {
    && (forall key :: key in groups <==> key != [] && GroupOf(tb, ms, key).members != [])
    && (forall key | key in groups :: groups[key] == GroupOf(tb, ms, key))
  }

  lemma AddMention(tb: Tables, ms: seq<Mention>, groups: map<string, Group>, m: Mention)
    requires Grouped(tb, ms, groups)
    ensures var key := TopicKey(tb, m.1);
      var g := if key in groups then groups[key] else Group(map[], []);
      Grouped(tb, ms + [m],
              if key == [] then groups else groups[key := Group(Bump(g.surfaces, m.1), g.members + [m.0])])
  {
    assert (ms + [m])[..|ms|] == ms;
    var key := TopicKey(tb, m.1);
    if key !in groups && key != [] {
      EmptyGroup(tb, ms, key);
    }
  }

  lemma {:induction false} EmptyGroup(tb: Tables, ms: seq<Mention>, key: string)
    ensures GroupOf(tb, ms, key).members == [] ==> GroupOf(tb, ms, key).surfaces == map[]
  {
    if ms != [] { EmptyGroup(tb, ms[..|ms|-1], key); }
  }

  /** `groups.entry(key).or_default()` over all facts and their topics. */
  method CollectGroups(tb: Tables, facts: seq<FactSummary>) returns (groups: map<string, Group>)
    ensures Grouped(tb, Mentions(facts), groups)
  {
    groups := map[];
    for i := 0 to |facts|
      invariant Grouped(tb, Mentions(facts[..i]), groups)
    {
      var f := facts[i];
      ghost var before := Mentions(facts[..i]);
      assert before + MentionsOf(f, 0) == before;
      for j := 0 to |f.topics|
        invariant Grouped(tb, before + MentionsOf(f, j), groups)
      {
        var t := f.topics[j];
        var key := TopicKey(tb, t);
        AddMention(tb, before + MentionsOf(f, j), groups, (f, t));
        assert before + MentionsOf(f, j) + [(f, t)] == before + MentionsOf(f, j + 1);
        if key != [] {
          var g := if key in groups then groups[key] else Group(map[], []);
          groups := groups[key := Group(Bump(g.surfaces, t), g.members + [f])];
        }
      }
      assert facts[..i+1][..i] == facts[..i];
    }
    assert facts[..|facts|] == facts;
  }

  // ---- what the loop has collected ---------------------------------------------------------

  ghost function MentionTopics(ms: seq<Mention>): multiset<string> {
    if ms == [] then multiset{} else MentionTopics(ms[..|ms|-1]) + multiset{ms[|ms|-1].1}
  }

  lemma {:induction false} GroupMeans(tb: Tables, ms: seq<Mention>, key: string)
    ensures var g := GroupOf(tb, ms, key);
      && (forall t :: t in g.surfaces <==> t in MentionTopics(ms) && TopicKey(tb, t) == key)
      && (forall t | t in g.surfaces :: g.surfaces[t] == MentionTopics(ms)[t])
      && (forall f :: f in g.members <==> exists m :: m in ms && m.0 == f && TopicKey(tb, m.1) == key)
  {
    if ms != [] {
      var init, last := ms[..|ms|-1], ms[|ms|-1];
      GroupMeans(tb, init, key);
      assert ms == init + [last];
      var g, g0 := GroupOf(tb, ms, key), GroupOf(tb, init, key);
      forall f ensures f in g.members <==> exists m :: m in ms && m.0 == f && TopicKey(tb, m.1) == key {
        if f in g.members {
          if f in g0.members {
            var m :| m in init && m.0 == f && TopicKey(tb, m.1) == key;
            assert m in ms;
          } else {
            assert last in ms && last.0 == f;
          }
        }
        if m :| m in ms && m.0 == f && TopicKey(tb, m.1) == key {
          if m != last { assert m in init; }
        }
      }
    }
  }

  lemma AddAssoc<T>(a: multiset<T>, b: multiset<T>, c: multiset<T>)
    ensures a + (b + c) == (a + b) + c
  {}

  lemma {:induction false} MentionTopicsConcat(a: seq<Mention>, b: seq<Mention>)
    ensures MentionTopics(a + b) == MentionTopics(a) + MentionTopics(b)
  {
    if b == [] {
      assert a + b == a;
    } else {
      var init, last := b[..|b|-1], b[|b|-1];
      MentionTopicsConcat(a, init);
      assert (a + b)[..|a+b|-1] == a + init;
      assert (a + b)[|a+b|-1] == last;
      AddAssoc(MentionTopics(a), MentionTopics(init), multiset{last.1});
    }
  }

  lemma {:induction false} MentionsOfTopics(f: FactSummary, n: nat)
    requires n <= |f.topics|
    ensures MentionTopics(MentionsOf(f, n)) == multiset(f.topics[..n])
  {
    if n > 0 {
      MentionsOfTopics(f, n - 1);
      NextTopic(f, n - 1);
      OneMoreMention(MentionsOf(f, n - 1), (f, f.topics[n-1]));
    }
  }

  lemma NextTopic(f: FactSummary, n: nat)
    requires n < |f.topics|
    ensures MentionsOf(f, n + 1) == MentionsOf(f, n) + [(f, f.topics[n])]
    ensures multiset(f.topics[..n+1]) == multiset(f.topics[..n]) + multiset{f.topics[n]}
  {
    assert f.topics[..n+1] == f.topics[..n] + [f.topics[n]];
  }

  lemma OneMoreMention(ms: seq<Mention>, m: Mention)
    ensures MentionTopics(ms + [m]) == MentionTopics(ms) + multiset{m.1}
  {
    assert (ms + [m])[..|ms|] == ms;
  }

  lemma {:induction false} MentionsCount(facts: seq<FactSummary>)
    ensures MentionTopics(Mentions(facts)) == Topics(facts)
  {
    if facts != [] {
      var init, last := facts[..|facts|-1], facts[|facts|-1];
      MentionsCount(init);
      MentionTopicsConcat(Mentions(init), MentionsOf(last, |last.topics|));
      MentionsOfTopics(last, |last.topics|);
      assert last.topics[..|last.topics|] == last.topics;
    }
  }

  lemma MentionsOfMean(f: FactSummary, m: Mention)
    ensures m in MentionsOf(f, |f.topics|) <==> m.0 == f && m.1 in f.topics
  {
    if m.0 == f && m.1 in f.topics {
      var i :| 0 <= i < |f.topics| && f.topics[i] == m.1;
      assert MentionsOf(f, |f.topics|)[i] == m;
    }
  }

  lemma {:induction false} MentionsMean(facts: seq<FactSummary>, m: Mention)
    ensures m in Mentions(facts) <==> m.0 in facts && m.1 in m.0.topics
  {
    if facts != [] {
      var init, last := facts[..|facts|-1], facts[|facts|-1];
      MentionsMean(init, m);
      MentionsOfMean(last, m);
      assert facts == init + [last];
    }
  }

  lemma GroupMembers(tb: Tables, facts: seq<FactSummary>, key: string, f: FactSummary)
    ensures f in GroupOf(tb, Mentions(facts), key).members <==> IsMember(tb, facts, key, f)
  {
    var ms := Mentions(facts);
    GroupMeans(tb, ms, key);
    if m :| m in ms && m.0 == f && TopicKey(tb, m.1) == key {
      MentionsMean(facts, m);
      var i :| 0 <= i < |f.topics| && f.topics[i] == m.1;
      assert HasKey(tb, f, key);
    }
    if IsMember(tb, facts, key, f) {
      var i :| 0 <= i < |f.topics| && TopicKey(tb, f.topics[i]) == key;
      MentionsMean(facts, (f, f.topics[i]));
    }
  }

  /** A finished group: its spellings with their mention counts, and exactly the facts on
      the subject. */
  lemma GroupOfFacts(tb: Tables, facts: seq<FactSummary>, key: string)
    requires key != []
    ensures var g := GroupOf(tb, Mentions(facts), key);
      && (forall t :: t in g.surfaces <==> t in Topics(facts) && TopicKey(tb, t) == key)
      && (forall t | t in g.surfaces :: g.surfaces[t] == Topics(facts)[t])
      && (forall f :: f in g.members <==> IsMember(tb, facts, key, f))
  {
    GroupMeans(tb, Mentions(facts), key);
    MentionsCount(facts);
    forall f ensures f in GroupOf(tb, Mentions(facts), key).members <==> IsMember(tb, facts, key, f) {
      GroupMembers(tb, facts, key, f);
    }
  }

  lemma GroupExists(tb: Tables, facts: seq<FactSummary>, key: string)
    requires key != []
    ensures var g := GroupOf(tb, Mentions(facts), key);
      (g.members != [] <==> IsKey(tb, facts, key)) && (g.members != [] ==> g.surfaces != map[])
  {
    GroupOfFacts(tb, facts, key);
    KeyHasTopic(tb, facts, key);
    var g := GroupOf(tb, Mentions(facts), key);
    if g.members != [] {
      assert g.members[0] in g.members;
      assert IsMember(tb, facts, key, g.members[0]);
      var t :| t in Topics(facts) && TopicKey(tb, t) == key;
      assert t in g.surfaces;
    }
    if IsKey(tb, facts, key) {
      var f :| f in facts && HasKey(tb, f, key);
      assert IsMember(tb, facts, key, f);
      assert f in g.members;
    }
  }

  // ---- naming a group -----------------------------------------------------------------------

  /** `max_by` count, ties to the smaller spelling. */
  predicate Beats(surfaces: map<string, nat>, a: string, b: string)
    requires a in surfaces && b in surfaces
  {
    surfaces[a] > surfaces[b] || (surfaces[a] == surfaces[b] && StrLe(a, b))
  }

  method PickName(surfaces: map<string, nat>) returns (name: string)
    requires surfaces != map[]
    ensures name in surfaces && forall t | t in surfaces :: Beats(surfaces, name, t)
  {
    StrLeTotalOrder();
    var todo := surfaces.Keys;
    name :| name in todo;
    todo := todo - {name};
    StrLeRefl(name);
    while todo != {}
      invariant todo <= surfaces.Keys && name in surfaces
      invariant forall t | t in surfaces.Keys - todo :: Beats(surfaces, name, t)
      decreases todo
    {
      var t :| t in todo;
      if !Beats(surfaces, name, t) {
        forall u | u in surfaces.Keys - todo ensures Beats(surfaces, t, u) {
          assert Beats(surfaces, name, u);
        }
        name := t;
        StrLeRefl(t);
      }
      todo := todo - {t};
    }
  }

  lemma PickedNames(tb: Tables, facts: seq<FactSummary>, key: string, name: string)
    requires key != []
    requires var s := GroupOf(tb, Mentions(facts), key).surfaces; name in s && forall t | t in s :: Beats(s, name, t)
    ensures Names(tb, facts, key, name)
  {
    GroupOfFacts(tb, facts, key);
    var s := GroupOf(tb, Mentions(facts), key).surfaces;
    forall t | t in Topics(facts) && TopicKey(tb, t) == key ensures NotBetter(Topics(facts), t, name) {
      assert t in s && Beats(s, name, t);
    }
  }
}
