/** Repeating a step. */
module Steps {
  /** `n` steps from `s`. */
  ghost function Iterate<S>(step: S -> S, s: S, n: nat): S {
    if n == 0 then s else Iterate(step, step(s), n - 1)
  }

  lemma {:induction false} IterateOn<S>(step: S -> S, s: S, n: nat, m: nat)
    ensures Iterate(step, Iterate(step, s, n), m) == Iterate(step, s, n + m)
    decreases n
  {
    if n > 0 { IterateOn(step, step(s), n - 1, m); }
  }

  /** Some number of steps leads from one to the other. */
  ghost predicate Leads<S>(step: S -> S, s: S, s': S) {
    exists n: nat :: Iterate(step, s, n) == s'
  }

  lemma LeadsHere<S>(step: S -> S, s: S)
    ensures Leads(step, s, s)
  {
    assert Iterate(step, s, 0) == s;
  }

  lemma LeadsOn<S>(step: S -> S, s: S, s1: S, s2: S)
    requires Leads(step, s, s1) && Leads(step, s1, s2)
    ensures Leads(step, s, s2)
  {
    var n: nat :| Iterate(step, s, n) == s1;
    var m: nat :| Iterate(step, s1, m) == s2;
    IterateOn(step, s, n, m);
  }

  lemma LeadsFurther<S>(step: S -> S, s: S, s1: S)
    requires Leads(step, s, s1)
    ensures Leads(step, s, step(s1))
  {
    assert Iterate(step, s1, 1) == Iterate(step, step(s1), 0) == step(s1);
    LeadsOn(step, s, s1, step(s1));
  }
}
