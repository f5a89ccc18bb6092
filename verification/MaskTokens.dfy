/** A masked text seen as tokens: characters of the input that are still there, and
    placeholders standing for a piece of the input. Tokens exist only in proofs; the
    masker itself works on plain text. */
module MaskTokens {
  import opened Texts
  import opened PatternLanguages

  datatype Token = Lit(c: char) | Hole(placeholder: string, original: string)

  ghost function Show(t: Token): string {
    match t
    case Lit(c) => [c]
    case Hole(p, _) => p
  }

  ghost function Source(t: Token): string {
    match t
    case Lit(c) => [c]
    case Hole(_, o) => o
  }

  /** The text the tokens spell. */
  ghost function Render(ts: seq<Token>): string {
    if ts == [] then [] else Show(ts[0]) + Render(ts[1..])
  }

  /** The input the tokens stand for. */
  ghost function Expand(ts: seq<Token>): string {
    if ts == [] then [] else Source(ts[0]) + Expand(ts[1..])
  }

  ghost function LitCount(ts: seq<Token>): nat {
    if ts == [] then 0 else (if ts[0].Lit? then 1 else 0) + LitCount(ts[1..])
  }

  /** The shape of every placeholder whose counter has at most eight digits. */
  ghost predicate IsPlaceholder(p: string) {
    exists tag, n: nat {:trigger Placeholder(tag, n)} :: n < REMATCH_LIMIT && p == Placeholder(tag, n)
  }

  ghost predicate HolesOk(ts: seq<Token>) {
    ts == [] || ((ts[0].Hole? ==> IsPlaceholder(ts[0].placeholder)) && HolesOk(ts[1..]))
  }

  lemma PlaceholderShape(p: string)
    requires IsPlaceholder(p)
    ensures |p| >= 2 && p[0] == OPEN_QUOTE && p[|p|-1] == CLOSE_QUOTE
    ensures forall i | 0 < i < |p| - 1 :: p[i] != OPEN_QUOTE && p[i] != CLOSE_QUOTE
    ensures OPEN_QUOTE !in p[1..]
  {
    var tag, n: nat {:trigger Placeholder(tag, n)} :| n < REMATCH_LIMIT && p == Placeholder(tag, n);
    InteriorShape(tag, n);
    forall i | 0 < i < |p| - 1 ensures p[i] != OPEN_QUOTE && p[i] != CLOSE_QUOTE {
      assert p[i] == Interior(tag, n)[i-1];
    }
    assert p[1..] == Interior(tag, n) + [CLOSE_QUOTE];
  }

  // ---- concatenation -------------------------------------------------------------

  lemma {:induction false} RenderConcat(a: seq<Token>, b: seq<Token>)
    ensures Render(a + b) == Render(a) + Render(b)
  {
    if a == [] {
      assert a + b == b;
    } else {
      RenderConcat(a[1..], b);
      ConsOf(a, b);
      Assoc(Show(a[0]), Render(a[1..]), Render(b));
    }
  }

  lemma {:induction false} ExpandConcat(a: seq<Token>, b: seq<Token>)
    ensures Expand(a + b) == Expand(a) + Expand(b)
  {
    if a == [] {
      assert a + b == b;
    } else {
      ExpandConcat(a[1..], b);
      ConsOf(a, b);
      Assoc(Source(a[0]), Expand(a[1..]), Expand(b));
    }
  }

  lemma {:induction false} LitCountConcat(a: seq<Token>, b: seq<Token>)
    ensures LitCount(a + b) == LitCount(a) + LitCount(b)
  {
    if a == [] {
      assert a + b == b;
    } else {
      LitCountConcat(a[1..], b);
      ConsOf(a, b);
    }
  }

  lemma {:induction false} HolesOkConcat(a: seq<Token>, b: seq<Token>)
    ensures HolesOk(a + b) <==> HolesOk(a) && HolesOk(b)
  {
    if a == [] {
      assert a + b == b;
    } else {
      HolesOkConcat(a[1..], b);
      ConsOf(a, b);
    }
  }

  ghost function Lits(s: string): seq<Token> {
    seq(|s|, i requires 0 <= i < |s| => Lit(s[i]))
  }

  lemma {:induction false} LitsSpell(s: string)
    ensures Render(Lits(s)) == s && Expand(Lits(s)) == s && LitCount(Lits(s)) == |s|
  {
    if s != [] {
      LitsSpell(s[1..]);
      assert Lits(s) == [Lit(s[0])] + Lits(s[1..]);
      assert Lits(s)[1..] == Lits(s[1..]);
    }
  }

  // ---- where a match can lie --------------------------------------------------------

  /** Text without an opening quote at the front of the rendering comes from
      characters that are still there. */
  lemma {:induction false} RunOfLits(ts: seq<Token>, len: nat)
    requires HolesOk(ts) && len <= |Render(ts)|
    requires OPEN_QUOTE !in Render(ts)[..len]
    ensures len <= |ts| && ts[..len] == Lits(Render(ts)[..len])
    ensures Render(ts[len..]) == Render(ts)[len..]
  {
    if len > 0 {
      var r := Render(ts[1..]);
      assert Render(ts)[..len][0] == Render(ts)[0];
      if ts[0].Hole? {
        PlaceholderShape(ts[0].placeholder);
        assert false;
      }
      assert Render(ts) == [ts[0].c] + r;
      ConsSlices(ts[0].c, r, len);
      RunOfLits(ts[1..], len - 1);
      LitsCons(ts[0].c, r[..len-1]);
      assert ts == [ts[0]] + ts[1..];
      ConsSlices(ts[0], ts[1..], len);
    }
  }

  lemma ConsSlices<T>(x: T, xs: seq<T>, n: nat)
    requires 0 < n <= |xs| + 1
    ensures ([x] + xs)[..n] == [x] + xs[..n-1] && ([x] + xs)[n..] == xs[n-1..]
  {}

  lemma LitsCons(c: char, s: string)
    ensures Lits([c] + s) == [Lit(c)] + Lits(s)
  {}

  /** A foreign word in the rendered text starts on a character that is still there:
      it cannot reach across a quote, and no placeholder holds it. */
  lemma {:induction false} Boundary(ts: seq<Token>, s: nat, e: nat) returns (i: nat)
    requires HolesOk(ts)
    requires s <= e <= |Render(ts)| && Foreign(Render(ts)[s..e])
    ensures i <= |ts| && Render(ts[..i]) == Render(ts)[..s] && Render(ts[i..]) == Render(ts)[s..]
  {
    if s == 0 {
      i := 0;
      assert ts[..0] == [] && ts[0..] == ts && Render(ts)[0..] == Render(ts);
    } else {
      var r, rest := Show(ts[0]), Render(ts[1..]);
      if ts[0].Hole? && s < |r| {
        InsideHole(r, rest, s, e);
      }
      SlicePast(r, rest, s, e);
      i := Boundary(ts[1..], s - |r|, e - |r|);
      GlueBoundary(ts, s, i);
      i := i + 1;
    }
  }

  lemma GlueBoundary(ts: seq<Token>, s: nat, k: nat)
    requires ts != [] && |Show(ts[0])| <= s <= |Render(ts)| && k < |ts|
    requires Render(ts[1..][..k]) == Render(ts[1..])[..s-|Show(ts[0])|]
    requires Render(ts[1..][k..]) == Render(ts[1..])[s-|Show(ts[0])|..]
    ensures Render(ts[..k+1]) == Render(ts)[..s] && Render(ts[k+1..]) == Render(ts)[s..]
  {
    SlicePast(Show(ts[0]), Render(ts[1..]), s, s);
    assert ts[..k+1][0] == ts[0];
    assert ts[..k+1][1..] == ts[1..][..k];
    assert ts[k+1..] == ts[1..][k..];
  }

  lemma SlicePast(r: string, rest: string, s: nat, e: nat)
    requires |r| <= s <= e <= |r + rest|
    ensures (r + rest)[s..e] == rest[s-|r|..e-|r|]
    ensures (r + rest)[..s] == r + rest[..s-|r|]
    ensures (r + rest)[s..] == rest[s-|r|..]
  {}

  lemma InsideHole(p: string, rest: string, s: nat, e: nat)
    requires IsPlaceholder(p) && 0 < s < |p| && s < e <= |p + rest|
    ensures !Foreign((p + rest)[s..e])
  {
    PlaceholderShape(p);
    var tag, n: nat {:trigger Placeholder(tag, n)} :| n < REMATCH_LIMIT && p == Placeholder(tag, n);
    var w := (p + rest)[s..e];
    if e < |p| {
      assert w == p[s..e] == Interior(tag, n)[s-1..e-1];
      assert OccursAt(Interior(tag, n), w, s - 1);
    } else {
      assert w[|p|-1-s] == p[|p|-1];
    }
  }

  // ---- undoing one placeholder -------------------------------------------------------

  /** The tokens after one placeholder has been written back. */
  ghost function Restore(ts: seq<Token>, p: string): seq<Token> {
    if ts == [] then []
    else (if ts[0].Hole? && ts[0].placeholder == p then Lits(ts[0].original) else [ts[0]]) + Restore(ts[1..], p)
  }

  lemma {:induction false} SkipNonStart(a: string, b: string, pat: string, rep: string)
    requires pat != [] && pat[0] !in a
    ensures ReplaceAll(a + b, pat, rep) == a + ReplaceAll(b, pat, rep)
  {
    if a == [] {
      assert a + b == b;
    } else {
      ConsOf(a, b);
      SkipNonStart(a[1..], b, pat, rep);
      Assoc([a[0]], a[1..], ReplaceAll(b, pat, rep));
      assert [a[0]] + a[1..] == a;
    }
  }

  /** No placeholder is a proper prefix of a text that starts with another one. */
  lemma PlaceholdersPrefixFree(p: string, q: string, rest: string)
    requires IsPlaceholder(p) && IsPlaceholder(q) && p <= q + rest
    ensures p == q
  {
    PlaceholderShape(p);
    PlaceholderShape(q);
    var k := if |p| < |q| then |p| - 1 else |q| - 1;
    assert p[k] == q[k];
  }

  /** When the input never spells the placeholder, `str::replace` writes back exactly
      the places the masker put it. */
  lemma {:induction false} ReplaceRestores(ts: seq<Token>, p: string, orig: string)
    requires HolesOk(ts) && IsPlaceholder(p)
    requires forall i | 0 <= i < |ts| && ts[i].Hole? && ts[i].placeholder == p :: ts[i].original == orig
    requires !Contains(Expand(ts), p)
    ensures ReplaceAll(Render(ts), p, orig) == Render(Restore(ts, p))
    ensures Expand(Restore(ts, p)) == Expand(ts)
  {
    if ts != [] {
      var t, rest := ts[0], ts[1..];
      DropCat(Source(t), Expand(rest));
      if Contains(Expand(rest), p) { ContainsSuffix(Expand(ts), p, |Source(t)|); }
      ReplaceRestores(rest, p, orig);
      if t.Hole? && t.placeholder == p {
        StepIntoHole(t, rest, p, orig);
      } else {
        RenderConcat([t], Restore(rest, p));
        ExpandConcat([t], Restore(rest, p));
        assert Render([t]) == Show(t) && Expand([t]) == Source(t);
        if t.Hole? {
          StepOverHole(t.placeholder, Render(rest), p, orig);
        } else {
          PlaceholderShape(p);
          if p <= Render(ts) { StepOverLit(ts, p); }
          DropCat([t.c], Render(rest));
        }
      }
    }
  }

  lemma StepIntoHole(t: Token, rest: seq<Token>, p: string, orig: string)
    requires IsPlaceholder(p) && t == Hole(p, orig)
    ensures ReplaceAll(p + Render(rest), p, orig) == orig + ReplaceAll(Render(rest), p, orig)
    ensures Render(Lits(orig) + Restore(rest, p)) == orig + Render(Restore(rest, p))
    ensures Expand(Lits(orig) + Restore(rest, p)) == orig + Expand(Restore(rest, p))
  {
    PlaceholderShape(p);
    DropCat(p, Render(rest));
    LitsSpell(orig);
    RenderConcat(Lits(orig), Restore(rest, p));
    ExpandConcat(Lits(orig), Restore(rest, p));
  }

  lemma StepOverHole(q: string, rest: string, p: string, orig: string)
    requires IsPlaceholder(p) && IsPlaceholder(q) && p != q
    ensures ReplaceAll(q + rest, p, orig) == q + ReplaceAll(rest, p, orig)
  {
    PlaceholderShape(p);
    PlaceholderShape(q);
    if p <= q + rest { PlaceholdersPrefixFree(p, q, rest); }
    var r := ReplaceAll(rest, p, orig);
    calc {
      ReplaceAll(q + rest, p, orig);
      { ConsOf(q, rest); }
      [q[0]] + ReplaceAll(q[1..] + rest, p, orig);
      { SkipNonStart(q[1..], rest, p, orig); }
      [q[0]] + (q[1..] + r);
      { Assoc([q[0]], q[1..], r); assert [q[0]] + q[1..] == q; }
      q + r;
    }
  }

  lemma StepOverLit(ts: seq<Token>, p: string)
    requires HolesOk(ts) && IsPlaceholder(p) && ts != [] && ts[0].Lit?
    requires p <= Render(ts)
    ensures Contains(Expand(ts), p)
  {
    PlaceholderShape(p);
    PrefixTail(p, ts[0].c, Render(ts[1..]));
    assert p == [p[0]] + p[1..];
    var tail := LitsInFront(ts[1..], p[1..]);
    PrefixOccurs(Expand(ts), p, ts[0].c, tail);
  }

  lemma LitsInFront(ts: seq<Token>, s: string) returns (tail: string)
    requires HolesOk(ts) && OPEN_QUOTE !in s && |s| <= |Render(ts)| && Render(ts)[..|s|] == s
    ensures Expand(ts) == s + tail
  {
    RunOfLits(ts, |s|);
    LitsExpand(ts, s);
    tail := Expand(ts[|s|..]);
  }

  lemma PrefixOccurs(x: string, p: string, c: char, tail: string)
    requires p != [] && p == [c] + p[1..] && x == [c] + (p[1..] + tail)
    ensures Contains(x, p)
  {
    Assoc([c], p[1..], tail);
    DropCat(p, tail);
    assert OccursAt(p + tail, p, 0);
  }

  lemma LitsExpand(ts: seq<Token>, s: string)
    requires |s| <= |ts| && ts[..|s|] == Lits(s)
    ensures Expand(ts) == s + Expand(ts[|s|..])
  {
    LitsSpell(s);
    ExpandConcat(ts[..|s|], ts[|s|..]);
    assert ts == ts[..|s|] + ts[|s|..];
  }

  lemma {:induction false} RestoreKeeps(ts: seq<Token>, p: string)
    ensures forall t :: t in Restore(ts, p) && t.Hole? ==> t in ts && t.placeholder != p
  {
    if ts != [] {
      RestoreKeeps(ts[1..], p);
    }
  }

  lemma {:induction false} NoHolesNoChange(ts: seq<Token>)
    requires forall i | 0 <= i < |ts| :: ts[i].Lit?
    ensures Render(ts) == Expand(ts)
  {
    if ts != [] { NoHolesNoChange(ts[1..]); }
  }

  /** A foreign word can never help to spell a placeholder. */
  lemma ForeignApart(w: string, p: string)
    requires Foreign(w) && IsPlaceholder(p)
    ensures p[0] !in w && Apart(p[1..], w)
  {
    PlaceholderShape(p);
    var tag, n: nat {:trigger Placeholder(tag, n)} :| n < REMATCH_LIMIT && p == Placeholder(tag, n);
    var u, t := Interior(tag, n), p[1..];
    assert t == u + [CLOSE_QUOTE];
    forall k | 0 <= k < |t| ensures ClashesFrom(t, w, k) {
      if k + |w| <= |u| {
        assert !OccursAt(u, w, k);
        var m :| 0 <= m < |w| && u[k..k+|w|][m] != w[m];
        assert t[k+m] != w[m];
      } else {
        var m := |u| - k;
        assert t[k+m] == CLOSE_QUOTE && w[m] != CLOSE_QUOTE;
      }
    }
  }
}
