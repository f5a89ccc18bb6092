/** What the library operations on text mean, in code points. */
module TextGuarantees {
  import opened Texts
  import opened Ordering

  /** The code points with the White_Space property. */
  const SPACING: set<int> :=
    {9, 10, 11, 12, 13, 32, 133, 160, 5760, 8192, 8193, 8194, 8195, 8196, 8197, 8198, 8199, 8200, 8201, 8202, 8232,
     8233, 8239, 8287, 12288}

  predicate Spacing(c: char) {
    c as int in SPACING
  }

  predicate AllSpacing(s: string) {
    forall i | 0 <= i < |s| :: Spacing(s[i])
  }

  lemma WhiteIsSpacing(c: char)
    ensures IsWhite(c) <==> Spacing(c)
  {}

  /** Trimming takes the spacing off both ends and nothing else. */
  lemma TrimMeans(s: string) returns (before: string, after: string)
    ensures s == before + Trim(s) + after && AllSpacing(before) && AllSpacing(after)
    ensures Trim(s) != [] ==> !Spacing(Trim(s)[0]) && !Spacing(Trim(s)[|Trim(s)|-1])
    ensures Trim(s) == [] <==> AllSpacing(s)
  {
    before := StartMeans(s);
    after := EndMeans(TrimStart(s));
    if Trim(s) != [] { TrimmedStart(s); }
    forall c ensures IsWhite(c) <==> Spacing(c) { WhiteIsSpacing(c); }
    TrimEmptyIffBlank(s);
  }

  lemma {:induction false} StartMeans(s: string) returns (before: string)
    ensures s == before + TrimStart(s) && AllSpacing(before)
  {
    before := "";
    if s != [] && IsWhite(s[0]) {
      WhiteIsSpacing(s[0]);
      before := StartMeans(s[1..]);
      before := [s[0]] + before;
    }
  }

  lemma {:induction false} EndMeans(s: string) returns (after: string)
    ensures s == TrimEnd(s) + after && AllSpacing(after)
    ensures TrimEnd(s) != [] ==> !IsWhite(TrimEnd(s)[|TrimEnd(s)|-1])
  {
    after := "";
    if s != [] && IsWhite(s[|s|-1]) {
      WhiteIsSpacing(s[|s|-1]);
      after := EndMeans(s[..|s|-1]);
      after := after + [s[|s|-1]];
    }
  }

  /** The texts part at `i`, where the first has the smaller code point. */
  ghost predicate PartsAt(a: string, b: string, i: int) {
    0 <= i < |a| && i < |b| && a[..i] == b[..i] && a[i] as int < b[i] as int
  }

  lemma AlikeBefore(a: string, b: string, i: int)
    requires PartsAt(a, b, i)
    ensures i > 0 ==> a[0] == b[0]
  {
    assert i > 0 ==> a[0] == a[..i][0] && b[0] == b[..i][0];
  }

  /** Texts are compared by code points, a prefix coming first. */
  lemma {:induction false} StrLeMeans(a: string, b: string)
    ensures StrLe(a, b) <==> a <= b || exists i :: PartsAt(a, b, i)
  {
    if a != [] && b != [] {
      if a[0] == b[0] {
        StrLeMeans(a[1..], b[1..]);
        assert a == [a[0]] + a[1..] && b == [b[0]] + b[1..];
        if exists i :: PartsAt(a[1..], b[1..], i) {
          var i :| PartsAt(a[1..], b[1..], i);
          assert a[..i+1] == [a[0]] + a[1..][..i] && b[..i+1] == [b[0]] + b[1..][..i];
          assert PartsAt(a, b, i + 1);
        }
        if exists i :: PartsAt(a, b, i) {
          var i :| PartsAt(a, b, i);
          assert i > 0;
          assert a[1..][..i-1] == a[..i][1..] && b[1..][..i-1] == b[..i][1..];
          assert PartsAt(a[1..], b[1..], i - 1);
        }
      } else {
        assert PartsAt(a, b, 0) <==> a[0] < b[0];
        forall i | PartsAt(a, b, i) ensures i == 0 { AlikeBefore(a, b, i); }
      }
    }
  }

  /** One text after another. */
  function Joined(parts: seq<string>): string {
    if parts == [] then [] else parts[0] + Joined(parts[1..])
  }
}
