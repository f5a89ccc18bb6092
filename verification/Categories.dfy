/** `Category::parse` of `core/types.rs`: the normal form that grants are compared in. */
module Categories {
  import opened Texts
  import opened Wrappers

  const MAX_CHARS: nat := 64

  predicate IsHangul(c: char) {
    || '\U{AC00}' <= c <= '\U{D7A3}'
    || '\U{1100}' <= c <= '\U{11FF}'
    || '\U{3130}' <= c <= '\U{318F}'
  }

  predicate Separates(c: char) {
    IsWhite(c) || c == '_' || c == '-'
  }

  predicate Allowed(c: char) {
    IsAsciiAlnum(c) || c == '.' || IsHangul(c)
  }

  predicate EndsInDash(s: string) {
    s != [] && s[|s|-1] == '-'
  }

  /** The filtering loop so far. */
  function Dashed(s: string): string {
    if s == [] then []
    else
      var out, c := Dashed(s[..|s|-1]), s[|s|-1];
      if Separates(c) then if EndsInDash(out) then out else out + ['-']
      else if Allowed(c) then out + [c]
      else out
  }

  function TrimDashStart(s: string): string {
    if s != [] && s[0] == '-' then TrimDashStart(s[1..]) else s
  }

  function TrimDashEnd(s: string): string {
    if s != [] && s[|s|-1] == '-' then TrimDashEnd(s[..|s|-1]) else s
  }

  function Normalized(lower: string -> string, raw: string): string {
    TrimDashEnd(TrimDashStart(Dashed(lower(Trim(raw)))))
  }

  predicate Fits(s: string) {
    0 < |s| <= MAX_CHARS
  }

  /** `Category::parse`; `lower` is `str::to_lowercase`. */
  method Parse(lower: string -> string, raw: string) returns (r: Option<string>)
    ensures r == if Fits(Normalized(lower, raw)) then Some(Normalized(lower, raw)) else None
  {
    var text := lower(Trim(raw));
    var out := [];
    var prevDash := false;
    for i := 0 to |text|
      invariant out == Dashed(text[..i]) && prevDash == EndsInDash(out)
    {
      assert text[..i+1][..i] == text[..i];
      var ch := text[i];
      if Separates(ch) {
        if !prevDash {
          out := out + ['-'];
          prevDash := true;
        }
      } else if Allowed(ch) {
        out := out + [ch];
        prevDash := false;
      }
    }
    assert text[..|text|] == text;
    var trimmed := TrimDashEnd(TrimDashStart(out));
    r := if |trimmed| == 0 || |trimmed| > MAX_CHARS then None else Some(trimmed);
  }

  // ---- the normal form -------------------------------------------------------------------

  /** Allowed characters and single dashes between them. */
  predicate Hyphenated(s: string) {
    && (forall i | 0 <= i < |s| :: s[i] == '-' || Allowed(s[i]))
    && (forall i | 0 <= i < |s| - 1 :: s[i] == '-' ==> s[i+1] != '-')
  }

  predicate NormalForm(s: string) {
    Hyphenated(s) && (s != [] ==> s[0] != '-' && s[|s|-1] != '-')
  }

  lemma {:induction false} DashedIsHyphenated(s: string)
    ensures Hyphenated(Dashed(s))
  {
    if s != [] { DashedIsHyphenated(s[..|s|-1]); }
  }

  lemma {:induction false} DashedKeeps(s: string)
    requires Hyphenated(s)
    ensures Dashed(s) == s
  {
    if s != [] {
      var init := s[..|s|-1];
      assert Hyphenated(init);
      DashedKeeps(init);
      assert EndsInDash(init) ==> s[|s|-2] == '-';
      assert s == init + [s[|s|-1]];
    }
  }

  lemma {:induction false} TrimDashStartMeans(s: string)
    requires Hyphenated(s)
    ensures var t := TrimDashStart(s); Hyphenated(t) && (t != [] ==> t[0] != '-')
  {
    if s != [] && s[0] == '-' { TrimDashStartMeans(s[1..]); }
  }

  lemma {:induction false} TrimDashEndMeans(s: string)
    requires Hyphenated(s)
    ensures var t := TrimDashEnd(s); Hyphenated(t) && (t != [] ==> t[|t|-1] != '-') && t <= s
  {
    if s != [] && s[|s|-1] == '-' { TrimDashEndMeans(s[..|s|-1]); }
  }

  /** Whatever was typed, the normal form has only allowed characters and single inner
      dashes. */
  lemma NormalizedIsNormal(lower: string -> string, raw: string)
    ensures NormalForm(Normalized(lower, raw))
  {
    var d := Dashed(lower(Trim(raw)));
    DashedIsHyphenated(d);
    DashedIsHyphenated(lower(Trim(raw)));
    TrimDashStartMeans(d);
    TrimDashEndMeans(TrimDashStart(d));
  }

  /** Lowercasing is the identity on lowercase text of the alphabet. */
  ghost predicate LowerFixes(lower: string -> string) {
    forall s | NormalForm(s) && (forall i | 0 <= i < |s| :: !('A' <= s[i] <= 'Z')) :: lower(s) == s
  }

  /** Lowercasing leaves no capital ASCII letter. */
  ghost predicate LowerLowers(lower: string -> string) {
    forall s, i | 0 <= i < |lower(s)| :: !('A' <= lower(s)[i] <= 'Z')
  }

  lemma {:induction false} DashedSubset(s: string)
    ensures forall c | c in Dashed(s) :: c == '-' || c in s
  {
    if s != [] {
      DashedSubset(s[..|s|-1]);
      assert s == s[..|s|-1] + [s[|s|-1]];
    }
  }

  lemma {:induction false} TrimDashSubset(s: string)
    ensures forall c | c in TrimDashStart(s) :: c in s
    ensures forall c | c in TrimDashEnd(s) :: c in s
  {
    if s != [] {
      TrimDashSubset(s[1..]);
      TrimDashSubset(s[..|s|-1]);
    }
  }

  lemma NormalizedHasNoCapitals(lower: string -> string, raw: string)
    requires LowerLowers(lower)
    ensures forall i | 0 <= i < |Normalized(lower, raw)| :: !('A' <= Normalized(lower, raw)[i] <= 'Z')
  {
    var text := lower(Trim(raw));
    var d := Dashed(text);
    DashedSubset(text);
    TrimDashSubset(d);
    TrimDashSubset(TrimDashStart(d));
    forall c | c in Normalized(lower, raw) ensures !('A' <= c <= 'Z') {
      assert c == '-' || c in text;
      if c in text {
        var j :| 0 <= j < |text| && text[j] == c;
        assert !('A' <= lower(Trim(raw))[j] <= 'Z');
      }
    }
    forall i | 0 <= i < |Normalized(lower, raw)| ensures !('A' <= Normalized(lower, raw)[i] <= 'Z') {
      assert Normalized(lower, raw)[i] in Normalized(lower, raw);
    }
  }

  lemma NormalIsTrimmed(s: string)
    requires NormalForm(s)
    ensures Trim(s) == s
  {
    assert s != [] ==> !IsWhite(s[0]) && !IsWhite(s[|s|-1]);
  }

  /** Normalizing is idempotent: a category in normal form is the same grant however often
      it is parsed. */
  lemma NormalizeTwice(lower: string -> string, raw: string)
    requires LowerFixes(lower) && LowerLowers(lower)
    ensures Normalized(lower, Normalized(lower, raw)) == Normalized(lower, raw)
  {
    var s := Normalized(lower, raw);
    NormalizedIsNormal(lower, raw);
    NormalizedHasNoCapitals(lower, raw);
    NormalIsTrimmed(s);
    DashedKeeps(s);
    assert lower(s) == s;
  }
}
