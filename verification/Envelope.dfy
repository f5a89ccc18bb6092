/** Serving safety of `sharing/envelope.rs`: untrusted text is framed so that it cannot end
    the frame early, and short fields are cleaned. */
module Envelope {
  import opened Texts

  const OPEN := "<knows-me:content>"
  const CLOSE := "</knows-me:content>"
  const OPEN_ESCAPED := "&lt;knows-me:content&gt;"
  const CLOSE_ESCAPED := "&lt;/knows-me:content&gt;"

  function Escape(text: string): string {
    ReplaceAll(ReplaceAll(text, CLOSE, CLOSE_ESCAPED), OPEN, OPEN_ESCAPED)
  }

  /** `envelope` */
  function Wrap(text: string): string {
    OPEN + Escape(text) + CLOSE
  }

  // ---- escaping ----------------------------------------------------------------------

  lemma ApartByFirst(t: string, rep: string)
    requires rep != [] && rep[0] !in t
    ensures Apart(t, rep)
  {
    forall k | 0 <= k < |t| ensures ClashesFrom(t, rep, k) {
      assert t[k+0] != rep[0];
    }
  }

  predicate NoDelimiters(s: string) {
    (forall i | 0 <= i < |s| :: !OccursAt(s, OPEN, i)) && (forall i | 0 <= i < |s| :: !OccursAt(s, CLOSE, i))
  }

  lemma NoDelimitersMeans(s: string)
    ensures NoDelimiters(s) <==> !Contains(s, OPEN) && !Contains(s, CLOSE)
  {
    if Contains(s, OPEN) {
      var i :| OccursAt(s, OPEN, i);
    }
    if Contains(s, CLOSE) {
      var i :| OccursAt(s, CLOSE, i);
    }
  }

  /** No verbatim delimiter survives escaping, and none is created. */
  lemma EscapedHasNoDelimiters(text: string)
    ensures NoDelimiters(Escape(text))
  {
    var once := ReplaceAll(text, CLOSE, CLOSE_ESCAPED);
    ApartByFirst(CLOSE[1..], CLOSE_ESCAPED);
    ApartByFirst(OPEN[1..], OPEN_ESCAPED);
    ApartByFirst(CLOSE[1..], OPEN_ESCAPED);
    ReplacedIsGone(text, CLOSE, CLOSE_ESCAPED);
    ReplacedIsGone(once, OPEN, OPEN_ESCAPED);
    if Contains(Escape(text), CLOSE) {
      ReplaceCreatesNone(once, OPEN, OPEN_ESCAPED, CLOSE);
    }
    NoDelimitersMeans(Escape(text));
  }

  /** Text without delimiters passes unchanged. */
  lemma EscapeOfPlain(text: string)
    requires NoDelimiters(text)
    ensures Escape(text) == text
  {
    NoDelimitersMeans(text);
    ReplaceAbsent(text, CLOSE, CLOSE_ESCAPED);
    ReplaceAbsent(text, OPEN, OPEN_ESCAPED);
  }

  // ---- the counting theorem --------------------------------------------------------------

  /** A tag starts with the only `<` it has. */
  predicate IsTag(t: string) {
    t != [] && t[0] == '<' && forall i | 0 < i < |t| :: t[i] != '<'
  }

  lemma OccurrenceChars(w: string, t: string, i: int)
    requires OccursAt(w, t, i)
    ensures forall j | i <= j < i + |t| :: w[j] == t[j-i]
  {
    forall j | i <= j < i + |t| ensures w[j] == t[j-i] {
      assert w[i..i+|t|][j-i] == w[j];
    }
  }

  /** A tag occurring in a frame around a payload that does not contain it can only start
      where one of the frame's own tags starts. */
  lemma OnlyAtBorders(open: string, payload: string, close: string, t: string, i: int)
    requires IsTag(open) && IsTag(close) && IsTag(t)
    requires forall j :: !OccursAt(payload, t, j)
    requires OccursAt(open + payload + close, t, i)
    ensures i == 0 || i == |open| + |payload|
  {
    var w := open + payload + close;
    var n := |open| + |payload|;
    OccurrenceChars(w, t, i);
    assert w[i] == '<' && w[n] == '<';
    if |open| <= i < n {
      assert i + |t| <= n;
      assert w[i..i+|t|] == payload[i-|open|..i-|open|+|t|];
      assert OccursAt(payload, t, i - |open|);
    }
  }

  lemma PayloadFree(s: string)
    requires NoDelimiters(s)
    ensures forall j :: !OccursAt(s, OPEN, j) && !OccursAt(s, CLOSE, j)
  {}

  lemma OpensOnce(e: string, i: int)
    requires NoDelimiters(e)
    ensures OccursAt(OPEN + e + CLOSE, OPEN, i) <==> i == 0
  {
    var w := OPEN + e + CLOSE;
    var n := |OPEN| + |e|;
    PayloadFree(e);
    assert w[0..|OPEN|] == OPEN;
    if OccursAt(w, OPEN, i) {
      OnlyAtBorders(OPEN, e, CLOSE, OPEN, i);
      OccurrenceChars(w, OPEN, i);
      assert w[i+1] == 'k' && w[n+1] == '/';
    }
  }

  lemma ClosesOnce(e: string, i: int)
    requires NoDelimiters(e)
    ensures OccursAt(OPEN + e + CLOSE, CLOSE, i) <==> i == |OPEN| + |e|
  {
    var w := OPEN + e + CLOSE;
    var n := |OPEN| + |e|;
    PayloadFree(e);
    assert w[n..n+|CLOSE|] == CLOSE;
    if OccursAt(w, CLOSE, i) {
      OnlyAtBorders(OPEN, e, CLOSE, CLOSE, i);
      OccurrenceChars(w, CLOSE, i);
      assert w[i+1] == '/' && w[1] == 'k';
    }
  }

  /** For every text the frame holds exactly one verbatim opening delimiter, at the very
      start, and exactly one closing delimiter, at the very end. */
  lemma ExactlyOnePair(text: string, i: int)
    ensures OccursAt(Wrap(text), OPEN, i) <==> i == 0
    ensures OccursAt(Wrap(text), CLOSE, i) <==> i == |Wrap(text)| - |CLOSE|
  {
    EscapedHasNoDelimiters(text);
    OpensOnce(Escape(text), i);
    ClosesOnce(Escape(text), i);
  }

  // ---- short fields ------------------------------------------------------------------------

  /** The cleaning loop so far: control characters dropped, runs of whitespace one space. */
  function Cleaned(text: string): string {
    if text == [] then []
    else
      var out, c := Cleaned(text[..|text|-1]), text[|text|-1];
      if IsControl(c) && !IsWhite(c) then out
      else if IsWhite(c) then if EndsInSpace(out) then out else out + [' ']
      else out + [c]
  }

  predicate EndsInSpace(s: string) {
    s != [] && s[|s|-1] == ' '
  }

  function Sanitized(text: string): string {
    Escape(Trim(Cleaned(text)))
  }

  /** `sanitize_field` */
  method SanitizeField(text: string) returns (r: string)
    ensures r == Sanitized(text)
  {
    var out := [];
    var prevSpace := false;
    for i := 0 to |text|
      invariant out == Cleaned(text[..i]) && prevSpace == EndsInSpace(out)
    {
      assert text[..i+1][..i] == text[..i];
      var ch := text[i];
      if IsControl(ch) && !IsWhite(ch) {
        continue;
      }
      if IsWhite(ch) {
        if !prevSpace {
          out := out + [' '];
          prevSpace := true;
        }
      } else {
        out := out + [ch];
        prevSpace := false;
      }
    }
    assert text[..|text|] == text;
    r := ReplaceAll(ReplaceAll(Trim(out), CLOSE, CLOSE_ESCAPED), OPEN, OPEN_ESCAPED);
  }

  /** On one line: no control character, and no whitespace but single spaces. */
  predicate SingleLine(s: string) {
    && (forall i | 0 <= i < |s| :: !IsControl(s[i]) && (IsWhite(s[i]) ==> s[i] == ' '))
    && (forall i | 0 <= i < |s| - 1 :: s[i] == ' ' ==> s[i+1] != ' ')
  }

  predicate Trimmed(s: string) {
    s != [] ==> !IsWhite(s[0]) && !IsWhite(s[|s|-1])
  }

  lemma {:induction false} CleanedIsSingleLine(text: string)
    ensures SingleLine(Cleaned(text))
  {
    if text != [] {
      CleanedIsSingleLine(text[..|text|-1]);
      assert !IsControl(' ') && IsWhite(' ');
    }
  }

  lemma {:induction false} CleanedKeepsClean(s: string)
    requires SingleLine(s)
    ensures Cleaned(s) == s
  {
    if s != [] {
      var init := s[..|s|-1];
      assert SingleLine(init);
      CleanedKeepsClean(init);
      assert EndsInSpace(init) ==> s[|s|-2] == ' ';
      assert s == init + [s[|s|-1]];
    }
  }

  lemma {:induction false} TrimStartMeans(s: string)
    ensures var t := TrimStart(s); (t != [] ==> !IsWhite(t[0])) && exists n :: 0 <= n <= |s| && t == s[n..]
  {
    if s != [] && IsWhite(s[0]) {
      TrimStartMeans(s[1..]);
      var n :| 0 <= n <= |s[1..]| && TrimStart(s[1..]) == s[1..][n..];
      assert s[1..][n..] == s[n+1..];
    } else {
      assert s == s[0..];
    }
  }

  lemma {:induction false} TrimEndMeans(s: string)
    ensures var t := TrimEnd(s); (t != [] ==> !IsWhite(t[|t|-1])) && t <= s
  {
    if s != [] && IsWhite(s[|s|-1]) { TrimEndMeans(s[..|s|-1]); }
  }

  lemma TrimIsTrimmed(s: string)
    requires SingleLine(s)
    ensures SingleLine(Trim(s)) && Trimmed(Trim(s))
  {
    TrimStartMeans(s);
    TrimEndMeans(TrimStart(s));
  }

  lemma TrimOfTrimmed(s: string)
    requires Trimmed(s)
    ensures Trim(s) == s
  {}

  /** Replacing by visible text without spaces keeps a line a line, and keeps its ends. */
  lemma {:induction false} ReplaceKeepsLine(s: string, pat: string, rep: string)
    requires pat != [] && rep != [] && SingleLine(s) && !EndsInSpace(s)
    requires forall i | 0 <= i < |rep| :: !IsControl(rep[i]) && !IsWhite(rep[i])
    ensures var r := ReplaceAll(s, pat, rep);
      SingleLine(r) && !EndsInSpace(r) && (r != [] && r[0] == ' ' ==> s[0] == ' ')
    ensures s != [] ==> ReplaceAll(s, pat, rep) != []
  {
    if s != [] {
      var step := if pat <= s then |pat| else 1;
      assert SingleLine(s[step..]) && !EndsInSpace(s[step..]);
      ReplaceKeepsLine(s[step..], pat, rep);
      var head, tail := if pat <= s then rep else [s[0]], ReplaceAll(s[step..], pat, rep);
      if !(pat <= s) && |s| > 1 {
        assert s[1..][0] == s[1];
      }
      LineConcat(head, tail);
    }
  }

  lemma LineConcat(a: string, b: string)
    requires SingleLine(a) && SingleLine(b) && a != []
    requires !(EndsInSpace(a) && b != [] && b[0] == ' ')
    ensures SingleLine(a + b)
    ensures EndsInSpace(a + b) <==> if b == [] then EndsInSpace(a) else EndsInSpace(b)
  {}

  lemma EscapeKeepsLine(s: string)
    requires SingleLine(s) && Trimmed(s)
    ensures SingleLine(Escape(s)) && Trimmed(Escape(s))
  {
    var once := ReplaceAll(s, CLOSE, CLOSE_ESCAPED);
    ReplaceKeepsLine(s, CLOSE, CLOSE_ESCAPED);
    ReplaceKeepsLine(once, OPEN, OPEN_ESCAPED);
  }

  /** Whatever the field was, what is served is one trimmed line without control characters
      and without a delimiter, even one that only appears once control characters are
      dropped. */
  lemma SanitizedIsSafe(text: string)
    ensures var r := Sanitized(text); SingleLine(r) && Trimmed(r) && NoDelimiters(r)
  {
    CleanedIsSingleLine(text);
    TrimIsTrimmed(Cleaned(text));
    EscapeKeepsLine(Trim(Cleaned(text)));
    EscapedHasNoDelimiters(Trim(Cleaned(text)));
  }

  /** A safe field is served as it is. */
  lemma SafeIsUntouched(s: string)
    requires SingleLine(s) && Trimmed(s) && NoDelimiters(s)
    ensures Sanitized(s) == s
  {
    CleanedKeepsClean(s);
    TrimOfTrimmed(s);
    EscapeOfPlain(s);
  }

  lemma SanitizeTwice(text: string)
    ensures Sanitized(Sanitized(text)) == Sanitized(text)
  {
    SanitizedIsSafe(text);
    SafeIsUntouched(Sanitized(text));
  }
}
