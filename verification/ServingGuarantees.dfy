/** What cleaned fields, categories and framed texts hold, in characters. */
module ServingGuarantees {
  import opened Texts
  import opened TextGuarantees
  import opened Categories
  import opened Envelope

  // ---- words ------------------------------------------------------------------------------

  /** How a text is taken apart: where it is cut, what is kept, and what joins the words. */
  datatype Style = Style(cuts: char -> bool, keeps: char -> bool, glue: char)

  /** One more character. */
  function Further(st: Style, ps: seq<string>, c: char): (ps': seq<string>)
    requires ps != []
    ensures ps' != []
  {
    if st.cuts(c) then ps + [[]]
    else if st.keeps(c) then ps[..|ps|-1] + [ps[|ps|-1] + [c]]
    else ps
  }

  function Longer(st: Style, out: string, c: char): string {
    if st.cuts(c) then if out != [] && out[|out|-1] == st.glue then out else out + [st.glue]
    else if st.keeps(c) then out + [c]
    else out
  }

  /** The text cut at every cutting character, keeping what is to be kept. */
  function Cut(st: Style, s: string): (ps: seq<string>)
    ensures ps != []
  {
    if s == [] then [[]] else Further(st, Cut(st, s[..|s|-1]), s[|s|-1])
  }

  function NonEmpty(ps: seq<string>): seq<string> {
    if ps == [] then []
    else NonEmpty(ps[..|ps|-1]) + if ps[|ps|-1] == [] then [] else [ps[|ps|-1]]
  }

  /** The words with one glue character between any two. */
  function Glued(glue: char, words: seq<string>): string {
    if words == [] then []
    else if |words| == 1 then words[0]
    else Glued(glue, words[..|words|-1]) + [glue] + words[|words|-1]
  }

  /** The words of a text, glued. */
  function Respelled(st: Style, s: string): string {
    Glued(st.glue, NonEmpty(Cut(st, s)))
  }

  /** The loop of both cleaners. */
  function Squeezed(st: Style, s: string): string {
    if s == [] then [] else Longer(st, Squeezed(st, s[..|s|-1]), s[|s|-1])
  }

  /** What stands in front of the last piece. */
  function Front(glue: char, n: nat, leads: bool, words: seq<string>): string {
    (if n > 0 && leads then [glue] else []) + Glued(glue, words) + (if words != [] then [glue] else [])
  }

  /** What has been squeezed out of these pieces. */
  function Pressed(glue: char, ps: seq<string>): string
    requires ps != []
  {
    var n, words := |ps| - 1, NonEmpty(ps[..|ps|-1]);
    Front(glue, n, ps[0] == [], words) + ps[n]
  }

  ghost predicate WordsOnly(glue: char, ps: seq<string>) {
    forall p | p in ps :: glue !in p
  }

  lemma GluedMore(glue: char, words: seq<string>, w: string)
    ensures Glued(glue, words + [w]) == Glued(glue, words) + (if words != [] then [glue] else []) + w
  {
    assert (words + [w])[..|words|] == words;
  }

  lemma {:induction false} FirstIsEmpty(ps: seq<string>)
    requires ps != [] && NonEmpty(ps) == []
    ensures ps[0] == []
  {
    if |ps| > 1 { FirstIsEmpty(ps[..|ps|-1]); }
  }

  lemma FrontMore(glue: char, n: nat, leads: bool, words: seq<string>, w: string)
    requires n == 0 ==> !leads && words == []
    ensures Front(glue, n + 1, leads, words + [w]) == Front(glue, n, leads, words) + w + [glue]
  {
    GluedMore(glue, words, w);
  }

  lemma FrontEnds(glue: char, n: nat, leads: bool, words: seq<string>)
    ensures var f := Front(glue, n, leads, words); words != [] || (n > 0 && leads) ==> f != [] && f[|f|-1] == glue
  {}

  lemma PressedCutWord(glue: char, ps: seq<string>)
    requires ps != [] && ps[|ps|-1] != [] && glue !in ps[|ps|-1]
    ensures Pressed(glue, ps + [[]]) == Pressed(glue, ps) + [glue]
    ensures var out := Pressed(glue, ps); out != [] && out[|out|-1] != glue
  {
    var n, words := |ps| - 1, NonEmpty(ps[..|ps|-1]);
    assert (ps + [[]])[..n+1] == ps;
    assert NonEmpty(ps) == words + [ps[n]];
    FrontMore(glue, n, ps[0] == [], words, ps[n]);
  }

  lemma PressedCutGap(glue: char, ps: seq<string>)
    requires ps != [] && ps[|ps|-1] == []
    ensures Pressed(glue, ps + [[]]) == if |ps| > 1 then Pressed(glue, ps) else [glue]
    ensures var out := Pressed(glue, ps); if |ps| > 1 then out != [] && out[|out|-1] == glue else out == []
  {
    var n, words := |ps| - 1, NonEmpty(ps[..|ps|-1]);
    assert (ps + [[]])[..n+1] == ps && NonEmpty(ps) == words;
    if n > 0 && words == [] { FirstIsEmpty(ps[..n]); }
    FrontEnds(glue, n, ps[0] == [], words);
  }

  lemma PressedKept(glue: char, ps: seq<string>, c: char)
    requires ps != []
    ensures Pressed(glue, ps[..|ps|-1] + [ps[|ps|-1] + [c]]) == Pressed(glue, ps) + [c]
  {
    var more := ps[..|ps|-1] + [ps[|ps|-1] + [c]];
    assert more[..|ps|-1] == ps[..|ps|-1];
  }

  lemma PressedMore(st: Style, ps: seq<string>, c: char)
    requires ps != [] && WordsOnly(st.glue, ps) && st.cuts(st.glue)
    ensures WordsOnly(st.glue, Further(st, ps, c))
    ensures Pressed(st.glue, Further(st, ps, c)) == Longer(st, Pressed(st.glue, ps), c)
  {
    if st.cuts(c) {
      if ps[|ps|-1] == [] {
        PressedCutGap(st.glue, ps);
      } else {
        assert ps[|ps|-1] in ps;
        PressedCutWord(st.glue, ps);
      }
    } else if st.keeps(c) {
      PressedKept(st.glue, ps, c);
      assert ps[|ps|-1] in ps;
    }
  }

  lemma {:induction false} SqueezedIsPressed(st: Style, s: string)
    requires st.cuts(st.glue)
    ensures Squeezed(st, s) == Pressed(st.glue, Cut(st, s)) && WordsOnly(st.glue, Cut(st, s))
  {
    if s != [] {
      var init, c := s[..|s|-1], s[|s|-1];
      SqueezedIsPressed(st, init);
      PressedMore(st, Cut(st, init), c);
    }
  }

  /** No glue at either end. */
  ghost predicate Bare(glue: char, s: string) {
    s != [] ==> s[0] != glue && s[|s|-1] != glue
  }

  predicate IsWord(glue: char, w: string) {
    w != [] && glue !in w
  }

  lemma {:induction false} GluedIsBare(glue: char, words: seq<string>)
    requires forall w | w in words :: IsWord(glue, w)
    ensures Bare(glue, Glued(glue, words)) && (words != [] ==> Glued(glue, words) != [])
  {
    if |words| > 1 {
      forall w | w in words[..|words|-1] ensures IsWord(glue, w) { assert w in words; }
      GluedIsBare(glue, words[..|words|-1]);
      assert IsWord(glue, words[|words|-1]);
    } else if |words| == 1 {
      assert IsWord(glue, words[0]);
    }
  }

  lemma {:induction false} NonEmptyMeans(ps: seq<string>)
    ensures forall w :: w in NonEmpty(ps) <==> w in ps && w != []
  {
    if ps != [] {
      NonEmptyMeans(ps[..|ps|-1]);
      assert ps == ps[..|ps|-1] + [ps[|ps|-1]];
    }
  }

  /** What was squeezed is the respelled text, at most with glue around it. */
  lemma SqueezedMeans(st: Style, s: string) returns (before: string, after: string)
    requires st.cuts(st.glue)
    ensures Squeezed(st, s) == before + Respelled(st, s) + after && Bare(st.glue, Respelled(st, s))
    ensures before in ["", [st.glue]] && after in ["", [st.glue]] && (Respelled(st, s) == "" ==> after == "")
  {
    var ps := Cut(st, s);
    var n, words := |ps| - 1, NonEmpty(ps[..|ps|-1]);
    SqueezedIsPressed(st, s);
    NonEmptyMeans(ps);
    GluedIsBare(st.glue, NonEmpty(ps));
    before := if n > 0 && ps[0] == [] then [st.glue] else [];
    if ps[n] != [] {
      GluedMore(st.glue, words, ps[n]);
      after := "";
    } else {
      assert NonEmpty(ps) == words;
      after := if words != [] then [st.glue] else [];
    }
  }

  // ---- categories ---------------------------------------------------------------------------

  predicate CutsCategory(c: char) {
    Spacing(c) || c == '_' || c == '-'
  }

  /** ASCII letters and digits, the full stop, and Hangul. */
  predicate KeptInCategory(c: char) {
    var n := c as int;
    || 0x30 <= n <= 0x39 || 0x41 <= n <= 0x5A || 0x61 <= n <= 0x7A || n == 0x2E
    || 0xAC00 <= n <= 0xD7A3 || 0x1100 <= n <= 0x11FF || 0x3130 <= n <= 0x318F
  }

  const KEBAB := Style(CutsCategory, KeptInCategory, '-')

  lemma {:induction false} DashedIsSqueezed(s: string)
    ensures Dashed(s) == Squeezed(KEBAB, s)
  {
    if s != [] {
      DashedIsSqueezed(s[..|s|-1]);
      WhiteIsSpacing(s[|s|-1]);
    }
  }

  lemma DashesComeOff(before: string, body: string, after: string)
    requires before in ["", "-"] && after in ["", "-"] && Bare('-', body) && (body == "" ==> after == "")
    ensures TrimDashEnd(TrimDashStart(before + body + after)) == body
  {
    assert TrimDashStart(body + after) == body + after;
    assert before == "-" ==> (before + body + after)[1..] == body + after;
    assert TrimDashStart(before + body + after) == body + after by {
      if before == "" { assert before + body + after == body + after; }
    }
    assert TrimDashEnd(body) == body;
    assert after == "-" ==> (body + after)[..|body|] == body;
    assert after == "" ==> body + after == body;
  }

  /** A category is the words of what was typed, trimmed and lowercased, joined by dashes;
      it is refused when that leaves nothing or more than 64 characters. */
  lemma CategoryMeans(lower: string -> string, raw: string)
    ensures Normalized(lower, raw) == Respelled(KEBAB, lower(Trim(raw)))
    ensures Fits(Normalized(lower, raw)) <==> 1 <= |Normalized(lower, raw)| <= 64
  {
    var text := lower(Trim(raw));
    DashedIsSqueezed(text);
    var before, after := SqueezedMeans(KEBAB, text);
    DashesComeOff(before, Respelled(KEBAB, text), after);
  }

  // ---- framed texts ---------------------------------------------------------------------------

  /** One pass over a text that spells out the angle brackets of every delimiter. */
  function SpelledOut(s: string): string {
    if s == [] then []
    else if "<knows-me:content>" <= s then "&lt;knows-me:content&gt;" + SpelledOut(s[18..])
    else if "</knows-me:content>" <= s then "&lt;/knows-me:content&gt;" + SpelledOut(s[19..])
    else [s[0]] + SpelledOut(s[1..])
  }

  lemma NotHere(s: string, pat: string, rep: string)
    requires s != [] && pat != [] && !(pat <= s)
    ensures ReplaceAll(s, pat, rep) == [s[0]] + ReplaceAll(s[1..], pat, rep)
  {}

  /** Text without the first character of a pattern is passed over. */
  lemma {:induction false} ReplacePasses(a: string, b: string, pat: string, rep: string)
    requires pat != [] && pat[0] !in a
    ensures ReplaceAll(a + b, pat, rep) == a + ReplaceAll(b, pat, rep)
  {
    if a == [] {
      assert a + b == b;
    } else {
      Recombined(a, b);
      ReplacePasses(a[1..], b, pat, rep);
      OneMorePasses(a[0], a[1..], b, pat, rep);
    }
  }

  lemma Recombined(a: string, b: string)
    requires a != []
    ensures [a[0]] + (a[1..] + b) == a + b && [a[0]] + a[1..] == a
  {}

  lemma OneMorePasses(c: char, t: string, b: string, pat: string, rep: string)
    requires pat != [] && !(pat <= [c] + (t + b)) && ReplaceAll(t + b, pat, rep) == t + ReplaceAll(b, pat, rep)
    ensures ReplaceAll([c] + (t + b), pat, rep) == [c] + t + ReplaceAll(b, pat, rep)
  {
    NotHere([c] + (t + b), pat, rep);
    assert ([c] + (t + b))[1..] == t + b;
  }

  lemma ReplaceHere(b: string, pat: string, rep: string)
    requires pat != []
    ensures ReplaceAll(pat + b, pat, rep) == rep + ReplaceAll(b, pat, rep)
  {
    assert pat <= pat + b && (pat + b)[|pat|..] == b;
  }

  /** Replacing one delimiter after the other spells out both in one pass. */
  lemma {:induction false} EscapeIsOnePass(s: string)
    ensures Escape(s) == SpelledOut(s)
  {
    if s != [] {
      if OPEN <= s {
        EscapeIsOnePass(s[18..]);
        OpenIsEscaped(s);
      } else if CLOSE <= s {
        EscapeIsOnePass(s[19..]);
        CloseIsEscaped(s);
      } else {
        EscapeIsOnePass(s[1..]);
        OtherIsKept(s);
      }
    }
  }

  lemma OpenIsEscaped(s: string)
    requires OPEN <= s
    ensures Escape(s) == "&lt;knows-me:content&gt;" + Escape(s[18..])
  {
    var rest := s[18..];
    var once := ReplaceAll(rest, CLOSE, CLOSE_ESCAPED);
    assert s == [OPEN[0]] + (OPEN[1..] + rest) && [OPEN[0]] + (OPEN[1..] + once) == OPEN + once;
    assert s[1] != CLOSE[1];
    ReplacePasses(OPEN[1..], rest, CLOSE, CLOSE_ESCAPED);
    OneMorePasses(OPEN[0], OPEN[1..], rest, CLOSE, CLOSE_ESCAPED);
    ReplaceHere(once, OPEN, OPEN_ESCAPED);
  }

  lemma CloseIsEscaped(s: string)
    requires CLOSE <= s
    ensures Escape(s) == "&lt;/knows-me:content&gt;" + Escape(s[19..])
  {
    ReplacePasses(CLOSE_ESCAPED, ReplaceAll(s[19..], CLOSE, CLOSE_ESCAPED), OPEN, OPEN_ESCAPED);
  }

  lemma OtherIsKept(s: string)
    requires s != [] && !(OPEN <= s) && !(CLOSE <= s)
    ensures Escape(s) == [s[0]] + Escape(s[1..])
  {
    var rest := ReplaceAll(s[1..], CLOSE, CLOSE_ESCAPED);
    assert ReplaceAll(s, CLOSE, CLOSE_ESCAPED) == [s[0]] + rest;
    assert s == [s[0]] + s[1..];
    if OPEN <= [s[0]] + rest { OpenWasThere(s[0], s[1..]); }
    assert ([s[0]] + rest)[1..] == rest;
  }

  /** Spelling out closing delimiters makes no opening one. */
  lemma OpenWasThere(c: char, t: string)
    requires OPEN <= [c] + ReplaceAll(t, CLOSE, CLOSE_ESCAPED)
    ensures OPEN <= [c] + t
  {
    PrefixTail(OPEN, c, ReplaceAll(t, CLOSE, CLOSE_ESCAPED));
    ApartByFirst(OPEN[1..], CLOSE_ESCAPED);
    PrefixSurvives(t, CLOSE, CLOSE_ESCAPED, OPEN[1..]);
    assert OPEN == [OPEN[0]] + OPEN[1..];
  }

  /** A frame is the opening delimiter, the text with every delimiter spelled out, and the
      closing delimiter. */
  lemma FrameMeans(text: string)
    ensures Wrap(text) == "<knows-me:content>" + SpelledOut(text) + "</knows-me:content>"
  {
    EscapeIsOnePass(text);
  }

  // ---- fields ------------------------------------------------------------------------------------

  /** Not a control character. */
  predicate Visible(c: char) {
    !(c as int < 32 || 127 <= c as int < 160)
  }

  const LINE := Style(Spacing, Visible, ' ')

  lemma {:induction false} CleanedIsSqueezed(s: string)
    ensures Cleaned(s) == Squeezed(LINE, s)
  {
    if s != [] {
      CleanedIsSqueezed(s[..|s|-1]);
      WhiteIsSpacing(s[|s|-1]);
    }
  }

  lemma SpacesComeOff(before: string, body: string, after: string)
    requires before in ["", " "] && after in ["", " "] && (body == "" ==> after == "")
    requires body != [] ==> !IsWhite(body[0]) && !IsWhite(body[|body|-1])
    ensures Trim(before + body + after) == body
  {
    assert TrimStart(body + after) == body + after;
    assert before == " " ==> (before + body + after)[1..] == body + after;
    assert TrimStart(before + body + after) == body + after by {
      if before == "" { assert before + body + after == body + after; }
    }
    assert TrimEnd(body) == body;
    assert after == " " ==> (body + after)[..|body|] == body;
    assert after == "" ==> body + after == body;
  }

  /** A served field is the words of the text without control characters, one space between
      them, with every delimiter spelled out. */
  lemma FieldMeans(text: string)
    ensures Sanitized(text) == SpelledOut(Respelled(LINE, text))
  {
    CleanedIsSqueezed(text);
    CleanedIsSingleLine(text);
    var before, after := SqueezedMeans(LINE, text);
    var body := Respelled(LINE, text);
    if body != [] {
      assert Cleaned(text)[|before|] == body[0] && Cleaned(text)[|before|+|body|-1] == body[|body|-1];
    }
    SpacesComeOff(before, body, after);
    EscapeIsOnePass(body);
  }
}
