/** What masking finds and what it leaves, in literal characters: no API key, address, link or
    number of the kinds below is left, and nothing else is touched. */
module MaskingGuarantees {
  import opened Texts
  import opened TextGuarantees
  import opened PatternLanguages
  import opened MaskTokens
  import opened Masker

  // ---- what is sensitive -----------------------------------------------------------------------

  predicate LatinOrDigit(c: char) {
    '0' <= c <= '9' || 'A' <= c <= 'Z' || 'a' <= c <= 'z'
  }

  /** `sk-` and sixteen letters or digits. */
  predicate SkKeyAt(s: string, i: int) {
    OccursAt(s, "sk-", i) && i + 19 <= |s| && forall k | i + 3 <= k < i + 19 :: LatinOrDigit(s[k])
  }

  /** `ghp_` and twenty letters or digits. */
  predicate GhpKeyAt(s: string, i: int) {
    OccursAt(s, "ghp_", i) && i + 24 <= |s| && forall k | i + 4 <= k < i + 24 :: LatinOrDigit(s[k])
  }

  /** `AKIA` and sixteen capitals or digits. */
  predicate AkiaKeyAt(s: string, i: int) {
    OccursAt(s, "AKIA", i) && i + 20 <= |s|
    && forall k | i + 4 <= k < i + 20 :: 'A' <= s[k] <= 'Z' || '0' <= s[k] <= '9'
  }

  /** `xoxb-` and its kin with ten letters, digits or dashes. */
  predicate XoxKeyAt(s: string, i: int) {
    && (OccursAt(s, "xoxb-", i) || OccursAt(s, "xoxa-", i) || OccursAt(s, "xoxp-", i) || OccursAt(s, "xoxr-", i)
        || OccursAt(s, "xoxs-", i))
    && i + 15 <= |s| && forall k | i + 5 <= k < i + 15 :: LatinOrDigit(s[k]) || s[k] == '-'
  }

  /** A scheme and one character that may stand in an address. */
  predicate LinkAt(s: string, i: int) {
    || (OccursAt(s, "http://", i) && i + 7 < |s| && !Spacing(s[i+7]) && s[i+7] !in "<>()«»")
    || (OccursAt(s, "https://", i) && i + 8 < |s| && !Spacing(s[i+8]) && s[i+8] !in "<>()«»")
  }

  /** A local character, `@`, a domain, a dot and two letters. */
  predicate MailAt(s: string, at: int, dot: int) {
    && 1 <= at && at + 1 < dot && dot + 2 < |s|
    && (LatinOrDigit(s[at-1]) || s[at-1] in "._%+-") && s[at] == '@'
    && (forall k | at < k < dot :: LatinOrDigit(s[k]) || s[k] in ".-")
    && s[dot] == '.'
    && (forall k | dot < k <= dot + 2 :: 'A' <= s[k] <= 'Z' || 'a' <= s[k] <= 'z')
  }

  /** Nine or more digits and separators between two digits. */
  predicate NumberAt(s: string, i: int, j: int, digit: char -> bool) {
    && 0 <= i && i + 8 <= j < |s| && digit(s[i]) && digit(s[j])
    && forall k | i <= k <= j :: digit(s[k]) || s[k] in " ().-"
  }

  ghost predicate HoldsSecret(s: string) {
    exists i :: SkKeyAt(s, i) || GhpKeyAt(s, i) || AkiaKeyAt(s, i) || XoxKeyAt(s, i)
  }

  ghost predicate HoldsMail(s: string) {
    exists at, dot :: MailAt(s, at, dot)
  }

  ghost predicate HoldsLink(s: string) {
    exists i :: LinkAt(s, i)
  }

  ghost predicate HoldsNumber(s: string, digit: char -> bool) {
    exists i, j :: NumberAt(s, i, j, digit)
  }

  ghost predicate Sensitive(s: string, digit: char -> bool) {
    HoldsSecret(s) || HoldsMail(s) || HoldsLink(s) || HoldsNumber(s, digit)
  }

  // ---- the languages find exactly these ----------------------------------------------------------

  ghost predicate HasWord(tag: Label, s: string, digit: char -> bool) {
    exists i, j :: 0 <= i <= j <= |s| && Member(tag, s[i..j], digit)
  }

  lemma SecretFound(s: string, i: int, digit: char -> bool)
    requires SkKeyAt(s, i) || GhpKeyAt(s, i) || AkiaKeyAt(s, i) || XoxKeyAt(s, i)
    ensures HasWord(SECRET, s, digit)
  {
    var n := if SkKeyAt(s, i) then 19 else if GhpKeyAt(s, i) then 24 else if AkiaKeyAt(s, i) then 20 else 15;
    var w := s[i..i+n];
    assert forall k | 0 <= k < n :: w[k] == s[i+k];
    assert SkKeyAt(s, i) ==> w[..3] == "sk-";
    assert !SkKeyAt(s, i) && GhpKeyAt(s, i) ==> w[..4] == "ghp_";
    assert n == 20 ==> w[..4] == "AKIA";
    if n == 15 {
      var p := s[i..i+5];
      assert p[..3] == "xox" && p[3] in "baprs" && p[4] == '-';
      assert w[..3] == "xox" && w[3] == p[3] && w[4] == p[4];
    }
    assert Member(SECRET, w, digit);
  }

  lemma SecretMeans(s: string, a: int, b: int)
    requires 0 <= a <= b <= |s| && SecretWord(s[a..b])
    ensures HoldsSecret(s)
  {
    var w := s[a..b];
    if "sk-" <= w && |w| >= 19 && forall i | 3 <= i < |w| :: IsAsciiAlnum(w[i]) {
      SliceChars(s, a, b, 3);
      assert SkKeyAt(s, a);
    } else if "ghp_" <= w && |w| >= 24 && forall i | 4 <= i < |w| :: IsAsciiAlnum(w[i]) {
      SliceChars(s, a, b, 4);
      assert GhpKeyAt(s, a);
    } else if "AKIA" <= w {
      SliceChars(s, a, b, 4);
      assert AkiaKeyAt(s, a);
    } else {
      XoxMeans(s, a, b);
    }
  }

  lemma SliceChars(s: string, a: int, b: int, n: nat)
    requires 0 <= a <= b <= |s| && n <= b - a
    ensures s[a..a+n] == s[a..b][..n] && forall k | a <= k < b :: s[a..b][k-a] == s[k]
  {}

  lemma XoxMeans(s: string, a: int, b: int)
    requires 0 <= a <= b <= |s| && "xox" <= s[a..b] && b - a >= 15 && s[a..b][3] in "baprs" && s[a..b][4] == '-'
    requires forall i | 5 <= i < b - a :: IsAsciiAlnum(s[a..b][i]) || s[a..b][i] == '-'
    ensures XoxKeyAt(s, a)
  {
    SliceChars(s, a, b, 5);
    assert s[a..a+5] == "xox" + [s[a..b][3]] + "-";
  }

  lemma MailFound(s: string, at: int, dot: int, digit: char -> bool)
    requires MailAt(s, at, dot)
    ensures HasWord(EMAIL, s, digit)
  {
    var w := s[at-1..dot+3];
    assert forall k | 0 <= k < |w| :: w[k] == s[at-1+k];
    assert EmailSplit(w, 1, dot - at + 1);
    assert Member(EMAIL, w, digit);
  }

  lemma MailMeans(s: string, a: int, b: int, at: int, dot: int)
    requires 0 <= a <= b <= |s| && EmailSplit(s[a..b], at, dot)
    ensures HoldsMail(s)
  {
    var w := s[a..b];
    assert forall k | 0 <= k < |w| :: w[k] == s[a+k];
    assert EmailLocal(w[at-1]) && IsLetter(w[dot+1]) && IsLetter(w[dot+2]);
    forall k | a + at < k < a + dot ensures LatinOrDigit(s[k]) || s[k] in ".-" {
      assert EmailDomain(w[k-a]);
    }
    assert MailAt(s, a + at, a + dot);
  }

  lemma LinkFound(s: string, i: int, digit: char -> bool)
    requires LinkAt(s, i)
    ensures HasWord(URL, s, digit)
  {
    if OccursAt(s, "http://", i) && i + 7 < |s| && !Spacing(s[i+7]) && s[i+7] !in "<>()«»" {
      var w := s[i..i+8];
      WhiteIsSpacing(s[i+7]);
      assert w[..7] == "http://" && w[7] == s[i+7];
      assert Member(URL, w, digit);
    } else {
      var w := s[i..i+9];
      WhiteIsSpacing(s[i+8]);
      assert w[..8] == "https://" && w[8] == s[i+8];
      assert Member(URL, w, digit);
    }
  }

  lemma LinkMeans(s: string, a: int, b: int)
    requires 0 <= a <= b <= |s| && UrlWord(s[a..b])
    ensures HoldsLink(s)
  {
    var w := s[a..b];
    assert forall k | 0 <= k < |w| :: w[k] == s[a+k];
    if "http://" <= w && |w| > 7 && forall i | 7 <= i < |w| :: UrlChar(w[i]) {
      assert s[a..a+7] == w[..7] && UrlChar(w[7]);
      WhiteIsSpacing(w[7]);
    } else {
      assert s[a..a+8] == w[..8] && UrlChar(w[8]);
      WhiteIsSpacing(w[8]);
    }
    assert LinkAt(s, a);
  }

  lemma NumberFound(s: string, i: int, j: int, digit: char -> bool)
    requires NumberAt(s, i, j, digit)
    ensures HasWord(PHONE, s, digit)
  {
    var w := s[i..j+1];
    assert forall k | 0 <= k < |w| :: w[k] == s[i+k];
    assert Member(PHONE, w, digit);
  }

  lemma NumberMeans(s: string, a: int, b: int, digit: char -> bool)
    requires 0 <= a <= b <= |s| && PhoneWord(s[a..b], digit)
    ensures HoldsNumber(s, digit)
  {
    var w := s[a..b];
    assert forall k | 0 <= k < |w| :: w[k] == s[a+k];
    var c := if PhoneCore(w, digit) then 0 else 1;
    var core := if c == 0 then w else w[1..];
    assert forall k | 0 <= k < |core| :: core[k] == s[a+c+k] && PhoneBody(core[k], digit);
    forall k | a + c <= k <= b - 1 ensures digit(s[k]) || s[k] in " ().-" {
      assert core[k-a-c] == s[k];
    }
    assert NumberAt(s, a + c, b - 1, digit);
  }

  /** A text holds a word of a label's pattern exactly if it holds such a piece. */
  lemma WordsAreSensitive(s: string, digit: char -> bool)
    ensures HasWord(SECRET, s, digit) <==> HoldsSecret(s)
    ensures HasWord(EMAIL, s, digit) <==> HoldsMail(s)
    ensures HasWord(URL, s, digit) <==> HoldsLink(s)
    ensures HasWord(PHONE, s, digit) <==> HoldsNumber(s, digit)
  {
    SecretWords(s, digit);
    MailWords(s, digit);
    LinkWords(s, digit);
    NumberWords(s, digit);
  }

  lemma SecretWords(s: string, digit: char -> bool)
    ensures HasWord(SECRET, s, digit) <==> HoldsSecret(s)
  {
    if i :| SkKeyAt(s, i) || GhpKeyAt(s, i) || AkiaKeyAt(s, i) || XoxKeyAt(s, i) { SecretFound(s, i, digit); }
    if i, j :| 0 <= i <= j <= |s| && Member(SECRET, s[i..j], digit) { SecretMeans(s, i, j); }
  }

  lemma MailWords(s: string, digit: char -> bool)
    ensures HasWord(EMAIL, s, digit) <==> HoldsMail(s)
  {
    if at, dot :| MailAt(s, at, dot) { MailFound(s, at, dot, digit); }
    if i, j :| 0 <= i <= j <= |s| && Member(EMAIL, s[i..j], digit) {
      var at, dot :| EmailSplit(s[i..j], at, dot);
      MailMeans(s, i, j, at, dot);
    }
  }

  lemma LinkWords(s: string, digit: char -> bool)
    ensures HasWord(URL, s, digit) <==> HoldsLink(s)
  {
    if i :| LinkAt(s, i) { LinkFound(s, i, digit); }
    if i, j :| 0 <= i <= j <= |s| && Member(URL, s[i..j], digit) { LinkMeans(s, i, j); }
  }

  lemma NumberWords(s: string, digit: char -> bool)
    ensures HasWord(PHONE, s, digit) <==> HoldsNumber(s, digit)
  {
    if i, j :| NumberAt(s, i, j, digit) { NumberFound(s, i, j, digit); }
    if i, j :| 0 <= i <= j <= |s| && Member(PHONE, s[i..j], digit) { NumberMeans(s, i, j, digit); }
  }

  lemma NoWordIff(e: Engine, tag: Label, s: string, digit: char -> bool)
    requires Standard(e, digit)
    ensures NoWord(e, tag, s) <==> !HasWord(tag, s, digit)
  {
    forall i, j | 0 <= i <= j <= |s| ensures e.language(tag, s[i..j]) <==> Member(tag, s[i..j], digit) {}
  }

  lemma CleanIff(e: Engine, s: string, digit: char -> bool)
    requires Standard(e, digit)
    ensures Wordless(e, s) <==> !Sensitive(s, digit)
  {
    WordsAreSensitive(s, digit);
    forall tag: Label ensures NoWord(e, tag, s) <==> !HasWord(tag, s, digit) { NoWordIff(e, tag, s, digit); }
    if NoWord(e, SECRET, s) && NoWord(e, EMAIL, s) && NoWord(e, URL, s) && NoWord(e, PHONE, s) {
      forall tag: Label ensures NoWord(e, tag, s) {
        match tag case SECRET => case EMAIL => case URL => case PHONE =>
      }
    }
  }

  // ---- what masking does ----------------------------------------------------------------------------

  /** No API key, address, link or number is left in a masked text. */
  lemma NothingSensitiveIsLeft(e: Engine, digit: char -> bool, text: string, masked: string, entries: seq<Entry>)
    requires Standard(e, digit) && MaskResult(e, text, masked, entries)
    ensures !Sensitive(masked, digit)
  {
    CleanIff(e, masked, digit);
  }

  /** And a text without any is sent as it is: masking changes exactly the sensitive texts. */
  lemma MaskedIffSensitive(e: Engine, digit: char -> bool, text: string, masked: string, entries: seq<Entry>)
    requires Standard(e, digit) && MaskResult(e, text, masked, entries)
    ensures masked != text <==> Sensitive(text, digit)
    ensures entries == [] <==> !Sensitive(text, digit)
  {
    CleanIff(e, masked, digit);
    CleanIff(e, text, digit);
    if entries == [] { NoEntriesNoChange(e, text, masked); }
  }

  lemma NoEntriesNoChange(e: Engine, text: string, masked: string)
    requires MaskResult(e, text, masked, [])
    ensures masked == text
  {
    var ts :| Explains(ts, [], text, masked);
    NoHolesNoChange(ts);
  }

  /** What a placeholder stands for is of the kind it names. */
  lemma PlaceholdersNameTheKind(e: Engine, digit: char -> bool, text: string, masked: string, entries: seq<Entry>,
                                k: nat)
    requires Standard(e, digit) && MaskResult(e, text, masked, entries) && k < |entries|
    ensures var p, o := entries[k].0, entries[k].1;
      || (Opening(SECRET) <= p && HoldsSecret(o)) || (Opening(EMAIL) <= p && HoldsMail(o))
      || (Opening(URL) <= p && HoldsLink(o)) || (Opening(PHONE) <= p && HoldsNumber(o, digit))
  {
    StandardIsSound(e, digit);
    var tags :| Numbered(e, entries, tags) && FirstTags(e, text) <= tags;
    var n := EntryAt(e, entries, tags, k);
    var o := entries[k].1;
    assert o[0..|o|] == o && Member(tags[k], o[0..|o|], digit);
    WordsAreSensitive(o, digit);
    PlaceholderReads(tags[k], n);
  }

  // ---- what a placeholder looks like ------------------------------------------------------------------

  /** The number a row of decimal digits stands for. */
  function Value(s: string): nat
    requires forall i | 0 <= i < |s| :: '0' <= s[i] <= '9'
  {
    if s == [] then 0 else 10 * Value(s[..|s|-1]) + (s[|s|-1] as int - '0' as int)
  }

  lemma {:induction false} DigitsValue(n: nat)
    ensures Digits(n) != [] && (forall i | 0 <= i < |Digits(n)| :: '0' <= Digits(n)[i] <= '9') && Value(Digits(n)) == n
    ensures n > 0 ==> Digits(n)[0] != '0'
  {
    if n >= 10 {
      DigitsValue(n / 10);
      var d := Digits(n);
      assert d[..|d|-1] == Digits(n / 10);
    } else {
      assert Digits(n)[..0] == [];
    }
  }

  /** How a label opens its placeholders. */
  function Opening(tag: Label): string {
    match tag
    case SECRET => "«SECRET_"
    case EMAIL => "«EMAIL_"
    case URL => "«URL_"
    case PHONE => "«PHONE_"
  }

  /** A placeholder is a label and a decimal number without leading zeros, in guillemets. */
  lemma PlaceholderReads(tag: Label, n: nat)
    ensures Opening(tag) <= Placeholder(tag, n)
    ensures exists number: string ::
      && number != [] && (forall i | 0 <= i < |number| :: '0' <= number[i] <= '9') && Value(number) == n
      && (n > 0 ==> number[0] != '0') && Placeholder(tag, n) == Opening(tag) + number + "»"
  {
    DigitsValue(n);
    OpeningSpelled(tag);
    Quoted(OPEN_QUOTE, Name(tag), Digits(n), CLOSE_QUOTE);
  }

  lemma OpeningSpelled(tag: Label)
    ensures Opening(tag) == [OPEN_QUOTE] + Name(tag) + "_" && "»" == [CLOSE_QUOTE]
  {}

  lemma Quoted(a: char, name: string, number: string, b: char)
    ensures [a] + (name + "_" + number) + [b] == ([a] + name + "_") + number + [b]
  {}

  // ---- the words in full --------------------------------------------------------------------------------

  ghost predicate AllLatinOrDigit(t: string) {
    forall c | c in t :: LatinOrDigit(c)
  }

  /** An API key is one of four prefixes and then letters or digits: at least sixteen, at least
      twenty, exactly sixteen capitals or digits, or at least ten with dashes. */
  ghost predicate IsKey(w: string, t: string) {
    || (w == "sk-" + t && |t| >= 16 && AllLatinOrDigit(t))
    || (w == "ghp_" + t && |t| >= 20 && AllLatinOrDigit(t))
    || (w == "AKIA" + t && |t| == 16 && forall c | c in t :: 'A' <= c <= 'Z' || '0' <= c <= '9')
    || (|t| >= 10 && (w == "xoxb-" + t || w == "xoxa-" + t || w == "xoxp-" + t || w == "xoxr-" + t || w == "xoxs-" + t)
        && forall c | c in t :: LatinOrDigit(c) || c == '-')
  }

  lemma CharsOfTail(w: string, k: nat)
    requires k <= |w|
    ensures w == w[..k] + w[k..]
    ensures forall i | k <= i < |w| :: w[i] in w[k..]
    ensures forall c | c in w[k..] :: exists i :: k <= i < |w| && w[i] == c
  {
    forall i | k <= i < |w| ensures w[i] in w[k..] { assert w[k..][i-k] == w[i]; }
    forall c | c in w[k..] ensures exists i :: k <= i < |w| && w[i] == c {
      var j :| 0 <= j < |w[k..]| && w[k..][j] == c;
      assert w[k+j] == c;
    }
  }

  lemma KeysSpelled(w: string, digit: char -> bool)
    ensures Member(SECRET, w, digit) <==> exists t :: IsKey(w, t)
  {
    if SecretWord(w) { KeyHasTail(w); }
    if t :| IsKey(w, t) { KeyIsWord(w, t); }
  }

  lemma KeyHasTail(w: string)
    requires SecretWord(w)
    ensures exists t :: IsKey(w, t)
  {
    if "sk-" <= w && |w| >= 19 && forall i | 3 <= i < |w| :: IsAsciiAlnum(w[i]) {
      PlainTail(w, 3);
      assert IsKey(w, w[3..]);
    } else if "ghp_" <= w && |w| >= 24 && forall i | 4 <= i < |w| :: IsAsciiAlnum(w[i]) {
      PlainTail(w, 4);
      assert IsKey(w, w[4..]);
    } else if "AKIA" <= w {
      AkiaHasTail(w);
    } else {
      XoxHasTail(w);
    }
  }

  lemma PlainTail(w: string, k: nat)
    requires k <= |w| && forall i | k <= i < |w| :: IsAsciiAlnum(w[i])
    ensures w == w[..k] + w[k..] && AllLatinOrDigit(w[k..])
  {
    CharsOfTail(w, k);
  }

  lemma AkiaHasTail(w: string)
    requires "AKIA" <= w && |w| == 20 && forall i | 4 <= i < |w| :: IsAsciiDigit(w[i]) || 'A' <= w[i] <= 'Z'
    ensures IsKey(w, w[4..])
  {
    CharsOfTail(w, 4);
  }

  lemma XoxHasTail(w: string)
    requires "xox" <= w && |w| >= 15 && w[3] in "baprs" && w[4] == '-'
    requires forall i | 5 <= i < |w| :: IsAsciiAlnum(w[i]) || w[i] == '-'
    ensures IsKey(w, w[5..])
  {
    CharsOfTail(w, 5);
    assert w[..5] == "xox" + [w[3]] + "-";
  }

  lemma KeyIsWord(w: string, t: string)
    requires IsKey(w, t)
    ensures SecretWord(w)
  {
    var k := |w| - |t|;
    assert forall i | k <= i < |w| :: w[i] == t[i-k] && t[i-k] in t;
  }

  /** An address is a local part, a domain and a top-level domain of two or more letters. */
  ghost predicate IsMail(w: string, local: string, domain: string, top: string) {
    && w == local + "@" + domain + "." + top && |local| >= 1 && |domain| >= 1 && |top| >= 2
    && (forall c | c in local :: LatinOrDigit(c) || c in "._%+-")
    && (forall c | c in domain :: LatinOrDigit(c) || c in ".-")
    && (forall c | c in top :: 'A' <= c <= 'Z' || 'a' <= c <= 'z')
  }

  lemma MailsSpelled(w: string, digit: char -> bool)
    ensures Member(EMAIL, w, digit) <==> exists local, domain, top :: IsMail(w, local, domain, top)
  {
    if at, dot :| EmailSplit(w, at, dot) { MailHasParts(w, at, dot); }
    if local, domain, top :| IsMail(w, local, domain, top) { MailIsWord(w, local, domain, top); }
  }

  lemma MailHasParts(w: string, at: int, dot: int)
    requires EmailSplit(w, at, dot)
    ensures IsMail(w, w[..at], w[at+1..dot], w[dot+1..])
  {
    var local, domain, top := w[..at], w[at+1..dot], w[dot+1..];
    assert w == local + "@" + domain + "." + top;
    forall c | c in local ensures LatinOrDigit(c) || c in "._%+-" {
      var i :| 0 <= i < at && w[i] == c;
      assert EmailLocal(w[i]);
    }
    forall c | c in domain ensures LatinOrDigit(c) || c in ".-" {
      var i :| 0 <= i < |domain| && domain[i] == c;
      assert EmailDomain(w[at+1+i]);
    }
    CharsOfTail(w, dot + 1);
  }

  lemma MailIsWord(w: string, local: string, domain: string, top: string)
    requires IsMail(w, local, domain, top)
    ensures EmailSplit(w, |local|, |local| + 1 + |domain|)
  {
    var at, dot := |local|, |local| + 1 + |domain|;
    forall i | 0 <= i < at ensures EmailLocal(w[i]) { assert w[i] == local[i] && local[i] in local; }
    forall i | at < i < dot ensures EmailDomain(w[i]) { assert w[i] == domain[i-at-1] && domain[i-at-1] in domain; }
    forall i | dot < i < |w| ensures IsLetter(w[i]) { assert w[i] == top[i-dot-1] && top[i-dot-1] in top; }
  }

  /** A link is a scheme and at least one character that is neither spacing nor a bracket. */
  ghost predicate IsLink(w: string, t: string) {
    && (w == "http://" + t || w == "https://" + t) && |t| >= 1
    && forall c | c in t :: !Spacing(c) && c !in "<>()«»"
  }

  lemma LinksSpelled(w: string, digit: char -> bool)
    ensures Member(URL, w, digit) <==> exists t :: IsLink(w, t)
  {
    if UrlWord(w) { LinkHasTail(w); }
    if t :| IsLink(w, t) { LinkIsWord(w, t); }
  }

  lemma UrlCharMeans(c: char)
    ensures UrlChar(c) <==> !Spacing(c) && c !in "<>()«»"
  {
    WhiteIsSpacing(c);
  }

  lemma LinkHasTail(w: string)
    requires UrlWord(w)
    ensures exists t :: IsLink(w, t)
  {
    var k := if "http://" <= w && |w| > 7 && forall i | 7 <= i < |w| :: UrlChar(w[i]) then 7 else 8;
    CharsOfTail(w, k);
    forall c | c in w[k..] ensures !Spacing(c) && c !in "<>()«»" { UrlCharMeans(c); }
    assert IsLink(w, w[k..]);
  }

  lemma LinkIsWord(w: string, t: string)
    requires IsLink(w, t)
    ensures UrlWord(w)
  {
    var k := |w| - |t|;
    forall i | k <= i < |w| ensures UrlChar(w[i]) {
      assert w[i] == t[i-k] && t[i-k] in t;
      UrlCharMeans(w[i]);
    }
  }

  /** A number is nine or more digits and separators between two digits, perhaps with a plus. */
  ghost predicate IsNumber(w: string, core: string, digit: char -> bool) {
    && (w == core || w == "+" + core) && |core| >= 9 && digit(core[0]) && digit(core[|core|-1])
    && forall c | c in core :: digit(c) || c in " ().-"
  }

  lemma NumbersSpelled(w: string, digit: char -> bool)
    ensures Member(PHONE, w, digit) <==> exists core :: IsNumber(w, core, digit)
  {
    forall core: string ensures PhoneCore(core, digit) <==> IsNumber(core, core, digit) {
      assert forall i | 0 <= i < |core| :: core[i] in core;
    }
    if PhoneWord(w, digit) {
      if PhoneCore(w, digit) {
        assert IsNumber(w, w, digit);
      } else {
        assert w == "+" + w[1..] && IsNumber(w[1..], w[1..], digit);
        assert IsNumber(w, w[1..], digit);
      }
    }
    if core :| IsNumber(w, core, digit) {
      assert IsNumber(core, core, digit);
      assert w == "+" + core ==> w[1..] == core;
    }
  }

  // ---- what becomes of a text -----------------------------------------------------------------------------

  /** The masked text and its map are determined by the text. */
  lemma MaskingIsDetermined(e: Engine, text: string, n: nat, masked: string, entries: seq<Entry>, n': nat,
                            masked': string, entries': seq<Entry>)
    requires ComesTo(e, text, n, masked, entries) && Wordless(e, masked)
    requires ComesTo(e, text, n', masked', entries') && Wordless(e, masked')
    ensures masked == masked' && entries == entries'
  {
    assert !FindsMore(e, text, n) && !FindsMore(e, text, n');
    assert n < n' ==> FindsMore(e, text, n);
    assert n' < n ==> FindsMore(e, text, n');
  }

  /** The text holds one word of this label, from `a` to `b`, and whatever else is a word of it
      lies inside. */
  ghost predicate OnlyWord(e: Engine, text: string, a: nat, b: nat, tag: Label) {
    && a < b <= |text| && e.language(tag, text[a..b])
    && forall t, i, j | 0 <= i < j <= |text| && e.language(t, text[i..j]) :: Within(t, i, j, a, b, tag)
  }

  predicate Within(t: Label, i: int, j: int, a: nat, b: nat, tag: Label) {
    a <= i && j <= b && (i == a && j == b ==> t == tag)
  }

  lemma OnlyWordIsReported(e: Engine, digit: char -> bool, text: string, a: nat, b: nat, tag: Label)
    requires Standard(e, digit) && OnlyWord(e, text, a, b, tag)
    ensures Found(a, b, tag) in e.scan(tag, text)
  {
    var word := LanguageOf(e, tag);
    FindIterMeans(word, tag, text, 0);
    assert word(text[a..b]);
    var f :| f in e.scan(tag, text) && f.start <= a < f.end;
    assert LongestWord(word, tag, text, f);
    assert e.language(tag, text[f.start..f.end]) && Within(tag, f.start, f.end, a, b, tag);
    assert !(f.end < b);
    assert f == Found(a, b, tag);
  }

  lemma OnlyWordIsChosen(e: Engine, digit: char -> bool, text: string, a: nat, b: nat, tag: Label)
    requires Standard(e, digit) && OnlyWord(e, text, a, b, tag)
    ensures MatchesOf(e, text) == [Found(a, b, tag)]
  {
    StandardIsSound(e, digit);
    MatchesOfText(e, text);
    OnlyWordIsReported(e, digit, text, a, b, tag);
    var ms, f := MatchesOf(e, text), Found(a, b, tag);
    assert f in RawMatches(e, text);
    var c :| c in ms && GivesWayTo(f, c);
    forall m | m in ms ensures a <= m.start < m.end <= b && (m.start == a && m.end == b ==> m.tag == tag) {
      assert RangeOk(e, text, m);
      assert Within(m.tag, m.start, m.end, a, b, tag);
    }
    assert c == f;
    ChainAround(ms, 0, f);
  }

  /** A chain inside of one of its links is that link. */
  lemma ChainAround(ms: seq<Found>, from: nat, f: Found)
    requires Chain(ms, from) && f in ms
    requires forall i | 0 <= i < |ms| :: f.start <= ms[i].start < ms[i].end <= f.end
    ensures ms == [f]
  {
    var k :| 0 <= k < |ms| && ms[k] == f;
    ChainApart(ms, from);
  }

  lemma {:induction false} ChainApart(ms: seq<Found>, from: nat)
    requires Chain(ms, from)
    ensures forall j | 0 <= j < |ms| :: from <= ms[j].start
    ensures forall i, j | 0 <= i < j < |ms| :: ms[i].end <= ms[j].start
    ensures |ms| > 1 ==> ms[0].end <= ms[1].start
  {
    if ms != [] {
      ChainApart(ms[1..], ms[0].end);
      assert ms == [ms[0]] + ms[1..];
    }
  }

  /** The text with the word between `a` and `b` swapped for the first placeholder of its label. */
  function SwappedOnce(text: string, a: nat, b: nat, tag: Label): string
    requires a <= b <= |text|
  {
    text[..a] + Placeholder(tag, 1) + text[b..]
  }

  /** A word without guillemets in such a text lies before the placeholder, inside of it, or
      behind it. */
  lemma WordBesidePlaceholder(text: string, a: nat, b: nat, tag: Label, i: nat, j: nat)
    requires a <= b <= |text| && i < j <= |SwappedOnce(text, a, b, tag)|
    ensures var w, ph := SwappedOnce(text, a, b, tag)[i..j], Placeholder(tag, 1);
      || OPEN_QUOTE in w || CLOSE_QUOTE in w
      || (j <= a && w == text[i..j])
      || (a < i && OccursAt(Interior(tag, 1), w, i - a - 1))
      || (i >= a + |ph| && w == text[b + i - a - |ph|..b + j - a - |ph|])
  {
    if j <= a {
      WordBefore(text, a, b, tag, i, j);
    } else if i >= a + |Placeholder(tag, 1)| {
      WordBehind(text, a, b, tag, i, j);
    } else if a < i && j < a + |Placeholder(tag, 1)| {
      WordInside(text, a, b, tag, i, j);
    } else {
      WordAcross(text, a, b, tag, i, j);
    }
  }

  lemma WordBefore(text: string, a: nat, b: nat, tag: Label, i: nat, j: nat)
    requires a <= b <= |text| && i < j <= a
    ensures SwappedOnce(text, a, b, tag)[i..j] == text[i..j]
  {}

  lemma WordBehind(text: string, a: nat, b: nat, tag: Label, i: nat, j: nat)
    requires a <= b <= |text| && i < j <= |SwappedOnce(text, a, b, tag)| && i >= a + |Placeholder(tag, 1)|
    ensures var n := a + |Placeholder(tag, 1)|; SwappedOnce(text, a, b, tag)[i..j] == text[b + i - n..b + j - n]
  {}

  lemma WordInside(text: string, a: nat, b: nat, tag: Label, i: nat, j: nat)
    requires a <= b <= |text| && a < i < j < a + |Placeholder(tag, 1)|
    ensures OccursAt(Interior(tag, 1), SwappedOnce(text, a, b, tag)[i..j], i - a - 1)
  {
    assert Interior(tag, 1)[i-a-1..j-a-1] == SwappedOnce(text, a, b, tag)[i..j];
  }

  lemma WordAcross(text: string, a: nat, b: nat, tag: Label, i: nat, j: nat)
    requires a <= b <= |text| && i < j <= |SwappedOnce(text, a, b, tag)|
    requires i <= a < j || i < a + |Placeholder(tag, 1)| <= j
    ensures var w := SwappedOnce(text, a, b, tag)[i..j]; OPEN_QUOTE in w || CLOSE_QUOTE in w
  {
    var s, n := SwappedOnce(text, a, b, tag), a + |Placeholder(tag, 1)|;
    assert s[a] == OPEN_QUOTE && s[n-1] == CLOSE_QUOTE;
    if i <= a < j {
      assert s[i..j][a-i] == s[a];
    } else {
      assert s[i..j][n-1-i] == s[n-1];
    }
  }

  lemma NothingLeftOfOnlyWord(e: Engine, digit: char -> bool, text: string, a: nat, b: nat, tag: Label)
    requires Standard(e, digit) && OnlyWord(e, text, a, b, tag)
    ensures Wordless(e, SwappedOnce(text, a, b, tag))
  {
    var s := SwappedOnce(text, a, b, tag);
    forall t: Label, i, j | 0 <= i <= j <= |s| ensures !e.language(t, s[i..j]) {
      NoWordBeside(e, digit, text, a, b, tag, t, i, j);
    }
  }

  lemma NoWordBeside(e: Engine, digit: char -> bool, text: string, a: nat, b: nat, tag: Label, t: Label, i: nat, j: nat)
    requires Standard(e, digit) && OnlyWord(e, text, a, b, tag) && i <= j <= |SwappedOnce(text, a, b, tag)|
    ensures !e.language(t, SwappedOnce(text, a, b, tag)[i..j])
  {
    var w := SwappedOnce(text, a, b, tag)[i..j];
    if e.language(t, w) {
      MemberForeign(t, w, digit);
      WordBesidePlaceholder(text, a, b, tag, i, j);
      assert false;
    }
  }

  /** A text's only word is swapped, whole, for placeholder number one of its label; the rest
      is left alone, and the map holds just this. */
  lemma OnlyWordIsSwapped(e: Engine, digit: char -> bool, text: string, a: nat, b: nat, tag: Label, passes: nat,
                          masked: string, entries: seq<Entry>)
    requires Standard(e, digit) && OnlyWord(e, text, a, b, tag)
    requires Wordless(e, masked) && ComesTo(e, text, passes, masked, entries)
    ensures masked == text[..a] + Placeholder(tag, 1) + text[b..]
    ensures entries == [(Placeholder(tag, 1), text[a..b])]
  {
    NothingLeftOfOnlyWord(e, digit, text, a, b, tag);
    AfterFirstPass(e, digit, text, a, b, tag);
    assert !NoWord(e, tag, text);
    assert !Wordless(e, text);
    assert AfterPasses(e, text, 0).0 == text;
    assert !FindsMore(e, text, 1);
    assert passes == 1;
  }

  lemma AfterFirstPass(e: Engine, digit: char -> bool, text: string, a: nat, b: nat, tag: Label)
    requires Standard(e, digit) && OnlyWord(e, text, a, b, tag)
    ensures AfterPasses(e, text, 1).0 == SwappedOnce(text, a, b, tag)
    ensures AfterPasses(e, text, 1).1.entries == [(Placeholder(tag, 1), text[a..b])]
  {
    OnlyWordIsChosen(e, digit, text, a, b, tag);
    var st := MaskState([], map[], map[]);
    assert AfterPasses(e, text, 0) == (text, st);
    OneSwap(st, text, a, b, tag);
    assert AfterPass(e, text, st).0 == SwappedOnce(text, a, b, tag);
  }

  lemma OneSwap(st: MaskState, text: string, a: nat, b: nat, tag: Label)
    requires st == MaskState([], map[], map[]) && a < b <= |text|
    ensures var ms := [Found(a, b, tag)];
      && Swapped(st, text, ms) + Between(text, EndOf(ms), |text|) == SwappedOnce(text, a, b, tag)
      && LearnedAll(st, text, ms).entries == [(Placeholder(tag, 1), text[a..b])]
  {
    var ms := [Found(a, b, tag)];
    OneLearned(st, text, a, b, tag);
    assert ms[..0] == [] && Swapped(st, text, []) == "" && EndOf([]) == 0;
    assert Swapped(st, text, ms) == text[..a] + Placeholder(tag, 1);
    assert Between(text, b, |text|) == text[b..];
  }

  lemma OneLearned(st: MaskState, text: string, a: nat, b: nat, tag: Label)
    requires st == MaskState([], map[], map[]) && a < b <= |text|
    ensures var st' := LearnedAll(st, text, [Found(a, b, tag)]);
      && st'.entries == [(Placeholder(tag, 1), text[a..b])]
      && text[a..b] in st'.given && st'.given[text[a..b]] == Placeholder(tag, 1)
  {
    var ms := [Found(a, b, tag)];
    assert ms[..0] == [] && LearnedAll(st, text, []) == st;
    assert LearnedAll(st, text, ms) == Learned(st, text[a..b], tag);
  }

  /** Texts of the kind of "key sk-ABCDEFGHIJKLMNOP": a key behind letters and spaces that start
      no other word. */
  const KeyText := "key sk-ABCDEFGHIJKLMNOP"

  lemma KeyTextSplits()
    ensures |KeyText| == 23 && KeyText[4..23] == "sk-" + "ABCDEFGHIJKLMNOP"
    ensures KeyText[4..23] == "sk-ABCDEFGHIJKLMNOP" && Placeholder(SECRET, 1) == "«SECRET_1»"
    ensures KeyText[..4] + Placeholder(SECRET, 1) + KeyText[23..] == "key «SECRET_1»"
  {
    assert Digits(1) == "1";
  }

  lemma KeyTextIsPlain()
    ensures '@' !in KeyText && ':' !in KeyText && forall i | 0 <= i < 4 :: KeyText[i] !in "sgAx"
  {}

  lemma KeyTextIsKey()
    ensures SecretWord("sk-" + "ABCDEFGHIJKLMNOP")
  {
    var t := "ABCDEFGHIJKLMNOP";
    assert forall c | c in t :: LatinOrDigit(c);
    KeyIsWord("sk-" + t, t);
  }

  /** Without `@`, colon or digit a text has keys only, and these start with one of four
      letters. */
  lemma OnlyKeysIn(text: string, digit: char -> bool, t: Label, i: nat, j: nat)
    requires i < j <= |text| && Member(t, text[i..j], digit)
    requires '@' !in text && ':' !in text && forall c | c in text :: !digit(c)
    ensures t == SECRET && text[i] in "sgAx"
  {
    var w := text[i..j];
    assert w[0] == text[i] && forall c | c in w :: c in text;
    match t
    case SECRET => KeyStarts(w);
    case EMAIL => MailHasAt(w);
    case URL => LinkHasColon(w);
    case PHONE => NumberHasDigit(w, digit);
  }

  lemma MailHasAt(w: string)
    requires EmailWord(w)
    ensures '@' in w
  {}

  lemma NumberHasDigit(w: string, digit: char -> bool)
    requires PhoneWord(w, digit)
    ensures exists c :: c in w && digit(c)
  {
    assert digit(w[0]) || digit(w[1]);
  }

  lemma KeyStarts(w: string)
    requires SecretWord(w)
    ensures w[0] in "sgAx"
  {}

  lemma LinkHasColon(w: string)
    requires UrlWord(w)
    ensures ':' in w
  {
    assert "http://" <= w ==> w[4] == ':';
    assert "https://" <= w ==> w[5] == ':';
  }

  /** The key in "key sk-ABCDEFGHIJKLMNOP" is handed out as "key «SECRET_1»". */
  lemma KeyIsSwapped(e: Engine, digit: char -> bool, passes: nat, masked: string, entries: seq<Entry>)
    requires Standard(e, digit) && forall c | c in KeyText :: !digit(c)
    requires Wordless(e, masked) && ComesTo(e, KeyText, passes, masked, entries)
    ensures masked == "key «SECRET_1»" && entries == [("«SECRET_1»", "sk-ABCDEFGHIJKLMNOP")]
  {
    KeyTextSplits();
    KeyTextIsKey();
    KeyTextIsPlain();
    forall t, i, j | 0 <= i < j <= |KeyText| && e.language(t, KeyText[i..j]) ensures Within(t, i, j, 4, 23, SECRET) {
      OnlyKeysIn(KeyText, digit, t, i, j);
    }
    OnlyWordIsSwapped(e, digit, KeyText, 4, 23, SECRET, passes, masked, entries);
  }
}
