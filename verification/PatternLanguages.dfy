/** The four identifier languages of `llm/masker.rs`, as membership predicates on
    whole words, and the placeholders that stand in for matched words. */
module PatternLanguages {
  import opened Texts

  const OPEN_QUOTE: char := '\U{00AB}'
  const CLOSE_QUOTE: char := '\U{00BB}'

  /** A counter of nine digits is itself a phone number. */
  const REMATCH_LIMIT: nat := 100_000_000

  datatype Label = SECRET | EMAIL | URL | PHONE

  function Name(tag: Label): string {
    match tag
    case SECRET => "SECRET"
    case EMAIL => "EMAIL"
    case URL => "URL"
    case PHONE => "PHONE"
  }

  // ---- the languages -----------------------------------------------------------

  /** `sk-[A-Za-z0-9]{16,}|ghp_[A-Za-z0-9]{20,}|AKIA[0-9A-Z]{16}|xox[baprs]-[A-Za-z0-9-]{10,}` */
  predicate SecretWord(w: string) {
    || ("sk-" <= w && |w| >= 19 && forall i | 3 <= i < |w| :: IsAsciiAlnum(w[i]))
    || ("ghp_" <= w && |w| >= 24 && forall i | 4 <= i < |w| :: IsAsciiAlnum(w[i]))
    || ("AKIA" <= w && |w| == 20 && forall i | 4 <= i < |w| :: IsAsciiDigit(w[i]) || 'A' <= w[i] <= 'Z')
    || ("xox" <= w && |w| >= 15 && w[3] in "baprs" && w[4] == '-'
        && forall i | 5 <= i < |w| :: IsAsciiAlnum(w[i]) || w[i] == '-')
  }

  predicate EmailLocal(c: char) { IsAsciiAlnum(c) || c in "._%+-" }

  predicate EmailDomain(c: char) { IsAsciiAlnum(c) || c in ".-" }

  /** `[A-Za-z0-9._%+\-]+@[A-Za-z0-9.\-]+\.[A-Za-z]{2,}`, split at the `@` and at the last dot. */
  predicate EmailSplit(w: string, at: int, dot: int) {
    && 0 < at && at + 1 < dot && dot + 2 < |w|
    && w[at] == '@' && w[dot] == '.'
    && (forall i | 0 <= i < at :: EmailLocal(w[i]))
    && (forall i | at < i < dot :: EmailDomain(w[i]))
    && (forall i | dot < i < |w| :: IsLetter(w[i]))
  }

  predicate EmailWord(w: string) {
    exists at, dot | 0 <= at < |w| && 0 <= dot < |w| :: EmailSplit(w, at, dot)
  }

  predicate UrlChar(c: char) {
    !IsWhite(c) && c !in "<>()" && c != OPEN_QUOTE && c != CLOSE_QUOTE
  }

  /** `https?://[^\s<>()«»]+` */
  predicate UrlWord(w: string) {
    || ("http://" <= w && |w| > 7 && forall i | 7 <= i < |w| :: UrlChar(w[i]))
    || ("https://" <= w && |w| > 8 && forall i | 8 <= i < |w| :: UrlChar(w[i]))
  }

  predicate PhoneBody(c: char, digit: char -> bool) { digit(c) || c in " ().-" }

  /** `\d(?:[\d ().\-]{7,})\d` */
  predicate PhoneCore(w: string, digit: char -> bool) {
    && |w| >= 9 && digit(w[0]) && digit(w[|w|-1])
    && forall i | 0 <= i < |w| :: PhoneBody(w[i], digit)
  }

  /** `\+?\d(?:[\d ().\-]{7,})\d` */
  predicate PhoneWord(w: string, digit: char -> bool) {
    PhoneCore(w, digit) || (w != [] && w[0] == '+' && PhoneCore(w[1..], digit))
  }

  /** `digit` is the table behind `\d` (Unicode Nd). */
  predicate Member(tag: Label, w: string, digit: char -> bool) {
    match tag
    case SECRET => SecretWord(w)
    case EMAIL => EmailWord(w)
    case URL => UrlWord(w)
    case PHONE => PhoneWord(w, digit)
  }

  /** All that is assumed of the digit table. */
  ghost predicate DigitTable(digit: char -> bool) {
    && (forall c | IsAsciiDigit(c) :: digit(c))
    && (forall c | 'A' <= c <= 'Z' || c == '_' || c == OPEN_QUOTE || c == CLOSE_QUOTE :: !digit(c))
  }

  ghost predicate NoQuotes(s: string) {
    OPEN_QUOTE !in s && CLOSE_QUOTE !in s
  }

  /** Text in which no substring belongs to any of the languages. */
  ghost predicate Clean(text: string, digit: char -> bool) {
    forall tag, i, j | 0 <= i <= j <= |text| :: !Member(tag, text[i..j], digit)
  }

  lemma EmailShape(w: string, at: int, dot: int)
    requires EmailSplit(w, at, dot)
    ensures NoQuotes(w)
  {
    forall i | 0 <= i < |w| ensures w[i] != OPEN_QUOTE && w[i] != CLOSE_QUOTE {
      if i < at {
        assert EmailLocal(w[i]);
      } else if at < i < dot {
        assert EmailDomain(w[i]);
      }
    }
  }

  lemma MemberShape(tag: Label, w: string, digit: char -> bool)
    requires Member(tag, w, digit) && DigitTable(digit)
    ensures w != [] && NoQuotes(w)
  {
    match tag
    case SECRET =>
    case EMAIL =>
      var at, dot :| EmailSplit(w, at, dot);
      EmailShape(w, at, dot);
    case URL =>
      forall i | 0 <= i < |w| ensures w[i] != OPEN_QUOTE && w[i] != CLOSE_QUOTE {
        assert i < 8 || UrlChar(w[i]);
      }
    case PHONE =>
      var core := if PhoneCore(w, digit) then w else w[1..];
      assert forall i | 0 <= i < |core| :: PhoneBody(core[i], digit);
      assert forall i | 0 <= i < |w| :: w[i] == '+' || PhoneBody(w[i], digit);
  }

  // ---- decimal counters ----------------------------------------------------------

  function DigitChar(d: nat): char
    requires d < 10
  {
    ('0' as int + d) as char
  }

  function Digits(n: nat): string {
    if n < 10 then [DigitChar(n)] else Digits(n / 10) + [DigitChar(n % 10)]
  }

  function Pow10(k: nat): nat {
    if k == 0 then 1 else 10 * Pow10(k - 1)
  }

  lemma {:induction false} DigitsAreDigits(n: nat)
    ensures Digits(n) != [] && forall i | 0 <= i < |Digits(n)| :: IsAsciiDigit(Digits(n)[i])
  {
    if n >= 10 { DigitsAreDigits(n / 10); }
  }

  lemma {:induction false} DigitsLength(n: nat, k: nat)
    requires k >= 1
    ensures |Digits(n)| <= k <==> n < Pow10(k)
  {
    if n < 10 {
      assert Pow10(1) == 10;
      Pow10Grows(1, k);
    } else if k == 1 {
      assert Pow10(1) == 10;
      DigitsAreDigits(n / 10);
    } else {
      DigitsLength(n / 10, k - 1);
    }
  }

  lemma {:induction false} Pow10Grows(j: nat, k: nat)
    requires j <= k
    ensures Pow10(j) <= Pow10(k)
  {
    if j < k { Pow10Grows(j, k - 1); }
  }

  lemma {:induction false} DigitsInjective(a: nat, b: nat)
    requires Digits(a) == Digits(b)
    ensures a == b
  {
    DigitsAreDigits(a / 10);
    DigitsAreDigits(b / 10);
    var da, db := Digits(a), Digits(b);
    assert da[|da|-1] == DigitChar(a % 10) && db[|db|-1] == DigitChar(b % 10);
    assert a % 10 == b % 10;
    if a >= 10 {
      assert b >= 10;
      assert da[..|da|-1] == Digits(a / 10) && db[..|db|-1] == Digits(b / 10);
      DigitsInjective(a / 10, b / 10);
    }
  }

  lemma EightDigits(n: nat)
    ensures |Digits(n)| <= 8 <==> n < REMATCH_LIMIT
  {
    assert Pow10(8) == REMATCH_LIMIT by {
      assert Pow10(4) == 10_000;
      assert Pow10(6) == 1_000_000;
    }
    DigitsLength(n, 8);
  }

  // ---- placeholders --------------------------------------------------------------

  function Interior(tag: Label, n: nat): string {
    Name(tag) + "_" + Digits(n)
  }

  /** `«LABEL_n»` */
  function Placeholder(tag: Label, n: nat): string {
    [OPEN_QUOTE] + Interior(tag, n) + [CLOSE_QUOTE]
  }

  predicate InteriorChar(c: char) {
    'A' <= c <= 'Z' || c == '_' || IsAsciiDigit(c)
  }

  lemma InteriorShape(tag: Label, n: nat)
    ensures forall i | 0 <= i < |Interior(tag, n)| :: InteriorChar(Interior(tag, n)[i])
    ensures forall i | 0 <= i < |Interior(tag, n)| && Interior(tag, n)[i] == '_' :: i == |Name(tag)|
    ensures forall i | |Name(tag)| < i < |Interior(tag, n)| :: IsAsciiDigit(Interior(tag, n)[i])
    ensures NoQuotes(Interior(tag, n))
  {
    DigitsAreDigits(n);
    var w := Interior(tag, n);
    forall i | 0 <= i < |w|
      ensures InteriorChar(w[i])
      ensures w[i] == '_' ==> i == |Name(tag)|
      ensures |Name(tag)| < i ==> IsAsciiDigit(w[i])
    {
      if i > |Name(tag)| {
        assert w[i] == Digits(n)[i - |Name(tag)| - 1];
      }
    }
  }

  lemma PlaceholderInjective(l1: Label, n1: nat, l2: Label, n2: nat)
    requires Placeholder(l1, n1) == Placeholder(l2, n2)
    ensures l1 == l2 && n1 == n2
  {
    var a, b := Placeholder(l1, n1), Placeholder(l2, n2);
    assert a[1..|a|-1] == Interior(l1, n1) && b[1..|b|-1] == Interior(l2, n2);
    var u, v := Interior(l1, n1), Interior(l2, n2);
    InteriorShape(l1, n1);
    InteriorShape(l2, n2);
    assert u[|Name(l1)|] == '_' && v[|Name(l2)|] == '_';
    assert |Name(l1)| == |Name(l2)|;
    assert u[..|Name(l1)|] == Name(l1) && v[..|Name(l2)|] == Name(l2);
    assert Name(l1)[0] == Name(l2)[0];
    assert u[|Name(l1)|+1..] == Digits(n1) && v[|Name(l2)|+1..] == Digits(n2);
    DigitsInjective(n1, n2);
  }

  /** No word of any language hides in the interior of a placeholder whose counter
      has at most eight digits. */
  lemma InteriorSliceClean(tag: Label, n: nat, l: Label, i: int, j: int, digit: char -> bool)
    requires DigitTable(digit) && n < REMATCH_LIMIT
    requires 0 <= i <= j <= |Interior(tag, n)|
    ensures !Member(l, Interior(tag, n)[i..j], digit)
  {
    var w := Interior(tag, n)[i..j];
    InteriorSliceShape(tag, n, i, j);
    match l
    case SECRET => NotSecret(w, |Name(tag)| - i);
    case EMAIL =>
    case URL => assert w != [] ==> w[0] != 'h';
    case PHONE => NotPhone(w, |Name(tag)| - i, digit);
  }

  /** A piece of an interior: capitals, then the bar, then at most eight digits. */
  lemma InteriorSliceShape(tag: Label, n: nat, i: int, j: int)
    requires n < REMATCH_LIMIT && 0 <= i <= j <= |Interior(tag, n)|
    ensures var w, bar := Interior(tag, n)[i..j], |Name(tag)| - i;
      && (forall k | 0 <= k < |w| :: InteriorChar(w[k]))
      && (forall k | 0 <= k < |w| && k != bar :: w[k] != '_') && (0 <= bar < |w| ==> w[bar] == '_')
      && (forall k | 0 <= k < |w| && k > bar :: IsAsciiDigit(w[k]))
      && (forall k | 0 <= k < |w| && k <= bar :: !IsAsciiDigit(w[k]))
      && |w| <= bar + 9
  {
    var u := Interior(tag, n);
    InteriorShape(tag, n);
    EightDigits(n);
    assert u[|Name(tag)|] == '_';
    assert forall k | 0 <= k < |Name(tag)| :: u[k] == Name(tag)[k] && !IsAsciiDigit(u[k]);
  }

  lemma NotSecret(w: string, bar: int)
    requires forall k | 0 <= k < |w| :: InteriorChar(w[k])
    requires bar <= 6 && forall k | 0 <= k < |w| && k != bar :: w[k] != '_'
    requires 0 <= bar < |w| ==> w[bar] == '_'
    requires forall k | 0 <= k < |w| && k > bar :: IsAsciiDigit(w[k])
    ensures !SecretWord(w)
  {
    assert w != [] ==> w[0] != 's' && w[0] != 'g' && w[0] != 'x';
  }

  lemma NotPhone(w: string, bar: int, digit: char -> bool)
    requires DigitTable(digit)
    requires forall k | 0 <= k < |w| :: InteriorChar(w[k])
    requires forall k | 0 <= k < |w| && k <= bar :: !IsAsciiDigit(w[k])
    requires |w| <= bar + 9
    ensures !PhoneWord(w, digit)
  {
    assert w != [] ==> w[0] != '+';
  }

  /** What the masking argument needs of a word: it has no quotes, and it is not
      part of the interior of any placeholder with at most eight digits. */
  ghost predicate Foreign(w: string) {
    && w != [] && NoQuotes(w)
    && forall tag, n: nat, i {:trigger OccursAt(Interior(tag, n), w, i)} | n < REMATCH_LIMIT ::
         !OccursAt(Interior(tag, n), w, i)
  }

  /** Every word of the four languages is foreign to every such placeholder. */
  lemma MemberForeign(tag: Label, w: string, digit: char -> bool)
    requires DigitTable(digit) && Member(tag, w, digit)
    ensures Foreign(w)
  {
    MemberShape(tag, w, digit);
    forall q, n: nat, i | n < REMATCH_LIMIT ensures !OccursAt(Interior(q, n), w, i) {
      if 0 <= i && i + |w| <= |Interior(q, n)| {
        InteriorSliceClean(q, n, tag, i, i + |w|, digit);
      }
    }
  }

  /** "Placeholders can never re-match" holds of a placeholder exactly while its
      counter stays below 10^8: from there on its digits are a phone number. */
  lemma RematchesIffNineDigits(tag: Label, n: nat, digit: char -> bool)
    requires DigitTable(digit)
    ensures Clean(Placeholder(tag, n), digit) <==> n < REMATCH_LIMIT
  {
    var p := Placeholder(tag, n);
    if n < REMATCH_LIMIT {
      forall l, i, j | 0 <= i <= j <= |p| ensures !Member(l, p[i..j], digit) {
        if Foreign(p[i..j]) { NotForeignInPlaceholder(tag, n, i, j); }
        if Member(l, p[i..j], digit) { MemberForeign(l, p[i..j], digit); }
      }
    } else {
      NineDigitsRematch(tag, n, digit);
    }
  }

  /** A piece of a quoted text takes a quote with it or lies inside. */
  lemma QuotedSlice(u: string, i: int, j: int)
    requires 0 <= i < j <= |u| + 2
    ensures var w := ([OPEN_QUOTE] + u + [CLOSE_QUOTE])[i..j]; !NoQuotes(w) || OccursAt(u, w, i - 1)
  {
    var p := [OPEN_QUOTE] + u + [CLOSE_QUOTE];
    var w := p[i..j];
    assert w[0] == p[i] && w[|w|-1] == p[j-1];
    if 0 < i && j < |p| {
      assert w == u[i-1..j-1];
    }
  }

  lemma NotForeignInPlaceholder(tag: Label, n: nat, i: int, j: int)
    requires n < REMATCH_LIMIT && 0 <= i <= j <= |Placeholder(tag, n)|
    ensures !Foreign(Placeholder(tag, n)[i..j])
  {
    if i < j { QuotedSlice(Interior(tag, n), i, j); }
  }

  lemma NineDigitsRematch(tag: Label, n: nat, digit: char -> bool)
    requires DigitTable(digit) && n >= REMATCH_LIMIT
    ensures !Clean(Placeholder(tag, n), digit)
  {
    var p := Placeholder(tag, n);
    EightDigits(n);
    DigitsAreDigits(n);
    var a := |Name(tag)| + 2;
    assert p[a..|p|-1] == Digits(n);
    assert PhoneCore(Digits(n), digit);
    assert Member(PHONE, p[a..|p|-1], digit);
  }
}
