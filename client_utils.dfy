/** The string helpers of src/lib/utils.ts: the `validateEmail` pattern, `sanitizeString`
    and the layout of `generateBadgeNumber`. The year and the random draw of a badge number
    are parameters. */
module ClientUtils {
  import Text

  /** A character of the class `[^\s@]`. */
  predicate Plain(c: char) {
    !Text.IsWhitespace(c) && c != '@'
  }

  /** `validateEmail`: `s` matches `^[^\s@]+@[^\s@]+\.[^\s@]+$` — a run of plain characters,
      an `@` at `i`, a run of plain characters, a `.` at `j`, and a run of plain characters
      to the end. (A `.` is itself plain, so every position but `i` holds a plain
      character.) */
  predicate ValidateEmail(s: string) {
    exists i, j :: 0 < i && i + 1 < j && j + 1 < |s| && s[i] == '@' && s[j] == '.'
      && forall k :: 0 <= k < |s| && k != i ==> Plain(s[k])
  }

  /** The number of `@` characters of `s`. */
  function AtCount(s: string): (n: nat)
    ensures n == 0 <==> forall k :: 0 <= k < |s| ==> s[k] != '@'
  {
    if s == [] then 0 else (if s[0] == '@' then 1 else 0) + AtCount(s[1..])
  }

  /** The position of the first `@`, or `|s|` when there is none. */
  function FirstAt(s: string): (i: nat)
    ensures i <= |s|
    ensures i < |s| ==> s[i] == '@'
    ensures forall k :: 0 <= k < i ==> s[k] != '@'
  {
    if s == [] || s[0] == '@' then 0 else 1 + FirstAt(s[1..])
  }

  /** Some `.` of `d` is neither its first nor its last character. */
  predicate InnerDot(d: string) {
    exists k :: 0 < k < |d| - 1 && d[k] == '.'
  }

  /** The shape an address must have: no white space, exactly one `@`, a non-empty part
      before it, and a `.` inside the part after it. */
  predicate EmailShape(s: string) {
    && (forall k :: 0 <= k < |s| ==> !Text.IsWhitespace(s[k]))
    && AtCount(s) == 1
    && 0 < FirstAt(s) < |s|
    && InnerDot(s[FirstAt(s) + 1..])
  }

  /** An `@` at `i` is the only one exactly when `s` holds one `@` in all. */
  lemma {:induction false} AtUnique(s: string, i: nat)
    requires i < |s| && s[i] == '@'
    ensures AtCount(s) == 1 <==> forall k :: 0 <= k < |s| && k != i ==> s[k] != '@'
  {
    if i == 0 {
      assert forall k :: 0 <= k < |s[1..]| ==> s[1..][k] == s[k + 1];
    } else {
      AtUnique(s[1..], i - 1);
      assert forall k :: 1 <= k < |s| ==> s[1..][k - 1] == s[k];
      if s[0] == '@' {
        assert s[1..][i - 1] == '@';
      }
    }
  }

  /** Every address the pattern accepts has that shape. */
  lemma ValidateEmailHasShape(s: string)
    requires ValidateEmail(s)
    ensures EmailShape(s)
  {
    var i, j :| 0 < i && i + 1 < j && j + 1 < |s| && s[i] == '@' && s[j] == '.'
      && forall k :: 0 <= k < |s| && k != i ==> Plain(s[k]);
    AtUnique(s, i);
    assert FirstAt(s) == i;
    var d := s[i + 1..];
    assert d[j - i - 1] == '.';
    assert InnerDot(d);
  }

  /** Every address of that shape is accepted by the pattern. */
  lemma ShapeValidatesEmail(s: string)
    requires EmailShape(s)
    ensures ValidateEmail(s)
  {
    var i := FirstAt(s);
    AtUnique(s, i);
    var d := s[i + 1..];
    var k :| 0 < k < |d| - 1 && d[k] == '.';
    var j := i + 1 + k;
    assert s[j] == '.';
    assert forall k :: 0 <= k < |s| && k != i ==> Plain(s[k]);
  }

  /** The pattern holds exactly for the addresses of that shape. */
  lemma ValidateEmailShape(s: string)
    ensures ValidateEmail(s) <==> EmailShape(s)
  {
    if ValidateEmail(s) {
      ValidateEmailHasShape(s);
    }
    if EmailShape(s) {
      ShapeValidatesEmail(s);
    }
  }

  /** An address the pattern accepts. */
  lemma EmailAccepted()
    ensures ValidateEmail("a@b.co")
  {
    var s := "a@b.co";
    assert s[1] == '@' && s[3] == '.';
    assert forall k :: 0 <= k < |s| && k != 1 ==> Plain(s[k]);
  }

  /** Addresses the pattern refuses: no dot after the `@`, nothing before it, two of them. */
  lemma EmailRefused()
    ensures !ValidateEmail("a@b") && !ValidateEmail("@b.co") && !ValidateEmail("a@@b.co")
  {
    ValidateEmailShape("a@b");
    ValidateEmailShape("@b.co");
    ValidateEmailShape("a@@b.co");
    assert AtCount("a@@b.co") == 2;
  }

  predicate NoBrackets(s: string) {
    forall k :: 0 <= k < |s| ==> s[k] != '<' && s[k] != '>'
  }

  /** `replace(/[<>]/g, '')`: every `<` and `>` removed; each other character is kept as
      many times as it occurs. */
  function RemoveBrackets(s: string): (r: string)
    ensures NoBrackets(r) && |r| <= |s|
  {
    if s == [] then []
    else if s[0] == '<' || s[0] == '>' then RemoveBrackets(s[1..])
    else [s[0]] + RemoveBrackets(s[1..])
  }

  /** Every character other than a bracket is kept as many times as it occurs. */
  lemma {:induction false} RemoveBracketsKeepsOthers(s: string)
    ensures forall c :: c != '<' && c != '>' ==> multiset(RemoveBrackets(s))[c] == multiset(s)[c]
  {
    if s != [] {
      RemoveBracketsKeepsOthers(s[1..]);
      assert s == [s[0]] + s[1..];
    }
  }

  /** Removal works piece by piece, so the kept characters stay in their order. */
  lemma {:induction false} RemoveBracketsConcat(a: string, b: string)
    ensures RemoveBrackets(a + b) == RemoveBrackets(a) + RemoveBrackets(b)
  {
    if a == [] {
      assert a + b == b;
    } else {
      var ab := a + b;
      assert ab[0] == a[0] && ab[1..] == a[1..] + b;
      RemoveBracketsConcat(a[1..], b);
      assert RemoveBrackets(ab) == (if a[0] == '<' || a[0] == '>' then [] else [a[0]]) + RemoveBrackets(ab[1..]);
      assert RemoveBrackets(a) == (if a[0] == '<' || a[0] == '>' then [] else [a[0]]) + RemoveBrackets(a[1..]);
    }
  }

  /** A string without brackets is left as it is, and only such a string is. */
  lemma {:induction false} RemoveBracketsFixpoint(s: string)
    ensures RemoveBrackets(s) == s <==> NoBrackets(s)
  {
    if s != [] && NoBrackets(s) {
      RemoveBracketsFixpoint(s[1..]);
    }
  }

  /** `sanitizeString`: trimmed, then stripped of angle brackets. */
  function SanitizeString(s: string): (r: string)
    ensures NoBrackets(r) && |r| <= |s|
    ensures forall c :: c != '<' && c != '>' ==> multiset(r)[c] == multiset(Text.Trim(s))[c]
    ensures r == RemoveBrackets(Text.Trim(s))
  {
    RemoveBracketsKeepsOthers(Text.Trim(s));
    RemoveBrackets(Text.Trim(s))
  }

  /** The strings `sanitizeString` leaves unchanged are the trimmed ones without brackets. */
  lemma SanitizeFixpoint(s: string)
    ensures SanitizeString(s) == s <==> Text.Trimmed(s) && NoBrackets(s)
  {
    Text.TrimmedIsFixpoint(s);
    if NoBrackets(s) {
      TrimKeepsNoBrackets(s);
      RemoveBracketsFixpoint(Text.Trim(s));
    }
    if Text.Trimmed(s) && NoBrackets(s) {
      RemoveBracketsFixpoint(s);
    }
  }

  lemma TrimKeepsNoBrackets(s: string)
    requires NoBrackets(s)
    ensures NoBrackets(Text.Trim(s))
  {
    Text.TrimChars(s);
  }

  /** A second pass only trims again: removing brackets can expose white space at an end. */
  lemma SanitizeTwice(s: string)
    ensures SanitizeString(SanitizeString(s)) == Text.Trim(SanitizeString(s))
  {
    TrimKeepsNoBrackets(SanitizeString(s));
    RemoveBracketsFixpoint(Text.Trim(SanitizeString(s)));
  }

  /** So `sanitizeString` is not idempotent: `"< a"` becomes `" a"`, which becomes `"a"`. */
  lemma SanitizeNotIdempotent()
    ensures SanitizeString("< a") == " a"
    ensures SanitizeString(" a") == "a"
  {
    TrimBracketed();
    TrimBlankLed();
    BracketExamples();
  }

  lemma TrimBracketed()
    ensures Text.Trim("< a") == "< a"
  {
    TrimTrimmed("< a");
  }

  lemma TrimBlankLed()
    ensures Text.Trim(" a") == "a"
  {
    var t := " a";
    assert t[1..] == "a";
    TrimLeadingBlank(t);
  }

  lemma TrimTrimmed(s: string)
    requires |s| >= 1 && !Text.IsWhitespace(s[0]) && !Text.IsWhitespace(s[|s| - 1])
    ensures Text.Trim(s) == s
  {
    Text.TrimmedIsFixpoint(s);
  }

  /** One leading blank before a trimmed string is all that `trim` removes. */
  lemma TrimLeadingBlank(s: string)
    requires |s| >= 2 && Text.IsWhitespace(s[0]) && Text.Trimmed(s[1..])
    ensures Text.Trim(s) == s[1..]
  {
    var rest := s[1..];
    assert Text.TrimStart(rest) == rest;
    assert Text.TrimStart(s) == rest;
    assert Text.TrimEnd(rest) == rest;
  }

  lemma BracketExamples()
    ensures RemoveBrackets("< a") == " a" && RemoveBrackets("a") == "a"
  {
    assert "< a"[1..] == " a";
    RemoveBracketsFixpoint(" a");
    RemoveBracketsFixpoint("a");
  }

  /** `padStart(n, c)`: `c` repeated in front until the length is `n`. */
  function PadStart(s: string, n: nat, c: char): (r: string)
    ensures |s| >= n ==> r == s
    ensures |s| < n ==> |r| == n && r[n - |s|..] == s && forall k :: 0 <= k < n - |s| ==> r[k] == c
    decreases n - |s|
  {
    if |s| >= n then s else PadStart([c] + s, n, c)
  }

  /** Leading zeros do not change a decimal value. */
  lemma {:induction false} LeadingZeros(z: string, s: string)
    requires forall k :: 0 <= k < |z| ==> z[k] == '0'
    ensures Text.DecimalValue(z + s) == Text.DecimalValue(s)
    decreases |s|
  {
    if s == [] {
      AllZeros(z);
      assert z + s == z;
    } else {
      LeadingZeros(z, s[..|s| - 1]);
      assert (z + s)[..|z + s| - 1] == z + s[..|s| - 1];
    }
  }

  lemma {:induction false} AllZeros(z: string)
    requires forall k :: 0 <= k < |z| ==> z[k] == '0'
    ensures Text.DecimalValue(z) == 0
  {
    if z != [] {
      AllZeros(z[..|z| - 1]);
    }
  }

  /** The four digits of a draw below 10000, zero-padded. */
  function FourDigits(random: nat): (r: string)
    requires random < 10000
    ensures |r| == 4 && forall k :: 0 <= k < 4 ==> '0' <= r[k] <= '9'
    ensures Text.DecimalValue(r) == random
  {
    PaddedValue(random);
    PadStart(Text.NatToString(random), 4, '0')
  }

  lemma PaddedValue(random: nat)
    requires random < 10000
    ensures var r := PadStart(Text.NatToString(random), 4, '0');
      |r| == 4 && (forall k :: 0 <= k < 4 ==> '0' <= r[k] <= '9') && Text.DecimalValue(r) == random
  {
    var d := Text.NatToString(random);
    NatToStringLength(random);
    var r := PadStart(d, 4, '0');
    Text.NatToStringRoundTrip(random);
    if |d| < 4 {
      assert r == r[..4 - |d|] + d;
      LeadingZeros(r[..4 - |d|], d);
    }
  }

  /** A number below 10000 has at most four digits. */
  lemma NatToStringLength(n: nat)
    requires n < 10000
    ensures |Text.NatToString(n)| <= 4
  {
    DigitsBelow(n, 4);
  }

  function Pow10(k: nat): nat {
    if k == 0 then 1 else 10 * Pow10(k - 1)
  }

  /** A number below `10^k`, for `k >= 1`, has at most `k` digits. */
  lemma {:induction false} DigitsBelow(n: nat, k: nat)
    requires k >= 1 && n < Pow10(k)
    ensures |Text.NatToString(n)| <= k
  {
    if n >= 10 {
      assert k >= 2;
      DigitsBelow(n / 10, k - 1);
    }
  }

  /** `generateBadgeNumber` for the year `year` and the draw `random` of
      `Math.floor(Math.random() * 10000)`: `WG-<year>-` and four digits. */
  function BadgeNumber(year: nat, random: nat): (r: string)
    requires random < 10000
    ensures Text.StartsWith(r, "WG-") && |r| == 8 + |Text.NatToString(year)|
    ensures r[3..3 + |Text.NatToString(year)|] == Text.NatToString(year)
    ensures r[|r| - 5] == '-' && Text.DecimalValue(r[|r| - 4..]) == random
  {
    var y := Text.NatToString(year);
    var r := "WG-" + y + "-" + FourDigits(random);
    assert r[|r| - 4..] == FourDigits(random);
    assert r[3..3 + |y|] == y;
    r
  }

  /** A badge number determines its year and its draw. */
  lemma BadgeNumberInjective(y1: nat, r1: nat, y2: nat, r2: nat)
    requires r1 < 10000 && r2 < 10000
    requires BadgeNumber(y1, r1) == BadgeNumber(y2, r2)
    ensures y1 == y2 && r1 == r2
  {
    var b := BadgeNumber(y1, r1);
    Text.NatToStringRoundTrip(y1);
    Text.NatToStringRoundTrip(y2);
    assert Text.NatToString(y1) == b[3..3 + |Text.NatToString(y1)|];
  }
}
