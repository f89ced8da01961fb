/** Calendar dates as the downloader writes them into file names
    (`strftime("%m-%d-%Y")`), finds them again in a path (the leftmost match
    of `\d{2}[\.|-]\d{2}[\.|-]\d{4}`) and reads them back (`strptime` with
    `"%m-%d-%Y"`, then `"%m.%d.%Y"`). */
module Dates {
  import opened Common
  import opened Strings

  datatype Date = Date(year: nat, month: nat, day: nat)

  predicate IsLeapYear(y: nat) {
    (y % 4 == 0 && y % 100 != 0) || y % 400 == 0
  }

  function DaysInMonth(y: nat, m: nat): (r: nat)
    requires 1 <= m <= 12
    ensures 28 <= r <= 31
  {
    if m == 2 then (if IsLeapYear(y) then 29 else 28)
    else if m == 4 || m == 6 || m == 9 || m == 11 then 30
    else 31
  }

  /** A date `datetime.date` accepts: year from 1, a real month and day. */
  predicate IsValid(d: Date) {
    d.year >= 1 && 1 <= d.month <= 12 && 1 <= d.day <= DaysInMonth(d.year, d.month)
  }

  /** `date < date`: by year, then month, then day. */
  predicate Before(a: Date, b: Date) {
    a.year < b.year
    || (a.year == b.year && a.month < b.month)
    || (a.year == b.year && a.month == b.month && a.day < b.day)
  }

  /** `Before` is a strict total order. */
  lemma BeforeStrictTotal(a: Date, b: Date, c: Date)
    ensures !Before(a, a)
    ensures Before(a, b) && Before(b, c) ==> Before(a, c)
    ensures a != b ==> Before(a, b) || Before(b, a)
  {
  }

  /** `strftime("%m-%d-%Y")`: two-digit month and day; the year in decimal,
      unpadded as the C library on Linux prints it. */
  function FormatDate(d: Date): (r: string)
    requires IsValid(d)
    ensures |r| >= 7
    ensures r[2] == '-' && r[5] == '-'
    ensures forall k :: 0 <= k < |r| ==> IsDigit(r[k]) || r[k] == '-'
  {
    PadDigits(d.month, 2) + "-" + PadDigits(d.day, 2) + "-" + NatToString(d.year)
  }

  /** The separator class `[\.|-]`: a dot, a bar or a hyphen. */
  predicate IsSep(c: char) {
    c == '.' || c == '|' || c == '-'
  }

  /** The date pattern matches the ten characters of `s` from `i`. */
  predicate IsTokenAt(s: string, i: int) {
    0 <= i && i + 10 <= |s|
    && IsDigit(s[i]) && IsDigit(s[i + 1]) && IsSep(s[i + 2])
    && IsDigit(s[i + 3]) && IsDigit(s[i + 4]) && IsSep(s[i + 5])
    && IsDigit(s[i + 6]) && IsDigit(s[i + 7]) && IsDigit(s[i + 8]) && IsDigit(s[i + 9])
  }

  /** `re.search` of the date pattern: the leftmost token at or after `k`. */
  function FindTokenFrom(s: string, k: nat): (r: Option<nat>)
    ensures r.Some? ==> k <= r.value && IsTokenAt(s, r.value)
    ensures r.Some? ==> forall j :: k <= j < r.value ==> !IsTokenAt(s, j)
    ensures r.None? ==> forall j :: k <= j ==> !IsTokenAt(s, j)
    decreases |s| - k
  {
    if k + 10 > |s| then None
    else if IsTokenAt(s, k) then Some(k)
    else FindTokenFrom(s, k + 1)
  }

  function FindToken(s: string): (r: Option<nat>)
    ensures r.Some? ==> IsTokenAt(s, r.value) && forall j :: 0 <= j < r.value ==> !IsTokenAt(s, j)
    ensures r.None? ==> forall j :: 0 <= j ==> !IsTokenAt(s, j)
  {
    FindTokenFrom(s, 0)
  }

  /** The first token of `s`, when there is one, is the one at `p` as soon as
      nothing before `p` starts a token; in particular when `s[..p]` holds no digit. */
  lemma FindTokenFirst(s: string, p: nat)
    requires IsTokenAt(s, p)
    requires forall j :: 0 <= j < p ==> !IsDigit(s[j])
    ensures FindToken(s) == Some(p)
  {
  }

  function TokenDate(tok: string): (d: Date)
    requires |tok| == 10 && IsTokenAt(tok, 0)
  {
    Date(DecimalValue(tok[6..10]), DecimalValue(tok[0..2]), DecimalValue(tok[3..5]))
  }

  /** `strptime(tok, "%m-%d-%Y")`, falling back to `strptime(tok, "%m.%d.%Y")`;
      a token fitting neither raises. */
  function ParseToken(tok: string): (r: Result<Date>)
    requires |tok| == 10 && IsTokenAt(tok, 0)
    ensures r.Ok? <==> IsValid(TokenDate(tok)) && ((tok[2] == '-' && tok[5] == '-') || (tok[2] == '.' && tok[5] == '.'))
    ensures r.Ok? ==> r.value == TokenDate(tok)
    ensures r.Err? ==> r.failure == BadDate
  {
    var d := TokenDate(tok);
    if tok[2] == '-' && tok[5] == '-' && IsValid(d) then Ok(d)
    else if tok[2] == '.' && tok[5] == '.' && IsValid(d) then Ok(d)
    else Err(BadDate)
  }

  /** A token with a bar, or with two different separators, never parses. */
  lemma MixedSeparatorsRaise(tok: string)
    requires |tok| == 10 && IsTokenAt(tok, 0)
    requires tok[2] == '|' || tok[5] == '|' || tok[2] != tok[5]
    ensures ParseToken(tok) == Err(BadDate)
  {
  }

  lemma {:induction false} NatToStringLength(n: nat, k: nat)
    requires k >= 1 && Pow10(k - 1) <= n < Pow10(k)
    ensures |NatToString(n)| == k
    decreases k
  {
    if k > 1 {
      assert Pow10(k - 2) <= n / 10 < Pow10(k - 1);
      NatToStringLength(n / 10, k - 1);
    }
  }

  /** Writing a date of a four-digit year and reading it back gives the
      same date: the written name is one token that `strptime` accepts. */
  lemma FormatParseRoundTrip(d: Date)
    requires IsValid(d) && 1000 <= d.year <= 9999
    ensures var s := FormatDate(d);
      && |s| == 10 && IsTokenAt(s, 0) && FindToken(s) == Some(0)
      && ParseToken(s) == Ok(d)
  {
    NatToStringLength(d.year, 4);
    var m, dd, y := PadDigits(d.month, 2), PadDigits(d.day, 2), NatToString(d.year);
    var s := FormatDate(d);
    assert s == m + "-" + dd + "-" + y;
    assert s[0..2] == m && s[3..5] == dd && s[6..10] == y;
    PadDigitsValue(d.month, 2);
    PadDigitsValue(d.day, 2);
    NatToStringValue(d.year);
    assert IsTokenAt(s, 0);
  }
}
