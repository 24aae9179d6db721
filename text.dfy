/** Text handling shared by the puzzle parsers: the standard library's string
    splitting (`split`, `split_once`, `splitn`, `lines`, `split_whitespace`,
    `trim`), its integer parsing (`str::parse`), the prefix number parsers of
    the parser-combinator library, and decimal printing. */
module Text {
  import opened Wrappers

  predicate IsDigit(c: char) { '0' <= c <= '9' }

  /** ASCII whitespace; the standard library also treats other Unicode spaces as whitespace. */
  predicate IsWhitespace(c: char) {
    c == ' ' || c == '\t' || c == '\n' || c == '\r' || c as int == 11 || c as int == 12
  }

  predicate AllDigits(s: string) { forall i :: 0 <= i < |s| ==> IsDigit(s[i]) }

  function DigitValue(c: char): (d: nat)
    requires IsDigit(c)
    ensures d < 10
  {
    c as int - '0' as int
  }

  function DigitChar(d: nat): (c: char)
    requires d < 10
    ensures IsDigit(c) && DigitValue(c) == d
  {
    ('0' as int + d) as char
  }

  /** The number written by a string of decimal digits, most significant first. */
  function DecimalValue(s: string): nat
    requires AllDigits(s)
    decreases |s|
  {
    if s == [] then 0 else 10 * DecimalValue(s[..|s| - 1]) + DigitValue(s[|s| - 1])
  }

  /** The shortest decimal numeral of `n`, as `Display` prints an unsigned integer. */
  function Decimal(n: nat): (s: string)
    ensures |s| > 0 && AllDigits(s)
    decreases n
  {
    if n < 10 then [DigitChar(n)] else Decimal(n / 10) + [DigitChar(n % 10)]
  }

  lemma {:induction false} DecimalRoundTrip(n: nat)
    ensures DecimalValue(Decimal(n)) == n
    decreases n
  {
    if n >= 10 {
      var s := Decimal(n);
      assert s[..|s| - 1] == Decimal(n / 10);
      DecimalRoundTrip(n / 10);
    }
  }

  /** `str::parse` for an unsigned integer type whose values are below `bound`:
      an optional `+`, then at least one digit, and no overflow. */
  function ParseUnsigned(s: string, bound: nat): (r: Option<nat>)
    ensures r.Some? ==> r.value < bound
  {
    var digits := if |s| > 0 && s[0] == '+' then s[1..] else s;
    if digits != [] && AllDigits(digits) && DecimalValue(digits) < bound
    then Some(DecimalValue(digits))
    else None
  }

  /** `str::parse` for a signed integer type with range [-bound, bound). */
  function ParseSigned(s: string, bound: nat): (r: Option<int>)
    requires bound > 0
    ensures r.Some? ==> -(bound as int) <= r.value < bound
  {
    if |s| > 0 && s[0] == '-' then
      var digits := s[1..];
      if digits != [] && AllDigits(digits) && DecimalValue(digits) <= bound
      then Some(-(DecimalValue(digits) as int))
      else None
    else
      ParseUnsigned(s, bound)
  }

  /** Length of the longest prefix of `s` made of digits. */
  function DigitRun(s: string): (n: nat)
    ensures n <= |s| && AllDigits(s[..n]) && (n < |s| ==> !IsDigit(s[n]))
    decreases |s|
  {
    if s == [] || !IsDigit(s[0]) then 0
    else
      var k := DigitRun(s[1..]);
      assert s[..k + 1] == [s[0]] + s[1..][..k];
      k + 1
  }

  /** The parser-combinator library's unsigned number parser: the longest run of
      digits (at least one), failing on overflow; gives the value and the rest. */
  function ParseUnsignedPrefix(s: string, bound: nat): (r: Option<(nat, string)>)
    ensures r.Some? ==> r.value.0 < bound && |r.value.1| < |s|
  {
    var n := DigitRun(s);
    if n == 0 || DecimalValue(s[..n]) >= bound then None
    else Some((DecimalValue(s[..n]), s[n..]))
  }

  /** The library's signed number parser: an optional `-` or `+`, then as above,
      within [-bound, bound). */
  function ParseSignedPrefix(s: string, bound: nat): (r: Option<(int, string)>)
    requires bound > 0
    ensures r.Some? ==> -(bound as int) <= r.value.0 < bound && |r.value.1| < |s|
  {
    if |s| > 0 && s[0] == '-' then
      var n := DigitRun(s[1..]);
      if n == 0 || DecimalValue(s[1..][..n]) > bound then None
      else Some((-(DecimalValue(s[1..][..n]) as int), s[1..][n..]))
    else
      var t := if |s| > 0 && s[0] == '+' then s[1..] else s;
      match ParseUnsignedPrefix(t, bound)
      case None => None
      case Some((v, rest)) => Some((v as int, rest))
  }

  lemma {:induction false} DigitRunOfDecimal(d: string, rest: string)
    requires AllDigits(d)
    requires rest == [] || !IsDigit(rest[0])
    ensures DigitRun(d + rest) == |d| && (d + rest)[..|d|] == d && (d + rest)[|d|..] == rest
    decreases |d|
  {
    if d != [] {
      assert (d + rest)[1..] == d[1..] + rest;
      DigitRunOfDecimal(d[1..], rest);
    }
  }

  /** What `Display` prints for an unsigned number is read back by the prefix parser. */
  lemma PrintedNumberParses(n: nat, bound: nat, rest: string)
    requires n < bound
    requires rest == [] || !IsDigit(rest[0])
    ensures ParseUnsignedPrefix(Decimal(n) + rest, bound) == Some((n, rest))
  {
    DigitRunOfDecimal(Decimal(n), rest);
    DecimalRoundTrip(n);
  }

  function StartsWith(s: string, prefix: string): bool {
    |prefix| <= |s| && s[..|prefix|] == prefix
  }

  /** `sep` occurs in `s` at index `j`. */
  predicate OccursAt(s: string, sep: string, j: int) {
    0 <= j && j + |sep| <= |s| && s[j..j + |sep|] == sep
  }

  lemma OccursShift(s: string, sep: string, j: int)
    requires 0 < j && |s| > 0
    ensures OccursAt(s, sep, j) <==> OccursAt(s[1..], sep, j - 1)
  {
    if j + |sep| <= |s| {
      assert s[j..j + |sep|] == s[1..][j - 1..j - 1 + |sep|];
    }
  }

  /** Index of the first occurrence of `sep` in `s`. */
  function IndexOf(s: string, sep: string): (r: Option<nat>)
    requires |sep| > 0
    ensures r.Some? ==> OccursAt(s, sep, r.value)
    ensures r.Some? ==> forall j :: 0 <= j < r.value ==> !OccursAt(s, sep, j)
    ensures r.None? ==> forall j :: !OccursAt(s, sep, j)
    decreases |s|
  {
    if |s| < |sep| then None
    else if s[..|sep|] == sep then Some(0)
    else
      var r := IndexOf(s[1..], sep);
      forall j | 0 < j ensures OccursAt(s, sep, j) <==> OccursAt(s[1..], sep, j - 1) {
        OccursShift(s, sep, j);
      }
      match r
      case None => None
      case Some(k) => Some(k + 1)
  }

  /** `s.split(sep)`: the pieces between the occurrences of `sep`. */
  function Split(s: string, sep: string): (r: seq<string>)
    requires |sep| > 0
    ensures |r| > 0
    decreases |s|
  {
    match IndexOf(s, sep)
    case None => [s]
    case Some(i) => [s[..i]] + Split(s[i + |sep|..], sep)
  }

  /** `s.splitn(n, sep)`: at most `n` pieces, the last holding the rest. */
  function SplitN(s: string, sep: string, n: nat): (r: seq<string>)
    requires |sep| > 0 && n > 0
    ensures 0 < |r| <= n
    decreases n
  {
    if n == 1 then [s]
    else
      match IndexOf(s, sep)
      case None => [s]
      case Some(i) => [s[..i]] + SplitN(s[i + |sep|..], sep, n - 1)
  }

  /** Index of the first character of `s` that is in `seps`. */
  function IndexOfAny(s: string, seps: set<char>): (r: Option<nat>)
    ensures r.Some? ==> r.value < |s| && s[r.value] in seps
    ensures r.Some? ==> forall j :: 0 <= j < r.value ==> s[j] !in seps
    ensures r.None? ==> forall j :: 0 <= j < |s| ==> s[j] !in seps
    decreases |s|
  {
    if s == [] then None
    else if s[0] in seps then Some(0)
    else
      match IndexOfAny(s[1..], seps)
      case None => None
      case Some(k) => Some(k + 1)
  }

  /** `s.splitn(n, &[c, ...])`: at most `n` pieces, split at any of the characters. */
  function SplitNAny(s: string, seps: set<char>, n: nat): (r: seq<string>)
    requires n > 0
    ensures 0 < |r| <= n
    decreases n
  {
    if n == 1 then [s]
    else
      match IndexOfAny(s, seps)
      case None => [s]
      case Some(i) => [s[..i]] + SplitNAny(s[i + 1..], seps, n - 1)
  }

  /** `s.split_once(sep)`. */
  function SplitOnce(s: string, sep: string): (r: Option<(string, string)>)
    requires |sep| > 0
    ensures r.Some? ==> r.value.0 + sep + r.value.1 == s
  {
    match IndexOf(s, sep)
    case None => None
    case Some(i) =>
      assert s == s[..i] + s[i..i + |sep|] + s[i + |sep|..];
      Some((s[..i], s[i + |sep|..]))
  }

  /** `s.lines()`: pieces between newlines, without an empty piece after a final newline. */
  function Lines(s: string): seq<string> {
    if s == [] then []
    else
      var parts := Split(s, "\n");
      if parts[|parts| - 1] == [] then parts[..|parts| - 1] else parts
  }

  function TrimStart(s: string): (r: string)
    ensures |r| <= |s| && (r != [] ==> !IsWhitespace(r[0]))
    decreases |s|
  {
    if s != [] && IsWhitespace(s[0]) then TrimStart(s[1..]) else s
  }

  function TrimEnd(s: string): (r: string)
    ensures |r| <= |s| && (r != [] ==> !IsWhitespace(r[|r| - 1]))
    decreases |s|
  {
    if s != [] && IsWhitespace(s[|s| - 1]) then TrimEnd(s[..|s| - 1]) else s
  }

  /** `s.trim()`. */
  function Trim(s: string): string {
    TrimEnd(TrimStart(s))
  }

  /** Length of the first word of `s`: the prefix before the first whitespace. */
  function WordLength(s: string): (n: nat)
    ensures n <= |s| && (n < |s| ==> IsWhitespace(s[n]))
    decreases |s|
  {
    if s == [] || IsWhitespace(s[0]) then 0 else WordLength(s[1..]) + 1
  }

  /** `s.split_whitespace()`: the non-empty words separated by runs of whitespace. */
  function Words(s: string): (r: seq<string>)
    ensures forall i :: 0 <= i < |r| ==> r[i] != []
    decreases |s|
  {
    var t := TrimStart(s);
    if t == [] then []
    else
      var n := WordLength(t);
      [t[..n]] + Words(t[n..])
  }
}
