/**
 Numbers as text: the digits that `strconv.FormatUint` and `big.Int.Text` write, and the base-0
 scanner behind `big.Int.SetString(s, 0)` that `ToQuantity` reads with.
 */
module Numerals {
  import opened Prelude

  function DigitChar(d: nat): char
    requires d < 16
  {
    if d < 10 then '0' + d as char else 'a' + (d - 10) as char
  }

  datatype Radix = Two | Eight | Ten | Sixteen

  function Base(r: Radix): (base: nat)
    ensures 2 <= base <= 16
  {
    match r
    case Two => 2
    case Eight => 8
    case Ten => 10
    case Sixteen => 16
  }

  function Quotient(n: nat, r: Radix): (q: nat)
    ensures n >= 1 ==> q < n
  {
    match r
    case Two => n / 2
    case Eight => n / 8
    case Ten => n / 10
    case Sixteen => n / 16
  }

  function Remainder(n: nat, r: Radix): (d: nat)
    ensures d < Base(r)
    ensures n == Quotient(n, r) * Base(r) + d
  {
    match r
    case Two => n % 2
    case Eight => n % 8
    case Ten => n % 10
    case Sixteen => n % 16
  }

  /** The digits of a number, most significant first. */
  function Text(n: nat, r: Radix): (text: string)
    ensures text != ""
  {
    if n < Base(r) then [DigitChar(n)] else Text(Quotient(n, r), r) + [DigitChar(Remainder(n, r))]
  }

  /** The value of a digit; anything that is not a digit is out of range for every base. */
  function DigitValue(c: char): nat {
    if '0' <= c <= '9' then (c - '0') as nat
    else if 'a' <= c <= 'z' then (c - 'a') as nat + 10
    else if 'A' <= c <= 'Z' then (c - 'A') as nat + 10
    else 99
  }

  /** What was read last: '0' for a digit or a prefix, '_' for a separator, '.' for nothing. */
  datatype Scan = Bad | Scan(prev: char, value: nat, count: nat)

  /** One more digit. */
  function Appended(value: nat, base: nat, d: nat): nat {
    value * base + d
  }

  function ScanChar(base: nat, scan: Scan, c: char): Scan {
    if scan.Bad? then Bad
    else if c == '_' then if scan.prev == '0' then scan.(prev := '_') else Bad
    else if DigitValue(c) >= base then Bad
    else Scan('0', Appended(scan.value, base, DigitValue(c)), scan.count + 1)
  }

  function ScanAll(base: nat, start: Scan, s: string): Scan {
    if s == "" then start else ScanChar(base, ScanAll(base, start, s[..|s| - 1]), s[|s| - 1])
  }

  function Finish(scan: Scan): Option<nat> {
    if scan.Bad? || scan.prev == '_' || scan.count == 0 then None else Some(scan.value)
  }

  /** An unsigned number whose prefix selects the base. */
  function ParseNat(s: string): Option<nat> {
    if s == "" then None
    else if s[0] != '0' then Finish(ScanAll(10, Scan('.', 0, 0), s))
    else if |s| == 1 then Some(0)
    else if s[1] == 'b' || s[1] == 'B' then Finish(ScanAll(2, Scan('0', 0, 0), s[2..]))
    else if s[1] == 'o' || s[1] == 'O' then Finish(ScanAll(8, Scan('0', 0, 0), s[2..]))
    else if s[1] == 'x' || s[1] == 'X' then Finish(ScanAll(16, Scan('0', 0, 0), s[2..]))
    else Finish(ScanAll(8, Scan('0', 0, 0), s[1..]))
  }

  /** `big.Int.SetString(s, 0)`. */
  function ParseInt(s: string): Option<int> {
    if s != "" && (s[0] == '-' || s[0] == '+') then
      match ParseNat(s[1..])
      case None => None
      case Some(n) => Some(if s[0] == '-' then -(n as int) else n as int)
    else
      match ParseNat(s)
      case None => None
      case Some(n) => Some(n)
  }

  lemma {:induction false} DigitRoundTrip(d: nat)
    requires d < 16
    ensures DigitValue(DigitChar(d)) == d
    ensures DigitChar(d) == '0' <==> d == 0
    ensures '0' <= DigitChar(d) <= '9' || 'a' <= DigitChar(d) <= 'f'
  {
  }

  /** Scanning one more digit of a number whose leading digits have been scanned. */
  lemma {:induction false} ScanDigit(base: nat, start: Scan, lead: string, value: nat, d: nat)
    requires d < base <= 16
    requires ScanAll(base, start, lead) == Scan('0', value, |lead|)
    ensures ScanAll(base, start, lead + [DigitChar(d)]) == Scan('0', Appended(value, base, d), |lead| + 1)
  {
    DigitRoundTrip(d);
    assert (lead + [DigitChar(d)])[..|lead|] == lead;
  }

  lemma {:induction false} TextScans(n: nat, r: Radix, prev: char)
    ensures ScanAll(Base(r), Scan(prev, 0, 0), Text(n, r)) == Scan('0', n, |Text(n, r)|)
  {
    if n < Base(r) {
      DigitRoundTrip(n);
      assert Text(n, r)[..0] == "";
    } else {
      var q, d := Quotient(n, r), Remainder(n, r);
      TextScans(q, r, prev);
      ScanDigit(Base(r), Scan(prev, 0, 0), Text(q, r), q, d);
      assert Text(n, r) == Text(q, r) + [DigitChar(d)];
    }
  }

  lemma {:induction false} TextDigits(n: nat, r: Radix, i: nat)
    requires i < |Text(n, r)|
    ensures '0' <= Text(n, r)[i] <= '9' || 'a' <= Text(n, r)[i] <= 'f'
    ensures i == 0 && n > 0 ==> Text(n, r)[0] != '0'
  {
    if n < Base(r) {
      DigitRoundTrip(n);
    } else {
      var q := Quotient(n, r);
      DigitRoundTrip(Remainder(n, r));
      if i < |Text(q, r)| {
        TextDigits(q, r, i);
      }
    }
  }

  /** Decimal text reads back, zero included. */
  lemma {:induction false} DecimalRoundTrip(n: nat)
    ensures ParseInt(Text(n, Ten)) == Some(n)
  {
    TextDigits(n, Ten, 0);
    if n > 0 {
      TextScans(n, Ten, '.');
    } else {
      DigitRoundTrip(0);
    }
  }

  /** Prefixed hexadecimal text reads back. */
  lemma {:induction false} HexRoundTrip(n: nat)
    ensures ParseInt("0x" + Text(n, Sixteen)) == Some(n)
  {
    var s := "0x" + Text(n, Sixteen);
    assert s[0] == '0' && s[1] == 'x' && s[2..] == Text(n, Sixteen);
    TextScans(n, Sixteen, '0');
  }

  /** The prefixes that select a base. */
  predicate PrefixOf(prefix: string, r: Radix) {
    match r
    case Two => prefix == "0b" || prefix == "0B"
    case Eight => prefix == "0o" || prefix == "0O" || prefix == "0"
    case Ten => prefix == ""
    case Sixteen => prefix == "0x" || prefix == "0X"
  }

  lemma {:induction false} LeadingDigit(n: nat, r: Radix)
    ensures DigitValue(Text(n, r)[0]) < Base(r)
  {
    if n < Base(r) {
      DigitRoundTrip(n);
    } else {
      LeadingDigit(Quotient(n, r), r);
    }
  }

  /** Digits after a prefix of two characters. */
  lemma {:induction false} AfterPrefix(r: Radix, prefix: string, digits: string, n: nat)
    requires PrefixOf(prefix, r) && |prefix| == 2
    requires Finish(ScanAll(Base(r), Scan('0', 0, 0), digits)) == Some(n)
    ensures ParseNat(prefix + digits) == Some(n)
  {
    var s := prefix + digits;
    assert s[0] == prefix[0] && s[1] == prefix[1] && s[2..] == digits;
  }

  /** Digits after a leading zero. */
  lemma {:induction false} AfterZero(digits: string, n: nat)
    requires digits != "" && DigitValue(digits[0]) < 8
    requires Finish(ScanAll(8, Scan('0', 0, 0), digits)) == Some(n)
    ensures ParseNat("0" + digits) == Some(n)
  {
    var s := "0" + digits;
    assert s[0] == '0' && s[1] == digits[0] && s[1..] == digits;
  }

  lemma {:induction false} PrefixedNat(n: nat, r: Radix, prefix: string)
    requires PrefixOf(prefix, r) && (r.Ten? ==> n > 0)
    ensures ParseNat(prefix + Text(n, r)) == Some(n)
  {
    var digits := Text(n, r);
    TextScans(n, r, if r.Ten? then '.' else '0');
    if r.Ten? {
      TextDigits(n, r, 0);
      assert prefix + digits == digits;
    } else if prefix == "0" {
      LeadingDigit(n, r);
      AfterZero(digits, n);
    } else {
      AfterPrefix(r, prefix, digits, n);
    }
  }

  /** A sign, or none, before a natural number. */
  lemma {:induction false} Signs(s: string, n: nat)
    requires s != "" && s[0] != '-' && s[0] != '+' && ParseNat(s) == Some(n)
    ensures ParseInt(s) == Some(n) && ParseInt("+" + s) == Some(n)
    ensures ParseInt("-" + s).Some? && ParseInt("-" + s).value + n == 0
  {
    assert ("-" + s)[1..] == s && ("+" + s)[1..] == s;
  }

  /** Text in any base reads back under each prefix of that base, with or without a sign. */
  lemma {:induction false} PrefixedRoundTrip(n: nat, r: Radix, prefix: string)
    requires PrefixOf(prefix, r) && (r.Ten? ==> n > 0)
    ensures var s := prefix + Text(n, r);
            && ParseInt(s) == Some(n) && ParseInt("+" + s) == Some(n)
            && ParseInt("-" + s).Some? && ParseInt("-" + s).value + n == 0
  {
    PrefixedNat(n, r, prefix);
    TextDigits(n, r, 0);
    var s := prefix + Text(n, r);
    assert s[0] == if prefix == "" then Text(n, r)[0] else prefix[0];
    Signs(s, n);
  }

  /** A separator between two digits changes nothing ... */
  lemma {:induction false} SeparatorIgnored(base: nat, start: Scan, lead: string, rest: string)
    requires ScanAll(base, start, lead).Scan? && ScanAll(base, start, lead).prev == '0'
    requires rest != "" && rest[0] != '_' && DigitValue(rest[0]) < base
    ensures ScanAll(base, start, lead + "_" + rest) == ScanAll(base, start, lead + rest)
  {
    var n := |rest| - 1;
    assert (lead + "_" + rest)[..|lead| + 1 + n] == lead + "_" + rest[..n];
    assert (lead + rest)[..|lead| + n] == lead + rest[..n];
    if n == 0 {
      assert lead + "_" + rest[..0] == lead + "_" && (lead + "_")[..|lead|] == lead && lead + rest[..0] == lead;
    } else {
      SeparatorIgnored(base, start, lead, rest[..n]);
    }
  }

  /** ... and anywhere else is refused. */
  lemma {:induction false} SeparatorRefused(base: nat, start: Scan, lead: string)
    requires ScanAll(base, start, lead).Scan?
    ensures ScanAll(base, start, lead).prev != '0' ==> ScanAll(base, start, lead + "_") == Bad
    ensures Finish(ScanAll(base, start, lead + "_")) == None
  {
    assert (lead + "_")[..|lead|] == lead;
  }
}
