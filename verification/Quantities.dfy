/**
 Token quantities (token/token/quantity.go): a wrapping unsigned 64-bit form and a bounded
 big-integer form, both refining the natural numbers below a power of two, and the checked
 running sums built on them.
 */
module Quantities {
  import opened Prelude
  import opened Numerals

  const TWO63 := 0x8000_0000_0000_0000
  const TWO64 := 0x1_0000_0000_0000_0000

  datatype Quantity = UInt64(value: int) | Big(value: int, precision: nat)

  function Pow2(n: nat): (p: nat)
    ensures 1 <= p
  {
    if n == 0 then 1 else 2 * Pow2(n - 1)
  }

  /** The number of bits of the absolute value, as `big.Int.BitLen`. */
  function BitLen(v: int): nat {
    BitLenNat(if v < 0 then -v else v)
  }

  function BitLenNat(v: nat): nat {
    if v == 0 then 0 else 1 + BitLenNat(v / 2)
  }

  /** A conversion of an unsigned 64-bit precision to a signed `int`. */
  function AsInt(precision: nat): int {
    if precision < TWO63 then precision else precision - TWO64
  }

  predicate ValidPrecision(precision: nat) {
    0 < precision < TWO63
  }

  /** The bound below which the values of a form lie. */
  function Limit(precision: nat): nat {
    if precision == 64 then TWO64 else Pow2(precision)
  }

  function PrecisionOf(q: Quantity): nat {
    match q
    case UInt64(_) => 64
    case Big(_, precision) => precision
  }

  /** A natural number within the form's precision. */
  predicate Valid(q: Quantity) {
    0 <= q.value < Limit(PrecisionOf(q))
  }

  // ---------------------------------------------------------------------------------------
  // Operations

  function Add(q: Quantity, b: Quantity): Result<Quantity> {
    match (q, b)
    case (UInt64(x), UInt64(y)) =>
      var sum := (x + y) % TWO64;
      if sum < x then Err else Ok(UInt64(sum))
    case (Big(x, precision), Big(y, _)) =>
      var sum := x + y;
      if BitLen(sum) > AsInt(precision) then Err else Ok(Big(sum, precision))
    case _ => Err
  }

  function Sub(q: Quantity, b: Quantity): Result<Quantity> {
    match (q, b)
    case (UInt64(x), UInt64(y)) =>
      if y > x then Err else Ok(UInt64(x - y))
    case (Big(x, precision), Big(y, _)) =>
      if x < y then Err else Ok(Big(x - y, precision))
    case _ => Err
  }

  function CompareInts(x: int, y: int): int {
    if x < y then -1 else if x > y then 1 else 0
  }

  /** Mixed comparisons decide on the bit length before they compare exactly. */
  function Cmp(q: Quantity, b: Quantity): int {
    match (q, b)
    case (UInt64(x), UInt64(y)) => CompareInts(x, y)
    case (Big(x, _), Big(y, _)) => CompareInts(x, y)
    case (Big(x, _), UInt64(y)) => if BitLen(x) > 64 then 1 else CompareInts(x, y)
    case (UInt64(x), Big(y, _)) => if BitLen(y) > 64 then -1 else CompareInts(x, y)
  }

  function OfValue(v: int, precision: nat): Quantity {
    if precision == 64 then UInt64(v % TWO64) else Big(v, precision)
  }

  function ToQuantity(s: string, precision: nat): Result<Quantity> {
    if precision == 0 then Err
    else match ParseInt(s)
         case None => Err
         case Some(v) =>
           if v < 0 || BitLen(v) > AsInt(precision) then Err else Ok(OfValue(v, precision))
  }

  function UInt64ToQuantity(u: nat, precision: nat): Result<Quantity> {
    if precision == 0 then Err
    else if precision == 64 then Ok(UInt64(u))
    else if BitLen(u) > AsInt(precision) then Err
    else Ok(Big(u, precision))
  }

  /** The quantity of a value that fits in the precision. */
  function Exactly(v: nat, precision: nat): Quantity {
    if precision == 64 then UInt64(v) else Big(v, precision)
  }

  function ZeroQuantity(precision: nat): Quantity {
    if precision == 64 then UInt64(0) else Big(0, precision)
  }

  function Hex(q: Quantity): string
    requires Valid(q)
  {
    "0x" + Text(q.value, Sixteen)
  }

  function Decimal(q: Quantity): string
    requires Valid(q)
  {
    Text(q.value, Ten)
  }

  // ---------------------------------------------------------------------------------------
  // Refinement of the natural numbers

  lemma {:induction false} BitLenBound(v: nat, p: nat)
    ensures BitLen(v) > p <==> v >= Pow2(p)
  {
    if v > 0 && p > 0 {
      BitLenBound(v / 2, p - 1);
    }
  }

  lemma {:induction false} Pow2Of64()
    ensures Pow2(64) == TWO64
  {
    assert Pow2(8) == 256 by {
      assert Pow2(4) == 16;
    }
    Pow2Add(8, 8);
    Pow2Add(16, 16);
    Pow2Add(32, 32);
  }

  lemma {:induction false} Pow2Add(m: nat, n: nat)
    ensures Pow2(m + n) == Pow2(m) * Pow2(n)
  {
    if m > 0 {
      Pow2Add(m - 1, n);
    }
  }

  lemma {:induction false} LimitIsPow2(precision: nat)
    ensures Limit(precision) == Pow2(precision)
  {
    Pow2Of64();
  }

  /** The precision test of the source: the value fits and the precision converts to a positive `int`. */
  lemma {:induction false} FitsPrecision(v: nat, precision: nat)
    requires precision < TWO64
    ensures BitLen(v) <= AsInt(precision) <==> precision < TWO63 && v < Limit(precision)
  {
    LimitIsPow2(precision);
    if precision < TWO63 {
      BitLenBound(v, precision);
    }
  }

  predicate SameForm(q: Quantity, b: Quantity) {
    q.UInt64? <==> b.UInt64?
  }

  /** Addition succeeds exactly when the true sum fits, and is then the true sum. */
  lemma {:induction false} AddRefines(q: Quantity, b: Quantity)
    requires Valid(q) && Valid(b) && PrecisionOf(q) < TWO64
    ensures Add(q, b).Ok? <==>
            SameForm(q, b) && PrecisionOf(q) < TWO63 && q.value + b.value < Limit(PrecisionOf(q))
    ensures Add(q, b).Ok? ==> Add(q, b).value == q.(value := q.value + b.value) && Valid(Add(q, b).value)
  {
    if q.Big? && b.Big? {
      FitsPrecision(q.value + b.value, q.precision);
    }
  }

  /** Subtraction fails exactly when the true difference is negative. */
  lemma {:induction false} SubRefines(q: Quantity, b: Quantity)
    requires Valid(q) && Valid(b)
    ensures Sub(q, b).Ok? <==> SameForm(q, b) && q.value >= b.value
    ensures Sub(q, b).Ok? ==> Sub(q, b).value == q.(value := q.value - b.value) && Valid(Sub(q, b).value)
  {
  }

  /** Comparison is the order of the values across both forms. */
  lemma {:induction false} CmpRefines(q: Quantity, b: Quantity)
    requires Valid(q) && Valid(b)
    ensures Cmp(q, b) == CompareInts(q.value, b.value)
    ensures Cmp(q, b) == -Cmp(b, q)
  {
    Pow2Of64();
    BitLenBound(q.value, 64);
    BitLenBound(b.value, 64);
  }

  /** A string is a quantity exactly when it reads as a natural number within the precision. */
  lemma {:induction false} ToQuantityRefines(s: string, precision: nat)
    requires precision < TWO64
    ensures ToQuantity(s, precision).Ok? <==>
            ValidPrecision(precision) && ParseInt(s).Some? && 0 <= ParseInt(s).value < Limit(precision)
    ensures ToQuantity(s, precision).Ok? ==>
              var q := ToQuantity(s, precision).value;
              q.value == ParseInt(s).value && PrecisionOf(q) == precision && Valid(q) && Canonical(q)
  {
    if ParseInt(s).Some? && 0 <= ParseInt(s).value {
      FitsPrecision(ParseInt(s).value, precision);
    }
  }

  lemma {:induction false} UInt64ToQuantityRefines(u: nat, precision: nat)
    requires u < TWO64 && precision < TWO64
    ensures UInt64ToQuantity(u, precision).Ok? <==> ValidPrecision(precision) && u < Limit(precision)
    ensures UInt64ToQuantity(u, precision).Ok? ==>
              var q := UInt64ToQuantity(u, precision).value;
              q.value == u && PrecisionOf(q) == precision && Valid(q) && Canonical(q)
  {
    FitsPrecision(u, precision);
  }

  /** 64 bits of precision select the unsigned form. */
  predicate Canonical(q: Quantity) {
    q.Big? ==> q.precision != 64
  }

  /** Writing a quantity and reading it back gives the same quantity. */
  lemma {:induction false} QuantityRoundTrip(q: Quantity)
    requires Valid(q) && Canonical(q) && ValidPrecision(PrecisionOf(q))
    ensures ToQuantity(Hex(q), PrecisionOf(q)) == Ok(q)
    ensures ToQuantity(Decimal(q), PrecisionOf(q)) == Ok(q)
  {
    HexRoundTrip(q.value);
    ToQuantityOf(Hex(q), q.value, PrecisionOf(q));
    DecimalRoundTrip(q.value);
    ToQuantityOf(Decimal(q), q.value, PrecisionOf(q));
  }

  lemma {:induction false} ToQuantityOf(s: string, v: nat, precision: nat)
    requires ParseInt(s) == Some(v) && v < Limit(precision) && ValidPrecision(precision)
    ensures ToQuantity(s, precision) == Ok(Exactly(v, precision))
  {
    ToQuantityRefines(s, precision);
  }

  // ---------------------------------------------------------------------------------------
  // Checked running sums

  /** The number a quantity string denotes, zero if it denotes none. */
  function Amount(s: string): nat {
    match ParseInt(s)
    case Some(v) => if v < 0 then 0 else v
    case None => 0
  }

  function Total(amounts: seq<string>): nat {
    if amounts == [] then 0 else Total(amounts[..|amounts| - 1]) + Amount(amounts[|amounts| - 1])
  }

  ghost predicate AllQuantities(amounts: seq<string>, precision: nat) {
    forall i :: 0 <= i < |amounts| ==> ToQuantity(amounts[i], precision).Ok?
  }

  /** The mathematical total of strings that all denote quantities fits in the precision. */
  ghost predicate Summable(amounts: seq<string>, precision: nat) {
    AllQuantities(amounts, precision) && Total(amounts) < Limit(precision)
  }

  /** One more token: its string is read and its quantity added. */
  method AddToken(sum: Quantity, s: string, precision: nat) returns (result: Result<Quantity>)
    requires precision < TWO64 && Valid(sum) && Canonical(sum) && PrecisionOf(sum) == precision
    ensures result.Ok? <==> ToQuantity(s, precision).Ok? && sum.value + Amount(s) < Limit(precision)
    ensures result.Ok? ==> result.value == sum.(value := sum.value + Amount(s)) && Valid(result.value)
  {
    ParsedAmount(s, precision);
    var q := ToQuantity(s, precision);
    if q.Err? {
      return Err;
    }
    AddRefines(sum, q.value);
    return Add(sum, q.value);
  }

  /** `UnspentTokens.Sum` and `IssuedTokens.Sum`; a panic is an error. */
  method Sum(amounts: seq<string>, precision: nat) returns (result: Result<Quantity>)
    requires precision < TWO64
    ensures result.Ok? <==> Summable(amounts, precision)
    ensures result.Ok? ==> result.value.value == Total(amounts) && PrecisionOf(result.value) == precision
                           && Valid(result.value) && Canonical(result.value)
  {
    var sum := ZeroQuantity(precision);
    LimitPositive(precision);
    for i := 0 to |amounts|
      invariant Summable(amounts[..i], precision)
      invariant Valid(sum) && Canonical(sum)
      invariant sum.value == Total(amounts[..i]) && PrecisionOf(sum) == precision
    {
      var added := AddToken(sum, amounts[i], precision);
      SummableNext(amounts, i, precision);
      if added.Err? {
        SummablePrefix(amounts, i + 1, precision);
        return Err;
      }
      sum := added.value;
    }
    assert amounts[..|amounts|] == amounts;
    return Ok(sum);
  }

  lemma {:induction false} AllQuantitiesNext(amounts: seq<string>, i: nat, precision: nat)
    requires i < |amounts|
    ensures AllQuantities(amounts[..i + 1], precision)
            <==> AllQuantities(amounts[..i], precision) && ToQuantity(amounts[i], precision).Ok?
  {
    var longer := amounts[..i + 1];
    assert longer[i] == amounts[i];
    assert forall j :: 0 <= j < i ==> longer[j] == amounts[..i][j];
  }

  lemma {:induction false} SummableNext(amounts: seq<string>, i: nat, precision: nat)
    requires i < |amounts| && Summable(amounts[..i], precision)
    ensures Total(amounts[..i + 1]) == Total(amounts[..i]) + Amount(amounts[i])
    ensures Summable(amounts[..i + 1], precision) <==>
            ToQuantity(amounts[i], precision).Ok? && Total(amounts[..i]) + Amount(amounts[i]) < Limit(precision)
  {
    TotalNext(amounts, i);
    AllQuantitiesNext(amounts, i, precision);
  }

  lemma {:induction false} SummablePrefix(amounts: seq<string>, i: nat, precision: nat)
    requires i <= |amounts| && !Summable(amounts[..i], precision)
    ensures !Summable(amounts, precision)
  {
    TotalMonotone(amounts, i);
    if Total(amounts[..i]) < Limit(precision) {
      var j :| 0 <= j < i && !ToQuantity(amounts[..i][j], precision).Ok?;
      assert amounts[j] == amounts[..i][j];
    }
  }

  lemma {:induction false} LimitPositive(precision: nat)
    ensures 0 < Limit(precision)
  {
  }

  lemma {:induction false} ParsedAmount(s: string, precision: nat)
    requires precision < TWO64
    ensures ToQuantity(s, precision).Ok? ==>
              var q := ToQuantity(s, precision).value;
              q.value == Amount(s) && PrecisionOf(q) == precision && Valid(q) && Canonical(q)
              && ValidPrecision(precision)
  {
    ToQuantityRefines(s, precision);
  }

  lemma {:induction false} TotalNext(amounts: seq<string>, i: nat)
    requires i < |amounts|
    ensures Total(amounts[..i + 1]) == Total(amounts[..i]) + Amount(amounts[i])
  {
    assert amounts[..i + 1][..i] == amounts[..i];
  }

  lemma {:induction false} TotalMonotone(amounts: seq<string>, i: nat)
    requires i <= |amounts|
    ensures Total(amounts[..i]) <= Total(amounts)
  {
    if i == |amounts| {
      assert amounts[..i] == amounts;
    } else {
      TotalMonotone(amounts[..|amounts| - 1], i);
      assert amounts[..|amounts| - 1][..i] == amounts[..i];
    }
  }

  function SumBy(f: string -> nat, s: seq<string>): nat {
    if s == [] then 0 else SumBy(f, s[..|s| - 1]) + f(s[|s| - 1])
  }

  lemma {:induction false} SumByConcat(f: string -> nat, a: seq<string>, b: seq<string>)
    ensures SumBy(f, a + b) == SumBy(f, a) + SumBy(f, b)
  {
    if b == [] {
      assert a + b == a;
    } else {
      SumByConcat(f, a, b[..|b| - 1]);
      assert (a + b)[..|a + b| - 1] == a + b[..|b| - 1];
    }
  }

  lemma {:induction false} TotalIsSum(amounts: seq<string>)
    ensures Total(amounts) == SumBy(Amount, amounts)
  {
    if amounts != [] {
      TotalIsSum(amounts[..|amounts| - 1]);
    }
  }

  lemma {:induction false} TotalConcat(a: seq<string>, b: seq<string>)
    ensures Total(a + b) == Total(a) + Total(b)
  {
    TotalIsSum(a);
    TotalIsSum(b);
    TotalIsSum(a + b);
    SumByConcat(Amount, a, b);
  }

  lemma {:induction false} TotalPermutation(a: seq<string>, b: seq<string>)
    requires multiset(a) == multiset(b)
    ensures Total(a) == Total(b)
  {
    if a == [] {
      assert |b| == |multiset(b)| == |multiset(a)| == 0;
    } else {
      var n := |a| - 1;
      var init, last := a[..n], a[n];
      assert last in multiset(b);
      var i :| 0 <= i < |b| && b[i] == last;
      WithoutOne(a, n);
      WithoutOne(b, i);
      assert init + a[n + 1..] == init;
      TotalPermutation(init, b[..i] + b[i + 1..]);
    }
  }

  lemma {:induction false} WithoutOne(a: seq<string>, i: nat)
    requires i < |a|
    ensures multiset(a[..i] + a[i + 1..]) == multiset(a) - multiset{a[i]}
    ensures Total(a) == Total(a[..i] + a[i + 1..]) + Amount(a[i])
  {
    SplitAt(a, i);
    MultisetAround(a[..i], a[i], a[i + 1..]);
    TotalAround(a[..i], a[i], a[i + 1..]);
  }

  lemma {:induction false} SplitAt(a: seq<string>, i: nat)
    requires i < |a|
    ensures a == a[..i] + [a[i]] + a[i + 1..]
  {
  }

  lemma {:induction false} MultisetAround(left: seq<string>, s: string, right: seq<string>)
    ensures multiset(left + right) == multiset(left + [s] + right) - multiset{s}
  {
  }

  lemma {:induction false} TotalAround(left: seq<string>, s: string, right: seq<string>)
    ensures Total(left + [s] + right) == Total(left + right) + Amount(s)
  {
    TotalConcat(left, right);
    TotalConcat(left + [s], right);
    assert (left + [s])[..|left|] == left;
  }

  /** The running sum does not depend on the order of the tokens. */
  lemma {:induction false} SumOrderIndependent(a: seq<string>, b: seq<string>, precision: nat)
    requires multiset(a) == multiset(b)
    ensures Summable(a, precision) <==> Summable(b, precision)
    ensures Total(a) == Total(b)
  {
    TotalPermutation(a, b);
    if AllQuantities(a, precision) {
      QuantitiesPermutation(a, b, precision);
    }
    if AllQuantities(b, precision) {
      QuantitiesPermutation(b, a, precision);
    }
  }

  lemma {:induction false} QuantitiesPermutation(a: seq<string>, b: seq<string>, precision: nat)
    requires multiset(a) == multiset(b) && AllQuantities(a, precision)
    ensures AllQuantities(b, precision)
  {
    forall i | 0 <= i < |b| ensures ToQuantity(b[i], precision).Ok? {
      assert b[i] in multiset(a);
      var j :| 0 <= j < |a| && a[j] == b[i];
    }
  }
}
