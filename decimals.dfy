/** Exact decimal arithmetic in the style of java.math.BigDecimal, restricted to
    what the client needs: moving the decimal point, truncating to a Java `long`,
    and the satoshi (10^-8) unit conversion in both directions. */
module Decimals {

  /** A BigDecimal with a non-negative scale: the number unscaled × 10^(-scale). */
  datatype Decimal = Decimal(unscaled: int, scale: nat)

  /** Number of decimal places between a coin and its smallest unit. */
  const SatoshiDigits: nat := 8
  const SatoshisPerCoin: nat := 100_000_000

  const TwoTo63: int := 0x8000_0000_0000_0000
  const TwoTo64: int := 0x1_0000_0000_0000_0000
  const MinLong: int := -TwoTo63
  const MaxLong: int := TwoTo63 - 1

  function Abs(x: int): nat { if x < 0 then -x else x }

  function Pow10(n: nat): (r: nat)
    ensures r >= 1
  {
    if n == 0 then 1 else 10 * Pow10(n - 1)
  }

  lemma {:induction false} Pow10Add(a: nat, b: nat)
    ensures Pow10(a + b) == Pow10(a) * Pow10(b)
  {
    if a > 0 {
      Pow10Add(a - 1, b);
      assert Pow10(a + b) == 10 * Pow10(a - 1 + b);
    }
  }

  lemma Pow10Satoshi()
    ensures Pow10(SatoshiDigits) == SatoshisPerCoin
  {
  }

  // Facts of ordered-ring arithmetic that the solver does not find unaided.

  lemma MulStrict(x: int, y: int, c: int)
    requires x < y && c > 0
    ensures x * c < y * c
  {
  }

  lemma MulMono(x: int, y: int, c: int)
    requires x <= y && c >= 0
    ensures x * c <= y * c
  {
  }

  lemma MulAssoc(a: int, b: int, c: int)
    ensures (a * b) * c == a * (b * c)
  {
  }

  lemma MulRearrange(a: int, b: int, c: int)
    ensures a * (b * c) == (a * c) * b
  {
  }

  lemma AbsMul(u: int, p: int)
    requires p >= 1
    ensures Abs(u * p) == Abs(u) * p
    ensures u * p > 0 ==> u > 0
    ensures u * p < 0 ==> u < 0
  {
    if u < 0 {
      MulStrict(u, 0, p);
      assert Abs(u * p) == (-u) * p;
    } else {
      MulMono(0, u, p);
    }
  }

  /** Two counts that both fit a quotient are the same count. */
  lemma FloorUnique(x: nat, y: nat, a: int, p: int)
    requires p > 0
    requires x * p <= a < (x + 1) * p
    requires y * p <= a < (y + 1) * p
    ensures x == y
  {
    if x < y {
      MulMono(x + 1, y, p);
    }
    if y < x {
      MulMono(y + 1, x, p);
    }
  }

  /** Scaling both sides of a truncated quotient by the same factor. */
  lemma ScaleBounds(q: int, a: int, p: int, c: int)
    requires p > 0 && c > 0
    requires Abs(q) * p <= Abs(a) < (Abs(q) + 1) * p
    ensures Abs(q) * (p * c) <= Abs(a) * c < (Abs(q) + 1) * (p * c)
  {
    MulMono(Abs(q) * p, Abs(a), c);
    MulStrict(Abs(a), (Abs(q) + 1) * p, c);
  }

  /** Whether x fits in a Java `long`. */
  predicate InLong(x: int) { MinLong <= x <= MaxLong }

  /** The low-order 64 bits of x read as a two's-complement `long`, which is what
      BigInteger.longValue() keeps when x is too large. */
  function ToLong(x: int): (r: int)
    ensures InLong(r)
    ensures InLong(x) ==> r == x
  {
    (x - MinLong) % TwoTo64 + MinLong
  }

  /** ToLong only drops multiples of 2^64. */
  lemma ToLongCongruent(x: int)
    ensures (x - ToLong(x)) % TwoTo64 == 0
  {
    var m := (x - MinLong) % TwoTo64;
    assert x - MinLong == TwoTo64 * ((x - MinLong) / TwoTo64) + m;
  }

  /** A quotient whose magnitude times p stays below 2^63 × p is a long. */
  lemma OutOfLongBound(q: int, a: int, p: int)
    requires p > 0 && Abs(q) * p <= a && a < TwoTo63 * p
    ensures InLong(q)
  {
    if !InLong(q) {
      MulMono(TwoTo63, Abs(q), p);
    }
  }

  /** Integer division that truncates toward zero, as BigDecimal.toBigInteger does. */
  function TruncDiv(a: int, b: int): (q: int)
    requires b > 0
    ensures a >= 0 ==> q >= 0
    ensures a <= 0 ==> q <= 0
  {
    if a >= 0 then a / b else -((-a) / b)
  }

  /** TruncDiv(a, b) is a / b rounded toward zero: its magnitude is the number of
      whole b's in |a|, and it is never on the other side of zero from a. */
  lemma TruncDivBounds(a: int, b: int)
    requires b > 0
    ensures Abs(TruncDiv(a, b)) * b <= Abs(a) < (Abs(TruncDiv(a, b)) + 1) * b
    ensures TruncDiv(a, b) > 0 ==> a > 0
    ensures TruncDiv(a, b) < 0 ==> a < 0
  {
    var x := Abs(a);
    assert x == b * (x / b) + x % b;
    assert Abs(TruncDiv(a, b)) == x / b;
  }

  /** The bounds of TruncDivBounds single out the quotient. */
  lemma TruncDivUnique(a: int, b: int, q: int)
    requires b > 0
    requires Abs(q) * b <= Abs(a) < (Abs(q) + 1) * b
    requires q > 0 ==> a > 0
    requires q < 0 ==> a < 0
    ensures q == TruncDiv(a, b)
  {
    var t := TruncDiv(a, b);
    TruncDivBounds(a, b);
    FloorUnique(Abs(q), Abs(t), Abs(a), b);
    if a == 0 && q != 0 {
      MulMono(1, Abs(q), b);
    }
  }

  /** BigDecimal.movePointRight(n): the value × 10^n, with scale max(scale - n, 0). */
  function MovePointRight(d: Decimal, n: nat): (r: Decimal)
    ensures r.scale == if d.scale >= n then d.scale - n else 0
  {
    if d.scale >= n then Decimal(d.unscaled, d.scale - n)
    else Decimal(d.unscaled * Pow10(n - d.scale), 0)
  }

  /** Numeric equality of two decimals (BigDecimal.compareTo(...) == 0). */
  predicate SameValue(a: Decimal, b: Decimal)
  {
    a.unscaled * Pow10(b.scale) == b.unscaled * Pow10(a.scale)
  }

  /** Moving the point n places right multiplies the value by 10^n. */
  lemma MovePointRightValue(d: Decimal, n: nat)
    ensures SameValue(MovePointRight(d, n), Decimal(d.unscaled * Pow10(n), d.scale))
  {
    var u, s, r := d.unscaled, d.scale, MovePointRight(d, n);
    if s >= n {
      var k := s - n;
      Pow10Add(k, n);
      assert Pow10(s) == Pow10(k) * Pow10(n);
      MulRearrange(u, Pow10(k), Pow10(n));
      assert r.unscaled * Pow10(s) == u * (Pow10(k) * Pow10(n));
    } else {
      var k := n - s;
      Pow10Add(k, s);
      assert Pow10(n) == Pow10(k) * Pow10(s);
      MulAssoc(u, Pow10(k), Pow10(s));
      assert r.unscaled == u * Pow10(k) && Pow10(r.scale) == 1;
    }
  }

  /** BigDecimal.longValue(): drop the fractional part, then keep the low 64 bits. */
  function LongValue(d: Decimal): (r: int)
    ensures InLong(r)
  {
    ToLong(TruncDiv(d.unscaled, Pow10(d.scale)))
  }

  /** The wire amount for a coin amount: the amount × 10^8 with the remaining
      fraction dropped, as a `long` (MinorUnitsMatchesBigDecimal shows that this is
      `d.movePointRight(8).longValue()`). */
  function MinorUnits(d: Decimal): (r: int)
    ensures InLong(r)
  {
    ToLong(TruncDiv(d.unscaled * SatoshisPerCoin, Pow10(d.scale)))
  }

  /** For a scale of at most 8, the amount is a whole number of satoshis. */
  lemma ExactSatoshis(d: Decimal)
    requires d.scale <= SatoshiDigits
    ensures TruncDiv(d.unscaled * SatoshisPerCoin, Pow10(d.scale))
            == d.unscaled * Pow10(SatoshiDigits - d.scale)
  {
    var u, s := d.unscaled, d.scale;
    var k := Pow10(SatoshiDigits - s);
    Pow10Add(SatoshiDigits - s, s);
    Pow10Satoshi();
    AbsMul(u, k);
    MulAssoc(Abs(u), k, Pow10(s));
    MulAssoc(u, k, Pow10(s));
    assert Abs(u * k) * Pow10(s) == Abs(u * SatoshisPerCoin);
    TruncDivUnique(u * SatoshisPerCoin, Pow10(s), u * k);
  }

  /** The direct formula of MinorUnits agrees with BigDecimal's two steps. */
  lemma MinorUnitsMatchesBigDecimal(d: Decimal)
    ensures MinorUnits(d) == LongValue(MovePointRight(d, SatoshiDigits))
  {
    var u, s := d.unscaled, d.scale;
    var m := MovePointRight(d, SatoshiDigits);
    if s >= SatoshiDigits {
      var p := Pow10(s - SatoshiDigits);
      var q := TruncDiv(u, p);
      TruncDivBounds(u, p);
      ScaleBounds(q, u, p, SatoshisPerCoin);
      Pow10Add(s - SatoshiDigits, SatoshiDigits);
      Pow10Satoshi();
      assert Pow10(s) == p * SatoshisPerCoin;
      assert Abs(u * SatoshisPerCoin) == Abs(u) * SatoshisPerCoin;
      TruncDivUnique(u * SatoshisPerCoin, Pow10(s), q);
    } else {
      ExactSatoshis(d);
      assert Pow10(m.scale) == 1;
    }
  }

  /** Conversions.satoshiToBitcoin, taken to be the exact quotient by 10^8. */
  function SatoshiToBitcoin(satoshis: int): (coins: Decimal)
    ensures MovePointRight(coins, SatoshiDigits) == Decimal(satoshis, 0)
  {
    Decimal(satoshis, SatoshiDigits)
  }

  /** Any `long` count of satoshis, converted to coins and back to the wire unit,
      is the same count. */
  lemma SatoshisRoundTrip(satoshis: int)
    requires InLong(satoshis)
    ensures MinorUnits(SatoshiToBitcoin(satoshis)) == satoshis
  {
    ExactSatoshis(SatoshiToBitcoin(satoshis));
  }

  /** The amount, counted in satoshis, lies strictly between -2^63 and 2^63. */
  predicate FitsInLong(d: Decimal)
  {
    Abs(d.unscaled) * SatoshisPerCoin < TwoTo63 * Pow10(d.scale)
  }

  /** The wire amount is the coin amount × 10^8 truncated toward zero: never rounded
      up in magnitude, and never on the other side of zero from the amount. */
  lemma MinorUnitsTruncates(d: Decimal)
    requires FitsInLong(d)
    ensures Abs(MinorUnits(d)) * Pow10(d.scale) <= Abs(d.unscaled) * SatoshisPerCoin
    ensures Abs(d.unscaled) * SatoshisPerCoin < (Abs(MinorUnits(d)) + 1) * Pow10(d.scale)
    ensures MinorUnits(d) > 0 ==> d.unscaled > 0
    ensures MinorUnits(d) < 0 ==> d.unscaled < 0
  {
    var a := d.unscaled * SatoshisPerCoin;
    var t := TruncDiv(a, Pow10(d.scale));
    TruncDivBounds(a, Pow10(d.scale));
    assert Abs(a) == Abs(d.unscaled) * SatoshisPerCoin;
    OutOfLongBound(t, Abs(a), Pow10(d.scale));
    assert MinorUnits(d) == t;
  }

  /** For an amount with at most 8 decimal places, converting to satoshis and back
      gives the same number. */
  lemma MinorUnitsRoundTrip(d: Decimal)
    requires d.scale <= SatoshiDigits && FitsInLong(d)
    ensures MinorUnits(d) == d.unscaled * Pow10(SatoshiDigits - d.scale)
    ensures SameValue(SatoshiToBitcoin(MinorUnits(d)), d)
  {
    var u, s := d.unscaled, d.scale;
    var k := Pow10(SatoshiDigits - s);
    ExactSatoshis(d);
    AbsMul(u, k);
    Pow10Add(SatoshiDigits - s, s);
    Pow10Satoshi();
    MulAssoc(Abs(u), k, Pow10(s));
    OutOfLongBound(u * k, Abs(u) * SatoshisPerCoin, Pow10(s));
    assert MinorUnits(d) == u * k;
    MulAssoc(u, k, Pow10(s));
  }

  /** 1.123456789 coins is 112345678 satoshis: the ninth digit is dropped, on
      either side of zero. */
  lemma TruncationExample()
    ensures MinorUnits(Decimal(1123456789, 9)) == 112345678
    ensures MinorUnits(Decimal(-1123456789, 9)) == -112345678
  {
  }
}
