/** Signed arithmetic on 256-bit words. */
module SignedWords {
  import opened Prelude
  import opened Arithmetic

  datatype Sign = Minus | Zero | Plus
  datatype Ordering = Less | Equal | Greater

  /** The number a word stands for in two's complement. */
  function Signed(x: Word): int {
    if x < TWO_255 then x else x - TWO_256
  }

  /** The word of a number that a word can stand for, or of 2^255, which wraps. */
  function Wrapped(v: int): Word
    requires -TWO_255 <= v <= TWO_255
  {
    if v < 0 then v + TWO_256 else v
  }

  function Abs(v: int): nat {
    if v < 0 then -v else v
  }

  /** Division that rounds toward zero, and its remainder. */
  function TruncDiv(a: int, b: int): int
    requires b != 0
  {
    if (a < 0) == (b < 0) then Abs(a) / Abs(b) else -(Abs(a) / Abs(b))
  }

  function TruncMod(a: int, b: int): int
    requires b != 0
  {
    if a < 0 then -(Abs(a) % Abs(b)) else Abs(a) % Abs(b)
  }

  lemma AbsDivMod(m: nat, n: nat)
    requires n > 0
    ensures m == (m / n) * n + m % n && m / n <= m && m % n < n && m % n <= m
  {
    DivMod(m, n);
    MulGrows(1, n, m / n);
  }

  /** The remainder is what the division leaves, and takes the dividend's sign. */
  lemma TruncLaw(a: int, b: int)
    requires b != 0
    ensures a == TruncDiv(a, b) * b + TruncMod(a, b)
    ensures Abs(TruncMod(a, b)) < Abs(b) && (TruncMod(a, b) != 0 ==> (TruncMod(a, b) < 0 <==> a < 0))
  {
    AbsDivMod(Abs(a), Abs(b));
  }

  function SignOf(x: Word): Sign {
    if x >= TWO_255 then Minus else if x == 0 then Zero else Plus
  }

  function TwoCompl(x: Word): Word {
    if x == 0 then 0 else TWO_256 - x
  }

  /** The word without its sign, and the sign. */
  function SignCompl(x: Word): (Word, Sign) {
    (if SignOf(x) == Minus then TwoCompl(x) else x, SignOf(x))
  }

  /** Clears the top bit. */
  function RemoveSign(x: Word): Word {
    if x >= TWO_255 then x - TWO_255 else x
  }

  lemma SignComplIsAbs(x: Word)
    ensures SignCompl(x).0 == Abs(Signed(x)) <= TWO_255
    ensures SignCompl(x).1 == (if Signed(x) < 0 then Minus else if Signed(x) == 0 then Zero else Plus)
  {
  }

  /** Signed division. Dividing by zero gives zero; -2^255 / -1 wraps to -2^255. */
  method I256Div(a: Word, b: Word) returns (r: Word)
    ensures b == 0 ==> r == 0
    ensures b != 0 ==> -TWO_255 <= TruncDiv(Signed(a), Signed(b)) <= TWO_255 && r == Wrapped(TruncDiv(Signed(a), Signed(b)))
  {
    SignComplIsAbs(a);
    SignComplIsAbs(b);
    var (second, secondSign) := SignCompl(b);
    if secondSign == Zero { return 0; }
    var (first, firstSign) := SignCompl(a);
    AbsDivMod(first, second);
    if first == TWO_255 && second == 1 { return TwoCompl(TWO_255); }
    QuotientFits(first, second);
    var d := RemoveSign(first / second);
    if (firstSign == Minus && secondSign != Minus) || (secondSign == Minus && firstSign != Minus) {
      r := TwoCompl(d);
    } else {
      r := d;
    }
  }

  lemma QuotientFits(m: nat, n: nat)
    requires n > 0 && m <= TWO_255 && (m < TWO_255 || n != 1)
    ensures m / n < TWO_255
  {
    if n > 1 {
      assert (m / n) * n <= m;
      assert (m / n) * 2 <= (m / n) * n;
    }
  }

  /** Signed remainder, with the dividend's sign. */
  method I256Mod(a: Word, b: Word) returns (r: Word)
    ensures b == 0 ==> r == 0
    ensures b != 0 ==> -TWO_255 <= TruncMod(Signed(a), Signed(b)) < TWO_255 && r == Wrapped(TruncMod(Signed(a), Signed(b)))
  {
    SignComplIsAbs(a);
    SignComplIsAbs(b);
    var (first, firstSign) := SignCompl(a);
    if firstSign == Zero {
      if b != 0 {
        AbsDivMod(0, Abs(Signed(b)));
      }
      return 0;
    }
    var (second, secondSign) := SignCompl(b);
    if secondSign == Zero { return 0; }
    AbsDivMod(first, second);
    var m := RemoveSign(first % second);
    r := if firstSign == Minus then TwoCompl(m) else m;
  }

  /** Division and remainder fit together: what the two instructions return satisfies
      a = div * b + mod modulo 2^256. */
  method DivModLaw(a: Word, b: Word) returns (d: Word, m: Word)
    requires b != 0
    ensures (d * b + m - a) % TWO_256 == 0
  {
    d := I256Div(a, b);
    m := I256Mod(a, b);
    var x, y := Signed(a), Signed(b);
    TruncLaw(x, y);
    Combine(a, b, d, m, x, y, TruncDiv(x, y), TruncMod(x, y));
  }

  lemma Combine(a: int, b: int, d: int, m: int, x: int, y: int, q: int, r: int)
    requires x == q * y + r
    requires (a == x || a == x + TWO_256) && (b == y || b == y + TWO_256)
    requires (d == q || d == q + TWO_256) && (m == r || m == r + TWO_256)
    ensures (d * b + m - a) % TWO_256 == 0
  {
    var i, j, k, l := if a == x then 0 else 1, if b == y then 0 else 1, if d == q then 0 else 1, if m == r then 0 else 1;
    var n := k * y + j * q + k * j * TWO_256 + l - i;
    Distribute(q, k, y, j);
    assert d * b + m - a == n * TWO_256;
  }

  lemma Distribute(q: int, k: int, y: int, j: int)
    ensures (q + k * TWO_256) * (y + j * TWO_256) == q * y + (k * y + j * q + k * j * TWO_256) * TWO_256
  {
  }

  /** Signed order, as SLT and SGT use it. */
  method I256Cmp(a: Word, b: Word) returns (o: Ordering)
    ensures o == Less <==> Signed(a) < Signed(b)
    ensures o == Equal <==> Signed(a) == Signed(b)
  {
    var x, y := SignOf(a), SignOf(b);
    if x == y {
      o := if a < b then Less else if a == b then Equal else Greater;
    } else {
      o := if x == Minus || (x == Zero && y == Plus) then Less else Greater;
    }
  }

  // ---- Arithmetic shift ----

  function Pow2(n: nat): (r: nat)
    ensures r >= 1
  {
    if n == 0 then 1 else 2 * Pow2(n - 1)
  }

  /** Bitwise or. */
  function Or(a: nat, b: nat): nat
    decreases a + b
  {
    if a == 0 && b == 0 then 0
    else 2 * Or(a / 2, b / 2) + (if a % 2 == 1 || b % 2 == 1 then 1 else 0)
  }

  lemma {:induction false} OrZero(b: nat)
    ensures Or(0, b) == b
    decreases b
  {
    if b > 0 {
      OrZero(b / 2);
    }
  }

  /** Below and above a bit position nothing overlaps, so or is addition. */
  lemma {:induction false} OrIsPlus(low: nat, high: nat, k: nat)
    requires low < Pow2(k)
    ensures Or(low, high * Pow2(k)) == low + high * Pow2(k)
    decreases k
  {
    if k == 0 {
      OrZero(high);
      assert high * Pow2(0) == high;
    } else {
      var b := high * Pow2(k);
      assert b == 2 * (high * Pow2(k - 1));
      OrIsPlus(low / 2, high, k - 1);
    }
  }

  lemma {:induction false} Pow2Sum(a: nat, b: nat)
    ensures Pow2(a + b) == Pow2(a) * Pow2(b)
  {
    if a > 0 {
      Pow2Sum(a - 1, b);
      assert 2 * (Pow2(a - 1) * Pow2(b)) == (2 * Pow2(a - 1)) * Pow2(b);
    }
  }

  lemma Pow2Doubles(n: nat, v: nat)
    requires Pow2(n) == v
    ensures Pow2(2 * n) == v * v
  {
    Pow2Sum(n, n);
  }

  lemma Pow2Of256(n: nat)
    requires n == 1
    ensures Pow2(256 * n) == TWO_256
  {
    assert Pow2(n) == 2 * Pow2(n - 1) == 2;
    Pow2Doubles(n, 2);
    Pow2Doubles(2 * n, 4);
    Pow2Doubles(4 * n, 16);
    Pow2Doubles(8 * n, 256);
    Pow2Doubles(16 * n, 0x1_0000);
    Pow2Doubles(32 * n, TWO_32);
    Pow2Doubles(64 * n, TWO_64);
    Pow2Doubles(128 * n, TWO_64 * TWO_64);
  }

  /** Floor division of a negative number through its two's complement. */
  lemma FloorThroughComplement(v: int, p: nat, q: nat)
    requires p > 0 && p * q == TWO_256
    ensures (v + TWO_256) / p == v / p + q
  {
    var f := v / p;
    DivMod(v, p);
    assert (f + q) * p == f * p + p * q;
    DivUnique(v + TWO_256, p, f + q, v % p);
  }

  lemma FloorBounds(v: int, p: nat)
    requires p > 0 && -TWO_255 <= v < TWO_255
    ensures -TWO_255 <= v / p < TWO_255
    ensures v >= 0 <==> v / p >= 0
  {
    var f := v / p;
    DivMod(v, p);
    if f >= 0 {
      MulGrows(1, p, f);
    } else {
      MulGrows(f, -1, p);
      MulGrows(1, p, -f - 1);
    }
  }

  /** The mask of sign bits that a shift brings in: all ones moved left, cut to 256 bits. */
  function SignMask(shift: nat): nat
    requires shift < 256
  {
    (Pow2(shift) - 1) as nat * Pow2(256 - shift)
  }

  /** Logical right shift. */
  function ShiftRight(x: nat, shift: nat): nat {
    DivNotNegative(x, Pow2(shift));
    x / Pow2(shift)
  }

  /** The word whose number is v, as the instruction leaves it. */
  predicate StandsFor(r: int, v: int) {
    -TWO_255 <= v < TWO_255 && r == if v < 0 then v + TWO_256 else v
  }

  /** Arithmetic right shift of a word is floor division of the number it stands for. */
  method Sar(shift: nat, x: Word) returns (r: Word)
    ensures StandsFor(r, Signed(x) / Pow2(shift))
  {
    FloorBounds(Signed(x), Pow2(shift));
    if shift >= 256 {
      FarShift(Signed(x), shift);
      r := if x >= TWO_255 then TWO_256 - 1 else 0;
    } else if x >= TWO_255 {
      NegativeShift(x, shift);
      r := Or(ShiftRight(x, shift), SignMask(shift));
    } else {
      r := ShiftRight(x, shift);
    }
  }

  lemma PowSplit(shift: nat)
    requires shift < 256
    ensures Pow2(shift) * Pow2(256 - shift) == TWO_256
  {
    Pow2Sum(shift, 256 - shift);
    Pow2Of256(1);
  }

  /** Filling the top with ones adds 2^256 to the floor. */
  lemma FillIsWrap(x: nat, v: int, p: nat, q: nat, k: nat)
    requires q == Pow2(k) && p > 0 && p * q == TWO_256 && v == x - TWO_256 && -TWO_255 <= v < 0
    ensures x / p >= 0 && (p - 1) * q >= 0
    ensures Or(x / p, (p - 1) * q) == v / p + TWO_256
  {
    FloorThroughComplement(v, p, q);
    FloorBounds(v, p);
    DivNotNegative(x, p);
    MulGrows(0, p - 1, q);
    OrIsPlus(x / p, p - 1, k);
    assert (p - 1) * q == p * q - q;
  }

  lemma NegativeShift(x: Word, shift: nat)
    requires x >= TWO_255 && shift < 256
    ensures Or(ShiftRight(x, shift), SignMask(shift)) == Signed(x) / Pow2(shift) + TWO_256
  {
    PowSplit(shift);
    FillIsWrap(x, Signed(x), Pow2(shift), Pow2(256 - shift), 256 - shift);
  }

  lemma FarShift(v: int, shift: nat)
    requires -TWO_255 <= v < TWO_255 && shift >= 256
    ensures v / Pow2(shift) == if v < 0 then -1 else 0
  {
    Pow2Sum(256, shift - 256);
    Pow2Of256(1);
    var p := Pow2(shift);
    MulGrows(1, Pow2(shift - 256), TWO_256);
    assert p >= TWO_256;
    if v < 0 {
      DivUnique(v, p, -1, v + p);
    } else {
      DivUnique(v, p, 0, v);
    }
  }

  /** Two's complement: the number lies in the signed range and is the word modulo 2^256, and the word of
      that number is the word again. */
  lemma SignedIs(x: Word)
    ensures -TWO_255 <= Signed(x) < TWO_255 && (Signed(x) == x || Signed(x) == x - TWO_256)
    ensures Wrapped(Signed(x)) == x
  {
  }
}
