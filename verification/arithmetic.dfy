/** The 256-bit word opcodes that are written as loops or case splits over wrapping
    operations: ADDMOD, MULMOD and EXP. Every method works with the
    wrapping operators of the source and is proved to return the exact value over
    unbounded integers that appendix H.2 of the Ethereum Yellow Paper asks for. */
module WordArithmetic {
  const WORD: int := 0x1_0000_0000_0000_0000_0000_0000_0000_0000_0000_0000_0000_0000_0000_0000_0000_0000

  type Word = x: int | 0 <= x < WORD

  // The release build's operators on `U256`.
  function WrappingAdd(a: Word, b: Word): Word {
    if a + b < WORD then a + b else a + b - WORD
  }

  function WrappingSub(a: Word, b: Word): Word {
    if a >= b then a - b else a - b + WORD
  }

  function WrappingMul(a: Word, b: Word): Word {
    (a * b) % WORD
  }

  function Pow(a: int, n: nat): int {
    if n == 0 then 1 else a * Pow(a, n - 1)
  }

  // ---- Facts about residues -------------------------------------------------

  /** A number in the right range that differs from `x` by a multiple of `m` is `x % m`. */
  lemma ResidueIsUnique(x: int, m: int, q: int, r: int)
    requires 0 <= r < m && x == q * m + r
    ensures x % m == r
  {
    var d := x / m - q;
    assert x == (x / m) * m + x % m;
    assert d * m == r - x % m by {
      assert d * m == (x / m) * m - q * m;
    }
  }

  /** Adding a multiple of `m` does not change the residue. */
  lemma AddMultiple(x: int, k: int, m: int)
    requires m > 0
    ensures (x + k * m) % m == x % m
  {
    assert x == (x / m) * m + x % m;
    assert x + k * m == (x / m + k) * m + x % m by {
      assert (x / m + k) * m == (x / m) * m + k * m;
    }
    ResidueIsUnique(x + k * m, m, x / m + k, x % m);
  }

  lemma ResidueOfProduct(a: int, b: int, m: int)
    requires m > 0
    ensures (a * (b % m)) % m == (a * b) % m
  {
    assert b == (b / m) * m + b % m;
    assert a * b == a * (b % m) + (a * (b / m)) * m by {
      assert a * b == a * ((b / m) * m + b % m);
      assert a * ((b / m) * m + b % m) == a * ((b / m) * m) + a * (b % m);
      assert a * ((b / m) * m) == (a * (b / m)) * m;
    }
    AddMultiple(a * (b % m), a * (b / m), m);
  }

  // ---- ADDMOD ----------------------------------------------------------------

  /** `opcode_addmod`: no intermediate value exceeds a word, yet the result is the
      residue of the unbounded sum; a zero modulus gives zero. */
  method AddMod(x: Word, y: Word, m: Word) returns (result: Word)
    ensures m == 0 ==> result == 0
    ensures m != 0 ==> result == (x + y) % m
  {
    if m == 0 {
      return 0;
    }
    if y == 0 {
      result := x % m;
    } else {
      var a: Word := x % m;
      var b: Word := m - y % m;
      if a >= b {
        result := a - b;
      } else {
        result := WrappingAdd(m - b, a);
      }
      SumOfResidues(x, y, m, result);
    }
  }

  lemma SumOfResidues(x: int, y: int, m: int, r: int)
    requires m > 0 && 0 <= r < m
    requires r == x % m + y % m || r == x % m + y % m - m
    ensures (x + y) % m == r
  {
    assert x == (x / m) * m + x % m && y == (y / m) * m + y % m;
    var k := if r == x % m + y % m then 0 else 1;
    assert x + y == (x / m + y / m + k) * m + r by {
      assert (x / m + y / m + k) * m == (x / m) * m + (y / m) * m + k * m;
    }
    ResidueIsUnique(x + y, m, x / m + y / m + k, r);
  }

  // ---- MULMOD ----------------------------------------------------------------

  /** One overflow-free modular addition as the loop of `opcode_mulmod` writes it. */
  function AddBelow(r: Word, b: Word, m: Word): (s: Word)
    requires r < m && b < m
    ensures s < m
    ensures s == r + b || s == r + b - m
  {
    var r' := if b >= WrappingSub(m, r) then WrappingSub(r, m) else r;
    WrappingAdd(r', b)
  }

  /** `opcode_mulmod`: double-and-add with wrapping additions returns the residue of the
      full 512-bit product. The ghost `q` counts how often `m` has been taken away, so the
      loop keeps `x * y == q * m + result + a * b` over the integers. */
  method MulMod(x: Word, y: Word, m: Word) returns (result: Word)
    ensures m == 0 ==> result == 0
    ensures m != 0 ==> result == (x * y) % m
  {
    if m == 0 {
      return 0;
    }
    var a: Word, b: Word := x, y;
    if b < a {
      a, b := b, a;
    }
    ghost var q := if b >= m then a * (b / m) else 0;
    TakenAtStart(x, y, m);
    if b >= m {
      b := b % m;
    }
    result := 0;
    while a != 0
      invariant result < m && b < m
      invariant Product(x, y) == Product(q, m) + result + Product(a, b)
    {
      var added, doubled := AddBelow(result, b, m), AddBelow(b, b, m);
      q := TakenStep(q, result, a, b, added, doubled, m);
      if a % 2 != 0 {
        result := added;
      }
      a := a / 2;
      b := doubled;
    }
    ResidueIsUnique(x * y, m, q, result);
  }

  ghost function Product(a: int, b: int): int { a * b }

  lemma TakenAtStart(x: Word, y: Word, m: int)
    requires m > 0
    ensures Product(x, y) == Product(x * (y / m), m) + Product(x, y % m)
    ensures Product(x, y) == Product(y * (x / m), m) + Product(y, x % m)
    ensures Product(0, m) == 0 && Product(x, y) == Product(y, x)
  {
    Distribute(x, y / m, m, y % m);
    Distribute(y, x / m, m, x % m);
  }

  lemma Distribute(x: int, d: int, m: int, e: int)
    ensures x * (d * m + e) == (x * d) * m + x * e
  {
    assert x * (d * m + e) == x * (d * m) + x * e;
    assert x * (d * m) == (x * d) * m;
  }

  /** One turn of the loop: halving `a` and doubling `b` below `m` keeps the equation,
      with the number of subtractions of `m` as the new quotient. */
  lemma TakenStep(q: int, r: int, a: int, b: int, added: int, doubled: int, m: int)
      returns (q': int)
    requires doubled == b + b || doubled == b + b - m
    requires added == r + b || added == r + b - m
    ensures Product(q', m) + (if a % 2 != 0 then added else r) + Product(a / 2, doubled)
            == Product(q, m) + r + Product(a, b)
  {
    var h, t := a / 2, a % 2;
    var e := if doubled == b + b then 0 else h;
    var f := if t == 0 || added == r + b then 0 else 1;
    q' := q + f + e;
    Halved(h, t, b);
    assert Product(h, doubled) == Product(h, b + b) - Product(e, m) by { SubtractedHalf(h, b, doubled, m); }
    assert Product(q', m) == Product(q, m) + f * m + Product(e, m) by { AddProduct(q, f, e, m); }
    assert a == 2 * h + t;
  }

  lemma Halved(h: int, t: int, b: int)
    ensures Product(2 * h + t, b) == Product(h, b + b) + t * b
  {
    Distribute(b, 2, h, t);
    assert b * (2 * h + t) == (b * 2) * h + b * t;
  }

  lemma SubtractedHalf(h: int, b: int, doubled: int, m: int)
    requires doubled == b + b || doubled == b + b - m
    ensures Product(h, doubled) == Product(h, b + b) - Product(if doubled == b + b then 0 else h, m)
  {
  }

  lemma AddProduct(q: int, f: int, e: int, m: int)
    ensures Product(q + f + e, m) == Product(q, m) + f * m + Product(e, m)
  {
  }

  // ---- EXP ---------------------------------------------------------------------

  lemma {:induction false} PowOfResidue(a: int, n: nat, m: int)
    requires m > 0
    ensures Pow(a % m, n) % m == Pow(a, n) % m
  {
    if n > 0 {
      PowOfResidue(a, n - 1, m);
      var p, q := Pow(a % m, n - 1), Pow(a, n - 1);
      ResidueOfProduct(a % m, p, m);
      ResidueOfProduct(a % m, q, m);
      ResidueOfProduct(q, a, m);
      assert (a % m) * q == q * (a % m) && a * q == q * a;
    }
  }

  lemma {:induction false} PowOfSquare(a: int, n: nat)
    ensures Pow(a * a, n) == Pow(a, 2 * n)
  {
    if n > 0 {
      PowOfSquare(a, n - 1);
      var p := Pow(a, 2 * n - 2);
      assert Pow(a, 2 * n) == a * Pow(a, 2 * n - 1) == a * (a * p);
      assert a * (a * p) == (a * a) * p;
    }
  }

  /** What one turn of the squaring loop keeps: `result * a^b` modulo `m`. */
  lemma SquaringStep(r: int, r': int, a: int, b: nat, m: int)
    requires m > 0 && b >= 1
    requires r' == (if b % 2 == 1 then (r * a) % m else r)
    ensures (r' * Pow((a * a) % m, b / 2)) % m == (r * Pow(a, b)) % m
  {
    var h := b / 2;
    var p, s := Pow(a, 2 * h), Pow((a * a) % m, h);
    assert s % m == p % m by {
      PowOfResidue(a * a, h, m);
      PowOfSquare(a, h);
    }
    SameResidueFactor(r', s, p, m);
    if b % 2 == 1 {
      assert Pow(a, b) == a * p;
      OddFactor(r, a, p, m);
    }
  }

  lemma SameResidueFactor(x: int, s: int, p: int, m: int)
    requires m > 0 && s % m == p % m
    ensures (x * s) % m == (x * p) % m
  {
    ResidueOfProduct(x, s, m);
    ResidueOfProduct(x, p, m);
  }

  lemma OddFactor(r: int, a: int, p: int, m: int)
    requires m > 0
    ensures (((r * a) % m) * p) % m == (r * (a * p)) % m
  {
    ResidueOfProduct(p, r * a, m);
    assert ((r * a) % m) * p == p * ((r * a) % m);
    assert p * (r * a) == r * (a * p);
  }

  /** `opcode_exp`: exponentiation by squaring with the last exponent bit split off. */
  method Exp(x: Word, y: Word) returns (result: Word)
    ensures result == Pow(x, y) % WORD
  {
    var a: Word, b: Word := x, y;
    result := 1;
    while b > 1
      invariant (result * Pow(a, b)) % WORD == Pow(x, y) % WORD
    {
      ghost var r0, a0, b0 := result, a, b;
      if b % 2 == 1 {
        result := WrappingMul(result, a);
      }
      b := b / 2;
      a := WrappingMul(a, a);
      SquaringStep(r0, result, a0, b0, WORD);
    }
    if b == 1 {
      assert Pow(a, 1) == a * Pow(a, 0) == a;
      result := WrappingMul(result, a);
    } else {
      assert Pow(a, 0) == 1;
    }
  }
}
