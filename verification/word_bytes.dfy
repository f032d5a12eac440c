/** Words as big-endian bytes, and operand stacks as the bytes they are saved as. */
module WordBytes {
  import opened Opcodes
  import opened WordArithmetic

  function Pow256(n: nat): (r: nat)
    ensures r > 0
  {
    if n == 0 then 1 else 256 * Pow256(n - 1)
  }

  /** The `n` lowest bytes, the highest first. */
  function BigEndian(w: nat, n: nat): (s: seq<Byte>)
    ensures |s| == n
  {
    if n == 0 then [] else BigEndian(w / 256, n - 1) + [w % 256]
  }

  function FromBigEndian(s: seq<Byte>): nat {
    if s == [] then 0 else FromBigEndian(s[..|s| - 1]) * 256 + s[|s| - 1]
  }

  lemma SplitResidue(w: nat, p: nat)
    requires p > 0
    ensures (w / 256) % p * 256 + w % 256 == w % (256 * p)
  {
    var q, r := w / 256 / p, w / 256 % p;
    assert w / 256 == q * p + r;
    assert w == q * (256 * p) + (r * 256 + w % 256) by {
      assert w == 256 * (w / 256) + w % 256;
      assert 256 * (q * p) == q * (256 * p);
    }
    assert 0 <= r * 256 + w % 256 < 256 * p;
    ResidueIsUnique(w, 256 * p, q, r * 256 + w % 256);
  }

  lemma {:induction false} FromBytes(w: nat, n: nat)
    ensures FromBigEndian(BigEndian(w, n)) == w % Pow256(n)
  {
    if n > 0 {
      FromBytes(w / 256, n - 1);
      assert BigEndian(w, n)[..n - 1] == BigEndian(w / 256, n - 1);
      SplitResidue(w, Pow256(n - 1));
    }
  }

  lemma {:induction false} ToBytes(s: seq<Byte>)
    ensures BigEndian(FromBigEndian(s), |s|) == s
  {
    if s != [] {
      ToBytes(s[..|s| - 1]);
      assert FromBigEndian(s) / 256 == FromBigEndian(s[..|s| - 1]);
    }
  }

  /** The low bytes of two numbers are the same exactly when their residues are. */
  lemma SameBytes(x: nat, y: nat, n: nat)
    ensures BigEndian(x, n) == BigEndian(y, n) <==> x % Pow256(n) == y % Pow256(n)
  {
    FromBytes(x, n);
    FromBytes(y, n);
    ToBytes(BigEndian(x, n));
    ToBytes(BigEndian(y, n));
  }

  lemma {:induction false} DropHigh(w: nat, n: nat, k: nat)
    requires k <= n
    ensures BigEndian(w, n)[n - k..] == BigEndian(w, k)
  {
    if k > 0 {
      DropHigh(w / 256, n - 1, k - 1);
      assert BigEndian(w, n)[n - k..] == BigEndian(w / 256, n - 1)[n - k..] + [w % 256];
    }
  }

  lemma Associate(a: int, b: int, c: int)
    ensures a * (b * c) == (a * b) * c
  {
  }

  lemma {:induction false} PowerOfSum(m: nat, n: nat)
    ensures Pow256(m + n) == Pow256(m) * Pow256(n)
  {
    if m > 0 {
      PowerOfSum(m - 1, n);
      assert m + n - 1 == m - 1 + n;
      Associate(256, Pow256(m - 1), Pow256(n));
    }
  }

  lemma WordIsPower()
    ensures Pow256(32) == WORD
  {
    assert Pow256(4) == 0x1_0000_0000;
    PowerOfSum(4, 4);
    PowerOfSum(8, 8);
    PowerOfSum(16, 16);
  }

  function WordToBytes(w: Word): (s: seq<Byte>)
    ensures |s| == 32
  {
    BigEndian(w, 32)
  }

  lemma WordRoundTrip(w: Word)
    ensures FromBigEndian(WordToBytes(w)) == w
  {
    FromBytes(w, 32);
    WordIsPower();
  }

  // ---- Operand stacks ----------------------------------------------------------------------------

  /** The bytes of the words in use, the lowest first. */
  function StackBytes(stack: seq<Word>): (s: seq<Byte>)
    ensures |s| == 32 * |stack|
  {
    if stack == [] then [] else StackBytes(stack[..|stack| - 1]) + WordToBytes(stack[|stack| - 1])
  }

  function StackWords(s: seq<Byte>): seq<Word> {
    if |s| < 32 then []
    else
      var w := FromBigEndian(s[|s| - 32..]);
      StackWords(s[..|s| - 32]) + [if w < WORD then w else 0]
  }

  /** A saved stack is restored word by word. */
  lemma {:induction false} StackRoundTrip(stack: seq<Word>)
    ensures StackWords(StackBytes(stack)) == stack
  {
    if stack != [] {
      var front, last := stack[..|stack| - 1], stack[|stack| - 1];
      var s := StackBytes(stack);
      assert s[|s| - 32..] == WordToBytes(last) && s[..|s| - 32] == StackBytes(front);
      StackRoundTrip(front);
      WordRoundTrip(last);
      assert stack == front + [last];
    }
  }
}
