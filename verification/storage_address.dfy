/** Which storage accounts share an address: the seed over the index's bytes against the residues that
    the account model uses. */
module StorageAddress {
  import opened Opcodes
  import opened WordArithmetic
  import opened WordBytes
  import opened StorageLayout
  import opened Accounts

  /** Bytes as numbers. */
  function Ints(s: seq<bv8>): (r: seq<Byte>)
    ensures |r| == |s|
  {
    if s == [] then [] else Ints(s[..|s| - 1]) + [s[|s| - 1] as int]
  }

  lemma SameInt(a: bv8, b: bv8)
    ensures a as int == b as int <==> a == b
  {
  }

  lemma {:induction false} IntsAt(s: seq<bv8>, i: nat)
    requires i < |s|
    ensures Ints(s)[i] == s[i] as int
  {
    if i < |s| - 1 {
      IntsAt(s[..|s| - 1], i);
    }
  }

  /** Bytes are the same exactly when their numbers are, range by range. */
  lemma SameInts(s: seq<bv8>, t: seq<bv8>, from: nat, to: nat)
    requires |s| == |t| && from <= to <= |s|
    ensures Ints(s)[from..to] == Ints(t)[from..to] <==> s[from..to] == t[from..to]
  {
    forall i | from <= i < to ensures Ints(s)[i] == Ints(t)[i] <==> s[i] == t[i] {
      IntsAt(s, i);
      IntsAt(t, i);
      SameInt(s[i], t[i]);
    }
    if s[from..to] == t[from..to] {
      assert forall i :: from <= i < to ==> s[i] == s[from..to][i - from] == t[from..to][i - from] == t[i];
    }
    if Ints(s)[from..to] == Ints(t)[from..to] {
      assert forall i :: from <= i < to ==> Ints(s)[i] == Ints(s)[from..to][i - from] == Ints(t)[i];
    }
  }

  /** `x` are the big-endian bytes of the index, as `make_seed` takes them. */
  predicate IndexBytes(x: seq<bv8>, index: Word) {
    |x| == 32 && Ints(x) == WordToBytes(index)
  }

  /** The bytes that enter the seed are those of the index without its low byte, up to the 28th. */
  lemma SeedBytes(index: Word)
    ensures WordToBytes(index)[3..31] == BigEndian(index / 256, 28)
  {
    var all := WordToBytes(index);
    assert all[..31] == BigEndian(index / 256, 31);
    DropHigh(index / 256, 31, 28);
    assert all[3..31] == all[..31][3..];
  }

  lemma RangeIsPower()
    ensures 256 * Pow256(28) == SEED_RANGE
  {
    assert Pow256(4) == 0x1_0000_0000;
    PowerOfSum(4, 4);
    PowerOfSum(8, 4);
    PowerOfSum(12, 12);
    PowerOfSum(24, 4);
  }

  lemma LowByteApart(c: Word, d: Word)
    requires c % 256 == 0 && d % 256 == 0
    ensures (c / 256) % Pow256(28) == (d / 256) % Pow256(28) <==> c % SEED_RANGE == d % SEED_RANGE
  {
    SplitResidue(c, Pow256(28));
    SplitResidue(d, Pow256(28));
    RangeIsPower();
  }

  /** Two storage accounts of a contract have the same seed, and so the same address, exactly when the
      model counts one address for both. */
  lemma SharedAddress(c: Word, d: Word, x: seq<bv8>, y: seq<bv8>)
    requires c % 256 == 0 && d % 256 == 0 && IndexBytes(x, c) && IndexBytes(y, d)
    ensures Seed(x) == Seed(y) <==> c % SEED_RANGE == d % SEED_RANGE
  {
    SeedCollision(x, y);
    SameInts(x, y, 3, 31);
    SeedBytes(c);
    SeedBytes(d);
    SameBytes(c / 256, d / 256, 28);
    LowByteApart(c, d);
  }

  /** So a storage account cannot be created exactly when another one of the contract's has its seed. */
  lemma TakenIffSeedShared(chunks: map<Word, Chunk>, c: Word, bytes: Word -> seq<bv8>)
    requires c % 256 == 0 && forall d :: d in chunks ==> d % 256 == 0
    requires forall w: Word :: |bytes(w)| == 32
    requires forall w: Word :: IndexBytes(bytes(w), w)
    ensures AddressTaken(chunks, c) <==> exists d :: d in chunks && d != c && Seed(bytes(d)) == Seed(bytes(c))
  {
    forall d | d in chunks ensures Seed(bytes(d)) == Seed(bytes(c)) <==> d % SEED_RANGE == c % SEED_RANGE {
      SharedAddress(d, c, bytes(d), bytes(c));
    }
  }
}
