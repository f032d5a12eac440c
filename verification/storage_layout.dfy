/** The chunked storage accounts of `ether_storage.rs`: a header followed by entries of one
    subindex byte and one 32-byte word. They are proved to behave like a map from the low
    byte of a storage index to words. */
module StorageLayout {
  import opened Opcodes

  type Word32 = w: seq<Byte> | |w| == 32 witness Zeros(32)

  function Zeros(n: nat): (s: seq<Byte>)
    ensures |s| == n && forall i :: 0 <= i < n ==> s[i] == 0
  {
    if n == 0 then [] else [0] + Zeros(n - 1)
  }

  const ZERO: Word32 := Zeros(32)

  /** One subindex byte and one word. */
  const ENTRY: nat := 33

  /** Tag, address, generation and index. */
  const HEADER: nat := 1 + 20 + 4 + 32

  // ---- Entries as a map ------------------------------------------------------------------

  /** The word stored first under `sub`, or zero. */
  function Lookup(e: seq<Byte>, sub: Byte): Word32 {
    if |e| < ENTRY then ZERO
    else if e[0] == sub then e[1..ENTRY]
    else Lookup(e[ENTRY..], sub)
  }

  /** Overwrite the first entry under `sub`, or append one. */
  function Put(e: seq<Byte>, sub: Byte, value: Word32): seq<Byte> {
    if |e| < ENTRY then e + [sub] + value
    else if e[0] == sub then [sub] + value + e[ENTRY..]
    else e[..ENTRY] + Put(e[ENTRY..], sub, value)
  }

  /** The subindices in order. */
  function Subindices(e: seq<Byte>): seq<Byte> {
    if |e| < ENTRY then [] else [e[0]] + Subindices(e[ENTRY..])
  }

  predicate Distinct(s: seq<Byte>) {
    forall i, j :: 0 <= i < j < |s| ==> s[i] != s[j]
  }

  /** Whole entries, no subindex twice. */
  predicate WellFormed(e: seq<Byte>) {
    |e| % ENTRY == 0 && Distinct(Subindices(e))
  }

  lemma AppendedEntry(sub: Byte, value: Word32)
    ensures
      var e := [sub] + value;
      |e| == ENTRY && e[0] == sub && e[1..ENTRY] == value && e[ENTRY..] == []
  {
  }

  /** A write is seen by reads of its own subindex and by no others. */
  lemma {:induction false} LookupPut(e: seq<Byte>, sub: Byte, value: Word32, other: Byte)
    requires |e| % ENTRY == 0
    ensures Lookup(Put(e, sub, value), other) == if other == sub then value else Lookup(e, other)
    decreases |e|
  {
    var p := Put(e, sub, value);
    if |e| < ENTRY {
      AppendedEntry(sub, value);
      assert e == [] && p == [sub] + value;
      assert Lookup([], other) == ZERO;
    } else if e[0] == sub {
      assert p[0] == sub && p[1..ENTRY] == value && p[ENTRY..] == e[ENTRY..];
    } else {
      assert p[0] == e[0] && p[1..ENTRY] == e[1..ENTRY] && p[ENTRY..] == Put(e[ENTRY..], sub, value);
      LookupPut(e[ENTRY..], sub, value, other);
    }
  }

  lemma {:induction false} PutSubindices(e: seq<Byte>, sub: Byte, value: Word32)
    requires |e| % ENTRY == 0
    ensures Subindices(Put(e, sub, value)) == if sub in Subindices(e) then Subindices(e) else Subindices(e) + [sub]
    ensures |Put(e, sub, value)| == |e| + if sub in Subindices(e) then 0 else ENTRY
    decreases |e|
  {
    var p := Put(e, sub, value);
    if |e| < ENTRY {
      AppendedEntry(sub, value);
      assert e == [] && p == [sub] + value;
      assert Subindices([]) == [];
    } else if e[0] == sub {
      assert p[0] == sub && p[ENTRY..] == e[ENTRY..];
    } else {
      assert p[0] == e[0] && p[ENTRY..] == Put(e[ENTRY..], sub, value);
      PutSubindices(e[ENTRY..], sub, value);
      assert [e[0]] + (Subindices(e[ENTRY..]) + [sub]) == Subindices(e) + [sub];
    }
  }

  lemma DistinctAppend(s: seq<Byte>, sub: Byte)
    requires Distinct(s) && sub !in s
    ensures Distinct(s + [sub])
  {
  }

  /** Writing never duplicates a subindex. */
  lemma PutWellFormed(e: seq<Byte>, sub: Byte, value: Word32)
    requires WellFormed(e)
    ensures WellFormed(Put(e, sub, value))
  {
    PutSubindices(e, sub, value);
    if sub !in Subindices(e) {
      DistinctAppend(Subindices(e), sub);
    }
  }

  lemma {:induction false} EntryCount(e: seq<Byte>)
    requires |e| % ENTRY == 0
    ensures |e| == ENTRY * |Subindices(e)|
    decreases |e|
  {
    if |e| >= ENTRY {
      EntryCount(e[ENTRY..]);
    }
  }

  lemma {:induction false} DistinctBytes(s: seq<Byte>, bound: nat)
    requires Distinct(s) && forall i :: 0 <= i < |s| ==> s[i] < bound
    ensures |s| <= bound
    decreases bound, 0
  {
    if |s| > 0 {
      assert 0 <= s[0] < bound;
      DropLargest(s, bound - 1);
    }
  }

  lemma DropLargest(s: seq<Byte>, largest: nat)
    requires Distinct(s) && forall i :: 0 <= i < |s| ==> s[i] <= largest
    ensures |s| <= largest + 1
    decreases largest, 1
  {
    if i :| 0 <= i < |s| && s[i] == largest {
      var t := s[..i] + s[i + 1..];
      forall k | 0 <= k < |t| ensures t[k] < largest {
        assert t[k] == s[if k < i then k else k + 1];
      }
      forall k, l | 0 <= k < l < |t| ensures t[k] != t[l] {
        assert t[k] == s[if k < i then k else k + 1] && t[l] == s[if l < i then l else l + 1];
      }
      DistinctBytes(t, largest);
    } else {
      DistinctBytes(s, largest);
    }
  }

  /** A storage account never grows beyond its header and 256 entries. */
  lemma SpaceBound(e: seq<Byte>)
    requires WellFormed(e)
    ensures HEADER + |e| <= HEADER + 256 * ENTRY
  {
    EntryCount(e);
    DistinctBytes(Subindices(e), 256);
  }

  // ---- The account, changed in place ----------------------------------------------------------

  /** `Rent::minimum_balance`: all that is used is that longer accounts need no less. */
  ghost predicate Monotone(rent: nat -> nat) {
    forall a: nat, b: nat :: a <= b ==> rent(a) <= rent(b)
  }

  lemma LookupSkips(e: seq<Byte>, i: nat, sub: Byte)
    requires i + ENTRY <= |e| && e[i] != sub
    ensures Lookup(e[i..], sub) == Lookup(e[i + ENTRY..], sub)
  {
    assert e[i..][ENTRY..] == e[i + ENTRY..];
  }

  lemma PutSkips(e: seq<Byte>, i: nat, sub: Byte, value: Word32)
    requires i + ENTRY <= |e| && e[i] != sub
    ensures e[..i] + Put(e[i..], sub, value) == e[..i + ENTRY] + Put(e[i + ENTRY..], sub, value)
  {
    assert e[i..][ENTRY..] == e[i + ENTRY..] && e[i..][..ENTRY] == e[i..i + ENTRY];
    assert e[..i] + e[i..i + ENTRY] == e[..i + ENTRY];
  }

  lemma PutHere(e: seq<Byte>, i: nat, sub: Byte, value: Word32)
    requires i + ENTRY <= |e| && e[i] == sub
    ensures e[..i] + Put(e[i..], sub, value) == e[..i + 1] + value + e[i + ENTRY..]
  {
    assert e[i..][ENTRY..] == e[i + ENTRY..];
    assert e[..i] + [sub] == e[..i + 1];
    AppendAssociates(e[..i], [sub], value + e[i + ENTRY..]);
  }

  lemma AppendAssociates(a: seq<Byte>, b: seq<Byte>, c: seq<Byte>)
    ensures a + (b + c) == a + b + c
  {
  }

  lemma PutEnd(e: seq<Byte>, i: nat, sub: Byte, value: Word32)
    requires i <= |e| < i + ENTRY && |e| % ENTRY == 0 && i % ENTRY == 0
    ensures i == |e| && e[..i] + Put(e[i..], sub, value) == e + ([sub] + value)
  {
    assert i == |e| && e[i..] == [] && e[..i] == e;
    assert Put([], sub, value) == [sub] + value;
  }

  /** The entries before `i` hold other subindices. */
  predicate Scanned(e: seq<Byte>, i: nat, sub: Byte, value: Word32) {
    i <= |e| && Put(e, sub, value) == e[..i] + Put(e[i..], sub, value)
  }

  lemma ScanStarts(e: seq<Byte>, sub: Byte, value: Word32)
    ensures Scanned(e, 0, sub, value)
  {
    assert e[0..] == e && e[..0] == [];
  }

  lemma ScanSkips(e: seq<Byte>, i: nat, sub: Byte, value: Word32)
    requires Scanned(e, i, sub, value) && i + ENTRY <= |e| && e[i] != sub
    ensures Scanned(e, i + ENTRY, sub, value)
  {
    PutSkips(e, i, sub, value);
  }

  lemma ScanHits(e: seq<Byte>, i: nat, sub: Byte, value: Word32)
    requires Scanned(e, i, sub, value) && i + ENTRY <= |e| && e[i] == sub
    ensures Put(e, sub, value) == e[..i + 1] + value + e[i + ENTRY..]
    ensures |Put(e, sub, value)| == |e|
  {
    PutHere(e, i, sub, value);
  }

  lemma ScanEnds(e: seq<Byte>, i: nat, sub: Byte, value: Word32)
    requires Scanned(e, i, sub, value) && |e| < i + ENTRY && |e| % ENTRY == 0 && i % ENTRY == 0
    ensures Put(e, sub, value) == e + ([sub] + value) && |Put(e, sub, value)| > |e|
  {
    PutEnd(e, i, sub, value);
  }

  lemma PutIsValid(e: seq<Byte>, sub: Byte, value: Word32)
    requires WellFormed(e)
    ensures WellFormed(Put(e, sub, value)) && |e| % ENTRY == 0 && |Put(e, sub, value)| >= |e|
  {
    PutWellFormed(e, sub, value);
    PutSubindices(e, sub, value);
  }

  class EthereumStorage {
    var header: seq<Byte>
    var entries: seq<Byte>
    var generation: nat
    var lamports: nat

    predicate Valid()
      reads this
    {
      |header| == HEADER && WellFormed(entries)
    }

    function DataLength(): nat
      reads this
    {
      |header| + |entries|
    }

    /** `create`: the first entry of a new account of the contract's generation. */
    constructor Create(header: seq<Byte>, generation: nat, subindex: Byte, value: Word32, lamports: nat)
      requires |header| == HEADER
      ensures Valid() && this.generation == generation && this.lamports == lamports
      ensures entries == Put([], subindex, value)
    {
      AppendedEntry(subindex, value);
      assert Subindices([subindex] + value) == [subindex];
      this.header, this.generation, this.lamports := header, generation, lamports;
      this.entries := [subindex] + value;
      new;
      assert [] + [subindex] + value == entries;
    }

    method Get(subindex: Byte) returns (value: Word32)
      ensures value == Lookup(entries, subindex)
    {
      var i: nat := 0;
      assert entries[0..] == entries;
      while i + ENTRY <= |entries|
        invariant i <= |entries|
        invariant Lookup(entries, subindex) == Lookup(entries[i..], subindex)
      {
        if entries[i] == subindex {
          assert entries[i..][1..ENTRY] == entries[i + 1..i + ENTRY];
          return entries[i + 1..i + ENTRY];
        }
        LookupSkips(entries, i, subindex);
        i := i + ENTRY;
      }
      value := ZERO;
    }

    /** `set`: overwrite or grow by one entry. The amount to be topped up is recorded for the
        account only when it has grown and its lamports no longer cover the rent. */
    method Set(subindex: Byte, value: Word32, rent: nat -> nat, recorded: nat) returns (topUp: nat)
      requires Valid()
      modifies this`entries
      ensures Valid() && entries == Put(old(entries), subindex, value) && |entries| >= |old(entries)|
      ensures topUp == if |entries| > |old(entries)| then TopUp(rent(DataLength()), recorded) else recorded
    {
      PutIsValid(entries, subindex, value);
      var i: nat := 0;
      ScanStarts(entries, subindex, value);
      while i + ENTRY <= |entries|
        invariant i <= |entries| && i % ENTRY == 0 && entries == old(entries)
        invariant Scanned(entries, i, subindex, value)
      {
        if entries[i] == subindex {
          Overwrite(i, subindex, value);
          return recorded;
        }
        ScanSkips(entries, i, subindex, value);
        i := i + ENTRY;
      }
      topUp := Append(i, subindex, value, rent, recorded);
    }

    method Overwrite(i: nat, subindex: Byte, value: Word32)
      requires Scanned(entries, i, subindex, value) && i + ENTRY <= |entries| && entries[i] == subindex
      modifies this`entries
      ensures entries == Put(old(entries), subindex, value) && |entries| == |old(entries)|
    {
      ScanHits(entries, i, subindex, value);
      entries := entries[..i + 1] + value + entries[i + ENTRY..];
    }

    method Append(ghost i: nat, subindex: Byte, value: Word32, rent: nat -> nat, recorded: nat) returns (topUp: nat)
      requires Scanned(entries, i, subindex, value) && |entries| < i + ENTRY && |entries| % ENTRY == 0 && i % ENTRY == 0
      modifies this`entries
      ensures entries == Put(old(entries), subindex, value) && |entries| > |old(entries)|
      ensures topUp == TopUp(rent(|header| + |entries|), recorded)
    {
      ScanEnds(entries, i, subindex, value);
      entries := entries + ([subindex] + value);
      topUp := TopUp(rent(|header| + |entries|), recorded);
    }

    function TopUp(needed: nat, recorded: nat): nat
      reads this
    {
      if lamports < needed then needed - lamports else recorded
    }

    /** `clear`: the account is brought up to the contract's generation and emptied; lamports
        beyond the rent of the bare header go to the operator. */
    method Clear(newGeneration: nat, rent: nat -> nat) returns (refund: nat)
      requires Valid()
      modifies this`entries, this`generation, this`lamports
      ensures Valid() && generation == newGeneration && entries == []
      ensures lamports + refund == old(lamports)
      ensures old(lamports) >= rent(HEADER) ==> lamports == rent(HEADER)
    {
      generation, entries := newGeneration, [];
      assert Subindices([]) == [];
      refund := if lamports >= rent(HEADER) then lamports - rent(HEADER) else 0;
      lamports := lamports - refund;
    }

    /** A run of writes as `apply_storage` makes them for one account: the amount recorded last
        is what the account lacks for its final length, although lamports only arrive after
        all writes. */
    method SetAll(writes: seq<(Byte, Word32)>, rent: nat -> nat) returns (topUp: nat)
      requires Valid() && Monotone(rent) && rent(DataLength()) <= lamports
      modifies this`entries
      ensures Valid() && entries == PutAll(old(entries), writes)
      ensures lamports + topUp >= rent(DataLength())
      ensures topUp == 0 || lamports + topUp == rent(DataLength())
    {
      topUp := 0;
      assert writes[0..] == writes;
      for i := 0 to |writes|
        invariant Valid() && |header| == |old(header)|
        invariant PutAll(old(entries), writes) == PutAll(entries, writes[i..])
        invariant lamports + topUp >= rent(DataLength())
        invariant topUp > 0 ==> lamports + topUp == rent(DataLength())
      {
        assert writes[i..][0] == writes[i] && writes[i..][1..] == writes[i + 1..];
        ghost var before := DataLength();
        topUp := Set(writes[i].0, writes[i].1, rent, topUp);
        PutGrows(before, DataLength(), rent);
      }
      assert writes[|writes|..] == [];
    }
  }

  lemma PutGrows(a: nat, b: nat, rent: nat -> nat)
    requires Monotone(rent)
    ensures a <= b ==> rent(a) <= rent(b)
  {
  }

  function PutAll(e: seq<Byte>, writes: seq<(Byte, Word32)>): seq<Byte>
    decreases |writes|
  {
    if writes == [] then e else PutAll(Put(e, writes[0].0, writes[0].1), writes[1..])
  }

  /** The value of the last write under `sub`. */
  function LastWrite(writes: seq<(Byte, Word32)>, sub: Byte, default: Word32): Word32 {
    if writes == [] then default
    else LastWrite(writes[1..], sub, if writes[0].0 == sub then writes[0].1 else default)
  }

  /** Any run of writes followed by a read behaves like a map. */
  lemma {:induction false} RunOfWrites(e: seq<Byte>, writes: seq<(Byte, Word32)>, sub: Byte)
    requires WellFormed(e)
    ensures WellFormed(PutAll(e, writes))
    ensures Lookup(PutAll(e, writes), sub) == LastWrite(writes, sub, Lookup(e, sub))
    decreases |writes|
  {
    if writes != [] {
      var p := Put(e, writes[0].0, writes[0].1);
      PutWellFormed(e, writes[0].0, writes[0].1);
      LookupPut(e, writes[0].0, writes[0].1, sub);
      RunOfWrites(p, writes[1..], sub);
    }
  }

  // ---- Account addresses ---------------------------------------------------------------------------

  /** Seven top bits gathered into one byte. */
  function Pack(b: seq<bv8>): bv8
    requires |b| == 7
  {
    ((b[0] & 0x80) >> 1) | ((b[1] & 0x80) >> 2) | ((b[2] & 0x80) >> 3) | ((b[3] & 0x80) >> 4)
    | ((b[4] & 0x80) >> 5) | ((b[5] & 0x80) >> 6) | ((b[6] & 0x80) >> 7)
  }

  function LowBits(b: seq<bv8>): (r: seq<bv8>)
    ensures |r| == |b| && forall i :: 0 <= i < |b| ==> r[i] == b[i] & 0x7F
  {
    if b == [] then [] else [b[0] & 0x7F] + LowBits(b[1..])
  }

  /** `make_seed` on the big-endian bytes of an index: the 28 bytes from the fourth to the one
      before the last, low bits first, then the top bits seven to a byte. */
  function Seed(index: seq<bv8>): seq<bv8>
    requires |index| == 32
  {
    var b := index[3..31];
    LowBits(b) + [Pack(b[..7]), Pack(b[7..14]), Pack(b[14..21]), Pack(b[21..])]
  }

  lemma PackInjective(a: seq<bv8>, b: seq<bv8>, i: nat)
    requires |a| == |b| == 7 && Pack(a) == Pack(b) && i < 7
    ensures a[i] & 0x80 == b[i] & 0x80
  {
    PackBits(a[0], a[1], a[2], a[3], a[4], a[5], a[6], b[0], b[1], b[2], b[3], b[4], b[5], b[6]);
  }

  lemma PackBits(a0: bv8, a1: bv8, a2: bv8, a3: bv8, a4: bv8, a5: bv8, a6: bv8,
                 b0: bv8, b1: bv8, b2: bv8, b3: bv8, b4: bv8, b5: bv8, b6: bv8)
    requires ((a0 & 0x80) >> 1) | ((a1 & 0x80) >> 2) | ((a2 & 0x80) >> 3) | ((a3 & 0x80) >> 4)
             | ((a4 & 0x80) >> 5) | ((a5 & 0x80) >> 6) | ((a6 & 0x80) >> 7)
             == ((b0 & 0x80) >> 1) | ((b1 & 0x80) >> 2) | ((b2 & 0x80) >> 3) | ((b3 & 0x80) >> 4)
             | ((b4 & 0x80) >> 5) | ((b5 & 0x80) >> 6) | ((b6 & 0x80) >> 7)
    ensures a0 & 0x80 == b0 & 0x80 && a1 & 0x80 == b1 & 0x80 && a2 & 0x80 == b2 & 0x80
    ensures a3 & 0x80 == b3 & 0x80 && a4 & 0x80 == b4 & 0x80 && a5 & 0x80 == b5 & 0x80
    ensures a6 & 0x80 == b6 & 0x80
  {
  }

  lemma HalvesDetermine(a: bv8, b: bv8)
    requires a & 0x7F == b & 0x7F && a & 0x80 == b & 0x80
    ensures a == b
  {
  }

  /** Two indices have the same storage account exactly when they agree on the 28 bytes that
      enter the seed: the three most significant bytes do not count. */
  lemma SeedCollision(x: seq<bv8>, y: seq<bv8>)
    requires |x| == |y| == 32
    ensures Seed(x) == Seed(y) <==> x[3..31] == y[3..31]
  {
    var a, b := x[3..31], y[3..31];
    if Seed(x) == Seed(y) {
      SeedParts(x);
      SeedParts(y);
      SameParts(a, b, Seed(x), Seed(y));
    }
  }

  lemma SeedParts(x: seq<bv8>)
    requires |x| == 32
    ensures
      var s, a := Seed(x), x[3..31];
      && |s| == 32 && (forall i :: 0 <= i < 28 ==> s[i] == a[i] & 0x7F)
      && s[28] == Pack(a[..7]) && s[29] == Pack(a[7..14]) && s[30] == Pack(a[14..21]) && s[31] == Pack(a[21..])
  {
  }

  lemma SameParts(a: seq<bv8>, b: seq<bv8>, s: seq<bv8>, t: seq<bv8>)
    requires |a| == |b| == 28 && |s| == |t| == 32 && s == t
    requires forall i :: 0 <= i < 28 ==> s[i] == a[i] & 0x7F && t[i] == b[i] & 0x7F
    requires s[28] == Pack(a[..7]) && s[29] == Pack(a[7..14]) && s[30] == Pack(a[14..21]) && s[31] == Pack(a[21..])
    requires t[28] == Pack(b[..7]) && t[29] == Pack(b[7..14]) && t[30] == Pack(b[14..21]) && t[31] == Pack(b[21..])
    ensures a == b
  {
    forall i | 0 <= i < 28 ensures a[i] == b[i] {
      SeedTopBits(a, b, s, t, i);
      HalvesDetermine(a[i], b[i]);
    }
  }

  lemma SeedTopBits(a: seq<bv8>, b: seq<bv8>, s: seq<bv8>, t: seq<bv8>, i: nat)
    requires |a| == |b| == 28 && |s| == |t| == 32 && s == t && i < 28
    requires s[28] == Pack(a[..7]) && s[29] == Pack(a[7..14]) && s[30] == Pack(a[14..21]) && s[31] == Pack(a[21..])
    requires t[28] == Pack(b[..7]) && t[29] == Pack(b[7..14]) && t[30] == Pack(b[14..21]) && t[31] == Pack(b[21..])
    ensures a[i] & 0x80 == b[i] & 0x80
  {
    if i < 7 {
      PackInjective(a[..7], b[..7], i);
    } else if i < 14 {
      PackInjective(a[7..14], b[7..14], i - 7);
    } else if i < 21 {
      PackInjective(a[14..21], b[14..21], i - 14);
    } else {
      PackInjective(a[21..], b[21..], i - 21);
    }
  }

  lemma SeedFromParts(index: seq<bv8>, b: seq<bv8>, seed: seq<bv8>)
    requires |index| == 32 && b == index[3..31] && |seed| == 32
    requires forall k :: 0 <= k < 28 ==> seed[k] == b[k] & 0x7F
    requires seed[28] == Pack(b[..7]) && seed[29] == Pack(b[7..14])
    requires seed[30] == Pack(b[14..21]) && seed[31] == Pack(b[21..])
    ensures seed == Seed(index)
  {
    assert seed[..28] == LowBits(b);
    assert seed == seed[..28] + [seed[28], seed[29], seed[30], seed[31]];
  }

  method MakeSeed(index: seq<bv8>) returns (seed: seq<bv8>)
    requires |index| == 32
    ensures seed == Seed(index)
  {
    var b := index[3..31];
    var buffer := new bv8[32](_ => 0);
    for i := 0 to 28
      invariant forall k :: 0 <= k < i ==> buffer[k] == b[k] & 0x7F
    {
      buffer[i] := b[i] & 0x7F;
    }
    buffer[28] := GatherTopBits(b[..7]);
    buffer[29] := GatherTopBits(b[7..14]);
    buffer[30] := GatherTopBits(b[14..21]);
    buffer[31] := GatherTopBits(b[21..]);
    seed := buffer[..];
    SeedFromParts(index, b, seed);
  }

  method GatherTopBits(b: seq<bv8>) returns (r: bv8)
    requires |b| == 7
    ensures r == Pack(b)
  {
    r := 0;
    r := r | ((b[0] & 0x80) >> 1);
    r := r | ((b[1] & 0x80) >> 2);
    r := r | ((b[2] & 0x80) >> 3);
    r := r | ((b[3] & 0x80) >> 4);
    r := r | ((b[4] & 0x80) >> 5);
    r := r | ((b[5] & 0x80) >> 6);
    r := r | ((b[6] & 0x80) >> 7);
  }
}
