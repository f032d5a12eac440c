/** The applied state: Ethereum accounts with their static storage, code and chunked storage
    accounts, and what the backend reads from them. */
module Accounts {
  import opened Opcodes
  import opened WordArithmetic
  import opened StorageLayout

  type Address = a: int | 0 <= a < 0x1_0000_0000_0000_0000_0000_0000_0000_0000_0000_0000

  const U64_MAX: nat := 0xFFFF_FFFF_FFFF_FFFF
  const U32_MAX: nat := 0xFFFF_FFFF

  /** `STORAGE_ENTRIES_IN_CONTRACT_ACCOUNT`, left open. */
  const STATIC_ENTRIES: nat

  const INTERNAL_STORAGE_SIZE: nat := 32 * STATIC_ENTRIES

  /** `EthereumAccount::SIZE`: tag, address, bump seed, nonce, balance, generation, code size, lock. */
  const ACCOUNT_SIZE: nat := 1 + 20 + 1 + 8 + 32 + 4 + 4 + 1

  /** A storage account: its generation and its entries. */
  datatype Chunk = Chunk(generation: nat, entries: seq<Byte>)

  /** An Ethereum account together with its storage accounts, keyed by index without the low byte.
      `data` is what follows the header. */
  datatype Account = Account(nonce: nat, balance: Word, generation: nat, codeSize: nat, data: seq<Byte>,
                             chunks: map<Word, Chunk>)

  /** `spare` holds program-owned accounts not yet initialized, with their size. `refused` are the
      external instructions that other programs would reject. */
  datatype World = World(ether: map<Address, Account>, spare: map<Address, nat>, refused: set<nat>)

  predicate AllZero(s: seq<Byte>) {
    forall i :: 0 <= i < |s| ==> s[i] == 0
  }

  lemma ZeroSlice(s: seq<Byte>, from: nat)
    requires AllZero(s) && from + 32 <= |s|
    ensures s[from..from + 32] == ZERO
  {
  }

  /** The three high bytes of an index do not enter the address of its storage account
      (see `StorageLayout.SeedCollision`); neither does the low byte. */
  const SEED_RANGE: int := 0x1_0000_0000_0000_0000_0000_0000_0000_0000_0000_0000_0000_0000_0000_0000_00

  function ChunkOf(index: Word): Word {
    index - index % 256
  }

  function SubindexOf(index: Word): Byte {
    index % 256
  }

  predicate AddressTaken(chunks: map<Word, Chunk>, c: Word) {
    exists d :: d in chunks && d != c && d % SEED_RANGE == c % SEED_RANGE
  }

  /** Between transactions: a code-less account has blank data, code and static storage fit, and
      storage entries are well formed. */
  predicate AccountOk(a: Account) {
    && (a.codeSize == 0 ==> AllZero(a.data))
    && (a.codeSize > 0 ==> INTERNAL_STORAGE_SIZE + a.codeSize <= |a.data|)
    && ChunksOk(a.chunks)
  }

  predicate ChunksOk(chunks: map<Word, Chunk>) {
    forall c :: c in chunks ==> WellFormed(chunks[c].entries)
  }

  /** No storage account lags behind its contract. */
  predicate Fresh(a: Account) {
    forall c :: c in a.chunks ==> a.chunks[c].generation == a.generation
  }

  predicate WorldOk(w: World) {
    forall a :: a in w.ether ==> AccountOk(w.ether[a])
  }

  // ---- The backend's reads --------------------------------------------------------------------

  function SlotOf(a: Account, index: Word): Word32
    requires AccountOk(a)
  {
    if index < STATIC_ENTRIES then
      if a.codeSize == 0 then ZERO else a.data[32 * index..32 * index + 32]
    else if ChunkOf(index) in a.chunks then Lookup(a.chunks[ChunkOf(index)].entries, SubindexOf(index))
    else ZERO
  }

  function CodeOf(a: Account): seq<Byte>
    requires AccountOk(a)
  {
    if a.codeSize == 0 then [] else a.data[INTERNAL_STORAGE_SIZE..INTERNAL_STORAGE_SIZE + a.codeSize]
  }

  function Nonce(w: World, a: Address): nat {
    if a in w.ether then w.ether[a].nonce else 0
  }

  function Balance(w: World, a: Address): Word {
    if a in w.ether then w.ether[a].balance else 0
  }

  function Code(w: World, a: Address): seq<Byte>
    requires WorldOk(w)
  {
    if a in w.ether then CodeOf(w.ether[a]) else []
  }

  function Storage(w: World, a: Address, index: Word): Word32
    requires WorldOk(w)
  {
    if a in w.ether then SlotOf(w.ether[a], index) else ZERO
  }

  function Generation(w: World, a: Address): nat {
    if a in w.ether then w.ether[a].generation else 0
  }

  // ---- Loading an account for a transaction ----------------------------------------------------

  /** `ProgramAccountStorage::new` clears every storage account of an older generation. */
  function LoadChunks(chunks: map<Word, Chunk>, generation: nat): map<Word, Chunk> {
    map c | c in chunks :: if chunks[c].generation != generation then Chunk(generation, []) else chunks[c]
  }

  function LoadAccount(a: Account): Account {
    a.(chunks := LoadChunks(a.chunks, a.generation))
  }

  function Load(w: World): World {
    w.(ether := map a | a in w.ether :: LoadAccount(w.ether[a]))
  }

  lemma LoadAccountOk(a: Account)
    requires AccountOk(a)
    ensures AccountOk(LoadAccount(a)) && Fresh(LoadAccount(a))
  {
    assert Subindices([]) == [];
  }

  /** Loading leaves a well-formed world, in which nothing is stale. */
  lemma LoadOk(w: World)
    requires WorldOk(w)
    ensures WorldOk(Load(w))
    ensures forall a :: a in w.ether ==> Fresh(Load(w).ether[a])
  {
    forall a | a in w.ether ensures AccountOk(Load(w).ether[a]) && Fresh(Load(w).ether[a]) {
      LoadAccountOk(w.ether[a]);
    }
  }
}
