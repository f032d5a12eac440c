/** The bytes of a State account: a header, the list of blocked accounts, and the saved machine
    right behind the list. */
module StateBuffer {
  import opened Opcodes

  type Pubkey = k: seq<Byte> | |k| == 32 witness Blank(32)

  function Blank(n: nat): (s: seq<Byte>)
    ensures |s| == n
  {
    if n == 0 then [] else Blank(n - 1) + [0]
  }

  datatype Meta = Meta(key: Pubkey, existed: bool, writable: bool)

  /** `State::SIZE`: the tag and the packed fields. */
  const STATE_SIZE: nat := 1 + 32 + 32 + 20 + 32 + 32 + 32 + 32 + 8 + 8 + 8 + 8

  const CHUNK: nat := 1 + 1 + 32

  function Flag(b: bool): Byte {
    if b then 1 else 0
  }

  function Encode(m: Meta): (s: seq<Byte>)
    ensures |s| == CHUNK
  {
    [Flag(m.writable), Flag(m.existed)] + m.key
  }

  /** Any other byte than zero counts as set. */
  function Decode(s: seq<Byte>): Meta
    requires |s| == CHUNK
  {
    Meta(s[2..], s[1] != 0, s[0] != 0)
  }

  function EncodeAll(list: seq<Meta>): (s: seq<Byte>)
    ensures |s| == CHUNK * |list|
  {
    if list == [] then [] else EncodeAll(list[..|list| - 1]) + Encode(list[|list| - 1])
  }

  function DecodeAll(s: seq<Byte>): (list: seq<Meta>)
    requires |s| % CHUNK == 0
    ensures |s| == CHUNK * |list|
  {
    if s == [] then [] else DecodeAll(s[..|s| - CHUNK]) + [Decode(s[|s| - CHUNK..])]
  }

  lemma DecodeEncode(m: Meta)
    ensures Decode(Encode(m)) == m
  {
    assert Encode(m)[2..] == m.key;
  }

  /** A list that is written is read back. */
  lemma {:induction false} DecodeEncodeAll(list: seq<Meta>)
    ensures DecodeAll(EncodeAll(list)) == list
  {
    if list != [] {
      var front, last := list[..|list| - 1], list[|list| - 1];
      var s := EncodeAll(list);
      assert s[..|s| - CHUNK] == EncodeAll(front) && s[|s| - CHUNK..] == Encode(last);
      DecodeEncodeAll(front);
      DecodeEncode(last);
      assert list == front + [last];
    }
  }

  /** The entries of a list that is read are its chunks of 34 bytes; any byte but zero sets a flag. */
  lemma {:induction false} EntryRead(s: seq<Byte>, n: nat, i: nat)
    requires |s| == 34 * n && i < n
    ensures
      var list, chunk := DecodeAll(s), s[34 * i..34 * i + 34];
      |list| == n && list[i] == Meta(chunk[2..], chunk[1] != 0, chunk[0] != 0)
  {
    var front, last := s[..|s| - CHUNK], s[|s| - CHUNK..];
    assert DecodeAll(s) == DecodeAll(front) + [Decode(last)];
    if i < n - 1 {
      EntryRead(front, n - 1, i);
      assert front[34 * i..34 * i + 34] == s[34 * i..34 * i + 34];
    }
  }

  /** A list is written with one for a flag that is set. */
  lemma {:induction false} FlagsWritten(list: seq<Meta>, i: nat)
    requires i < |list|
    ensures EncodeAll(list)[34 * i] == (if list[i].writable then 1 else 0)
    ensures EncodeAll(list)[34 * i + 1] == (if list[i].existed then 1 else 0)
  {
    var front := list[..|list| - 1];
    if i < |front| {
      FlagsWritten(front, i);
    }
  }

  lemma EncodePrefix(list: seq<Meta>, i: nat)
    requires i < |list|
    ensures EncodeAll(list[..i + 1]) == EncodeAll(list[..i]) + Encode(list[i])
  {
    assert list[..i + 1][..i] == list[..i];
  }

  /** `s` with the bytes behind the header replaced. */
  function Spliced(s: seq<Byte>, bytes: seq<Byte>): (r: seq<Byte>)
    requires STATE_SIZE + |bytes| <= |s|
    ensures |r| == |s|
  {
    s[..STATE_SIZE] + bytes + s[STATE_SIZE + |bytes|..]
  }

  lemma SpliceMore(s: seq<Byte>, bytes: seq<Byte>, more: seq<Byte>)
    requires STATE_SIZE + |bytes| + |more| <= |s|
    ensures
      var t := Spliced(s, bytes);
      var offset := STATE_SIZE + |bytes|;
      Spliced(s, bytes + more) == t[..offset] + more + t[offset + |more|..]
  {
  }

  lemma SpliceRegions(s: seq<Byte>, t: seq<Byte>, bytes: seq<Byte>, len: nat)
    requires STATE_SIZE + |bytes| + len <= |s| && t == Spliced(s, bytes)
    ensures
      var end := STATE_SIZE + |bytes|;
      && t[..STATE_SIZE] == s[..STATE_SIZE] && t[STATE_SIZE..end] == bytes
      && t[end..end + len] == s[end..end + len]
  {
  }

  class State {
    const data: array<Byte>
    var accountsLen: nat
    var evmStateLen: nat
    var evmMachineLen: nat

    function AccountsEnd(): nat
      reads this
    {
      STATE_SIZE + accountsLen * CHUNK
    }

    function EvmDataLen(): nat
      reads this
    {
      evmStateLen + evmMachineLen
    }

    /** The list and the saved machine lie within the account. */
    ghost predicate Valid()
      reads this, data
    {
      AccountsEnd() + EvmDataLen() <= data.Length
    }

    /** The saved machine, as `deserialize_evm_state` finds it behind the list. */
    ghost function EvmBytes(): seq<Byte>
      reads this, data
      requires Valid()
    {
      data[AccountsEnd()..AccountsEnd() + EvmDataLen()]
    }

    ghost function Blocked(): seq<Meta>
      reads this, data
      requires Valid()
    {
      DecodeAll(data[STATE_SIZE..AccountsEnd()])
    }

    constructor (bytes: seq<Byte>, accountsLen: nat, evmStateLen: nat, evmMachineLen: nat)
      requires STATE_SIZE + accountsLen * CHUNK + evmStateLen + evmMachineLen <= |bytes|
      ensures Valid() && data[..] == bytes
    {
      data := new Byte[|bytes|](i requires 0 <= i < |bytes| => bytes[i]);
      this.accountsLen, this.evmStateLen, this.evmMachineLen := accountsLen, evmStateLen, evmMachineLen;
    }

    method ReadBlockedAccounts() returns (r: Option<seq<Meta>>)
      ensures AccountsEnd() > data.Length ==> r == None
      ensures AccountsEnd() <= data.Length ==> r == Some(DecodeAll(data[STATE_SIZE..AccountsEnd()]))
    {
      var end := AccountsEnd();
      if data.Length < end {
        return None;
      }
      var chunks := data[STATE_SIZE..end];
      var list: seq<Meta> := [];
      for i := 0 to accountsLen
        invariant list == DecodeAll(chunks[..i * CHUNK])
      {
        var next := chunks[..(i + 1) * CHUNK];
        assert next[..|next| - CHUNK] == chunks[..i * CHUNK];
        assert next[|next| - CHUNK..] == chunks[i * CHUNK..(i + 1) * CHUNK];
        list := list + [Decode(chunks[i * CHUNK..(i + 1) * CHUNK])];
      }
      assert chunks[..accountsLen * CHUNK] == chunks;
      r := Some(list);
    }

    /** `update_blocked_accounts`: the machine is moved behind the new list although the two regions
        may overlap, then the list is written. `false` stands for the panic of the move. */
    method UpdateBlockedAccounts(list: seq<Meta>) returns (ok: bool)
      requires Valid()
      modifies this`accountsLen, data
      ensures ok <==> STATE_SIZE + |list| * CHUNK + EvmDataLen() <= data.Length
      ensures ok ==> Valid() && EvmBytes() == old(EvmBytes()) && Blocked() == list
      ensures ok ==> data[..STATE_SIZE] == old(data[..STATE_SIZE])
    {
      var from, len := AccountsEnd(), EvmDataLen();
      accountsLen := |list|;
      var end := AccountsEnd();
      if end + len > data.Length {
        return false;
      }
      Rewrite(list, from, len, end);
      ok := true;
    }

    /** The machine goes from `from` to `end`, where the list ends. */
    method Rewrite(list: seq<Meta>, from: nat, len: nat, end: nat)
      requires from + len <= data.Length && end == STATE_SIZE + |list| * CHUNK && end + len <= data.Length
      modifies data
      ensures DecodeAll(data[STATE_SIZE..end]) == list && data[end..end + len] == old(data[from..from + len])
      ensures data[..STATE_SIZE] == old(data[..STATE_SIZE])
    {
      MoveWithin(from, len, end);
      WriteList(list, len);
      DecodeEncodeAll(list);
    }

    /** `copy_within`: the source is read before anything is written. */
    method MoveWithin(from: nat, len: nat, to: nat)
      requires from + len <= data.Length && STATE_SIZE <= to && to + len <= data.Length
      modifies data
      ensures data[to..to + len] == old(data[from..from + len]) && data[..STATE_SIZE] == old(data[..STATE_SIZE])
    {
      forall i | 0 <= i < len {
        data[to + i] := data[from + i];
      }
    }

    /** The list fills its region; the header before it and the machine behind it stay. */
    method WriteList(list: seq<Meta>, ghost len: nat)
      requires STATE_SIZE + |list| * CHUNK + len <= data.Length
      modifies data
      ensures data[STATE_SIZE..STATE_SIZE + |list| * CHUNK] == EncodeAll(list)
      ensures data[..STATE_SIZE] == old(data[..STATE_SIZE])
      ensures
        var end := STATE_SIZE + |list| * CHUNK;
        data[end..end + len] == old(data[end..end + len])
    {
      assert data[..] == data[..STATE_SIZE] + data[STATE_SIZE..];
      for i := 0 to |list|
        invariant data[..] == Spliced(old(data[..]), EncodeAll(list[..i]))
      {
        EncodePrefix(list, i);
        ghost var before := data[..];
        WriteChunk(STATE_SIZE + i * CHUNK, Encode(list[i]));
        SpliceMore(old(data[..]), EncodeAll(list[..i]), Encode(list[i]));
      }
      assert list[..|list|] == list;
      SpliceRegions(old(data[..]), data[..], EncodeAll(list), len);
    }

    method WriteChunk(offset: nat, bytes: seq<Byte>)
      requires offset + |bytes| <= data.Length
      modifies data
      ensures data[..] == old(data[..])[..offset] + bytes + old(data[..])[offset + |bytes|..]
    {
      forall i | 0 <= i < |bytes| {
        data[offset + i] := bytes[i];
      }
    }
  }
}
