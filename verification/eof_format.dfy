/** The encoding of a container byte by byte, as EIP-3540 lays it out. Together with
    `EofContainer.UnmarshalMarshal` it fixes what the parser reads from where. */
module EofFormat {
  import opened Opcodes
  import opened EofContainer

  /** The two bytes at `i` hold `n`, the high one first. */
  predicate Holds16(b: seq<Byte>, i: nat, n: nat) {
    i + 1 < |b| && b[i] as int * 256 + b[i + 1] as int == n
  }

  /** The four bytes at `i` hold a section's type. */
  predicate HoldsType(b: seq<Byte>, i: nat, m: FunctionMetadata) {
    i + 4 <= |b| && b[i] == m.input && b[i + 1] == m.output && Holds16(b, i + 2, m.maxStackHeight)
  }

  /** How many bytes of code come before section `i`. */
  function CodeBefore(code: seq<seq<Byte>>, i: nat): nat
    requires i <= |code|
  {
    if i == 0 then 0 else |code[0]| + CodeBefore(code[1..], i - 1)
  }

  lemma {:induction false} SizeAt(code: seq<seq<Byte>>, i: nat)
    requires i < |code| && |code[i]| <= 0xFFFF
    ensures Holds16(SizeBytes(code), 2 * i, |code[i]|)
  {
    var n := |code[0]|;
    assert SizeBytes(code) == [n / 256 % 256, n % 256] + SizeBytes(code[1..]);
    if i > 0 {
      SizeAt(code[1..], i - 1);
    }
  }

  lemma {:induction false} TypeAt(types: seq<FunctionMetadata>, i: nat)
    requires i < |types| && types[i].maxStackHeight <= 0xFFFF
    ensures HoldsType(TypeBytes(types), 4 * i, types[i])
  {
    var m := types[0];
    var front := [m.input, m.output] + [m.maxStackHeight / 256 % 256, m.maxStackHeight % 256];
    assert TypeBytes(types) == front + TypeBytes(types[1..]);
    if i > 0 {
      TypeAt(types[1..], i - 1);
    }
  }

  lemma {:induction false} CodeAt(code: seq<seq<Byte>>, i: nat)
    requires i < |code|
    ensures CodeBefore(code, i) + |code[i]| <= |Flatten(code)|
    ensures Flatten(code)[CodeBefore(code, i)..CodeBefore(code, i) + |code[i]|] == code[i]
  {
    if i > 0 {
      CodeAt(code[1..], i - 1);
      SliceBehind(code[0], Flatten(code[1..]), CodeBefore(code[1..], i - 1), |code[i]|);
    }
  }

  lemma SliceBehind<T>(x: seq<T>, y: seq<T>, i: nat, n: nat)
    requires i + n <= |y|
    ensures (x + y)[|x| + i..|x| + i + n] == y[i..i + n]
  {
    assert y == (x + y)[|x|..];
    SliceOfSlice(x + y, |x|, |x| + |y|, i, n);
  }

  lemma SliceOfSlice<T>(b: seq<T>, from: nat, to: nat, i: nat, n: nat)
    requires from <= to <= |b| && i + n <= to - from
    ensures b[from + i..from + i + n] == b[from..to][i..i + n]
  {
    var x, y := b[from + i..from + i + n], b[from..to][i..i + n];
    forall k | 0 <= k < n ensures x[k] == y[k] {
      assert x[k] == b[from + i + k];
    }
  }

  /** Two bytes of a slice. */
  lemma HeldInSlice(b: seq<Byte>, from: nat, to: nat, i: nat, n: nat)
    requires from <= to <= |b| && Holds16(b[from..to], i, n)
    ensures Holds16(b, from + i, n)
  {
    assert b[from..to][i] == b[from + i] && b[from..to][i + 1] == b[from + i + 1];
  }

  lemma TypeInSlice(b: seq<Byte>, from: nat, to: nat, i: nat, m: FunctionMetadata)
    requires from <= to <= |b| && HoldsType(b[from..to], i, m)
    ensures HoldsType(b, from + i, m)
  {
    HeldInSlice(b, from, to, i + 2, m.maxStackHeight);
    assert b[from..to][i] == b[from + i] && b[from..to][i + 1] == b[from + i + 1];
  }

  /** The header around the section sizes. */
  lemma HeaderIs(c: Container)
    requires WellFormed(c)
    ensures
      var b, n := MarshalBinary(c), |c.types|;
      && b[..4] == [0xEF, 0, 1, 1] && Holds16(b, 4, 4 * n) && b[6] == 2 && Holds16(b, 7, n)
      && b[9 + 2 * n] == 3 && Holds16(b, 10 + 2 * n, |c.data|) && b[12 + 2 * n] == 0
  {
    var b, n := MarshalBinary(c), |c.types|;
    MarshalLaysOut(c);
    FrontBytes(b, n);
    BackRoundTrip(b, 9 + 2 * n, |c.data|);
    assert b[9 + 2 * n] == b[9 + 2 * n..13 + 2 * n][0];
  }

  /** Section `i` in an encoded container: its size in the header, its type behind the header, and its
      code behind the types; the data comes last. */
  lemma SectionIs(c: Container, i: nat)
    requires WellFormed(c) && i < |c.types|
    ensures
      var b, n := MarshalBinary(c), |c.types|;
      var s := 13 + 6 * n + CodeBefore(c.code, i);
      && Holds16(b, 9 + 2 * i, |c.code[i]|) && HoldsType(b, 13 + 2 * n + 4 * i, c.types[i])
      && s + |c.code[i]| <= |b| && b[s..s + |c.code[i]|] == c.code[i]
      && |b| == 13 + 6 * n + |Flatten(c.code)| + |c.data| && b[|b| - |c.data|..] == c.data
  {
    var b := MarshalBinary(c);
    MarshalLaysOut(c);
    SectionFits(c.code);
    SizeIs(b, c, i);
    TypeIs(b, c, i);
    CodeIs(b, c, i);
  }

  lemma SizeIs(b: seq<Byte>, c: Container, i: nat)
    requires LaidOut(b, c) && i < |c.code| && |c.code[i]| <= 0xFFFF
    ensures Holds16(b, 9 + 2 * i, |c.code[i]|)
  {
    SizeAt(c.code, i);
    HeldInSlice(b, 9, 9 + 2 * |c.types|, 2 * i, |c.code[i]|);
  }

  lemma TypeIs(b: seq<Byte>, c: Container, i: nat)
    requires LaidOut(b, c) && i < |c.types| && c.types[i].maxStackHeight <= 0xFFFF
    ensures HoldsType(b, 13 + 2 * |c.types| + 4 * i, c.types[i])
  {
    TypeAt(c.types, i);
    TypeInSlice(b, 13 + 2 * |c.types|, 13 + 6 * |c.types|, 4 * i, c.types[i]);
  }

  lemma CodeIs(b: seq<Byte>, c: Container, i: nat)
    requires LaidOut(b, c) && i < |c.code|
    ensures
      var s := 13 + 6 * |c.types| + CodeBefore(c.code, i);
      s + |c.code[i]| <= |b| && b[s..s + |c.code[i]|] == c.code[i]
  {
    var j := 13 + 6 * |c.types|;
    CodeAt(c.code, i);
    SliceOfSlice(b, j, j + |Flatten(c.code)|, CodeBefore(c.code, i), |c.code[i]|);
  }
}
