/** The EOF container format of EIP-3540: `Container::_marshal_binary` and
    `Container::unmarshal_binary`, proved to be inverse to each other. */
module EofContainer {
  import opened Opcodes

  datatype Error =
    | InvalidMagic
    | UnexpectedEndOfFile
    | InvalidVersion(version: Byte)
    | UnknownSectionHeader(kind: Byte)
    | MissingSectionHeader(expected: Byte, found: Byte)
    | InvalidTypeSizeMustBeDivisibleBy4(size: int)
    | InvalidTypeSizeExceed(size: int)
    | MismatchCodeSize(types: nat, codes: nat)
    | MissingTerminator(found: Byte)
    | InvalidContainerSize(actual: nat, required: nat)
    | TooManyInputs
    | TooManyOutputs
    | TooLargeMaxStackHeight
    | InvalidSection0Type
    | InvalidCodeSize(section: nat)

  /** A Rust `Result`, with an index or slice panic as a third outcome. */
  datatype Result<+T> = Ok(value: T) | Err(error: Error) | Panic {
    predicate IsFailure() { !Ok? }

    function PropagateFailure<U>(): Result<U>
      requires IsFailure()
    {
      if Err? then Err(error) else Panic
    }

    function Extract(): T
      requires Ok?
    {
      value
    }
  }

  function Check(condition: bool, error: Error): Result<()> {
    if condition then Ok(()) else Err(error)
  }

  datatype FunctionMetadata = FunctionMetadata(input: Byte, output: Byte, maxStackHeight: nat)

  datatype Container = Container(types: seq<FunctionMetadata>, code: seq<seq<Byte>>, data: seq<Byte>)

  /** The sizes a header declares. */
  datatype Sizes = Sizes(typeSize: nat, code: seq<nat>, dataSize: nat)

  const TYPE: Byte := 1
  const CODE: Byte := 2
  const DATA: Byte := 3

  // ---- Marshalling ----------------------------------------------------------------------

  /** `(n as u16).to_be_bytes()`. */
  function Be16(n: nat): (b: seq<Byte>)
    ensures |b| == 2
  {
    [n / 256 % 256, n % 256]
  }

  function SizeBytes(code: seq<seq<Byte>>): (b: seq<Byte>)
    ensures |b| == 2 * |code|
  {
    if code == [] then [] else Be16(|code[0]|) + SizeBytes(code[1..])
  }

  function TypeBytes(types: seq<FunctionMetadata>): (b: seq<Byte>)
    ensures |b| == 4 * |types|
  {
    if types == [] then []
    else [types[0].input, types[0].output] + Be16(types[0].maxStackHeight) + TypeBytes(types[1..])
  }

  function Flatten(code: seq<seq<Byte>>): seq<Byte> {
    if code == [] then [] else code[0] + Flatten(code[1..])
  }

  /** Magic, version, the type section's size and the number of code sections. */
  function Front(types: nat, codes: nat): (b: seq<Byte>)
    ensures |b| == 9
  {
    [0xEF, 0x00, 1, TYPE, types * 4 / 256 % 256, types * 4 % 256, CODE, codes / 256 % 256, codes % 256]
  }

  /** The data section's size and the terminator. */
  function Back(data: nat): (b: seq<Byte>)
    ensures |b| == 4
  {
    [DATA, data / 256 % 256, data % 256, 0]
  }

  function Header(types: nat, code: seq<seq<Byte>>, data: nat): (b: seq<Byte>)
    ensures |b| == 13 + 2 * |code|
  {
    Front(types, |code|) + SizeBytes(code) + Back(data)
  }

  function MarshalBinary(c: Container): seq<Byte> {
    Header(|c.types|, c.code, |c.data|) + TypeBytes(c.types) + Flatten(c.code) + c.data
  }

  // ---- Unmarshalling ----------------------------------------------------------------------

  function KindAt(bytes: seq<Byte>, i: nat): Result<Byte> {
    if i >= |bytes| then Panic
    else if bytes[i] == TYPE || bytes[i] == CODE || bytes[i] == DATA then Ok(bytes[i])
    else Err(UnknownSectionHeader(bytes[i]))
  }

  /** `Section::parse` followed by the assertion on its kind: the section's size. */
  function ParseSection(bytes: seq<Byte>, i: nat, kind: Byte): Result<nat> {
    if i + 3 >= |bytes| then Err(UnexpectedEndOfFile)
    else
      var found :- KindAt(bytes, i);
      var size := U16At(bytes, i + 1);
      var _ :- Check(found == kind, MissingSectionHeader(kind, found));
      Ok(size)
  }

  function SizesAt(bytes: seq<Byte>, i: nat, count: nat): (s: seq<nat>)
    ensures |s| == count
    decreases count
  {
    if count == 0 then [] else [U16At(bytes, i)] + SizesAt(bytes, i + 2, count - 1)
  }

  /** `SectionList::parse` followed by the assertion on its kind. */
  function ParseSectionList(bytes: seq<Byte>, i: nat): Result<seq<nat>> {
    if i >= |bytes| then Err(UnexpectedEndOfFile)
    else
      var found :- KindAt(bytes, i);
      if |bytes| < i + 3 then Err(UnexpectedEndOfFile)
      else
        var count := U16At(bytes, i + 1);
        var _ :- Check(|bytes| > i + 3 + count * 2, UnexpectedEndOfFile);
        var _ :- Check(found == CODE, MissingSectionHeader(CODE, found));
        Ok(SizesAt(bytes, i + 3, count))
  }

  function AssertValid(m: FunctionMetadata): Result<()> {
    var _ :- Check(m.input <= 127, TooManyInputs);
    var _ :- Check(m.output <= 127, TooManyOutputs);
    Check(m.maxStackHeight <= 1023, TooLargeMaxStackHeight)
  }

  function ParseTypes(bytes: seq<Byte>, i: nat, count: nat): Result<seq<FunctionMetadata>>
    decreases count
  {
    if count == 0 then Ok([])
    else if i + 1 >= |bytes| then Panic
    else
      var m := FunctionMetadata(bytes[i], bytes[i + 1], U16At(bytes, i + 2));
      var _ :- AssertValid(m);
      var rest :- ParseTypes(bytes, i + 4, count - 1);
      Ok([m] + rest)
  }

  /** The code sections cut out one after the other; the first section has number `k`. */
  function ParseCode(bytes: seq<Byte>, i: nat, sizes: seq<nat>, k: nat): Result<seq<seq<Byte>>>
    decreases |sizes|
  {
    if sizes == [] then Ok([])
    else
      var _ :- Check(sizes[0] != 0, InvalidCodeSize(k));
      if i + sizes[0] > |bytes| then Panic
      else
        var rest :- ParseCode(bytes, i + sizes[0], sizes[1..], k + 1);
        Ok([bytes[i..i + sizes[0]]] + rest)
  }

  function Sum(sizes: seq<nat>): nat {
    if sizes == [] then 0 else sizes[0] + Sum(sizes[1..])
  }

  /** The size of the type section and the sizes of the code sections. */
  function ParseFront(bytes: seq<Byte>): Result<Sizes> {
    var _ :- Check(|bytes| >= 2 && bytes[0] == 0xEF && bytes[1] == 0, InvalidMagic);
    var _ :- Check(|bytes| >= 14, UnexpectedEndOfFile);
    var _ :- Check(bytes[2] == 1, InvalidVersion(bytes[2]));
    var typeSize :- ParseSection(bytes, 3, TYPE);
    var _ :- Check(typeSize >= 4 && typeSize % 4 == 0, InvalidTypeSizeMustBeDivisibleBy4(typeSize));
    var _ :- Check(typeSize / 4 <= 1024, InvalidTypeSizeExceed(typeSize));
    var sizes :- ParseSectionList(bytes, 6);
    var _ :- Check(|sizes| == typeSize / 4, MismatchCodeSize(typeSize / 4, |sizes|));
    Ok(Sizes(typeSize, sizes, 0))
  }

  /** The expected size is a sum of `u16` values and wraps. */
  function ExpectedSize(terminator: nat, typeSize: nat, sizes: seq<nat>, dataSize: nat): nat {
    (terminator + typeSize + Sum(sizes) + dataSize + 1) % 0x1_0000
  }

  /** Everything `unmarshal_binary` checks before it cuts out the contents. */
  function ParseHeader(bytes: seq<Byte>): Result<Sizes> {
    var Sizes(typeSize, sizes, _) :- ParseFront(bytes);
    var dataSize :- ParseSection(bytes, 9 + 2 * |sizes|, DATA);
    var terminator := 12 + 2 * |sizes|;
    if terminator >= |bytes| then Err(UnexpectedEndOfFile)
    else
      var _ :- Check(bytes[terminator] == 0, MissingTerminator(bytes[terminator]));
      var expected := ExpectedSize(terminator, typeSize, sizes, dataSize);
      var _ :- Check(|bytes| == expected, InvalidContainerSize(|bytes|, expected));
      Ok(Sizes(typeSize, sizes, dataSize))
  }

  /** The section contents behind a header that has been accepted. */
  function ParseContents(bytes: seq<Byte>, typeSize: nat, sizes: seq<nat>, dataSize: nat): Result<Container> {
    var i := 13 + 2 * |sizes|;
    var types :- ParseTypes(bytes, i, typeSize / 4);
    if types == [] then Panic
    else
      var _ :- Check(types[0].input == 0 && types[0].output == 0, InvalidSection0Type);
      var j := i + typeSize;
      var code :- ParseCode(bytes, j, sizes, 0);
      var d := j + Sum(sizes);
      if d + dataSize > |bytes| then Panic
      else Ok(Container(types, code, bytes[d..d + dataSize]))
  }

  function Unmarshal(bytes: seq<Byte>): Result<Container> {
    var Sizes(typeSize, sizes, dataSize) :- ParseHeader(bytes);
    ParseContents(bytes, typeSize, sizes, dataSize)
  }

  /** The loop of `unmarshal_binary` that cuts out the code sections and advances `idx`. */
  method CutCode(bytes: seq<Byte>, start: nat, sizes: seq<nat>) returns (r: Result<seq<seq<Byte>>>, idx: nat)
    ensures r == ParseCode(bytes, start, sizes, 0)
    ensures r.Ok? ==> idx == start + Sum(sizes)
  {
    var code: seq<seq<Byte>> := [];
    idx := start;
    assert sizes[0..] == sizes;
    PrependNil(ParseCode(bytes, start, sizes, 0));
    for i := 0 to |sizes|
      invariant |code| == i && idx + Sum(sizes[i..]) == start + Sum(sizes)
      invariant ParseCode(bytes, start, sizes, 0) == Prepend(code, ParseCode(bytes, idx, sizes[i..], i))
    {
      var size := sizes[i];
      CutOne(bytes, idx, sizes, i);
      if size == 0 {
        return Err(InvalidCodeSize(i)), idx;
      }
      if idx + size > |bytes| {
        return Panic, idx;
      }
      PrependSnoc(code, bytes[idx..idx + size], ParseCode(bytes, idx + size, sizes[i + 1..], i + 1));
      code := code + [bytes[idx..idx + size]];
      idx := idx + size;
    }
    assert sizes[|sizes|..] == [] && code + [] == code;
    r := Ok(code);
  }

  /** The part of `unmarshal_binary` behind the header. */
  method ReadContents(bytes: seq<Byte>, typeSize: nat, sizes: seq<nat>, dataSize: nat)
      returns (r: Result<Container>)
    ensures r == ParseContents(bytes, typeSize, sizes, dataSize)
  {
    var types := ParseTypes(bytes, 13 + 2 * |sizes|, typeSize / 4);
    if types.IsFailure() {
      return types.PropagateFailure();
    }
    if types.value == [] {
      return Panic;
    }
    if types.value[0].input != 0 || types.value[0].output != 0 {
      return Err(InvalidSection0Type);
    }
    var code, idx := CutCode(bytes, 13 + 2 * |sizes| + typeSize, sizes);
    if code.IsFailure() {
      return code.PropagateFailure();
    }
    if idx + dataSize > |bytes| {
      return Panic;
    }
    return Ok(Container(types.value, code.value, bytes[idx..idx + dataSize]));
  }

  /** `unmarshal_binary`. */
  method UnmarshalBinary(bytes: seq<Byte>) returns (r: Result<Container>)
    ensures r == Unmarshal(bytes)
  {
    var header := ParseHeader(bytes);
    if header.IsFailure() {
      return header.PropagateFailure();
    }
    var Sizes(typeSize, sizes, dataSize) := header.value;
    r := ReadContents(bytes, typeSize, sizes, dataSize);
  }

  function Prepend<T>(xs: seq<T>, r: Result<seq<T>>): Result<seq<T>> {
    if r.Ok? then Ok(xs + r.value) else r
  }

  lemma SuffixStep<T>(s: seq<T>, i: nat)
    requires i < |s|
    ensures s[i..] != [] && s[i..][0] == s[i] && s[i..][1..] == s[i + 1..]
  {
  }

  lemma CutOne(bytes: seq<Byte>, idx: nat, sizes: seq<nat>, i: nat)
    requires i < |sizes|
    ensures Sum(sizes[i..]) == sizes[i] + Sum(sizes[i + 1..])
    ensures ParseCode(bytes, idx, sizes[i..], i) ==
            if sizes[i] == 0 then Err(InvalidCodeSize(i))
            else if idx + sizes[i] > |bytes| then Panic
            else Prepend([bytes[idx..idx + sizes[i]]], ParseCode(bytes, idx + sizes[i], sizes[i + 1..], i + 1))
  {
    SuffixStep(sizes, i);
  }

  lemma PrependNil<T>(r: Result<seq<T>>)
    ensures Prepend([], r) == r
  {
    if r.Ok? {
      assert [] + r.value == r.value;
    }
  }

  lemma PrependSnoc<T>(xs: seq<T>, x: T, r: Result<seq<T>>)
    ensures Prepend(xs, Prepend([x], r)) == Prepend(xs + [x], r)
  {
    if r.Ok? {
      assert xs + ([x] + r.value) == xs + [x] + r.value;
    }
  }

  // ---- The format's domain -------------------------------------------------------------

  predicate ValidMetadata(m: FunctionMetadata) {
    m.input <= 127 && m.output <= 127 && m.maxStackHeight <= 1023
  }

  predicate AllValid(types: seq<FunctionMetadata>) {
    forall i :: 0 <= i < |types| ==> ValidMetadata(types[i])
  }

  predicate AllNonempty(code: seq<seq<Byte>>) {
    forall i :: 0 <= i < |code| ==> code[i] != []
  }

  /** What a container must satisfy to be representable at all. */
  predicate WellFormed(c: Container) {
    && 1 <= |c.types| <= 1024 && |c.code| == |c.types|
    && AllValid(c.types) && AllNonempty(c.code)
    && c.types[0].input == 0 && c.types[0].output == 0
    && |MarshalBinary(c)| <= 0xFFFF
  }

  // ---- Small facts -----------------------------------------------------------------------

  function Lengths(code: seq<seq<Byte>>): (s: seq<nat>)
    ensures |s| == |code|
  {
    if code == [] then [] else [|code[0]|] + Lengths(code[1..])
  }

  lemma Be16RoundTrip(n: nat, b: seq<Byte>, i: nat)
    requires n < 0x1_0000 && i + 2 <= |b| && b[i] == n / 256 % 256 && b[i + 1] == n % 256
    ensures U16At(b, i) == n
  {
    assert n / 256 < 256;
  }

  lemma U16Bytes(b: seq<Byte>, i: nat)
    requires i + 2 <= |b|
    ensures Be16(U16At(b, i)) == b[i..i + 2]
    ensures var v := U16At(b, i); b[i] == v / 256 % 256 && b[i + 1] == v % 256
  {
    var v := U16At(b, i);
    assert v / 256 == b[i] && v % 256 == b[i + 1] && v / 256 % 256 == b[i];
    assert b[i..i + 2] == [b[i], b[i + 1]];
  }

  lemma {:induction false} FlattenLength(code: seq<seq<Byte>>)
    ensures |Flatten(code)| == Sum(Lengths(code))
  {
    if code != [] {
      FlattenLength(code[1..]);
    }
  }

  lemma {:induction false} SectionFits(code: seq<seq<Byte>>)
    requires |Flatten(code)| <= 0xFFFF
    ensures forall i :: 0 <= i < |code| ==> |code[i]| <= 0xFFFF
  {
    if code != [] {
      SectionFits(code[1..]);
      assert code == [code[0]] + code[1..];
    }
  }

  // ---- Unmarshal after marshal -------------------------------------------------------------

  lemma {:induction false} SizesRoundTrip(code: seq<seq<Byte>>, b: seq<Byte>, i: nat)
    requires forall i :: 0 <= i < |code| ==> |code[i]| <= 0xFFFF
    requires i + 2 * |code| <= |b| && b[i..i + 2 * |code|] == SizeBytes(code)
    ensures SizesAt(b, i, |code|) == Lengths(code)
  {
    if code != [] {
      var all := b[i..i + 2 * |code|];
      assert b[i] == all[0] && b[i + 1] == all[1];
      Be16RoundTrip(|code[0]|, b, i);
      assert b[i + 2..i + 2 + 2 * |code[1..]|] == all[2..] == SizeBytes(code[1..]);
      SizesRoundTrip(code[1..], b, i + 2);
    }
  }

  lemma {:induction false} TypesRoundTrip(types: seq<FunctionMetadata>, b: seq<Byte>, i: nat)
    requires AllValid(types)
    requires i + 4 * |types| <= |b| && b[i..i + 4 * |types|] == TypeBytes(types)
    ensures ParseTypes(b, i, |types|) == Ok(types)
  {
    if types != [] {
      var all := b[i..i + 4 * |types|];
      assert b[i] == all[0] && b[i + 1] == all[1] && b[i + 2] == all[2] && b[i + 3] == all[3];
      Be16RoundTrip(types[0].maxStackHeight, b, i + 2);
      assert b[i + 4..i + 4 + 4 * |types[1..]|] == all[4..] == TypeBytes(types[1..]);
      TypesRoundTrip(types[1..], b, i + 4);
      assert types == [types[0]] + types[1..];
    }
  }

  lemma SliceTwo<T>(b: seq<T>, i: nat, x: seq<T>, y: seq<T>)
    requires i + |x| + |y| <= |b| && b[i..i + |x| + |y|] == x + y
    ensures b[i..i + |x|] == x && b[i + |x|..i + |x| + |y|] == y
  {
    var all := b[i..i + |x| + |y|];
    assert b[i..i + |x|] == all[..|x|] && b[i + |x|..i + |x| + |y|] == all[|x|..];
  }

  lemma {:induction false} CodeRoundTrip(code: seq<seq<Byte>>, b: seq<Byte>, i: nat, k: nat)
    requires AllNonempty(code)
    requires i + |Flatten(code)| <= |b| && b[i..i + |Flatten(code)|] == Flatten(code)
    ensures ParseCode(b, i, Lengths(code), k) == Ok(code)
  {
    if code != [] {
      var head, tail := code[0], code[1..];
      SliceTwo(b, i, head, Flatten(tail));
      CodeRoundTrip(tail, b, i + |head|, k + 1);
      ParseCodeCons(b, i, |head|, Lengths(tail), k, head, tail);
      assert code == [head] + tail;
    }
  }

  lemma ParseCodeCons(b: seq<Byte>, i: nat, n: nat, sizes: seq<nat>, k: nat,
                      head: seq<Byte>, tail: seq<seq<Byte>>)
    requires n > 0 && i + n <= |b| && b[i..i + n] == head
    requires ParseCode(b, i + n, sizes, k + 1) == Ok(tail)
    ensures ParseCode(b, i, [n] + sizes, k) == Ok([head] + tail)
  {
    assert ([n] + sizes)[1..] == sizes;
  }

  /** Where the parts of a marshalled container lie. */
  lemma Layout(c: Container)
    requires |c.code| == |c.types|
    ensures
      var b, n := MarshalBinary(c), |c.types|;
      var t := 13 + 2 * n;
      var d := t + 4 * n + |Flatten(c.code)|;
      && |b| == d + |c.data|
      && b[..13 + 2 * n] == Header(n, c.code, |c.data|)
      && b[t..t + 4 * n] == TypeBytes(c.types)
      && b[t + 4 * n..d] == Flatten(c.code)
      && b[d..] == c.data
  {
  }

  lemma ThreeParts<T>(a: seq<T>, x: seq<T>, y: seq<T>, z: seq<T>)
    requires |a| == |x| + |y| + |z|
    ensures a == x + y + z <==>
            a[..|x|] == x && a[|x|..|x| + |y|] == y && a[|x| + |y|..] == z
  {
    assert a == a[..|x|] + a[|x|..|x| + |y|] + a[|x| + |y|..];
    assert (x + y + z)[..|x|] == x && (x + y + z)[|x|..|x| + |y|] == y && (x + y + z)[|x| + |y|..] == z;
  }

  /** The three parts of a header as slices of what it is the beginning of. */
  lemma PrefixParts<T>(b: seq<T>, x: seq<T>, y: seq<T>, z: seq<T>)
    requires |b| >= |x| + |y| + |z|
    ensures b[..|x| + |y| + |z|] == x + y + z <==>
            b[..|x|] == x && b[|x|..|x| + |y|] == y && b[|x| + |y|..|x| + |y| + |z|] == z
  {
    var a := b[..|x| + |y| + |z|];
    ThreeParts(a, x, y, z);
    assert a[..|x|] == b[..|x|] && a[|x|..|x| + |y|] == b[|x|..|x| + |y|];
    assert a[|x| + |y|..] == b[|x| + |y|..|x| + |y| + |z|];
  }

  lemma FrontBytes(b: seq<Byte>, n: nat)
    requires |b| >= 9 && n <= 1024 && b[..9] == Front(n, n)
    ensures b[0] == 0xEF && b[1] == 0 && b[2] == 1 && b[3] == TYPE && b[6] == CODE
    ensures U16At(b, 4) == 4 * n && U16At(b, 7) == n
  {
    var f := b[..9];
    assert f[0] == b[0] && f[1] == b[1] && f[2] == b[2] && f[3] == b[3] && f[6] == b[6];
    assert f[4] == b[4] && f[5] == b[5] && f[7] == b[7] && f[8] == b[8];
    Be16RoundTrip(n * 4, b, 4);
    Be16RoundTrip(n, b, 7);
  }

  lemma FrontRoundTrip(b: seq<Byte>, n: nat, sizes: seq<nat>)
    requires |b| > 13 + 2 * n && 1 <= n <= 1024 && sizes == SizesAt(b, 9, n)
    requires b[0] == 0xEF && b[1] == 0 && b[2] == 1 && b[3] == TYPE && b[6] == CODE
    requires U16At(b, 4) == 4 * n && U16At(b, 7) == n
    ensures ParseFront(b) == Ok(Sizes(4 * n, sizes, 0))
  {
    assert ParseSection(b, 3, TYPE) == Ok(4 * n);
    assert ParseSectionList(b, 6) == Ok(sizes);
  }

  lemma BackRoundTrip(b: seq<Byte>, i: nat, data: nat)
    requires i + 4 < |b| && data <= 0xFFFF && b[i..i + 4] == Back(data)
    ensures ParseSection(b, i, DATA) == Ok(data) && b[i + 3] == 0
  {
    var f := b[i..i + 4];
    assert f[0] == b[i] && f[1] == b[i + 1] && f[2] == b[i + 2] && f[3] == b[i + 3];
    Be16RoundTrip(data, b, i + 1);
  }

  /** Bytes whose parts are the parts of `c`, without saying how they were put together. */
  ghost predicate LaidOut(b: seq<Byte>, c: Container) {
    var n := |c.types|;
    var j := 13 + 6 * n;
    var d := j + |Flatten(c.code)|;
    && |c.code| == n && 1 <= n <= 1024 && d + |c.data| == |b| <= 0xFFFF && j < d
    && b[..9] == Front(n, n) && b[9..9 + 2 * n] == SizeBytes(c.code)
    && b[9 + 2 * n..13 + 2 * n] == Back(|c.data|)
    && b[13 + 2 * n..j] == TypeBytes(c.types) && b[j..d] == Flatten(c.code) && b[d..] == c.data
  }

  lemma MarshalLaysOut(c: Container)
    requires WellFormed(c)
    ensures LaidOut(MarshalBinary(c), c)
  {
    var b, n := MarshalBinary(c), |c.types|;
    Layout(c);
    assert c.code[0] != [] && |Flatten(c.code)| >= 1;
    PrefixParts(b, Front(n, n), SizeBytes(c.code), Back(|c.data|));
  }

  lemma HeaderRoundTrip(b: seq<Byte>, c: Container)
    requires LaidOut(b, c)
    ensures ParseHeader(b) == Ok(Sizes(4 * |c.types|, Lengths(c.code), |c.data|))
  {
    var e := 9 + 2 * |c.types|;
    FrontLaidOut(b, c);
    BackLaidOut(b, c, e);
    LaidOutSize(b, c, e);
    HeaderFromParts(b, |c.types|, Lengths(c.code), |c.data|, e);
  }

  lemma LaidOutSize(b: seq<Byte>, c: Container, e: nat)
    requires LaidOut(b, c) && e == 9 + 2 * |c.types|
    ensures e + 3 < |b| == e + 4 + 4 * |c.types| + Sum(Lengths(c.code)) + |c.data| <= 0xFFFF
    ensures |Lengths(c.code)| == |c.types|
  {
    FlattenLength(c.code);
  }

  lemma FrontLaidOut(b: seq<Byte>, c: Container)
    requires LaidOut(b, c)
    ensures ParseFront(b) == Ok(Sizes(4 * |c.types|, Lengths(c.code), 0))
  {
    SectionFits(c.code);
    SizesRoundTrip(c.code, b, 9);
    FrontBytes(b, |c.types|);
    FrontRoundTrip(b, |c.types|, Lengths(c.code));
  }

  lemma BackLaidOut(b: seq<Byte>, c: Container, e: nat)
    requires LaidOut(b, c) && e == 9 + 2 * |c.types|
    ensures ParseSection(b, e, DATA) == Ok(|c.data|) && e + 3 < |b| && b[e + 3] == 0
  {
    BackRoundTrip(b, e, |c.data|);
  }

  lemma HeaderFromParts(b: seq<Byte>, n: nat, sizes: seq<nat>, data: nat, e: nat)
    requires ParseFront(b) == Ok(Sizes(4 * n, sizes, 0)) && |sizes| == n && e == 9 + 2 * n
    requires ParseSection(b, e, DATA) == Ok(data) && e + 3 < |b| <= 0xFFFF && b[e + 3] == 0
    requires |b| == e + 4 + 4 * n + Sum(sizes) + data
    ensures ParseHeader(b) == Ok(Sizes(4 * n, sizes, data))
  {
    ExpectedFits(e + 3, 4 * n, sizes, data, |b|);
  }

  lemma ExpectedFits(terminator: nat, typeSize: nat, sizes: seq<nat>, data: nat, length: nat)
    requires length == terminator + typeSize + Sum(sizes) + data + 1 <= 0xFFFF
    ensures ExpectedSize(terminator, typeSize, sizes, data) == length
  {
  }

  /** The types lie from `i` to `j`, the code from there to `d`, and the data behind. */
  lemma ContentsRoundTrip(b: seq<Byte>, c: Container, i: nat, j: nat, d: nat)
    requires AllValid(c.types) && AllNonempty(c.code) && |c.types| == |c.code| && c.types != []
    requires c.types[0].input == 0 && c.types[0].output == 0
    requires i == 13 + 2 * |c.code| && j == i + 4 * |c.types| && d == j + |Flatten(c.code)| && d + |c.data| == |b|
    requires b[i..j] == TypeBytes(c.types) && b[j..d] == Flatten(c.code) && b[d..] == c.data
    ensures ParseContents(b, 4 * |c.types|, Lengths(c.code), |c.data|) == Ok(c)
  {
    ContentsParse(b, c.types, c.code, i, j, d);
    ContentsFromParts(b, c, |c.types|, Lengths(c.code), i, j, d);
  }

  lemma ContentsParse(b: seq<Byte>, types: seq<FunctionMetadata>, code: seq<seq<Byte>>, i: nat, j: nat, d: nat)
    requires AllValid(types) && AllNonempty(code) && j == i + 4 * |types| && d == j + |Flatten(code)| <= |b|
    requires b[i..j] == TypeBytes(types) && b[j..d] == Flatten(code)
    ensures ParseTypes(b, i, |types|) == Ok(types) && ParseCode(b, j, Lengths(code), 0) == Ok(code)
    ensures d == j + Sum(Lengths(code))
  {
    TypesRoundTrip(types, b, i);
    CodeRoundTrip(code, b, j, 0);
    FlattenLength(code);
  }

  lemma ContentsFromParts(b: seq<Byte>, c: Container, n: nat, sizes: seq<nat>, i: nat, j: nat, d: nat)
    requires c.types != [] && c.types[0].input == 0 && c.types[0].output == 0
    requires i == 13 + 2 * |sizes| && j == i + 4 * n && d == j + Sum(sizes) && d + |c.data| == |b| && b[d..] == c.data
    requires ParseTypes(b, i, n) == Ok(c.types) && ParseCode(b, j, sizes, 0) == Ok(c.code)
    ensures ParseContents(b, 4 * n, sizes, |c.data|) == Ok(c)
  {
    assert 4 * n / 4 == n && b[d..d + |c.data|] == b[d..];
  }

  /** Decoding what was encoded gives back every representable container. */
  lemma UnmarshalMarshal(c: Container)
    requires WellFormed(c)
    ensures Unmarshal(MarshalBinary(c)) == Ok(c)
  {
    var b := MarshalBinary(c);
    MarshalLaysOut(c);
    HeaderRoundTrip(b, c);
    var n := |c.types|;
    ContentsRoundTrip(b, c, 13 + 2 * n, 13 + 6 * n, 13 + 6 * n + |Flatten(c.code)|);
  }

  // ---- Marshal after unmarshal -------------------------------------------------------------

  lemma {:induction false} SizesBack(code: seq<seq<Byte>>, b: seq<Byte>, i: nat)
    requires i + 2 * |code| <= |b| && Lengths(code) == SizesAt(b, i, |code|)
    ensures SizeBytes(code) == b[i..i + 2 * |code|]
  {
    if code != [] {
      U16Bytes(b, i);
      assert Lengths(code)[1..] == Lengths(code[1..]);
      SizesBack(code[1..], b, i + 2);
      assert b[i..i + 2] + b[i + 2..i + 2 * |code|] == b[i..i + 2 * |code|];
    }
  }

  lemma {:induction false} TypesBack(b: seq<Byte>, i: nat, n: nat)
    requires i + 4 * n <= |b| && ParseTypes(b, i, n).Ok?
    ensures
      var types := ParseTypes(b, i, n).value;
      |types| == n && TypeBytes(types) == b[i..i + 4 * n] && AllValid(types)
    decreases n
  {
    if n > 0 {
      U16Bytes(b, i + 2);
      TypesBack(b, i + 4, n - 1);
      var types, rest := ParseTypes(b, i, n).value, ParseTypes(b, i + 4, n - 1).value;
      assert types == [types[0]] + rest && types[1..] == rest;
      assert b[i..i + 4 * n] == b[i..i + 2] + b[i + 2..i + 4] + b[i + 4..i + 4 * n];
    }
  }

  lemma {:induction false} CodeBack(b: seq<Byte>, i: nat, sizes: seq<nat>, k: nat)
    requires ParseCode(b, i, sizes, k).Ok? && i <= |b|
    ensures
      var code := ParseCode(b, i, sizes, k).value;
      && Lengths(code) == sizes && i + Sum(sizes) <= |b|
      && Flatten(code) == b[i..i + Sum(sizes)] && AllNonempty(code)
    decreases |sizes|
  {
    if sizes != [] {
      CodeBack(b, i + sizes[0], sizes[1..], k + 1);
      var code, rest := ParseCode(b, i, sizes, k).value,
                        ParseCode(b, i + sizes[0], sizes[1..], k + 1).value;
      assert code[1..] == rest && code[0] == b[i..i + sizes[0]];
      assert Flatten(code) == code[0] + Flatten(rest);
      assert b[i..i + sizes[0]] + b[i + sizes[0]..i + Sum(sizes)] == b[i..i + Sum(sizes)];
      assert [sizes[0]] + sizes[1..] == sizes;
    }
  }

  /** What a header that parses says about the bytes. */
  lemma FrontFacts(b: seq<Byte>)
    requires ParseFront(b).Ok?
    ensures
      var Sizes(typeSize, sizes, _) := ParseFront(b).value;
      var n := |sizes|;
      && |b| > 9 + 2 * n && typeSize == 4 * n && 1 <= n <= 1024
      && b[0] == 0xEF && b[1] == 0 && b[2] == 1 && b[3] == TYPE && U16At(b, 4) == typeSize
      && b[6] == CODE && U16At(b, 7) == n && sizes == SizesAt(b, 9, n)
  {
    var Sizes(typeSize, sizes, _) := ParseFront(b).value;
    assert ParseSection(b, 3, TYPE) == Ok(typeSize);
    assert ParseSectionList(b, 6) == Ok(sizes);
  }

  /** The steps of a header that parses; `e` is where its data section header starts. */
  lemma HeaderSteps(b: seq<Byte>, typeSize: nat, sizes: seq<nat>, dataSize: nat, e: nat)
    requires ParseHeader(b) == Ok(Sizes(typeSize, sizes, dataSize)) && e == 9 + 2 * |sizes|
    ensures ParseFront(b) == Ok(Sizes(typeSize, sizes, 0)) && ParseSection(b, e, DATA) == Ok(dataSize)
    ensures e + 3 < |b| && b[e + 3] == 0 && |b| == ExpectedSize(e + 3, typeSize, sizes, dataSize)
  {
  }

  lemma SizeFacts(b: seq<Byte>, typeSize: nat, sizes: seq<nat>, dataSize: nat, e: nat)
    requires ParseSection(b, e, DATA) == Ok(dataSize)
    requires e + 3 < |b| && b[e + 3] == 0 && |b| == ExpectedSize(e + 3, typeSize, sizes, dataSize)
    ensures b[e] == DATA && U16At(b, e + 1) == dataSize
    ensures Exact(|b|, e + 4 + typeSize + Sum(sizes) + dataSize)
  {
    SectionFacts(b, e, dataSize);
    ExactSize(|b|, e + 3 + typeSize + Sum(sizes) + dataSize + 1);
  }

  lemma SectionFacts(b: seq<Byte>, e: nat, dataSize: nat)
    requires ParseSection(b, e, DATA) == Ok(dataSize)
    ensures e + 3 <= |b| && b[e] == DATA && U16At(b, e + 1) == dataSize
  {
  }

  /** A header that was accepted, byte by byte. */
  predicate HeaderBytes(b: seq<Byte>, n: nat, sizes: seq<nat>, dataSize: nat) {
    && |sizes| == n && 1 <= n <= 1024 && 13 + 2 * n <= |b|
    && b[0] == 0xEF && b[1] == 0 && b[2] == 1 && b[3] == TYPE && U16At(b, 4) == 4 * n
    && b[6] == CODE && U16At(b, 7) == n && sizes == SizesAt(b, 9, n)
    && b[9 + 2 * n] == DATA && U16At(b, 10 + 2 * n) == dataSize && b[12 + 2 * n] == 0
    && Exact(|b|, 13 + 6 * n + Sum(sizes) + dataSize)
  }

  lemma HeaderFacts(b: seq<Byte>, typeSize: nat, sizes: seq<nat>, dataSize: nat)
    requires ParseHeader(b) == Ok(Sizes(typeSize, sizes, dataSize))
    ensures typeSize == 4 * |sizes| && HeaderBytes(b, |sizes|, sizes, dataSize)
  {
    var e := 9 + 2 * |sizes|;
    HeaderSteps(b, typeSize, sizes, dataSize, e);
    SizeFacts(b, typeSize, sizes, dataSize, e);
    FrontFacts(b);
  }

  /** The wrapping size sum cannot make a longer or shorter input pass: what fits is the exact size. */
  predicate Exact(length: nat, total: nat) {
    total <= length ==> length == total <= 0xFFFF
  }

  lemma FrontFromBytes(b: seq<Byte>, n: nat)
    requires |b| >= 9
    requires b[0] == 0xEF && b[1] == 0 && b[2] == 1 && b[3] == TYPE && U16At(b, 4) == 4 * n
    requires b[6] == CODE && U16At(b, 7) == n
    ensures b[..9] == Front(n, n)
  {
    U16Bytes(b, 4);
    U16Bytes(b, 7);
  }

  lemma BackFromBytes(b: seq<Byte>, e: nat, dataSize: nat)
    requires e + 4 <= |b| && b[e] == DATA && U16At(b, e + 1) == dataSize && b[e + 3] == 0
    ensures b[e..e + 4] == Back(dataSize)
  {
    U16Bytes(b, e + 1);
  }

  lemma HeaderFromBytes(b: seq<Byte>, code: seq<seq<Byte>>, n: nat, e: nat, dataSize: nat)
    requires |code| == n && e == 9 + 2 * n && e + 4 <= |b| && Lengths(code) == SizesAt(b, 9, n)
    requires b[0] == 0xEF && b[1] == 0 && b[2] == 1 && b[3] == TYPE && U16At(b, 4) == 4 * n
    requires b[6] == CODE && U16At(b, 7) == n
    requires b[e] == DATA && U16At(b, e + 1) == dataSize && b[e + 3] == 0
    ensures b[..e + 4] == Header(n, code, dataSize)
  {
    SizesBack(code, b, 9);
    FrontFromBytes(b, n);
    BackFromBytes(b, e, dataSize);
    HeaderJoined(b, code, n, e, dataSize);
  }

  lemma HeaderJoined(b: seq<Byte>, code: seq<seq<Byte>>, n: nat, e: nat, dataSize: nat)
    requires |code| == n && e == 9 + 2 * n && e + 4 <= |b|
    requires b[..9] == Front(n, n) && b[9..9 + 2 * n] == SizeBytes(code) && b[e..e + 4] == Back(dataSize)
    ensures b[..e + 4] == Header(n, code, dataSize)
  {
    assert b[..e + 4] == b[..9] + b[9..e] + b[e..e + 4];
  }

  /** Encoding what was decoded gives back exactly the accepted bytes. */
  lemma MarshalUnmarshal(b: seq<Byte>)
    requires Unmarshal(b).Ok?
    ensures MarshalBinary(Unmarshal(b).value) == b
    ensures WellFormed(Unmarshal(b).value)
  {
    var header := ParseHeader(b).value;
    MarshalAccepted(b, Unmarshal(b).value, header.typeSize, header.code, header.dataSize);
  }

  lemma MarshalAccepted(b: seq<Byte>, c: Container, typeSize: nat, sizes: seq<nat>, dataSize: nat)
    requires ParseHeader(b) == Ok(Sizes(typeSize, sizes, dataSize))
    requires ParseContents(b, typeSize, sizes, dataSize) == Ok(c)
    ensures MarshalBinary(c) == b && WellFormed(c)
  {
    HeaderFacts(b, typeSize, sizes, dataSize);
    MarshalBehindHeader(b, c, |sizes|, sizes, dataSize);
  }

  lemma MarshalBehindHeader(b: seq<Byte>, c: Container, n: nat, sizes: seq<nat>, dataSize: nat)
    requires HeaderBytes(b, n, sizes, dataSize) && ParseContents(b, 4 * n, sizes, dataSize) == Ok(c)
    ensures MarshalBinary(c) == b && WellFormed(c)
  {
    ContentFacts(b, c, n, sizes, dataSize);
    MarshalFromBytes(b, c, n, sizes, 9 + 2 * n, 13 + 2 * n, 13 + 6 * n, 13 + 6 * n + Sum(sizes));
  }

  /** The same from what the parser established. */
  lemma MarshalFromBytes(b: seq<Byte>, c: Container, n: nat, sizes: seq<nat>, e: nat, i: nat, j: nat, d: nat)
    requires e == 9 + 2 * n && i == e + 4
    requires HeaderBytes(b, n, sizes, |c.data|) && ContentBytes(b, c, sizes, i, j, d)
    ensures MarshalBinary(c) == b && WellFormed(c)
  {
    AcceptedContents(b, c, sizes, i, j, d);
    AcceptedHeader(b, c.code, n, sizes, e, |c.data|);
    AcceptedEnd(b, c, n, sizes, i, j, d);
    MarshalFromParts(b, c, n, i, j, d);
  }

  lemma AcceptedContents(b: seq<Byte>, c: Container, sizes: seq<nat>, i: nat, j: nat, d: nat)
    requires ContentBytes(b, c, sizes, i, j, d)
    ensures |c.types| == |sizes| == |c.code| && AllValid(c.types) && AllNonempty(c.code) && Lengths(c.code) == sizes
    ensures i <= j <= d <= |b| && b[i..j] == TypeBytes(c.types) && b[j..d] == Flatten(c.code)
    ensures c.types != [] && c.types[0].input == 0 && c.types[0].output == 0
  {
    ContentsBack(b, c.types, c.code, i, j, sizes);
  }

  lemma AcceptedHeader(b: seq<Byte>, code: seq<seq<Byte>>, n: nat, sizes: seq<nat>, e: nat, dataSize: nat)
    requires HeaderBytes(b, n, sizes, dataSize) && e == 9 + 2 * n && Lengths(code) == sizes
    ensures e + 4 <= |b| && b[..e + 4] == Header(n, code, dataSize)
  {
    assert |code| == |Lengths(code)|;
    HeaderFromBytes(b, code, n, e, dataSize);
  }

  lemma AcceptedEnd(b: seq<Byte>, c: Container, n: nat, sizes: seq<nat>, i: nat, j: nat, d: nat)
    requires HeaderBytes(b, n, sizes, |c.data|) && ContentBytes(b, c, sizes, i, j, d)
    ensures 1 <= n <= 1024 && d + |c.data| == |b| <= 0xFFFF && b[d..d + |c.data|] == c.data
  {
  }

  lemma ContentsBack(b: seq<Byte>, types: seq<FunctionMetadata>, code: seq<seq<Byte>>, i: nat, j: nat, sizes: seq<nat>)
    requires j == i + 4 * |sizes| <= |b|
    requires ParseTypes(b, i, |sizes|) == Ok(types) && ParseCode(b, j, sizes, 0) == Ok(code)
    ensures |types| == |sizes| == |code| && AllValid(types) && AllNonempty(code) && Lengths(code) == sizes
    ensures b[i..j] == TypeBytes(types) && j + Sum(sizes) <= |b| && b[j..j + Sum(sizes)] == Flatten(code)
  {
    TypesBack(b, i, |sizes|);
    CodeBack(b, j, sizes, 0);
    assert |code| == |Lengths(code)|;
  }

  lemma MarshalFromParts(b: seq<Byte>, c: Container, n: nat, i: nat, j: nat, d: nat)
    requires |c.types| == n == |c.code| && 1 <= n <= 1024 && d + |c.data| == |b| <= 0xFFFF
    requires AllValid(c.types) && AllNonempty(c.code)
    requires c.types[0].input == 0 && c.types[0].output == 0
    requires i == 13 + 2 * n && j == i + 4 * n <= d && b[..i] == Header(n, c.code, |c.data|)
    requires b[i..j] == TypeBytes(c.types) && b[j..d] == Flatten(c.code) && b[d..d + |c.data|] == c.data
    ensures MarshalBinary(c) == b && WellFormed(c)
  {
    Reassemble(b, Header(n, c.code, |c.data|), TypeBytes(c.types), Flatten(c.code), c.data);
  }

  lemma Reassemble<T>(b: seq<T>, h: seq<T>, t: seq<T>, f: seq<T>, d: seq<T>)
    requires |b| == |h| + |t| + |f| + |d|
    requires b[..|h|] == h && b[|h|..|h| + |t|] == t && b[|h| + |t|..|h| + |t| + |f|] == f
    requires b[|h| + |t| + |f|..] == d || b[|h| + |t| + |f|..|b|] == d
    ensures h + t + f + d == b
  {
  }

  /** Contents that were cut out of accepted bytes: types from `i`, code from `j`, data from `d`. */
  predicate ContentBytes(b: seq<Byte>, c: Container, sizes: seq<nat>, i: nat, j: nat, d: nat) {
    && i == 13 + 2 * |sizes| && j == i + 4 * |sizes| && d == j + Sum(sizes)
    && ParseTypes(b, i, |sizes|) == Ok(c.types) && ParseCode(b, j, sizes, 0) == Ok(c.code)
    && d + |c.data| <= |b| && c.data == b[d..d + |c.data|]
    && c.types != [] && c.types[0].input == 0 && c.types[0].output == 0
  }

  lemma ContentFacts(b: seq<Byte>, c: Container, n: nat, sizes: seq<nat>, dataSize: nat)
    requires |sizes| == n && ParseContents(b, 4 * n, sizes, dataSize) == Ok(c)
    ensures |c.data| == dataSize && ContentBytes(b, c, sizes, 13 + 2 * n, 13 + 6 * n, 13 + 6 * n + Sum(sizes))
  {
    assert 4 * n / 4 == n;
  }

  lemma ExactSize(length: nat, total: nat)
    requires length == total % 0x1_0000
    ensures Exact(length, total)
  {
  }

  /** The accepted byte strings are exactly the encodings of the well-formed containers. */
  lemma AcceptedIffEncoding(b: seq<Byte>)
    ensures Unmarshal(b).Ok? <==> exists c :: WellFormed(c) && MarshalBinary(c) == b
  {
    if Unmarshal(b).Ok? {
      MarshalUnmarshal(b);
    }
    forall c | WellFormed(c) && MarshalBinary(c) == b
      ensures Unmarshal(b).Ok?
    {
      UnmarshalMarshal(c);
    }
  }
}
