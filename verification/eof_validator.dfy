/** `validate_code` and `validate_container`: the linear scan over a code section followed
    by the control-flow verifier, and what an accepted section guarantees. */
module EofValidator {
  import opened Opcodes
  import opened CodeBitmap
  import opened EofContainer
  import opened EofFlow

  datatype CodeError =
    | UndefinedInstruction
    | TruncatedImmediate(op: Byte, at: nat)
    | InvalidJumpDest(offset: int, at: nat)
    | UnexpectedEnd
    | InvalidBranchCount(at: nat)
    | InvalidSectionArgument(arg: nat, at: nat)
    | InvalidCodeTermination(op: Byte, at: nat)
    | InvalidFlow(error: FlowError)
    | UnreachableCode

  datatype Outcome = Valid | Invalid(error: CodeError)

  const DEPRECATED: set<Byte> := {0xF2, 0xFF, 0x56, 0x57, 0x58}

  // ---- The linear scan -------------------------------------------------------------------

  /** `check_dest`: the offset at `imm`, relative to `from`, hits a code position. */
  predicate DestOk(code: seq<Byte>, imm: nat, from: nat) {
    var dest := from + I16At(code, imm);
    imm + 2 <= |code| && 0 <= dest < |code| && IsCode(code, dest)
  }

  /** The scan's checks on the instruction at `i`. */
  predicate InstructionOk(code: seq<Byte>, sections: nat, i: nat)
    requires i < |code|
  {
    var op := code[i];
    && (IsPush(op) ==> i + (op - PUSH0) < |code|)
    && (op == RJUMP || op == RJUMPI ==> i + 2 < |code| && DestOk(code, i + 1, i + 3))
    && (op == RJUMPV ==>
          && i + 1 < |code| && 0 < code[i + 1] && i + code[i + 1] < |code|
          && forall j :: 0 <= j < code[i + 1] ==> TableEntryOk(code, i, j))
    && (op == CALLF ==> i + 2 < |code| && U16At(code, i + 1) < sections)
  }

  predicate TableEntryOk(code: seq<Byte>, i: nat, j: nat)
    requires i + 1 < |code|
  {
    DestOk(code, i + 2 + j * 2, i + 2 * code[i + 1] as int + 2)
  }

  predicate ScanOk(code: seq<Byte>, sections: nat) {
    forall p :: 0 <= p < |code| && IsStart(code, p) ==> InstructionOk(code, sections, p)
  }

  /** The instruction counter at the end of a scan that has reached `i` with `count`. The
      counter is reused for the size of a jump table and not restored. */
  function CountFrom(code: seq<Byte>, i: nat, count: nat): nat
    decreases |code| - i
  {
    if i >= |code| then count
    else CountFrom(code, i + Length(code, i), if code[i] == RJUMPV then ByteAt(code, i + 1) else count + 1)
  }

  /** The opcode of the last instruction. */
  function LastFrom(code: seq<Byte>, i: nat, last: Byte): Byte
    decreases |code| - i
  {
    if i >= |code| then last else LastFrom(code, i + Length(code, i), code[i])
  }

  ghost predicate ReachedCount(code: seq<Byte>, types: Types, section: nat, n: nat) {
    exists hs :: Certificate(code, types, section, hs) && |VisitedSet(hs)| == n
  }

  /** What `validate_code` decides. */
  ghost predicate SectionValid(code: seq<Byte>, types: Types, section: nat) {
    && ScanOk(code, |types|)
    && IsTerminal(LastFrom(code, 0, STOP))
    && FlowSafe(code, types, section)
    && ReachedCount(code, types, section, CountFrom(code, 0, 0))
  }

  lemma CertificateUnique(code: seq<Byte>, types: Types, section: nat, hs: seq<int>, hs': seq<int>)
    requires Certificate(code, types, section, hs) && Certificate(code, types, section, hs')
    ensures hs == hs'
  {
    forall p | 0 <= p < |code| ensures hs[p] == hs'[p] {
      if Visited(hs, p) {
        assert Reached(code, types, section, Config(p, hs[p]));
      } else if Visited(hs', p) {
        assert Reached(code, types, section, Config(p, hs'[p]));
      }
    }
  }

  // ---- The scan as the source runs it --------------------------------------------------------

  /** The bitmap is computed at the first jump and kept for the later ones. */
  ghost predicate Describes(analysis: Bitvec?, code: seq<Byte>)
    reads analysis, if analysis == null then {} else {analysis.bits}
  {
    analysis != null ==>
      analysis.bits.Length == |code| / 8 + 5 &&
      forall p: nat :: p < |code| ==> (!BitAt(analysis.bits[..], p) <==> IsCode(code, p))
  }

  method CheckDest(code: seq<Byte>, analysis: Bitvec?, imm: nat, from: nat)
      returns (r: Outcome, analysis': Bitvec?)
    requires Describes(analysis, code)
    ensures r.Valid? <==> DestOk(code, imm, from)
    ensures Describes(analysis', code)
  {
    analysis' := analysis;
    if |code| < imm + 2 {
      return Invalid(UnexpectedEnd), analysis';
    }
    if analysis' == null {
      analysis' := EofCodeBitmap(code);
    }
    var offset := I16At(code, imm);
    var dest := from + offset;
    if dest < 0 || dest >= |code| {
      return Invalid(InvalidJumpDest(offset, imm)), analysis';
    }
    var segment := analysis'.IsCodeSegment(dest);
    r := if segment then Valid else Invalid(InvalidJumpDest(offset, imm));
  }

  /** The loop over a jump table. */
  method CheckTable(code: seq<Byte>, analysis: Bitvec?, i: nat)
      returns (r: Outcome, analysis': Bitvec?)
    requires i + 1 < |code| && Describes(analysis, code)
    ensures r.Valid? <==> forall j :: 0 <= j < code[i + 1] ==> TableEntryOk(code, i, j)
    ensures Describes(analysis', code)
  {
    analysis' := analysis;
    for j := 0 to code[i + 1]
      invariant forall k :: 0 <= k < j ==> TableEntryOk(code, i, k)
      invariant Describes(analysis', code)
    {
      r, analysis' := CheckDest(code, analysis', i + 2 + j * 2, i + 2 * code[i + 1] as int + 2);
      if r.Invalid? {
        assert !TableEntryOk(code, i, j);
        return;
      }
    }
    r := Valid;
  }

  /** The checks on one instruction, in the order of the source. The first one can never
      fail, because every deprecated opcode has an entry in the table. */
  method CheckInstruction(code: seq<Byte>, sections: nat, i: nat, analysis: Bitvec?)
      returns (r: Outcome, analysis': Bitvec?)
    requires i < |code| && Describes(analysis, code)
    ensures r.Valid? <==> InstructionOk(code, sections, i)
    ensures Describes(analysis', code)
  {
    analysis' := analysis;
    r := Valid;
    var op := code[i];
    if Info(op).None? && op in DEPRECATED {
      return Invalid(UndefinedInstruction), analysis';
    }
    if PUSH0 < op <= PUSH32 {
      if |code| <= i + (op - PUSH0) {
        return Invalid(TruncatedImmediate(op, i)), analysis';
      }
    }
    if op == RJUMP || op == RJUMPI {
      if |code| <= i + 2 {
        return Invalid(TruncatedImmediate(op, i)), analysis';
      }
      r, analysis' := CheckDest(code, analysis', i + 1, i + 3);
    }
    if op == RJUMPV {
      if |code| <= i + 1 {
        return Invalid(TruncatedImmediate(op, i)), analysis';
      }
      if code[i + 1] == 0 {
        return Invalid(InvalidBranchCount(i)), analysis';
      }
      if |code| <= i + code[i + 1] {
        return Invalid(TruncatedImmediate(op, i)), analysis';
      }
      r, analysis' := CheckTable(code, analysis', i);
    }
    if op == CALLF {
      if i + 2 >= |code| {
        return Invalid(TruncatedImmediate(op, i)), analysis';
      }
      if U16At(code, i + 1) >= sections {
        return Invalid(InvalidSectionArgument(U16At(code, i + 1), i)), analysis';
      }
    }
  }

  /** The scan: counts instructions and remembers the last opcode. */
  method Scan(code: seq<Byte>, sections: nat) returns (r: Outcome, count: nat, last: Byte)
    ensures r.Valid? <==> ScanOk(code, sections)
    ensures r.Valid? ==> count == CountFrom(code, 0, 0) && last == LastFrom(code, 0, STOP)
  {
    var i: nat, analysis: Bitvec? := 0, null;
    count, last := 0, STOP;
    while i < |code|
      invariant i < |code| ==> IsStart(code, i)
      invariant forall p :: 0 <= p < |code| && IsStart(code, p) && p < i ==> InstructionOk(code, sections, p)
      invariant Describes(analysis, code)
      invariant CountFrom(code, i, count) == CountFrom(code, 0, 0)
      invariant LastFrom(code, i, last) == LastFrom(code, 0, STOP)
      decreases |code| - i
    {
      last := code[i];
      r, analysis := CheckInstruction(code, sections, i, analysis);
      if r.Invalid? {
        return;
      }
      count := if last == RJUMPV then ByteAt(code, i + 1) else count + 1;
      NextStart(code, i);
      forall p | 0 <= p < |code| && IsStart(code, p) && p < i + Length(code, i)
        ensures InstructionOk(code, sections, p)
      {
        if p > i {
          NoStartInside(code, i, p);
        }
      }
      i := i + Length(code, i);
    }
    r := Valid;
  }

  /** `validate_code`. */
  method ValidateCode(code: seq<Byte>, section: nat, types: Types) returns (r: Outcome)
    ensures r.Valid? <==> SectionValid(code, types, section)
  {
    var count, last;
    r, count, last := Scan(code, |types|);
    if r.Invalid? {
      return;
    }
    if !IsTerminal(last) {
      return Invalid(InvalidCodeTermination(last, |code|));
    }
    var flow, hs := ValidateControlFlow(code, section, types);
    if flow.Rejected? {
      return Invalid(InvalidFlow(flow.error));
    }
    if flow.value != count {
      forall hs' | Certificate(code, types, section, hs') ensures hs' == hs {
        CertificateUnique(code, types, section, hs, hs');
      }
      return Invalid(UnreachableCode);
    }
    r := Valid;
  }

  ghost predicate ContainerValid(c: Container) {
    forall s :: 0 <= s < |c.code| ==> SectionValid(c.code[s], c.types, s)
  }

  ghost predicate SectionsValid(c: Container, n: nat)
    requires n <= |c.code|
  {
    n > 0 ==> SectionsValid(c, n - 1) && SectionValid(c.code[n - 1], c.types, n - 1)
  }

  lemma {:induction false} SectionsUpTo(c: Container, n: nat, s: nat)
    requires s < n <= |c.code| && SectionsValid(c, n)
    ensures SectionValid(c.code[s], c.types, s)
  {
    if s < n - 1 {
      SectionsUpTo(c, n - 1, s);
    }
  }

  lemma AllSections(c: Container)
    requires SectionsValid(c, |c.code|)
    ensures ContainerValid(c)
  {
    forall s | 0 <= s < |c.code| ensures SectionValid(c.code[s], c.types, s) {
      SectionsUpTo(c, |c.code|, s);
    }
  }

  /** `validate_container`. */
  method ValidateContainer(c: Container) returns (r: Outcome)
    ensures r.Valid? <==> ContainerValid(c)
  {
    for s := 0 to |c.code|
      invariant SectionsValid(c, s)
    {
      r := ValidateCode(c.code[s], s, c.types);
      if r.Invalid? {
        return;
      }
    }
    AllSections(c);
    r := Valid;
  }

  // ---- What acceptance means ---------------------------------------------------------------------

  /** An instruction that reaches up to the end is the last one. */
  lemma {:induction false} LastInstruction(code: seq<Byte>, i: nat, last: Byte, p: nat)
    requires StartsFrom(code, i, p) && p < |code| && p + Length(code, p) >= |code|
    ensures LastFrom(code, i, last) == code[p]
    decreases |code| - i
  {
    if i != p {
      LastInstruction(code, i + Length(code, i), code[i], p);
    }
  }

  /** Only the terminal last instruction may be followed by nothing. */
  lemma FallsThroughInside(code: seq<Byte>, p: nat)
    requires IsStart(code, p) && IsTerminal(LastFrom(code, 0, STOP))
    requires p < |code| && !IsTerminal(code[p])
    ensures p + Length(code, p) < |code| && IsStart(code, p + Length(code, p))
  {
    NextStart(code, p);
    if p + Length(code, p) >= |code| {
      LastInstruction(code, 0, STOP, p);
    }
  }

  /** A destination that passed `check_dest` is an instruction start. */
  lemma DestIsStart(code: seq<Byte>, imm: nat, from: nat)
    requires HarmlessTables(code) && DestOk(code, imm, from)
    ensures
      var dest := from + I16At(code, imm);
      0 <= dest < |code| && IsStart(code, dest)
  {
    BitmapDecodesLinearly(code, from + I16At(code, imm));
  }

  /** Where an instruction's successors lie: at a jump target, a table entry, or right behind it. */
  lemma NextPosition(code: seq<Byte>, types: Types, section: nat, c: Config, d: Config)
    requires section < |types| && Inside(code, c) && LocalOk(code, types, section, c)
    requires d in Next(code, types, section, c)
    ensures
      var p, op := c.pos, code[c.pos];
      || ((op == RJUMP || op == RJUMPI) && d.pos == p + 3 + I16At(code, p + 1))
      || (op == RJUMPV && d in Targets(code, p, ByteAt(code, p + 1), 0, After(code, c)))
      || (!IsTerminal(op) && d.pos == p + Length(code, p))
  {
  }

  /** Control moves from instruction to instruction and never leaves the section. */
  lemma NextIsStart(code: seq<Byte>, types: Types, section: nat, c: Config, d: Config)
    requires ScanOk(code, |types|) && IsTerminal(LastFrom(code, 0, STOP)) && HarmlessTables(code)
    requires section < |types| && Inside(code, c) && LocalOk(code, types, section, c)
    requires IsStart(code, c.pos) && d in Next(code, types, section, c)
    ensures Inside(code, d) && IsStart(code, d.pos)
  {
    var p, op := c.pos, code[c.pos];
    NextPosition(code, types, section, c, d);
    assert InstructionOk(code, |types|, p);
    if !IsTerminal(op) && d.pos == p + Length(code, p) {
      FallsThroughInside(code, p);
    } else if op == RJUMPV {
      TableNextIsStart(code, p, After(code, c), d);
    } else {
      DestIsStart(code, p + 1, p + 3);
    }
  }

  lemma TableNextIsStart(code: seq<Byte>, p: nat, height: nat, d: Config)
    requires HarmlessTables(code) && p + 1 < |code|
    requires forall j :: 0 <= j < code[p + 1] ==> TableEntryOk(code, p, j)
    requires d in Targets(code, p, code[p + 1], 0, height)
    ensures Inside(code, d) && IsStart(code, d.pos)
  {
    var j := TargetEntry(code, p, code[p + 1], 0, height, d);
    TableEntryIsStart(code, p, j, d.pos);
  }

  lemma TableEntryIsStart(code: seq<Byte>, p: nat, j: nat, pos: int)
    requires HarmlessTables(code) && p + 1 < |code| && j < code[p + 1] && TableEntryOk(code, p, j)
    requires pos == p + 2 + 2 * code[p + 1] as int + I16At(code, p + 2 + 2 * j)
    ensures 0 <= pos < |code| && IsStart(code, pos)
  {
    DestIsStart(code, p + 2 + j * 2, p + 2 * code[p + 1] as int + 2);
  }

  lemma {:induction false} TargetEntry(code: seq<Byte>, pos: nat, count: nat, i: nat, height: nat, d: Config)
      returns (j: nat)
    requires i <= count && d in Targets(code, pos, count, i, height)
    ensures j < count && d.pos == pos + 2 + 2 * count + I16At(code, pos + 2 + 2 * j)
    decreases count - i
  {
    var rest := Targets(code, pos, count, i + 1, height);
    if d in rest {
      j := TargetEntry(code, pos, count, i + 1, height, d);
    } else {
      j := i;
    }
  }

  lemma {:induction false} PathOnStarts(code: seq<Byte>, types: Types, section: nat, path: seq<Config>)
    requires ScanOk(code, |types|) && IsTerminal(LastFrom(code, 0, STOP)) && HarmlessTables(code)
    requires section < |types| && code != [] && IsPath(code, types, section, path)
    ensures Inside(code, path[|path| - 1]) && IsStart(code, path[|path| - 1].pos)
  {
    var n := |path| - 1;
    if n > 0 {
      assert IsPath(code, types, section, path[..n]);
      PathOnStarts(code, types, section, path[..n]);
      assert Step(code, types, section, path[n - 1], path[n]);
      NextIsStart(code, types, section, path[n - 1], path[n]);
    }
  }

  ghost function StartSet(code: seq<Byte>): set<nat> {
    set p: nat | p < |code| && IsStart(code, p)
  }

  /** Paths only visit instruction starts. */
  lemma VisitedAreStarts(code: seq<Byte>, types: Types, section: nat, hs: seq<int>)
    requires ScanOk(code, |types|) && IsTerminal(LastFrom(code, 0, STOP)) && HarmlessTables(code)
    requires code != [] && Certificate(code, types, section, hs)
    ensures VisitedSet(hs) <= StartSet(code)
  {
    forall p | p in VisitedSet(hs) ensures p in StartSet(code) {
      assert Visited(hs, p);
      var path :| IsPath(code, types, section, path) && path[|path| - 1] == Config(p, hs[p]);
      PathOnStarts(code, types, section, path);
    }
  }

  ghost function StartSetFrom(code: seq<Byte>, i: nat): set<nat> {
    set p: nat | i <= p < |code| && StartsFrom(code, i, p)
  }

  lemma StartSetStep(code: seq<Byte>, i: nat, n: nat)
    requires i < |code| && n == i + Length(code, i)
    ensures StartSetFrom(code, i) == {i} + StartSetFrom(code, n) && i !in StartSetFrom(code, n)
  {
    forall p: nat ensures StartsFrom(code, i, p) <==> p == i || StartsFrom(code, n, p) {
      if StartsFrom(code, n, p) {
        StartInside(code, n, p);
      }
    }
    if StartsFrom(code, n, i) {
      StartInside(code, n, i);
    }
  }

  lemma {:induction false} CountsStarts(code: seq<Byte>, i: nat, count: nat)
    requires JumpTableFree(code) && (i < |code| ==> IsStart(code, i))
    ensures CountFrom(code, i, count) == count + |StartSetFrom(code, i)|
    decreases |code| - i
  {
    if i < |code| {
      var n := i + Length(code, i);
      NextStart(code, i);
      CountsStarts(code, n, count + 1);
      StartSetStep(code, i, n);
    } else {
      assert StartSetFrom(code, i) == {};
    }
  }

  /** Whether every instruction of an accepted section is reachable hangs on the counter
      alone: it is so exactly when the counter still counts the instructions. */
  lemma AllReachableIff(code: seq<Byte>, types: Types, section: nat, hs: seq<int>)
    requires SectionValid(code, types, section) && HarmlessTables(code) && code != []
    requires Certificate(code, types, section, hs)
    ensures (forall p: nat :: p < |code| && IsStart(code, p) ==> Visited(hs, p))
            <==> CountFrom(code, 0, 0) == |StartSet(code)|
  {
    VisitedAreStarts(code, types, section, hs);
    var hs' :| Certificate(code, types, section, hs') && |VisitedSet(hs')| == CountFrom(code, 0, 0);
    CertificateUnique(code, types, section, hs, hs');
    SubsetSize(VisitedSet(hs), StartSet(code));
    if forall p: nat :: p < |code| && IsStart(code, p) ==> Visited(hs, p) {
      assert StartSet(code) == VisitedSet(hs);
    }
    if CountFrom(code, 0, 0) == |StartSet(code)| {
      forall p: nat | p < |code| && IsStart(code, p) ensures Visited(hs, p) {
        assert p in VisitedSet(hs);
      }
    }
  }

  /** Without jump tables no accepted section contains unreachable instructions. */
  lemma NoUnreachableCode(code: seq<Byte>, types: Types, section: nat, hs: seq<int>, p: nat)
    requires SectionValid(code, types, section) && JumpTableFree(code) && code != []
    requires Certificate(code, types, section, hs) && IsStart(code, p)
    ensures Visited(hs, p) && Reached(code, types, section, Config(p, hs[p]))
  {
    CountsStarts(code, 0, 0);
    assert StartSetFrom(code, 0) == StartSet(code);
    StartInside(code, 0, p);
    AllReachableIff(code, types, section, hs);
  }

  // ---- Which opcodes are accepted --------------------------------------------------------------------

  /** Without jump tables every instruction of an accepted section is defined, as section
      "Specification" of EIP-3670 asks. The scan does not see to it; the flow check does, since it
      reaches every instruction. */
  lemma AcceptedAreDefined(code: seq<Byte>, types: Types, section: nat, p: nat)
    requires SectionValid(code, types, section) && JumpTableFree(code) && code != [] && p < |code| && IsStart(code, p)
    ensures Info(code[p]).Some?
  {
    var hs: seq<int> :| Certificate(code, types, section, hs) && |VisitedSet(hs)| == CountFrom(code, 0, 0);
    NoUnreachableCode(code, types, section, hs, p);
    var height: int := hs[p];
    var c := Config(p, height);
    assert Inside(code, c) && LocalOk(code, types, section, c);
  }

  /** The scan's own test, undefined and deprecated at once, never fires: every deprecated opcode is
      defined. So the scan alone passes undefined opcodes. */
  lemma ScanIgnoresOpcodes()
    ensures forall op :: op in DEPRECATED ==> Info(op).Some?
    ensures Info(0x0C).None? && ScanOk([0x0C, STOP], 1)
  {
    var code: seq<Byte> := [0x0C, STOP];
    assert forall p :: 0 <= p < |code| ==> InstructionOk(code, 1, p);
  }

  /** PC, POP, STOP. */
  const DATED: seq<Byte> := [0x58, 0x50, 0]

  const DATED_TYPES: Types := [FunctionMetadata(0, 0, 1)]

  const DATED_PATH: seq<Config> := [Config(0, 0), Config(1, 1), Config(2, 0)]

  const DATED_HEIGHTS: seq<int> := [0, 1, 0]

  lemma DatedNext()
    ensures forall i :: 0 <= i < 3 ==> LocalOk(DATED, DATED_TYPES, 0, DATED_PATH[i])
    ensures Next(DATED, DATED_TYPES, 0, DATED_PATH[0]) == [DATED_PATH[1]]
    ensures Next(DATED, DATED_TYPES, 0, DATED_PATH[1]) == [DATED_PATH[2]]
    ensures Next(DATED, DATED_TYPES, 0, DATED_PATH[2]) == []
  {
  }

  lemma DatedReached()
    ensures forall i :: 0 <= i < 3 ==> Reached(DATED, DATED_TYPES, 0, DATED_PATH[i])
  {
    DatedNext();
    EntryReached(DATED, DATED_TYPES, 0);
    StepReached(DATED, DATED_TYPES, 0, DATED_PATH[0], DATED_PATH[1]);
    StepReached(DATED, DATED_TYPES, 0, DATED_PATH[1], DATED_PATH[2]);
  }

  lemma DatedFlow()
    ensures Inv(DATED, DATED_TYPES, 0, DATED_HEIGHTS, [], 1)
  {
    DatedReached();
    assert DATED_PATH[1].height == 1;
    forall p | Visited(DATED_HEIGHTS, p)
      ensures Expanded(DATED, DATED_TYPES, 0, DATED_HEIGHTS, [], 1, p)
    {
      DatedNext();
      assert p == 0 || p == 1 || p == 2;
      assert Config(p, DATED_HEIGHTS[p]) == DATED_PATH[p];
    }
  }

  lemma DatedScan()
    ensures ScanOk(DATED, |DATED_TYPES|) && IsTerminal(LastFrom(DATED, 0, STOP))
    ensures CountFrom(DATED, 0, 0) == |VisitedSet(DATED_HEIGHTS)|
  {
    var code := DATED;
    assert Length(code, 0) == 1 && Length(code, 1) == 1 && Length(code, 2) == 1;
    assert CountFrom(code, 2, 2) == 3 && CountFrom(code, 1, 1) == 3;
    assert LastFrom(code, 2, 0x50) == STOP && LastFrom(code, 1, 0x58) == STOP;
    assert forall p :: 0 <= p < |code| ==> InstructionOk(code, 1, p);
    DatedVisited();
  }

  lemma DatedVisited()
    ensures VisitedSet(DATED_HEIGHTS) == {0, 1, 2} && |VisitedSet(DATED_HEIGHTS)| == 3
  {
    assert VisitedSet(DATED_HEIGHTS) == {0, 1, 2};
  }

  /** So a deprecated opcode is accepted. */
  lemma DeprecatedIsAccepted()
    ensures DATED[0] in DEPRECATED && SectionValid(DATED, DATED_TYPES, 0)
  {
    DatedScan();
    DatedFlow();
    ValidFromInvariant(DATED, DATED_TYPES, 0, DATED_HEIGHTS, 1);
  }

  // ---- A jump table hides unreachable code ----------------------------------------------------------

  /** PUSH1 0, RJUMPV with one target, STOP, STOP. */
  const HIDDEN: seq<Byte> := [0x60, 0, 0x5E, 1, 0, 0, 0, 0]

  const HIDDEN_TYPES: Types := [FunctionMetadata(0, 0, 1)]

  const HIDDEN_HEIGHTS: seq<int> := [0, -1, 1, -1, -1, -1, 0, -1]

  lemma HiddenLengths()
    ensures Length(HIDDEN, 0) == 2 && Length(HIDDEN, 2) == 4 && Length(HIDDEN, 6) == 1 && Length(HIDDEN, 7) == 1
  {
  }

  lemma HiddenMarks()
    ensures IsStart(HIDDEN, 7) && HarmlessTables(HIDDEN) && IsCode(HIDDEN, 6)
  {
    var code := HIDDEN;
    HiddenLengths();
    assert StartsFrom(code, 6, 7) && StartsFrom(code, 2, 7);
    assert Marked(code, 0) == 1 && Marked(code, 2) == 3;
    assert CodeFrom(code, 6, 6) && CodeFrom(code, 2, 6);
  }

  lemma HiddenScanned()
    ensures LastFrom(HIDDEN, 0, STOP) == STOP && CountFrom(HIDDEN, 0, 0) == 3
  {
    var code := HIDDEN;
    HiddenLengths();
    assert CountFrom(code, 7, 2) == 3 && CountFrom(code, 6, 1) == 3 && CountFrom(code, 2, 1) == 3;
    assert LastFrom(code, 7, STOP) == STOP && LastFrom(code, 6, RJUMPV) == STOP && LastFrom(code, 2, PUSH1) == STOP;
  }

  lemma HiddenScan()
    ensures ScanOk(HIDDEN, 1) && LastFrom(HIDDEN, 0, STOP) == STOP && CountFrom(HIDDEN, 0, 0) == 3
    ensures IsStart(HIDDEN, 7) && HarmlessTables(HIDDEN)
  {
    HiddenMarks();
    HiddenScanned();
    HiddenTable();
    forall p: nat | p < |HIDDEN| ensures InstructionOk(HIDDEN, 1, p) {
      if p != 2 {
        HiddenOther(p);
      }
    }
  }

  lemma HiddenTable()
    ensures InstructionOk(HIDDEN, 1, 2)
  {
    HiddenMarks();
    assert I16At(HIDDEN, 4) == 0 && TableEntryOk(HIDDEN, 2, 0);
  }

  lemma HiddenOther(p: nat)
    requires p < |HIDDEN| && p != 2
    ensures InstructionOk(HIDDEN, 1, p)
  {
  }

  const HIDDEN_PATH: seq<Config> := [Config(0, 0), Config(2, 1), Config(6, 0)]

  lemma HiddenNext()
    ensures forall i :: 0 <= i < 3 ==> LocalOk(HIDDEN, HIDDEN_TYPES, 0, HIDDEN_PATH[i])
    ensures Next(HIDDEN, HIDDEN_TYPES, 0, HIDDEN_PATH[0]) == [HIDDEN_PATH[1]]
    ensures Next(HIDDEN, HIDDEN_TYPES, 0, HIDDEN_PATH[1]) == [HIDDEN_PATH[2], HIDDEN_PATH[2]]
    ensures Next(HIDDEN, HIDDEN_TYPES, 0, HIDDEN_PATH[2]) == []
  {
    assert Targets(HIDDEN, 2, 1, 1, 0) == [] && Targets(HIDDEN, 2, 1, 0, 0) == [Config(6, 0)];
  }

  lemma HiddenReached()
    ensures forall i :: 0 <= i < 3 ==> Reached(HIDDEN, HIDDEN_TYPES, 0, HIDDEN_PATH[i])
  {
    HiddenNext();
    EntryReached(HIDDEN, HIDDEN_TYPES, 0);
    StepReached(HIDDEN, HIDDEN_TYPES, 0, HIDDEN_PATH[0], HIDDEN_PATH[1]);
    StepReached(HIDDEN, HIDDEN_TYPES, 0, HIDDEN_PATH[1], HIDDEN_PATH[2]);
  }

  lemma HiddenExpanded(p: int)
    requires Visited(HIDDEN_HEIGHTS, p)
    ensures Expanded(HIDDEN, HIDDEN_TYPES, 0, HIDDEN_HEIGHTS, [], 1, p)
  {
    HiddenNext();
    HiddenReached();
    assert p == 0 || p == 2 || p == 6;
    assert Config(p, HIDDEN_HEIGHTS[p]) == HIDDEN_PATH[if p == 0 then 0 else if p == 2 then 1 else 2];
  }

  lemma HiddenFlow()
    ensures Inv(HIDDEN, HIDDEN_TYPES, 0, HIDDEN_HEIGHTS, [], 1)
  {
    HiddenReached();
    assert HIDDEN_PATH[1].height == 1;
    forall p | Visited(HIDDEN_HEIGHTS, p)
      ensures Expanded(HIDDEN, HIDDEN_TYPES, 0, HIDDEN_HEIGHTS, [], 1, p)
    {
      HiddenExpanded(p);
    }
  }

  lemma ValidFromInvariant(code: seq<Byte>, types: Types, section: nat, hs: seq<int>, max: nat)
    requires ScanOk(code, |types|) && IsTerminal(LastFrom(code, 0, STOP))
    requires Inv(code, types, section, hs, [], max) && max == types[section].maxStackHeight
    requires CountFrom(code, 0, 0) == |VisitedSet(hs)|
    ensures SectionValid(code, types, section) && Certificate(code, types, section, hs)
  {
    DoneIsCertificate(code, types, section, hs, max);
  }

  lemma HiddenUnreached(h: nat)
    requires Certificate(HIDDEN, HIDDEN_TYPES, 0, HIDDEN_HEIGHTS)
    ensures !Reached(HIDDEN, HIDDEN_TYPES, 0, Config(7, h))
  {
    assert Inside(HIDDEN, Config(7, h)) && HIDDEN_HEIGHTS[7] == -1;
  }

  lemma HiddenVisited()
    ensures VisitedSet(HIDDEN_HEIGHTS) == {0, 2, 6} && |VisitedSet(HIDDEN_HEIGHTS)| == 3
  {
    assert VisitedSet(HIDDEN_HEIGHTS) == {0, 2, 6};
  }

  lemma HiddenCounts()
    ensures CountFrom(HIDDEN, 0, 0) == |VisitedSet(HIDDEN_HEIGHTS)| && IsTerminal(LastFrom(HIDDEN, 0, STOP))
    ensures ScanOk(HIDDEN, |HIDDEN_TYPES|) && HIDDEN_TYPES[0].maxStackHeight == 1
  {
    HiddenScan();
    HiddenVisited();
  }

  lemma HiddenValid()
    ensures SectionValid(HIDDEN, HIDDEN_TYPES, 0) && Certificate(HIDDEN, HIDDEN_TYPES, 0, HIDDEN_HEIGHTS)
  {
    HiddenCounts();
    HiddenFlow();
    ValidFromInvariant(HIDDEN, HIDDEN_TYPES, 0, HIDDEN_HEIGHTS, 1);
  }

  /** With a jump table the counter no longer counts instructions: this section is accepted
      although no path reaches its last STOP. */
  lemma TableHidesUnreachableCode()
    ensures SectionValid(HIDDEN, HIDDEN_TYPES, 0) && IsStart(HIDDEN, 7)
    ensures forall h: nat :: !Reached(HIDDEN, HIDDEN_TYPES, 0, Config(7, h))
  {
    HiddenScan();
    HiddenValid();
    forall h: nat ensures !Reached(HIDDEN, HIDDEN_TYPES, 0, Config(7, h)) {
      HiddenUnreached(h);
    }
  }
}
