/** An accepted container whose jump table the interpreter misreads: a run of it underflows the operand
    stack. */
module EofTables {
  import opened Opcodes
  import opened CodeBitmap
  import opened EofContainer
  import opened EofFlow
  import opened EofValidator
  import EofMachine

  /** PUSH1 2, RJUMPV with two targets, PUSH2 3, POP, STOP. For index 2 the interpreter reads the operand
      of PUSH2 as a jump offset. */
  const MISREAD: seq<Byte> := [0x60, 2, 0x5E, 2, 0, 0, 0, 0, 0x61, 0, 3, 0x50, 0]

  const TYPES: Types := [FunctionMetadata(0, 0, 1)]

  const CONTAINER: Container := Container(TYPES, [MISREAD], [])

  const PATH: seq<Config> := [Config(0, 0), Config(2, 1), Config(8, 0), Config(11, 1), Config(12, 0)]

  const HEIGHTS: seq<int> := [0, -1, 1, -1, -1, -1, -1, -1, 0, -1, -1, 1, 0]

  // ---- The validator accepts it ----------------------------------------------------------------

  lemma Lengths()
    ensures Length(MISREAD, 0) == 2 && Length(MISREAD, 2) == 6 && Length(MISREAD, 8) == 3
    ensures Length(MISREAD, 11) == 1 && Length(MISREAD, 12) == 1
  {
  }

  lemma TargetIsCode()
    ensures IsCode(MISREAD, 8)
  {
    assert Marked(MISREAD, 0) == 1 && Marked(MISREAD, 2) == 5;
    assert CodeFrom(MISREAD, 8, 8) && CodeFrom(MISREAD, 2, 8);
  }

  lemma EntryOk(j: nat)
    requires j < 2
    ensures TableEntryOk(MISREAD, 2, j)
  {
    TargetIsCode();
    assert I16At(MISREAD, 4) == 0 && I16At(MISREAD, 6) == 0;
  }

  lemma TableOk()
    ensures InstructionOk(MISREAD, 1, 2)
  {
    EntryOk(0);
    EntryOk(1);
    CountedTableOk(MISREAD, 2);
  }

  lemma CountedTableOk(code: seq<Byte>, i: nat)
    requires i + 2 < |code| && code[i] == RJUMPV && code[i + 1] == 2
    requires TableEntryOk(code, i, 0) && TableEntryOk(code, i, 1)
    ensures InstructionOk(code, 1, i)
  {
  }

  lemma OthersOk(p: nat)
    requires p < |MISREAD| && p != 2
    ensures InstructionOk(MISREAD, 1, p)
  {
  }

  lemma Scan()
    ensures ScanOk(MISREAD, 1)
  {
    TableOk();
    forall p: nat | p < |MISREAD| ensures InstructionOk(MISREAD, 1, p) {
      if p != 2 {
        OthersOk(p);
      }
    }
  }

  lemma Ends()
    ensures LastFrom(MISREAD, 0, STOP) == STOP
  {
    Lengths();
    assert LastFrom(MISREAD, 12, 0x50) == STOP && LastFrom(MISREAD, 11, 0x61) == STOP;
    assert LastFrom(MISREAD, 8, RJUMPV) == STOP && LastFrom(MISREAD, 2, PUSH1) == STOP;
  }

  lemma Counts()
    ensures CountFrom(MISREAD, 0, 0) == 5
  {
    Lengths();
    assert CountFrom(MISREAD, 12, 4) == 5 && CountFrom(MISREAD, 11, 3) == 5;
    assert CountFrom(MISREAD, 8, 2) == 5 && CountFrom(MISREAD, 2, 1) == 5;
  }

  /** `next` is where control goes from `c`. */
  ghost predicate GoesTo(code: seq<Byte>, types: Types, c: Config, next: seq<Config>) {
    |types| > 0 && Inside(code, c) && LocalOk(code, types, 0, c) && Next(code, types, 0, c) == next
  }

  lemma PushGoes()
    ensures GoesTo(MISREAD, TYPES, PATH[0], [PATH[1]]) && GoesTo(MISREAD, TYPES, PATH[2], [PATH[3]])
  {
  }

  lemma TableGoes()
    ensures GoesTo(MISREAD, TYPES, PATH[1], [PATH[2], PATH[2], PATH[2]])
  {
    assert Targets(MISREAD, 2, 2, 2, 0) == [] && Targets(MISREAD, 2, 2, 1, 0) == [Config(8, 0)];
    assert Targets(MISREAD, 2, 2, 0, 0) == [Config(8, 0), Config(8, 0)];
  }

  lemma PopGoes()
    ensures GoesTo(MISREAD, TYPES, PATH[3], [PATH[4]])
  {
  }

  lemma StopGoes()
    ensures GoesTo(MISREAD, TYPES, PATH[4], [])
  {
  }

  lemma OneStep(code: seq<Byte>, types: Types, c: Config, next: seq<Config>)
    requires GoesTo(code, types, c, next)
    ensures forall d :: d in next ==> Step(code, types, 0, c, d)
  {
  }

  lemma PathIsPath()
    ensures IsPath(MISREAD, TYPES, 0, PATH)
  {
    PushGoes();
    TableGoes();
    PopGoes();
    OneStep(MISREAD, TYPES, PATH[0], [PATH[1]]);
    OneStep(MISREAD, TYPES, PATH[1], [PATH[2], PATH[2], PATH[2]]);
    OneStep(MISREAD, TYPES, PATH[2], [PATH[3]]);
    OneStep(MISREAD, TYPES, PATH[3], [PATH[4]]);
  }

  lemma PathReached(i: nat)
    requires i < 5
    ensures Reached(MISREAD, TYPES, 0, PATH[i])
  {
    PathIsPath();
    OnPathReached(MISREAD, TYPES, 0, PATH, i);
  }

  lemma PathCovered(i: nat)
    requires i < 5
    ensures Covered(HEIGHTS, [], PATH[i]) && PATH[i].height <= 1
    ensures Visited(HEIGHTS, PATH[i].pos) && HEIGHTS[PATH[i].pos] == PATH[i].height
  {
  }

  lemma ExpandedFrom(code: seq<Byte>, types: Types, hs: seq<int>, max: nat, c: Config, next: seq<Config>)
    requires GoesTo(code, types, c, next) && |hs| == |code| && Visited(hs, c.pos) && hs[c.pos] == c.height
    requires Reached(code, types, 0, c)
    requires forall d :: d in next ==> Covered(hs, [], d) && d.height <= max
    ensures Expanded(code, types, 0, hs, [], max, c.pos)
  {
  }

  /** From the `i`th configuration of the path control goes to the next one only. */
  lemma GoesOn(i: nat) returns (next: seq<Config>)
    requires i < 5
    ensures GoesTo(MISREAD, TYPES, PATH[i], next)
    ensures forall d :: d in next ==> i < 4 && d == PATH[i + 1]
  {
    if i == 0 || i == 2 {
      PushGoes();
      next := [PATH[i + 1]];
    } else if i == 1 {
      TableGoes();
      next := [PATH[2], PATH[2], PATH[2]];
    } else if i == 3 {
      PopGoes();
      next := [PATH[4]];
    } else {
      StopGoes();
      next := [];
    }
  }

  lemma PathExpanded(i: nat)
    requires i < 5
    ensures Visited(HEIGHTS, PATH[i].pos) && Expanded(MISREAD, TYPES, 0, HEIGHTS, [], 1, PATH[i].pos)
  {
    var next := GoesOn(i);
    PathReached(i);
    PathCovered(i);
    if i < 4 {
      PathCovered(i + 1);
    }
    ExpandedFrom(MISREAD, TYPES, HEIGHTS, 1, PATH[i], next);
  }

  lemma VisitedIsPath(p: int) returns (i: nat)
    requires Visited(HEIGHTS, p)
    ensures i < 5 && PATH[i].pos == p
  {
    i := if p == 0 then 0 else if p == 2 then 1 else if p == 8 then 2 else if p == 11 then 3 else 4;
  }

  lemma AllExpanded()
    ensures forall p :: Visited(HEIGHTS, p) ==> Expanded(MISREAD, TYPES, 0, HEIGHTS, [], 1, p)
  {
    forall p | Visited(HEIGHTS, p) ensures Expanded(MISREAD, TYPES, 0, HEIGHTS, [], 1, p) {
      var i := VisitedIsPath(p);
      PathExpanded(i);
    }
  }

  lemma InvFromParts(code: seq<Byte>, types: Types, hs: seq<int>, first: Config, highest: Config)
    requires |types| > 0 && |hs| == |code| && forall p :: 0 <= p < |hs| ==> hs[p] >= -1
    requires forall p :: Visited(hs, p) ==> Expanded(code, types, 0, hs, [], highest.height, p)
    requires first == EofFlow.Entry(types, 0) && Covered(hs, [], first) && first.height <= highest.height
    requires Reached(code, types, 0, highest)
    ensures Inv(code, types, 0, hs, [], highest.height)
  {
  }

  lemma Flow()
    ensures Inv(MISREAD, TYPES, 0, HEIGHTS, [], 1)
  {
    HeightsFit();
    AllExpanded();
    PathReached(1);
    PathCovered(0);
    InvFromParts(MISREAD, TYPES, HEIGHTS, Config(0, 0), Config(2, 1));
  }

  lemma HeightsFit()
    ensures |HEIGHTS| == |MISREAD| && forall p :: 0 <= p < |HEIGHTS| ==> HEIGHTS[p] >= -1
    ensures PATH[0] == Config(0, 0) == EofFlow.Entry(TYPES, 0) && PATH[1] == Config(2, 1)
  {
  }

  lemma FiveVisited()
    ensures |VisitedSet(HEIGHTS)| == 5
  {
    assert VisitedSet(HEIGHTS) == {0, 2, 8, 11, 12};
  }

  lemma Checks()
    ensures ScanOk(MISREAD, |TYPES|) && IsTerminal(LastFrom(MISREAD, 0, STOP))
    ensures CountFrom(MISREAD, 0, 0) == |VisitedSet(HEIGHTS)|
  {
    Scan();
    Ends();
    Counts();
    FiveVisited();
  }

  lemma SectionAccepted()
    ensures SectionValid(MISREAD, TYPES, 0)
  {
    Checks();
    Flow();
    ValidFromInvariant(MISREAD, TYPES, 0, HEIGHTS, 1);
  }

  lemma Whole()
    ensures WellFormed(CONTAINER) && ContainerValid(CONTAINER)
  {
    SectionAccepted();
    Layout(CONTAINER);
    assert Flatten([MISREAD]) == MISREAD + Flatten([]);
  }

  lemma Accepted()
    ensures Unmarshal(MarshalBinary(CONTAINER)) == Ok(CONTAINER) && ContainerValid(CONTAINER)
  {
    Whole();
    UnmarshalMarshal(CONTAINER);
  }

  // ---- The interpreter underflows on it --------------------------------------------------------

  const START: EofMachine.State := EofMachine.Initial()

  const PUSHED: EofMachine.State := START.(stack := [2], pc := 2)

  const JUMPED: EofMachine.State := START.(pc := 11)

  lemma FirstStep(input: EofMachine.Input)
    ensures EofMachine.MachineStep(CONTAINER, START, input) == EofMachine.Running(PUSHED)
  {
    assert EofMachine.ImmediateWord(MISREAD, 1, 0) == 0 && EofMachine.ImmediateWord(MISREAD, 1, 1) == 2;
    assert EofMachine.PushN(MISREAD, PUSH1, START) == EofMachine.Running(PUSHED);
  }

  lemma SecondStep(input: EofMachine.Input)
    ensures EofMachine.MachineStep(CONTAINER, PUSHED, input) == EofMachine.Running(JUMPED)
  {
    assert EofMachine.ReadTarget(MISREAD, 2, 2) == 11;
    assert EofMachine.RJumpV(MISREAD, PUSHED) == EofMachine.Running(JUMPED);
  }

  lemma ThirdStep(input: EofMachine.Input)
    ensures EofMachine.MachineStep(CONTAINER, JUMPED, input) == EofMachine.Faulted(EofMachine.Underflow)
  {
    assert EofMachine.PlainStep(0x50, JUMPED, input) == EofMachine.Faulted(EofMachine.Underflow);
  }

  lemma RunTwice(c: Container, st: EofMachine.State, next: EofMachine.State, r: EofMachine.Outcome,
                 inputs: seq<EofMachine.Input>)
    requires |inputs| >= 2 && !r.Running?
    requires EofMachine.MachineStep(c, st, inputs[0]) == EofMachine.Running(next)
    requires EofMachine.MachineStep(c, next, inputs[1]) == r
    ensures EofMachine.Run(c, st, inputs) == r
  {
    assert EofMachine.Run(c, next, inputs[1..]) == r;
  }

  /** These bytes are accepted, and every run of them underflows in its third step. */
  lemma AcceptedTableUnderflows(inputs: seq<EofMachine.Input>)
    requires |inputs| >= 3
    ensures Unmarshal(MarshalBinary(CONTAINER)) == Ok(CONTAINER) && ContainerValid(CONTAINER)
    ensures EofMachine.Run(CONTAINER, EofMachine.Initial(), inputs) == EofMachine.Faulted(EofMachine.Underflow)
  {
    Accepted();
    FirstStep(inputs[0]);
    SecondStep(inputs[1]);
    ThirdStep(inputs[2]);
    RunTwice(CONTAINER, PUSHED, JUMPED, EofMachine.Faulted(EofMachine.Underflow), inputs[1..]);
    RunOnce(CONTAINER, START, PUSHED, inputs);
  }

  lemma RunOnce(c: Container, st: EofMachine.State, next: EofMachine.State, inputs: seq<EofMachine.Input>)
    requires |inputs| >= 1 && EofMachine.MachineStep(c, st, inputs[0]) == EofMachine.Running(next)
    ensures EofMachine.Run(c, st, inputs) == EofMachine.Run(c, next, inputs[1..])
  {
  }
}
