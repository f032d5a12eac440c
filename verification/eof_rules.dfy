/** What the validator accepts, as rules on the bytes of a section: the immediates are whole, jumps land on
    instructions, the last instruction ends the function, all paths agree, and nothing is unreachable. */
module EofRules {
  import opened Opcodes
  import opened CodeBitmap
  import opened EofContainer
  import opened EofFlow
  import opened EofValidator
  import opened EofSteps

  /** An instruction starts at `to`. */
  predicate Lands(code: seq<Byte>, to: int) {
    0 <= to < |code| && IsStart(code, to)
  }

  /** The rules for the instruction at `p`, with opcodes by number: whole immediates, jumps to instructions,
      tables that are not empty, and calls to sections that are there. */
  predicate RuleAt(code: seq<Byte>, sections: nat, p: nat)
    requires p < |code|
  {
    var op := code[p];
    && (0x60 <= op <= 0x7F ==> p + (op - 0x5F) < |code|)
    && (op == 0x5C || op == 0x5D ==> p + 2 < |code| && Lands(code, p + 3 + OffsetAt(code, p + 1)))
    && (op == 0x5E ==>
        && p + 1 < |code| && code[p + 1] > 0
        && forall j :: 0 <= j < code[p + 1] ==> EntryLands(code, p, j))
    && (op == 0xB0 ==> p + 2 < |code| && code[p + 1] as int * 256 + code[p + 2] as int < sections)
  }

  /** The entry `j` of the table at `p` is whole, and counts from behind the table. */
  predicate EntryLands(code: seq<Byte>, p: nat, j: nat)
    requires p + 1 < |code|
  {
    p + 2 * j + 3 < |code| && Lands(code, p + 2 + 2 * code[p + 1] as int + OffsetAt(code, p + 2 + 2 * j))
  }

  predicate Rules(code: seq<Byte>, sections: nat) {
    forall p :: 0 <= p < |code| && IsStart(code, p) ==> RuleAt(code, sections, p)
  }

  /** The instruction that reaches up to the end is a STOP, RJUMP, RETF, RETURN, REVERT or INVALID. */
  predicate EndsTerminal(code: seq<Byte>) {
    forall p :: 0 <= p < |code| && IsStart(code, p) && p + Length(code, p) >= |code| ==>
      code[p] in {0x00, 0x5C, 0xB1, 0xF3, 0xFD, 0xFE}
  }

  ghost predicate NothingUnreachable(code: seq<Byte>, types: Types, section: nat)
    requires section < |types|
  {
    forall p: nat :: p < |code| && IsStart(code, p) ==> exists h: nat :: Reached(code, types, section, Config(p, h))
  }

  // ---- The scan --------------------------------------------------------------------------------

  lemma DestLands(code: seq<Byte>, imm: nat, from: nat)
    requires HarmlessTables(code)
    ensures DestOk(code, imm, from) <==> imm + 1 < |code| && Lands(code, from + OffsetAt(code, imm))
  {
    OffsetIsRead(code, imm);
    if 0 <= from + OffsetAt(code, imm) < |code| {
      BitmapDecodesLinearly(code, from + OffsetAt(code, imm));
    }
  }

  lemma EntryOkIff(code: seq<Byte>, p: nat, j: nat)
    requires HarmlessTables(code) && p + 1 < |code|
    ensures TableEntryOk(code, p, j) <==> EntryLands(code, p, j)
  {
    DestLands(code, p + 2 + j * 2, p + 2 * code[p + 1] as int + 2);
  }

  lemma TableRuleIff(code: seq<Byte>, sections: nat, p: nat)
    requires HarmlessTables(code) && p < |code| && code[p] == 0x5E
    ensures InstructionOk(code, sections, p) <==> RuleAt(code, sections, p)
  {
    if p + 1 < |code| {
      forall j: nat ensures TableEntryOk(code, p, j) <==> EntryLands(code, p, j) {
        EntryOkIff(code, p, j);
      }
      if code[p + 1] > 0 && EntryLands(code, p, code[p + 1] - 1) {
        assert p + code[p + 1] < |code|;
      }
    }
  }

  lemma RuleIff(code: seq<Byte>, sections: nat, p: nat)
    requires HarmlessTables(code) && p < |code|
    ensures InstructionOk(code, sections, p) <==> RuleAt(code, sections, p)
  {
    if code[p] == 0x5E {
      TableRuleIff(code, sections, p);
    } else if code[p] == 0x5C || code[p] == 0x5D {
      DestLands(code, p + 1, p + 3);
    }
  }

  /** Where the bitmap follows the decoding, the scan accepts exactly the codes that keep the rules. */
  lemma ScanIff(code: seq<Byte>, sections: nat)
    requires HarmlessTables(code)
    ensures ScanOk(code, sections) <==> Rules(code, sections)
  {
    forall p | 0 <= p < |code| ensures InstructionOk(code, sections, p) <==> RuleAt(code, sections, p) {
      RuleIff(code, sections, p);
    }
  }

  lemma {:induction false} LastStart(code: seq<Byte>, i: nat) returns (p: nat)
    requires i < |code| && IsStart(code, i)
    ensures p < |code| && IsStart(code, p) && p + Length(code, p) >= |code|
    decreases |code| - i
  {
    NextStart(code, i);
    if i + Length(code, i) >= |code| {
      p := i;
    } else {
      p := LastStart(code, i + Length(code, i));
    }
  }

  lemma TerminalByNumber(op: Byte)
    ensures IsTerminal(op) <==> op in {0x00, 0x5C, 0xB1, 0xF3, 0xFD, 0xFE}
  {
  }

  /** The last opcode that the scan sees is terminal exactly when the code ends so. */
  lemma EndsIff(code: seq<Byte>)
    requires code != []
    ensures IsTerminal(LastFrom(code, 0, STOP)) <==> EndsTerminal(code)
  {
    TerminalByNumber(LastFrom(code, 0, STOP));
    forall p | 0 <= p < |code| && IsStart(code, p) && p + Length(code, p) >= |code|
      ensures code[p] == LastFrom(code, 0, STOP)
    {
      LastInstruction(code, 0, STOP, p);
    }
    var q := LastStart(code, 0);
    assert code[q] == LastFrom(code, 0, STOP);
  }

  // ---- The flow --------------------------------------------------------------------------------

  /** The heights of paths that agree, position by position. */
  ghost function HeightAt(code: seq<Byte>, types: Types, section: nat, p: nat): (h: int)
    requires section < |types|
    ensures h >= -1
    ensures h >= 0 ==> Reached(code, types, section, Config(p, h))
    ensures h < 0 ==> forall k: nat :: !Reached(code, types, section, Config(p, k))
  {
    if k: nat :| Reached(code, types, section, Config(p, k)) then k else -1
  }

  lemma SafeIsCertified(code: seq<Byte>, types: Types, section: nat) returns (hs: seq<int>)
    requires FlowSafe(code, types, section)
    ensures Certificate(code, types, section, hs)
  {
    hs := seq(|code|, p requires 0 <= p < |code| => HeightAt(code, types, section, p));
    forall c | Reached(code, types, section, c) && Inside(code, c) ensures hs[c.pos] == c.height {
      assert Reached(code, types, section, Config(c.pos, c.height));
      assert Reached(code, types, section, Config(c.pos, hs[c.pos]));
    }
  }

  /** A section without jump tables is accepted exactly when its instructions keep the rules, its last one
      is terminal, its paths agree on heights within bounds, and every instruction is on some path. */
  lemma TableFreeAcceptedIff(code: seq<Byte>, types: Types, section: nat)
    requires JumpTableFree(code) && code != [] && section < |types|
    ensures SectionValid(code, types, section) <==>
            && Rules(code, |types|) && EndsTerminal(code) && FlowSafe(code, types, section)
            && NothingUnreachable(code, types, section)
  {
    ScanIff(code, |types|);
    EndsIff(code);
    if ScanOk(code, |types|) && IsTerminal(LastFrom(code, 0, STOP)) && FlowSafe(code, types, section) {
      var hs := SafeIsCertified(code, types, section);
      CountedIff(code, types, section, hs);
    }
  }

  /** The counter is right exactly when nothing is unreachable. */
  lemma CountedIff(code: seq<Byte>, types: Types, section: nat, hs: seq<int>)
    requires JumpTableFree(code) && code != [] && Certificate(code, types, section, hs)
    requires ScanOk(code, |types|) && IsTerminal(LastFrom(code, 0, STOP))
    ensures ReachedCount(code, types, section, CountFrom(code, 0, 0)) <==> NothingUnreachable(code, types, section)
  {
    CountsStarts(code, 0, 0);
    assert StartSetFrom(code, 0) == StartSet(code);
    VisitedAreStarts(code, types, section, hs);
    SubsetSize(VisitedSet(hs), StartSet(code));
    forall hs' | Certificate(code, types, section, hs') ensures hs' == hs {
      CertificateUnique(code, types, section, hs, hs');
    }
    VisitedIff(code, types, section, hs);
    if NothingUnreachable(code, types, section) {
      assert VisitedSet(hs) == StartSet(code);
    }
  }

  lemma VisitedIff(code: seq<Byte>, types: Types, section: nat, hs: seq<int>)
    requires Certificate(code, types, section, hs)
    ensures NothingUnreachable(code, types, section) <==> StartSet(code) <= VisitedSet(hs)
  {
    forall p: nat | p < |code|
      ensures p in VisitedSet(hs) <==> exists h: nat :: Reached(code, types, section, Config(p, h))
    {
      if Visited(hs, p) {
        var h: int := hs[p];
        assert Reached(code, types, section, Config(p, h));
      }
      if h: nat :| Reached(code, types, section, Config(p, h)) {
        assert Inside(code, Config(p, h));
      }
    }
    if NothingUnreachable(code, types, section) {
      forall p | p in StartSet(code) ensures p in VisitedSet(hs) {
        assert p < |code| && IsStart(code, p);
      }
    }
    if StartSet(code) <= VisitedSet(hs) {
      forall p: nat | p < |code| && IsStart(code, p)
        ensures exists h: nat :: Reached(code, types, section, Config(p, h))
      {
        assert p in StartSet(code);
      }
    }
  }
}
