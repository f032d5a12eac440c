/** The control-flow verifier of EOF code sections, `validate_control_flow`: a worklist
    that records one stack height per position. It is proved to accept a section exactly
    when all execution paths agree on the heights and stay within their bounds, as
    EIP-5450 asks. */
module EofFlow {
  import opened Opcodes
  import opened EofContainer

  datatype FlowError =
    | FunctionMetadataNotFound(section: nat)
    | ConflictingStack(height: nat, want: nat)
    | UnsupportedOpcode(op: Byte)
    | StackUnderflow
    | StackOverflow
    | InvalidOutputs(output: nat, actual: nat, pos: nat)
    | InvalidMaxStackHeight(actual: nat, declared: nat)

  datatype Verdict<+T> = Accepted(value: T) | Rejected(error: FlowError)

  /** A position together with the operand height on reaching it: a worklist item. Negative
      positions stand for the wrapped ones, which lie behind every code. */
  datatype Config = Config(pos: int, height: nat)

  type Types = seq<FunctionMetadata>

  // ---- What one instruction does ----------------------------------------------------------

  predicate Inside(code: seq<Byte>, c: Config) {
    0 <= c.pos < |code|
  }

  /** The operand height once the table's effect has been applied. */
  function After(code: seq<Byte>, c: Config): int
    requires Inside(code, c) && Info(code[c.pos]).Some?
  {
    c.height + STACK_LIMIT - Info(code[c.pos]).value.maxStack
  }

  /** The checks made when a position is visited for the first time. */
  predicate LocalOk(code: seq<Byte>, types: Types, section: nat, c: Config)
    requires Inside(code, c) && section < |types|
  {
    var op := code[c.pos];
    Info(op).Some? && Info(op).value.minStack <= c.height <= Info(op).value.maxStack &&
    var h := After(code, c);
    && (op == CALLF ==>
          var arg := U16At(code, c.pos + 1);
          arg < |types| && types[arg].input <= h && types[arg].output + h <= STACK_LIMIT)
    && (op == RETF ==> types[section].output == h)
  }

  function Targets(code: seq<Byte>, pos: nat, count: nat, i: nat, height: nat): (s: seq<Config>)
    requires i <= count
    ensures |s| == count - i
    decreases count - i
  {
    if i == count then []
    else [Config(pos + 2 + 2 * count + I16At(code, pos + 2 + 2 * i), height)]
         + Targets(code, pos, count, i + 1, height)
  }

  /** Where control goes next, the position the verifier continues with last. */
  function Next(code: seq<Byte>, types: Types, section: nat, c: Config): seq<Config>
    requires Inside(code, c) && section < |types| && LocalOk(code, types, section, c)
  {
    var op, pos, h := code[c.pos], c.pos, After(code, c);
    if op == CALLF then
      var callee := types[U16At(code, pos + 1)];
      [Config(pos + 3, h - callee.input + callee.output)]
    else if op == RETF then []
    else if op == RJUMP then [Config(pos + 3 + I16At(code, pos + 1), h)]
    else if op == RJUMPI then [Config(pos + 3 + I16At(code, pos + 1), h), Config(pos + 3, h)]
    else if op == RJUMPV then
      var count := ByteAt(code, pos + 1);
      Targets(code, pos, count, 0, h) + [Config(pos + 2 + 2 * count, h)]
    else if IsPush(op) then [Config(pos + 1 + (op - PUSH0), h)]
    else if IsTerminal(op) then []
    else [Config(pos + 1, h)]
  }

  // ---- Execution paths -----------------------------------------------------------------------

  function Entry(types: Types, section: nat): Config
    requires section < |types|
  {
    Config(0, types[section].input)
  }

  ghost predicate Step(code: seq<Byte>, types: Types, section: nat, a: Config, b: Config)
    requires section < |types|
  {
    Inside(code, a) && LocalOk(code, types, section, a) && b in Next(code, types, section, a)
  }

  ghost predicate IsPath(code: seq<Byte>, types: Types, section: nat, path: seq<Config>)
    requires section < |types|
  {
    |path| > 0 && path[0] == Entry(types, section) &&
    forall i :: 0 < i < |path| ==> Step(code, types, section, path[i - 1], path[i])
  }

  /** Some execution path ends in `c`. */
  ghost predicate Reached(code: seq<Byte>, types: Types, section: nat, c: Config)
    requires section < |types|
  {
    exists path :: IsPath(code, types, section, path) && path[|path| - 1] == c
  }

  lemma EntryReached(code: seq<Byte>, types: Types, section: nat)
    requires section < |types|
    ensures Reached(code, types, section, Entry(types, section))
  {
    assert IsPath(code, types, section, [Entry(types, section)]);
  }

  lemma StepReached(code: seq<Byte>, types: Types, section: nat, a: Config, b: Config)
    requires section < |types| && Reached(code, types, section, a) && Step(code, types, section, a, b)
    ensures Reached(code, types, section, b)
  {
    var path :| IsPath(code, types, section, path) && path[|path| - 1] == a;
    var longer := path + [b];
    assert IsPath(code, types, section, longer);
    assert longer[|longer| - 1] == b;
  }

  lemma PathFront(code: seq<Byte>, types: Types, section: nat, path: seq<Config>, n: nat)
    requires section < |types| && IsPath(code, types, section, path) && 0 < n == |path| - 1
    ensures IsPath(code, types, section, path[..n]) && path[..n][n - 1] == path[n - 1]
    ensures Step(code, types, section, path[n - 1], path[n])
  {
  }

  /** Whatever lies on a path is reached. */
  lemma OnPathReached(code: seq<Byte>, types: Types, section: nat, path: seq<Config>, i: nat)
    requires section < |types| && IsPath(code, types, section, path) && i < |path|
    ensures Reached(code, types, section, path[i])
  {
    var front := path[..i + 1];
    assert IsPath(code, types, section, front) && front[|front| - 1] == path[i];
  }

  // ---- The property decided ---------------------------------------------------------------------

  ghost predicate AllLocal(code: seq<Byte>, types: Types, section: nat)
    requires section < |types|
  {
    forall c :: Reached(code, types, section, c) && Inside(code, c) ==> LocalOk(code, types, section, c)
  }

  ghost predicate HeightsAgree(code: seq<Byte>, types: Types, section: nat)
    requires section < |types|
  {
    forall a, b ::
      (Reached(code, types, section, a) && Reached(code, types, section, b) && Inside(code, a) && a.pos == b.pos)
      ==> a.height == b.height
  }

  /** `m` is the greatest height on any path. */
  ghost predicate GreatestHeight(code: seq<Byte>, types: Types, section: nat, m: nat)
    requires section < |types|
  {
    && (exists c :: Reached(code, types, section, c) && c.height == m)
    && (forall c :: Reached(code, types, section, c) ==> c.height <= m)
  }

  /** Every path is within bounds, all paths agree on the height at each position, and the
      declared maximum is exactly the greatest height reached. */
  ghost predicate FlowSafe(code: seq<Byte>, types: Types, section: nat) {
    && section < |types|
    && AllLocal(code, types, section)
    && HeightsAgree(code, types, section)
    && GreatestHeight(code, types, section, types[section].maxStackHeight)
  }

  // ---- The verifier's invariant -----------------------------------------------------------------

  /** `d` is behind the code, already recorded, or still to be looked at. */
  ghost predicate Covered(hs: seq<int>, work: seq<Config>, d: Config) {
    !(0 <= d.pos < |hs|) || hs[d.pos] == d.height || d in work
  }

  ghost predicate Visited(hs: seq<int>, p: int) {
    0 <= p < |hs| && hs[p] >= 0
  }

  ghost predicate Expanded(code: seq<Byte>, types: Types, section: nat, hs: seq<int>, work: seq<Config>, max: nat,
                           p: int)
    requires section < |types| && |hs| == |code| && Visited(hs, p)
  {
    var c := Config(p, hs[p]);
    && Reached(code, types, section, c)
    && LocalOk(code, types, section, c)
    && forall d :: d in Next(code, types, section, c) ==> Covered(hs, work, d) && d.height <= max
  }

  ghost predicate Inv(code: seq<Byte>, types: Types, section: nat, hs: seq<int>, work: seq<Config>, max: nat)
  {
    && section < |types| && |hs| == |code|
    && (forall p :: 0 <= p < |hs| ==> hs[p] >= -1)
    && (forall p :: Visited(hs, p) ==> Expanded(code, types, section, hs, work, max, p))
    && (forall c :: c in work ==> Reached(code, types, section, c) && c.height <= max)
    && Covered(hs, work, Entry(types, section)) && types[section].input <= max
    && (exists c :: Reached(code, types, section, c) && c.height == max)
  }

  lemma InvInitially(code: seq<Byte>, types: Types, section: nat, hs: seq<int>)
    requires section < |types| && |hs| == |code| && forall p :: 0 <= p < |hs| ==> hs[p] == -1
    ensures Inv(code, types, section, hs, [Entry(types, section)], types[section].input)
  {
    EntryReached(code, types, section);
  }

  /** An item that lies behind the code or is recorded with its height needs no more work. */
  lemma InvDrop(code: seq<Byte>, types: Types, section: nat, hs: seq<int>, work: seq<Config>, c: Config, max: nat)
    requires Inv(code, types, section, hs, work + [c], max)
    requires !Inside(code, c) || hs[c.pos] == c.height
    ensures Inv(code, types, section, hs, work, max)
  {
    forall p | Visited(hs, p)
      ensures Expanded(code, types, section, hs, work, max, p)
    {
      assert Expanded(code, types, section, hs, work + [c], max, p);
    }
    forall d | d in work ensures d in work + [c] {}
  }

  /** Recording an unvisited item replaces it by its successors. */
  lemma InvExpand(code: seq<Byte>, types: Types, section: nat, hs: seq<int>, work: seq<Config>, c: Config,
                  max: nat, max': nat)
    requires Inv(code, types, section, hs, work + [c], max)
    requires Inside(code, c) && hs[c.pos] == -1 && LocalOk(code, types, section, c)
    requires max' >= max
    requires forall d :: d in Next(code, types, section, c) ==> d.height <= max'
    requires max' == max || exists d :: d in Next(code, types, section, c) && d.height == max'
    ensures Inv(code, types, section, hs[c.pos := c.height], work + Next(code, types, section, c), max')
  {
    var next := Next(code, types, section, c);
    var hs', work' := hs[c.pos := c.height], work + next;
    assert c in work + [c];
    forall d | d in next ensures Reached(code, types, section, d) {
      StepReached(code, types, section, c, d);
    }
    forall p | Visited(hs', p)
      ensures Expanded(code, types, section, hs', work', max', p)
    {
      if p != c.pos {
        assert Visited(hs, p);
        assert Expanded(code, types, section, hs, work + [c], max, p);
        CoveredGrows(hs, work, c, next);
      } else {
        assert Config(p, hs'[p]) == c;
      }
    }
    CoveredGrows(hs, work, c, next);
    forall d | d in work' ensures Reached(code, types, section, d) && d.height <= max' {
      if d in work {
        assert d in work + [c];
      }
    }
  }

  lemma CoveredGrows(hs: seq<int>, work: seq<Config>, c: Config, next: seq<Config>)
    requires 0 <= c.pos < |hs| && hs[c.pos] == -1
    ensures forall d :: Covered(hs, work + [c], d) ==> Covered(hs[c.pos := c.height], work + next, d)
  {
  }

  /** With nothing left to do, the recorded heights describe every path. */
  lemma {:induction false} PathRecorded(code: seq<Byte>, types: Types, section: nat, hs: seq<int>, max: nat,
                                        path: seq<Config>)
    requires Inv(code, types, section, hs, [], max) && IsPath(code, types, section, path)
    ensures
      var c := path[|path| - 1];
      c.height <= max && (Inside(code, c) ==> hs[c.pos] == c.height)
  {
    var n := |path| - 1;
    if n > 0 {
      PathFront(code, types, section, path, n);
      PathRecorded(code, types, section, hs, max, path[..n]);
      StepRecorded(code, types, section, hs, max, path[n - 1], path[n]);
    }
  }

  lemma StepRecorded(code: seq<Byte>, types: Types, section: nat, hs: seq<int>, max: nat, a: Config, b: Config)
    requires Inv(code, types, section, hs, [], max) && Step(code, types, section, a, b)
    requires hs[a.pos] == a.height
    ensures b.height <= max && (Inside(code, b) ==> hs[b.pos] == b.height)
  {
    assert Visited(hs, a.pos) && Config(a.pos, hs[a.pos]) == a;
    assert Expanded(code, types, section, hs, [], max, a.pos);
    assert Covered(hs, [], b);
  }

  /** `hs` holds, for each position, the height of every path to it, or -1 if there is none. */
  ghost predicate Certificate(code: seq<Byte>, types: Types, section: nat, hs: seq<int>)
  {
    && section < |types| && |hs| == |code|
    && (forall p :: 0 <= p < |hs| ==> hs[p] >= -1)
    && (forall p :: Visited(hs, p) ==> Reached(code, types, section, Config(p, hs[p])))
    && (forall c :: Reached(code, types, section, c) && Inside(code, c) ==>
          hs[c.pos] == c.height && LocalOk(code, types, section, c))
  }

  lemma DoneIsCertificate(code: seq<Byte>, types: Types, section: nat, hs: seq<int>, max: nat)
    requires Inv(code, types, section, hs, [], max)
    ensures Certificate(code, types, section, hs)
    ensures GreatestHeight(code, types, section, max)
    ensures AllLocal(code, types, section) && HeightsAgree(code, types, section)
  {
    forall c | Reached(code, types, section, c)
      ensures c.height <= max
      ensures Inside(code, c) ==> hs[c.pos] == c.height && LocalOk(code, types, section, c)
    {
      var path :| IsPath(code, types, section, path) && path[|path| - 1] == c;
      PathRecorded(code, types, section, hs, max, path);
      if Inside(code, c) {
        assert Visited(hs, c.pos) && Config(c.pos, hs[c.pos]) == c;
      }
    }
  }

  // ---- The verifier ---------------------------------------------------------------------------------

  ghost function VisitedSet(hs: seq<int>): set<nat> {
    set p: nat | p < |hs| && hs[p] >= 0
  }

  lemma VisitedCount(hs: seq<int>)
    ensures |VisitedSet(hs)| <= |hs|
  {
    SubsetSize(VisitedSet(hs), Below(|hs|));
  }

  lemma NoneVisited(hs: seq<int>)
    requires forall p :: 0 <= p < |hs| ==> hs[p] == -1
    ensures VisitedSet(hs) == {}
  {
  }

  ghost function Below(n: nat): (s: set<nat>)
    ensures |s| == n
    ensures forall p: nat :: p in s <==> p < n
  {
    if n == 0 then {} else Below(n - 1) + {n - 1}
  }

  lemma {:induction false} SubsetSize<T>(a: set<T>, b: set<T>)
    requires a <= b
    ensures |a| <= |b|
    ensures |a| == |b| ==> a == b
    decreases a
  {
    if a != {} {
      var x :| x in a;
      SubsetSize(a - {x}, b - {x});
      assert a == (a - {x}) + {x} && b == (b - {x}) + {x};
    }
  }

  /** The checks and the `match` on one unvisited instruction: pushes what is to be looked at
      later and returns the configuration to continue with, if any. */
  method Process(code: seq<Byte>, types: Types, section: nat, c: Config, worklist: seq<Config>)
      returns (r: Verdict<Option<Config>>, rest: seq<Config>)
    requires Inside(code, c) && section < |types|
    ensures r.Accepted? <==> LocalOk(code, types, section, c)
    ensures r.Accepted? ==>
      var next := Next(code, types, section, c);
      if next == [] then r.value == None && rest == worklist
      else r.value == Some(next[|next| - 1]) && rest == worklist + next[..|next| - 1]
  {
    rest := worklist;
    var op, pos := code[c.pos], c.pos;
    if Info(op).None? {
      return Rejected(UnsupportedOpcode(op)), rest;
    }
    var info := Info(op).value;
    if info.minStack > c.height {
      return Rejected(StackUnderflow), rest;
    }
    if info.maxStack < c.height {
      return Rejected(StackOverflow), rest;
    }
    var height := c.height + STACK_LIMIT - info.maxStack;
    if op == CALLF {
      var arg := U16At(code, pos + 1);
      if arg >= |types| {
        return Rejected(FunctionMetadataNotFound(arg)), rest;
      }
      if types[arg].input > height {
        return Rejected(StackUnderflow), rest;
      }
      if types[arg].output + height > STACK_LIMIT {
        return Rejected(StackOverflow), rest;
      }
    } else if op == RETF {
      if types[section].output != height {
        return Rejected(InvalidOutputs(types[section].output, height, pos)), rest;
      }
    }
    var next;
    next, rest := Successors(code, types, section, c, height, worklist);
    r := Accepted(next);
  }

  /** The position the verifier continues with; the other successors go to the worklist. */
  method Successors(code: seq<Byte>, types: Types, section: nat, c: Config, height: nat, worklist: seq<Config>)
      returns (r: Option<Config>, rest: seq<Config>)
    requires Inside(code, c) && section < |types| && LocalOk(code, types, section, c) && height == After(code, c)
    ensures
      var next := Next(code, types, section, c);
      if next == [] then r == None && rest == worklist
      else r == Some(next[|next| - 1]) && rest == worklist + next[..|next| - 1]
  {
    var op, pos := code[c.pos], c.pos;
    rest := worklist;
    if op == CALLF {
      var arg := U16At(code, pos + 1);
      r := Some(Config(pos + 3, height - types[arg].input + types[arg].output));
    } else if op == RETF {
      r := None;
    } else if op == RJUMP {
      r := Some(Config(pos + 3 + I16At(code, pos + 1), height));
    } else if op == RJUMPI {
      rest := rest + [Config(pos + 3 + I16At(code, pos + 1), height)];
      r := Some(Config(pos + 3, height));
    } else if op == RJUMPV {
      rest := PushTargets(code, pos, height, rest);
      r := Some(Config(pos + 2 + 2 * ByteAt(code, pos + 1), height));
    } else if IsPush(op) {
      r := Some(Config(pos + 1 + (op - PUSH0), height));
    } else if IsTerminal(op) {
      r := None;
    } else {
      r := Some(Config(pos + 1, height));
    }
  }

  method PushTargets(code: seq<Byte>, pos: nat, height: nat, worklist: seq<Config>) returns (rest: seq<Config>)
    ensures rest == worklist + Targets(code, pos, ByteAt(code, pos + 1), 0, height)
  {
    var count: nat := ByteAt(code, pos + 1);
    rest := worklist;
    for i := 0 to count
      invariant rest + Targets(code, pos, count, i, height) == worklist + Targets(code, pos, count, 0, height)
    {
      var target := Config(pos + 2 + 2 * count + I16At(code, pos + 2 + 2 * i), height);
      assert rest + Targets(code, pos, count, i, height)
          == rest + [target] + Targets(code, pos, count, i + 1, height);
      rest := rest + [target];
    }
    assert rest + [] == rest;
  }

  lemma SameHeights(code: seq<Byte>, types: Types, section: nat, c: Config)
    requires Inside(code, c) && section < |types| && LocalOk(code, types, section, c)
    ensures
      var next := Next(code, types, section, c);
      forall d :: d in next ==> d.height == next[|next| - 1].height
  {
    if code[c.pos] == RJUMPV {
      TableHeights(code, c.pos, ByteAt(code, c.pos + 1), After(code, c));
    }
  }

  lemma TableHeights(code: seq<Byte>, pos: nat, count: nat, height: nat)
    ensures forall d :: d in Targets(code, pos, count, 0, height) + [Config(pos + 2 + 2 * count, height)] ==>
      d.height == height
  {
    TargetHeights(code, pos, count, 0, height);
  }

  lemma {:induction false} TargetHeights(code: seq<Byte>, pos: nat, count: nat, i: nat, height: nat)
    requires i <= count
    ensures forall d :: d in Targets(code, pos, count, i, height) ==> d.height == height
    decreases count - i
  {
    if i < count {
      TargetHeights(code, pos, count, i + 1, height);
    }
  }

  /** The inner loop: follow one path until it ends or meets what is recorded. Each turn
      records a new position, so either nothing was recorded and the worklist is as before,
      or fewer positions are left. */
  method Follow(code: seq<Byte>, types: Types, section: nat, heights: array<int>, start: Config,
                worklist: seq<Config>, max: nat, updates: nat)
      returns (r: Verdict<()>, rest: seq<Config>, max': nat, updates': nat)
    requires heights.Length == |code|
    requires Inv(code, types, section, heights[..], worklist + [start], max)
    requires updates == |VisitedSet(heights[..])|
    modifies heights
    ensures r.Rejected? ==> !(AllLocal(code, types, section) && HeightsAgree(code, types, section))
    ensures r.Accepted? ==>
      && Inv(code, types, section, heights[..], rest, max')
      && updates' == |VisitedSet(heights[..])|
      && (updates' > updates || (updates' == updates && rest == worklist))
  {
    var current := start;
    rest, max', updates' := worklist, max, updates;
    while Inside(code, current)
      invariant Inv(code, types, section, heights[..], rest + [current], max')
      invariant updates' == |VisitedSet(heights[..])|
      invariant updates' > updates || (updates' == updates && rest == worklist)
      decreases |code| - updates'
    {
      var want := heights[current.pos];
      if want != -1 {
        if want != current.height {
          Conflict(code, types, section, heights[..], rest, current, max');
          return Rejected(ConflictingStack(current.height, want)), rest, max', updates';
        }
        break;
      }
      assert current in rest + [current];
      var step, more := Process(code, types, section, current, rest);
      if step.Rejected? {
        return Rejected(step.error), rest, max', updates';
      }
      var higher := if step.value.Some? && step.value.value.height > max' then step.value.value.height else max';
      Recorded(code, types, section, heights[..], rest, current, max', higher);
      heights[current.pos] := current.height;
      updates' := updates' + 1;
      rest, max' := more, higher;
      if step.value.None? {
        assert rest + [] == rest;
        return Accepted(()), rest, max', updates';
      }
      current := step.value.value;
    }
    InvDrop(code, types, section, heights[..], rest, current, max');
    r := Accepted(());
  }

  /** What recording the height of one more position does to the invariant and the count. */
  lemma Recorded(code: seq<Byte>, types: Types, section: nat, hs: seq<int>, work: seq<Config>, c: Config,
                 max: nat, max': nat)
    requires Inv(code, types, section, hs, work + [c], max)
    requires Inside(code, c) && hs[c.pos] == -1 && LocalOk(code, types, section, c)
    requires
      var next := Next(code, types, section, c);
      max' == if next != [] && next[|next| - 1].height > max then next[|next| - 1].height else max
    ensures
      var hs', next := hs[c.pos := c.height], Next(code, types, section, c);
      && Inv(code, types, section, hs', work + next, max')
      && (next != [] ==> work + next == work + next[..|next| - 1] + [next[|next| - 1]])
      && |VisitedSet(hs')| == |VisitedSet(hs)| + 1 <= |code|
  {
    var next, hs' := Next(code, types, section, c), hs[c.pos := c.height];
    SameHeights(code, types, section, c);
    InvExpand(code, types, section, hs, work, c, max, max');
    OneMoreVisited(hs, c.pos, c.height);
    if next != [] {
      SplitLast(work, next);
    }
  }

  lemma OneMoreVisited(hs: seq<int>, p: nat, height: nat)
    requires p < |hs| && hs[p] == -1
    ensures |VisitedSet(hs[p := height])| == |VisitedSet(hs)| + 1 <= |hs|
  {
    assert VisitedSet(hs[p := height]) == VisitedSet(hs) + {p};
    VisitedCount(hs[p := height]);
  }

  lemma SplitLast<T>(work: seq<T>, next: seq<T>)
    requires next != []
    ensures work + next == work + next[..|next| - 1] + [next[|next| - 1]]
  {
  }

  /** `validate_control_flow`: accepts exactly the safe sections and returns the number of
      positions reached. It terminates because unrecorded positions, then worklist items,
      run out. */
  method ValidateControlFlow(code: seq<Byte>, section: nat, types: Types)
      returns (r: Verdict<nat>, ghost hs: seq<int>)
    ensures r.Accepted? <==> FlowSafe(code, types, section)
    ensures r.Accepted? ==> Certificate(code, types, section, hs) && r.value == |VisitedSet(hs)|
  {
    hs := [];
    if section >= |types| {
      return Rejected(FunctionMetadataNotFound(section)), hs;
    }
    var heights := new int[|code|](_ => -1);
    var updates: nat := 0;
    var worklist := [Config(0, types[section].input)];
    var max: nat := types[section].input;
    InvInitially(code, types, section, heights[..]);
    NoneVisited(heights[..]);
    while worklist != []
      invariant Inv(code, types, section, heights[..], worklist, max)
      invariant updates == |VisitedSet(heights[..])| <= |code|
      decreases |code| - updates, |worklist|
    {
      var item := worklist[|worklist| - 1];
      assert worklist == worklist[..|worklist| - 1] + [item];
      var step;
      step, worklist, max, updates :=
        Follow(code, types, section, heights, item, worklist[..|worklist| - 1], max, updates);
      if step.Rejected? {
        return Rejected(step.error), hs;
      }
      VisitedCount(heights[..]);
    }
    hs := heights[..];
    DoneIsCertificate(code, types, section, hs, max);
    if max != types[section].maxStackHeight {
      return Rejected(InvalidMaxStackHeight(max, types[section].maxStackHeight)), hs;
    }
    r := Accepted(updates);
  }

  lemma Conflict(code: seq<Byte>, types: Types, section: nat, hs: seq<int>, work: seq<Config>, c: Config, max: nat)
    requires Inv(code, types, section, hs, work + [c], max)
    requires Inside(code, c) && hs[c.pos] != -1 && hs[c.pos] != c.height
    ensures !HeightsAgree(code, types, section)
  {
    assert Visited(hs, c.pos) && c in work + [c];
    var other := Config(c.pos, hs[c.pos]);
    assert Expanded(code, types, section, hs, work + [c], max, c.pos);
    assert Reached(code, types, section, other) && Reached(code, types, section, c);
  }
}
