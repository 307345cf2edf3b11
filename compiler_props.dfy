/** Properties of the compile pass: what one pass of its loop emits, and the
    invariants that make the emitted code well linked. */
module CompilerProperties {
  import opened Brainfuck
  import opened Mips
  import opened Compiler

  // ---------------------------------------------------------------------
  // One pass of the loop

  /** Run-length collapsing: a maximal run of n copies of `<`, `>`, `+` or `-`
      emits exactly one group carrying n, and the cursor ends just past the run. */
  lemma CollapsedRun(program: string, s: CState, c: char, n: nat)
    requires s.pc <= |program| && IsRunOp(c) && RunAt(program, s.pc, c, n)
    ensures CStep(program, s) == Go(s.(pc := s.pc + n, code := s.code + RunGroup(c, n)))
  {
    RunLengthUnique(program, s.pc + 1, c, n - 1);
    assert At(program, s.pc) == c;
    assert EmitRun(program, s, c) == s.(pc := s.pc + n, code := s.code + RunGroup(c, n));
  }

  /** The nesting check comes first: a `[` with MAX_NESTING loops open is
      rejected even when it starts `[-]`, which would not open a loop. */
  lemma NestingCheckedFirst(program: string, s: CState)
    requires s.pc <= |program| && At(program, s.pc) == '[' && |s.loops| == MAX_NESTING
    ensures CStep(program, s) == Reject(BadProgram(Cursor(s.pc + 1), NestingTooDeep))
  {
  }

  /** The `[-]` peephole fires exactly when the two characters after `[` are
      `-` and `]`: it emits one zero store, skips all three characters, and
      takes neither a label nor a loop-stack slot. */
  lemma Peephole(program: string, s: CState)
    requires s.pc <= |program| && At(program, s.pc) == '[' && |s.loops| < MAX_NESTING
    ensures CStep(program, s) == Go(s.(pc := s.pc + 3, code := s.code + ClearGroup()))
        <==> At(program, s.pc + 1) == '-' && At(program, s.pc + 2) == ']'
  {
  }

  /** An ordinary `[` takes the labels nextpc and nextpc + 1, pushes nextpc,
      advances nextpc by two, and doubles the table exactly when it was full;
      both labels then lie within the table. */
  lemma AllocatesLabelPair(program: string, s: CState)
    requires s.pc <= |program| && At(program, s.pc) == '[' && |s.loops| < MAX_NESTING
    requires !(At(program, s.pc + 1) == '-' && At(program, s.pc + 2) == ']')
    requires s.nextpc % 2 == 0 && s.npc % 2 == 0 && s.nextpc <= s.npc && s.npc > 0
    ensures CStep(program, s).Go?
    ensures var t := CStep(program, s).next;
      && t.pc == s.pc + 1 && t.loops == s.loops + [s.nextpc] && t.nextpc == s.nextpc + 2
      && t.npc == (if s.nextpc == s.npc then 2 * s.npc else s.npc)
      && t.code == s.code + OpenGroup(s.nextpc)
      && s.nextpc + 1 < t.npc && t.nextpc <= t.npc
  {
  }

  /** `]` pops the innermost loop's label L and emits `bnez` to L followed by the
      definition of L + 1. */
  lemma ClosesInnermost(program: string, s: CState)
    requires s.pc <= |program| && At(program, s.pc) == ']' && |s.loops| > 0
    ensures CStep(program, s) == Go(s.(pc := s.pc + 1, loops := s.loops[..|s.loops| - 1],
                                      code := s.code + CloseGroup(s.loops[|s.loops| - 1])))
  {
  }

  /** The three compile-time rejections, and nothing else rejects; the pass
      finishes exactly at the terminator with no loop open. */
  lemma RejectsExactly(program: string, s: CState)
    requires s.pc <= |program|
    ensures CStep(program, s).Reject? <==>
      || (At(program, s.pc) == '[' && |s.loops| == MAX_NESTING)
      || (At(program, s.pc) == ']' && |s.loops| == 0)
      || (At(program, s.pc) == '\0' && |s.loops| != 0)
    ensures At(program, s.pc) == '[' && |s.loops| == MAX_NESTING ==>
      CStep(program, s) == Reject(BadProgram(Cursor(s.pc + 1), NestingTooDeep))
    ensures At(program, s.pc) == ']' && |s.loops| == 0 ==>
      CStep(program, s) == Reject(BadProgram(Cursor(s.pc + 1), UnmatchedClose))
    ensures At(program, s.pc) == '\0' && |s.loops| != 0 ==>
      CStep(program, s) == Reject(BadProgram(EndOfText, UnmatchedOpen))
    ensures CStep(program, s).Done? <==> At(program, s.pc) == '\0' && |s.loops| == 0
    ensures CStep(program, s).Done? ==> CStep(program, s).final == s.(code := s.code + Footer())
  {
  }

  // ---------------------------------------------------------------------
  // The label table's capacity

  /** The capacities `npc` takes: 8, 16, 32, ... */
  predicate IsCapacity(npc: nat)
    decreases npc
  {
    npc == INITIAL_LABELS || (npc > INITIAL_LABELS && npc % 2 == 0 && IsCapacity(npc / 2))
  }

  /** Of two different capacities, the larger is at least twice the smaller. */
  lemma {:induction false} CapacitiesDouble(a: nat, b: nat)
    requires IsCapacity(a) && IsCapacity(b) && a < b
    ensures 2 * a <= b
    decreases b
  {
    if a != INITIAL_LABELS {
      CapacitiesDouble(a / 2, b / 2);
    }
  }

  /** A capacity that holds n labels, and that is the first or less than twice
      n, is the least capacity that holds them. */
  lemma LeastCapacity(c: nat, n: nat, other: nat)
    requires IsCapacity(c) && n <= c && (c == INITIAL_LABELS || c < 2 * n)
    requires IsCapacity(other) && n <= other
    ensures c <= other
  {
    if other < c {
      CapacitiesDouble(other, c);
    }
  }

  // ---------------------------------------------------------------------
  // Invariants of the compile pass

  /** How many times `=>k:` has been defined in state s: each allocated even
      label once when its `[` was compiled, each odd label once its loop has
      been closed, and no label from nextpc on. */
  function Defined(s: CState, k: nat): nat {
    if k >= s.nextpc then 0
    else if k % 2 == 0 then 1
    else if k - 1 in s.loops then 0
    else 1
  }

  /** A pc-label branch at i targets a label below `bound`. */
  predicate TargetBelowAt(code: seq<Instr>, i: nat, bound: nat)
    requires i < |code|
  {
    match code[i]
    case Beqz(_, t) => t.Pc? && t.id < bound
    case Bnez(_, t) => t.Pc? && t.id < bound
    case _ => true
  }

  /** Every pc-label branch targets a label below `bound`. */
  predicate TargetsBelow(code: seq<Instr>, bound: nat) {
    forall i :: 0 <= i < |code| ==> TargetBelowAt(code, i, bound)
  }

  /** The branch at i, if any, is linked: `beqz` to L + 1 is followed (after
      its delay slot) by the definition of L, `bnez` to L by the definition of
      L + 1, and a local branch `>1` by its fix-up and `1:`. */
  predicate LinkedAt(code: seq<Instr>, i: nat)
    requires i < |code|
  {
    match code[i]
    case Beqz(_, t) => t.Pc? && t.id % 2 == 1 && i + 2 < |code| && code[i + 2] == PcLabel(t.id - 1)
    case Bnez(_, t) => t.Pc? && t.id % 2 == 0 && i + 2 < |code| && code[i + 2] == PcLabel(t.id + 1)
    case Bgtz(_, t) => t == Forward1 && i + 3 < |code| && code[i + 3] == Local1
    case Blez(_, t) => t == Forward1 && i + 3 < |code| && code[i + 3] == Local1
    case _ => true
  }

  /** Every branch is linked. */
  predicate Linked(code: seq<Instr>) {
    forall i :: 0 <= i < |code| ==> LinkedAt(code, i)
  }

  /** If i defines an exit label L + 1 and j defines its entry label L, then j
      comes first. */
  predicate ExitAfterEntryAt(code: seq<Instr>, i: nat, j: nat)
    requires i < |code| && j < |code|
  {
    match code[i]
    case PcLabel(k) => k % 2 == 1 && code[j] == PcLabel(k - 1) ==> j < i
    case _ => true
  }

  /** Every loop's exit label is defined after its entry label. */
  predicate ExitAfterEntry(code: seq<Instr>) {
    forall i, j :: 0 <= i < |code| && 0 <= j < |code| ==> ExitAfterEntryAt(code, i, j)
  }

  /** The instruction at i neither defines nor targets a pc label. */
  predicate NoPcLabelAt(g: seq<Instr>, i: nat)
    requires i < |g|
  {
    match g[i]
    case PcLabel(_) => false
    case Beqz(_, _) => false
    case Bnez(_, _) => false
    case _ => true
  }

  /** A group with no pc label and no pc-label branch, internally linked and
      with the delay slot of each branch filled. */
  predicate Plain(g: seq<Instr>) {
    && (forall i :: 0 <= i < |g| ==> NoPcLabelAt(g, i))
    && BranchSlotsFilled(g) && Linked(g)
  }

  /** The label counters: nextpc even and within the table, whose capacity is
      the least one that holds nextpc labels. */
  predicate LabelsOk(s: CState) {
    && s.nextpc % 2 == 0 && s.nextpc <= s.npc && IsCapacity(s.npc)
    && (s.npc == INITIAL_LABELS || s.npc < 2 * s.nextpc)
  }

  /** The loop stack: at most MAX_NESTING entry labels, allocated, in the
      order they were allocated. */
  predicate LoopsOk(s: CState) {
    && |s.loops| <= MAX_NESTING
    && (forall i :: 0 <= i < |s.loops| ==> s.loops[i] % 2 == 0 && s.loops[i] < s.nextpc)
    && (forall i, j :: 0 <= i < j < |s.loops| ==> s.loops[i] < s.loops[j])
  }

  /** Each pc label is defined as often as Defined says. */
  ghost predicate CountsOk(s: CState) {
    forall k: nat :: multiset(s.code)[PcLabel(k)] == Defined(s, k)
  }

  /** The code so far: the header first, branches linked and below `bound`,
      branch delay slots filled, exit labels after entry labels. */
  predicate CodeOk(code: seq<Instr>, bound: nat) {
    && TargetsBelow(code, bound) && BranchSlotsFilled(code) && Linked(code) && ExitAfterEntry(code)
    && |code| >= |Header()| && code[..|Header()|] == Header()
  }

  /** What holds after every pass of the compile loop. */
  ghost predicate Inv(s: CState) {
    LabelsOk(s) && LoopsOk(s) && CountsOk(s) && CodeOk(s.code, s.nextpc)
  }

  /** Appending preserves branch delay slots, linking and branch targets when each
      part has them. */
  lemma AppendLinked(a: seq<Instr>, b: seq<Instr>, bound: nat)
    requires BranchSlotsFilled(a) && Linked(a) && TargetsBelow(a, bound)
    requires BranchSlotsFilled(b) && Linked(b) && TargetsBelow(b, bound)
    ensures BranchSlotsFilled(a + b) && Linked(a + b) && TargetsBelow(a + b, bound)
  {
    var c := a + b;
    forall i | 0 <= i < |c|
      ensures BranchSlotFilledAt(c, i) && LinkedAt(c, i) && TargetBelowAt(c, i, bound)
    {
      if i < |a| {
        assert BranchSlotFilledAt(a, i) && LinkedAt(a, i) && TargetBelowAt(a, i, bound);
        assert c[i] == a[i];
        if i + 1 < |a| { assert c[i + 1] == a[i + 1]; }
        if i + 2 < |a| { assert c[i + 2] == a[i + 2]; }
        if i + 3 < |a| { assert c[i + 3] == a[i + 3]; }
      } else {
        var k := i - |a|;
        assert BranchSlotFilledAt(b, k) && LinkedAt(b, k) && TargetBelowAt(b, k, bound);
        assert c[i] == b[k];
        if k + 1 < |b| { assert c[i + 1] == b[k + 1]; }
        if k + 2 < |b| { assert c[i + 2] == b[k + 2]; }
        if k + 3 < |b| { assert c[i + 3] == b[k + 3]; }
      }
    }
  }

  /** The `<` group is plain. */
  lemma LeftPlain(n: nat)
    ensures Plain(LeftGroup(n))
  {
  }

  /** The `>` group is plain. */
  lemma RightPlain(n: nat)
    ensures Plain(RightGroup(n))
  {
  }

  /** The cell groups, the I/O groups, the zero store, the epilogue and the
      empty sequence are plain. */
  lemma ShortPlain(delta: int)
    ensures Plain(AddGroup(delta)) && Plain(ClearGroup()) && Plain(Footer()) && Plain([])
  {
  }

  /** The two call groups are plain: they hold no branch and no pc label (the
      delay slot of their `jalr` is the subject of ReadStoresStale). */
  lemma CallPlain()
    ensures Plain(ReadGroup()) && Plain(WriteGroup())
  {
  }

  /** The loop groups are linked and fill their delay slots. */
  lemma LoopGroupsLinked(l: nat, bound: nat)
    requires l % 2 == 0 && l + 1 < bound
    ensures BranchSlotsFilled(OpenGroup(l)) && Linked(OpenGroup(l)) && TargetsBelow(OpenGroup(l), bound)
    ensures BranchSlotsFilled(CloseGroup(l)) && Linked(CloseGroup(l)) && TargetsBelow(CloseGroup(l), bound)
  {
  }

  /** A pc-label definition occurs in a loop group only where the group says. */
  lemma GroupCounts(l: nat, k: nat)
    ensures multiset(OpenGroup(l))[PcLabel(k)] == if k == l then 1 else 0
    ensures multiset(CloseGroup(l))[PcLabel(k)] == if k == l + 1 then 1 else 0
  {
    assert multiset(OpenGroup(l)) == multiset{Lb(ATmp, 0, APtr), Beqz(ATmp, Pc(l + 1)), Nop, PcLabel(l)};
    assert multiset(CloseGroup(l)) == multiset{Lb(ATmp, 0, APtr), Bnez(ATmp, Pc(l)), Nop, PcLabel(l + 1)};
  }

  /** A plain group holds no pc-label definition and targets none. */
  lemma PlainCount(g: seq<Instr>, bound: nat)
    requires Plain(g)
    ensures forall k: nat :: multiset(g)[PcLabel(k)] == 0
    ensures TargetsBelow(g, bound)
  {
    forall i | 0 <= i < |g| ensures !g[i].PcLabel? && TargetBelowAt(g, i, bound) {
      assert NoPcLabelAt(g, i);
    }
  }

  /** The header holds no pc label, no branch and no delay slot. */
  lemma HeaderPlain()
    ensures Plain(Header())
  {
  }

  /** The header starts the code well formed. */
  lemma StartInv()
    ensures Inv(Start())
  {
    var s := Start();
    HeaderPlain();
    PlainCount(Header(), 0);
    forall i, j | 0 <= i < |s.code| && 0 <= j < |s.code| ensures ExitAfterEntryAt(s.code, i, j) {
      assert NoPcLabelAt(s.code, i);
    }
    assert IsCapacity(s.npc);
    assert LabelsOk(s) && LoopsOk(s);
    assert CodeOk(s.code, s.nextpc);
  }

  /** Appending a plain group keeps the code well formed. */
  lemma PlainCode(code: seq<Instr>, g: seq<Instr>, bound: nat)
    requires CodeOk(code, bound) && Plain(g)
    ensures CodeOk(code + g, bound)
  {
    var c := code + g;
    PlainCount(g, bound);
    AppendLinked(code, g, bound);
    forall i, j | 0 <= i < |c| && 0 <= j < |c| ensures ExitAfterEntryAt(c, i, j) {
      if i >= |code| {
        assert NoPcLabelAt(g, i - |code|);
      } else if j >= |code| {
        assert NoPcLabelAt(g, j - |code|);
      } else {
        assert ExitAfterEntryAt(code, i, j);
      }
    }
    assert c[..|Header()|] == code[..|Header()|];
  }

  /** Appending a plain group (and moving the cursor) keeps the invariant. */
  lemma AppendPlainKeeps(s: CState, g: seq<Instr>, pc: nat)
    requires Inv(s) && Plain(g)
    ensures Inv(s.(pc := pc, code := s.code + g))
  {
    var t := s.(pc := pc, code := s.code + g);
    PlainCount(g, s.nextpc);
    PlainCode(s.code, g, s.nextpc);
    assert LoopsOk(t) && LabelsOk(t);
  }

  /** Label counters after opening a loop. */
  lemma OpenLabels(s: CState)
    requires LabelsOk(s)
    ensures var npc := if s.nextpc == s.npc then 2 * s.npc else s.npc;
      LabelsOk(s.(nextpc := s.nextpc + 2, npc := npc)) && s.nextpc + 1 < npc
  {
    if s.nextpc == s.npc {
      assert (2 * s.npc) / 2 == s.npc;
    }
  }

  /** The loop stack after opening a loop. */
  lemma OpenLoops(s: CState)
    requires LoopsOk(s) && |s.loops| < MAX_NESTING && s.nextpc % 2 == 0
    ensures LoopsOk(s.(loops := s.loops + [s.nextpc], nextpc := s.nextpc + 2))
  {
  }

  /** Label counts after opening a loop. */
  lemma OpenCounts(s: CState, t: CState)
    requires CountsOk(s) && LoopsOk(s) && s.nextpc % 2 == 0
    requires t.loops == s.loops + [s.nextpc] && t.nextpc == s.nextpc + 2 && t.code == s.code + OpenGroup(s.nextpc)
    ensures CountsOk(t)
  {
    var l := s.nextpc;
    assert multiset(t.code) == multiset(s.code) + multiset(OpenGroup(l));
    forall k: nat ensures multiset(t.code)[PcLabel(k)] == Defined(t, k) {
      GroupCounts(l, k);
      assert multiset(t.code)[PcLabel(k)] == multiset(s.code)[PcLabel(k)] + multiset(OpenGroup(l))[PcLabel(k)];
      if k % 2 == 1 && k < l {
        assert k - 1 in t.loops <==> k - 1 in s.loops;
      }
    }
  }

  /** The code after opening a loop. */
  lemma OpenCode(s: CState, bound: nat)
    requires CodeOk(s.code, s.nextpc) && CountsOk(s) && s.nextpc % 2 == 0 && s.nextpc + 2 <= bound
    ensures CodeOk(s.code + OpenGroup(s.nextpc), bound)
  {
    var l := s.nextpc;
    var c := s.code + OpenGroup(l);
    var g := OpenGroup(l);
    LoopGroupsLinked(l, bound);
    TargetsGrow(s.code, s.nextpc, bound);
    AppendLinked(s.code, g, bound);
    assert multiset(s.code)[PcLabel(l + 1)] == 0;
    forall i, j | 0 <= i < |c| && 0 <= j < |c| ensures ExitAfterEntryAt(c, i, j) {
      if i >= |s.code| {
        assert c[i] == g[i - |s.code|];
      } else if j >= |s.code| {
        // The exit label of the new loop is not defined anywhere yet.
        assert s.code[i] != PcLabel(l + 1);
      } else {
        assert ExitAfterEntryAt(s.code, i, j);
      }
    }
    assert c[..|Header()|] == s.code[..|Header()|];
  }

  /** Opening a loop keeps the invariant. */
  lemma OpenKeeps(s: CState, pc: nat)
    requires Inv(s) && |s.loops| < MAX_NESTING
    ensures var npc := if s.nextpc == s.npc then 2 * s.npc else s.npc;
      Inv(CState(pc, s.loops + [s.nextpc], s.nextpc + 2, npc, s.code + OpenGroup(s.nextpc)))
  {
    var npc := if s.nextpc == s.npc then 2 * s.npc else s.npc;
    var t := CState(pc, s.loops + [s.nextpc], s.nextpc + 2, npc, s.code + OpenGroup(s.nextpc));
    OpenLabels(s);
    assert LabelsOk(t);
    OpenLoops(s);
    assert LoopsOk(t);
    OpenCounts(s, t);
    OpenCode(s, s.nextpc + 2);
  }

  /** Targets below a bound are below any larger one. */
  lemma TargetsGrow(code: seq<Instr>, a: nat, b: nat)
    requires TargetsBelow(code, a) && a <= b
    ensures TargetsBelow(code, b)
  {
    forall i | 0 <= i < |code| ensures TargetBelowAt(code, i, b) {
      assert TargetBelowAt(code, i, a);
    }
  }

  /** The loop stack after closing the innermost loop, which no longer holds
      that loop's label. */
  lemma CloseLoops(s: CState)
    requires LoopsOk(s) && |s.loops| > 0
    ensures LoopsOk(s.(loops := s.loops[..|s.loops| - 1]))
    ensures s.loops[|s.loops| - 1] !in s.loops[..|s.loops| - 1]
  {
    var last := |s.loops| - 1;
    forall i | 0 <= i < last ensures s.loops[..last][i] != s.loops[last] {
      assert s.loops[i] < s.loops[last];
    }
  }

  /** Label counts after closing the innermost loop. */
  lemma CloseCounts(s: CState, t: CState)
    requires CountsOk(s) && LoopsOk(s) && |s.loops| > 0 && s.nextpc % 2 == 0
    requires t.nextpc == s.nextpc && t.loops == s.loops[..|s.loops| - 1]
    requires t.code == s.code + CloseGroup(s.loops[|s.loops| - 1])
    ensures CountsOk(t)
  {
    var l := s.loops[|s.loops| - 1];
    CloseLoops(s);
    assert l in s.loops && l % 2 == 0 && l + 1 < s.nextpc;
    assert s.loops == t.loops + [l];
    assert multiset(t.code) == multiset(s.code) + multiset(CloseGroup(l));
    forall k: nat ensures multiset(t.code)[PcLabel(k)] == Defined(t, k) {
      GroupCounts(l, k);
      assert multiset(t.code)[PcLabel(k)] == multiset(s.code)[PcLabel(k)] + multiset(CloseGroup(l))[PcLabel(k)];
      ClosedDefined(s, t, l, k);
    }
  }

  /** Popping L defines L + 1 and leaves every other label as it was. */
  lemma ClosedDefined(s: CState, t: CState, l: nat, k: nat)
    requires t.nextpc == s.nextpc && s.loops == t.loops + [l] && l !in t.loops
    requires l % 2 == 0 && l + 1 < s.nextpc
    ensures Defined(t, k) == Defined(s, k) + (if k == l + 1 then 1 else 0)
  {
    if k % 2 == 1 && k < s.nextpc {
      assert k - 1 in s.loops <==> k - 1 in t.loops || k - 1 == l;
    }
  }

  /** The code after closing a loop whose entry label is defined. */
  lemma CloseCode(code: seq<Instr>, l: nat, bound: nat)
    requires CodeOk(code, bound) && l % 2 == 0 && l + 1 < bound
    ensures CodeOk(code + CloseGroup(l), bound)
  {
    var c := code + CloseGroup(l);
    var g := CloseGroup(l);
    LoopGroupsLinked(l, bound);
    AppendLinked(code, g, bound);
    forall i, j | 0 <= i < |c| && 0 <= j < |c| ensures ExitAfterEntryAt(c, i, j) {
      if j >= |code| {
        assert c[j] == g[j - |code|];
        if i >= |code| {
          assert c[i] == g[i - |code|];
        }
      } else if i >= |code| {
        assert c[i] == g[i - |code|];
      } else {
        assert ExitAfterEntryAt(code, i, j);
      }
    }
    assert c[..|Header()|] == code[..|Header()|];
  }

  /** Closing the innermost loop keeps the invariant. */
  lemma CloseKeeps(s: CState, pc: nat)
    requires Inv(s) && |s.loops| > 0
    ensures var l := s.loops[|s.loops| - 1];
      Inv(s.(pc := pc, loops := s.loops[..|s.loops| - 1], code := s.code + CloseGroup(l)))
  {
    var l := s.loops[|s.loops| - 1];
    var t := s.(pc := pc, loops := s.loops[..|s.loops| - 1], code := s.code + CloseGroup(l));
    CloseLoops(s);
    assert LabelsOk(t);
    CloseCounts(s, t);
    CloseCode(s.code, l, s.nextpc);
  }

  /** What holds of a successful compilation's code. */
  ghost predicate WellFormed(c: Compilation)
    requires c.Compiled?
  {
    && (forall k: nat :: multiset(c.code)[PcLabel(k)] == if k < c.labels then 1 else 0)
    && TargetsBelow(c.code, c.labels)
    && BranchSlotsFilled(c.code) && Linked(c.code) && ExitAfterEntry(c.code)
    && c.labels % 2 == 0 && c.labels <= c.capacity && IsCapacity(c.capacity)
    && (c.capacity == INITIAL_LABELS || c.capacity < 2 * c.labels)
    && |c.code| > |Header()| && c.code[..|Header()|] == Header() && c.code[|c.code| - 1] == Epilogue
  }

  /** The terminator with no loop open ends in well-formed code. */
  lemma FinishWellFormed(s: CState)
    requires Inv(s) && |s.loops| == 0
    ensures WellFormed(Compiled(s.code + Footer(), s.nextpc, s.npc))
  {
    var f := s.(code := s.code + Footer());
    ShortPlain(0);
    AppendPlainKeeps(s, Footer(), s.pc);
    forall k: nat ensures multiset(f.code)[PcLabel(k)] == if k < f.nextpc then 1 else 0 {
      assert Defined(f, k) == if k < f.nextpc then 1 else 0;
    }
  }

  /** Every run group is plain. */
  lemma RunGroupPlain(c: char, n: nat)
    requires IsRunOp(c)
    ensures Plain(RunGroup(c, n))
  {
    if c == '<' {
      LeftPlain(n);
    } else if c == '>' {
      RightPlain(n);
    } else if c == '+' {
      ShortPlain(n);
    } else {
      ShortPlain(-(n as int));
    }
  }

  /** A collapsed run keeps the invariant. */
  lemma RunKeeps(program: string, s: CState, c: char)
    requires s.pc < |program| && IsRunOp(c) && At(program, s.pc) == c && Inv(s)
    ensures Inv(EmitRun(program, s, c))
  {
    var t := EmitRun(program, s, c);
    var n := t.pc - s.pc;
    assert t == s.(pc := t.pc, code := s.code + RunGroup(c, n));
    RunGroupPlain(c, n);
    AppendPlainKeeps(s, RunGroup(c, n), t.pc);
  }

  /** One pass of the loop from s keeps the invariant, and if it is the final
      pass it produces well-formed code. */
  ghost predicate StepKept(program: string, s: CState)
    requires s.pc <= |program|
  {
    var r := CStep(program, s);
    && (r.Go? ==> Inv(r.next))
    && (r.Done? ==> WellFormed(Compiled(r.final.code, r.final.nextpc, r.final.npc)))
  }

  /** A run of `<`, `>`, `+` or `-` keeps the invariant. */
  lemma RunStepKeeps(program: string, s: CState)
    requires s.pc <= |program| && Inv(s) && IsRunOp(At(program, s.pc))
    ensures StepKept(program, s)
  {
    var c := At(program, s.pc);
    assert CStep(program, s) == Go(EmitRun(program, s, c));
    RunKeeps(program, s, c);
  }

  /** The `,` and `.` call groups keep the invariant. */
  lemma CallStepKeeps(program: string, s: CState)
    requires s.pc <= |program| && Inv(s) && (At(program, s.pc) == ',' || At(program, s.pc) == '.')
    ensures StepKept(program, s)
  {
    CallPlain();
    if At(program, s.pc) == ',' {
      assert CStep(program, s) == Go(s.(pc := s.pc + 1, code := s.code + ReadGroup()));
      AppendPlainKeeps(s, ReadGroup(), s.pc + 1);
    } else {
      assert CStep(program, s) == Go(s.(pc := s.pc + 1, code := s.code + WriteGroup()));
      AppendPlainKeeps(s, WriteGroup(), s.pc + 1);
    }
  }

  /** A `[` that is not rejected keeps the invariant. */
  lemma OpenStepKeeps(program: string, s: CState)
    requires s.pc <= |program| && Inv(s) && At(program, s.pc) == '['
    ensures StepKept(program, s)
  {
    if |s.loops| == MAX_NESTING {
      NestingCheckedFirst(program, s);
    } else if At(program, s.pc + 1) == '-' && At(program, s.pc + 2) == ']' {
      ClearStepKeeps(program, s);
    } else {
      LoopStepKeeps(program, s);
    }
  }

  /** The `[-]` peephole keeps the invariant. */
  lemma ClearStepKeeps(program: string, s: CState)
    requires s.pc <= |program| && Inv(s) && At(program, s.pc) == '[' && |s.loops| < MAX_NESTING
    requires At(program, s.pc + 1) == '-' && At(program, s.pc + 2) == ']'
    ensures StepKept(program, s)
  {
    assert CStep(program, s) == Go(s.(pc := s.pc + 3, code := s.code + ClearGroup()));
    ClearKeeps(s, s.pc + 3);
  }

  /** An ordinary `[` keeps the invariant. */
  lemma LoopStepKeeps(program: string, s: CState)
    requires s.pc <= |program| && Inv(s) && At(program, s.pc) == '[' && |s.loops| < MAX_NESTING
    requires !(At(program, s.pc + 1) == '-' && At(program, s.pc + 2) == ']')
    ensures StepKept(program, s)
  {
    var npc := if s.nextpc == s.npc then 2 * s.npc else s.npc;
    assert CStep(program, s) == Go(CState(s.pc + 1, s.loops + [s.nextpc], s.nextpc + 2, npc, s.code + OpenGroup(s.nextpc)));
    OpenKeeps(s, s.pc + 1);
  }

  /** The `[-]` zero store keeps the invariant. */
  lemma ClearKeeps(s: CState, pc: nat)
    requires Inv(s)
    ensures Inv(s.(pc := pc, code := s.code + ClearGroup()))
  {
    ShortPlain(0);
    AppendPlainKeeps(s, ClearGroup(), pc);
  }

  /** A `]` that is not rejected keeps the invariant. */
  lemma CloseStepKeeps(program: string, s: CState)
    requires s.pc <= |program| && Inv(s) && At(program, s.pc) == ']'
    ensures StepKept(program, s)
  {
    var r := CStep(program, s);
    assert r == EmitClose(program, s);
    if |s.loops| > 0 {
      var l := s.loops[|s.loops| - 1];
      assert r == Go(s.(pc := s.pc + 1, loops := s.loops[..|s.loops| - 1], code := s.code + CloseGroup(l)));
      CloseKeeps(s, s.pc + 1);
    }
  }

  /** The terminator, with no loop open, produces well-formed code. */
  lemma EndStepKeeps(program: string, s: CState)
    requires s.pc <= |program| && Inv(s) && At(program, s.pc) == '\0'
    ensures StepKept(program, s)
  {
    if |s.loops| == 0 {
      assert CStep(program, s) == Done(s.(code := s.code + Footer()));
      FinishWellFormed(s);
    }
  }

  /** Skipping a comment character keeps the invariant. */
  lemma SkipStepKeeps(program: string, s: CState)
    requires s.pc <= |program| && Inv(s)
    requires var c := At(program, s.pc); !IsRunOp(c) && c !in ",.[]\0"
    ensures StepKept(program, s)
  {
    assert CStep(program, s) == Go(s.(pc := s.pc + 1));
    ShortPlain(0);
    assert s.(pc := s.pc + 1) == s.(pc := s.pc + 1, code := s.code + []);
    AppendPlainKeeps(s, [], s.pc + 1);
  }

  /** One pass of the loop keeps the invariant, and the final pass produces
      well-formed code. */
  lemma StepKeeps(program: string, s: CState)
    requires s.pc <= |program| && Inv(s)
    ensures CStep(program, s).Go? ==> Inv(CStep(program, s).next)
    ensures CStep(program, s).Done? ==>
      var f := CStep(program, s).final;
      WellFormed(Compiled(f.code, f.nextpc, f.npc))
  {
    var c := At(program, s.pc);
    if IsRunOp(c) {
      RunStepKeeps(program, s);
    } else if c == ',' || c == '.' {
      CallStepKeeps(program, s);
    } else if c == '[' {
      OpenStepKeeps(program, s);
    } else if c == ']' {
      CloseStepKeeps(program, s);
    } else if c == '\0' {
      EndStepKeeps(program, s);
    } else {
      SkipStepKeeps(program, s);
    }
  }

  /** The rest of the pass from a state that keeps the invariant produces
      well-formed code if it succeeds. */
  lemma {:induction false} CompileFromWellFormed(program: string, s: CState)
    requires s.pc <= |program| && Inv(s)
    ensures CompileFrom(program, s).Compiled? ==> WellFormed(CompileFrom(program, s))
    decreases |program| - s.pc
  {
    StepKeeps(program, s);
    match CStep(program, s)
    case Go(t) => CompileFromWellFormed(program, t);
    case Done(_) =>
    case Reject(_) =>
  }

  /** A successful translation defines every allocated label exactly once and
      no other, branches only to defined labels, fills every branch's delay slot, links
      each loop's two branches to each other's labels, and sizes the label
      table to the least capacity that holds its labels. */
  lemma TranslationWellFormed(program: string)
    ensures Translate(program).Compiled? ==> WellFormed(Translate(program))
  {
    StartInv();
    CompileFromWellFormed(program, Start());
  }
}
