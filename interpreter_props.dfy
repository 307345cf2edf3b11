/** Properties of the reference interpreter's turns and runs. */
module InterpreterProperties {
  import opened Brainfuck
  import opened Interpreter

  /** Run-length collapsing, skipping or not: one turn consumes the whole run of
      `<`, `>`, `+` or `-` at the cursor and leaves the cursor just past it; while
      a loop is skipped, nothing but the cursor changes. */
  lemma CollapsedRun(program: string, input: seq<byte>, s: State, c: char, n: nat)
    requires Valid(s) && IsRunOp(c) && RunAt(program, s.pc, c, n)
    ensures Step(program, input, s).Next?
    ensures Step(program, input, s).next.pc == s.pc + n
    ensures s.nskip > 0 ==> Step(program, input, s).next == s.(pc := s.pc + n)
  {
    RunLengthUnique(program, s.pc + 1, c, n - 1);
  }

  /** A run of n `<` moves the pointer to (p - n) mod TAPE_SIZE, on the tape. */
  lemma MoveLeftRun(program: string, input: seq<byte>, s: State, n: nat)
    requires Valid(s) && s.nskip == 0 && RunAt(program, s.pc, '<', n)
    ensures Step(program, input, s) == Next(s.(pc := s.pc + n, ptr := (s.ptr - n) % TAPE_SIZE))
    ensures 0 <= (s.ptr - n) % TAPE_SIZE < TAPE_SIZE
  {
    RunLengthUnique(program, s.pc + 1, '<', n - 1);
  }

  /** A run of n `>` moves the pointer to (p + n) mod TAPE_SIZE, on the tape. */
  lemma MoveRightRun(program: string, input: seq<byte>, s: State, n: nat)
    requires Valid(s) && s.nskip == 0 && RunAt(program, s.pc, '>', n)
    ensures Step(program, input, s) == Next(s.(pc := s.pc + n, ptr := (s.ptr + n) % TAPE_SIZE))
    ensures 0 <= (s.ptr + n) % TAPE_SIZE < TAPE_SIZE
  {
    RunLengthUnique(program, s.pc + 1, '>', n - 1);
  }

  /** The current cell changed by `delta` modulo 256, and no other cell. */
  predicate CellChanged(before: seq<byte>, after: seq<byte>, ptr: int, delta: int)
    requires 0 <= ptr < |before|
  {
    && |after| == |before|
    && after[ptr] as int == (before[ptr] as int + delta) % 256
    && (forall j :: 0 <= j < |before| && j != ptr ==> after[j] == before[j])
  }

  /** A run of n `+` adds n modulo 256 to the current cell only. */
  lemma IncrementRun(program: string, input: seq<byte>, s: State, n: nat)
    requires Valid(s) && s.nskip == 0 && RunAt(program, s.pc, '+', n)
    ensures Step(program, input, s).Next?
    ensures var t := Step(program, input, s).next;
      && CellChanged(s.tape, t.tape, s.ptr, n)
      && t == s.(pc := s.pc + n, tape := t.tape)
  {
    RunLengthUnique(program, s.pc + 1, '+', n - 1);
  }

  /** A run of n `-` subtracts n modulo 256 from the current cell only. */
  lemma DecrementRun(program: string, input: seq<byte>, s: State, n: nat)
    requires Valid(s) && s.nskip == 0 && RunAt(program, s.pc, '-', n)
    ensures Step(program, input, s).Next?
    ensures var t := Step(program, input, s).next;
      && CellChanged(s.tape, t.tape, s.ptr, -(n as int))
      && t == s.(pc := s.pc + n, tape := t.tape)
  {
    RunLengthUnique(program, s.pc + 1, '-', n - 1);
  }

  /** While a loop is skipped, a turn changes neither the tape, the pointer, the
      output nor the input consumed, and the skip invariants still hold. */
  lemma SkippingChangesNothing(program: string, input: seq<byte>, s: State)
    requires Valid(s) && s.nskip > 0 && Step(program, input, s).Next?
    ensures var t := Step(program, input, s).next;
      && t.tape == s.tape && t.ptr == s.ptr && t.output == s.output && t.consumed == s.consumed
      && t.nskip <= |t.loops| <= MAX_NESTING && (t.nskip > 0 ==> t.tape[t.ptr] == 0)
  {
  }

  /** `[` with room on the loop stack pushes the offset just past itself and
      counts a skipped loop exactly when the cell is zero. */
  lemma OpenPushes(program: string, input: seq<byte>, s: State)
    requires Valid(s) && At(program, s.pc) == '[' && |s.loops| < MAX_NESTING
    ensures Step(program, input, s) == Next(s.(pc := s.pc + 1, loops := s.loops + [s.pc + 1],
                                              nskip := if s.tape[s.ptr] == 0 then s.nskip + 1 else s.nskip))
  {
  }

  /** `]` on a nonzero cell jumps back to the offset recorded by the innermost
      `[`, keeping the loop open; on a zero cell it closes that loop. */
  lemma CloseJumpsOrPops(program: string, input: seq<byte>, s: State)
    requires Valid(s) && At(program, s.pc) == ']' && |s.loops| > 0
    ensures Step(program, input, s).Next?
    ensures var t := Step(program, input, s).next;
      && t.tape == s.tape && t.ptr == s.ptr && t.output == s.output && t.consumed == s.consumed
      && (s.tape[s.ptr] != 0 ==> t.pc == s.loops[|s.loops| - 1] && t.loops == s.loops && t.nskip == 0)
      && (s.tape[s.ptr] == 0 ==> t.pc == s.pc + 1 && t.loops == s.loops[..|s.loops| - 1]
                                 && t.nskip == if s.nskip > 0 then s.nskip - 1 else 0)
  {
  }

  /** The three ways a turn ends in `bad_program`, and nothing else does. */
  lemma FailsExactly(program: string, input: seq<byte>, s: State)
    requires Valid(s)
    ensures Step(program, input, s).Fail? <==>
      || (At(program, s.pc) == '[' && |s.loops| == MAX_NESTING)
      || (At(program, s.pc) == ']' && |s.loops| == 0)
      || (At(program, s.pc) == '\0' && |s.loops| != 0)
    ensures At(program, s.pc) == '[' && |s.loops| == MAX_NESTING ==>
      Step(program, input, s) == Fail(BadProgram(Cursor(s.pc + 1), NestingTooDeep))
    ensures At(program, s.pc) == ']' && |s.loops| == 0 ==>
      Step(program, input, s) == Fail(BadProgram(Cursor(s.pc + 1), UnmatchedClose))
    ensures At(program, s.pc) == '\0' && |s.loops| != 0 ==>
      Step(program, input, s) == Fail(BadProgram(EndOfText, UnmatchedOpen))
    ensures Step(program, input, s).Halt? <==> At(program, s.pc) == '\0' && |s.loops| == 0
  {
  }

  /** Running a + b turns is running a turns and then, if still running, b more. */
  lemma {:induction false} RunSplits(program: string, input: seq<byte>, s: State, a: nat, b: nat)
    requires Valid(s)
    ensures var f := Run(program, input, s, a);
      Run(program, input, s, a + b) == if f.status.Running? then Run(program, input, f.state, b) else f
    decreases a
  {
    if a > 0 {
      match Step(program, input, s)
      case Next(t) =>
        RunSplits(program, input, t, a - 1, b);
      case Halt =>
      case Fail(_) =>
    }
  }

  /** A run that is still going after a turns in state mid continues from mid. */
  lemma RunThrough(program: string, input: seq<byte>, s: State, a: nat, n: nat, mid: State)
    requires Valid(s) && a <= n && Run(program, input, s, a) == Final(Running, mid)
    ensures Run(program, input, s, n) == Run(program, input, mid, n - a)
  {
    RunSplits(program, input, s, a, n - a);
  }

  /** More fuel does not change a run that has already halted or failed. */
  lemma FinishedRunIsFinal(program: string, input: seq<byte>, s: State, a: nat, b: nat)
    requires Valid(s) && !Run(program, input, s, a).status.Running?
    ensures Run(program, input, s, a + b) == Run(program, input, s, a)
  {
    RunSplits(program, input, s, a, b);
  }

  /** Output and input only grow with fuel: whatever a shorter run wrote stands
      in every longer one, including one that ends in `bad_program`. */
  lemma OutputStands(program: string, input: seq<byte>, s: State, k: nat, fuel: nat)
    requires Valid(s) && k <= fuel
    ensures Run(program, input, s, k).state.output <= Run(program, input, s, fuel).state.output
    ensures Run(program, input, s, k).state.consumed <= Run(program, input, s, fuel).state.consumed
  {
    RunSplits(program, input, s, k, fuel - k);
  }
}
