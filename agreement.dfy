/** How the JIT's code relates to the reference interpreter: the groups the
    compile pass emits for runs and for `[-]` change the machine as the
    interpreter's turns change its state, and both passes reject a too deep or
    unmatched loop with the same diagnostic. */
module Agreement {
  import opened Brainfuck
  import opened Mips
  import I = Interpreter
  import IP = InterpreterProperties
  import C = Compiler
  import CP = CompilerProperties

  /** The machine stands where the interpreter stands: its pointer register
      addresses the interpreter's current cell, and the tapes are equal. */
  predicate Mirrors(m: Machine, s: I.State) {
    Pointing(m, s.ptr) && m.tape == s.tape
  }

  /** The `<` group moves a mirroring machine's pointer as the interpreter
      moves its own: to (p - n) mod TAPE_SIZE. */
  lemma LeftAgrees(m: Machine, s: I.State, n: nat)
    requires I.Valid(s) && Mirrors(m, s)
    ensures Exec(LeftGroup(n), m).Ok? && Mirrors(Exec(LeftGroup(n), m).m, s.(ptr := (s.ptr - n) % TAPE_SIZE))
  {
    LeftGroupMoves(m, s.ptr, n);
  }

  /** The `>` group moves the pointer to (p + n) mod TAPE_SIZE. */
  lemma RightAgrees(m: Machine, s: I.State, n: nat)
    requires I.Valid(s) && Mirrors(m, s)
    ensures Exec(RightGroup(n), m).Ok? && Mirrors(Exec(RightGroup(n), m).m, s.(ptr := (s.ptr + n) % TAPE_SIZE))
  {
    RightGroupMoves(m, s.ptr, n);
  }

  /** The cell group adds delta modulo 256 to the current cell as the
      interpreter does, and leaves the other cells alone. */
  lemma CellAgrees(m: Machine, s: I.State, delta: int)
    requires I.Valid(s) && Mirrors(m, s)
    ensures Exec(AddGroup(delta), m).Ok?
    ensures Mirrors(Exec(AddGroup(delta), m).m, s.(tape := s.tape[s.ptr := AddCell(s.tape[s.ptr], delta)]))
  {
    AddGroupAdds(m, s.ptr, delta);
  }

  /** A run of n `<`, `>`, `+` or `-` outside a skipped loop: at the same
      offset the compile pass consumes the same run as the interpreter's turn,
      and the group it emits takes a mirroring machine to a machine mirroring
      the interpreter's next state. */
  lemma RunAgrees(program: string, input: seq<byte>, s: I.State, cs: C.CState, m: Machine, c: char, n: nat)
    requires I.Valid(s) && s.nskip == 0 && IsRunOp(c) && RunAt(program, s.pc, c, n)
    requires cs.pc == s.pc && Mirrors(m, s)
    ensures I.Step(program, input, s).Next?
    ensures C.CStep(program, cs) == C.Go(cs.(pc := s.pc + n, code := cs.code + C.RunGroup(c, n)))
    ensures I.Step(program, input, s).next.pc == s.pc + n
    ensures Exec(C.RunGroup(c, n), m).Ok? && Mirrors(Exec(C.RunGroup(c, n), m).m, I.Step(program, input, s).next)
  {
    CP.CollapsedRun(program, cs, c, n);
    GroupAgrees(program, input, s, m, c, n);
  }

  /** The machine half of RunAgrees. */
  lemma GroupAgrees(program: string, input: seq<byte>, s: I.State, m: Machine, c: char, n: nat)
    requires I.Valid(s) && s.nskip == 0 && IsRunOp(c) && RunAt(program, s.pc, c, n)
    requires Mirrors(m, s)
    ensures I.Step(program, input, s).Next? && I.Step(program, input, s).next.pc == s.pc + n
    ensures Exec(C.RunGroup(c, n), m).Ok? && Mirrors(Exec(C.RunGroup(c, n), m).m, I.Step(program, input, s).next)
  {
    if c == '<' {
      IP.MoveLeftRun(program, input, s, n);
      LeftAgrees(m, s, n);
    } else if c == '>' {
      IP.MoveRightRun(program, input, s, n);
      RightAgrees(m, s, n);
    } else if c == '+' {
      IP.IncrementRun(program, input, s, n);
      CellAgrees(m, s, n);
      CellAgreesWith(program, input, s, n);
    } else {
      IP.DecrementRun(program, input, s, n);
      CellAgrees(m, s, -(n as int));
      CellAgreesWith(program, input, s, -(n as int));
    }
  }

  /** The interpreter's cell turn is the update CellAgrees mirrors. */
  lemma CellAgreesWith(program: string, input: seq<byte>, s: I.State, delta: int)
    requires I.Valid(s) && I.Step(program, input, s).Next?
    requires var t := I.Step(program, input, s).next;
      IP.CellChanged(s.tape, t.tape, s.ptr, delta) && t == s.(pc := t.pc, tape := t.tape)
    ensures I.Step(program, input, s).next.tape == s.tape[s.ptr := AddCell(s.tape[s.ptr], delta)]
  {
    var t := I.Step(program, input, s).next;
    assert t.tape == s.tape[s.ptr := AddCell(s.tape[s.ptr], delta)];
  }

  /** The text at s.pc is the `[-]` idiom. */
  predicate ClearIdiomAt(program: string, pc: nat) {
    At(program, pc) == '[' && At(program, pc + 1) == '-' && At(program, pc + 2) == ']'
  }

  /** The interpreter inside a `[-]` loop entered from s, about to run the `-`
      with value v in the current cell. */
  function InClear(s: I.State, v: byte): (t: I.State)
    requires I.Valid(s) && s.nskip == 0 && |s.loops| < MAX_NESTING
    ensures I.Valid(t)
  {
    s.(pc := s.pc + 1, loops := s.loops + [s.pc + 1], tape := s.tape[s.ptr := v])
  }

  /** The number of interpreter turns `[-]` takes on a cell holding v: the `[`,
      then a `-` and a `]` per count down, or, on a zero cell, the `[`, the
      skipped `-` and the `]`. */
  function ClearTurns(v: byte): nat {
    if v == 0 then 3 else 1 + 2 * v as nat
  }

  /** One pass round the `[-]` loop: the `-` and the `]` that either jumps back
      with the cell one lower or, with the cell at zero, leaves the loop. */
  lemma ClearRound(program: string, input: seq<byte>, s: I.State, v: byte)
    requires I.Valid(s) && s.nskip == 0 && |s.loops| < MAX_NESTING && ClearIdiomAt(program, s.pc) && v > 0
    ensures v > 1 ==> I.Run(program, input, InClear(s, v), 2) == I.Final(I.Running, InClear(s, v - 1))
    ensures v == 1 ==> I.Run(program, input, InClear(s, v), 2) == I.Final(I.Running, Cleared(s))
  {
    var a := InClear(s, v);
    assert RunAt(program, a.pc, '-', 1);
    IP.DecrementRun(program, input, a, 1);
    var b := a.(pc := a.pc + 1, tape := a.tape[a.ptr := v - 1]);
    assert I.Step(program, input, a) == I.Next(b);
    IP.CloseJumpsOrPops(program, input, b);
    if v > 1 {
      assert b.tape == InClear(s, v - 1).tape;
      assert I.Step(program, input, b) == I.Next(InClear(s, v - 1));
    } else {
      assert b.loops[..|b.loops| - 1] == s.loops;
      assert b.tape == s.tape[s.ptr := 0];
      assert I.Step(program, input, b) == I.Next(s.(pc := s.pc + 3, tape := s.tape[s.ptr := 0]));
    }
  }

  /** Counting a nonzero cell down to zero takes two turns per unit and leaves
      the loop with the cell cleared. */
  lemma {:induction false} ClearDrains(program: string, input: seq<byte>, s: I.State, v: byte)
    requires I.Valid(s) && s.nskip == 0 && |s.loops| < MAX_NESTING && ClearIdiomAt(program, s.pc) && v > 0
    ensures I.Run(program, input, InClear(s, v), 2 * v as nat) == I.Final(I.Running, Cleared(s))
    decreases v
  {
    ClearRound(program, input, s, v);
    if v > 1 {
      ClearDrains(program, input, s, v - 1);
      ClearChain(program, input, InClear(s, v), InClear(s, v - 1), 2 * v as nat, 2 * (v - 1) as nat, Cleared(s));
    }
  }

  /** Two turns to mid and m more to f make m + 2 turns to f. */
  lemma ClearChain(program: string, input: seq<byte>, a: I.State, mid: I.State, n: nat, m: nat, f: I.State)
    requires I.Valid(a) && n == m + 2
    requires I.Run(program, input, a, 2) == I.Final(I.Running, mid)
    requires I.Run(program, input, mid, m) == I.Final(I.Running, f)
    ensures I.Run(program, input, a, n) == I.Final(I.Running, f)
  {
    IP.RunThrough(program, input, a, 2, n, mid);
  }

  /** The interpreter's state on leaving `[-]` entered from s. */
  function Cleared(s: I.State): I.State
    requires I.Valid(s)
  {
    s.(pc := s.pc + 3, tape := s.tape[s.ptr := 0])
  }

  /** The `[-]` peephole is sound: outside a skipped loop and with room for one
      more loop, the interpreter, after ClearTurns of the cell's value, is just
      past the idiom with the current cell zero and nothing else changed, and
      the zero store the compile pass emits there takes a mirroring machine to
      a machine that mirrors that state. */
  lemma ClearIdiomAgrees(program: string, input: seq<byte>, s: I.State, cs: C.CState, m: Machine)
    requires I.Valid(s) && s.nskip == 0 && |s.loops| < MAX_NESTING && s.pc < |program|
    requires ClearIdiomAt(program, s.pc) && cs.pc == s.pc && |cs.loops| < MAX_NESTING && Mirrors(m, s)
    ensures var t := Cleared(s);
      && I.Run(program, input, s, ClearTurns(s.tape[s.ptr])) == I.Final(I.Running, t)
      && C.CStep(program, cs) == C.Go(cs.(pc := t.pc, code := cs.code + ClearGroup()))
      && Exec(ClearGroup(), m).Ok? && Mirrors(Exec(ClearGroup(), m).m, t)
  {
    ClearGroupClears(m, s.ptr);
    ClearIdiomRuns(program, input, s);
  }

  /** The interpreter's side of ClearIdiomAgrees. */
  lemma ClearIdiomRuns(program: string, input: seq<byte>, s: I.State)
    requires I.Valid(s) && s.nskip == 0 && |s.loops| < MAX_NESTING && s.pc < |program|
    requires ClearIdiomAt(program, s.pc)
    ensures I.Run(program, input, s, ClearTurns(s.tape[s.ptr])) == I.Final(I.Running, Cleared(s))
  {
    var t := Cleared(s);
    var v := s.tape[s.ptr];
    IP.OpenPushes(program, input, s);
    if v == 0 {
      var a := s.(pc := s.pc + 1, loops := s.loops + [s.pc + 1], nskip := 1);
      assert I.Step(program, input, s) == I.Next(a);
      assert RunAt(program, a.pc, '-', 1);
      IP.CollapsedRun(program, input, a, '-', 1);
      var b := a.(pc := a.pc + 1);
      assert I.Step(program, input, a) == I.Next(b);
      IP.CloseJumpsOrPops(program, input, b);
      assert b.loops[..|b.loops| - 1] == s.loops;
      assert s.tape[s.ptr := 0] == s.tape;
      assert I.Step(program, input, b) == I.Next(t);
    } else {
      assert s.tape[s.ptr := v] == s.tape;
      assert I.Step(program, input, s) == I.Next(InClear(s, v));
      ClearDrains(program, input, s, v);
    }
  }

  /** `,` outside a skipped loop, with get_ch returning the byte the
      interpreter reads: the compile pass emits the `,` group, and the group
      with a `nop` in the delay slot of its call takes a mirroring machine to
      a machine mirroring the interpreter's next state. */
  lemma ReadAgrees(program: string, input: seq<byte>, s: I.State, cs: C.CState, m: Machine, callee: int)
    requires I.Valid(s) && s.nskip == 0 && At(program, s.pc) == ',' && cs.pc == s.pc && Mirrors(m, s)
    ensures C.CStep(program, cs) == C.Go(cs.(pc := s.pc + 1, code := cs.code + ReadGroup()))
    ensures I.Step(program, input, s).Next?
    ensures var r := ExecCall(PaddedReadGroup(), 0, m, callee, I.ReadByte(input, s.consumed) as int);
      r.Ok? && Mirrors(r.m, I.Step(program, input, s).next)
  {
    var b := I.ReadByte(input, s.consumed);
    PaddedReadStores(PaddedReadGroup(), m, s.ptr, callee, b as int);
    assert LowByte(b as int) == b;
  }

  /** The `,` group as emitted agrees with the interpreter only when the v0
      left over from before the call happens to hold the byte read. */
  lemma ReadAsEmitted(program: string, input: seq<byte>, s: I.State, m: Machine, callee: int)
    requires I.Valid(s) && s.nskip == 0 && At(program, s.pc) == ',' && Mirrors(m, s)
    ensures I.Step(program, input, s).Next?
    ensures var r := ExecCall(ReadGroup(), 0, m, callee, I.ReadByte(input, s.consumed) as int);
      r.Ok? && (Mirrors(r.m, I.Step(program, input, s).next) <==> LowByte(m.v0) == I.ReadByte(input, s.consumed))
  {
    var b := I.ReadByte(input, s.consumed);
    ReadStoresStale(ReadGroup(), m, s.ptr, callee, b as int);
    var t := I.Step(program, input, s).next;
    assert t.tape == s.tape[s.ptr := b];
    if s.tape[s.ptr := LowByte(m.v0)] == t.tape {
      assert s.tape[s.ptr := LowByte(m.v0)][s.ptr] == t.tape[s.ptr];
    }
  }

  /** `.` outside a skipped loop: the compile pass emits the `.` group, and
      the group with a `nop` in the delay slot of its call hands put_ch the
      byte the interpreter writes, leaving the machine mirroring it. */
  lemma WriteAgrees(program: string, input: seq<byte>, s: I.State, cs: C.CState, m: Machine, callee: int, ret: int)
    requires I.Valid(s) && s.nskip == 0 && At(program, s.pc) == '.' && cs.pc == s.pc && Mirrors(m, s)
    ensures C.CStep(program, cs) == C.Go(cs.(pc := s.pc + 1, code := cs.code + WriteGroup()))
    ensures I.Step(program, input, s).Next?
    ensures var r := ExecCall(PaddedWriteGroup(), 0, m, callee, ret);
      && r.Ok? && Mirrors(r.m, I.Step(program, input, s).next)
      && I.Step(program, input, s).next.output == s.output + [LowByte(r.m.arg2)]
  {
    PaddedWritePasses(PaddedWriteGroup(), m, s.ptr, callee, ret);
    LowByteOfSignExtend(s.tape[s.ptr]);
  }

  /** Both passes reject a `[` opened with MAX_NESTING loops open, `[-]`
      included, with the same diagnostic. */
  lemma NestingAgrees(program: string, input: seq<byte>, s: I.State, cs: C.CState)
    requires I.Valid(s) && s.pc < |program| && At(program, s.pc) == '['
    requires cs.pc == s.pc && |s.loops| == |cs.loops| == MAX_NESTING
    ensures I.Step(program, input, s) == I.Fail(BadProgram(Cursor(s.pc + 1), NestingTooDeep))
    ensures C.CStep(program, cs) == C.Reject(BadProgram(Cursor(s.pc + 1), NestingTooDeep))
  {
  }

  /** Both passes reject a `]` with no loop open with the same diagnostic. */
  lemma UnmatchedCloseAgrees(program: string, input: seq<byte>, s: I.State, cs: C.CState)
    requires I.Valid(s) && s.pc < |program| && At(program, s.pc) == ']'
    requires cs.pc == s.pc && |s.loops| == |cs.loops| == 0
    ensures I.Step(program, input, s) == I.Fail(BadProgram(Cursor(s.pc + 1), UnmatchedClose))
    ensures C.CStep(program, cs) == C.Reject(BadProgram(Cursor(s.pc + 1), UnmatchedClose))
  {
  }
}
