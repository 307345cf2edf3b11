/** The JIT code generator `bf_compile` of bf_mips.c: a step function over the
    compile pass's state, the translation it defines, and the imperative pass
    proved to compute that translation. */
module Compiler {
  import opened Brainfuck
  import opened Mips

  /** First capacity of the pc-label table (`unsigned npc = 8`). */
  const INITIAL_LABELS: nat := 8

  /** The compile pass's state: the cursor, the label ids of the open loops
      (`loops[..nloops]`), the next free label id `nextpc`, the label table's
      capacity `npc`, and the instructions emitted so far. */
  datatype CState = CState(pc: nat, loops: seq<nat>, nextpc: nat, npc: nat, code: seq<Instr>)

  /** The state after the header has been emitted, before the first operator:
      no loop open, and a label table with room for the first pair. */
  function Start(): (s: CState)
    ensures s.pc == 0 && s.loops == [] && s.nextpc == 0 && s.npc == INITIAL_LABELS && s.code == Header()
    ensures s.nextpc % 2 == 0 && s.nextpc + 1 < s.npc
  {
    CState(0, [], 0, INITIAL_LABELS, Header())
  }

  /** One pass of the `for(;;)` loop: on to the next operator, done at the
      terminator (with the epilogue emitted), or a `bad_program` rejection. */
  datatype CStepResult = Go(next: CState) | Done(final: CState) | Reject(error: BadProgram)

  /** What `bf_compile` produces: the code together with the number of pc
      labels it allocated and the label table's capacity, or the rejection. */
  datatype Compilation = Compiled(code: seq<Instr>, labels: nat, capacity: nat) | Rejected(error: BadProgram)

  /** A run of `<`, `>`, `+` or `-`: the whole run collapses into one group. */
  function EmitRun(program: string, s: CState, c: char): (t: CState)
    requires IsRunOp(c) && s.pc < |program| && At(program, s.pc) == c
    ensures s.pc < t.pc <= |program|
  {
    var n := 1 + RunLength(program, s.pc + 1, c);
    s.(pc := s.pc + n, code := s.code + RunGroup(c, n))
  }

  /** The group a run of n copies of c collapses into. */
  function RunGroup(c: char, n: nat): seq<Instr>
    requires IsRunOp(c)
  {
    match c
    case '<' => LeftGroup(n)
    case '>' => RightGroup(n)
    case '+' => AddGroup(n)
    case _ => AddGroup(-(n as int))
  }

  /** `[`: rejected with a full loop stack; `[-]` becomes a zero store; any
      other loop takes the label pair (nextpc, nextpc + 1), growing the label
      table first when it is full. */
  function EmitOpen(program: string, s: CState): (r: CStepResult)
    requires s.pc < |program| && At(program, s.pc) == '['
    ensures r.Go? ==> s.pc < r.next.pc <= |program|
    ensures !r.Done?
  {
    if |s.loops| == MAX_NESTING then Reject(BadProgram(Cursor(s.pc + 1), NestingTooDeep))
    else if At(program, s.pc + 1) == '-' && At(program, s.pc + 2) == ']' then
      Go(s.(pc := s.pc + 3, code := s.code + ClearGroup()))
    else
      var npc := if s.nextpc == s.npc then 2 * s.npc else s.npc;
      Go(CState(s.pc + 1, s.loops + [s.nextpc], s.nextpc + 2, npc, s.code + OpenGroup(s.nextpc)))
  }

  /** `]`: rejected with no loop open; otherwise closes the innermost loop. */
  function EmitClose(program: string, s: CState): (r: CStepResult)
    requires s.pc < |program| && At(program, s.pc) == ']'
    ensures r.Go? ==> s.pc < r.next.pc <= |program|
    ensures !r.Done?
  {
    if |s.loops| == 0 then Reject(BadProgram(Cursor(s.pc + 1), UnmatchedClose))
    else
      var l := s.loops[|s.loops| - 1];
      Go(s.(pc := s.pc + 1, loops := s.loops[..|s.loops| - 1], code := s.code + CloseGroup(l)))
  }

  /** One pass of the compile loop on the operator at the cursor. */
  function CStep(program: string, s: CState): (r: CStepResult)
    requires s.pc <= |program|
    ensures r.Go? ==> s.pc < r.next.pc <= |program|
  {
    var c := At(program, s.pc);
    if IsRunOp(c) then Go(EmitRun(program, s, c))
    else if c == ',' then Go(s.(pc := s.pc + 1, code := s.code + ReadGroup()))
    else if c == '.' then Go(s.(pc := s.pc + 1, code := s.code + WriteGroup()))
    else if c == '[' then EmitOpen(program, s)
    else if c == ']' then EmitClose(program, s)
    else if c == '\0' then
      if |s.loops| != 0 then Reject(BadProgram(EndOfText, UnmatchedOpen))
      else Done(s.(code := s.code + Footer()))
    else Go(s.(pc := s.pc + 1))
  }

  /** The rest of the compile pass from state s; it ends because every pass of
      the loop advances the cursor. */
  function CompileFrom(program: string, s: CState): Compilation
    requires s.pc <= |program|
    decreases |program| - s.pc
  {
    match CStep(program, s)
    case Go(t) => CompileFrom(program, t)
    case Done(t) => Compiled(t.code, t.nextpc, t.npc)
    case Reject(e) => Rejected(e)
  }

  /** The translation `bf_compile` computes. */
  function Translate(program: string): Compilation {
    CompileFrom(program, Start())
  }

  // ---------------------------------------------------------------------
  // The imperative pass

  /** The `[` case, with the loop stack in `loops[..nloops]`. */
  method CompileOpen(program: string, loops: array<nat>, pc: nat, nloops: nat, nextpc: nat, npc: nat,
                     code: seq<Instr>, ghost s: CState)
    returns (ok: bool, pc': nat, nloops': nat, nextpc': nat, npc': nat, code': seq<Instr>)
    requires loops.Length == MAX_NESTING && nloops <= MAX_NESTING
    requires s.pc < |program| && At(program, s.pc) == '[' && pc == s.pc + 1
    requires s == CState(s.pc, loops[..nloops], nextpc, npc, code)
    modifies loops
    ensures nloops' <= MAX_NESTING
    ensures ok ==> EmitOpen(program, s) == Go(CState(pc', loops[..nloops'], nextpc', npc', code'))
    ensures !ok ==> EmitOpen(program, s) == Reject(BadProgram(Cursor(pc), NestingTooDeep)) && pc' == pc
  {
    ok, pc', nloops', nextpc', npc', code' := true, pc, nloops, nextpc, npc, code;
    if nloops == MAX_NESTING {
      ok := false;
      return;
    }
    if At(program, pc) == '-' && At(program, pc + 1) == ']' {
      pc' := pc + 2;
      code' := code + ClearGroup();
    } else {
      if nextpc == npc {
        npc' := npc * 2;
      }
      code' := code + OpenGroup(nextpc);
      loops[nloops] := nextpc;
      nloops' := nloops + 1;
      nextpc' := nextpc + 2;
      assert loops[..nloops'] == s.loops + [nextpc];
    }
  }

  /** The `]` case. */
  method CompileClose(ghost program: string, loops: array<nat>, pc: nat, nloops: nat,
                      code: seq<Instr>, ghost s: CState)
    returns (ok: bool, nloops': nat, code': seq<Instr>)
    requires loops.Length == MAX_NESTING && nloops <= MAX_NESTING
    requires s.pc < |program| && At(program, s.pc) == ']' && pc == s.pc + 1
    requires s == CState(s.pc, loops[..nloops], s.nextpc, s.npc, code)
    ensures nloops' <= MAX_NESTING
    ensures ok ==> EmitClose(program, s) == Go(s.(pc := pc, loops := loops[..nloops'], code := code'))
    ensures !ok ==> EmitClose(program, s) == Reject(BadProgram(Cursor(pc), UnmatchedClose))
  {
    ok, nloops', code' := true, nloops, code;
    if nloops == 0 {
      ok := false;
      return;
    }
    nloops' := nloops - 1;
    code' := code + CloseGroup(loops[nloops']);
    assert loops[..nloops'] == s.loops[..|s.loops| - 1];
  }

  /** A collapsed run: scan it and emit its group. */
  method CompileRun(program: string, c: char, pc: nat, code: seq<Instr>, ghost s: CState)
    returns (pc': nat, code': seq<Instr>)
    requires IsRunOp(c) && s.pc < |program| && At(program, s.pc) == c && pc == s.pc + 1
    requires code == s.code
    ensures EmitRun(program, s, c) == s.(pc := pc', code := code')
  {
    var n;
    n, pc' := ScanRun(program, pc, c);
    code' := code + RunGroup(c, n);
  }

  /** `bf_compile`: one pass over the text, emitting into `code`, with the
      loop stack in a fixed array of MAX_NESTING label ids. */
  method Compile(program: string) returns (r: Compilation)
    ensures r == Translate(program)
  {
    var loops := new nat[MAX_NESTING];
    var nloops: nat := 0;
    var npc: nat := INITIAL_LABELS;
    var nextpc: nat := 0;
    var code := Header();
    var pc: nat := 0;
    ghost var s := Start();
    while true
      invariant loops.Length == MAX_NESTING && nloops <= MAX_NESTING
      invariant s == CState(pc, loops[..nloops], nextpc, npc, code)
      invariant pc <= |program|
      invariant Translate(program) == CompileFrom(program, s)
      decreases |program| - pc
    {
      ghost var step := CStep(program, s);
      var c := At(program, pc);
      pc := pc + 1;
      if IsRunOp(c) {
        pc, code := CompileRun(program, c, pc, code, s);
      } else if c == ',' {
        code := code + ReadGroup();
      } else if c == '.' {
        code := code + WriteGroup();
      } else if c == '[' {
        var ok;
        ok, pc, nloops, nextpc, npc, code := CompileOpen(program, loops, pc, nloops, nextpc, npc, code, s);
        if !ok {
          return Rejected(BadProgram(Cursor(pc), NestingTooDeep));
        }
      } else if c == ']' {
        var ok;
        ok, nloops, code := CompileClose(program, loops, pc, nloops, code, s);
        if !ok {
          return Rejected(BadProgram(Cursor(pc), UnmatchedClose));
        }
      } else if c == '\0' {
        if nloops != 0 {
          return Rejected(BadProgram(EndOfText, UnmatchedOpen));
        }
        code := code + Footer();
        return Compiled(code, nextpc, npc);
      }
      s := step.next;
    }
  }
}
