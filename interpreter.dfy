/** The reference interpreter `bf_interpret` of bf_c.c: a step function over an
    explicit machine state that fixes the language's meaning, the imperative
    interpreter proved to follow it, and the properties of a step and of a run. */
module Interpreter {
  import opened Brainfuck

  /** The interpreter's variables, with the C pointers as offsets: pc is the
      offset of `program`, ptr the offset of `ptr` into the tape, loops the live
      entries `loops[0..nloops)` (each the offset just past an open `[`), nskip
      the skip counter, consumed the number of bytes `get_ch` has delivered and
      output the bytes handed to `put_ch`. */
  datatype State = State(
    pc: nat,
    ptr: int,
    tape: seq<byte>,
    loops: seq<nat>,
    nskip: nat,
    consumed: nat,
    output: seq<byte>)

  /** What holds between any two turns of the interpreter loop: the pointer is on
      the tape, at most MAX_NESTING loops are open, only open loops are skipped,
      and a skipped loop was entered on a zero cell that skipping cannot change. */
  predicate Valid(s: State) {
    && 0 <= s.ptr < TAPE_SIZE
    && |s.tape| == TAPE_SIZE
    && |s.loops| <= MAX_NESTING
    && s.nskip <= |s.loops|
    && (s.nskip > 0 ==> s.tape[s.ptr] == 0)
  }

  /** The state bf_interpret starts in, on the caller's tape. */
  function Initial(tape: seq<byte>): (s: State)
    requires |tape| == TAPE_SIZE
    ensures Valid(s) && s.tape == tape && s.output == [] && s.consumed == 0
  {
    State(0, 0, tape, [], 0, 0, [])
  }

  /** The byte `get_ch` delivers as the read with index `consumed`: the next byte
      of the input, or 255 ((unsigned char)EOF) once the input is exhausted. */
  function ReadByte(input: seq<byte>, consumed: nat): byte {
    if consumed < |input| then input[consumed] else 255
  }

  datatype StepResult = Next(next: State) | Halt | Fail(error: BadProgram)

  /** The turn for a maximal run of n copies of c, one of `<`, `>`, `+`, `-`,
      starting at s.pc: the cursor skips the run, and unless a loop is being
      skipped the pointer moves n cells or the current cell changes by n. */
  function RunOpStep(program: string, s: State, c: char): (t: State)
    requires Valid(s) && IsRunOp(c)
    ensures Valid(t) && t.output == s.output && t.consumed == s.consumed
  {
    var n := 1 + RunLength(program, s.pc + 1, c);
    if s.nskip != 0 then s.(pc := s.pc + n)
    else if c == '<' then s.(pc := s.pc + n, ptr := Wrap(s.ptr - n))
    else if c == '>' then s.(pc := s.pc + n, ptr := Wrap(s.ptr + n))
    else if c == '+' then s.(pc := s.pc + n, tape := s.tape[s.ptr := AddCell(s.tape[s.ptr], n)])
    else s.(pc := s.pc + n, tape := s.tape[s.ptr := AddCell(s.tape[s.ptr], -n)])
  }

  /** The turn for `[`: fails when MAX_NESTING loops are open; otherwise records
      the offset after the `[` and, on a zero cell, counts one more skipped loop. */
  function OpenStep(program: string, s: State): (r: StepResult)
    requires Valid(s)
    ensures r.Next? ==> Valid(r.next) && r.next.output == s.output && r.next.consumed == s.consumed
  {
    if |s.loops| == MAX_NESTING then Fail(BadProgram(Cursor(s.pc + 1), NestingTooDeep))
    else Next(s.(pc := s.pc + 1, loops := s.loops + [s.pc + 1],
                 nskip := if s.tape[s.ptr] == 0 then s.nskip + 1 else s.nskip))
  }

  /** The turn for `]`: fails when no loop is open; otherwise jumps back to the
      body of the innermost loop on a nonzero cell and leaves it on a zero cell,
      ending one skipped loop if any. */
  function CloseStep(program: string, s: State): (r: StepResult)
    requires Valid(s)
    ensures r.Next? ==> Valid(r.next) && r.next.output == s.output && r.next.consumed == s.consumed
  {
    if |s.loops| == 0 then Fail(BadProgram(Cursor(s.pc + 1), UnmatchedClose))
    else
      var nskip := if s.nskip > 0 then s.nskip - 1 else 0;
      if s.tape[s.ptr] != 0 then Next(s.(pc := s.loops[|s.loops| - 1], nskip := nskip))
      else Next(s.(pc := s.pc + 1, loops := s.loops[..|s.loops| - 1], nskip := nskip))
  }

  /** One turn of the `for(;;)` loop: the switch on `*program++`. */
  function Step(program: string, input: seq<byte>, s: State): (r: StepResult)
    requires Valid(s)
    ensures r.Next? ==> Valid(r.next)
    ensures r.Next? ==> s.output <= r.next.output && s.consumed <= r.next.consumed
  {
    var c := At(program, s.pc);
    if IsRunOp(c) then Next(RunOpStep(program, s, c))
    else if c == ',' then
      if s.nskip == 0 then
        Next(s.(pc := s.pc + 1, tape := s.tape[s.ptr := ReadByte(input, s.consumed)], consumed := s.consumed + 1))
      else Next(s.(pc := s.pc + 1))
    else if c == '.' then
      if s.nskip == 0 then Next(s.(pc := s.pc + 1, output := s.output + [s.tape[s.ptr]]))
      else Next(s.(pc := s.pc + 1))
    else if c == '[' then OpenStep(program, s)
    else if c == ']' then CloseStep(program, s)
    else if c == '\0' then
      if |s.loops| != 0 then Fail(BadProgram(EndOfText, UnmatchedOpen)) else Halt
    else Next(s.(pc := s.pc + 1))
  }

  /** How a bounded run ended: out of fuel, at the terminator, or in `bad_program`. */
  datatype Status = Running | Halted | Failed(error: BadProgram)

  /** The end of a run and the state it ended in (for Halted and Failed, the
      state in which the terminator or the bad operator was read). */
  datatype Final = Final(status: Status, state: State)

  /** At most `fuel` turns of the interpreter loop from s. Every state reached is
      Valid, and output and input are only ever appended to and consumed, so the
      output written before a `bad_program` exit stands. */
  function Run(program: string, input: seq<byte>, s: State, fuel: nat): (f: Final)
    requires Valid(s)
    ensures Valid(f.state)
    ensures s.output <= f.state.output && s.consumed <= f.state.consumed
    decreases fuel
  {
    if fuel == 0 then Final(Running, s)
    else
      match Step(program, input, s)
      case Next(t) => Run(program, input, t, fuel - 1)
      case Halt => Final(Halted, s)
      case Fail(e) => Final(Failed(e), s)
  }

  /** `ptr -= n; while(ptr <= tape_begin) ptr += TAPE_SIZE;` with tape_begin the
      offset -1: the pointer moves n cells left around the circular tape. */
  method MoveLeft(ptr: int, n: nat) returns (q: int)
    requires 0 <= ptr < TAPE_SIZE
    ensures 0 <= q < TAPE_SIZE
    ensures q == (ptr - n) % TAPE_SIZE
  {
    q := ptr - n;
    while q <= -1
      invariant q < TAPE_SIZE
      invariant (q - (ptr - n)) % TAPE_SIZE == 0
      decreases -q
    {
      q := q + TAPE_SIZE;
    }
  }

  /** `ptr += n; while(ptr > tape_end) ptr -= TAPE_SIZE;` with tape_end the
      offset TAPE_SIZE - 1: the pointer moves n cells right around the tape. */
  method MoveRight(ptr: int, n: nat) returns (q: int)
    requires 0 <= ptr < TAPE_SIZE
    ensures 0 <= q < TAPE_SIZE
    ensures q == (ptr + n) % TAPE_SIZE
  {
    q := ptr + n;
    while q > TAPE_SIZE - 1
      invariant q >= 0
      invariant (q - (ptr + n)) % TAPE_SIZE == 0
      decreases q
    {
      q := q - TAPE_SIZE;
    }
  }

  /** The `<`, `>`, `+` and `-` cases of the switch, entered with the cursor just
      past the operator c. */
  method ExecRunOp(program: string, ghost input: seq<byte>, c: char, tape: array<byte>,
                   pc: nat, ptr: int, nskip: nat, ghost s: State)
    returns (pc': nat, ptr': int)
    requires IsRunOp(c) && Valid(s) && At(program, s.pc) == c
    requires pc == s.pc + 1 && ptr == s.ptr && tape[..] == s.tape && nskip == s.nskip
    modifies tape
    ensures Step(program, input, s) == Next(s.(pc := pc', ptr := ptr', tape := tape[..]))
  {
    var n;
    n, pc' := ScanRun(program, pc, c);
    ptr' := ptr;
    if nskip == 0 {
      if c == '<' {
        ptr' := MoveLeft(ptr, n);
      } else if c == '>' {
        ptr' := MoveRight(ptr, n);
      } else if c == '+' {
        tape[ptr] := AddCell(tape[ptr], n);
      } else {
        tape[ptr] := AddCell(tape[ptr], -(n as int));
      }
    }
  }

  /** The `[` case, entered with the cursor just past the `[`: ok is false when
      MAX_NESTING loops are already open (the `bad_program` exit). */
  method ExecOpen(ghost program: string, ghost input: seq<byte>, tape: array<byte>, loops: array<nat>,
                  pc: nat, ptr: int, nloops: nat, nskip: nat, ghost s: State)
    returns (ok: bool, nloops': nat, nskip': nat)
    requires Valid(s) && At(program, s.pc) == '['
    requires loops.Length == MAX_NESTING && nloops <= MAX_NESTING
    requires pc == s.pc + 1 && ptr == s.ptr && tape[..] == s.tape
    requires loops[..nloops] == s.loops && nskip == s.nskip
    modifies loops
    ensures nloops' <= MAX_NESTING
    ensures ok ==> Step(program, input, s) == Next(s.(pc := pc, loops := loops[..nloops'], nskip := nskip'))
    ensures !ok ==> Step(program, input, s) == Fail(BadProgram(Cursor(pc), NestingTooDeep))
  {
    ok, nloops', nskip' := nloops != MAX_NESTING, nloops, nskip;
    if ok {
      loops[nloops] := pc;
      nloops' := nloops + 1;
      if tape[ptr] == 0 {
        nskip' := nskip + 1;
      }
      assert loops[..nloops'] == s.loops + [pc];
    }
  }

  /** The `]` case, entered with the cursor just past the `]`: ok is false when
      no loop is open (the `bad_program` exit). */
  method ExecClose(ghost program: string, ghost input: seq<byte>, tape: array<byte>, loops: array<nat>,
                   pc: nat, ptr: int, nloops: nat, nskip: nat, ghost s: State)
    returns (ok: bool, pc': nat, nloops': nat, nskip': nat)
    requires Valid(s) && At(program, s.pc) == ']'
    requires loops.Length == MAX_NESTING && nloops <= MAX_NESTING
    requires pc == s.pc + 1 && ptr == s.ptr && tape[..] == s.tape
    requires loops[..nloops] == s.loops && nskip == s.nskip
    ensures nloops' <= MAX_NESTING
    ensures ok ==> Step(program, input, s) == Next(s.(pc := pc', loops := loops[..nloops'], nskip := nskip'))
    ensures !ok ==> Step(program, input, s) == Fail(BadProgram(Cursor(pc), UnmatchedClose))
  {
    ok, pc', nloops', nskip' := nloops != 0, pc, nloops, nskip;
    if ok {
      if tape[ptr] != 0 {
        pc' := loops[nloops - 1];
      } else {
        nloops' := nloops - 1;
        assert loops[..nloops'] == s.loops[..|s.loops| - 1];
      }
      if nskip > 0 {
        nskip' := nskip - 1;
      }
    }
  }

  /** Whether the interpreter loop goes on after a turn, or how it ended. */
  datatype Control = Continue | Stop(status: Status)

  /** One turn of the `for(;;)` loop on the interpreter's variables: it does what
      Step does to the state they hold, and stops where Step halts or fails. */
  method Turn(program: string, input: seq<byte>, tape: array<byte>, loops: array<nat>,
              pc: nat, ptr: int, nloops: nat, nskip: nat, consumed: nat, output: seq<byte>,
              ghost s: State)
    returns (ctl: Control, pc': nat, ptr': int, nloops': nat, nskip': nat, consumed': nat, output': seq<byte>)
    requires Valid(s) && loops.Length == MAX_NESTING && nloops <= MAX_NESTING
    requires s == State(pc, ptr, tape[..], loops[..nloops], nskip, consumed, output)
    modifies tape, loops
    ensures nloops' <= MAX_NESTING
    ensures var r := Step(program, input, s);
      && (ctl == Continue <==> r.Next?)
      && (r.Next? ==> r.next == State(pc', ptr', tape[..], loops[..nloops'], nskip', consumed', output'))
      && (r.Halt? ==> ctl == Stop(Halted))
      && (r.Fail? ==> ctl == Stop(Failed(r.error)))
    ensures ctl.Stop? ==> tape[..] == s.tape && consumed' == consumed && output' == output
  {
    ctl, pc', ptr', nloops', nskip', consumed', output' := Continue, pc + 1, ptr, nloops, nskip, consumed, output;
    var c := At(program, pc);
    if IsRunOp(c) {
      pc', ptr' := ExecRunOp(program, input, c, tape, pc + 1, ptr, nskip, s);
    } else if c == ',' {
      if nskip == 0 {
        tape[ptr] := ReadByte(input, consumed);
        consumed' := consumed + 1;
      }
    } else if c == '.' {
      if nskip == 0 {
        output' := output + [tape[ptr]];
      }
    } else if c == '[' {
      var ok;
      ok, nloops', nskip' := ExecOpen(program, input, tape, loops, pc + 1, ptr, nloops, nskip, s);
      if !ok {
        ctl := Stop(Failed(BadProgram(Cursor(pc + 1), NestingTooDeep)));
      }
    } else if c == ']' {
      var ok;
      ok, pc', nloops', nskip' := ExecClose(program, input, tape, loops, pc + 1, ptr, nloops, nskip, s);
      if !ok {
        ctl := Stop(Failed(BadProgram(Cursor(pc + 1), UnmatchedClose)));
      }
    } else if c == '\0' {
      ctl := if nloops != 0 then Stop(Failed(BadProgram(EndOfText, UnmatchedOpen))) else Stop(Halted);
    }
  }

  /** bf_interpret on the caller's tape (`state->tape`), with `get_ch` reading
      `input` and `put_ch` appending to `output`, for at most `fuel` turns of its
      loop: it ends exactly as Run does, leaving the tape as Run's final state has it. */
  method Interpret(program: string, input: seq<byte>, tape: array<byte>, fuel: nat)
    returns (status: Status, consumed: nat, output: seq<byte>)
    requires tape.Length == TAPE_SIZE
    modifies tape
    ensures var f := Run(program, input, Initial(old(tape[..])), fuel);
      status == f.status && tape[..] == f.state.tape
      && consumed == f.state.consumed && output == f.state.output
  {
    var loops := new nat[MAX_NESTING];
    var nloops: nat, nskip: nat := 0, 0;
    var pc: nat, ptr := 0, 0;
    consumed, output := 0, [];
    ghost var start := Initial(tape[..]);
    ghost var s := start;
    var remaining := fuel;
    while remaining > 0
      invariant loops.Length == MAX_NESTING && nloops <= MAX_NESTING
      invariant Valid(s)
      invariant s == State(pc, ptr, tape[..], loops[..nloops], nskip, consumed, output)
      invariant Run(program, input, start, fuel) == Run(program, input, s, remaining)
      decreases remaining
    {
      ghost var r := Step(program, input, s);
      var ctl;
      ctl, pc, ptr, nloops, nskip, consumed, output :=
        Turn(program, input, tape, loops, pc, ptr, nloops, nskip, consumed, output, s);
      if ctl.Stop? {
        status := ctl.status;
        return;
      }
      s, remaining := r.next, remaining - 1;
    }
    status := Running;
  }
}
