/** Whole runs of small programs through the interpreter's specification. */
module InterpreterExamples {
  import opened Brainfuck
  import opened Interpreter
  import opened InterpreterProperties

  /** `,+.` on input "A" echoes "B": one byte read, one byte written. */
  lemma ReadIncrementWrite(tape: seq<byte>)
    requires |tape| == TAPE_SIZE
    ensures var f := Run(",+.", [65], Initial(tape), 4);
      f.status == Halted && f.state.output == [66] && f.state.consumed == 1
  {
  }
  /** The empty text halts at once and changes nothing. */
  lemma EmptyProgram(tape: seq<byte>)
    requires |tape| == TAPE_SIZE
    ensures Run("", [], Initial(tape), 1) == Final(Halted, Initial(tape))
  {
  }
  /** An unmatched `]` is found only when the cursor reaches it: what was
      written before it stands, and the diagnostic points just past it. */
  lemma LateClose(tape: seq<byte>)
    requires |tape| == TAPE_SIZE && tape[0] == 7
    ensures Run(".]", [], Initial(tape), 2) == Final(Failed(BadProgram(Cursor(2), UnmatchedClose)), Initial(tape).(pc := 1, output := [7]))
  {
  }

  /** Multiplies 8 by 8 in cell 1 and writes the product. */
  const MULTIPLY: string := "++++++++[>++++++++<-]>."

  /** The characters of MULTIPLY that the run below reads, offset by offset. The
      lemmas about the loop take any text with this shape, so that the verifier
      reasons from these facts rather than by evaluating the whole text. */
  predicate Shaped(p: string) {
    && (forall k :: 0 <= k < 8 ==> At(p, k) == '+') && At(p, 8) == '['
    && At(p, 9) == '>' && (forall k :: 10 <= k < 18 ==> At(p, k) == '+')
    && At(p, 18) == '<' && At(p, 19) == '-' && At(p, 20) == ']'
    && At(p, 21) == '>' && At(p, 22) == '.' && At(p, 23) == '\0'
  }

  /** The state at the loop body's first operator, with the loop open. */
  function LoopHead(tape: seq<byte>): State
  {
    State(9, 0, tape, [9], 0, 0, [])
  }

  /** The tape after one pass through the loop body with k in cell 0. */
  function Pass(tape: seq<byte>, k: nat): seq<byte>
    requires |tape| == TAPE_SIZE && 1 <= k <= 256
  {
    tape[1 := AddCell(tape[1], 8)][0 := (k - 1) as byte]
  }

  /** One pass through `>++++++++<-` adds 8 to cell 1 (modulo 256) and takes
      1 from cell 0. */
  lemma LoopBody(p: string, tape: seq<byte>, k: nat)
    requires Shaped(p)
    requires |tape| == TAPE_SIZE && 1 <= k && tape[0] as int == k
    ensures Run(p, [], LoopHead(tape), 4) == Final(Running, State(20, 0, Pass(tape, k), [9], 0, 0, []))
  {
    var s := LoopHead(tape);
    assert RunAt(p, 9, '>', 1);
    MoveRightRun(p, [], s, 1);
    var s1 := s.(pc := 10, ptr := 1);
    assert RunAt(p, 10, '+', 8);
    IncrementRun(p, [], s1, 8);
    var s2 := s1.(pc := 18, tape := tape[1 := AddCell(tape[1], 8)]);
    assert Step(p, [], s1) == Next(s2);
    assert RunAt(p, 18, '<', 1);
    MoveLeftRun(p, [], s2, 1);
    var s3 := s2.(pc := 19, ptr := 0);
    assert RunAt(p, 19, '-', 1);
    DecrementRun(p, [], s3, 1);
    var s4 := s3.(pc := 20, tape := Pass(tape, k));
    assert Step(p, [], s3) == Next(s4);
    assert Run(p, [], s3, 1) == Final(Running, s4);
    assert Run(p, [], s2, 2) == Final(Running, s4);
    assert Run(p, [], s1, 3) == Final(Running, s4);
  }

  /** The state after k passes, once the loop has closed. */
  predicate AfterLoop(f: Final, tape: seq<byte>, k: nat)
    requires |tape| == TAPE_SIZE
  {
    && f.status == Running && f.state.pc == 21 && f.state.ptr == 0 && f.state.loops == []
    && f.state.nskip == 0 && f.state.consumed == 0 && f.state.output == []
    && |f.state.tape| == TAPE_SIZE && f.state.tape[0] == 0
    && f.state.tape[1] as int == (tape[1] as int + 8 * k) % 256
    && forall j :: 2 <= j < TAPE_SIZE ==> f.state.tape[j] == tape[j]
  }

  /** A pass ends at `]`: on the last one cell 0 is zero and the loop closes,
      on any other the cursor jumps back to the loop head. */
  lemma Round(p: string, tape: seq<byte>, k: nat)
    requires Shaped(p)
    requires |tape| == TAPE_SIZE && 1 <= k && tape[0] as int == k
    ensures k == 1 ==> AfterLoop(Run(p, [], LoopHead(tape), 5), tape, 1)
    ensures k > 1 ==> Run(p, [], LoopHead(tape), 5) == Final(Running, LoopHead(Pass(tape, k)))
  {
    LoopBody(p, tape, k);
    var s4 := State(20, 0, Pass(tape, k), [9], 0, 0, []);
    RunSplits(p, [], LoopHead(tape), 4, 1);
    CloseJumpsOrPops(p, [], s4);
  }

  /** Entered with k in cell 0, the loop takes 5k turns, leaves cell 0 at
      zero and adds 8k to cell 1, modulo 256 as an unsigned char wraps. */
  lemma {:induction false} MultiplyLoop(p: string, tape: seq<byte>, k: nat)
    requires Shaped(p)
    requires |tape| == TAPE_SIZE && 1 <= k && tape[0] as int == k
    ensures AfterLoop(Run(p, [], LoopHead(tape), 5 * k), tape, k)
    decreases k
  {
    if k == 1 {
      Round(p, tape, k);
    } else {
      var t := Pass(tape, k);
      assert AfterLoop(Run(p, [], LoopHead(t), 5 * (k - 1)), t, k - 1) by {
        assert t[0] as int == k - 1;
        MultiplyLoop(p, t, k - 1);
      }
      assert Run(p, [], LoopHead(tape), 5) == Final(Running, LoopHead(t)) by {
        Round(p, tape, k);
      }
      Chain(p, tape, k);
    }
  }

  /** One pass followed by k - 1 passes is k passes. */
  lemma Chain(p: string, tape: seq<byte>, k: nat)
    requires |tape| == TAPE_SIZE && 2 <= k <= 256
    requires Run(p, [], LoopHead(tape), 5) == Final(Running, LoopHead(Pass(tape, k)))
    requires AfterLoop(Run(p, [], LoopHead(Pass(tape, k)), 5 * (k - 1)), Pass(tape, k), k - 1)
    ensures AfterLoop(Run(p, [], LoopHead(tape), 5 * k), tape, k)
  {
    Through5(p, LoopHead(tape), LoopHead(Pass(tape, k)), 5 * k, 5 * (k - 1));
    Shift(Run(p, [], LoopHead(tape), 5 * k), tape, k);
  }

  /** What k - 1 passes leave after the first pass is what k passes leave. */
  lemma Shift(f: Final, tape: seq<byte>, k: nat)
    requires |tape| == TAPE_SIZE && 2 <= k <= 256
    requires AfterLoop(f, Pass(tape, k), k - 1)
    ensures AfterLoop(f, tape, k)
  {
    var a := tape[1] as int + 8;
    var b := 8 * (k - 1);
    assert Pass(tape, k)[1] as int == a % 256;
    assert f.state.tape[1] as int == (a % 256 + b) % 256;
    WrapAdd(a, b);
    assert a + b == tape[1] as int + 8 * k;
  }

  /** Reducing modulo 256 before a further addition changes nothing. */
  lemma WrapAdd(a: int, b: int)
    ensures (a % 256 + b) % 256 == (a + b) % 256
  {
    var q := a / 256;
    assert a == 256 * q + a % 256;
    assert a + b == (a % 256 + b) + 256 * q;
  }

  /** A run that is still going after 5 turns continues from where they end. */
  lemma Through5(p: string, s: State, mid: State, n: nat, m: nat)
    requires Valid(s) && n == m + 5
    requires Run(p, [], s, 5) == Final(Running, mid)
    ensures Run(p, [], s, n) == Run(p, [], mid, m)
  {
    RunThrough(p, [], s, 5, n, mid);
  }

  /** `++++++++[` sets cell 0 to 8 and enters the loop. */
  lemma Prelude(p: string, tape: seq<byte>)
    requires Shaped(p) && |tape| == TAPE_SIZE && tape[0] == 0
    ensures Run(p, [], Initial(tape), 2) == Final(Running, LoopHead(tape[0 := 8]))
  {
    var s0 := Initial(tape);
    assert RunAt(p, 0, '+', 8);
    IncrementRun(p, [], s0, 8);
    var s1 := s0.(pc := 8, tape := tape[0 := 8]);
    assert Step(p, [], s0) == Next(s1);
    OpenPushes(p, [], s1);
    assert Step(p, [], s1) == Next(LoopHead(tape[0 := 8]));
  }

  /** `>.` and the terminator write cell 1 and halt. */
  lemma Postlude(p: string, m: State)
    requires Shaped(p)
    requires Valid(m) && m.pc == 21 && m.ptr == 0 && m.loops == [] && m.nskip == 0 && m.output == []
    ensures Run(p, [], m, 3).status == Halted
    ensures Run(p, [], m, 3).state.output == [m.tape[1]]
  {
    assert RunAt(p, 21, '>', 1);
    MoveRightRun(p, [], m, 1);
    var m1 := m.(pc := 22, ptr := 1);
    var m2 := m1.(pc := 23, output := [m.tape[1]]);
    assert Step(p, [], m1) == Next(m2);
    assert Step(p, [], m2) == Halt;
    assert Run(p, [], m1, 2) == Final(Halted, m2);
  }

  /** Eight passes over a zero cell 1 leave 64 there. */
  lemma EightEights(f: Final, tape: seq<byte>)
    requires |tape| == TAPE_SIZE && tape[1] == 0 && AfterLoop(f, tape, 8)
    ensures f.state.tape[1] == 64
  {
  }

  /** The whole program halts after 45 turns, having written the single byte 64. */
  lemma Multiply(tape: seq<byte>)
    requires |tape| == TAPE_SIZE && tape[0] == 0 && tape[1] == 0
    ensures Run(MULTIPLY, [], Initial(tape), 45).status == Halted
    ensures Run(MULTIPLY, [], Initial(tape), 45).state.output == [64]
  {
    var p := MULTIPLY;
    assert Shaped(p);
    var t := tape[0 := 8];
    Prelude(p, tape);
    RunThrough(p, [], Initial(tape), 2, 45, LoopHead(t));
    MultiplyLoop(p, t, 8);
    var m := Run(p, [], LoopHead(t), 40).state;
    EightEights(Run(p, [], LoopHead(t), 40), t);
    RunThrough(p, [], LoopHead(t), 40, 43, m);
    Postlude(p, m);
  }
}
