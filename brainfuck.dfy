/** The program text, the tape geometry and the diagnostics that the reference
    interpreter (bf_c.c) and the MIPS JIT compiler (bf_mips.c) share. */
module Brainfuck {

  /** Number of cells on the tape (TAPE_SIZE). */
  const TAPE_SIZE: int := 30000

  /** Deepest loop nesting either pass accepts (MAX_NESTING). */
  const MAX_NESTING: int := 100

  /** An unsigned 8-bit tape cell. */
  newtype byte = x: int | 0 <= x < 256

  /** The character the C cursor reads at offset i of a NUL-terminated text:
      past the end of the sequence it reads the terminator. */
  function At(program: string, i: nat): char {
    if i < |program| then program[i] else '\0'
  }

  /** The number of consecutive copies of c starting at offset i: the count the
      `for(n = 1; *program == c; ++n, ++program);` scanners add to the first copy. */
  function RunLength(program: string, i: nat, c: char): (n: nat)
    requires c != '\0'
    ensures forall k :: i <= k < i + n ==> At(program, k) == c
    ensures At(program, i + n) != c
    ensures n > 0 ==> i + n <= |program|
    decreases |program| - i
  {
    if At(program, i) == c then 1 + RunLength(program, i + 1, c) else 0
  }

  /** A run is determined by its two ends: any n with c at every offset of
      [i, i + n) and not at i + n is the run length. */
  lemma {:induction false} RunLengthUnique(program: string, i: nat, c: char, n: nat)
    requires c != '\0'
    requires forall k :: i <= k < i + n ==> At(program, k) == c
    requires At(program, i + n) != c
    ensures RunLength(program, i, c) == n
    decreases n
  {
    if n > 0 {
      RunLengthUnique(program, i + 1, c, n - 1);
    }
  }

  /** The four operators whose runs both passes collapse into one step. */
  predicate IsRunOp(c: char) {
    c == '<' || c == '>' || c == '+' || c == '-'
  }

  /** A maximal run of n copies of c starts at the cursor. */
  predicate RunAt(program: string, pc: nat, c: char, n: nat) {
    && n >= 1
    && (forall k :: pc <= k < pc + n ==> At(program, k) == c)
    && At(program, pc + n) != c
  }

  /** The run-length scanner `for(n = 1; *program == c; ++n, ++program);`, entered
      with the cursor just past the first c: n counts the whole run and the
      cursor ends just past it. */
  method ScanRun(program: string, pc: nat, c: char) returns (n: nat, next: nat)
    requires c != '\0'
    ensures n >= 1 && next == pc + n - 1
    ensures forall k :: pc <= k < next ==> At(program, k) == c
    ensures At(program, next) != c
    ensures n == 1 + RunLength(program, pc, c)
  {
    n, next := 1, pc;
    while At(program, next) == c
      invariant next == pc + n - 1
      invariant forall k :: pc <= k < next ==> At(program, k) == c
      invariant RunLength(program, pc, c) == n - 1 + RunLength(program, next, c)
      decreases |program| - next
    {
      n, next := n + 1, next + 1;
    }
  }

  /** Reduction of a tape index into [0, TAPE_SIZE): the wrap-around both
      passes implement with a compare-and-correct step. */
  function Wrap(x: int): (p: int)
    ensures 0 <= p < TAPE_SIZE
    ensures (p - x) % TAPE_SIZE == 0
  {
    x % TAPE_SIZE
  }

  /** C's `x % TAPE_SIZE` on int: the remainder truncates toward zero, so it
      takes the sign of the dividend (Dafny's own `%` is Euclidean). */
  function TruncRem(a: int): (r: int)
    ensures a >= 0 ==> 0 <= r < TAPE_SIZE
    ensures a < 0 ==> -TAPE_SIZE < r <= 0
    ensures (a - r) % TAPE_SIZE == 0
  {
    if a >= 0 then a % TAPE_SIZE else -((-a) % TAPE_SIZE)
  }

  /** The value an unsigned char holds after `*ptr += n` (or `-= n` with n negated). */
  function AddCell(cell: byte, n: int): (r: byte)
    ensures (r as int - cell as int - n) % 256 == 0
  {
    ((cell as int + n) % 256) as byte
  }

  /** The three `bad_program` reasons. */
  datatype Reason = NestingTooDeep | UnmatchedClose | UnmatchedOpen

  /** The text `bad_program` prints after the context. */
  function Message(r: Reason): string {
    match r
    case NestingTooDeep => "Nesting too deep"
    case UnmatchedClose => "] without matching ["
    case UnmatchedOpen => "[ without matching ]"
  }

  /** Where `bad_program` was called: with the cursor at an offset of the text
      (just past the offending operator), or at the terminator. */
  datatype Context = Cursor(offset: nat) | EndOfText

  /** A rejected program: where it was detected and why. */
  datatype BadProgram = BadProgram(at: Context, reason: Reason)

  /** At most `limit` characters of the text from offset i, stopping at the
      terminator: what `%.16s` prints of the cursor. */
  function Prefix(program: string, i: nat, limit: nat): (s: string)
    ensures |s| <= limit
    ensures forall k :: 0 <= k < |s| ==> s[k] == At(program, i + k) && s[k] != '\0'
    ensures |s| < limit ==> At(program, i + |s|) == '\0'
    decreases limit
  {
    if limit == 0 || At(program, i) == '\0' then ""
    else [At(program, i)] + Prefix(program, i + 1, limit - 1)
  }

  /** The line `bad_program` writes to stderr before `exit`: "bad program near
      %.16s: %s\n", where the context is the text at the cursor, or "<EOF>" for
      a failure at the terminator (bf_c.c and bf_mips.c assign `program = "<EOF>"`). */
  function Diagnostic(program: string, e: BadProgram): (r: string)
    ensures |r| >= 20 + |Message(e.reason)| && r[..17] == "bad program near " && r[|r| - 1] == '\n'
    ensures r[|r| - 3 - |Message(e.reason)|..|r| - 1] == ": " + Message(e.reason)
    ensures r[17..|r| - 3 - |Message(e.reason)|] == match e.at
      case Cursor(i) => Prefix(program, i, 16)
      case EndOfText => "<EOF>"
  {
    var near := match e.at
      case Cursor(i) => Prefix(program, i, 16)
      case EndOfText => "<EOF>";
    var head := "bad program near " + near;
    var tail := ": " + Message(e.reason);
    assert (head + tail + "\n")[..17] == head[..17];
    assert (head + tail + "\n")[|head|..|head| + |tail|] == tail;
    assert (head + tail + "\n")[17..|head|] == near;
    head + tail + "\n"
  }
}
