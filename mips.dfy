/** The MIPS instructions `bf_compile` (bf_mips.c) emits through DynASM, as an
    abstract instruction list, the instruction groups it emits per operator,
    and a small semantics for the straight-line groups. */
module Mips {
  import opened Brainfuck

  /** The registers the generated code names (bf_mips.c `.define`s). */
  datatype Reg = Zero | V0 | Arg1 | Arg2 | APtr | AState | ATapeBegin | ATapeEnd | ATmp

  /** The fields of `bf_state_t` the code loads through `STATE->`. */
  datatype Field = TapeField | GetChField | PutChField

  /** A branch target: the next local label `1:` (`>1`), or the dynamic pc
      label `=>k`. */
  datatype Target = Forward1 | Pc(id: nat)

  /** One emitted line. `MainLabel` is the global `->bf_main:`, `Prologue` and
      `Epilogue` the two register save/restore macros, `Local1` the local label
      `1:` and `PcLabel(k)` the definition `=>k:`. */
  datatype Instr =
    | MainLabel
    | Prologue
    | Epilogue
    | Addi(rt: Reg, rs: Reg, imm: int)
    | Sub(rd: Reg, rs: Reg, rt: Reg)
    | Bgtz(rs: Reg, target: Target)
    | Blez(rs: Reg, target: Target)
    | Beqz(rs: Reg, target: Target)
    | Bnez(rs: Reg, target: Target)
    | Nop
    | Lb(rt: Reg, offset: int, base: Reg)
    | Sb(rt: Reg, offset: int, base: Reg)
    | Move(rd: Reg, rs: Reg)
    | Lw(rt: Reg, field: Field)
    | Jalr(rs: Reg)
    | Local1
    | PcLabel(id: nat)

  /** Instructions with a delay slot: the four branches and `jalr`. */
  predicate HasDelaySlot(i: Instr) {
    i.Bgtz? || i.Blez? || i.Beqz? || i.Bnez? || i.Jalr?
  }

  /** The instruction at i, if it has a delay slot, is followed by a `nop`. */
  predicate DelaySlotFilledAt(code: seq<Instr>, i: nat)
    requires i < |code|
  {
    HasDelaySlot(code[i]) ==> i + 1 < |code| && code[i + 1] == Nop
  }

  /** Every branch and call is followed by a `nop` in its delay slot. */
  predicate DelaySlotsFilled(code: seq<Instr>) {
    forall i :: 0 <= i < |code| ==> DelaySlotFilledAt(code, i)
  }

  /** The instruction at i, if it is one of the four branches, is followed by a
      `nop` in its delay slot. */
  predicate BranchSlotFilledAt(code: seq<Instr>, i: nat)
    requires i < |code|
  {
    match code[i]
    case Bgtz(_, _) => i + 1 < |code| && code[i + 1] == Nop
    case Blez(_, _) => i + 1 < |code| && code[i + 1] == Nop
    case Beqz(_, _) => i + 1 < |code| && code[i + 1] == Nop
    case Bnez(_, _) => i + 1 < |code| && code[i + 1] == Nop
    case _ => true
  }

  /** Every branch is followed by a `nop` in its delay slot. */
  predicate BranchSlotsFilled(code: seq<Instr>) {
    forall i :: 0 <= i < |code| ==> BranchSlotFilledAt(code, i)
  }

  /** The signed 16-bit immediate field of `addi`. */
  predicate Imm16(x: int) {
    -0x8000 <= x < 0x8000
  }

  /** An instruction whose immediate, if any, fits its field. */
  predicate Encodable(i: Instr) {
    i.Addi? ==> Imm16(i.imm)
  }

  // ---------------------------------------------------------------------
  // The groups bf_compile emits

  /** `->bf_main:`, the prologue, and the set-up of aPtr, aTapeBegin = tape - 1
      and aTapeEnd = tape + TAPE_SIZE - 1. */
  function Header(): seq<Instr> {
    [MainLabel, Prologue, Lw(APtr, TapeField), Addi(ATapeBegin, APtr, -1),
     Addi(ATapeEnd, APtr, TAPE_SIZE - 1)]
  }

  /** A run of n `<`: add `-n%TAPE_SIZE`, and add TAPE_SIZE back unless the
      pointer is still above tape - 1. */
  function LeftGroup(n: nat): seq<Instr> {
    [Addi(APtr, APtr, TruncRem(-(n as int))), Sub(ATmp, APtr, ATapeBegin), Bgtz(ATmp, Forward1), Nop,
     Addi(APtr, APtr, TAPE_SIZE), Local1]
  }

  /** A run of n `>`: add `n%TAPE_SIZE`, and take TAPE_SIZE off unless the
      pointer is still at or below tape + TAPE_SIZE - 1. */
  function RightGroup(n: nat): seq<Instr> {
    [Addi(APtr, APtr, TruncRem(n)), Sub(ATmp, APtr, ATapeEnd), Blez(ATmp, Forward1), Nop,
     Addi(APtr, APtr, -TAPE_SIZE), Local1]
  }

  /** A run of `+` (delta n) or `-` (delta -n): load, add, store the cell. */
  function AddGroup(delta: int): seq<Instr> {
    [Lb(ATmp, 0, APtr), Addi(ATmp, ATmp, delta), Sb(ATmp, 0, APtr)]
  }

  /** `,`: call get_ch(state) and store its result in the cell. `postcall`
      stands for the directive `.nop`, which assembles to nothing, so the store
      lands in the delay slot of `jalr`. */
  function ReadGroup(): seq<Instr> {
    [Move(Arg1, AState), Lw(ATmp, GetChField), Jalr(ATmp), Sb(V0, 0, APtr)]
  }

  /** `.`: call put_ch(state, cell). Here too `postcall` assembles to nothing,
      so the delay slot of `jalr` is the first instruction of what follows. */
  function WriteGroup(): seq<Instr> {
    [Lb(ATmp, 0, APtr), Move(Arg1, AState), Move(Arg2, ATmp), Lw(ATmp, PutChField), Jalr(ATmp)]
  }

  /** The `,` group with a `nop` in the delay slot of its call. */
  function PaddedReadGroup(): seq<Instr> {
    [Move(Arg1, AState), Lw(ATmp, GetChField), Jalr(ATmp), Nop, Sb(V0, 0, APtr)]
  }

  /** The `.` group with a `nop` in the delay slot of its call. */
  function PaddedWriteGroup(): seq<Instr> {
    [Lb(ATmp, 0, APtr), Move(Arg1, AState), Move(Arg2, ATmp), Lw(ATmp, PutChField), Jalr(ATmp), Nop]
  }

  /** `[-]`: store zero in the cell. */
  function ClearGroup(): seq<Instr> {
    [Sb(Zero, 0, APtr)]
  }

  /** An ordinary `[` with label pair (L, L + 1): skip the loop to L + 1 on a
      zero cell, and mark the loop body's entry as L. */
  function OpenGroup(l: nat): seq<Instr> {
    [Lb(ATmp, 0, APtr), Beqz(ATmp, Pc(l + 1)), Nop, PcLabel(l)]
  }

  /** The `]` closing the loop with labels (L, L + 1): jump back to L on a
      nonzero cell, and mark the loop's exit as L + 1. */
  function CloseGroup(l: nat): seq<Instr> {
    [Lb(ATmp, 0, APtr), Bnez(ATmp, Pc(l)), Nop, PcLabel(l + 1)]
  }

  /** The terminator: the epilogue, which returns. */
  function Footer(): seq<Instr> {
    [Epilogue]
  }

  // ---------------------------------------------------------------------
  // The pointer correction as integer functions of the tape offset

  /** Where the emitted `<` group leaves a pointer at offset p after a run of n:
      at most one correction by TAPE_SIZE brings it back onto the tape, at the
      offset (p - n) mod TAPE_SIZE. */
  function LeftWrap(p: int, n: nat): (q: int)
    requires 0 <= p < TAPE_SIZE
    ensures 0 <= q < TAPE_SIZE
    ensures q == (p - n) % TAPE_SIZE
  {
    var moved := p + TruncRem(-(n as int));
    if moved - (-1) > 0 then moved else moved + TAPE_SIZE
  }

  /** Where the emitted `>` group leaves a pointer at offset p after a run of n:
      the offset (p + n) mod TAPE_SIZE, after at most one correction. */
  function RightWrap(p: int, n: nat): (q: int)
    requires 0 <= p < TAPE_SIZE
    ensures 0 <= q < TAPE_SIZE
    ensures q == (p + n) % TAPE_SIZE
  {
    var moved := p + TruncRem(n);
    if moved - (TAPE_SIZE - 1) <= 0 then moved else moved - TAPE_SIZE
  }

  // ---------------------------------------------------------------------
  // A semantics for the straight-line groups

  /** Register contents (r0 reads as zero) and the tape, which starts at
      address `base`. */
  datatype Machine = Machine(v0: int, arg1: int, arg2: int, ptr: int, state: int,
                             begin: int, end: int, tmp: int, base: int, tape: seq<byte>)

  function Get(m: Machine, r: Reg): int {
    match r
    case Zero => 0
    case V0 => m.v0
    case Arg1 => m.arg1
    case Arg2 => m.arg2
    case APtr => m.ptr
    case AState => m.state
    case ATapeBegin => m.begin
    case ATapeEnd => m.end
    case ATmp => m.tmp
  }

  /** Writes to r0 are discarded. */
  function Set(m: Machine, r: Reg, x: int): Machine {
    match r
    case Zero => m
    case V0 => m.(v0 := x)
    case Arg1 => m.(arg1 := x)
    case Arg2 => m.(arg2 := x)
    case APtr => m.(ptr := x)
    case AState => m.(state := x)
    case ATapeBegin => m.(begin := x)
    case ATapeEnd => m.(end := x)
    case ATmp => m.(tmp := x)
  }

  /** `lb` sign-extends the byte it loads. */
  function SignExtend(b: byte): (x: int)
    ensures -128 <= x < 128
    ensures (x - b as int) % 256 == 0
  {
    if b < 128 then b as int else b as int - 256
  }

  /** `sb` stores the low 8 bits of the register. */
  function LowByte(x: int): (b: byte)
    ensures (b as int - x) % 256 == 0
  {
    (x % 256) as byte
  }

  /** A run of the straight-line code ends normally, at a memory access off the
      tape or a missing label or delay slot (Fault), or at an instruction this
      semantics leaves to the host: a call, a state load, a loop branch, the
      prologue or epilogue (Outside). */
  datatype Outcome = Ok(m: Machine) | Fault | Outside

  /** The tape index that `offset(base)` addresses, if it is on the tape. */
  predicate OnTape(m: Machine, addr: int) {
    0 <= addr - m.base < |m.tape|
  }

  /** One instruction without a delay slot. */
  function ExecOne(i: Instr, m: Machine): Outcome {
    match i
    case Addi(rt, rs, imm) => Ok(Set(m, rt, Get(m, rs) + imm))
    case Sub(rd, rs, rt) => Ok(Set(m, rd, Get(m, rs) - Get(m, rt)))
    case Move(rd, rs) => Ok(Set(m, rd, Get(m, rs)))
    case Lb(rt, offset, base) =>
      var addr := Get(m, base) + offset;
      if OnTape(m, addr) then Ok(Set(m, rt, SignExtend(m.tape[addr - m.base]))) else Fault
    case Sb(rt, offset, base) =>
      var addr := Get(m, base) + offset;
      if OnTape(m, addr) then Ok(m.(tape := m.tape[addr - m.base := LowByte(Get(m, rt))])) else Fault
    case Nop => Ok(m)
    case Local1 => Ok(m)
    case PcLabel(_) => Ok(m)
    case MainLabel => Ok(m)
    case _ => Outside
  }

  /** The index of the first local label `1:` in code at or after i, or |code|
      if there is none. */
  function NextLocal(code: seq<Instr>, i: nat): (k: nat)
    requires i <= |code|
    ensures i <= k <= |code|
    ensures k < |code| ==> code[k] == Local1
    ensures forall j :: i <= j < k ==> code[j] != Local1
    decreases |code| - i
  {
    if i == |code| then i
    else if code[i] == Local1 then i
    else NextLocal(code, i + 1)
  }

  /** Runs straight-line code with forward local branches from index i. A
      branch evaluates its condition, executes its delay slot, and if taken
      continues just past the next `1:`. */
  function ExecFrom(code: seq<Instr>, i: nat, m: Machine): Outcome
    decreases |code| - i
  {
    if i >= |code| then Ok(m)
    else if HasDelaySlot(code[i]) then
      if !(code[i].Bgtz? || code[i].Blez?) || code[i].target != Forward1 then Outside
      else if i + 1 == |code| || HasDelaySlot(code[i + 1]) then Fault
      else
        var taken := if code[i].Bgtz? then Get(m, code[i].rs) > 0 else Get(m, code[i].rs) <= 0;
        match ExecOne(code[i + 1], m)
        case Ok(m') =>
          if !taken then ExecFrom(code, i + 2, m')
          else
            var k := NextLocal(code, i + 2);
            if k == |code| then Fault else ExecFrom(code, k + 1, m')
        case Fault => Fault
        case Outside => Outside
    else
      match ExecOne(code[i], m)
      case Ok(m') => ExecFrom(code, i + 1, m')
      case Fault => Fault
      case Outside => Outside
  }

  /** Runs a whole group from its first instruction. */
  function Exec(code: seq<Instr>, m: Machine): Outcome {
    ExecFrom(code, 0, m)
  }

  /** The register roles the groups rely on: aPtr points at tape offset p, and
      aTapeBegin and aTapeEnd hold the addresses the header computed. */
  predicate Pointing(m: Machine, p: int) {
    && |m.tape| == TAPE_SIZE && 0 <= p < TAPE_SIZE && m.ptr == m.base + p
    && m.begin == m.base - 1 && m.end == m.base + TAPE_SIZE - 1
  }

  /** An instruction without a delay slot that runs normally hands on to the
      next one. */
  lemma ExecStep(code: seq<Instr>, i: nat, m: Machine, m': Machine)
    requires i < |code| && !HasDelaySlot(code[i]) && ExecOne(code[i], m) == Ok(m')
    ensures ExecFrom(code, i, m) == ExecFrom(code, i + 1, m')
  {
  }

  /** The last instruction, run normally, ends the code. */
  lemma ExecLast(code: seq<Instr>, m: Machine, m': Machine)
    requires |code| > 0 && !HasDelaySlot(code[|code| - 1]) && ExecOne(code[|code| - 1], m) == Ok(m')
    ensures ExecFrom(code, |code| - 1, m) == Ok(m')
  {
    ExecStep(code, |code| - 1, m, m');
  }

  /** The header's last two instructions, run with aPtr at the start of the
      tape, establish the register roles with the pointer at offset 0. */
  lemma HeaderSetsBounds(code: seq<Instr>, m: Machine)
    requires code == Header() && m.ptr == m.base && |m.tape| == TAPE_SIZE
    ensures ExecFrom(code, 3, m) == Ok(m.(begin := m.base - 1, end := m.base + TAPE_SIZE - 1))
    ensures Pointing(m.(begin := m.base - 1, end := m.base + TAPE_SIZE - 1), 0)
  {
    var m1 := m.(begin := m.base - 1);
    var m2 := m1.(end := m.base + TAPE_SIZE - 1);
    LastTwo(code, 3, m, m1, m2);
  }

  /** Two final instructions without delay slots, run in turn. */
  lemma LastTwo(code: seq<Instr>, i: nat, m: Machine, m1: Machine, m2: Machine)
    requires |code| == i + 2 && !HasDelaySlot(code[i]) && !HasDelaySlot(code[i + 1])
    requires ExecOne(code[i], m) == Ok(m1) && ExecOne(code[i + 1], m1) == Ok(m2)
    ensures ExecFrom(code, i, m) == Ok(m2)
  {
    ExecStep(code, i, m, m1);
    ExecLast(code, m1, m2);
  }

  /** `lb aTMP, 0(aPtr)` loads the current cell, sign-extended. */
  lemma LoadCell(m: Machine, p: int)
    requires Pointing(m, p)
    ensures ExecOne(Lb(ATmp, 0, APtr), m) == Ok(m.(tmp := SignExtend(m.tape[p])))
  {
  }

  /** `sb r, 0(aPtr)` stores the low byte of r into the current cell. */
  lemma StoreCell(m: Machine, p: int, r: Reg)
    requires Pointing(m, p)
    ensures ExecOne(Sb(r, 0, APtr), m) == Ok(m.(tape := m.tape[p := LowByte(Get(m, r))]))
  {
  }

  /** The pointer adjustment and the test that open a pointer group. */
  lemma AdjustAndTest(code: seq<Instr>, m: Machine, step: int, bound: Reg, m2: Machine)
    requires |code| == 6 && code[0] == Addi(APtr, APtr, step) && code[1] == Sub(ATmp, APtr, bound)
    requires bound == ATapeBegin || bound == ATapeEnd
    requires m2 == m.(ptr := m.ptr + step, tmp := m.ptr + step - Get(m, bound))
    ensures ExecFrom(code, 0, m) == ExecFrom(code, 2, m2)
  {
    var m1 := m.(ptr := m.ptr + step);
    assert ExecOne(code[0], m) == Ok(m1);
    ExecStep(code, 0, m, m1);
    assert ExecOne(code[1], m1) == Ok(m2);
    ExecStep(code, 1, m1, m2);
  }

  /** `b >1; nop; fix; 1:` runs `fix` exactly when the branch is not taken. */
  lemma BranchOverCorrection(code: seq<Instr>, m: Machine, fix: Instr, taken: bool)
    requires |code| == 6 && code[3] == Nop && code[4] == fix && code[5] == Local1
    requires code[2] == Bgtz(ATmp, Forward1) || code[2] == Blez(ATmp, Forward1)
    requires taken == if code[2].Bgtz? then m.tmp > 0 else m.tmp <= 0
    requires fix.Addi? && fix.rt == APtr && fix.rs == APtr
    ensures taken ==> ExecFrom(code, 2, m) == Ok(m)
    ensures !taken ==> ExecFrom(code, 2, m) == Ok(m.(ptr := m.ptr + fix.imm))
  {
    if taken {
      assert NextLocal(code, 4) == 5;
      assert ExecFrom(code, 2, m) == ExecFrom(code, 6, m);
    } else {
      var fixed := m.(ptr := m.ptr + fix.imm);
      assert ExecFrom(code, 2, m) == ExecFrom(code, 4, m);
      assert ExecOne(fix, m) == Ok(fixed);
      ExecStep(code, 4, m, fixed);
      ExecLast(code, fixed, fixed);
    }
  }

  /** The `<` group moves the pointer to offset LeftWrap(p, n), that is to
      (p - n) mod TAPE_SIZE, and changes nothing else but the scratch register. */
  lemma LeftGroupMoves(m: Machine, p: int, n: nat)
    requires Pointing(m, p)
    ensures Exec(LeftGroup(n), m).Ok?
    ensures var r := Exec(LeftGroup(n), m).m;
      r == m.(ptr := m.base + LeftWrap(p, n), tmp := r.tmp) && Pointing(r, (p - n) % TAPE_SIZE)
  {
    var code := LeftGroup(n);
    var step := TruncRem(-(n as int));
    var m2 := m.(ptr := m.ptr + step, tmp := m.ptr + step - m.begin);
    AdjustAndTest(code, m, step, ATapeBegin, m2);
    BranchOverCorrection(code, m2, Addi(APtr, APtr, TAPE_SIZE), m2.tmp > 0);
  }

  /** The `>` group moves the pointer to offset RightWrap(p, n), that is to
      (p + n) mod TAPE_SIZE, and changes nothing else but the scratch register. */
  lemma RightGroupMoves(m: Machine, p: int, n: nat)
    requires Pointing(m, p)
    ensures Exec(RightGroup(n), m).Ok?
    ensures var r := Exec(RightGroup(n), m).m;
      r == m.(ptr := m.base + RightWrap(p, n), tmp := r.tmp) && Pointing(r, (p + n) % TAPE_SIZE)
  {
    var code := RightGroup(n);
    var step := TruncRem(n);
    var m2 := m.(ptr := m.ptr + step, tmp := m.ptr + step - m.end);
    AdjustAndTest(code, m, step, ATapeEnd, m2);
    BranchOverCorrection(code, m2, Addi(APtr, APtr, -TAPE_SIZE), m2.tmp <= 0);
  }

  /** The `+`/`-` group adds delta to the current cell modulo 256, although
      `lb` sign-extends, and changes no other cell. */
  lemma AddGroupAdds(m: Machine, p: int, delta: int)
    requires Pointing(m, p)
    ensures Exec(AddGroup(delta), m).Ok?
    ensures var r := Exec(AddGroup(delta), m).m;
      r == m.(tape := m.tape[p := AddCell(m.tape[p], delta)], tmp := r.tmp)
  {
    var code := AddGroup(delta);
    var x := SignExtend(m.tape[p]);
    var m1 := m.(tmp := x);
    var m2 := m1.(tmp := x + delta);
    CongruentLowByte(x, m.tape[p], delta);
    var m3 := m2.(tape := m.tape[p := AddCell(m.tape[p], delta)]);
    LoadCell(m, p);
    ExecStep(code, 0, m, m1);
    assert ExecOne(code[1], m1) == Ok(m2);
    ExecStep(code, 1, m1, m2);
    StoreCell(m2, p, ATmp);
    ExecLast(code, m2, m3);
  }

  /** Storing the low byte of a sign-extended cell plus delta gives AddCell. */
  lemma CongruentLowByte(x: int, cell: byte, delta: int)
    requires x == SignExtend(cell)
    ensures LowByte(x + delta) == AddCell(cell, delta)
  {
    SameLowByte(x + delta, cell as int + delta);
  }

  /** Numbers congruent modulo 256 have the same low byte. */
  lemma SameLowByte(x: int, y: int)
    requires (x - y) % 256 == 0
    ensures LowByte(x) == ((y % 256) as byte)
  {
    var k := (x - y) / 256;
    assert x == y + 256 * k;
    assert (y + 256 * k) % 256 == y % 256;
  }

  /** The `[-]` group clears the current cell and changes nothing else. */
  lemma ClearGroupClears(m: Machine, p: int)
    requires Pointing(m, p)
    ensures Exec(ClearGroup(), m) == Ok(m.(tape := m.tape[p := 0]))
  {
    StoreCell(m, p, Zero);
    assert LowByte(Get(m, Zero)) == 0;
    ExecLast(ClearGroup(), m, m.(tape := m.tape[p := 0]));
  }

  // ---------------------------------------------------------------------
  // The call groups

  /** Runs a call group from index i with the host in the loop: `lw` of a
      state field yields the address `callee`, and `jalr` runs its delay slot
      and then the callee, which returns `ret` in v0. A `jalr` whose delay slot
      lies past the end of the code hands on to what follows (Outside). */
  function ExecCall(code: seq<Instr>, i: nat, m: Machine, callee: int, ret: int): Outcome
    decreases |code| - i
  {
    if i >= |code| then Ok(m)
    else if code[i].Lw? then ExecCall(code, i + 1, Set(m, code[i].rt, callee), callee, ret)
    else if code[i].Jalr? then
      if i + 1 == |code| || HasDelaySlot(code[i + 1]) then Outside
      else
        match ExecOne(code[i + 1], m)
        case Ok(m') => ExecCall(code, i + 2, m'.(v0 := ret), callee, ret)
        case Fault => Fault
        case Outside => Outside
    else if HasDelaySlot(code[i]) then Outside
    else
      match ExecOne(code[i], m)
      case Ok(m') => ExecCall(code, i + 1, m', callee, ret)
      case Fault => Fault
      case Outside => Outside
  }

  /** An ordinary instruction of a call group hands on to the next one. */
  lemma CallStep(code: seq<Instr>, i: nat, m: Machine, m': Machine, callee: int, ret: int)
    requires i < |code| && !HasDelaySlot(code[i]) && !code[i].Lw? && ExecOne(code[i], m) == Ok(m')
    ensures ExecCall(code, i, m, callee, ret) == ExecCall(code, i + 1, m', callee, ret)
  {
  }

  /** `jalr` runs the instruction in its delay slot, then the callee. */
  lemma CallJump(code: seq<Instr>, i: nat, m: Machine, m': Machine, callee: int, ret: int)
    requires i + 1 < |code| && code[i].Jalr? && !HasDelaySlot(code[i + 1]) && ExecOne(code[i + 1], m) == Ok(m')
    ensures ExecCall(code, i, m, callee, ret) == ExecCall(code, i + 2, m'.(v0 := ret), callee, ret)
  {
  }

  /** The `,` group as emitted stores the v0 left over from before the call:
      the store sits in the delay slot of `jalr`, so it runs before get_ch
      returns, and the byte get_ch returns is never stored. */
  lemma ReadStoresStale(code: seq<Instr>, m: Machine, p: int, callee: int, ret: int)
    requires code == ReadGroup() && Pointing(m, p)
    ensures !DelaySlotsFilled(code)
    ensures ExecCall(code, 0, m, callee, ret)
         == Ok(m.(arg1 := m.state, tmp := callee, v0 := ret, tape := m.tape[p := LowByte(m.v0)]))
  {
    assert !DelaySlotFilledAt(code, 2);
    var m1 := m.(arg1 := m.state);
    var m2 := m1.(tmp := callee);
    var m3 := m2.(tape := m.tape[p := LowByte(m.v0)]);
    calc {
      ExecCall(code, 0, m, callee, ret);
      { CallStep(code, 0, m, m1, callee, ret); }
      ExecCall(code, 1, m1, callee, ret);
      ExecCall(code, 2, m2, callee, ret);
      { StoreCell(m2, p, V0); CallJump(code, 2, m2, m3, callee, ret); }
      ExecCall(code, 4, m3.(v0 := ret), callee, ret);
    }
  }

  /** The input that shows it: with 0 in v0 before the call and get_ch
      returning 'A', the cell receives 0 rather than 65. */
  lemma ReadLosesByte(code: seq<Instr>, m: Machine, p: int, callee: int)
    requires code == ReadGroup() && Pointing(m, p) && m.v0 == 0
    ensures ExecCall(code, 0, m, callee, 65).Ok?
    ensures ExecCall(code, 0, m, callee, 65).m.tape[p] == 0
  {
    ReadStoresStale(code, m, p, callee, 65);
  }

  /** The padded call groups fill the delay slots of their calls. */
  lemma PaddedSlotsFilled()
    ensures DelaySlotsFilled(PaddedReadGroup()) && DelaySlotsFilled(PaddedWriteGroup())
  {
  }

  /** With a `nop` in the delay slot, the `,` group stores into the current
      cell the low byte of what get_ch returns, and changes no other cell. */
  lemma PaddedReadStores(code: seq<Instr>, m: Machine, p: int, callee: int, ret: int)
    requires code == PaddedReadGroup() && Pointing(m, p)
    ensures ExecCall(code, 0, m, callee, ret)
         == Ok(m.(arg1 := m.state, tmp := callee, v0 := ret, tape := m.tape[p := LowByte(ret)]))
  {
    var m1 := m.(arg1 := m.state);
    var m2 := m1.(tmp := callee);
    var m3 := m2.(v0 := ret);
    var m4 := m3.(tape := m.tape[p := LowByte(ret)]);
    calc {
      ExecCall(code, 0, m, callee, ret);
      { CallStep(code, 0, m, m1, callee, ret); }
      ExecCall(code, 1, m1, callee, ret);
      ExecCall(code, 2, m2, callee, ret);
      { CallJump(code, 2, m2, m2, callee, ret); }
      ExecCall(code, 4, m3, callee, ret);
      { StoreCell(m3, p, V0); CallStep(code, 4, m3, m4, callee, ret); }
      ExecCall(code, 5, m4, callee, ret);
    }
  }

  /** The `.` group as emitted ends with `jalr`: the instruction in its delay
      slot is the first one of whatever follows the group. */
  lemma WriteSlotOutside(code: seq<Instr>, m: Machine, p: int, callee: int, ret: int)
    requires code == WriteGroup() && Pointing(m, p)
    ensures !DelaySlotsFilled(code)
    ensures ExecCall(code, 0, m, callee, ret) == Outside
  {
    assert !DelaySlotFilledAt(code, 4);
    var x := SignExtend(m.tape[p]);
    var m1 := m.(tmp := x);
    var m2 := m1.(arg1 := m.state);
    var m3 := m2.(arg2 := x);
    calc {
      ExecCall(code, 0, m, callee, ret);
      { LoadCell(m, p); CallStep(code, 0, m, m1, callee, ret); }
      ExecCall(code, 1, m1, callee, ret);
      { CallStep(code, 1, m1, m2, callee, ret); }
      ExecCall(code, 2, m2, callee, ret);
      { CallStep(code, 2, m2, m3, callee, ret); }
      ExecCall(code, 3, m3, callee, ret);
      ExecCall(code, 4, m3.(tmp := callee), callee, ret);
    }
  }

  /** With a `nop` in the delay slot, the `.` group calls put_ch with the
      current cell in arg2, sign-extended (its low byte, which put_ch's
      unsigned char parameter receives, is the cell), and the tape unchanged. */
  lemma PaddedWritePasses(code: seq<Instr>, m: Machine, p: int, callee: int, ret: int)
    requires code == PaddedWriteGroup() && Pointing(m, p)
    ensures ExecCall(code, 0, m, callee, ret)
         == Ok(m.(tmp := callee, arg1 := m.state, arg2 := SignExtend(m.tape[p]), v0 := ret))
  {
    var x := SignExtend(m.tape[p]);
    var m1 := m.(tmp := x);
    var m2 := m1.(arg1 := m.state);
    var m3 := m2.(arg2 := x);
    var m4 := m3.(tmp := callee);
    calc {
      ExecCall(code, 0, m, callee, ret);
      { LoadCell(m, p); CallStep(code, 0, m, m1, callee, ret); }
      ExecCall(code, 1, m1, callee, ret);
      { CallStep(code, 1, m1, m2, callee, ret); }
      ExecCall(code, 2, m2, callee, ret);
      { CallStep(code, 2, m2, m3, callee, ret); }
      ExecCall(code, 3, m3, callee, ret);
      ExecCall(code, 4, m4, callee, ret);
      { CallJump(code, 4, m4, m4, callee, ret); }
      ExecCall(code, 6, m4.(v0 := ret), callee, ret);
    }
  }

  /** The low byte of a sign-extended byte is the byte itself. */
  lemma LowByteOfSignExtend(b: byte)
    ensures LowByte(SignExtend(b)) == b
  {
    CongruentLowByte(SignExtend(b), b, 0);
  }

  /** The pointer groups only use immediates that fit `addi`'s field, for any
      run length; the cell group does exactly when its delta fits. */
  lemma ImmediatesFit(n: nat, delta: int)
    ensures forall i :: 0 <= i < |Header()| ==> Encodable(Header()[i])
    ensures forall i :: 0 <= i < |LeftGroup(n)| ==> Encodable(LeftGroup(n)[i])
    ensures forall i :: 0 <= i < |RightGroup(n)| ==> Encodable(RightGroup(n)[i])
    ensures (forall i :: 0 <= i < |AddGroup(delta)| ==> Encodable(AddGroup(delta)[i])) <==> Imm16(delta)
  {
    assert AddGroup(delta)[1] == Addi(ATmp, ATmp, delta);
  }
}
