/** What the step engine guarantees, stated over `Semantics.Next`. */
module StepFacts {
  import opened Wrappers
  import opened Bytes
  import opened Opcodes
  import opened Screen
  import opened Core
  import opened Semantics
  import opened Isa

  /** `k` consecutive calls of `step`. */
  function Steps(m: Machine, k: nat): (r: Machine)
    requires WellFormed(m)
    ensures WellFormed(r) && |r.ram| == |m.ram|
    decreases k
  {
    if k == 0 then m else Steps(Next(m), k - 1)
  }

  /**
   * While a WAIT is pending, a step only counts `delay` down (clearing `active_delay`
   * when it reaches 0): pc, RAM, scratchpad, display and error are untouched.
   */
  lemma {:induction false} Countdown(m: Machine, j: nat)
    requires WellFormed(m) && j <= m.delay
    ensures Steps(m, j) == m.(delay := m.delay - j, activeDelay := if j == m.delay && j > 0 then 0 else m.activeDelay)
    decreases j
  {
    if j > 0 {
      Countdown(Next(m), j - 1);
    }
  }

  /**
   * `WAIT c` costs exactly c extra steps that dispatch nothing: j steps after the WAIT
   * itself the machine is still at pc + 2 with c - j cycles left, and after c of them
   * the next step executes the following instruction.
   */
  lemma {:induction false} WaitCosts(m: Machine, j: nat)
    requires WellFormed(m) && m.delay == 0 && m.pc + 1 < |m.ram| && m.ram[m.pc] == WAIT
    requires j <= m.ram[m.pc + 1] as nat
    ensures var c := m.ram[m.pc + 1] as nat;
      Steps(m, 1 + j) == m.(pc := m.pc + 2, delay := c - j, activeDelay := if j == c then 0 else c)
  {
    var c := m.ram[m.pc + 1] as nat;
    var w := Next(m);
    assert w == m.(delay := c, activeDelay := c, pc := m.pc + 2);
    Countdown(w, j);
  }

  /** Byte 0x00 halts cleanly: `running` drops, `error` is left as it was, nothing else moves. */
  lemma ZeroHalts(m: Machine)
    requires WellFormed(m) && m.delay == 0 && m.pc < |m.ram| && m.ram[m.pc] == 0
    ensures Next(m) == m.(running := false)
  {
  }

  /** A pc at or past the end of RAM halts with "Program counter out of range" and changes nothing else. */
  lemma PcFault(m: Machine)
    requires WellFormed(m) && m.delay == 0 && m.pc >= |m.ram|
    ensures Next(m) == m.(running := false, error := Some(PcOutOfRange))
  {
  }

  /** The opcodes `step` has a dispatch case for, spelled out as its if-chain tests them. */
  predicate Dispatched(op: byte) {
    op == SET || op == CLEAR || op == WAIT || op == LOOP || op == SETALL || op == SETNONE ||
    op == STORE || op == LOAD || op == JUMP || op == ADD || op == AND || op == OR || op == XOR ||
    op == SUB || op == JUMPIF || op == SCRATCH_STORE || op == SCRATCH_LOAD || op == SCRATCH_ADD ||
    op == SCRATCH_COPY || op == SCRATCH_JUMPIF || op == NOT || op == SHL || op == SHR
  }

  /** Every opcode of the instruction table, and nothing else, has a dispatch case. */
  lemma DispatchCoversTable(op: byte)
    ensures Dispatched(op) <==> op in Instructions
  {
  }

  /**
   * A step reports "Unknown opcode" exactly for the non-zero bytes outside the
   * instruction table; so every opcode the assembler can emit has its dispatch case.
   */
  lemma {:induction false} UnknownOpcodeExactly(m: Machine)
    requires WellFormed(m) && m.delay == 0 && m.pc < |m.ram| && m.error == None
    ensures Next(m).error == Some(UnknownOpcode(m.ram[m.pc])) <==> m.ram[m.pc] != 0 && m.ram[m.pc] !in Instructions
  {
    var op := m.ram[m.pc];
    DispatchCoversTable(op);
    if op == SET || op == CLEAR {
      PaintFaults(m, op);
    } else if Dispatched(op) {
      KnownFaults(m);
    }
  }

  /** The instructions other than SET and CLEAR fail only with an argument or address fault. */
  lemma KnownFaults(m: Machine)
    requires WellFormed(m) && m.delay == 0 && m.pc < |m.ram| && m.error == None
    requires Dispatched(m.ram[m.pc]) && m.ram[m.pc] != SET && m.ram[m.pc] != CLEAR
    ensures var r := Next(m); r.error.Some? ==> r.error.value.ArgumentsOutOfRange? || r.error.value.InvalidAddress?
  {
  }

  /** SET and CLEAR fail only with a fault naming their own opcode, and never an unknown-opcode one. */
  lemma PaintFaults(m: Machine, op: byte)
    requires m.pc < |m.ram|
    ensures var r := Paint(m, op); r.error != m.error ==>
      r.error.Some? && (r.error.value.MissingCount? || r.error.value.IncompletePair? || r.error.value.InvalidCoordinates?) &&
      r.error.value.opcode == op
  {
  }

  /** EP's byte is defined but never assembled; met at run time it is an unknown opcode. */
  lemma EntryByteIsUnknown(m: Machine)
    requires WellFormed(m) && m.delay == 0 && m.pc < |m.ram| && m.ram[m.pc] == EP
    ensures Next(m) == m.(running := false, error := Some(UnknownOpcode(EP)))
  {
  }

  /**
   * A step that runs a well-formed instruction with its operands in range, with no
   * WAIT pending, never faults; unless it branches it moves pc to the byte right after
   * the instruction: 1 to 4 bytes on, or 2 + 2n for SET/CLEAR with n pairs.
   */
  lemma {:induction false} StepAdvances(m: Machine, i: Instr)
    requires WellFormed(m) && m.delay == 0 && m.pc < |m.ram|
    requires Decode(m.ram[m.pc..]) == Some(i) && Fits(i, |m.ram|) && OnScreen(i)
    ensures Next(m).error == m.error && Next(m).running == m.running
    ensures !Branches(i) ==> Next(m).pc == m.pc + Length(i)
  {
    NextExecutes(m, i);
  }

  /** Halted with a fault: `running` off, the fault recorded, and pc and the stores as they were. */
  predicate Frozen(m: Machine, r: Machine) {
    && !r.running && r.error.Some?
    && r.pc == m.pc && r.ram == m.ram && r.scratch == m.scratch && r.saved == m.saved
    && r.delay == m.delay && r.activeDelay == m.activeDelay && r.entryPoint == m.entryPoint
  }

  /**
   * Every error path of `step` halts with the fault recorded and leaves pc, RAM and
   * scratchpad unchanged; only SET and CLEAR can have drawn pixels before failing.
   */
  lemma {:induction false} FaultsFreeze(m: Machine)
    requires WellFormed(m) && m.error == None
    ensures var r := Next(m); r.error.Some? ==> Frozen(m, r)
    ensures var r := Next(m); r.error.Some? && (r.lit != m.lit || r.events != m.events) ==>
      m.pc < |m.ram| && (m.ram[m.pc] == SET || m.ram[m.pc] == CLEAR)
  {
    if m.delay == 0 && m.pc < |m.ram| {
      var op := m.ram[m.pc];
      if op == SET || op == CLEAR {
        NextPaints(m);
      } else {
        FaultsFreezeOthers(m);
      }
    }
  }

  lemma FaultsFreezeOthers(m: Machine)
    requires WellFormed(m) && m.error == None && m.delay == 0 && m.pc < |m.ram|
    requires m.ram[m.pc] != SET && m.ram[m.pc] != CLEAR
    ensures var r := Next(m); r.error.Some? ==> Frozen(m, r) && r.lit == m.lit && r.events == m.events
  {
  }

  /** `step` never reads `running`: the flag only ever goes from on to off. */
  lemma {:induction false} RunningIgnored(m: Machine, b: bool)
    requires WellFormed(m)
    ensures Next(m.(running := b)).(running := false) == Next(m).(running := false)
    ensures Next(m).running ==> m.running
  {
    var m' := m.(running := b);
    if m.delay == 0 && m.pc < |m.ram| {
      var op := m.ram[m.pc];
      if op == SET || op == CLEAR {
        NextPaints(m);
        NextPaints(m');
      } else if op == SCRATCH_STORE || op == SCRATCH_LOAD || op == SCRATCH_ADD || op == SCRATCH_COPY || op == SCRATCH_JUMPIF {
        ScratchIgnoresRunning(m, b);
      } else if op in {ADD, AND, OR, XOR, SUB, NOT, SHL, SHR} {
        AluIgnoresRunning(m, b);
      } else if op in {WAIT, LOOP, JUMP, JUMPIF, STORE, LOAD, SETALL, SETNONE} {
        FlowIgnoresRunning(m, b);
      } else {
        OthersIgnoreRunning(m, b);
      }
    }
  }

  lemma ScratchIgnoresRunning(m: Machine, b: bool)
    requires WellFormed(m) && m.delay == 0 && m.pc < |m.ram|
    requires m.ram[m.pc] in {SCRATCH_STORE, SCRATCH_LOAD, SCRATCH_ADD, SCRATCH_COPY, SCRATCH_JUMPIF}
    ensures Next(m.(running := b)).(running := false) == Next(m).(running := false)
    ensures Next(m).running ==> m.running
  {
  }

  lemma AluIgnoresRunning(m: Machine, b: bool)
    requires WellFormed(m) && m.delay == 0 && m.pc < |m.ram|
    requires m.ram[m.pc] in {ADD, AND, OR, XOR, SUB, NOT, SHL, SHR}
    ensures Next(m.(running := b)).(running := false) == Next(m).(running := false)
    ensures Next(m).running ==> m.running
  {
  }

  lemma FlowIgnoresRunning(m: Machine, b: bool)
    requires WellFormed(m) && m.delay == 0 && m.pc < |m.ram|
    requires m.ram[m.pc] in {WAIT, LOOP, JUMP, JUMPIF, STORE, LOAD, SETALL, SETNONE}
    ensures Next(m.(running := b)).(running := false) == Next(m).(running := false)
    ensures Next(m).running ==> m.running
  {
  }

  lemma OthersIgnoreRunning(m: Machine, b: bool)
    requires WellFormed(m) && m.delay == 0 && m.pc < |m.ram|
    requires m.ram[m.pc] !in {SET, CLEAR, SCRATCH_STORE, SCRATCH_LOAD, SCRATCH_ADD, SCRATCH_COPY, SCRATCH_JUMPIF}
    requires m.ram[m.pc] !in {ADD, AND, OR, XOR, SUB, NOT, SHL, SHR}
    requires m.ram[m.pc] !in {WAIT, LOOP, JUMP, JUMPIF, STORE, LOAD, SETALL, SETNONE}
    ensures Next(m.(running := b)).(running := false) == Next(m).(running := false)
    ensures Next(m).running ==> m.running
  {
  }

  /** LOAD lights pixel (0, 0) exactly when the addressed byte is non-zero; no other pixel changes. */
  lemma LoadLightsOrigin(m: Machine)
    requires WellFormed(m) && m.delay == 0 && m.pc + 1 < |m.ram| && m.ram[m.pc] == LOAD
    requires m.ram[m.pc + 1] as int < |m.ram|
    ensures (0, 0) in Next(m).lit <==> m.ram[m.ram[m.pc + 1]] > 0
    ensures forall p :: p != (0, 0) ==> (p in Next(m).lit <==> p in m.lit)
    ensures Next(m).pc == m.pc + 2 && Next(m).ram == m.ram && Next(m).error == m.error
  {
  }

  /** ADD and SUB wrap modulo 256: SUB borrows 256 when the subtrahend is larger. */
  lemma AluTable(a: byte, b: byte)
    ensures Alu(ADD, a, b) as int == (a as int + b as int) % 256
    ensures Alu(SUB, a, b) as int == (a as int - b as int) % 256
    ensures a < b ==> Alu(SUB, a, b) as int == 256 + a as int - b as int
  {
  }

  /** XOR with the same operand twice gives the first operand back. */
  lemma XorUndoes(a: byte, b: byte)
    ensures Alu(XOR, Alu(XOR, a, b), b) == a
  {
    XorTwice(a as nat, b as nat);
  }

  /** AND keeps only bits both operands have, OR every bit either has. */
  lemma AndOrBounds(a: byte, b: byte)
    ensures Alu(AND, a, b) <= a && Alu(AND, a, b) <= b
    ensures Alu(OR, a, b) >= a && Alu(OR, a, b) >= b
  {
  }

  /** NOT is `255 - a` and undoes itself; SHL doubles modulo 256 and SHR halves. */
  lemma ShiftTable(a: byte)
    ensures Shift(NOT, a) as int == 255 - a as int
    ensures Shift(NOT, Shift(NOT, a)) == a
    ensures Shift(SHL, a) as int == (2 * a as int) % 256
    ensures Shift(SHR, a) as int == a as int / 2
    ensures Shift(SHR, Shift(SHL, a)) as int == a as int % 128
  {
    assert (-(a as int) - 1) % 256 == 255 - a as int;
    var n := Shift(NOT, a);
    assert (-(n as int) - 1) % 256 == 255 - n as int;
  }

  /** A few values worked through: borrow on SUB, the carry lost on SHL, and ADD's wrap. */
  lemma ArithmeticExamples()
    ensures Alu(SUB, 5, 10) == 251
    ensures Shift(SHL, 200) == 144
    ensures Alu(ADD, 255, 255) == 254
    ensures Shift(NOT, 0) == 255
    ensures Alu(XOR, 10, 12) == 6
  {
    AluTable(5, 10);
    AluTable(255, 255);
    ShiftTable(200);
    ShiftTable(0);
  }

  /** ADD, SUB, AND, OR and XOR write `ram[dst]` and nothing else. */
  lemma BinaryWritesDestination(m: Machine)
    requires WellFormed(m) && m.delay == 0 && m.pc + 3 < |m.ram|
    requires m.ram[m.pc] in {ADD, SUB, AND, OR, XOR}
    requires m.ram[m.pc + 1] as int < |m.ram| && m.ram[m.pc + 2] as int < |m.ram| && m.ram[m.pc + 3] as int < |m.ram|
    ensures var a, b, d := m.ram[m.pc + 1], m.ram[m.pc + 2], m.ram[m.pc + 3];
      Next(m) == m.(ram := m.ram[d := Alu(m.ram[m.pc], m.ram[a], m.ram[b])], pc := m.pc + 4)
  {
  }

  /** SCRATCH_STORE, SCRATCH_ADD and SCRATCH_COPY change exactly one scratch cell, then save the scratchpad. */
  lemma ScratchWritesOneCell(m: Machine)
    requires WellFormed(m) && m.delay == 0 && m.pc < |m.ram| && m.error == None
    requires m.ram[m.pc] in {SCRATCH_STORE, SCRATCH_ADD, SCRATCH_COPY}
    ensures var r := Next(m); r.error == None ==>
      var slot := if m.ram[m.pc] == SCRATCH_STORE then m.ram[m.pc + 1]
                  else if m.ram[m.pc] == SCRATCH_ADD then m.ram[m.pc + 3]
                  else m.ram[m.pc + 2];
      && slot as int < SCRATCHPAD_SIZE
      && r.scratch == m.scratch[slot := r.scratch[slot]]
      && r.saved == m.saved + [r.scratch]
      && r.ram == m.ram
  {
  }

  /** SCRATCH_ADD stores the sum of two cells modulo 256. */
  lemma ScratchAddSums(m: Machine)
    requires WellFormed(m) && m.delay == 0 && m.pc + 3 < |m.ram| && m.ram[m.pc] == SCRATCH_ADD
    requires m.ram[m.pc + 1] < 8 && m.ram[m.pc + 2] < 8 && m.ram[m.pc + 3] < 8
    ensures var s1, s2, d := m.ram[m.pc + 1], m.ram[m.pc + 2], m.ram[m.pc + 3];
      Next(m).scratch[d] as int == (m.scratch[s1] as int + m.scratch[s2] as int) % 256
  {
  }

  /** SCRATCH_LOAD changes exactly one RAM cell and leaves the scratchpad alone. */
  lemma ScratchLoadWritesOneCell(m: Machine)
    requires WellFormed(m) && m.delay == 0 && m.pc < |m.ram| && m.error == None
    requires m.ram[m.pc] == SCRATCH_LOAD
    ensures var r := Next(m); r.error == None ==>
      var addr := m.ram[m.pc + 2];
      && addr as int < |m.ram|
      && r.ram == m.ram[addr := m.scratch[m.ram[m.pc + 1]]]
      && r.scratch == m.scratch && r.saved == m.saved
  {
  }

  /** The branches: where JUMP, JUMPIF, SCRATCH_JUMPIF and LOOP send pc when they succeed. */
  lemma BranchTargets(m: Machine)
    requires WellFormed(m) && m.delay == 0 && m.pc < |m.ram| && m.error == None
    ensures var op, r := m.ram[m.pc], Next(m); r.error == None ==>
      && (op == LOOP ==> r.pc == m.entryPoint)
      && (op == JUMP ==> r.pc == m.ram[m.pc + 1] as int)
      && (op == JUMPIF ==> r.pc == if m.ram[m.ram[m.pc + 2]] > 0 then m.ram[m.pc + 1] as int else m.pc + 3)
      && (op == SCRATCH_JUMPIF ==> r.pc == if m.scratch[m.ram[m.pc + 2]] > 0 then m.ram[m.pc + 1] as int else m.pc + 3)
  {
  }

  /**
   * SET/CLEAR draws the pairs before a bad one and then halts: the pixels already
   * drawn stay drawn, pc stays on the instruction, and the fault names the bad pair
   * (off the grid) or says the pair runs past the end of RAM.
   */
  lemma {:induction false} PaintStopsAtBadPair(m: Machine, good: seq<(byte, byte)>)
    requires WellFormed(m) && m.delay == 0 && m.pc + 1 < |m.ram|
    requires m.ram[m.pc] == SET || m.ram[m.pc] == CLEAR
    requires |good| < m.ram[m.pc + 1] as int && m.pc + 2 + 2 * |good| <= |m.ram|
    requires forall j :: 0 <= j < |good| ==> good[j] == (m.ram[m.pc + 2 + 2 * j], m.ram[m.pc + 2 + 2 * j + 1])
    requires forall j :: 0 <= j < |good| ==> good[j].0 < 4 && good[j].1 < 4
    requires var at := m.pc + 2 + 2 * |good|; at + 1 >= |m.ram| || !(m.ram[at] < 4 && m.ram[at + 1] < 4)
    ensures var op, at, on := m.ram[m.pc], m.pc + 2 + 2 * |good|, m.ram[m.pc] == SET;
      var drawn := m.(lit := Painted(m.lit, good, on), events := m.events + Drawn(good, on));
      Next(m) == Halt(drawn, if at + 1 >= |m.ram| then IncompletePair(op) else InvalidCoordinates(op, m.ram[at], m.ram[at + 1]))
  {
    var op := m.ram[m.pc];
    NextPaints(m);
    PairsPrefix(m.ram, m.pc + 2, m.ram[m.pc + 1] as nat, good, op, m.lit, m.events);
  }
}
