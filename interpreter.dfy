/**
 * The step engine (em_instructions.py `step`) over the `Emulator` object. Every method
 * here is proved to change the emulator exactly as `Semantics` says.
 */
module Interpreter {
  import opened Wrappers
  import opened Bytes
  import opened Opcodes
  import opened Screen
  import opened Core
  import opened Semantics

  /** Executes one clock tick: a pending WAIT cycle, or the instruction at pc. */
  method Step(e: Emulator)
    requires e.Valid()
    modifies e, e.ram, e.scratchpad, e.display
    ensures e.Valid() && e.ram == old(e.ram) && e.pcToLine == old(e.pcToLine)
    ensures e.State() == Next(old(e.State()))
  {
    if e.delay > 0 {
      e.delay := e.delay - 1;
      if e.delay == 0 {
        e.activeDelay := 0;
      }
      return;
    }
    if e.pc >= e.ramSize {
      e.running := false;
      e.error := Some(PcOutOfRange);
      return;
    }
    var opcode := e.ram[e.pc];
    if opcode == 0 {
      e.running := false;
    } else if opcode == SET || opcode == CLEAR {
      StepPaint(e, opcode);
    } else if opcode == WAIT {
      StepWait(e);
    } else if opcode == LOOP {
      e.pc := e.entryPoint;
    } else if opcode == SETALL || opcode == SETNONE {
      StepFill(e, opcode == SETALL);
    } else if opcode == STORE {
      StepStore(e);
    } else if opcode == LOAD {
      StepLoad(e);
    } else if opcode == JUMP {
      StepJump(e);
    } else if opcode == ADD || opcode == AND || opcode == OR || opcode == XOR || opcode == SUB {
      StepBinary(e, opcode);
    } else if opcode == JUMPIF {
      StepJumpIf(e);
    } else if opcode == SCRATCH_STORE {
      StepScratchStore(e);
    } else if opcode == SCRATCH_LOAD {
      StepScratchLoad(e);
    } else if opcode == SCRATCH_ADD {
      StepScratchAdd(e);
    } else if opcode == SCRATCH_COPY {
      StepScratchCopy(e);
    } else if opcode == SCRATCH_JUMPIF {
      StepScratchJumpIf(e);
    } else if opcode == NOT || opcode == SHL || opcode == SHR {
      StepUnary(e, opcode);
    } else {
      e.running := false;
      e.error := Some(UnknownOpcode(opcode));
    }
  }

  /** SET and CLEAR: reads the pair count, draws the pairs, then halts or moves pc past them. */
  method StepPaint(e: Emulator, op: byte)
    requires e.Valid() && e.pc < e.ramSize
    modifies e, e.display
    ensures e.Valid() && e.ram == old(e.ram) && e.pcToLine == old(e.pcToLine)
    ensures e.State() == Paint(old(e.State()), op)
  {
    var currentPc := e.pc + 1;
    if currentPc >= e.ramSize {
      e.error := Some(MissingCount(op));
      e.running := false;
      return;
    }
    var count := e.ram[currentPc];
    var fault;
    currentPc, fault := DrawPairs(e.display, e.ram, currentPc + 1, count as nat, op);
    if fault.Some? {
      e.error := fault;
      e.running := false;
    } else {
      e.pc := currentPc;
    }
  }

  /** The pair loop of SET and CLEAR: draws pair after pair, stopping at the first pair that is cut off or off the grid. */
  method DrawPairs(d: Display, ram: array<byte>, at: nat, count: nat, op: byte)
    returns (cursor: nat, fault: Option<Fault>)
    modifies d
    ensures Painting(d.lit, d.events, cursor, fault) == Pairs(ram[..], at, count, op, old(d.lit), old(d.events))
  {
    cursor := at;
    fault := None;
    var done := 0;
    while done < count
      invariant 0 <= done <= count
      invariant Pairs(ram[..], at, count, op, old(d.lit), old(d.events))
             == Pairs(ram[..], cursor, count - done, op, d.lit, d.events)
    {
      if cursor + 1 >= ram.Length {
        fault := Some(IncompletePair(op));
        return;
      }
      var x := ram[cursor];
      var y := ram[cursor + 1];
      if !(x < 4 && y < 4) {
        fault := Some(InvalidCoordinates(op, x, y));
        return;
      }
      d.UpdatePixel(x as int, y as int, op == SET);
      cursor := cursor + 2;
      done := done + 1;
    }
  }

  /** SETALL and SETNONE: `update_pixel` on every pixel, row by row. */
  method StepFill(e: Emulator, on: bool)
    requires e.Valid()
    modifies e, e.display
    ensures e.Valid() && e.ram == old(e.ram) && e.pcToLine == old(e.pcToLine)
    ensures e.State() == Fill(old(e.State()), on)
  {
    SweepDisplay(e.display, on);
    e.pc := e.pc + 1;
  }

  /** The nested row/column loop of SETALL and SETNONE. */
  method SweepDisplay(d: Display, on: bool)
    modifies d
    ensures d.lit == if on then old(d.lit) + Grid() else old(d.lit) - Grid()
    ensures d.events == old(d.events) + Sweep(on)
  {
    ghost var lit0, events0 := d.lit, d.events;
    var y := 0;
    while y < 4
      invariant 0 <= y <= 4
      invariant d.lit == Filled(lit0, on, 4 * y)
      invariant d.events == events0 + Sweep(on)[..4 * y]
    {
      var x := 0;
      while x < 4
        invariant 0 <= x <= 4
        invariant d.lit == Filled(lit0, on, 4 * y + x)
        invariant d.events == events0 + Sweep(on)[..4 * y + x]
      {
        FilledStep(lit0, on, x, y);
        d.UpdatePixel(x, y, on);
        x := x + 1;
      }
      y := y + 1;
    }
    assert Sweep(on)[..16] == Sweep(on);
  }

  /** The display after the first `k` pixels of a sweep. */
  ghost function Filled(lit0: set<(int, int)>, on: bool, k: int): set<(int, int)> {
    if on then lit0 + Swept(k) else lit0 - Swept(k)
  }

  lemma FilledStep(lit0: set<(int, int)>, on: bool, x: int, y: int)
    requires 0 <= x < 4 && 0 <= y < 4
    ensures Update(Filled(lit0, on, 4 * y + x), x, y, on) == Filled(lit0, on, 4 * y + x + 1)
    ensures Sweep(on)[..4 * y + x + 1] == Sweep(on)[..4 * y + x] + [PixelUpdate(x, y, on)]
  {
    var k := 4 * y + x;
    assert k % 4 == x && k / 4 == y;
    assert Swept(k + 1) == Swept(k) + {(x, y)};
  }

  method StepWait(e: Emulator)
    requires e.Valid() && e.pc < e.ramSize
    modifies e
    ensures e.Valid() && e.ram == old(e.ram) && e.pcToLine == old(e.pcToLine)
    ensures e.State() == Wait(old(e.State()))
  {
    if e.pc + 1 >= e.ramSize {
      e.running := false;
      e.error := Some(ArgumentsOutOfRange);
      return;
    }
    var cycles := e.ram[e.pc + 1];
    e.delay := cycles as nat;
    e.activeDelay := cycles as nat;
    e.pc := e.pc + 2;
  }

  method StepStore(e: Emulator)
    requires e.Valid()
    modifies e, e.ram
    ensures e.Valid() && e.ram == old(e.ram) && e.pcToLine == old(e.pcToLine)
    ensures e.State() == Store(old(e.State()))
  {
    if e.pc + 2 >= e.ramSize {
      e.running := false;
      e.error := Some(ArgumentsOutOfRange);
      return;
    }
    var addr := e.ram[e.pc + 1];
    var value := e.ram[e.pc + 2];
    if addr as int < e.ramSize {
      e.ram[addr] := value;
    } else {
      e.running := false;
      e.error := Some(InvalidAddress(STORE));
      return;
    }
    e.pc := e.pc + 3;
  }

  method StepLoad(e: Emulator)
    requires e.Valid()
    modifies e, e.display
    ensures e.Valid() && e.ram == old(e.ram) && e.pcToLine == old(e.pcToLine)
    ensures e.State() == Load(old(e.State()))
  {
    if e.pc + 1 >= e.ramSize {
      e.running := false;
      e.error := Some(ArgumentsOutOfRange);
      return;
    }
    var addr := e.ram[e.pc + 1];
    if addr as int < e.ramSize {
      e.display.UpdatePixel(0, 0, e.ram[addr] > 0);
    } else {
      e.running := false;
      e.error := Some(InvalidAddress(LOAD));
      return;
    }
    e.pc := e.pc + 2;
  }

  method StepJump(e: Emulator)
    requires e.Valid()
    modifies e
    ensures e.Valid() && e.ram == old(e.ram) && e.pcToLine == old(e.pcToLine)
    ensures e.State() == Jump(old(e.State()))
  {
    if e.pc + 1 >= e.ramSize {
      e.running := false;
      e.error := Some(ArgumentsOutOfRange);
      return;
    }
    var addr := e.ram[e.pc + 1];
    if addr as int < e.ramSize {
      e.pc := addr as nat;
    } else {
      e.running := false;
      e.error := Some(InvalidAddress(JUMP));
      return;
    }
  }

  method StepBinary(e: Emulator, op: byte)
    requires e.Valid()
    modifies e, e.ram
    ensures e.Valid() && e.ram == old(e.ram) && e.pcToLine == old(e.pcToLine)
    ensures e.State() == Binary(old(e.State()), op)
  {
    if e.pc + 3 >= e.ramSize {
      e.running := false;
      e.error := Some(ArgumentsOutOfRange);
      return;
    }
    var a := e.ram[e.pc + 1];
    var b := e.ram[e.pc + 2];
    var dst := e.ram[e.pc + 3];
    if !(a as int < e.ramSize && b as int < e.ramSize && dst as int < e.ramSize) {
      e.running := false;
      e.error := Some(InvalidAddress(op));
      return;
    }
    e.ram[dst] := Alu(op, e.ram[a], e.ram[b]);
    e.pc := e.pc + 4;
  }

  method StepUnary(e: Emulator, op: byte)
    requires e.Valid()
    modifies e, e.ram
    ensures e.Valid() && e.ram == old(e.ram) && e.pcToLine == old(e.pcToLine)
    ensures e.State() == Unary(old(e.State()), op)
  {
    if e.pc + 2 >= e.ramSize {
      e.running := false;
      e.error := Some(ArgumentsOutOfRange);
      return;
    }
    var a := e.ram[e.pc + 1];
    var dst := e.ram[e.pc + 2];
    if !(a as int < e.ramSize && dst as int < e.ramSize) {
      e.running := false;
      e.error := Some(InvalidAddress(op));
      return;
    }
    e.ram[dst] := Shift(op, e.ram[a]);
    e.pc := e.pc + 3;
  }

  method StepJumpIf(e: Emulator)
    requires e.Valid()
    modifies e
    ensures e.Valid() && e.ram == old(e.ram) && e.pcToLine == old(e.pcToLine)
    ensures e.State() == JumpIf(old(e.State()))
  {
    if e.pc + 2 >= e.ramSize {
      e.running := false;
      e.error := Some(ArgumentsOutOfRange);
      return;
    }
    var addr := e.ram[e.pc + 1];
    var test := e.ram[e.pc + 2];
    if !(addr as int < e.ramSize && test as int < e.ramSize) {
      e.running := false;
      e.error := Some(InvalidAddress(JUMPIF));
      return;
    }
    if e.ram[test] > 0 {
      e.pc := addr as nat;
    } else {
      e.pc := e.pc + 3;
    }
  }

  /** `save_scratchpad`: the current scratchpad image is persisted. */
  method SaveScratchpad(e: Emulator)
    modifies e`saved
    ensures e.saved == old(e.saved) + [e.scratchpad[..]]
  {
    e.saved := e.saved + [e.scratchpad[..]];
  }

  method StepScratchStore(e: Emulator)
    requires e.Valid()
    modifies e, e.scratchpad
    ensures e.Valid() && e.ram == old(e.ram) && e.pcToLine == old(e.pcToLine)
    ensures e.State() == ScratchStore(old(e.State()))
  {
    if e.pc + 2 >= e.ramSize {
      e.running := false;
      e.error := Some(ArgumentsOutOfRange);
      return;
    }
    var s := e.ram[e.pc + 1];
    var value := e.ram[e.pc + 2];
    if s as int < e.scratchpadSize {
      e.scratchpad[s] := value;
      SaveScratchpad(e);
    } else {
      e.running := false;
      e.error := Some(InvalidAddress(SCRATCH_STORE));
      return;
    }
    e.pc := e.pc + 3;
  }

  method StepScratchLoad(e: Emulator)
    requires e.Valid()
    modifies e, e.ram
    ensures e.Valid() && e.ram == old(e.ram) && e.pcToLine == old(e.pcToLine)
    ensures e.State() == ScratchLoad(old(e.State()))
  {
    if e.pc + 2 >= e.ramSize {
      e.running := false;
      e.error := Some(ArgumentsOutOfRange);
      return;
    }
    var s := e.ram[e.pc + 1];
    var addr := e.ram[e.pc + 2];
    if !(s as int < e.scratchpadSize && addr as int < e.ramSize) {
      e.running := false;
      e.error := Some(InvalidAddress(SCRATCH_LOAD));
      return;
    }
    e.ram[addr] := e.scratchpad[s];
    e.pc := e.pc + 3;
  }

  method StepScratchAdd(e: Emulator)
    requires e.Valid()
    modifies e, e.scratchpad
    ensures e.Valid() && e.ram == old(e.ram) && e.pcToLine == old(e.pcToLine)
    ensures e.State() == ScratchAdd(old(e.State()))
  {
    if e.pc + 3 >= e.ramSize {
      e.running := false;
      e.error := Some(ArgumentsOutOfRange);
      return;
    }
    var s1 := e.ram[e.pc + 1];
    var s2 := e.ram[e.pc + 2];
    var dst := e.ram[e.pc + 3];
    if !(s1 as int < e.scratchpadSize && s2 as int < e.scratchpadSize && dst as int < e.scratchpadSize) {
      e.running := false;
      e.error := Some(InvalidAddress(SCRATCH_ADD));
      return;
    }
    e.scratchpad[dst] := Mask(e.scratchpad[s1] as int + e.scratchpad[s2] as int);
    SaveScratchpad(e);
    e.pc := e.pc + 4;
  }

  method StepScratchCopy(e: Emulator)
    requires e.Valid()
    modifies e, e.scratchpad
    ensures e.Valid() && e.ram == old(e.ram) && e.pcToLine == old(e.pcToLine)
    ensures e.State() == ScratchCopy(old(e.State()))
  {
    if e.pc + 2 >= e.ramSize {
      e.running := false;
      e.error := Some(ArgumentsOutOfRange);
      return;
    }
    var addr := e.ram[e.pc + 1];
    var s := e.ram[e.pc + 2];
    if !(addr as int < e.ramSize && s as int < e.scratchpadSize) {
      e.running := false;
      e.error := Some(InvalidAddress(SCRATCH_COPY));
      return;
    }
    e.scratchpad[s] := e.ram[addr];
    SaveScratchpad(e);
    e.pc := e.pc + 3;
  }

  method StepScratchJumpIf(e: Emulator)
    requires e.Valid()
    modifies e
    ensures e.Valid() && e.ram == old(e.ram) && e.pcToLine == old(e.pcToLine)
    ensures e.State() == ScratchJumpIf(old(e.State()))
  {
    if e.pc + 2 >= e.ramSize {
      e.running := false;
      e.error := Some(ArgumentsOutOfRange);
      return;
    }
    var addr := e.ram[e.pc + 1];
    var s := e.ram[e.pc + 2];
    if !(addr as int < e.ramSize && s as int < e.scratchpadSize) {
      e.running := false;
      e.error := Some(InvalidAddress(SCRATCH_JUMPIF));
      return;
    }
    if e.scratchpad[s] > 0 {
      e.pc := addr as nat;
    } else {
      e.pc := e.pc + 3;
    }
  }
}
