/**
 * What one call of `step` (em_instructions.py) does to the machine, as a function of
 * the machine before the call. `Interpreter.Step` is proved to compute exactly this.
 */
module Semantics {
  import opened Wrappers
  import opened Bytes
  import opened Opcodes
  import opened Screen
  import opened Core

  /** The shape every emulator state has: an 8-byte scratchpad. */
  predicate WellFormed(m: Machine) {
    |m.scratch| == SCRATCHPAD_SIZE
  }

  /** An error halt: `running = False` and the diagnostic in `error`. */
  function Halt(m: Machine, f: Fault): Machine {
    m.(running := false, error := Some(f))
  }

  /** One pending WAIT cycle is consumed. */
  function Tick(m: Machine): Machine
    requires m.delay > 0
  {
    var d := m.delay - 1;
    m.(delay := d, activeDelay := if d == 0 then 0 else m.activeDelay)
  }

  /** One step: a WAIT tick, a pc fault, or the instruction at pc. */
  function Next(m: Machine): (r: Machine)
    requires WellFormed(m)
    ensures WellFormed(r) && |r.ram| == |m.ram| && r.entryPoint == m.entryPoint
  {
    if m.delay > 0 then Tick(m)
    else if m.pc >= |m.ram| then Halt(m, PcOutOfRange)
    else Dispatch(m)
  }

  /** The instruction at pc, chosen by its opcode byte. */
  function Dispatch(m: Machine): Machine
    requires WellFormed(m) && m.pc < |m.ram|
  {
    var op := m.ram[m.pc];
    if op == 0 then m.(running := false)
    else if op == SET || op == CLEAR then Paint(m, op)
    else if op == WAIT then Wait(m)
    else if op == LOOP then m.(pc := m.entryPoint)
    else if op == SETALL || op == SETNONE then Fill(m, op == SETALL)
    else if op == STORE then Store(m)
    else if op == LOAD then Load(m)
    else if op == JUMP then Jump(m)
    else if op == ADD || op == AND || op == OR || op == XOR || op == SUB then Binary(m, op)
    else if op == JUMPIF then JumpIf(m)
    else if op == SCRATCH_STORE then ScratchStore(m)
    else if op == SCRATCH_LOAD then ScratchLoad(m)
    else if op == SCRATCH_ADD then ScratchAdd(m)
    else if op == SCRATCH_COPY then ScratchCopy(m)
    else if op == SCRATCH_JUMPIF then ScratchJumpIf(m)
    else if op == NOT || op == SHL || op == SHR then Unary(m, op)
    else Halt(m, UnknownOpcode(op))
  }

  /** Progress of the SET/CLEAR pair loop: the display so far, the read cursor, and a fault if one stopped it. */
  datatype Painting = Painting(lit: set<(int, int)>, events: seq<Event>, cursor: nat, fault: Option<Fault>)

  /** The SET/CLEAR loop over `count` pairs from `at`: each pair is checked, then drawn, in turn. */
  function Pairs(ram: seq<byte>, at: nat, count: nat, op: byte, lit: set<(int, int)>, events: seq<Event>): (r: Painting)
    ensures r.fault.None? ==> r.cursor == at + 2 * count
    ensures r.fault.Some? ==> (r.fault.value.IncompletePair? || r.fault.value.InvalidCoordinates?) && r.fault.value.opcode == op
    decreases count
  {
    if count == 0 then Painting(lit, events, at, None)
    else if at + 1 >= |ram| then Painting(lit, events, at, Some(IncompletePair(op)))
    else
      var x, y := ram[at], ram[at + 1];
      if !(x < 4 && y < 4) then Painting(lit, events, at, Some(InvalidCoordinates(op, x, y)))
      else
        Pairs(ram, at + 2, count - 1, op, Update(lit, x as int, y as int, op == SET),
              events + [PixelUpdate(x as int, y as int, op == SET)])
  }

  /** SET (pixels on) and CLEAR (pixels off): `[op, count, x1, y1, ...]`. */
  function Paint(m: Machine, op: byte): Machine
    requires m.pc < |m.ram|
  {
    var at := m.pc + 1;
    if at >= |m.ram| then Halt(m, MissingCount(op))
    else
      var p := Pairs(m.ram, at + 1, m.ram[at] as nat, op, m.lit, m.events);
      var drawn := m.(lit := p.lit, events := p.events);
      match p.fault
      case Some(f) => Halt(drawn, f)
      case None => drawn.(pc := p.cursor)
  }

  /** The 16 `update_pixel` calls of SETALL/SETNONE, row by row. */
  function Sweep(on: bool): (r: seq<Event>)
    ensures |r| == 16
  {
    seq(16, i requires 0 <= i < 16 => PixelUpdate(i % 4, i / 4, on))
  }

  /** SETALL (on) and SETNONE (off). */
  function Fill(m: Machine, on: bool): Machine {
    m.(lit := if on then m.lit + Grid() else m.lit - Grid(), events := m.events + Sweep(on), pc := m.pc + 1)
  }

  function Wait(m: Machine): Machine
    requires m.pc < |m.ram|
  {
    if m.pc + 1 >= |m.ram| then Halt(m, ArgumentsOutOfRange)
    else
      var cycles := m.ram[m.pc + 1] as nat;
      m.(delay := cycles, activeDelay := cycles, pc := m.pc + 2)
  }

  function Store(m: Machine): Machine {
    if m.pc + 2 >= |m.ram| then Halt(m, ArgumentsOutOfRange)
    else
      var addr, value := m.ram[m.pc + 1], m.ram[m.pc + 2];
      if addr as int < |m.ram| then m.(ram := m.ram[addr := value], pc := m.pc + 3)
      else Halt(m, InvalidAddress(STORE))
  }

  /** LOAD lights pixel (0, 0) exactly when the addressed byte is non-zero. */
  function Load(m: Machine): Machine {
    if m.pc + 1 >= |m.ram| then Halt(m, ArgumentsOutOfRange)
    else
      var addr := m.ram[m.pc + 1];
      if addr as int < |m.ram| then
        var on := m.ram[addr] > 0;
        m.(lit := Update(m.lit, 0, 0, on), events := m.events + [PixelUpdate(0, 0, on)], pc := m.pc + 2)
      else Halt(m, InvalidAddress(LOAD))
  }

  function Jump(m: Machine): Machine {
    if m.pc + 1 >= |m.ram| then Halt(m, ArgumentsOutOfRange)
    else
      var addr := m.ram[m.pc + 1];
      if addr as int < |m.ram| then m.(pc := addr as nat)
      else Halt(m, InvalidAddress(JUMP))
  }

  function JumpIf(m: Machine): Machine {
    if m.pc + 2 >= |m.ram| then Halt(m, ArgumentsOutOfRange)
    else
      var addr, test := m.ram[m.pc + 1], m.ram[m.pc + 2];
      if !(addr as int < |m.ram| && test as int < |m.ram|) then Halt(m, InvalidAddress(JUMPIF))
      else if m.ram[test] > 0 then m.(pc := addr as nat)
      else m.(pc := m.pc + 3)
  }

  /** The two-operand RAM instructions, as Python computes them on ints and masks to a byte. */
  function Alu(op: byte, a: byte, b: byte): byte {
    if op == ADD then Mask(a as int + b as int)
    else if op == SUB then Mask(a as int - b as int)
    else if op == AND then BitAnd(a as nat, b as nat) as byte
    else
      ByteBits(a, b);
      if op == OR then BitOr(a as nat, b as nat) as byte
      else BitXor(a as nat, b as nat) as byte
  }

  /** NOT (`~a & 0xFF`, where `~a == -a - 1`), SHL (`(a << 1) & 0xFF`) and SHR (`a >> 1`). */
  function Shift(op: byte, a: byte): byte {
    if op == NOT then Mask(-(a as int) - 1)
    else if op == SHL then Mask(a as int * 2)
    else (a / 2) as byte
  }

  /** ADD, AND, OR, XOR, SUB: `[op, a, b, dst]`. */
  function Binary(m: Machine, op: byte): Machine {
    if m.pc + 3 >= |m.ram| then Halt(m, ArgumentsOutOfRange)
    else
      var a, b, dst := m.ram[m.pc + 1], m.ram[m.pc + 2], m.ram[m.pc + 3];
      if !(a as int < |m.ram| && b as int < |m.ram| && dst as int < |m.ram|) then Halt(m, InvalidAddress(op))
      else m.(ram := m.ram[dst := Alu(op, m.ram[a], m.ram[b])], pc := m.pc + 4)
  }

  /** NOT, SHL, SHR: `[op, a, dst]`. */
  function Unary(m: Machine, op: byte): Machine {
    if m.pc + 2 >= |m.ram| then Halt(m, ArgumentsOutOfRange)
    else
      var a, dst := m.ram[m.pc + 1], m.ram[m.pc + 2];
      if !(a as int < |m.ram| && dst as int < |m.ram|) then Halt(m, InvalidAddress(op))
      else m.(ram := m.ram[dst := Shift(op, m.ram[a])], pc := m.pc + 3)
  }

  /** The scratchpad after a write, and the image `save_scratchpad` persists right after it. */
  function Saved(m: Machine, scratch: seq<byte>): Machine {
    m.(scratch := scratch, saved := m.saved + [scratch])
  }

  function ScratchStore(m: Machine): Machine
    requires WellFormed(m)
  {
    if m.pc + 2 >= |m.ram| then Halt(m, ArgumentsOutOfRange)
    else
      var s, value := m.ram[m.pc + 1], m.ram[m.pc + 2];
      if s as int < SCRATCHPAD_SIZE then Saved(m, m.scratch[s := value]).(pc := m.pc + 3)
      else Halt(m, InvalidAddress(SCRATCH_STORE))
  }

  function ScratchLoad(m: Machine): Machine
    requires WellFormed(m)
  {
    if m.pc + 2 >= |m.ram| then Halt(m, ArgumentsOutOfRange)
    else
      var s, addr := m.ram[m.pc + 1], m.ram[m.pc + 2];
      if !(s as int < SCRATCHPAD_SIZE && addr as int < |m.ram|) then Halt(m, InvalidAddress(SCRATCH_LOAD))
      else m.(ram := m.ram[addr := m.scratch[s]], pc := m.pc + 3)
  }

  function ScratchAdd(m: Machine): Machine
    requires WellFormed(m)
  {
    if m.pc + 3 >= |m.ram| then Halt(m, ArgumentsOutOfRange)
    else
      var s1, s2, dst := m.ram[m.pc + 1], m.ram[m.pc + 2], m.ram[m.pc + 3];
      if !(s1 as int < SCRATCHPAD_SIZE && s2 as int < SCRATCHPAD_SIZE && dst as int < SCRATCHPAD_SIZE) then
        Halt(m, InvalidAddress(SCRATCH_ADD))
      else Saved(m, m.scratch[dst := Mask(m.scratch[s1] as int + m.scratch[s2] as int)]).(pc := m.pc + 4)
  }

  function ScratchCopy(m: Machine): Machine
    requires WellFormed(m)
  {
    if m.pc + 2 >= |m.ram| then Halt(m, ArgumentsOutOfRange)
    else
      var addr, s := m.ram[m.pc + 1], m.ram[m.pc + 2];
      if !(addr as int < |m.ram| && s as int < SCRATCHPAD_SIZE) then Halt(m, InvalidAddress(SCRATCH_COPY))
      else Saved(m, m.scratch[s := m.ram[addr]]).(pc := m.pc + 3)
  }

  function ScratchJumpIf(m: Machine): Machine
    requires WellFormed(m)
  {
    if m.pc + 2 >= |m.ram| then Halt(m, ArgumentsOutOfRange)
    else
      var addr, s := m.ram[m.pc + 1], m.ram[m.pc + 2];
      if !(addr as int < |m.ram| && s as int < SCRATCHPAD_SIZE) then Halt(m, InvalidAddress(SCRATCH_JUMPIF))
      else if m.scratch[s] > 0 then m.(pc := addr as nat)
      else m.(pc := m.pc + 3)
  }
}
