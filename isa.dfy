/**
 * The instruction set as the assembler and the step engine share it: an instruction
 * datatype, its byte layout (`Encode`/`Decode`) and what it does to the machine
 * (`Execute`), written straight from the instruction table. `NextExecutes` proves the
 * step engine agrees with this table whenever the bytes at pc are a well-formed
 * instruction whose operands are in range.
 */
module Isa {
  import opened Wrappers
  import opened Bytes
  import opened Opcodes
  import opened Screen
  import opened Core
  import opened Semantics

  datatype BinOp = AddOp | SubOp | AndOp | OrOp | XorOp
  datatype UnOp = NotOp | ShlOp | ShrOp

  /** One instruction with its operands; addresses and values are single bytes. */
  datatype Instr =
    | Draw(on: bool, pairs: seq<(byte, byte)>)          // SET (on) / CLEAR (off)
    | WaitFor(cycles: byte)                             // WAIT
    | LoopBack                                          // LOOP
    | FillAll(on: bool)                                 // SETALL (on) / SETNONE (off)
    | StoreAt(addr: byte, value: byte)                  // STORE
    | LoadPixel(addr: byte)                             // LOAD
    | JumpTo(addr: byte)                                // JUMP
    | JumpIfSet(addr: byte, test: byte)                 // JUMPIF
    | Arith(op: BinOp, a: byte, b: byte, dst: byte)     // ADD, SUB, AND, OR, XOR
    | Monadic(uop: UnOp, src: byte, dst: byte)          // NOT, SHL, SHR
    | ScratchPut(slot: byte, value: byte)               // SCRATCH_STORE
    | ScratchGet(slot: byte, addr: byte)                // SCRATCH_LOAD
    | ScratchSum(s1: byte, s2: byte, sdst: byte)        // SCRATCH_ADD
    | ScratchTake(addr: byte, slot: byte)               // SCRATCH_COPY
    | ScratchBranch(addr: byte, slot: byte)             // SCRATCH_JUMPIF

  /** Only the pair count has to fit in its byte. */
  predicate Encodable(i: Instr) {
    i.Draw? ==> |i.pairs| < 256
  }

  function BinOpcode(op: BinOp): byte {
    match op
    case AddOp => ADD
    case SubOp => SUB
    case AndOp => AND
    case OrOp => OR
    case XorOp => XOR
  }

  function UnOpcode(op: UnOp): byte {
    match op
    case NotOp => NOT
    case ShlOp => SHL
    case ShrOp => SHR
  }

  /** The opcode byte an instruction starts with. */
  function OpcodeOf(i: Instr): (op: byte) {
    match i
    case Draw(on, _) => if on then SET else CLEAR
    case WaitFor(_) => WAIT
    case LoopBack => LOOP
    case FillAll(on) => if on then SETALL else SETNONE
    case StoreAt(_, _) => STORE
    case LoadPixel(_) => LOAD
    case JumpTo(_) => JUMP
    case JumpIfSet(_, _) => JUMPIF
    case Arith(op, _, _, _) => BinOpcode(op)
    case Monadic(op, _, _) => UnOpcode(op)
    case ScratchPut(_, _) => SCRATCH_STORE
    case ScratchGet(_, _) => SCRATCH_LOAD
    case ScratchSum(_, _, _) => SCRATCH_ADD
    case ScratchTake(_, _) => SCRATCH_COPY
    case ScratchBranch(_, _) => SCRATCH_JUMPIF
  }

  /** Number of operand bytes after the opcode, for every opcode but SET and CLEAR. */
  function Arity(op: byte): nat {
    if op == WAIT || op == LOAD || op == JUMP then 1
    else if op == STORE || op == JUMPIF || op == NOT || op == SHL || op == SHR then 2
    else if op == SCRATCH_STORE || op == SCRATCH_LOAD || op == SCRATCH_COPY || op == SCRATCH_JUMPIF then 2
    else if op == ADD || op == SUB || op == AND || op == OR || op == XOR || op == SCRATCH_ADD then 3
    else 0
  }

  /** The encoded length: 1, 2, 3 or 4 bytes, and 2 + 2n for SET/CLEAR with n pairs. */
  function Length(i: Instr): nat {
    if i.Draw? then 2 + 2 * |i.pairs| else 1 + Arity(OpcodeOf(i))
  }

  /** `x1, y1, x2, y2, ...` */
  function Flatten(pairs: seq<(byte, byte)>): (r: seq<byte>)
    ensures |r| == 2 * |pairs|
  {
    seq(2 * |pairs|, k requires 0 <= k < 2 * |pairs| => if k % 2 == 0 then pairs[k / 2].0 else pairs[k / 2].1)
  }

  /** The bytes the assembler writes for an instruction: the opcode, then the operands in source order. */
  function Encode(i: Instr): (r: seq<byte>)
    requires Encodable(i)
    ensures |r| == Length(i) && r[0] == OpcodeOf(i)
  {
    var op := OpcodeOf(i);
    match i
    case Draw(_, pairs) => [op, |pairs| as byte] + Flatten(pairs)
    case WaitFor(c) => [op, c]
    case LoopBack => [op]
    case FillAll(_) => [op]
    case StoreAt(a, v) => [op, a, v]
    case LoadPixel(a) => [op, a]
    case JumpTo(a) => [op, a]
    case JumpIfSet(a, t) => [op, a, t]
    case Arith(_, a, b, d) => [op, a, b, d]
    case Monadic(_, a, d) => [op, a, d]
    case ScratchPut(s, v) => [op, s, v]
    case ScratchGet(s, a) => [op, s, a]
    case ScratchSum(s1, s2, d) => [op, s1, s2, d]
    case ScratchTake(a, s) => [op, a, s]
    case ScratchBranch(a, s) => [op, a, s]
  }

  /** The pairs of a SET/CLEAR image: `count` pairs read from offset 2. */
  function PairsAt(b: seq<byte>, count: nat): (r: seq<(byte, byte)>)
    requires 2 + 2 * count <= |b|
    ensures |r| == count
  {
    seq(count, j requires 0 <= j < count => (b[2 + 2 * j], b[3 + 2 * j]))
  }

  /**
   * Reads the instruction the step engine would execute from the bytes at pc; None for
   * a zero byte, an unknown opcode or an image cut off before its last operand.
   */
  function Decode(b: seq<byte>): (r: Option<Instr>)
    ensures r.Some? ==> Encodable(r.value) && Length(r.value) <= |b| && OpcodeOf(r.value) == b[0]
  {
    if b == [] then None
    else
      var op := b[0];
      if op == SET || op == CLEAR then
        if |b| < 2 || |b| < 2 + 2 * b[1] as int then None
        else Some(Draw(op == SET, PairsAt(b, b[1] as nat)))
      else if |b| < 1 + Arity(op) then None
      else if op == WAIT then Some(WaitFor(b[1]))
      else if op == LOOP then Some(LoopBack)
      else if op == SETALL || op == SETNONE then Some(FillAll(op == SETALL))
      else if op == STORE then Some(StoreAt(b[1], b[2]))
      else if op == LOAD then Some(LoadPixel(b[1]))
      else if op == JUMP then Some(JumpTo(b[1]))
      else if op == JUMPIF then Some(JumpIfSet(b[1], b[2]))
      else if op == ADD then Some(Arith(AddOp, b[1], b[2], b[3]))
      else if op == SUB then Some(Arith(SubOp, b[1], b[2], b[3]))
      else if op == AND then Some(Arith(AndOp, b[1], b[2], b[3]))
      else if op == OR then Some(Arith(OrOp, b[1], b[2], b[3]))
      else if op == XOR then Some(Arith(XorOp, b[1], b[2], b[3]))
      else if op == NOT then Some(Monadic(NotOp, b[1], b[2]))
      else if op == SHL then Some(Monadic(ShlOp, b[1], b[2]))
      else if op == SHR then Some(Monadic(ShrOp, b[1], b[2]))
      else if op == SCRATCH_STORE then Some(ScratchPut(b[1], b[2]))
      else if op == SCRATCH_LOAD then Some(ScratchGet(b[1], b[2]))
      else if op == SCRATCH_ADD then Some(ScratchSum(b[1], b[2], b[3]))
      else if op == SCRATCH_COPY then Some(ScratchTake(b[1], b[2]))
      else if op == SCRATCH_JUMPIF then Some(ScratchBranch(b[1], b[2]))
      else None
  }

  /** Decoding undoes encoding, whatever follows the instruction in RAM. */
  lemma {:induction false} DecodeEncode(i: Instr, rest: seq<byte>)
    requires Encodable(i)
    ensures Decode(Encode(i) + rest) == Some(i)
  {
    if i.Draw? {
      DecodeEncodeDraw(i.on, i.pairs, rest);
    } else {
      DecodeEncodeFixed(i, rest);
    }
  }

  lemma {:induction false} DecodeEncodeDraw(on: bool, pairs: seq<(byte, byte)>, rest: seq<byte>)
    requires |pairs| < 256
    ensures Decode(Encode(Draw(on, pairs)) + rest) == Some(Draw(on, pairs))
  {
    var b := Encode(Draw(on, pairs)) + rest;
    var n := |pairs|;
    assert b[0] == if on then SET else CLEAR;
    assert b[1] as nat == n;
    forall j | 0 <= j < n ensures PairsAt(b, n)[j] == pairs[j] {
      assert b[2 + 2 * j] == Flatten(pairs)[2 * j];
      assert b[3 + 2 * j] == Flatten(pairs)[2 * j + 1];
    }
    assert PairsAt(b, n) == pairs;
    assert |b| >= 2 + 2 * b[1] as int;
  }

  lemma DecodeEncodeFixed(i: Instr, rest: seq<byte>)
    requires !i.Draw?
    ensures Decode(Encode(i) + rest) == Some(i)
  {
    if i.WaitFor? || i.LoopBack? || i.FillAll? || i.LoadPixel? || i.JumpTo? {
      DecodeEncodeShort(i, rest);
    } else if i.StoreAt? || i.JumpIfSet? || i.Monadic? {
      DecodeEncodeRam(i, rest);
    } else if i.ScratchPut? || i.ScratchGet? || i.ScratchTake? || i.ScratchBranch? {
      DecodeEncodeScratch(i, rest);
    } else {
      DecodeEncodeLong(i, rest);
    }
  }

  lemma {:induction false} DecodeEncodeShort(i: Instr, rest: seq<byte>)
    requires i.WaitFor? || i.LoopBack? || i.FillAll? || i.LoadPixel? || i.JumpTo?
    ensures Decode(Encode(i) + rest) == Some(i)
  {
    var e := Encode(i);
    var b := e + rest;
    assert b[..|e|] == e;
    assert b[0] == OpcodeOf(i);
  }

  lemma {:induction false} DecodeEncodeRam(i: Instr, rest: seq<byte>)
    requires i.StoreAt? || i.JumpIfSet? || i.Monadic?
    ensures Decode(Encode(i) + rest) == Some(i)
  {
    var e := Encode(i);
    var b := e + rest;
    assert b[..|e|] == e;
    assert b[0] == OpcodeOf(i);
  }

  lemma {:induction false} DecodeEncodeScratch(i: Instr, rest: seq<byte>)
    requires i.ScratchPut? || i.ScratchGet? || i.ScratchTake? || i.ScratchBranch?
    ensures Decode(Encode(i) + rest) == Some(i)
  {
    var e := Encode(i);
    var b := e + rest;
    assert b[..|e|] == e;
    assert b[0] == OpcodeOf(i);
  }

  lemma {:induction false} DecodeEncodeLong(i: Instr, rest: seq<byte>)
    requires i.Arith? || i.ScratchSum?
    ensures Decode(Encode(i) + rest) == Some(i)
  {
    var e := Encode(i);
    var b := e + rest;
    assert b[..|e|] == e;
    assert b[0] == OpcodeOf(i);
  }

  /** Encoding undoes decoding: a decoded instruction is exactly the bytes it was read from. */
  lemma EncodeDecode(b: seq<byte>)
    requires Decode(b).Some?
    ensures Encode(Decode(b).value) == b[..Length(Decode(b).value)]
  {
    var i := Decode(b).value;
    if i.Draw? {
      EncodeDecodeDraw(b, i);
    } else if i.WaitFor? || i.LoopBack? || i.FillAll? || i.LoadPixel? || i.JumpTo? {
      EncodeDecodeShort(b, i);
    } else if i.StoreAt? || i.JumpIfSet? || i.Monadic? {
      EncodeDecodeRam(b, i);
    } else if i.ScratchPut? || i.ScratchGet? || i.ScratchTake? || i.ScratchBranch? {
      EncodeDecodeScratch(b, i);
    } else {
      EncodeDecodeLong(b, i);
    }
  }

  lemma EncodeDecodeDraw(b: seq<byte>, i: Instr)
    requires Decode(b) == Some(i) && i.Draw?
    ensures Encode(i) == b[..Length(i)]
  {
    var n := |i.pairs|;
    DecodedDraw(b, i);
    FlattenPairsAt(b, n);
    assert Encode(i) == [b[0], b[1]] + b[2..2 + 2 * n];
  }

  /** Where a decoded SET/CLEAR took its count and its pairs from. */
  lemma DecodedDraw(b: seq<byte>, i: Instr)
    requires Decode(b) == Some(i) && i.Draw?
    ensures 2 + 2 * |i.pairs| <= |b| && b[1] as nat == |i.pairs| && i.pairs == PairsAt(b, |i.pairs|)
  {
    assert b[0] == SET || b[0] == CLEAR;
  }

  /** Flattening the pairs read from offset 2 gives back the bytes they were read from. */
  lemma FlattenPairsAt(b: seq<byte>, n: nat)
    requires 2 + 2 * n <= |b|
    ensures Flatten(PairsAt(b, n)) == b[2..2 + 2 * n]
  {
    var f := Flatten(PairsAt(b, n));
    forall k | 0 <= k < 2 * n ensures f[k] == b[2 + k] {
      var j := k / 2;
      if k % 2 == 0 {
        assert k == 2 * j;
      } else {
        assert k == 2 * j + 1;
      }
    }
  }

  lemma EncodeDecodeShort(b: seq<byte>, i: Instr)
    requires Decode(b) == Some(i) && (i.WaitFor? || i.LoopBack? || i.FillAll? || i.LoadPixel? || i.JumpTo?)
    ensures Encode(i) == b[..Length(i)]
  {
    var e := Encode(i);
    assert e == b[..|e|];
  }

  lemma EncodeDecodeRam(b: seq<byte>, i: Instr)
    requires Decode(b) == Some(i) && (i.StoreAt? || i.JumpIfSet? || i.Monadic?)
    ensures Encode(i) == b[..Length(i)]
  {
    var e := Encode(i);
    assert e == b[..|e|];
  }

  lemma EncodeDecodeScratch(b: seq<byte>, i: Instr)
    requires Decode(b) == Some(i) && (i.ScratchPut? || i.ScratchGet? || i.ScratchTake? || i.ScratchBranch?)
    ensures Encode(i) == b[..Length(i)]
  {
    var e := Encode(i);
    assert e == b[..|e|];
  }

  lemma EncodeDecodeLong(b: seq<byte>, i: Instr)
    requires Decode(b) == Some(i) && (i.Arith? || i.ScratchSum?)
    ensures Encode(i) == b[..Length(i)]
  {
    var e := Encode(i);
    assert e == b[..|e|];
  }

  /** The operand ranges the assembler checks: RAM addresses below the RAM size, scratch slots below 8. */
  predicate Fits(i: Instr, size: nat) {
    match i
    case StoreAt(a, _) => a as int < size
    case LoadPixel(a) => a as int < size
    case JumpTo(a) => a as int < size
    case JumpIfSet(a, t) => a as int < size && t as int < size
    case Arith(_, a, b, d) => a as int < size && b as int < size && d as int < size
    case Monadic(_, a, d) => a as int < size && d as int < size
    case ScratchPut(s, _) => s as int < SCRATCHPAD_SIZE
    case ScratchGet(s, a) => s as int < SCRATCHPAD_SIZE && a as int < size
    case ScratchSum(s1, s2, d) => s1 as int < SCRATCHPAD_SIZE && s2 as int < SCRATCHPAD_SIZE && d as int < SCRATCHPAD_SIZE
    case ScratchTake(a, s) => a as int < size && s as int < SCRATCHPAD_SIZE
    case ScratchBranch(a, s) => a as int < size && s as int < SCRATCHPAD_SIZE
    case _ => true
  }

  /** How the assembler treats an operand: a RAM address, a scratchpad slot, or a plain value. */
  datatype Operand = RamAddress | ScratchAddress | Value

  /** The operands of each fixed-length instruction, in source and byte order. */
  function Kinds(op: byte): (r: seq<Operand>)
    ensures op != SET && op != CLEAR ==> |r| == Arity(op)
  {
    if op == WAIT then [Value]
    else if op == LOAD || op == JUMP then [RamAddress]
    else if op == STORE then [RamAddress, Value]
    else if op == JUMPIF || op == NOT || op == SHL || op == SHR then [RamAddress, RamAddress]
    else if op == SCRATCH_STORE then [ScratchAddress, Value]
    else if op == SCRATCH_LOAD then [ScratchAddress, RamAddress]
    else if op == SCRATCH_COPY || op == SCRATCH_JUMPIF then [RamAddress, ScratchAddress]
    else if op == ADD || op == SUB || op == AND || op == OR || op == XOR then [RamAddress, RamAddress, RamAddress]
    else if op == SCRATCH_ADD then [ScratchAddress, ScratchAddress, ScratchAddress]
    else []
  }

  /** The assembler's range test: `addr >= ram_size` and `scratch_addr >= scratchpad_size` are rejected. */
  predicate InRange(kind: Operand, v: int, size: nat) {
    match kind
    case RamAddress => v < size
    case ScratchAddress => v < SCRATCHPAD_SIZE
    case Value => true
  }

  /** An instruction whose operands pass the assembler's range tests fits a RAM of that size. */
  lemma FitsByKinds(i: Instr, size: nat)
    requires !i.Draw?
    requires forall j :: 0 <= j < |Kinds(OpcodeOf(i))| ==> InRange(Kinds(OpcodeOf(i))[j], Encode(i)[j + 1] as int, size)
    ensures Fits(i, size)
  {
    var ks, e := Kinds(OpcodeOf(i)), Encode(i);
    if |ks| >= 1 { assert InRange(ks[0], e[1] as int, size); }
    if |ks| >= 2 { assert InRange(ks[1], e[2] as int, size); }
    if |ks| >= 3 { assert InRange(ks[2], e[3] as int, size); }
  }

  /** SET/CLEAR coordinates are only checked when the instruction runs: each must be below 4. */
  predicate OnScreen(i: Instr) {
    i.Draw? ==> forall j :: 0 <= j < |i.pairs| ==> i.pairs[j].0 < 4 && i.pairs[j].1 < 4
  }

  /** Instructions that choose the next pc themselves instead of falling through. */
  predicate Branches(i: Instr) {
    i.LoopBack? || i.JumpTo? || i.JumpIfSet? || i.ScratchBranch?
  }

  /** The two-operand operations as the instruction table defines them on 0..255. */
  function Apply(op: BinOp, x: byte, y: byte): (r: byte) {
    match op
    case AddOp => ((x as int + y as int) % 256) as byte
    case SubOp => ((x as int - y as int) % 256) as byte
    case AndOp => BitAnd(x as nat, y as nat) as byte
    case OrOp => ByteBits(x, y); BitOr(x as nat, y as nat) as byte
    case XorOp => ByteBits(x, y); BitXor(x as nat, y as nat) as byte
  }

  /** NOT is `255 - x`, SHL doubles modulo 256, SHR halves. */
  function Apply1(op: UnOp, x: byte): (r: byte) {
    match op
    case NotOp => (255 - x as int) as byte
    case ShlOp => ((2 * x as int) % 256) as byte
    case ShrOp => (x as int / 2) as byte
  }

  /** The display after drawing `pairs` in order. */
  function Painted(lit: set<(int, int)>, pairs: seq<(byte, byte)>, on: bool): set<(int, int)>
    decreases |pairs|
  {
    if pairs == [] then lit
    else Painted(Update(lit, pairs[0].0 as int, pairs[0].1 as int, on), pairs[1..], on)
  }

  /** The `update_pixel` calls drawing `pairs` makes. */
  function Drawn(pairs: seq<(byte, byte)>, on: bool): (r: seq<Event>)
    ensures |r| == |pairs|
  {
    seq(|pairs|, j requires 0 <= j < |pairs| => PixelUpdate(pairs[j].0 as int, pairs[j].1 as int, on))
  }

  /**
   * What an instruction does when it runs normally: it never halts and never touches
   * `error`, and every instruction that does not branch moves pc past its own bytes.
   */
  function Execute(i: Instr, m: Machine): (r: Machine)
    requires WellFormed(m) && Fits(i, |m.ram|)
    ensures r.running == m.running && r.error == m.error && r.entryPoint == m.entryPoint
    ensures |r.ram| == |m.ram| && WellFormed(r)
    ensures !Branches(i) ==> r.pc == m.pc + Length(i)
  {
    match i
    case Draw(_, _) => ExecuteDisplay(i, m)
    case FillAll(_) => ExecuteDisplay(i, m)
    case LoadPixel(_) => ExecuteDisplay(i, m)
    case ScratchPut(_, _) => ExecuteScratch(i, m)
    case ScratchGet(_, _) => ExecuteScratch(i, m)
    case ScratchSum(_, _, _) => ExecuteScratch(i, m)
    case ScratchTake(_, _) => ExecuteScratch(i, m)
    case ScratchBranch(_, _) => ExecuteScratch(i, m)
    case WaitFor(c) => m.(delay := c as nat, activeDelay := c as nat, pc := m.pc + 2)
    case LoopBack => m.(pc := m.entryPoint)
    case StoreAt(a, v) => m.(ram := m.ram[a := v], pc := m.pc + 3)
    case JumpTo(a) => m.(pc := a as nat)
    case JumpIfSet(a, t) => m.(pc := if m.ram[t] != 0 then a as nat else m.pc + 3)
    case Arith(op, a, b, d) => m.(ram := m.ram[d := Apply(op, m.ram[a], m.ram[b])], pc := m.pc + 4)
    case Monadic(op, a, d) => m.(ram := m.ram[d := Apply1(op, m.ram[a])], pc := m.pc + 3)
  }

  /** The instructions that only change the display: SET/CLEAR, SETALL/SETNONE and LOAD. */
  function ExecuteDisplay(i: Instr, m: Machine): (r: Machine)
    requires WellFormed(m) && Fits(i, |m.ram|) && (i.Draw? || i.FillAll? || i.LoadPixel?)
    ensures r.running == m.running && r.error == m.error && r.entryPoint == m.entryPoint
    ensures r.ram == m.ram && r.scratch == m.scratch && r.pc == m.pc + Length(i)
  {
    match i
    case Draw(on, pairs) =>
      m.(lit := Painted(m.lit, pairs, on), events := m.events + Drawn(pairs, on), pc := m.pc + 2 + 2 * |pairs|)
    case FillAll(on) =>
      m.(lit := if on then m.lit + Grid() else m.lit - Grid(), events := m.events + Sweep(on), pc := m.pc + 1)
    case LoadPixel(a) =>
      var on := m.ram[a] != 0;
      m.(lit := Update(m.lit, 0, 0, on), events := m.events + [PixelUpdate(0, 0, on)], pc := m.pc + 2)
  }

  /** The scratchpad instructions; the three that write the scratchpad save a snapshot of it. */
  function ExecuteScratch(i: Instr, m: Machine): (r: Machine)
    requires WellFormed(m) && Fits(i, |m.ram|)
    requires i.ScratchPut? || i.ScratchGet? || i.ScratchSum? || i.ScratchTake? || i.ScratchBranch?
    ensures r.running == m.running && r.error == m.error && r.entryPoint == m.entryPoint
    ensures |r.ram| == |m.ram| && WellFormed(r) && r.lit == m.lit && r.events == m.events
    ensures !Branches(i) ==> r.pc == m.pc + Length(i)
  {
    match i
    case ScratchPut(s, v) =>
      var sp := m.scratch[s := v];
      m.(scratch := sp, saved := m.saved + [sp], pc := m.pc + 3)
    case ScratchGet(s, a) => m.(ram := m.ram[a := m.scratch[s]], pc := m.pc + 3)
    case ScratchSum(s1, s2, d) =>
      var sp := m.scratch[d := ((m.scratch[s1] as int + m.scratch[s2] as int) % 256) as byte];
      m.(scratch := sp, saved := m.saved + [sp], pc := m.pc + 4)
    case ScratchTake(a, s) =>
      var sp := m.scratch[s := m.ram[a]];
      m.(scratch := sp, saved := m.saved + [sp], pc := m.pc + 3)
    case ScratchBranch(a, s) => m.(pc := if m.scratch[s] != 0 then a as nat else m.pc + 3)
  }

  lemma AluAgrees(op: BinOp, x: byte, y: byte)
    ensures Alu(BinOpcode(op), x, y) == Apply(op, x, y)
  {
  }

  lemma ShiftAgrees(op: UnOp, x: byte)
    ensures Shift(UnOpcode(op), x) == Apply1(op, x)
  {
    if op == NotOp {
      assert (-(x as int) - 1) % 256 == 255 - x as int;
    }
  }

  /**
   * The SET/CLEAR loop over a run of pairs that are present and on the grid draws
   * them in order and carries on after them with the remaining count.
   */
  lemma {:induction false} PairsPrefix(ram: seq<byte>, at: nat, count: nat, pairs: seq<(byte, byte)>, op: byte,
                                       lit: set<(int, int)>, events: seq<Event>)
    requires |pairs| <= count && at + 2 * |pairs| <= |ram|
    requires forall j :: 0 <= j < |pairs| ==> pairs[j] == (ram[at + 2 * j], ram[at + 2 * j + 1])
    requires forall j :: 0 <= j < |pairs| ==> pairs[j].0 < 4 && pairs[j].1 < 4
    ensures Pairs(ram, at, count, op, lit, events)
         == Pairs(ram, at + 2 * |pairs|, count - |pairs|, op, Painted(lit, pairs, op == SET), events + Drawn(pairs, op == SET))
    decreases |pairs|
  {
    if pairs != [] {
      var on := op == SET;
      var x, y := pairs[0].0, pairs[0].1;
      var lit' := Update(lit, x as int, y as int, on);
      var events' := events + [PixelUpdate(x as int, y as int, on)];
      PairsTail(ram, at, pairs);
      PairsStep(ram, at, count, op, lit, events);
      PairsPrefix(ram, at + 2, count - 1, pairs[1..], op, lit', events');
      assert Painted(lit, pairs, on) == Painted(lit', pairs[1..], on);
      DrawnFirst(pairs, on, events);
    } else {
      assert events + Drawn(pairs, op == SET) == events;
    }
  }

  /** One round of the SET/CLEAR loop over a pair that is present and on the grid. */
  lemma PairsStep(ram: seq<byte>, at: nat, count: nat, op: byte, lit: set<(int, int)>, events: seq<Event>)
    requires 0 < count && at + 1 < |ram| && ram[at] < 4 && ram[at + 1] < 4
    ensures var x, y := ram[at] as int, ram[at + 1] as int;
      Pairs(ram, at, count, op, lit, events)
      == Pairs(ram, at + 2, count - 1, op, Update(lit, x, y, op == SET), events + [PixelUpdate(x, y, op == SET)])
  {
  }

  /** The first pair sits at `at`, the others from `at + 2` on. */
  lemma PairsTail(ram: seq<byte>, at: nat, pairs: seq<(byte, byte)>)
    requires pairs != [] && at + 2 * |pairs| <= |ram|
    requires forall j :: 0 <= j < |pairs| ==> pairs[j] == (ram[at + 2 * j], ram[at + 2 * j + 1])
    requires forall j :: 0 <= j < |pairs| ==> pairs[j].0 < 4 && pairs[j].1 < 4
    ensures pairs[0] == (ram[at], ram[at + 1]) && pairs[0].0 < 4 && pairs[0].1 < 4
    ensures forall j :: 0 <= j < |pairs[1..]| ==> pairs[1..][j] == (ram[at + 2 + 2 * j], ram[at + 2 + 2 * j + 1])
    ensures forall j :: 0 <= j < |pairs[1..]| ==> pairs[1..][j].0 < 4 && pairs[1..][j].1 < 4
  {
    assert pairs[0] == (ram[at + 2 * 0], ram[at + 2 * 0 + 1]);
    forall j | 0 <= j < |pairs[1..]|
      ensures pairs[1..][j] == (ram[at + 2 + 2 * j], ram[at + 2 + 2 * j + 1])
      ensures pairs[1..][j].0 < 4 && pairs[1..][j].1 < 4
    {
      assert pairs[1..][j] == pairs[j + 1];
      assert at + 2 * (j + 1) == at + 2 + 2 * j;
    }
  }

  /** Drawing a run of pairs is drawing its first pair, then the rest. */
  lemma DrawnFirst(pairs: seq<(byte, byte)>, on: bool, events: seq<Event>)
    requires pairs != []
    ensures events + Drawn(pairs, on)
         == (events + [PixelUpdate(pairs[0].0 as int, pairs[0].1 as int, on)]) + Drawn(pairs[1..], on)
  {
    var d := Drawn(pairs, on);
    assert d == [d[0]] + d[1..];
    assert d[1..] == Drawn(pairs[1..], on);
  }

  /** With every pair present and on the grid, the loop draws all of them and stops right after the last. */
  lemma {:induction false} PairsDrawAll(ram: seq<byte>, at: nat, pairs: seq<(byte, byte)>, op: byte,
                                        lit: set<(int, int)>, events: seq<Event>)
    requires at + 2 * |pairs| <= |ram|
    requires forall j :: 0 <= j < |pairs| ==> pairs[j] == (ram[at + 2 * j], ram[at + 2 * j + 1])
    requires forall j :: 0 <= j < |pairs| ==> pairs[j].0 < 4 && pairs[j].1 < 4
    ensures Pairs(ram, at, |pairs|, op, lit, events)
         == Painting(Painted(lit, pairs, op == SET), events + Drawn(pairs, op == SET), at + 2 * |pairs|, None)
  {
    PairsPrefix(ram, at, |pairs|, pairs, op, lit, events);
  }

  /**
   * The step engine executes the instruction table: with no WAIT pending, when the
   * bytes at pc decode to an instruction whose operands are in range (and whose pixels
   * are on the 4x4 grid), one step is exactly `Execute`.
   */
  lemma {:induction false} NextExecutes(m: Machine, i: Instr)
    requires WellFormed(m) && m.delay == 0 && m.pc < |m.ram|
    requires Decode(m.ram[m.pc..]) == Some(i)
    requires Fits(i, |m.ram|) && OnScreen(i)
    ensures Next(m) == Execute(i, m)
  {
    var b := m.ram[m.pc..];
    EncodeDecode(b);
    assert b[..Length(i)] == m.ram[m.pc..m.pc + Length(i)];
    match i {
      case Draw(_, _) => NextDraws(m, i);
      case Arith(_, _, _, _) => NextComputes(m, i);
      case Monadic(_, _, _) => NextComputes(m, i);
      case StoreAt(_, _) => NextComputes(m, i);
      case ScratchPut(_, _) => NextUsesScratch(m, i);
      case ScratchGet(_, _) => NextUsesScratch(m, i);
      case ScratchSum(_, _, _) => NextUsesScratch(m, i);
      case ScratchTake(_, _) => NextUsesScratch(m, i);
      case ScratchBranch(_, _) => NextUsesScratch(m, i);
      case _ => NextControls(m, i);
    }
  }

  /** What every per-instruction agreement lemma starts from: no WAIT pending, `i` stored at pc and in range. */
  predicate Ready(m: Machine, i: Instr) {
    WellFormed(m) && m.delay == 0 && Encodable(i) && Stored(m, i) && Fits(i, |m.ram|)
  }

  /** The encoding of `i` sits in RAM at pc. */
  predicate Stored(m: Machine, i: Instr)
    requires Encodable(i)
  {
    m.pc + Length(i) <= |m.ram| && m.ram[m.pc..m.pc + Length(i)] == Encode(i)
  }

  /** The RAM bytes at pc of a stored instruction, once its encoding is known. */
  lemma StoredAs(m: Machine, i: Instr, bytes: seq<byte>)
    requires Encodable(i) && Stored(m, i) && Encode(i) == bytes
    ensures m.pc + |bytes| <= |m.ram| && m.ram[m.pc..m.pc + |bytes|] == bytes
  {
  }

  lemma {:induction false} NextDraws(m: Machine, i: Instr)
    requires WellFormed(m) && m.delay == 0
    requires i.Draw? && Encodable(i) && Stored(m, i) && OnScreen(i)
    ensures Next(m) == Execute(i, m)
  {
    var n := |i.pairs|;
    var op := m.ram[m.pc];
    StoredPairs(m, i);
    NextPaints(m);
    PairsDrawAll(m.ram, m.pc + 2, i.pairs, op, m.lit, m.events);
  }

  /** Where the pairs of a stored SET/CLEAR sit in RAM. */
  lemma StoredPairs(m: Machine, i: Instr)
    requires i.Draw? && Encodable(i) && Stored(m, i)
    ensures m.ram[m.pc] == (if i.on then SET else CLEAR) && m.ram[m.pc + 1] as nat == |i.pairs|
    ensures forall j :: 0 <= j < |i.pairs| ==> i.pairs[j] == (m.ram[m.pc + 2 + 2 * j], m.ram[m.pc + 2 + 2 * j + 1])
  {
    var e := Encode(i);
    assert m.ram[m.pc] == e[0] && m.ram[m.pc + 1] == e[1];
    forall j | 0 <= j < |i.pairs| ensures i.pairs[j] == (m.ram[m.pc + 2 + 2 * j], m.ram[m.pc + 2 + 2 * j + 1]) {
      assert e[2 + 2 * j] == Flatten(i.pairs)[2 * j];
      assert e[3 + 2 * j] == Flatten(i.pairs)[2 * j + 1];
    }
  }

  lemma NextPaints(m: Machine)
    requires WellFormed(m) && m.delay == 0 && m.pc < |m.ram| && (m.ram[m.pc] == SET || m.ram[m.pc] == CLEAR)
    ensures Next(m) == Paint(m, m.ram[m.pc])
  {
  }

  /** STORE and the arithmetic instructions. */
  lemma NextComputes(m: Machine, i: Instr)
    requires Ready(m, i) && (i.StoreAt? || i.Arith? || i.Monadic?)
    ensures Next(m) == Execute(i, m)
  {
    match i {
      case StoreAt(a, v) =>
        StoredAs(m, i, [STORE, a, v]);
        NextStore(m, a, v);
      case Arith(op, a, b, d) =>
        StoredAs(m, i, [BinOpcode(op), a, b, d]);
        NextArith(m, op, a, b, d);
      case Monadic(op, a, d) =>
        StoredAs(m, i, [UnOpcode(op), a, d]);
        NextMonadic(m, op, a, d);
    }
  }

  lemma NextStore(m: Machine, a: byte, v: byte)
    requires WellFormed(m) && m.delay == 0 && m.pc + 3 <= |m.ram| && m.ram[m.pc..m.pc + 3] == [STORE, a, v]
    requires a as int < |m.ram|
    ensures Next(m) == Execute(StoreAt(a, v), m)
  {
    assert m.ram[m.pc] == STORE && m.ram[m.pc + 1] == a && m.ram[m.pc + 2] == v;
    assert Next(m) == Store(m);
  }

  lemma NextArith(m: Machine, op: BinOp, a: byte, b: byte, d: byte)
    requires WellFormed(m) && m.delay == 0 && m.pc + 4 <= |m.ram| && m.ram[m.pc..m.pc + 4] == [BinOpcode(op), a, b, d]
    requires a as int < |m.ram| && b as int < |m.ram| && d as int < |m.ram|
    ensures Next(m) == Execute(Arith(op, a, b, d), m)
  {
    var w := m.ram[m.pc..m.pc + 4];
    assert w[0] == BinOpcode(op) && w[1] == a && w[2] == b && w[3] == d;
    assert m.ram[m.pc] == w[0] && m.ram[m.pc + 1] == w[1] && m.ram[m.pc + 2] == w[2] && m.ram[m.pc + 3] == w[3];
    AluAgrees(op, m.ram[a], m.ram[b]);
    assert Next(m) == Binary(m, BinOpcode(op));
  }

  lemma NextMonadic(m: Machine, op: UnOp, a: byte, d: byte)
    requires WellFormed(m) && m.delay == 0 && m.pc + 3 <= |m.ram| && m.ram[m.pc..m.pc + 3] == [UnOpcode(op), a, d]
    requires a as int < |m.ram| && d as int < |m.ram|
    ensures Next(m) == Execute(Monadic(op, a, d), m)
  {
    var w := m.ram[m.pc..m.pc + 3];
    assert w[0] == UnOpcode(op) && w[1] == a && w[2] == d;
    assert m.ram[m.pc] == w[0] && m.ram[m.pc + 1] == w[1] && m.ram[m.pc + 2] == w[2];
    ShiftAgrees(op, m.ram[a]);
    assert Next(m) == Unary(m, UnOpcode(op));
  }

  /** The five scratchpad instructions. */
  lemma NextUsesScratch(m: Machine, i: Instr)
    requires Ready(m, i)
    requires i.ScratchPut? || i.ScratchGet? || i.ScratchSum? || i.ScratchTake? || i.ScratchBranch?
    ensures Next(m) == Execute(i, m)
  {
    match i {
      case ScratchPut(s, v) =>
        StoredAs(m, i, [SCRATCH_STORE, s, v]);
        NextScratchPut(m, s, v);
      case ScratchGet(s, a) =>
        StoredAs(m, i, [SCRATCH_LOAD, s, a]);
        NextScratchGet(m, s, a);
      case ScratchSum(s1, s2, d) =>
        StoredAs(m, i, [SCRATCH_ADD, s1, s2, d]);
        NextScratchSum(m, s1, s2, d);
      case ScratchTake(a, s) =>
        StoredAs(m, i, [SCRATCH_COPY, a, s]);
        NextScratchTake(m, a, s);
      case ScratchBranch(a, s) =>
        StoredAs(m, i, [SCRATCH_JUMPIF, a, s]);
        NextScratchBranch(m, a, s);
    }
  }

  lemma NextScratchPut(m: Machine, s: byte, v: byte)
    requires WellFormed(m) && m.delay == 0 && m.pc + 3 <= |m.ram| && m.ram[m.pc..m.pc + 3] == [SCRATCH_STORE, s, v]
    requires s as int < SCRATCHPAD_SIZE
    ensures Next(m) == Execute(ScratchPut(s, v), m)
  {
    assert m.ram[m.pc] == SCRATCH_STORE && m.ram[m.pc + 1] == s && m.ram[m.pc + 2] == v;
    assert Next(m) == ScratchStore(m);
  }

  lemma NextScratchGet(m: Machine, s: byte, a: byte)
    requires WellFormed(m) && m.delay == 0 && m.pc + 3 <= |m.ram| && m.ram[m.pc..m.pc + 3] == [SCRATCH_LOAD, s, a]
    requires s as int < SCRATCHPAD_SIZE && a as int < |m.ram|
    ensures Next(m) == Execute(ScratchGet(s, a), m)
  {
    assert m.ram[m.pc] == SCRATCH_LOAD && m.ram[m.pc + 1] == s && m.ram[m.pc + 2] == a;
    assert Next(m) == ScratchLoad(m);
  }

  lemma NextScratchSum(m: Machine, s1: byte, s2: byte, d: byte)
    requires WellFormed(m) && m.delay == 0 && m.pc + 4 <= |m.ram| && m.ram[m.pc..m.pc + 4] == [SCRATCH_ADD, s1, s2, d]
    requires s1 as int < SCRATCHPAD_SIZE && s2 as int < SCRATCHPAD_SIZE && d as int < SCRATCHPAD_SIZE
    ensures Next(m) == Execute(ScratchSum(s1, s2, d), m)
  {
    assert m.ram[m.pc] == SCRATCH_ADD && m.ram[m.pc + 1] == s1 && m.ram[m.pc + 2] == s2 && m.ram[m.pc + 3] == d;
    assert Next(m) == ScratchAdd(m);
  }

  lemma NextScratchTake(m: Machine, a: byte, s: byte)
    requires WellFormed(m) && m.delay == 0 && m.pc + 3 <= |m.ram| && m.ram[m.pc..m.pc + 3] == [SCRATCH_COPY, a, s]
    requires a as int < |m.ram| && s as int < SCRATCHPAD_SIZE
    ensures Next(m) == Execute(ScratchTake(a, s), m)
  {
    assert m.ram[m.pc] == SCRATCH_COPY && m.ram[m.pc + 1] == a && m.ram[m.pc + 2] == s;
    assert Next(m) == ScratchCopy(m);
  }

  lemma NextScratchBranch(m: Machine, a: byte, s: byte)
    requires WellFormed(m) && m.delay == 0 && m.pc + 3 <= |m.ram| && m.ram[m.pc..m.pc + 3] == [SCRATCH_JUMPIF, a, s]
    requires a as int < |m.ram| && s as int < SCRATCHPAD_SIZE
    ensures Next(m) == Execute(ScratchBranch(a, s), m)
  {
    assert m.ram[m.pc] == SCRATCH_JUMPIF && m.ram[m.pc + 1] == a && m.ram[m.pc + 2] == s;
    assert Next(m) == ScratchJumpIf(m);
  }

  /** WAIT, LOOP, SETALL/SETNONE, LOAD, JUMP and JUMPIF. */
  lemma NextControls(m: Machine, i: Instr)
    requires Ready(m, i)
    requires i.WaitFor? || i.LoopBack? || i.FillAll? || i.LoadPixel? || i.JumpTo? || i.JumpIfSet?
    ensures Next(m) == Execute(i, m)
  {
    match i {
      case WaitFor(c) =>
        StoredAs(m, i, [WAIT, c]);
        NextWait(m, c);
      case LoopBack =>
        StoredAs(m, i, [LOOP]);
        NextLoop(m);
      case FillAll(on) =>
        StoredAs(m, i, [if on then SETALL else SETNONE]);
        NextFill(m, on);
      case LoadPixel(a) =>
        StoredAs(m, i, [LOAD, a]);
        NextLoad(m, a);
      case JumpTo(a) =>
        StoredAs(m, i, [JUMP, a]);
        NextJump(m, a);
      case JumpIfSet(a, t) =>
        StoredAs(m, i, [JUMPIF, a, t]);
        NextJumpIf(m, a, t);
    }
  }

  lemma NextWait(m: Machine, c: byte)
    requires WellFormed(m) && m.delay == 0 && m.pc + 2 <= |m.ram| && m.ram[m.pc..m.pc + 2] == [WAIT, c]
    ensures Next(m) == Execute(WaitFor(c), m)
  {
    assert m.ram[m.pc] == WAIT && m.ram[m.pc + 1] == c;
    assert Next(m) == Wait(m);
  }

  lemma NextLoop(m: Machine)
    requires WellFormed(m) && m.delay == 0 && m.pc + 1 <= |m.ram| && m.ram[m.pc..m.pc + 1] == [LOOP]
    ensures Next(m) == Execute(LoopBack, m)
  {
    assert m.ram[m.pc] == LOOP;
    assert Next(m) == m.(pc := m.entryPoint);
  }

  lemma NextFill(m: Machine, on: bool)
    requires WellFormed(m) && m.delay == 0 && m.pc + 1 <= |m.ram| && m.ram[m.pc..m.pc + 1] == [(if on then SETALL else SETNONE)]
    ensures Next(m) == Execute(FillAll(on), m)
  {
    assert m.ram[m.pc] == (if on then SETALL else SETNONE);
    assert Next(m) == Fill(m, on);
  }

  lemma NextLoad(m: Machine, a: byte)
    requires WellFormed(m) && m.delay == 0 && m.pc + 2 <= |m.ram| && m.ram[m.pc..m.pc + 2] == [LOAD, a]
    requires a as int < |m.ram|
    ensures Next(m) == Execute(LoadPixel(a), m)
  {
    assert m.ram[m.pc] == LOAD && m.ram[m.pc + 1] == a;
    assert Next(m) == Load(m);
  }

  lemma NextJump(m: Machine, a: byte)
    requires WellFormed(m) && m.delay == 0 && m.pc + 2 <= |m.ram| && m.ram[m.pc..m.pc + 2] == [JUMP, a]
    requires a as int < |m.ram|
    ensures Next(m) == Execute(JumpTo(a), m)
  {
    assert m.ram[m.pc] == JUMP && m.ram[m.pc + 1] == a;
    assert Next(m) == Jump(m);
  }

  lemma NextJumpIf(m: Machine, a: byte, t: byte)
    requires WellFormed(m) && m.delay == 0 && m.pc + 3 <= |m.ram| && m.ram[m.pc..m.pc + 3] == [JUMPIF, a, t]
    requires a as int < |m.ram| && t as int < |m.ram|
    ensures Next(m) == Execute(JumpIfSet(a, t), m)
  {
    assert m.ram[m.pc] == JUMPIF && m.ram[m.pc + 1] == a && m.ram[m.pc + 2] == t;
    assert Next(m) == JumpIf(m);
  }
}
