/** The machine state record (em_core.py): the `Emulator` class and its lifecycle. */
module Core {
  import opened Wrappers
  import opened Bytes
  import opened Screen

  /** `scratchpad_size`: the scratchpad is always 8 bytes, whatever the RAM size. */
  const SCRATCHPAD_SIZE: nat := 8

  /** Why the assembler rejected a line; reported as "Error on line N: ...". */
  datatype Reason =
    | EntryPointOutOfRange
    | InvalidPair
    | RequiresPairs
    | NotEnoughRam
    | AddressOutOfRange
    | ScratchAddressOutOfRange
    | UnknownCommand
    | MalformedOperand   // a missing operand (IndexError) or one `int` or `bytearray` refuses (ValueError)

  /** The diagnostics that `emulator.error` can hold. */
  datatype Fault =
    | AssemblyError(line: nat, reason: Reason)
    | PcOutOfRange
    | MissingCount(opcode: byte)
    | IncompletePair(opcode: byte)
    | InvalidCoordinates(opcode: byte, x: byte, y: byte)
    | ArgumentsOutOfRange
    | InvalidAddress(opcode: byte)
    | UnknownOpcode(opcode: byte)

  /** The part of the emulator that one step reads and writes, as a value. */
  datatype Machine = Machine(
    ram: seq<byte>,
    scratch: seq<byte>,
    pc: nat,
    delay: nat,
    activeDelay: nat,
    running: bool,
    error: Option<Fault>,
    entryPoint: nat,
    lit: set<(int, int)>,
    events: seq<Event>,
    saved: seq<seq<byte>>)

  function Zeros(n: nat): (r: seq<byte>)
    ensures |r| == n && forall i :: 0 <= i < n ==> r[i] == 0
  {
    seq(n, _ => 0)
  }

  class Emulator {
    var pc: nat
    var delay: nat
    const display: Display
    var running: bool
    const ramSize: nat
    var ram: array<byte>
    const scratchpadSize: nat
    const scratchpad: array<byte>
    var error: Option<Fault>
    var entryPoint: nat
    var activeDelay: nat
    /** Address -> 1-based source line; the attribute only exists once `reset` has run. */
    var pcToLine: Option<map<nat, nat>>
    /** Every image `save_scratchpad` has written, oldest first. */
    ghost var saved: seq<seq<byte>>

    ghost predicate Valid()
      reads this
    {
      && ram.Length == ramSize
      && scratchpadSize == SCRATCHPAD_SIZE
      && scratchpad.Length == scratchpadSize
      && ram != scratchpad
    }

    ghost function State(): (m: Machine)
      reads this, ram, scratchpad, display
      ensures |m.ram| == ram.Length && |m.scratch| == scratchpad.Length
    {
      Machine(ram[..], scratchpad[..], pc, delay, activeDelay, running, error, entryPoint,
              display.lit, display.events, saved)
    }

    /** `Emulator(display, ram_size)`: zeroed RAM and scratchpad, halted, entry point 0. */
    constructor (display: Display, ramSize: nat)
      ensures Valid() && fresh(ram) && fresh(scratchpad)
      ensures this.display == display && this.ramSize == ramSize
      ensures ram[..] == Zeros(ramSize) && scratchpad[..] == Zeros(SCRATCHPAD_SIZE)
      ensures pc == 0 && delay == 0 && activeDelay == 0 && entryPoint == 0
      ensures !running && error == None && pcToLine == None && saved == []
    {
      pc := 0;
      delay := 0;
      this.display := display;
      running := false;
      this.ramSize := ramSize;
      ram := new byte[ramSize](_ => 0);
      scratchpadSize := SCRATCHPAD_SIZE;
      scratchpad := new byte[SCRATCHPAD_SIZE](_ => 0);
      error := None;
      entryPoint := 0;
      activeDelay := 0;
      pcToLine := None;
      saved := [];
    }

    /**
     * `reset`: fresh zeroed RAM of the same size, pc back to the entry point, halted
     * without error, display cleared and an empty debug map. The scratchpad, the entry
     * point and `active_delay` are left as they were.
     */
    method Reset()
      requires Valid()
      modifies this, display
      ensures Valid() && fresh(ram)
      ensures ram[..] == Zeros(ramSize)
      ensures pc == entryPoint && delay == 0 && !running && error == None
      ensures pcToLine == Some(map[])
      ensures display.lit == {} && display.events == old(display.events) + [AllCleared]
      ensures entryPoint == old(entryPoint) && activeDelay == old(activeDelay)
      ensures saved == old(saved) && unchanged(scratchpad)
    {
      pc := entryPoint;
      delay := 0;
      ram := new byte[ramSize](_ => 0);
      display.ClearAll();
      running := false;
      error := None;
      pcToLine := Some(map[]);
    }
  }
}
