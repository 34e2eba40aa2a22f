/** The instruction table: one-byte opcodes (em_constants.py). */
module Opcodes {
  import opened Bytes

  const SET: byte := 0x01
  const CLEAR: byte := 0x02
  const WAIT: byte := 0x03
  const LOOP: byte := 0x04
  const STORE: byte := 0x05
  const LOAD: byte := 0x06
  const JUMP: byte := 0x07
  const JUMPIF: byte := 0x08
  const ADD: byte := 0x09
  const SETALL: byte := 0x10
  const SETNONE: byte := 0x11
  const SCRATCH_STORE: byte := 0x12
  const SCRATCH_LOAD: byte := 0x13
  const SCRATCH_ADD: byte := 0x14
  const SCRATCH_COPY: byte := 0x15
  const SCRATCH_JUMPIF: byte := 0x16
  const AND: byte := 0x17
  const OR: byte := 0x18
  const XOR: byte := 0x19
  const NOT: byte := 0x20
  const SUB: byte := 0x21
  const SHL: byte := 0x22
  const SHR: byte := 0x23
  /** Defined alongside the others, but the assembler treats EP as a directive and never writes it. */
  const EP: byte := 0x24

  /** The opcodes that may appear in an assembled image, in table order. */
  const Instructions: seq<byte> := [
    SET, CLEAR, WAIT, LOOP, STORE, LOAD, JUMP, JUMPIF, ADD, SETALL, SETNONE,
    SCRATCH_STORE, SCRATCH_LOAD, SCRATCH_ADD, SCRATCH_COPY, SCRATCH_JUMPIF,
    AND, OR, XOR, NOT, SUB, SHL, SHR
  ]

  /** The 23 instruction opcodes are pairwise distinct, so dispatch on the byte is unambiguous. */
  lemma InstructionsDistinct()
    ensures |Instructions| == 23
    ensures forall i, j :: 0 <= i < j < |Instructions| ==> Instructions[i] != Instructions[j]
  {
  }

  /** A zero byte is never an instruction (the step engine halts on it), and EP is not an instruction. */
  lemma ZeroAndEntryAreNotInstructions()
    ensures 0 !in Instructions
    ensures EP !in Instructions
  {
  }
}
