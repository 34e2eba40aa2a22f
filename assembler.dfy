/**
 * `parse_and_load_program` (em_parser.py) on the `Emulator` object: reset, then one
 * pass over the source lines writing each instruction into RAM at the cursor. The
 * method is proved to leave the emulator exactly as `Assembly.Assemble` describes.
 */
module Assembler {
  import opened Wrappers
  import opened Bytes
  import opened Screen
  import opened Core
  import opened Text
  import opened Assembly

  /** `ram[at] = b[0]`, `ram[at + 1] = b[1]`, ... */
  method WriteAt(ram: array<byte>, at: nat, b: seq<byte>)
    requires at + |b| <= ram.Length
    modifies ram
    ensures ram[..] == Splice(old(ram[..]), at, b)
  {
    var i := 0;
    while i < |b|
      invariant 0 <= i <= |b|
      invariant ram[..] == Splice(old(ram[..]), at, b[..i])
    {
      ram[at + i] := b[i];
      i := i + 1;
    }
    assert b[..i] == b;
  }

  /** The emulator fields the pass writes, with the cursor, as an `Image`. */
  ghost function Snapshot(e: Emulator, cursor: nat): Image
    reads e, e.ram
    requires e.pcToLine.Some?
  {
    Image(e.ram[..], e.pcToLine.value, cursor, e.entryPoint, e.pc)
  }

  /** A line that is not skipped, as `Effect` describes it; `stopped` when it raised an error. */
  method LoadTokens(e: Emulator, parts: seq<string>, k: nat, cursor: nat) returns (next: nat, stopped: bool)
    requires e.Valid() && e.pcToLine.Some? && cursor <= e.ramSize
    requires parts != [] && !NegativeEntry(parts)
    modifies e, e.ram
    ensures e.Valid() && e.ram == old(e.ram) && e.pcToLine.Some?
    ensures var r := Effect(parts[0], Line(parts, cursor, e.ramSize), k, old(Snapshot(e, cursor)), e.ramSize);
      && Snapshot(e, next) == r.img
      && stopped == r.Stop? && e.error == if r.Stop? then Some(r.fault) else old(e.error)
    ensures e.running == old(e.running) && e.delay == old(e.delay)
    ensures e.activeDelay == old(e.activeDelay) && e.saved == old(e.saved)
  {
    ghost var img := Snapshot(e, cursor);
    MarkLine(e, parts[0], k, cursor);
    ghost var marked := Snapshot(e, cursor);
    var step := Line(parts, cursor, e.ramSize);
    next, stopped := cursor, false;
    match step {
      case Entry(a) =>
        e.entryPoint := a;
        next := a;
        assert Snapshot(e, next) == marked.(entryPoint := a, cursor := a);
      case Placed(b) =>
        WriteAt(e.ram, cursor, b);
        next := cursor + |b|;
        assert Snapshot(e, next) == marked.(ram := Splice(img.ram, img.cursor, b), cursor := next);
      case Rejected(reason, w) =>
        WriteAt(e.ram, cursor, w);
        e.error := Some(AssemblyError(k + 1, reason));
        stopped := true;
        assert Snapshot(e, next) == marked.(ram := Splice(img.ram, img.cursor, w));
    }
  }

  /** What a known mnemonic does before its checks: LOOP resets pc, and the cursor is recorded. */
  method MarkLine(e: Emulator, cmd: string, k: nat, cursor: nat)
    requires e.pcToLine.Some?
    modifies e`pc, e`pcToLine
    ensures e.pcToLine.Some?
    ensures Snapshot(e, cursor) == Marked(cmd, k, old(Snapshot(e, cursor)))
  {
    if cmd == "LOOP" {
      e.pc := e.entryPoint;
    }
    if Known(cmd) {
      e.pcToLine := Some(e.pcToLine.value[cursor := k + 1]);
    }
  }

  /** One source line after `strip().upper()`, as `Advance` describes it. */
  method LoadLine(e: Emulator, text: string, k: nat, cursor: nat) returns (next: nat, stopped: bool)
    requires e.Valid() && e.pcToLine.Some? && cursor <= e.ramSize && Tidy(text)
    modifies e, e.ram
    ensures e.Valid() && e.ram == old(e.ram) && e.pcToLine.Some?
    ensures var r := Advance(text, k, old(Snapshot(e, cursor)), e.ramSize);
      && Snapshot(e, next) == r.img
      && stopped == r.Stop? && e.error == if r.Stop? then Some(r.fault) else old(e.error)
    ensures e.running == old(e.running) && e.delay == old(e.delay)
    ensures e.activeDelay == old(e.activeDelay) && e.saved == old(e.saved)
  {
    if text == [] || text[0] == '#' {
      return cursor, false;
    }
    assert TrimStart(text) == text;
    next, stopped := LoadTokens(e, Split(text), k, cursor);
  }

  /**
   * Line `k` of the cleaned `lines` loaded at `cursor`, with the fields the pass
   * writes forming `img`: the pass from line `k` on is the error just raised, or the
   * pass from line `k + 1` on from the new image `img'`.
   */
  method PassLine(e: Emulator, code: seq<string>, ghost lines: seq<string>, k: nat, cursor: nat, ghost img: Image)
    returns (next: nat, stopped: bool, ghost img': Image)
    requires e.Valid() && e.pcToLine.Some? && e.error == None && cursor <= e.ramSize
    requires k < |code| == |lines| && lines[k] == Cleaned(code[k]) && AllTidy(lines)
    requires img == Snapshot(e, cursor)
    modifies e, e.ram
    ensures e.Valid() && e.ram == old(e.ram) && e.pcToLine.Some? && next <= e.ramSize
    ensures img' == Snapshot(e, next) && Fitting(img', e.ramSize)
    ensures e.error == None <==> !stopped
    ensures Run(lines, k, img, e.ramSize) ==
      if stopped then Assembled(img', e.error) else Run(lines, k + 1, img', e.ramSize)
    ensures e.running == old(e.running) && e.delay == old(e.delay)
    ensures e.activeDelay == old(e.activeDelay) && e.saved == old(e.saved)
  {
    var text := Cleaned(code[k]);
    assert text == lines[k] && Tidy(text);
    next, stopped := LoadLine(e, text, k, cursor);
    img' := Snapshot(e, next);
  }

  /**
   * The loop over the source lines, from a cursor at 0: each line in turn until one
   * raises an error or the lines run out. `Run` from where the loop stopped is the
   * whole pass.
   */
  method PassLines(e: Emulator, code: seq<string>, ghost lines: seq<string>)
    returns (ok: bool, cursor: nat, ghost img: Image)
    requires e.Valid() && e.pcToLine.Some? && e.error == None
    requires |lines| == |code| && AllTidy(lines)
    requires forall k :: 0 <= k < |code| ==> lines[k] == Cleaned(code[k])
    modifies e, e.ram
    ensures e.Valid() && e.ram == old(e.ram) && e.pcToLine.Some? && cursor <= e.ramSize
    ensures img == Snapshot(e, cursor) && Fitting(img, e.ramSize) && (e.error == None <==> ok)
    ensures Run(lines, 0, old(Snapshot(e, 0)), e.ramSize) ==
      if ok then Run(lines, |lines|, img, e.ramSize) else Assembled(img, e.error)
    ensures e.running == old(e.running) && e.delay == old(e.delay)
    ensures e.activeDelay == old(e.activeDelay) && e.saved == old(e.saved)
  {
    img := Snapshot(e, 0);
    ghost var result := Run(lines, 0, img, e.ramSize);
    cursor := 0;
    var k: nat := 0;
    ok := true;
    while ok && k < |code|
      invariant 0 <= k <= |code| && cursor <= e.ramSize
      invariant e.Valid() && e.ram == old(e.ram) && e.pcToLine.Some? && (e.error == None <==> ok)
      invariant e.running == old(e.running) && e.delay == old(e.delay)
      invariant e.activeDelay == old(e.activeDelay) && e.saved == old(e.saved)
      invariant img == Snapshot(e, cursor) && Fitting(img, e.ramSize)
      invariant result == if ok then Run(lines, k, img, e.ramSize) else Assembled(img, e.error)
    {
      var stopped;
      cursor, stopped, img := PassLine(e, code, lines, k, cursor, img);
      ok := !stopped;
      k := k + 1;
    }
  }

  /**
   * The whole pass from a cursor at 0; when no line raised an error, pc is set to the
   * entry point at the end. The fields it writes end up as `Run` over the cleaned
   * lines says; nothing else changes.
   */
  method Pass(e: Emulator, code: seq<string>) returns (ok: bool, ghost end: nat)
    requires e.Valid() && e.pcToLine.Some? && e.error == None && AdmissibleSource(code)
    modifies e, e.ram
    ensures e.Valid() && e.ram == old(e.ram) && e.pcToLine.Some?
    ensures var a := Run(Clean(code), 0, old(Snapshot(e, 0)), e.ramSize);
      Snapshot(e, end) == a.image && e.error == a.error && ok == a.error.None?
    ensures e.running == old(e.running) && e.delay == old(e.delay)
    ensures e.activeDelay == old(e.activeDelay) && e.saved == old(e.saved)
  {
    ghost var img;
    ok, end, img := PassLines(e, code, Clean(code));
    if ok {
      e.pc := e.entryPoint;
    }
  }

  /**
   * Loads `code` (one string per source line) into `e`. Whatever the outcome, the
   * emulator has been reset (fresh RAM, halted, display cleared); RAM, the debug map,
   * the entry point, pc and the error are those of `Assemble`, and the result says
   * whether the whole program was accepted.
   */
  method ParseAndLoadProgram(e: Emulator, code: seq<string>) returns (ok: bool)
    requires e.Valid() && AdmissibleSource(code)
    modifies e, e.display
    ensures e.Valid() && fresh(e.ram)
    ensures var a := Assemble(code, e.ramSize, old(e.entryPoint));
      && e.ram[..] == a.image.ram && e.pcToLine == Some(a.image.pcToLine)
      && e.entryPoint == a.image.entryPoint && e.pc == a.image.pc
      && e.error == a.error && ok == a.error.None?
    ensures !e.running && e.delay == 0 && e.activeDelay == old(e.activeDelay)
    ensures e.saved == old(e.saved) && unchanged(e.scratchpad)
    ensures e.display.lit == {} && e.display.events == old(e.display.events) + [AllCleared]
  {
    e.error := None;
    e.Reset();
    e.pcToLine := Some(map[]);
    assert Snapshot(e, 0) == Start(e.ramSize, old(e.entryPoint));
    ghost var end;
    ok, end := Pass(e, code);
  }
}
