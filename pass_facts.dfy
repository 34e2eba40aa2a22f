/**
 * Properties of the whole assembler pass (`Assembly.Run`): what each line leaves in
 * the image, that the first error ends the pass, and that the pass only sees each
 * line after `strip().upper()`.
 */
module PassFacts {
  import opened Wrappers
  import opened Bytes
  import opened Core
  import opened Text
  import opened TextFacts
  import opened Isa
  import opened Assembly
  import opened AssemblyFacts

  /** A cleaned line that is neither blank nor a comment. */
  predicate Command(text: string) {
    Tidy(text) && text != [] && text[0] != '#'
  }

  /** A command line is its tokens' `Line` outcome applied by `Effect`. */
  lemma AdvanceCommand(text: string, k: nat, img: Image, size: nat)
    requires Fitting(img, size) && Command(text)
    ensures Split(text) != []
    ensures Advance(text, k, img, size) == Effect(Split(text)[0], Line(Split(text), img.cursor, size), k, img, size)
  {
    assert TrimStart(text) == text;
  }

  /**
   * Every known mnemonic records the cursor in `pc_to_line` whether the line then
   * succeeds or not, and LOOP moves pc to the current entry point; an unknown
   * mnemonic stops the pass with nothing recorded and nothing written.
   */
  lemma LineRecorded(text: string, k: nat, img: Image, size: nat)
    requires Fitting(img, size) && Command(text)
    ensures var cmd := Split(text)[0];
      var r := Advance(text, k, img, size);
      && (Known(cmd) ==> r.img.pcToLine == img.pcToLine[img.cursor := k + 1])
      && (cmd == "LOOP" ==> r.img.pc == img.entryPoint)
      && (!Known(cmd) ==> r == Stop(img, AssemblyError(k + 1, UnknownCommand)))
  {
    AdvanceCommand(text, k, img, size);
    EffectRecorded(Split(text), Line(Split(text), img.cursor, size), k, img, size);
  }

  lemma EffectRecorded(parts: seq<string>, step: LineStep, k: nat, img: Image, size: nat)
    requires Fitting(img, size) && parts != [] && !NegativeEntry(parts) && img.cursor <= size
    requires step == Line(parts, img.cursor, size)
    ensures var r := Effect(parts[0], step, k, img, size);
      && (Known(parts[0]) ==> r.img.pcToLine == img.pcToLine[img.cursor := k + 1])
      && (parts[0] == "LOOP" ==> r.img.pc == img.entryPoint)
      && (!Known(parts[0]) ==> r == Stop(img, AssemblyError(k + 1, UnknownCommand)))
  {
    if !Known(parts[0]) {
      assert Splice(img.ram, img.cursor, []) == img.ram;
    }
  }

  /**
   * A placed line leaves exactly one instruction at the old cursor: the bytes from
   * there decode to an instruction whose encoding is what lies between the old and
   * the new cursor, and those are the bytes the line spells.
   */
  lemma PlacedInRam(text: string, k: nat, img: Image, size: nat)
    requires Fitting(img, size) && Command(text)
    requires Split(text) != [] && Line(Split(text), img.cursor, size).Placed?
    ensures var r := Advance(text, k, img, size);
      && r.Continue? && img.cursor < r.img.cursor <= size
      && Decode(r.img.ram[img.cursor..]).Some?
      && Encode(Decode(r.img.ram[img.cursor..]).value) == r.img.ram[img.cursor..r.img.cursor]
      && r.img.ram[img.cursor..r.img.cursor] == Line(Split(text), img.cursor, size).bytes
  {
    var parts := Split(text);
    AdvanceCommand(text, k, img, size);
    PlacedDecodes(parts, img.cursor, size);
    PlacedAt(parts[0], Line(parts, img.cursor, size).bytes, k, img, size);
  }

  /** Writing an instruction's encoding at the cursor leaves it decodable there. */
  lemma {:induction false} PlacedAt(cmd: string, b: seq<byte>, k: nat, img: Image, size: nat)
    requires Fitting(img, size) && img.cursor + |b| <= size
    requires Decode(b).Some? && Encode(Decode(b).value) == b
    ensures var r := Effect(cmd, Placed(b), k, img, size);
      && r.Continue? && img.cursor + |b| == r.img.cursor
      && Decode(r.img.ram[img.cursor..]).Some?
      && Encode(Decode(r.img.ram[img.cursor..]).value) == r.img.ram[img.cursor..r.img.cursor]
      && r.img.ram[img.cursor..r.img.cursor] == b
  {
    var i := Decode(b).value;
    var ram := Splice(img.ram, img.cursor, b);
    var end := img.cursor + |b|;
    assert ram[img.cursor..end] == b;
    assert ram[img.cursor..] == b + ram[end..];
    DecodeEncode(i, ram[end..]);
  }

  /** EP moves both the entry point and the write cursor to its operand, writing nothing. */
  lemma EntryMoves(text: string, k: nat, img: Image, size: nat)
    requires Fitting(img, size) && Command(text)
    requires Split(text) != [] && Line(Split(text), img.cursor, size).Entry?
    ensures var a := Line(Split(text), img.cursor, size).address;
      var r := Advance(text, k, img, size);
      && r.Continue? && a < size
      && r.img == img.(entryPoint := a, cursor := a, pcToLine := img.pcToLine[img.cursor := k + 1])
  {
    AdvanceCommand(text, k, img, size);
  }

  /** The tokens of an EP line: the only mnemonic that moves the entry point. */
  predicate MovesEntry(parts: seq<string>) {
    parts != [] && parts[0] == "EP"
  }

  /** A line that is not EP leaves the entry point where it was, whether it goes on or stops the pass. */
  lemma NonEntryKeeps(text: string, k: nat, img: Image, size: nat)
    requires Fitting(img, size) && Tidy(text) && !MovesEntry(Split(text))
    ensures Advance(text, k, img, size).img.entryPoint == img.entryPoint
  {
    if !(text == [] || text[0] == '#') {
      assert TrimStart(text) == text;
    }
  }

  /** Lines without EP keep the entry point carried in, to the end of the pass or to its error. */
  lemma {:induction false} RunKeepsEntry(lines: seq<string>, k: nat, img: Image, size: nat)
    requires k <= |lines| && Fitting(img, size) && AllTidy(lines)
    requires forall j :: k <= j < |lines| ==> !MovesEntry(Split(lines[j]))
    ensures Run(lines, k, img, size).image.entryPoint == img.entryPoint
    decreases |lines| - k
  {
    if k < |lines| {
      NonEntryKeeps(lines[k], k, img, size);
      match Advance(lines[k], k, img, size)
      case Continue(next) => RunKeepsEntry(lines, k + 1, next, size);
      case Stop(_, _) =>
    }
  }

  /** An EP line that lets the pass go on sets the entry point to its operand. */
  lemma EntrySets(text: string, k: nat, img: Image, size: nat)
    requires Fitting(img, size) && Tidy(text) && MovesEntry(Split(text))
    requires Advance(text, k, img, size).Continue?
    ensures |Split(text)| >= 2 && ParseInt(Split(text)[1]).Some?
    ensures Advance(text, k, img, size).img.entryPoint == ParseInt(Split(text)[1]).value
  {
    EntryIsCommand(text);
    AdvanceCommand(text, k, img, size);
    EntryEffect(Split(text), k, img, size);
  }

  lemma EntryIsCommand(text: string)
    requires Tidy(text) && MovesEntry(Split(text))
    ensures Command(text)
  {
    assert TrimStart(text) == text;
    assert text[0] == Split(text)[0][0] == 'E';
  }

  lemma EntryEffect(parts: seq<string>, k: nat, img: Image, size: nat)
    requires Fitting(img, size) && MovesEntry(parts) && !NegativeEntry(parts)
    requires Effect(parts[0], Line(parts, img.cursor, size), k, img, size).Continue?
    ensures |parts| >= 2 && ParseInt(parts[1]).Some?
    ensures Effect(parts[0], Line(parts, img.cursor, size), k, img, size).img.entryPoint == ParseInt(parts[1]).value
  {
    assert Line(parts, img.cursor, size) == EntryLine(parts, size);
  }

  /**
   * The last EP wins: when the pass succeeds and line `j` is the last EP line, the
   * entry point is that line's operand.
   */
  lemma {:induction false} LastEntryWins(lines: seq<string>, k: nat, img: Image, size: nat, j: nat)
    requires k <= j < |lines| && Fitting(img, size) && AllTidy(lines)
    requires MovesEntry(Split(lines[j])) && forall i :: j < i < |lines| ==> !MovesEntry(Split(lines[i]))
    requires Run(lines, k, img, size).error.None?
    ensures |Split(lines[j])| >= 2 && ParseInt(Split(lines[j])[1]).Some?
    ensures Run(lines, k, img, size).image.entryPoint == ParseInt(Split(lines[j])[1]).value
    decreases j - k
  {
    var a := Advance(lines[k], k, img, size);
    assert Run(lines, k, img, size) == Proceed(lines, k, img, size);
    assert a.Continue?;
    assert Run(lines, k, img, size) == Run(lines, k + 1, a.img, size);
    if k < j {
      LastEntryWins(lines, k + 1, a.img, size, j);
    } else {
      EntrySets(lines[j], k, img, size);
      RunKeepsEntry(lines, k + 1, a.img, size);
    }
  }

  /** A program without EP lines leaves the emulator's entry point as it was before. */
  lemma AssembleKeepsEntry(code: seq<string>, size: nat, entryPoint: nat)
    requires AdmissibleSource(code)
    requires forall k :: 0 <= k < |code| ==> !MovesEntry(Tokens(code[k]))
    ensures Assemble(code, size, entryPoint).image.entryPoint == entryPoint
  {
    var lines := Clean(code);
    forall j | 0 <= j < |lines| ensures !MovesEntry(Split(lines[j])) {
      assert Split(lines[j]) == Tokens(code[j]);
    }
    RunKeepsEntry(lines, 0, Start(size, entryPoint), size);
  }

  /** A program that assembles sets the entry point to the operand of its last EP line. */
  lemma AssembleLastEntry(code: seq<string>, size: nat, entryPoint: nat, j: nat)
    requires AdmissibleSource(code) && j < |code|
    requires MovesEntry(Tokens(code[j])) && forall i :: j < i < |code| ==> !MovesEntry(Tokens(code[i]))
    requires Assemble(code, size, entryPoint).error.None?
    ensures |Tokens(code[j])| >= 2 && ParseInt(Tokens(code[j])[1]).Some?
    ensures Assemble(code, size, entryPoint).image.entryPoint == ParseInt(Tokens(code[j])[1]).value
  {
    var lines := Clean(code);
    forall i | 0 <= i < |lines| ensures Split(lines[i]) == Tokens(code[i]) {
      assert lines[i] == Cleaned(code[i]);
    }
    LastEntryWins(lines, 0, Start(size, entryPoint), size, j);
  }

  /** Once a line is rejected, nothing after it matters: the pass ends there. */
  lemma {:induction false} RunStopsAtError(lines: seq<string>, more: seq<string>, k: nat, img: Image, size: nat)
    requires k <= |lines| && Fitting(img, size) && AllTidy(lines) && AllTidy(lines + more)
    requires Run(lines, k, img, size).error.Some?
    ensures Run(lines + more, k, img, size) == Run(lines, k, img, size)
    decreases |lines| - k
  {
    assert (lines + more)[k] == lines[k];
    match Advance(lines[k], k, img, size)
    case Continue(next) =>
      RunStopsAtError(lines, more, k + 1, next, size);
    case Stop(_, _) =>
  }

  /** Cleaning works line by line. */
  lemma {:induction false} CleanAppend(code: seq<string>, more: seq<string>)
    ensures Clean(code + more) == Clean(code) + Clean(more)
  {
    if code != [] {
      assert (code + more)[1..] == code[1..] + more;
      CleanAppend(code[1..], more);
    } else {
      assert code + more == more;
    }
  }

  /** A program that fails to assemble fails the same way whatever lines are appended. */
  lemma ErrorEndsPass(code: seq<string>, more: seq<string>, size: nat, entryPoint: nat)
    requires AdmissibleSource(code) && AdmissibleSource(code + more)
    requires Assemble(code, size, entryPoint).error.Some?
    ensures Assemble(code + more, size, entryPoint) == Assemble(code, size, entryPoint)
  {
    CleanAppend(code, more);
    RunStopsAtError(Clean(code), Clean(more), 0, Start(size, entryPoint), size);
  }

  /** `line.strip().upper()` is the same for a line and its upper-cased copy. */
  lemma CleanedIgnoresCase(line: string)
    ensures Cleaned(Upper(line)) == Cleaned(line)
  {
    StripUpper(line);
    UpperTwice(Strip(line));
  }

  /** Every line upper-cased. */
  function UpperLines(code: seq<string>): (r: seq<string>)
    ensures |r| == |code| && forall k :: 0 <= k < |code| ==> r[k] == Upper(code[k])
  {
    seq(|code|, k requires 0 <= k < |code| => Upper(code[k]))
  }

  /** Mnemonics and operands are case-insensitive: upper-casing the source changes nothing. */
  lemma AssembleIgnoresCase(code: seq<string>, size: nat, entryPoint: nat)
    requires AdmissibleSource(code)
    ensures AdmissibleSource(UpperLines(code))
    ensures Assemble(UpperLines(code), size, entryPoint) == Assemble(code, size, entryPoint)
  {
    var up := UpperLines(code);
    forall k | 0 <= k < |code| ensures Cleaned(up[k]) == Cleaned(code[k]) {
      CleanedIgnoresCase(code[k]);
    }
    assert Clean(up) == Clean(code);
    forall k | 0 <= k < |up| ensures !NegativeEntry(Tokens(up[k])) {
      assert Tokens(up[k]) == Tokens(code[k]);
    }
  }
}
