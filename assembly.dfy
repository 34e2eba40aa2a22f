/**
 * What `parse_and_load_program` (em_parser.py) decides, as functions: how one source
 * line is tokenised and turned into bytes (`Line`), and the forward pass over all the
 * lines with its write cursor (`Run`, `Assemble`). `Assembler.ParseAndLoadProgram`
 * performs this pass on an `Emulator` and is proved to leave it in the state
 * `Assemble` describes.
 */
module Assembly {
  import opened Wrappers
  import opened Bytes
  import opened Opcodes
  import opened Core
  import opened Text
  import opened Isa

  /** `line.strip().upper()` */
  function Cleaned(line: string): (r: string)
    ensures r == [] || !IsSpace(r[0])
  {
    Upper(Strip(line))
  }

  /** Blank lines and `#` comments are skipped (but still counted). */
  predicate Skipped(line: string) {
    var s := Cleaned(line);
    s == [] || s[0] == '#'
  }

  /** `parts = line.split()`; a line that is not skipped always has a first token, the mnemonic. */
  function Tokens(line: string): (parts: seq<string>)
    ensures !Skipped(line) ==> parts != []
    ensures AreWords(parts)
  {
    var s := Cleaned(line);
    assert s != [] ==> TrimStart(s) == s;
    Split(s)
  }

  /** The fixed-length mnemonics and their opcodes (SET, CLEAR, WAIT and EP are handled apart). */
  function FixedOpcode(cmd: string): (r: Option<byte>)
    ensures r.Some? ==> r.value in Instructions && r.value != SET && r.value != CLEAR && r.value != WAIT
    ensures r.Some? ==> cmd != "EP" && cmd != "SET" && cmd != "CLEAR" && cmd != "WAIT"
  {
    if cmd == "LOOP" then Some(LOOP)
    else if cmd == "STORE" then Some(STORE)
    else if cmd == "LOAD" then Some(LOAD)
    else if cmd == "JUMP" then Some(JUMP)
    else if cmd == "ADD" then Some(ADD)
    else if cmd == "JUMPIF" then Some(JUMPIF)
    else if cmd == "SETALL" then Some(SETALL)
    else if cmd == "SETNONE" then Some(SETNONE)
    else if cmd == "SCRATCH_STORE" then Some(SCRATCH_STORE)
    else if cmd == "SCRATCH_LOAD" then Some(SCRATCH_LOAD)
    else if cmd == "SCRATCH_ADD" then Some(SCRATCH_ADD)
    else if cmd == "SCRATCH_COPY" then Some(SCRATCH_COPY)
    else if cmd == "SCRATCH_JUMPIF" then Some(SCRATCH_JUMPIF)
    else if cmd == "AND" then Some(AND)
    else if cmd == "OR" then Some(OR)
    else if cmd == "XOR" then Some(XOR)
    else if cmd == "NOT" then Some(NOT)
    else if cmd == "SUB" then Some(SUB)
    else if cmd == "SHL" then Some(SHL)
    else if cmd == "SHR" then Some(SHR)
    else None
  }

  /** The mnemonics the assembler has a branch for; each of them records its line in `pc_to_line`. */
  predicate Known(cmd: string) {
    cmd == "EP" || cmd == "SET" || cmd == "CLEAR" || cmd == "WAIT" || FixedOpcode(cmd).Some?
  }

  /** The outcome of one line that is not skipped. */
  datatype LineStep =
    | Placed(bytes: seq<byte>)                     // written at the cursor, which moves past them
    | Entry(address: nat)                          // EP: new entry point, and the cursor moves there
    | Rejected(reason: Reason, written: seq<byte>) // the error, and the bytes already written at the cursor

  /**
   * Writing `values` one by one into a bytearray: a value outside 0..255 raises
   * ValueError, so exactly the values before the first such one are written.
   */
  function Emit(values: seq<int>): (w: seq<byte>)
    ensures |w| <= |values|
    ensures forall j :: 0 <= j < |w| ==> w[j] as int == values[j]
    ensures |w| < |values| ==> !IsByte(values[|w|])
  {
    if values == [] || !IsByte(values[0]) then []
    else [values[0] as byte] + Emit(values[1..])
  }

  /** All the writes of a line succeed, or the ValueError is reported with the bytes written so far. */
  function Write(values: seq<int>): (r: LineStep)
    ensures r.Placed? ==> |r.bytes| == |values| && forall j :: 0 <= j < |values| ==> r.bytes[j] as int == values[j]
    ensures r.Rejected? ==> r.reason == MalformedOperand && |r.written| < |values| && !IsByte(values[|r.written|])
    ensures r.Rejected? ==> forall j :: 0 <= j < |r.written| ==> r.written[j] as int == values[j]
    ensures !r.Entry?
  {
    var w := Emit(values);
    if |w| == |values| then Placed(w) else Rejected(MalformedOperand, w)
  }

  /** `int(t)` for each token in turn; None as soon as one is refused. */
  function ParseAll(tokens: seq<string>): (r: Option<seq<int>>)
    ensures r.Some? ==> |r.value| == |tokens|
    ensures r.Some? ==> forall j :: 0 <= j < |tokens| ==> ParseInt(tokens[j]) == Some(r.value[j])
    ensures r.None? ==> exists j :: 0 <= j < |tokens| && ParseInt(tokens[j]).None?
  {
    if tokens == [] then Some([])
    else
      var head, tail := ParseInt(tokens[0]), ParseAll(tokens[1..]);
      if head.Some? && tail.Some? then Some([head.value] + tail.value) else None
  }

  /**
   * What every instruction line does apart from EP: an instruction that starts with
   * its opcode and fits at the cursor, or an error that leaves nothing written unless
   * a byte write failed, and never an unknown command.
   */
  predicate Sound(r: LineStep, op: byte, cursor: nat, size: nat) {
    && !r.Entry?
    && (r.Placed? ==> cursor + |r.bytes| <= size && r.bytes != [] && r.bytes[0] == op)
    && (r.Rejected? ==> cursor + |r.written| <= size && r.reason != UnknownCommand)
    && (r.Rejected? && r.written != [] ==> r.reason == MalformedOperand)
  }

  /** The first operand that fails its range test, if any, in source order. */
  function RangeFault(kinds: seq<Operand>, vals: seq<int>, size: nat): (r: Option<Reason>)
    requires |kinds| == |vals|
    ensures r.None? <==> forall j :: 0 <= j < |kinds| ==> InRange(kinds[j], vals[j], size)
    ensures r.Some? ==> r.value == AddressOutOfRange || r.value == ScratchAddressOutOfRange
    ensures r.Some? ==> exists j :: (&& 0 <= j < |kinds| && !InRange(kinds[j], vals[j], size)
                                     && (forall i :: 0 <= i < j ==> InRange(kinds[i], vals[i], size))
                                     && r.value == (if kinds[j] == ScratchAddress then ScratchAddressOutOfRange else AddressOutOfRange))
  {
    if kinds == [] then None
    else if !InRange(kinds[0], vals[0], size) then
      Some(if kinds[0] == ScratchAddress then ScratchAddressOutOfRange else AddressOutOfRange)
    else RangeFault(kinds[1..], vals[1..], size)
  }

  /** The operand values as written: plain values (STORE/SCRATCH_STORE) go through `& 0xFF`. */
  function OperandValues(kinds: seq<Operand>, vals: seq<int>): (r: seq<int>)
    requires |kinds| == |vals|
    ensures |r| == |vals|
    ensures forall j :: 0 <= j < |r| ==> r[j] == if kinds[j] == Value then Mask(vals[j]) as int else vals[j]
  {
    seq(|vals|, j requires 0 <= j < |vals| => if kinds[j] == Value then Mask(vals[j]) as int else vals[j])
  }

  /**
   * The bytes of a fixed-length instruction as the line spells it: the opcode, then
   * one byte per operand token in source order, a plain value through `& 0xFF` and an
   * address as it was written.
   */
  predicate OperandsPlaced(op: byte, parts: seq<string>, bytes: seq<byte>) {
    var kinds := Kinds(op);
    && |parts| > |kinds| && |bytes| == 1 + |kinds| && bytes[0] == op
    && forall j :: 0 <= j < |kinds| ==>
         && ParseInt(parts[1 + j]).Some?
         && bytes[1 + j] as int == if kinds[j] == Value then Mask(ParseInt(parts[1 + j]).value) as int
                                   else ParseInt(parts[1 + j]).value
  }

  /**
   * A fixed-length instruction: room in RAM first, then every operand through `int`,
   * then the range tests, then the writes.
   */
  function FixedLine(op: byte, parts: seq<string>, cursor: nat, size: nat): (r: LineStep)
    requires cursor <= size
    ensures Sound(r, op, cursor, size)
  {
    var kinds := Kinds(op);
    var n := |kinds|;
    if cursor + 1 + n > size then Rejected(NotEnoughRam, [])
    else if |parts| < 1 + n then Rejected(MalformedOperand, [])
    else
      match ParseAll(parts[1..1 + n])
      case None => Rejected(MalformedOperand, [])
      case Some(vals) =>
        match RangeFault(kinds, vals, size)
        case Some(reason) => Rejected(reason, [])
        case None => Write([op as int] + OperandValues(kinds, vals))
  }

  /** WAIT: room for two bytes, then the opcode is written before the count is read, and the count is not masked. */
  function WaitLine(parts: seq<string>, cursor: nat, size: nat): (r: LineStep)
    requires cursor <= size
    ensures Sound(r, WAIT, cursor, size)
    ensures r.Placed? ==> |parts| >= 2 && |r.bytes| == 2 && ParseInt(parts[1]) == Some(r.bytes[1] as int)
  {
    if cursor + 2 > size then Rejected(NotEnoughRam, [])
    else if |parts| < 2 then Rejected(MalformedOperand, [WAIT])
    else
      match ParseInt(parts[1])
      case None => Rejected(MalformedOperand, [WAIT])
      case Some(cycles) => Write([WAIT as int, cycles])
  }

  /** The operand text of SET/CLEAR cut at commas: `' '.join(parts[1:]).split(',')`. */
  function Segments(parts: seq<string>): seq<string>
    requires parts != []
  {
    SplitOn(JoinWith(parts[1..], ' '), ',')
  }

  /** One comma-separated piece of a SET/CLEAR line. */
  datatype Segment = Blank | Pair(x: int, y: int) | BadPair

  /** A piece that strips to nothing is skipped; any other must be exactly two integers (`x, y = pair.split()`). */
  function ReadSegment(segment: string): (r: Segment)
    ensures r.Blank? <==> Strip(segment) == []
  {
    var seg := Strip(segment);
    if seg == [] then Blank
    else
      var ws := Split(seg);
      if |ws| != 2 then BadPair
      else
        var x, y := ParseInt(ws[0]), ParseInt(ws[1]);
        if x.Some? && y.Some? then Pair(x.value, y.value) else BadPair
  }

  /** The pairs of SET/CLEAR, in order; None as soon as one piece is not a pair. */
  function ParsePairs(segments: seq<string>): (r: Option<seq<(int, int)>>)
    ensures r.Some? ==> |r.value| <= |segments|
  {
    if segments == [] then Some([])
    else
      var rest := ParsePairs(segments[1..]);
      match ReadSegment(segments[0])
      case Blank => rest
      case BadPair => None
      case Pair(x, y) => if rest.Some? then Some([(x, y)] + rest.value) else None
  }

  /** `x1, y1, x2, y2, ...` as Python ints. */
  function FlattenInts(pairs: seq<(int, int)>): (r: seq<int>)
    ensures |r| == 2 * |pairs|
    ensures forall j :: 0 <= j < |pairs| ==> r[2 * j] == pairs[j].0 && r[2 * j + 1] == pairs[j].1
  {
    seq(2 * |pairs|, k requires 0 <= k < 2 * |pairs| => if k % 2 == 0 then pairs[k / 2].0 else pairs[k / 2].1)
  }

  /** `[op, n, x1, y1, ..., xn, yn]`: the opcode, the pair count, then the pairs in the order given. */
  predicate PairsPlaced(op: byte, pairs: seq<(int, int)>, bytes: seq<byte>) {
    && |bytes| == 2 + 2 * |pairs| && bytes[0] == op && bytes[1] as int == |pairs|
    && forall j :: 0 <= j < |pairs| ==> bytes[2 + 2 * j] as int == pairs[j].0 && bytes[3 + 2 * j] as int == pairs[j].1
  }

  /**
   * SET/CLEAR, given the pairs read from the line (None: a piece was not a pair):
   * the pairs, then that there is at least one, then room for `2 + 2n` bytes, then
   * the writes.
   */
  function PairsLine(op: byte, parsed: Option<seq<(int, int)>>, cursor: nat, size: nat): (r: LineStep)
    requires cursor <= size
    ensures Sound(r, op, cursor, size)
  {
    match parsed
    case None => Rejected(InvalidPair, [])
    case Some(pairs) =>
      if pairs == [] then Rejected(RequiresPairs, [])
      else if cursor + 2 + 2 * |pairs| > size then Rejected(NotEnoughRam, [])
      else Write([op as int, |pairs|] + FlattenInts(pairs))
  }

  /** Lines whose EP operand is negative: Python would index RAM from its end; they are outside the model. */
  predicate NegativeEntry(parts: seq<string>) {
    && |parts| >= 2 && parts[0] == "EP"
    && ParseInt(parts[1]).Some? && ParseInt(parts[1]).value < 0
  }

  /** EP: a new entry point below the RAM size. */
  function EntryLine(parts: seq<string>, size: nat): (r: LineStep)
    requires parts != [] && parts[0] == "EP" && !NegativeEntry(parts)
    ensures r.Entry? <==> |parts| >= 2 && ParseInt(parts[1]).Some? && ParseInt(parts[1]).value < size
    ensures r.Entry? ==> r.address as int == ParseInt(parts[1]).value
    ensures r.Rejected? ==> r.written == [] && (r.reason == MalformedOperand || r.reason == EntryPointOutOfRange)
  {
    if |parts| < 2 then Rejected(MalformedOperand, [])
    else
      match ParseInt(parts[1])
      case None => Rejected(MalformedOperand, [])
      case Some(a) => if a >= size then Rejected(EntryPointOutOfRange, []) else Entry(a)
  }

  /**
   * One line that is not skipped, with the write cursor at `cursor`. Whatever it
   * writes fits in RAM; an assembled instruction starts with a table opcode; only a
   * ValueError during the writes leaves bytes behind on an error; and EP only ever
   * moves the cursor inside RAM.
   */
  function Line(parts: seq<string>, cursor: nat, size: nat): (r: LineStep)
    requires parts != [] && !NegativeEntry(parts) && cursor <= size
    ensures r.Placed? ==> cursor + |r.bytes| <= size && r.bytes != [] && r.bytes[0] in Instructions
    ensures r.Rejected? ==> cursor + |r.written| <= size
    ensures r.Rejected? && r.written != [] ==> r.reason == MalformedOperand
    ensures r.Entry? ==> parts[0] == "EP"
    ensures r.Entry? ==> r.address < size
    ensures !Known(parts[0]) <==> r == Rejected(UnknownCommand, [])
  {
    var cmd := parts[0];
    if cmd == "EP" then EntryLine(parts, size)
    else if cmd == "SET" then PairsLine(SET, ParsePairs(Segments(parts)), cursor, size)
    else if cmd == "CLEAR" then PairsLine(CLEAR, ParsePairs(Segments(parts)), cursor, size)
    else if cmd == "WAIT" then WaitLine(parts, cursor, size)
    else
      match FixedOpcode(cmd)
      case Some(op) => FixedLine(op, parts, cursor, size)
      case None => Rejected(UnknownCommand, [])
  }

  /** The source text the model covers: no line of the program is an EP with a negative operand. */
  predicate AdmissibleSource(code: seq<string>) {
    forall k :: 0 <= k < |code| ==> !NegativeEntry(Tokens(code[k]))
  }

  /** A line as the pass sees it, after `strip().upper()`, that is not an EP with a negative operand. */
  predicate Tidy(text: string) {
    (text == [] || !IsSpace(text[0])) && !NegativeEntry(Split(text))
  }

  predicate AllTidy(lines: seq<string>) {
    forall k :: 0 <= k < |lines| ==> Tidy(lines[k])
  }

  /** Every line of the program after `strip().upper()`, which is all the pass looks at. */
  function Clean(code: seq<string>): (lines: seq<string>)
    ensures |lines| == |code| && forall k :: 0 <= k < |code| ==> lines[k] == Cleaned(code[k])
    ensures AdmissibleSource(code) ==> AllTidy(lines)
  {
    if code == [] then [] else [Cleaned(code[0])] + Clean(code[1..])
  }

  /** The emulator fields the pass writes: RAM, `pc_to_line`, the cursor `ram_ptr`, `entry_point` and `pc`. */
  datatype Image = Image(ram: seq<byte>, pcToLine: map<nat, nat>, cursor: nat, entryPoint: nat, pc: nat)

  /** The image after the pass, and the error that stopped it (None: `return True`). */
  datatype Assembled = Assembled(image: Image, error: Option<Fault>)

  /** `ram[at:at + len(b)] = b` */
  function Splice(ram: seq<byte>, at: nat, b: seq<byte>): (r: seq<byte>)
    requires at + |b| <= |ram|
    ensures |r| == |ram|
    ensures forall j :: 0 <= j < |ram| ==> r[j] == if at <= j < at + |b| then b[j - at] else ram[j]
  {
    ram[..at] + b + ram[at + |b|..]
  }

  /** The image fits a RAM of `size` bytes, with the cursor inside or just past its end. */
  predicate Fitting(img: Image, size: nat) {
    |img.ram| == size && img.cursor <= size
  }

  /** After one line: go on with the next line, or stop with the error it raised. */
  datatype Progress = Continue(img: Image) | Stop(img: Image, fault: Fault)

  /** What a line may write or point at: never past the end of RAM. */
  predicate Bounded(step: LineStep, cursor: nat, size: nat) {
    && (step.Placed? ==> cursor + |step.bytes| <= size)
    && (step.Rejected? ==> cursor + |step.written| <= size)
    && (step.Entry? ==> step.address < size)
  }

  /**
   * A line after `strip().upper()`: blank lines and comments change nothing;
   * otherwise the tokens decide the line's outcome (`Line`) and `Effect` applies it.
   */
  function Advance(text: string, k: nat, img: Image, size: nat): (r: Progress)
    requires Fitting(img, size) && Tidy(text)
    ensures Fitting(r.img, size)
    ensures r.Stop? ==> r.fault.AssemblyError? && r.fault.line == k + 1
    ensures r.img.entryPoint == img.entryPoint || r.img.entryPoint < size
    ensures (text == [] || text[0] == '#') ==> r == Continue(img)
  {
    if text == [] || text[0] == '#' then Continue(img)
    else
      assert TrimStart(text) == text;
      var parts := Split(text);
      Effect(parts[0], Line(parts, img.cursor, size), k, img, size)
  }

  /** LOOP and the `pc_to_line` record: what a line does before any of its checks. */
  function Marked(cmd: string, k: nat, img: Image): (r: Image)
    ensures r.ram == img.ram && r.cursor == img.cursor && r.entryPoint == img.entryPoint
    ensures r.pc == if cmd == "LOOP" then img.entryPoint else img.pc
    ensures Known(cmd) ==> r.pcToLine == img.pcToLine[img.cursor := k + 1]
    ensures !Known(cmd) ==> r.pcToLine == img.pcToLine
  {
    img.(pc := if cmd == "LOOP" then img.entryPoint else img.pc,
         pcToLine := if Known(cmd) then img.pcToLine[img.cursor := k + 1] else img.pcToLine)
  }

  /**
   * The outcome of line `k`, whose mnemonic is `cmd`, applied to the image. LOOP
   * sets pc to the entry point and every known mnemonic records the cursor in
   * `pc_to_line`, both before any check; then the bytes are written and the cursor
   * moves past them, or EP moves the entry point and the cursor, or the error stops
   * the pass with whatever was written.
   */
  function Effect(cmd: string, step: LineStep, k: nat, img: Image, size: nat): (r: Progress)
    requires Fitting(img, size) && Bounded(step, img.cursor, size)
    ensures Fitting(r.img, size)
    ensures r.Stop? ==> r.fault.AssemblyError? && r.fault.line == k + 1
    ensures r.img.entryPoint == img.entryPoint || r.img.entryPoint < size
  {
    var marked := Marked(cmd, k, img);
    match step
    case Entry(a) => Continue(marked.(entryPoint := a, cursor := a))
    case Placed(b) => Continue(marked.(ram := Splice(img.ram, img.cursor, b), cursor := img.cursor + |b|))
    case Rejected(reason, w) => Stop(marked.(ram := Splice(img.ram, img.cursor, w)), AssemblyError(k + 1, reason))
  }

  /**
   * The pass from line `k` (0-based; reported as `k + 1`) of the cleaned lines on. It
   * stops at the first error, which names a line of the program; on success pc is the
   * entry point, and the entry point is the one carried in or an address inside RAM.
   */
  function Run(lines: seq<string>, k: nat, img: Image, size: nat): (r: Assembled)
    requires k <= |lines| && Fitting(img, size) && AllTidy(lines)
    ensures Fitting(r.image, size)
    ensures r.error.None? ==> r.image.pc == r.image.entryPoint
    ensures r.error.Some? ==> r.error.value.AssemblyError? && k < r.error.value.line <= |lines|
    ensures r.image.entryPoint == img.entryPoint || r.image.entryPoint < size
    decreases |lines| - k, 1
  {
    if k == |lines| then Assembled(img.(pc := img.entryPoint), None)
    else Proceed(lines, k, img, size)
  }

  /** Line `k` of the cleaned lines, then the rest of the pass unless it raised an error. */
  function Proceed(lines: seq<string>, k: nat, img: Image, size: nat): (r: Assembled)
    requires k < |lines| && Fitting(img, size) && AllTidy(lines)
    ensures Fitting(r.image, size)
    ensures r.error.None? ==> r.image.pc == r.image.entryPoint
    ensures r.error.Some? ==> r.error.value.AssemblyError? && k < r.error.value.line <= |lines|
    ensures r.image.entryPoint == img.entryPoint || r.image.entryPoint < size
    decreases |lines| - k, 0
  {
    match Advance(lines[k], k, img, size)
    case Continue(next) => Run(lines, k + 1, next, size)
    case Stop(last, f) => Assembled(last, Some(f))
  }

  /** The state `reset` leaves: zeroed RAM, an empty map, the cursor at 0 and pc at the entry point. */
  function Start(size: nat, entryPoint: nat): (img: Image)
    ensures Fitting(img, size) && img.cursor == 0
    ensures forall a :: 0 <= a < size ==> img.ram[a] == 0
    ensures img.pcToLine == map[] && img.entryPoint == entryPoint && img.pc == entryPoint
  {
    Image(Zeros(size), map[], 0, entryPoint, entryPoint)
  }

  /** `parse_and_load_program(emulator, code)` on an emulator whose entry point is `entryPoint`. */
  function Assemble(code: seq<string>, size: nat, entryPoint: nat): (r: Assembled)
    requires AdmissibleSource(code)
    ensures |r.image.ram| == size
    ensures r.error.None? ==> r.image.pc == r.image.entryPoint
    ensures r.error.Some? ==> r.error.value.AssemblyError? && 0 < r.error.value.line <= |code|
    ensures r.image.entryPoint == entryPoint || r.image.entryPoint < size
  {
    Run(Clean(code), 0, Start(size, entryPoint), size)
  }
}
