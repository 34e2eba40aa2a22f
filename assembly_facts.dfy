/**
 * What the assembler guarantees, proved about `Assembly`: the bytes it places are
 * exactly one instruction of the table with its operands in range, its checks come
 * in the order the source makes them, and the pass stops at the first error and
 * ignores letter case.
 */
module AssemblyFacts {
  import opened Wrappers
  import opened Bytes
  import opened Opcodes
  import opened Core
  import opened Text
  import opened Isa
  import opened Assembly
  import opened TextFacts

  /** Every opcode but SET and CLEAR decodes as soon as its operands are there. */
  lemma DecodesFixed(b: seq<byte>)
    requires b != [] && b[0] in Instructions && b[0] != SET && b[0] != CLEAR
    requires |b| >= 1 + Arity(b[0])
    ensures Decode(b).Some?
  {
  }

  /** A placed fixed-length instruction decodes to an instruction that encodes back to it and passes the range tests. */
  lemma {:induction false} FixedPlacedDecodes(op: byte, parts: seq<string>, cursor: nat, size: nat)
    requires op in Instructions && op != SET && op != CLEAR && cursor <= size
    requires FixedLine(op, parts, cursor, size).Placed?
    ensures var b := FixedLine(op, parts, cursor, size).bytes;
      && Decode(b).Some? && Encode(Decode(b).value) == b && Fits(Decode(b).value, size)
  {
    var kinds := Kinds(op);
    var n := |kinds|;
    var vals := ParseAll(parts[1..1 + n]).value;
    assert RangeFault(kinds, vals, size).None?;
    var values := [op as int] + OperandValues(kinds, vals);
    var b := FixedLine(op, parts, cursor, size).bytes;
    assert b == Write(values).bytes;
    assert |b| == 1 + Arity(op);
    assert b[0] == op;
    DecodesFixed(b);
    var i := Decode(b).value;
    EncodeDecode(b);
    assert Length(i) == |b|;
    assert b[..|b|] == b;
    forall j | 0 <= j < |Kinds(OpcodeOf(i))|
      ensures InRange(Kinds(OpcodeOf(i))[j], Encode(i)[j + 1] as int, size)
    {
      assert Encode(i)[j + 1] as int == values[j + 1] == OperandValues(kinds, vals)[j];
      assert InRange(kinds[j], vals[j], size);
    }
    FitsByKinds(i, size);
  }

  /** A placed WAIT is the two bytes `[WAIT, cycles]`. */
  lemma WaitPlacedDecodes(parts: seq<string>, cursor: nat, size: nat)
    requires cursor <= size && WaitLine(parts, cursor, size).Placed?
    ensures var b := WaitLine(parts, cursor, size).bytes;
      && Decode(b).Some? && Encode(Decode(b).value) == b && Decode(b).value == WaitFor(b[1])
  {
  }

  /** Bytes laid out as `[op, n, x1, y1, ...]` decode to a drawing of those pairs. */
  lemma PairsDecoded(op: byte, pairs: seq<(int, int)>, b: seq<byte>)
    requires (op == SET || op == CLEAR) && PairsPlaced(op, pairs, b)
    ensures Decode(b) == Some(Draw(op == SET, PairsAt(b, |pairs|)))
    ensures forall j :: 0 <= j < |pairs| ==>
      PairsAt(b, |pairs|)[j].0 as int == pairs[j].0 && PairsAt(b, |pairs|)[j].1 as int == pairs[j].1
  {
  }

  /** A placed SET/CLEAR is the opcode, the pair count, and the pairs in the order given. */
  lemma {:induction false} PairsPlacedDecodes(op: byte, parsed: Option<seq<(int, int)>>, cursor: nat, size: nat)
    requires (op == SET || op == CLEAR) && cursor <= size
    requires PairsLine(op, parsed, cursor, size).Placed?
    ensures var b := PairsLine(op, parsed, cursor, size).bytes;
      && Decode(b).Some? && Encode(Decode(b).value) == b && Decode(b).value.Draw?
      && Decode(b).value.on == (op == SET) && |Decode(b).value.pairs| == |parsed.value|
      && forall j :: 0 <= j < |parsed.value| ==>
           Decode(b).value.pairs[j].0 as int == parsed.value[j].0 && Decode(b).value.pairs[j].1 as int == parsed.value[j].1
  {
    PairsSpelled(op, parsed, cursor, size);
    var b := PairsLine(op, parsed, cursor, size).bytes;
    PairsDecoded(op, parsed.value, b);
    EncodeDecode(b);
    assert b[..Length(Decode(b).value)] == b;
  }

  /**
   * Whatever a line places is exactly one instruction of the table: it decodes, it
   * encodes back to the same bytes, and a fixed-length one passes the range tests
   * the step engine repeats at run time.
   */
  lemma {:induction false} PlacedDecodes(parts: seq<string>, cursor: nat, size: nat)
    requires parts != [] && !NegativeEntry(parts) && cursor <= size
    requires Line(parts, cursor, size).Placed?
    ensures var b := Line(parts, cursor, size).bytes;
      && Decode(b).Some? && Encode(Decode(b).value) == b
      && (!Decode(b).value.Draw? ==> Fits(Decode(b).value, size))
  {
    var cmd := parts[0];
    if cmd == "SET" {
      PairsPlacedDecodes(SET, ParsePairs(Segments(parts)), cursor, size);
    } else if cmd == "CLEAR" {
      PairsPlacedDecodes(CLEAR, ParsePairs(Segments(parts)), cursor, size);
    } else if cmd == "WAIT" {
      WaitPlacedDecodes(parts, cursor, size);
    } else {
      FixedPlacedDecodes(FixedOpcode(cmd).value, parts, cursor, size);
    }
  }

  /** A placed fixed-length line is its opcode, then each operand token's value in source order. */
  lemma {:induction false} FixedSpelled(op: byte, parts: seq<string>, cursor: nat, size: nat)
    requires cursor <= size && FixedLine(op, parts, cursor, size).Placed?
    ensures OperandsPlaced(op, parts, FixedLine(op, parts, cursor, size).bytes)
  {
    var kinds := Kinds(op);
    var n := |kinds|;
    assert |parts| >= 1 + n && ParseAll(parts[1..1 + n]).Some?;
    var vals := ParseAll(parts[1..1 + n]).value;
    var values := [op as int] + OperandValues(kinds, vals);
    assert FixedLine(op, parts, cursor, size) == Write(values);
    var b := Write(values).bytes;
    assert b[0] as int == values[0];
    forall j | 0 <= j < n
      ensures ParseInt(parts[1 + j]) == Some(vals[j])
      ensures b[1 + j] as int == if kinds[j] == Value then Mask(vals[j]) as int else vals[j]
    {
      assert parts[1..1 + n][j] == parts[1 + j];
      assert b[1 + j] as int == values[1 + j];
    }
  }

  /** A placed SET/CLEAR is `[op, n]` followed by the parsed pairs, in order. */
  lemma {:induction false} PairsSpelled(op: byte, parsed: Option<seq<(int, int)>>, cursor: nat, size: nat)
    requires cursor <= size && PairsLine(op, parsed, cursor, size).Placed?
    ensures parsed.Some? && PairsPlaced(op, parsed.value, PairsLine(op, parsed, cursor, size).bytes)
  {
    var pairs := parsed.value;
    var flat := FlattenInts(pairs);
    var values := [op as int, |pairs|] + flat;
    assert PairsLine(op, parsed, cursor, size) == Write(values);
    var b := Write(values).bytes;
    assert b[0] as int == values[0] && b[1] as int == values[1];
    forall j | 0 <= j < |pairs|
      ensures b[2 + 2 * j] as int == pairs[j].0 && b[3 + 2 * j] as int == pairs[j].1
    {
      assert b[2 + 2 * j] as int == values[2 + 2 * j] == flat[2 * j];
      assert b[3 + 2 * j] as int == values[3 + 2 * j] == flat[2 * j + 1];
    }
  }

  /**
   * What a placed line holds, mnemonic by mnemonic: a fixed-length instruction is its
   * opcode and its operand values in source order, SET/CLEAR are `[op, n]` and the
   * pairs in the order given, and WAIT is `[WAIT, cycles]`.
   */
  lemma {:induction false} LineSpelled(parts: seq<string>, cursor: nat, size: nat)
    requires parts != [] && !NegativeEntry(parts) && cursor <= size
    requires Line(parts, cursor, size).Placed?
    ensures var b := Line(parts, cursor, size).bytes;
      && (FixedOpcode(parts[0]).Some? ==> OperandsPlaced(FixedOpcode(parts[0]).value, parts, b))
      && (parts[0] == "SET" || parts[0] == "CLEAR" ==>
            && ParsePairs(Segments(parts)).Some?
            && PairsPlaced(if parts[0] == "SET" then SET else CLEAR, ParsePairs(Segments(parts)).value, b))
      && (parts[0] == "WAIT" ==>
            |parts| >= 2 && |b| == 2 && b[0] == WAIT && ParseInt(parts[1]) == Some(b[1] as int))
  {
    var cmd := parts[0];
    if cmd == "SET" {
      PairsSpelled(SET, ParsePairs(Segments(parts)), cursor, size);
    } else if cmd == "CLEAR" {
      PairsSpelled(CLEAR, ParsePairs(Segments(parts)), cursor, size);
    } else if cmd == "WAIT" {
      assert Line(parts, cursor, size) == WaitLine(parts, cursor, size);
    } else if FixedOpcode(cmd).Some? {
      FixedDispatch(parts, cursor, size);
      FixedSpelled(FixedOpcode(cmd).value, parts, cursor, size);
    }
  }

  lemma ParsesOne(t: string, v: int)
    requires ParseInt(t) == Some(v)
    ensures ParseAll([t]) == Some([v])
  {
    assert [t][1..] == [];
    assert ParseAll([]) == Some([]);
    assert [v] + [] == [v];
  }

  lemma ParsesTwo(t: string, u: string, v: int, w: int)
    requires ParseInt(t) == Some(v) && ParseInt(u) == Some(w)
    ensures ParseAll([t, u]) == Some([v, w])
  {
    assert [t, u][1..] == [u];
    ParsesOne(u, w);
    assert [v] + [w] == [v, w];
  }

  /** A fixed-length mnemonic selects its own branch. */
  lemma FixedDispatch(parts: seq<string>, cursor: nat, size: nat)
    requires parts != [] && FixedOpcode(parts[0]).Some? && cursor <= size
    ensures !NegativeEntry(parts)
    ensures Line(parts, cursor, size) == FixedLine(FixedOpcode(parts[0]).value, parts, cursor, size)
  {
  }

  /** Room in RAM is tested before any operand is read: a line that does not fit is NotEnoughRam whatever follows the mnemonic. */
  lemma RoomCheckedFirst(op: byte, parts: seq<string>, cursor: nat, size: nat)
    requires cursor <= size
    ensures FixedLine(op, parts, cursor, size) == Rejected(NotEnoughRam, []) <==> cursor + 1 + |Kinds(op)| > size
    ensures WaitLine(parts, cursor, size) == Rejected(NotEnoughRam, []) <==> cursor + 2 > size
  {
  }

  /** SET/CLEAR test their room only once every pair has been read and at least one was found. */
  lemma PairsRoomCheckedLast(op: byte, parsed: Option<seq<(int, int)>>, cursor: nat, size: nat)
    requires cursor <= size
    ensures PairsLine(op, parsed, cursor, size) == Rejected(NotEnoughRam, [])
      <==> parsed.Some? && parsed.value != [] && cursor + 2 + 2 * |parsed.value| > size
  {
  }

  /**
   * LOAD and JUMP with one operand: an address at or past the RAM size is rejected
   * before anything is written; any other address that is not a byte (negative, or
   * 256 and up in a larger RAM) fails only when it is stored, after the opcode.
   * Tokens after the operand are ignored.
   */
  lemma {:induction false} SingleAddress(op: byte, cmd: string, t: string, a: int, extra: seq<string>, cursor: nat, size: nat)
    requires op == LOAD || op == JUMP
    requires ParseInt(t) == Some(a) && cursor + 2 <= size
    ensures FixedLine(op, [cmd, t] + extra, cursor, size) ==
      if a >= size then Rejected(AddressOutOfRange, [])
      else if IsByte(a) then Placed([op, a as byte])
      else Rejected(MalformedOperand, [op])
  {
    var parts := [cmd, t] + extra;
    assert parts[1..2] == [t];
    assert Kinds(op) == [RamAddress];
    ParsesOne(t, a);
    if a < size {
      assert OperandValues([RamAddress], [a]) == [a];
      assert Emit([op as int, a]) == [op] + Emit([a]);
    }
  }

  /**
   * STORE and SCRATCH_STORE mask their value operand to a byte (`value & 0xFF`), so
   * any integer is accepted there and stored modulo 256.
   */
  lemma {:induction false} ValueMasked(op: byte, cmd: string, a: nat, t: string, v: int, extra: seq<string>, cursor: nat, size: nat)
    requires op == STORE || op == SCRATCH_STORE
    requires a < 256 && a < (if op == STORE then size else SCRATCHPAD_SIZE)
    requires ParseInt(t) == Some(v) && cursor + 3 <= size
    ensures FixedLine(op, [cmd, Decimal(a), t] + extra, cursor, size) == Placed([op, a as byte, Mask(v)])
  {
    var parts := [cmd, Decimal(a), t] + extra;
    ParseDecimal(a);
    assert parts[1..3] == [Decimal(a), t];
    var kinds := Kinds(op);
    assert kinds == [if op == STORE then RamAddress else ScratchAddress, Value];
    ParsesTwo(Decimal(a), t, a, v);
    assert RangeFault(kinds, [a, v], size) == None;
    assert OperandValues(kinds, [a, v]) == [a, Mask(v) as int];
    var values := [op as int, a, Mask(v) as int];
    assert Emit(values) == [op, a as byte, Mask(v)] by {
      assert values[1..] == [a, Mask(v) as int];
      assert values[1..][1..] == [Mask(v) as int];
      assert values[1..][1..][1..] == [];
    }
  }

  /** WAIT does not mask its count: a count outside 0..255 fails after the opcode byte is written. */
  lemma {:induction false} WaitNotMasked(t: string, c: int, extra: seq<string>, cursor: nat, size: nat)
    requires ParseInt(t) == Some(c) && cursor + 2 <= size
    ensures Line(["WAIT", t] + extra, cursor, size) ==
      if IsByte(c) then Placed([WAIT, c as byte]) else Rejected(MalformedOperand, [WAIT])
  {
    var parts := ["WAIT", t] + extra;
    assert parts[0] == "WAIT" && parts[1] == t;
    assert Emit([WAIT as int, c]) == [WAIT] + Emit([c]);
  }

  /**
   * The order of the range tests: SCRATCH_LOAD tests its scratchpad slot before its
   * RAM address, SCRATCH_COPY and SCRATCH_JUMPIF their RAM address before their slot.
   */
  lemma {:induction false} ScratchTestOrder(cmd: string, s: string, r: string, x: int, y: int, extra: seq<string>, cursor: nat, size: nat)
    requires ParseInt(s) == Some(x) && ParseInt(r) == Some(y)
    requires x >= SCRATCHPAD_SIZE && y >= size && cursor + 3 <= size
    ensures FixedLine(SCRATCH_LOAD, [cmd, s, r] + extra, cursor, size) == Rejected(ScratchAddressOutOfRange, [])
    ensures FixedLine(SCRATCH_COPY, [cmd, r, s] + extra, cursor, size) == Rejected(AddressOutOfRange, [])
    ensures FixedLine(SCRATCH_JUMPIF, [cmd, r, s] + extra, cursor, size) == Rejected(AddressOutOfRange, [])
  {
    var load, copy := [cmd, s, r] + extra, [cmd, r, s] + extra;
    assert load[1] == s && load[2] == r;
    assert copy[1] == r && copy[2] == s;
    FirstRangeTestDecides(SCRATCH_LOAD, load, x, y, cursor, size);
    FirstRangeTestDecides(SCRATCH_COPY, copy, y, x, cursor, size);
    FirstRangeTestDecides(SCRATCH_JUMPIF, copy, y, x, cursor, size);
  }

  /** With two operands that both parse, a first operand out of range decides the error. */
  lemma {:induction false} FirstRangeTestDecides(op: byte, parts: seq<string>, v: int, w: int, cursor: nat, size: nat)
    requires |Kinds(op)| == 2 && |parts| >= 3 && cursor + 3 <= size
    requires ParseInt(parts[1]) == Some(v) && ParseInt(parts[2]) == Some(w)
    requires !InRange(Kinds(op)[0], v, size)
    ensures FixedLine(op, parts, cursor, size)
         == Rejected(if Kinds(op)[0] == ScratchAddress then ScratchAddressOutOfRange else AddressOutOfRange, [])
  {
    assert parts[1..3] == [parts[1], parts[2]];
    ParsesTwo(parts[1], parts[2], v, w);
    var kinds := Kinds(op);
    assert RangeFault(kinds, [v, w], size)
        == Some(if kinds[0] == ScratchAddress then ScratchAddressOutOfRange else AddressOutOfRange);
  }

  /** Empty pieces between commas (`SET 1 1,,2 2`, a trailing comma) are skipped. */
  lemma {:induction false} BlankSegmentsIgnored(before: seq<string>, blank: string, after: seq<string>)
    requires Strip(blank) == []
    ensures ParsePairs(before + [blank] + after) == ParsePairs(before + after)
    decreases |before|
  {
    var s1, s2 := before + [blank] + after, before + after;
    assert ReadSegment(blank) == Blank;
    if before == [] {
      assert s1[0] == blank && s1[1..] == after && s2 == after;
    } else {
      assert s1[0] == before[0] && s1[1..] == before[1..] + [blank] + after;
      assert s2[0] == before[0] && s2[1..] == before[1..] + after;
      BlankSegmentsIgnored(before[1..], blank, after);
    }
  }

  lemma Uncons(before: seq<string>, x: string, after: seq<string>)
    requires before != []
    ensures var s := before + [x] + after; s != [] && s[0] == before[0] && s[1..] == before[1..] + [x] + after
  {
  }

  lemma UnconsAppend(a: seq<string>, b: seq<string>)
    requires a != []
    ensures a + b != [] && (a + b)[0] == a[0] && (a + b)[1..] == a[1..] + b
  {
  }

  /** What one piece adds in front of the pairs of the pieces after it. */
  function AddPiece(s: Segment, rest: Option<seq<(int, int)>>): Option<seq<(int, int)>> {
    match s
    case Blank => rest
    case BadPair => None
    case Pair(x, y) => if rest.Some? then Some([(x, y)] + rest.value) else None
  }

  /** Two runs of pairs one after the other, None if either is. */
  function Concat(p: Option<seq<(int, int)>>, q: Option<seq<(int, int)>>): Option<seq<(int, int)>> {
    if p.Some? && q.Some? then Some(p.value + q.value) else None
  }

  lemma ParsePairsUnfold(segments: seq<string>)
    requires segments != []
    ensures ParsePairs(segments) == AddPiece(ReadSegment(segments[0]), ParsePairs(segments[1..]))
  {
  }

  lemma AddPieceConcat(s: Segment, p: Option<seq<(int, int)>>, q: Option<seq<(int, int)>>)
    ensures AddPiece(s, Concat(p, q)) == Concat(AddPiece(s, p), q)
  {
    if s.Pair? && p.Some? && q.Some? {
      assert [(s.x, s.y)] + (p.value + q.value) == ([(s.x, s.y)] + p.value) + q.value;
    }
  }

  /**
   * The pairs of two runs of pieces are the pairs of the first followed by those of
   * the second; a bad piece in either spoils the whole.
   */
  lemma {:induction false} ParsePairsAppend(a: seq<string>, b: seq<string>)
    ensures ParsePairs(a + b) == Concat(ParsePairs(a), ParsePairs(b))
    decreases |a|
  {
    if a == [] {
      assert a + b == b;
      assert ParsePairs(a) == Some([]);
      if ParsePairs(b).Some? {
        assert [] + ParsePairs(b).value == ParsePairs(b).value;
      }
    } else {
      UnconsAppend(a, b);
      ParsePairsUnfold(a + b);
      ParsePairsUnfold(a);
      ParsePairsAppend(a[1..], b);
      AddPieceConcat(ReadSegment(a[0]), ParsePairs(a[1..]), ParsePairs(b));
    }
  }

  /** One piece that is not exactly two integers spoils the whole pair list, wherever it stands. */
  lemma {:induction false} BadSegmentRejected(before: seq<string>, bad: string, after: seq<string>)
    requires ReadSegment(bad) == BadPair
    ensures ParsePairs(before + [bad] + after) == None
    decreases |before|
  {
    var s := before + [bad] + after;
    if before == [] {
      assert s != [] && s[0] == bad;
    } else {
      Uncons(before, bad, after);
      BadSegmentRejected(before[1..], bad, after);
    }
  }

  /** A SET with no pair at all is refused, whatever the room left. */
  lemma SetWithoutPairs(cursor: nat, size: nat)
    requires cursor <= size
    ensures Line(["SET"], cursor, size) == Rejected(RequiresPairs, [])
  {
    var parts := ["SET"];
    assert parts[1..] == [];
    assert Segments(parts) == SplitOn("", ',') == [""];
    assert Strip("") == [];
    assert ReadSegment("") == Blank;
    assert [""][1..] == [];
    assert ParsePairs([""]) == ParsePairs([]);
  }

  /** Decimal numerals hold no blank and no comma. */
  lemma DecimalIsWord(n: nat)
    ensures Decimal(n) != [] && NoSpace(Decimal(n)) && ',' !in Decimal(n)
  {
    var d := Decimal(n);
    forall i | 0 <= i < |d| ensures !IsSpace(d[i]) && d[i] != ',' {
      assert IsDigit(d[i]);
    }
  }

  /** `"x y"` with two numerals reads as the one pair `(x, y)`. */
  lemma {:induction false} OnePairSegment(x: nat, y: nat)
    ensures ParsePairs([Decimal(x) + " " + Decimal(y)]) == Some([(x as int, y as int)])
  {
    DecimalIsWord(x);
    DecimalIsWord(y);
    ParseDecimal(x);
    ParseDecimal(y);
    OnePairAt(Decimal(x), Decimal(y), Decimal(x) + " " + Decimal(y), x, y);
  }

  lemma {:induction false} OnePairAt(dx: string, dy: string, seg: string, x: int, y: int)
    requires dx != [] && dy != [] && NoSpace(dx) && NoSpace(dy) && seg == dx + " " + dy
    requires ParseInt(dx) == Some(x) && ParseInt(dy) == Some(y)
    ensures ParsePairs([seg]) == Some([(x, y)])
  {
    assert seg[0] == dx[0] && seg[|seg| - 1] == dy[|dy| - 1];
    StripKeeps(seg);
    SplitTwo(dx, dy);
    ReadsPair(dx, dy, seg, x, y);
    SinglePair(seg, x, y);
  }

  /** A list holding one segment that reads as a pair parses to that pair. */
  lemma {:induction false} SinglePair(seg: string, x: int, y: int)
    requires ReadSegment(seg) == Pair(x, y)
    ensures ParsePairs([seg]) == Some([(x, y)])
  {
    assert [seg][1..] == [];
    assert ParsePairs([]) == Some([]);
    assert [(x, y)] + [] == [(x, y)];
  }

  lemma ReadsPair(dx: string, dy: string, seg: string, x: int, y: int)
    requires seg != [] && Strip(seg) == seg && Split(seg) == [dx, dy]
    requires ParseInt(dx) == Some(x) && ParseInt(dy) == Some(y)
    ensures ReadSegment(seg) == Pair(x, y)
  {
  }

  /** `SET x y` with coordinates that are bytes and room for four bytes assembles to `[SET, 1, x, y]`. */
  lemma {:induction false} SetOnePair(x: nat, y: nat, cursor: nat, size: nat)
    requires x < 256 && y < 256 && cursor + 4 <= size
    ensures Line(["SET", Decimal(x), Decimal(y)], cursor, size) == Placed([SET, 1, x as byte, y as byte])
  {
    var parts := ["SET", Decimal(x), Decimal(y)];
    SetSegments(x, y);
    OnePairSegment(x, y);
    var parsed := Some([(x as int, y as int)]);
    assert ParsePairs(Segments(parts)) == parsed;
    assert Line(parts, cursor, size) == PairsLine(SET, parsed, cursor, size);
    OnePairPlaced(x, y, cursor, size);
  }

  /**
   * `SET x1 y1,x2 y2` with byte coordinates and room for six bytes assembles to
   * `[SET, 2, x1, y1, x2, y2]`: the count, then the pairs in the order written
   * (`SET 0 0,1 1` is the instance `x1 = y1 = 0`, `x2 = y2 = 1`).
   */
  lemma {:induction false} SetTwoPairs(x1: nat, y1: nat, x2: nat, y2: nat, cursor: nat, size: nat)
    requires x1 < 256 && y1 < 256 && x2 < 256 && y2 < 256 && cursor + 6 <= size
    ensures Line(["SET", Decimal(x1), Decimal(y1) + "," + Decimal(x2), Decimal(y2)], cursor, size)
         == Placed([SET, 2, x1 as byte, y1 as byte, x2 as byte, y2 as byte])
  {
    var parts := ["SET", Decimal(x1), Decimal(y1) + "," + Decimal(x2), Decimal(y2)];
    var pairs := [(x1 as int, y1 as int), (x2 as int, y2 as int)];
    TwoPairsParsed(x1, y1, x2, y2);
    assert Line(parts, cursor, size) == PairsLine(SET, Some(pairs), cursor, size);
    TwoPairsPlaced(x1, y1, x2, y2, cursor, size);
  }

  lemma {:induction false} TwoPairsParsed(x1: nat, y1: nat, x2: nat, y2: nat)
    ensures ParsePairs(Segments(["SET", Decimal(x1), Decimal(y1) + "," + Decimal(x2), Decimal(y2)]))
         == Some([(x1 as int, y1 as int), (x2 as int, y2 as int)])
  {
    var seg1, seg2 := Decimal(x1) + " " + Decimal(y1), Decimal(x2) + " " + Decimal(y2);
    TwoPairSegments(x1, y1, x2, y2);
    OnePairSegment(x1, y1);
    OnePairSegment(x2, y2);
    ParsePairsAppend([seg1], [seg2]);
    assert [seg1] + [seg2] == [seg1, seg2];
    assert [(x1 as int, y1 as int)] + [(x2 as int, y2 as int)] == [(x1 as int, y1 as int), (x2 as int, y2 as int)];
  }

  lemma {:induction false} TwoPairsPlaced(x1: nat, y1: nat, x2: nat, y2: nat, cursor: nat, size: nat)
    requires x1 < 256 && y1 < 256 && x2 < 256 && y2 < 256 && cursor + 6 <= size
    ensures PairsLine(SET, Some([(x1 as int, y1 as int), (x2 as int, y2 as int)]), cursor, size)
         == Placed([SET, 2, x1 as byte, y1 as byte, x2 as byte, y2 as byte])
  {
    var pairs := [(x1 as int, y1 as int), (x2 as int, y2 as int)];
    PairsFit(SET, pairs, cursor, size);
    PairsSpelled(SET, Some(pairs), cursor, size);
    var b := PairsLine(SET, Some(pairs), cursor, size).bytes;
    assert b[2] as int == x1 && b[3] as int == y1 && b[4] as int == x2 && b[5] as int == y2;
    assert b == [SET, 2, x1 as byte, y1 as byte, x2 as byte, y2 as byte];
  }

  /** Pairs of byte coordinates, fewer than 256 of them and with room in RAM, are placed. */
  lemma {:induction false} PairsFit(op: byte, pairs: seq<(int, int)>, cursor: nat, size: nat)
    requires pairs != [] && |pairs| < 256 && cursor + 2 + 2 * |pairs| <= size
    requires forall j :: 0 <= j < |pairs| ==> IsByte(pairs[j].0) && IsByte(pairs[j].1)
    ensures PairsLine(op, Some(pairs), cursor, size).Placed?
  {
    var flat := FlattenInts(pairs);
    var values := [op as int, |pairs|] + flat;
    forall k | 0 <= k < |values| ensures IsByte(values[k]) {
      if k >= 2 {
        var j := (k - 2) / 2;
        assert k == 2 + 2 * j || k == 3 + 2 * j;
      }
    }
    WriteBytes(values);
  }

  /** Values that are all bytes are all written. */
  lemma WriteBytes(values: seq<int>)
    requires forall j :: 0 <= j < |values| ==> IsByte(values[j])
    ensures Write(values).Placed?
  {
  }

  lemma {:induction false} TwoPairSegments(x1: nat, y1: nat, x2: nat, y2: nat)
    ensures Segments(["SET", Decimal(x1), Decimal(y1) + "," + Decimal(x2), Decimal(y2)])
         == [Decimal(x1) + " " + Decimal(y1), Decimal(x2) + " " + Decimal(y2)]
  {
    var parts := ["SET", Decimal(x1), Decimal(y1) + "," + Decimal(x2), Decimal(y2)];
    var seg1, seg2 := Decimal(x1) + " " + Decimal(y1), Decimal(x2) + " " + Decimal(y2);
    var tail := parts[1..];
    assert tail == [Decimal(x1), Decimal(y1) + "," + Decimal(x2), Decimal(y2)];
    assert tail[1..][1..] == [Decimal(y2)];
    assert JoinWith(tail[1..][1..], ' ') == Decimal(y2);
    assert JoinWith(tail, ' ') == seg1 + [','] + seg2;
    DecimalIsWord(x1);
    DecimalIsWord(y1);
    DecimalIsWord(x2);
    DecimalIsWord(y2);
    assert ',' !in seg1 && ',' !in seg2;
    SplitOnFirst(seg1, seg2, ',');
    SplitOnNone(seg2, ',');
  }

  lemma {:induction false} SetSegments(x: nat, y: nat)
    ensures Segments(["SET", Decimal(x), Decimal(y)]) == [Decimal(x) + " " + Decimal(y)]
  {
    var parts := ["SET", Decimal(x), Decimal(y)];
    var seg := Decimal(x) + " " + Decimal(y);
    assert parts[1..] == [Decimal(x), Decimal(y)];
    assert [Decimal(x), Decimal(y)][1..] == [Decimal(y)];
    assert JoinWith([Decimal(y)], ' ') == Decimal(y);
    assert JoinWith(parts[1..], ' ') == seg;
    DecimalIsWord(x);
    DecimalIsWord(y);
    assert ',' !in seg;
    SplitOnNone(seg, ',');
  }

  lemma {:induction false} OnePairPlaced(x: nat, y: nat, cursor: nat, size: nat)
    requires x < 256 && y < 256 && cursor + 4 <= size
    ensures PairsLine(SET, Some([(x as int, y as int)]), cursor, size) == Placed([SET, 1, x as byte, y as byte])
  {
    var values := [SET as int, 1] + FlattenInts([(x as int, y as int)]);
    assert values == [SET as int, 1, x, y];
    assert Emit(values) == [SET, 1, x as byte, y as byte] by {
      assert values[1..] == [1, x, y];
      assert values[1..][1..] == [x, y];
      assert values[1..][1..][1..] == [y];
      assert values[1..][1..][1..][1..] == [];
    }
  }
}
