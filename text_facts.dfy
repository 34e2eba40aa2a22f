/**
 * Facts about the string built-ins in `Text` that the assembler's guarantees rest on:
 * upper-casing commutes with stripping, and `split()` of two words separated by a
 * blank gives back the two words.
 */
module TextFacts {
  import opened Text

  lemma {:induction false} TrimStartUpper(s: string)
    ensures TrimStart(Upper(s)) == Upper(TrimStart(s))
    decreases |s|
  {
    if s != [] && IsSpace(s[0]) {
      assert Upper(s)[1..] == Upper(s[1..]);
      TrimStartUpper(s[1..]);
    }
  }

  lemma {:induction false} TrimEndUpper(s: string)
    ensures TrimEnd(Upper(s)) == Upper(TrimEnd(s))
    decreases |s|
  {
    if s != [] && IsSpace(s[|s| - 1]) {
      assert Upper(s)[..|s| - 1] == Upper(s[..|s| - 1]);
      TrimEndUpper(s[..|s| - 1]);
    }
  }

  /** `s.strip().upper() == s.upper().strip()`: case mapping never turns a blank into a non-blank or back. */
  lemma StripUpper(s: string)
    ensures Strip(Upper(s)) == Upper(Strip(s))
  {
    TrimStartUpper(s);
    TrimEndUpper(TrimStart(s));
  }

  /** Upper-casing twice is upper-casing once. */
  lemma UpperTwice(s: string)
    ensures Upper(Upper(s)) == Upper(s)
  {
  }

  /** The first word of a string that starts with a word and then a blank is that word. */
  lemma {:induction false} WordLengthOf(w: string, rest: string)
    requires NoSpace(w) && (rest == [] || IsSpace(rest[0]))
    ensures WordLength(w + rest) == |w|
    decreases |w|
  {
    if w != [] {
      assert (w + rest)[1..] == w[1..] + rest;
      WordLengthOf(w[1..], rest);
    } else {
      assert w + rest == rest;
    }
  }

  /** A word followed by a blank (or by nothing) is the first token. */
  lemma {:induction false} SplitFirst(w: string, rest: string)
    requires w != [] && NoSpace(w) && (rest == [] || IsSpace(rest[0]))
    ensures Split(w + rest) == [w] + Split(rest)
  {
    var s := w + rest;
    assert s[0] == w[0];
    assert TrimStart(s) == s;
    WordLengthOf(w, rest);
    assert s[..|w|] == w && s[|w|..] == rest;
  }

  /** Leading blanks do not change the tokens. */
  lemma {:induction false} SplitBlank(b: string)
    ensures Split(" " + b) == Split(b)
  {
    var t := " " + b;
    assert t[1..] == b;
    assert TrimStart(t) == TrimStart(b);
  }

  /** A single blank-free word, with or without a blank before it, splits into itself. */
  lemma SplitOne(b: string)
    requires b != [] && NoSpace(b)
    ensures Split(b) == [b] && Split(" " + b) == [b]
  {
    SplitAlone(b);
    SplitBlank(b);
  }

  lemma {:induction false} SplitAlone(b: string)
    requires b != [] && NoSpace(b)
    ensures Split(b) == [b]
  {
    var s := b + [];
    assert s == b;
    SplitFirst(b, []);
    assert Split([]) == [];
  }

  /** `"a b".split() == ["a", "b"]` for any two non-empty blank-free words. */
  lemma {:induction false} SplitTwo(a: string, b: string)
    requires a != [] && b != [] && NoSpace(a) && NoSpace(b)
    ensures Split(a + " " + b) == [a, b]
  {
    SplitTwoAt(a, b, " " + b, a + " " + b);
  }

  lemma {:induction false} SplitTwoAt(a: string, b: string, t: string, s: string)
    requires a != [] && b != [] && NoSpace(a) && NoSpace(b)
    requires t == " " + b && s == a + t
    ensures Split(s) == [a, b]
  {
    assert IsSpace(t[0]);
    SplitFirst(a, t);
    SplitOne(b);
  }

  /** `s.strip()` leaves a string alone when it neither starts nor ends with a blank. */
  lemma StripKeeps(s: string)
    requires s != [] && !IsSpace(s[0]) && !IsSpace(s[|s| - 1])
    ensures Strip(s) == s
  {
  }

  /** `s.split(sep)` of a string without `sep` is the string itself. */
  lemma SplitOnNone(s: string, sep: char)
    requires sep !in s
    ensures SplitOn(s, sep) == [s]
  {
  }

  /** Cutting at the first separator: the piece before it, then the cuts of what follows. */
  lemma SplitOnFirst(s1: string, s2: string, sep: char)
    requires sep !in s1
    ensures SplitOn(s1 + [sep] + s2, sep) == [s1] + SplitOn(s2, sep)
  {
    var s := s1 + [sep] + s2;
    assert forall j :: 0 <= j < |s1| ==> s[j] == s1[j];
    assert s[|s1|] == sep;
    assert IndexOf(s, sep) == |s1|;
    assert s[..|s1|] == s1 && s[|s1| + 1..] == s2;
  }
}
