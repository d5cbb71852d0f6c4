/** Newline framing over a byte stream, as `_read_lines` does it. */
module Framing {
  import opened Bytes

  const NEWLINE: Byte := 10

  /** ASCII whitespace, what `bytes.strip()` removes. */
  predicate IsSpace(b: Byte) { b == 32 || 9 <= b <= 13 }

  function StripLeft(line: seq<Byte>): seq<Byte>
  {
    if line != [] && IsSpace(line[0]) then StripLeft(line[1..]) else line
  }

  function StripRight(line: seq<Byte>): seq<Byte>
  {
    if line != [] && IsSpace(line[|line| - 1]) then StripRight(line[..|line| - 1]) else line
  }

  function Strip(line: seq<Byte>): seq<Byte> { StripRight(StripLeft(line)) }

  /** The index of the first newline, or the length if there is none. */
  function FirstNewline(bytes: seq<Byte>): (n: nat)
    ensures n <= |bytes|
    ensures forall k :: 0 <= k < n ==> bytes[k] != NEWLINE
    ensures n < |bytes| ==> bytes[n] == NEWLINE
  {
    if bytes == [] || bytes[0] == NEWLINE then 0
    else 1 + FirstNewline(bytes[1..])
  }

  /** One terminated line as the reader hands it out: nothing if it is blank. */
  function Cleaned(line: seq<Byte>): seq<seq<Byte>>
  {
    if Strip(line) == [] then [] else [Strip(line)]
  }

  /** The stripped, non-blank lines that a newline terminates, in order. */
  function Lines(bytes: seq<Byte>): seq<seq<Byte>>
    decreases |bytes|
  {
    var n := FirstNewline(bytes);
    if n == |bytes| then [] else Cleaned(bytes[..n]) + Lines(bytes[n + 1..])
  }

  /** What follows the last newline. */
  function Rest(bytes: seq<Byte>): seq<Byte>
    decreases |bytes|
  {
    var n := FirstNewline(bytes);
    if n == |bytes| then bytes else Rest(bytes[n + 1..])
  }

  lemma NewlineUnchanged(a: seq<Byte>, b: seq<Byte>)
    requires FirstNewline(a) < |a|
    ensures FirstNewline(a + b) == FirstNewline(a)
  {
    assert forall k :: 0 <= k < |a| ==> (a + b)[k] == a[k];
  }

  /**
   * Framing does not depend on how the stream is cut: lines of the first part, then lines of
   * what it left over followed by the second part.
   */
  lemma {:induction false} LinesConcat(a: seq<Byte>, b: seq<Byte>)
    ensures Lines(a + b) == Lines(a) + Lines(Rest(a) + b)
    ensures Rest(a + b) == Rest(Rest(a) + b)
    decreases |a|
  {
    hide *;
    var n := FirstNewline(a);
    if n < |a| {
      var tail := a[n + 1..];
      NewlineUnchanged(a, b);
      FirstLine(a);
      FirstLine(a + b);
      assert (a + b)[..n] == a[..n] && (a + b)[n + 1..] == tail + b;
      LinesConcat(tail, b);
      Regroup(Cleaned(a[..n]), Lines(tail), Lines(Rest(a) + b));
    } else {
      NoLine(a);
      assert [] + Lines(a + b) == Lines(a + b);
    }
  }

  lemma NoLine(a: seq<Byte>)
    requires FirstNewline(a) == |a|
    ensures Lines(a) == [] && Rest(a) == a
  {
  }

  lemma FirstLine(a: seq<Byte>)
    requires FirstNewline(a) < |a|
    ensures var n := FirstNewline(a);
            Lines(a) == Cleaned(a[..n]) + Lines(a[n + 1..]) && Rest(a) == Rest(a[n + 1..])
  {
    hide Cleaned;
  }

  lemma Regroup(x: seq<seq<Byte>>, y: seq<seq<Byte>>, z: seq<seq<Byte>>)
    ensures x + (y + z) == (x + y) + z
  {
  }

  /** No newline is left over, and the leftover is the end of the stream. */
  lemma {:induction false} RestIsTail(a: seq<Byte>)
    ensures NEWLINE !in Rest(a)
    ensures Lines(Rest(a)) == [] && Rest(Rest(a)) == Rest(a)
    ensures |Rest(a)| <= |a| && Rest(a) == a[|a| - |Rest(a)|..]
    decreases |a|
  {
    var n := FirstNewline(a);
    if n < |a| {
      RestIsTail(a[n + 1..]);
    } else {
      assert a[..n] == a;
    }
  }

  // ----- what a line is -----

  predicate AllBlank(bytes: seq<Byte>)
  {
    forall k :: 0 <= k < |bytes| ==> bytes[k] in {9, 10, 11, 12, 13, 32}
  }

  /** Stripping removes the blanks at both ends, all of them and nothing else. */
  lemma StripRemovesBlanks(line: seq<Byte>) returns (before: seq<Byte>, after: seq<Byte>)
    ensures line == before + Strip(line) + after && AllBlank(before) && AllBlank(after)
    ensures var kept := Strip(line);
            kept != [] ==> kept[0] !in {9, 10, 11, 12, 13, 32} && kept[|kept| - 1] !in {9, 10, 11, 12, 13, 32}
  {
    before := LeftBlanks(line);
    after := RightBlanks(StripLeft(line));
    assert line == before + (Strip(line) + after);
  }

  lemma {:induction false} LeftBlanks(line: seq<Byte>) returns (before: seq<Byte>)
    ensures line == before + StripLeft(line) && AllBlank(before)
    ensures StripLeft(line) != [] ==> StripLeft(line)[0] !in {9, 10, 11, 12, 13, 32}
  {
    before := [];
    if line != [] && IsSpace(line[0]) {
      var more := LeftBlanks(line[1..]);
      before := [line[0]] + more;
      assert line == [line[0]] + line[1..];
    }
  }

  lemma {:induction false} RightBlanks(line: seq<Byte>) returns (after: seq<Byte>)
    ensures line == StripRight(line) + after && AllBlank(after)
    ensures var kept := StripRight(line);
            kept != [] ==> kept[0] == line[0] && kept[|kept| - 1] !in {9, 10, 11, 12, 13, 32}
  {
    after := [];
    if line != [] && IsSpace(line[|line| - 1]) {
      var more := RightBlanks(line[..|line| - 1]);
      after := more + [line[|line| - 1]];
      assert line == line[..|line| - 1] + [line[|line| - 1]];
    }
  }

  /** A newline ends a line; without one nothing is handed out. */
  lemma NewlineEndsLine(line: seq<Byte>, more: seq<Byte>)
    requires 10 !in line
    ensures Lines(line + [10] + more) == (if Strip(line) == [] then [] else [Strip(line)]) + Lines(more)
    ensures Rest(line + [10] + more) == Rest(more)
    ensures Lines(line) == [] && Rest(line) == line
  {
    hide Strip, Lines, Rest;
    var all := line + [10] + more;
    var n := FirstNewline(all);
    assert all[|line|] == 10 && forall k :: 0 <= k < |line| ==> all[k] == line[k];
    assert n == |line| && all[..n] == line && all[n + 1..] == more;
    FirstLine(all);
    NoLine(line);
  }
}
