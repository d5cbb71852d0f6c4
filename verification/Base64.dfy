/** Standard base64 with padding, as section 4 of RFC 4648 defines it. */
module Base64 {
  import opened Bytes
  import opened Options

  /** The character for a 6-bit value. */
  function Digit(v: int): char
    requires 0 <= v < 64
  {
    if v < 26 then 'A' + v as char
    else if v < 52 then 'a' + (v - 26) as char
    else if v < 62 then '0' + (v - 52) as char
    else if v == 62 then '+'
    else '/'
  }

  /** The 6-bit value of a character, if it is in the alphabet. */
  function Value(c: char): (v: Option<int>)
    ensures v.Some? ==> 0 <= v.value < 64
  {
    if 'A' <= c <= 'Z' then Some(c as int - 'A' as int)
    else if 'a' <= c <= 'z' then Some(c as int - 'a' as int + 26)
    else if '0' <= c <= '9' then Some(c as int - '0' as int + 52)
    else if c == '+' then Some(62)
    else if c == '/' then Some(63)
    else None
  }

  function Encode(b: seq<Byte>): string
  {
    if |b| == 0 then ""
    else if |b| == 1 then [Digit(b[0] / 4), Digit(b[0] % 4 * 16), '=', '=']
    else if |b| == 2 then [Digit(b[0] / 4), Digit(b[0] % 4 * 16 + b[1] / 16), Digit(b[1] % 16 * 4), '=']
    else Group(b[0], b[1], b[2]) + Encode(b[3..])
  }

  function Group(x: Byte, y: Byte, z: Byte): string
  {
    [Digit(x / 4), Digit(x % 4 * 16 + y / 16), Digit(y % 16 * 4 + z / 64), Digit(z % 64)]
  }

  /** Strict decoding: whole groups, padding only at the end, no stray bits. */
  function Decode(s: string): Option<seq<Byte>>
  {
    if |s| == 0 then Some([])
    else if |s| < 4 then None
    else
      var p, q, r, t := Value(s[0]), Value(s[1]), Value(s[2]), Value(s[3]);
      if p.None? || q.None? then None
      else if |s| == 4 && s[2] == '=' && s[3] == '=' then
        if q.value % 16 != 0 then None else Some([p.value * 4 + q.value / 16])
      else if r.None? then None
      else if |s| == 4 && s[3] == '=' then
        if r.value % 4 != 0 then None else Some([p.value * 4 + q.value / 16, q.value % 16 * 16 + r.value / 4])
      else if t.None? then None
      else
        match Decode(s[4..])
        case None => None
        case Some(rest) =>
          Some([p.value * 4 + q.value / 16, q.value % 16 * 16 + r.value / 4, r.value % 4 * 64 + t.value] + rest)
  }

  lemma DigitValue(v: int)
    requires 0 <= v < 64
    ensures Value(Digit(v)) == Some(v) && Digit(v) != '='
  {
  }

  lemma GroupBits(x: Byte, y: Byte, z: Byte)
    ensures var p, q, r, t := x / 4, x % 4 * 16 + y / 16, y % 16 * 4 + z / 64, z % 64;
            && p * 4 + q / 16 == x && q % 16 * 16 + r / 4 == y && r % 4 * 64 + t == z
            && 0 <= p < 64 && 0 <= q < 64 && 0 <= r < 64 && 0 <= t < 64
  {
  }

  /** Decoding inverts encoding. */
  lemma {:induction false} RoundTrip(b: seq<Byte>)
    ensures Decode(Encode(b)) == Some(b)
  {
    hide Decode, Digit, Group;
    if |b| == 0 {
      NothingLeft();
    } else if |b| == 1 {
      OneLeft(b[0]);
      assert [b[0]] == b;
    } else if |b| == 2 {
      TwoLeft(b[0], b[1]);
      assert [b[0], b[1]] == b;
    } else {
      RoundTrip(b[3..]);
      GroupDecodes(b[0], b[1], b[2], Encode(b[3..]));
      assert [b[0], b[1], b[2]] + b[3..] == b;
    }
  }

  lemma NothingLeft()
    ensures Decode("") == Some([])
  {
  }

  lemma OneLeft(x: Byte)
    ensures Decode([Digit(x / 4), Digit(x % 4 * 16), '=', '=']) == Some([x])
  {
    GroupBits(x, 0, 0);
    DigitValue(x / 4);
    DigitValue(x % 4 * 16);
  }

  lemma TwoLeft(x: Byte, y: Byte)
    ensures Decode([Digit(x / 4), Digit(x % 4 * 16 + y / 16), Digit(y % 16 * 4), '=']) == Some([x, y])
  {
    GroupBits(x, y, 0);
    DigitValue(x / 4);
    DigitValue(x % 4 * 16 + y / 16);
    DigitValue(y % 16 * 4);
  }

  lemma GroupDecodes(x: Byte, y: Byte, z: Byte, rest: string)
    ensures Decode(Group(x, y, z) + rest)
            == match Decode(rest) case None => None case Some(b) => Some([x, y, z] + b)
  {
    var p, q, r, t := x / 4, x % 4 * 16 + y / 16, y % 16 * 4 + z / 64, z % 64;
    GroupBits(x, y, z);
    DigitValue(p);
    DigitValue(q);
    DigitValue(r);
    DigitValue(t);
    var s := Group(x, y, z) + rest;
    assert s[0] == Digit(p) && s[1] == Digit(q) && s[2] == Digit(r) && s[3] == Digit(t) && s[4..] == rest;
  }

  // ----- against section 4 of the standard -----

  const CAPITALS := "ABCDEFGHIJKLMNOPQRSTUVWXYZ"
  const SMALLS := "abcdefghijklmnopqrstuvwxyz"
  const FIGURES := "0123456789"
  const ALPHABET := CAPITALS + SMALLS + FIGURES + "+/"

  lemma LetterAt(k: nat)
    requires k < 26
    ensures CAPITALS[k] == 'A' + k as char && SMALLS[k] == 'a' + k as char
  {
  }

  lemma FigureAt(k: nat)
    requires k < 10
    ensures FIGURES[k] == '0' + k as char
  {
  }

  lemma AlphabetAt(v: nat)
    requires v < 64 && |CAPITALS| == 26 && |SMALLS| == 26 && |FIGURES| == 10
    ensures ALPHABET[v] == if v < 26 then CAPITALS[v] else if v < 52 then SMALLS[v - 26]
                           else if v < 62 then FIGURES[v - 52] else "+/"[v - 62]
  {
    hide CAPITALS, SMALLS, FIGURES;
  }

  lemma DigitIs(v: int)
    requires 0 <= v < 64
    ensures Digit(v) == ALPHABET[v]
  {
    assert |CAPITALS| == 26 && |SMALLS| == 26 && |FIGURES| == 10;
    hide CAPITALS, SMALLS, FIGURES, ALPHABET;
    AlphabetAt(v);
    if v < 26 {
      LetterAt(v);
    } else if v < 52 {
      LetterAt(v - 26);
    } else if v < 62 {
      FigureAt(v - 52);
    }
  }

  lemma SixBitsEach(x: Byte, y: Byte, z: Byte)
    ensures var p, q, r, t := x / 4, x % 4 * 16 + y / 16, y % 16 * 4 + z / 64, z % 64;
            && 0 <= p < 64 && 0 <= q < 64 && 0 <= r < 64 && 0 <= t < 64
            && ((p * 64 + q) * 64 + r) * 64 + t == (x * 256 + y) * 256 + z
  {
  }

  /** Three bytes are 24 bits, written as four characters of six bits each. */
  lemma ThreeBytes(x: Byte, y: Byte, z: Byte, rest: seq<Byte>) returns (p: nat, q: nat, r: nat, t: nat)
    ensures p < 64 && q < 64 && r < 64 && t < 64
    ensures ((p * 64 + q) * 64 + r) * 64 + t == (x * 256 + y) * 256 + z
    ensures Encode([x, y, z] + rest) == [ALPHABET[p], ALPHABET[q], ALPHABET[r], ALPHABET[t]] + Encode(rest)
  {
    hide Digit, ALPHABET;
    p, q, r, t := x / 4, x % 4 * 16 + y / 16, y % 16 * 4 + z / 64, z % 64;
    SixBitsEach(x, y, z);
    DigitIs(p);
    DigitIs(q);
    DigitIs(r);
    DigitIs(t);
    assert ([x, y, z] + rest)[3..] == rest;
    assert Encode([x, y, z] + rest) == Group(x, y, z) + Encode(rest);
  }

  /** Two bytes at the end are padded with zero bits to 18, and one character of padding. */
  lemma TwoBytes(x: Byte, y: Byte) returns (p: nat, q: nat, r: nat)
    ensures p < 64 && q < 64 && r < 64 && (p * 64 + q) * 64 + r == (x * 256 + y) * 4
    ensures Encode([x, y]) == [ALPHABET[p], ALPHABET[q], ALPHABET[r], '=']
  {
    p, q, r := x / 4, x % 4 * 16 + y / 16, y % 16 * 4;
    DigitIs(p);
    DigitIs(q);
    DigitIs(r);
  }

  /** One byte at the end is padded with zero bits to 12, and two characters of padding. */
  lemma OneByte(x: Byte) returns (p: nat, q: nat)
    ensures p < 64 && q < 64 && p * 64 + q == x * 16
    ensures Encode([x]) == [ALPHABET[p], ALPHABET[q], '=', '=']
  {
    p, q := x / 4, x % 4 * 16;
    DigitIs(p);
    DigitIs(q);
  }

  lemma ValueDigit(c: char)
    requires Value(c).Some?
    ensures Digit(Value(c).value) == c && c != '='
  {
  }

  /** Decoding accepts the encoding of some bytes and nothing else. */
  lemma {:induction false} DecodesOnlyEncodings(s: string, b: seq<Byte>)
    ensures Decode(s) == Some(b) <==> s == Encode(b)
    decreases |s|
  {
    if s == Encode(b) {
      RoundTrip(b);
    } else if Decode(s) == Some(b) {
      DecodedIsEncoding(s);
    }
  }

  lemma BitsBack(p: nat, q: nat, r: nat, t: nat)
    requires p < 64 && q < 64 && r < 64 && t < 64
    ensures var x, y, z := p * 4 + q / 16, q % 16 * 16 + r / 4, r % 4 * 64 + t;
            && x / 4 == p && x % 4 * 16 + y / 16 == q && y % 16 * 4 + z / 64 == r && z % 64 == t
            && (q % 16 == 0 ==> x % 4 * 16 == q) && (r % 4 == 0 ==> y % 16 * 4 == r)
  {
  }

  lemma LastOne(s: string)
    requires |s| == 4 && s[2] == '=' && s[3] == '=' && Decode(s).Some?
    ensures s == Encode(Decode(s).value)
  {
    hide Value, Digit;
    var p, q := Value(s[0]).value, Value(s[1]).value;
    ValueDigit(s[0]);
    ValueDigit(s[1]);
    BitsBack(p, q, 0, 0);
    assert s == [Digit(p), Digit(q), '=', '='];
  }

  lemma LastTwo(s: string)
    requires |s| == 4 && s[2] != '=' && s[3] == '=' && Decode(s).Some?
    ensures s == Encode(Decode(s).value)
  {
    hide Value, Digit;
    var p, q, r := Value(s[0]).value, Value(s[1]).value, Value(s[2]).value;
    ValueDigit(s[0]);
    ValueDigit(s[1]);
    ValueDigit(s[2]);
    BitsBack(p, q, r, 0);
    assert s == [Digit(p), Digit(q), Digit(r), '='];
  }

  lemma Whole(s: string)
    requires |s| >= 4 && s[3] != '=' && Decode(s).Some?
    ensures var v := Decode(s).value;
            && |v| >= 3 && Decode(s[4..]) == Some(v[3..])
            && s[..4] == Group(v[0], v[1], v[2])
  {
    hide Value, Digit;
    var p, q, r, t := Value(s[0]).value, Value(s[1]).value, Value(s[2]).value, Value(s[3]).value;
    ValueDigit(s[0]);
    ValueDigit(s[1]);
    ValueDigit(s[2]);
    ValueDigit(s[3]);
    BitsBack(p, q, r, t);
  }

  lemma PaddingEnds(s: string)
    requires |s| > 0 && Decode(s).Some?
    ensures |s| >= 4 && (s[3] == '=' ==> |s| == 4) && (s[2] == '=' ==> s[3] == '=')
  {
    assert Value('=').None?;
  }

  lemma {:induction false} DecodedIsEncoding(s: string)
    requires Decode(s).Some?
    ensures s == Encode(Decode(s).value)
    decreases |s|
  {
    if |s| > 0 {
      PaddingEnds(s);
      hide Decode, Group;
      if s[2] == '=' {
        LastOne(s);
      } else if s[3] == '=' {
        LastTwo(s);
      } else {
        Whole(s);
        DecodedIsEncoding(s[4..]);
        assert s == s[..4] + s[4..];
      }
    } else {
      assert s == "";
    }
  }
}
