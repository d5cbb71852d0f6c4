/**
 * JSON texts as RFC 8259 defines them. The reader knows the whole grammar; it keeps literal
 * names, and numbers other than non-negative integers, as they are written. The printer, like
 * the tunnel's, writes no insignificant space and never escapes.
 */
module Json {
  import opened Options

  datatype Json =
    | Str(s: string)
    | Num(n: nat)
    | Other(token: Token)
    | Arr(items: seq<Json>)
    | Obj(fields: seq<Field>)

  datatype Field = Field(name: string, value: Json)

  // ----- numbers and literal names -----

  predicate IsDigit(c: char) { '0' <= c <= '9' }

  predicate AllDigits(s: string) { forall i :: 0 <= i < |s| ==> IsDigit(s[i]) }

  /** A character that can stand in a number or a literal name. */
  predicate TokenChar(c: char)
  {
    IsDigit(c) || 'a' <= c <= 'z' || 'A' <= c <= 'Z' || c == '+' || c == '-' || c == '.'
  }

  function DigitRun(s: string): (n: nat)
    ensures n <= |s|
  {
    if s != "" && IsDigit(s[0]) then 1 + DigitRun(s[1..]) else 0
  }

  predicate IsSignedDigits(s: string)
  {
    var t := if s != "" && (s[0] == '+' || s[0] == '-') then s[1..] else s;
    t != "" && AllDigits(t)
  }

  predicate IsExponent(s: string) { s == "" || ((s[0] == 'e' || s[0] == 'E') && IsSignedDigits(s[1..])) }

  predicate IsFraction(s: string)
  {
    if s != "" && s[0] == '.' then DigitRun(s[1..]) > 0 && IsExponent(s[1 + DigitRun(s[1..])..]) else IsExponent(s)
  }

  /** Section 6: an integer without leading zero, then perhaps a fraction, then perhaps an exponent. */
  predicate IsUnsigned(s: string)
  {
    var n := DigitRun(s);
    n > 0 && (s[0] == '0' ==> n == 1) && IsFraction(s[n..])
  }

  predicate IsNumber(s: string) { IsUnsigned(if s != "" && s[0] == '-' then s[1..] else s) }

  /** A non-negative integer as it is printed. */
  predicate IsInteger(s: string) { s != "" && AllDigits(s) && (s[0] == '0' ==> |s| == 1) }

  /** Section 3: a literal name, or a number of any other form. */
  predicate IsToken(s: string)
  {
    && (forall i :: 0 <= i < |s| ==> TokenChar(s[i]))
    && (s in {"true", "false", "null"} || (IsNumber(s) && !AllDigits(s)))
  }

  type Token = s: string | IsToken(s) witness "null"

  // ----- printing -----

  /** Section 7: a character that may stand in a string as it is. */
  predicate Unescaped(c: char) { c != '\"' && c != '\\' && ' ' <= c }

  predicate Plain(s: string) { forall i :: 0 <= i < |s| ==> Unescaped(s[i]) }

  function DigitChar(d: nat): char
    requires d < 10
  {
    '0' + d as char
  }

  function Decimal(n: nat): string
  {
    if n < 10 then [DigitChar(n)] else Decimal(n / 10) + [DigitChar(n % 10)]
  }

  function Quoted(s: string): string { "\"" + s + "\"" }

  function Print(v: Json): string
    decreases v, 0
  {
    match v
    case Str(s) => Quoted(s)
    case Num(n) => Decimal(n)
    case Other(token) => token
    case Arr(items) => "[" + PrintItems(items) + "]"
    case Obj(fields) => "{" + PrintFields(fields) + "}"
  }

  function PrintItems(items: seq<Json>): string
    decreases items, 1
  {
    if items == [] then ""
    else if |items| == 1 then Print(items[0])
    else Print(items[0]) + "," + PrintItems(items[1..])
  }

  function PrintField(f: Field): string
    decreases f, 1
  {
    Quoted(f.name) + ":" + Print(f.value)
  }

  function PrintFields(fields: seq<Field>): string
    decreases fields, 2
  {
    if fields == [] then ""
    else if |fields| == 1 then PrintField(fields[0])
    else PrintField(fields[0]) + "," + PrintFields(fields[1..])
  }

  /** All strings and names inside are plain. */
  predicate PlainValue(v: Json)
  {
    match v
    case Str(s) => Plain(s)
    case Num(_) => true
    case Other(_) => true
    case Arr(items) => forall i :: 0 <= i < |items| ==> PlainValue(items[i])
    case Obj(fields) => forall i :: 0 <= i < |fields| ==> Plain(fields[i].name) && PlainValue(fields[i].value)
  }

  // ----- parsing: each parser returns the value and the text after it -----

  datatype Parsed<T> = Fail | Done(value: T, rest: string)

  /** Insignificant space (section 2). */
  predicate IsSpace(c: char) { c == ' ' || c == '\t' || c == '\n' || c == '\r' }

  function Skip(s: string): (r: string)
    ensures |r| <= |s|
  {
    if s != "" && IsSpace(s[0]) then Skip(s[1..]) else s
  }

  /** The character a one-letter escape stands for (section 7). */
  function Unescape(c: char): Option<char>
  {
    if c == '\"' || c == '\\' || c == '/' then Some(c)
    else if c == 'b' then Some('\U{8}')
    else if c == 'f' then Some('\U{C}')
    else if c == 'n' then Some('\n')
    else if c == 'r' then Some('\r')
    else if c == 't' then Some('\t')
    else None
  }

  function HexValue(c: char): (v: Option<nat>)
    ensures v.Some? ==> v.value < 16
  {
    if '0' <= c <= '9' then Some(c as int - '0' as int)
    else if 'a' <= c <= 'f' then Some(c as int - 'a' as int + 10)
    else if 'A' <= c <= 'F' then Some(c as int - 'A' as int + 10)
    else None
  }

  /** Four hexadecimal digits. */
  function ParseHex4(s: string): (r: Parsed<nat>)
    ensures r.Done? ==> |r.rest| + 4 == |s| && r.value < 0x1_0000
  {
    if |s| < 4 then Fail
    else
      match (HexValue(s[0]), HexValue(s[1]), HexValue(s[2]), HexValue(s[3]))
      case (Some(p), Some(q), Some(r), Some(t)) => Done(((p * 16 + q) * 16 + r) * 16 + t, s[4..])
      case _ => Fail
  }

  /** What follows a backslash: one character. A surrogate counts only as half of a pair. */
  function ParseEscape(s: string): (r: Parsed<char>)
    ensures r.Done? ==> |r.rest| < |s|
  {
    if s == "" then Fail
    else if s[0] != 'u' then
      match Unescape(s[0]) { case None => Fail case Some(c) => Done(c, s[1..]) }
    else
      match ParseHex4(s[1..])
      case Fail => Fail
      case Done(u, rest) =>
        if u < 0xD800 || 0xE000 <= u then Done(u as char, rest)
        else if u < 0xDC00 && |rest| >= 2 && rest[0] == '\\' && rest[1] == 'u' then
          match ParseHex4(rest[2..])
          case Done(l, end) =>
            if 0xDC00 <= l < 0xE000
            then Done((0x1_0000 + (u - 0xD800) * 0x400 + (l - 0xDC00)) as char, end)
            else Fail
          case Fail => Fail
        else Fail
  }

  /** The text of a string up to its closing quote, escapes decoded; a bare control character fails. */
  function ParseChars(s: string): (r: Parsed<string>)
    ensures r.Done? ==> |r.rest| < |s|
  {
    if s == "" then Fail
    else if s[0] == '\"' then Done("", s[1..])
    else if s[0] == '\\' then
      match ParseEscape(s[1..])
      case Fail => Fail
      case Done(c, rest) =>
        (match ParseChars(rest) case Fail => Fail case Done(text, end) => Done([c] + text, end))
    else if !Unescaped(s[0]) then Fail
    else
      match ParseChars(s[1..])
      case Fail => Fail
      case Done(text, rest) => Done([s[0]] + text, rest)
  }

  function ParseString(s: string): (r: Parsed<string>)
    ensures r.Done? ==> |r.rest| < |s|
  {
    if s == "" || s[0] != '\"' then Fail else ParseChars(s[1..])
  }

  function DigitOf(c: char): nat
    requires IsDigit(c)
  {
    c as int - '0' as int
  }

  /** The value of a run of digits that continues the number `m`. */
  function Fold(s: string, m: nat): nat
    requires AllDigits(s)
  {
    if s == "" then m else Fold(s[1..], m * 10 + DigitOf(s[0]))
  }

  function TokenRun(s: string): (n: nat)
    ensures n <= |s|
    ensures forall i :: 0 <= i < n ==> TokenChar(s[i])
  {
    if s != "" && TokenChar(s[0]) then 1 + TokenRun(s[1..]) else 0
  }

  /** A number or a literal name. */
  function ParseToken(s: string): (r: Parsed<Json>)
    ensures r.Done? ==> |r.rest| < |s|
  {
    var n := TokenRun(s);
    if n == 0 then Fail
    else if IsInteger(s[..n]) then Done(Num(Fold(s[..n], 0)), s[n..])
    else if IsToken(s[..n]) then Done(Other(s[..n]), s[n..])
    else Fail
  }

  /** A value with no space before it. */
  function ParseValue(s: string): (r: Parsed<Json>)
    decreases |s|, 0
    ensures r.Done? ==> |r.rest| < |s|
  {
    if s == "" then Fail
    else if s[0] == '\"' then
      match ParseString(s) { case Fail => Fail case Done(text, rest) => Done(Str(text), rest) }
    else if s[0] == '[' then
      var inner := Skip(s[1..]);
      if inner != "" && inner[0] == ']' then Done(Arr([]), inner[1..])
      else match ParseItems(s[1..]) { case Fail => Fail case Done(items, rest) => Done(Arr(items), rest) }
    else if s[0] == '{' then
      var inner := Skip(s[1..]);
      if inner != "" && inner[0] == '}' then Done(Obj([]), inner[1..])
      else match ParseFields(s[1..]) { case Fail => Fail case Done(fields, rest) => Done(Obj(fields), rest) }
    else ParseToken(s)
  }

  /** A value and the space around it. */
  function Parse(s: string): (r: Parsed<Json>)
    decreases |s|, 1
    ensures r.Done? ==> |r.rest| < |s|
  {
    match ParseValue(Skip(s)) { case Fail => Fail case Done(v, rest) => Done(v, Skip(rest)) }
  }

  /** Values separated by commas, up to and including the closing bracket. */
  function ParseItems(s: string): (r: Parsed<seq<Json>>)
    decreases |s|, 2
    ensures r.Done? ==> |r.rest| < |s|
  {
    match Parse(s)
    case Fail => Fail
    case Done(v, rest) =>
      if rest == "" then Fail
      else if rest[0] == ']' then Done([v], rest[1..])
      else if rest[0] != ',' then Fail
      else match ParseItems(rest[1..]) { case Fail => Fail case Done(more, end) => Done([v] + more, end) }
  }

  function ParseField(s: string): (r: Parsed<Field>)
    decreases |s|, 2
    ensures r.Done? ==> |r.rest| < |s|
  {
    match ParseString(Skip(s))
    case Fail => Fail
    case Done(name, after) =>
      var rest := Skip(after);
      if rest == "" || rest[0] != ':' then Fail
      else match Parse(rest[1..]) { case Fail => Fail case Done(v, end) => Done(Field(name, v), end) }
  }

  function ParseFields(s: string): (r: Parsed<seq<Field>>)
    decreases |s|, 3
    ensures r.Done? ==> |r.rest| < |s|
  {
    match ParseField(s)
    case Fail => Fail
    case Done(f, rest) =>
      if rest == "" then Fail
      else if rest[0] == '}' then Done([f], rest[1..])
      else if rest[0] != ',' then Fail
      else match ParseFields(rest[1..]) { case Fail => Fail case Done(more, end) => Done([f] + more, end) }
  }

  /** A whole text: one value and nothing but space around it. */
  function ParseText(s: string): Option<Json>
  {
    match Parse(s)
    case Fail => None
    case Done(v, rest) => if rest == "" then Some(v) else None
  }

  // ----- parsing inverts printing -----

  /** What follows does not run on into a number or a literal name. */
  predicate Ends(rest: string) { rest == "" || !TokenChar(rest[0]) }

  lemma {:induction false} CharsRoundTrip(s: string, rest: string)
    requires Plain(s)
    ensures ParseChars(s + "\"" + rest) == Done(s, rest)
  {
    if s == "" {
      assert (s + "\"" + rest)[1..] == rest;
    } else {
      assert (s + "\"" + rest)[1..] == s[1..] + "\"" + rest;
      CharsRoundTrip(s[1..], rest);
      assert [s[0]] + s[1..] == s;
    }
  }

  lemma StringRoundTrip(s: string, rest: string)
    requires Plain(s)
    ensures ParseString(Quoted(s) + rest) == Done(s, rest)
  {
    assert (Quoted(s) + rest)[1..] == s + "\"" + rest;
    CharsRoundTrip(s, rest);
  }

  lemma {:induction false} DecimalDigits(n: nat)
    ensures |Decimal(n)| > 0 && AllDigits(Decimal(n))
    ensures Decimal(n)[0] == '0' ==> n == 0
    ensures n < 10 ==> |Decimal(n)| == 1
  {
    if n >= 10 {
      DecimalDigits(n / 10);
    }
  }

  lemma {:induction false} FoldSnoc(s: string, c: char, m: nat)
    requires IsDigit(c) && AllDigits(s)
    ensures AllDigits(s + [c])
    ensures Fold(s + [c], m) == Fold(s, m) * 10 + DigitOf(c)
  {
    if s == "" {
      assert (s + [c])[1..] == "";
    } else {
      assert (s + [c])[1..] == s[1..] + [c];
      FoldSnoc(s[1..], c, m * 10 + DigitOf(s[0]));
    }
  }

  lemma {:induction false} DecimalFolds(n: nat)
    ensures AllDigits(Decimal(n))
    ensures Fold(Decimal(n), 0) == n
  {
    DecimalDigits(n);
    if n < 10 {
      assert Decimal(n)[1..] == "";
    } else {
      DecimalFolds(n / 10);
      FoldSnoc(Decimal(n / 10), DigitChar(n % 10), 0);
    }
  }

  lemma {:induction false} RunStops(t: string, rest: string)
    requires Ends(rest) && forall i :: 0 <= i < |t| ==> TokenChar(t[i])
    ensures TokenRun(t + rest) == |t|
  {
    if t == "" {
      assert t + rest == rest;
    } else {
      assert (t + rest)[1..] == t[1..] + rest;
      RunStops(t[1..], rest);
    }
  }

  lemma NumberRoundTrip(n: nat, rest: string)
    requires Ends(rest)
    ensures ParseToken(Decimal(n) + rest) == Done(Num(n), rest)
  {
    DecimalDigits(n);
    DecimalFolds(n);
    RunStops(Decimal(n), rest);
    assert (Decimal(n) + rest)[..|Decimal(n)|] == Decimal(n);
    LeadingZero(n);
  }

  lemma LeadingZero(n: nat)
    ensures IsInteger(Decimal(n))
  {
    DecimalDigits(n);
  }

  lemma TokenRoundTrip(t: Token, rest: string)
    requires Ends(rest)
    ensures ParseToken(t + rest) == Done(Other(t), rest)
  {
    hide IsNumber;
    RunStops(t, rest);
    assert (t + rest)[..|t|] == t;
    TokenIsNoInteger(t);
  }

  lemma TokenIsNoInteger(t: Token)
    ensures t != "" && TokenChar(t[0]) && !AllDigits(t)
  {
    var c := t[0];
    if t == "true" || t == "false" || t == "null" {
      assert !IsDigit(c);
    }
  }

  /** What a printed value begins with: no space, closing bracket or comma. */
  lemma PrintBegins(v: Json)
    ensures |Print(v)| > 0
    ensures Print(v)[0] == '\"' || Print(v)[0] == '[' || Print(v)[0] == '{' || TokenChar(Print(v)[0])
    ensures v.Num? || v.Other? <==> TokenChar(Print(v)[0])
  {
    if v.Num? {
      DecimalDigits(v.n);
    } else if v.Other? {
      TokenIsNoInteger(v.token);
    }
  }

  /** Parsing a printed value returns it and stops right behind it. */
  lemma {:induction false} ValueRoundTrip(v: Json, rest: string)
    requires PlainValue(v) && Ends(rest)
    ensures ParseValue(Print(v) + rest) == Done(v, rest)
    decreases v, 0
  {
    match v
    case Str(text) => StringRoundTrip(text, rest);
    case Num(n) =>
      PrintBegins(v);
      NumberRoundTrip(n, rest);
    case Other(t) =>
      PrintBegins(v);
      TokenRoundTrip(t, rest);
    case Arr(items) =>
      if items != [] {
        ItemsRoundTrip(items, rest);
      }
      ListParses(items, rest);
    case Obj(fields) =>
      if fields != [] {
        FieldsRoundTrip(fields, rest);
      }
      ObjectParses(fields, rest);
  }

  lemma {:induction false} SpacedRoundTrip(v: Json, rest: string)
    requires PlainValue(v) && Ends(rest)
    ensures Parse(Print(v) + rest) == Done(v, Skip(rest))
    decreases v, 1
  {
    hide Print, ParseValue, PlainValue;
    PrintBegins(v);
    ValueRoundTrip(v, rest);
  }

  lemma ListParses(items: seq<Json>, rest: string)
    requires items != [] ==> ParseItems(PrintItems(items) + "]" + rest) == Done(items, rest)
    ensures ParseValue("[" + PrintItems(items) + "]" + rest) == Done(Arr(items), rest)
  {
    hide ParseItems, Print;
    var s := "[" + PrintItems(items) + "]" + rest;
    assert s[1..] == PrintItems(items) + "]" + rest;
    if items == [] {
      assert s[1] == ']' && s[2..] == rest;
    } else {
      ItemsBegin(items);
      assert s[1] == PrintItems(items)[0];
    }
  }

  lemma ObjectParses(fields: seq<Field>, rest: string)
    requires fields != [] ==> ParseFields(PrintFields(fields) + "}" + rest) == Done(fields, rest)
    ensures ParseValue("{" + PrintFields(fields) + "}" + rest) == Done(Obj(fields), rest)
  {
    hide ParseFields, Print;
    var s := "{" + PrintFields(fields) + "}" + rest;
    assert s[1..] == PrintFields(fields) + "}" + rest;
    if fields == [] {
      assert s[1] == '}' && s[2..] == rest;
    } else {
      assert s[1] == PrintFields(fields)[0] == '\"';
    }
  }

  lemma ItemsBegin(items: seq<Json>)
    requires items != []
    ensures |PrintItems(items)| > 0 && PrintItems(items)[0] != ']' && !IsSpace(PrintItems(items)[0])
  {
    PrintBegins(items[0]);
  }

  lemma Nest(a: string, comma: string, b: string, close: string, rest: string)
    ensures (a + comma + b) + close + rest == a + (comma + (b + close + rest))
  {
  }

  lemma {:induction false} ItemsRoundTrip(items: seq<Json>, rest: string)
    requires items != [] && forall i :: 0 <= i < |items| ==> PlainValue(items[i])
    ensures ParseItems(PrintItems(items) + "]" + rest) == Done(items, rest)
    decreases items, 2
  {
    hide Print, Parse, PlainValue;
    if |items| == 1 {
      var after := "]" + rest;
      assert Print(items[0]) + "]" + rest == Print(items[0]) + after;
      SpacedRoundTrip(items[0], after);
      assert after[1..] == rest && [items[0]] == items;
    } else {
      var more := PrintItems(items[1..]) + "]" + rest;
      var after := "," + more;
      Nest(Print(items[0]), ",", PrintItems(items[1..]), "]", rest);
      SpacedRoundTrip(items[0], after);
      assert after[1..] == more;
      ItemsRoundTrip(items[1..], rest);
      assert [items[0]] + items[1..] == items;
    }
  }

  lemma {:induction false} FieldRoundTrip(f: Field, rest: string)
    requires Plain(f.name) && PlainValue(f.value) && Ends(rest)
    ensures ParseField(PrintField(f) + rest) == Done(f, Skip(rest))
    decreases f, 2
  {
    var after := ":" + Print(f.value) + rest;
    assert PrintField(f) + rest == Quoted(f.name) + after;
    StringRoundTrip(f.name, after);
    assert after[1..] == Print(f.value) + rest;
    SpacedRoundTrip(f.value, rest);
  }

  lemma {:induction false} FieldsRoundTrip(fields: seq<Field>, rest: string)
    requires fields != []
    requires forall i :: 0 <= i < |fields| ==> Plain(fields[i].name) && PlainValue(fields[i].value)
    ensures ParseFields(PrintFields(fields) + "}" + rest) == Done(fields, rest)
    decreases fields, 3
  {
    hide PrintField, ParseField, Plain, PlainValue, ParseString, Parse;
    if |fields| == 1 {
      var after := "}" + rest;
      assert PrintField(fields[0]) + "}" + rest == PrintField(fields[0]) + after;
      FieldRoundTrip(fields[0], after);
      assert after[1..] == rest && [fields[0]] == fields;
    } else {
      var more := PrintFields(fields[1..]) + "}" + rest;
      var after := "," + more;
      Nest(PrintField(fields[0]), ",", PrintFields(fields[1..]), "}", rest);
      FieldRoundTrip(fields[0], after);
      assert after[1..] == more;
      FieldsRoundTrip(fields[1..], rest);
      assert [fields[0]] + fields[1..] == fields;
    }
  }

  /** Every plain value is read back from its text. */
  lemma TextRoundTrip(v: Json)
    requires PlainValue(v)
    ensures ParseText(Print(v)) == Some(v)
  {
    assert Print(v) + "" == Print(v);
    SpacedRoundTrip(v, "");
  }

  // ----- the reader reads every string, if it is escaped -----

  function HexChar(d: nat): char
    requires d < 16
  {
    if d < 10 then '0' + d as char else 'a' + (d - 10) as char
  }

  function Escape(c: char): string
  {
    if Unescaped(c) then [c]
    else if c == '\"' || c == '\\' then ['\\', c]
    else ['\\', 'u', '0', '0', HexChar(c as int / 16), HexChar(c as int % 16)]
  }

  function EscapeAll(s: string): string
  {
    if s == "" then "" else Escape(s[0]) + EscapeAll(s[1..])
  }

  lemma EscapeReads(c: char, rest: string)
    requires !Unescaped(c)
    ensures Escape(c)[0] == '\\' && ParseEscape(Escape(c)[1..] + rest) == Done(c, rest)
  {
    var s := Escape(c)[1..] + rest;
    if c == '\"' || c == '\\' {
      assert s[0] == c && s[1..] == rest;
    } else {
      var h := s[1..];
      assert h[0] == '0' && h[1] == '0' && h[4..] == rest;
      assert h[2] == HexChar(c as int / 16) && h[3] == HexChar(c as int % 16);
      assert HexValue(h[2]) == Some(c as int / 16) && HexValue(h[3]) == Some(c as int % 16);
    }
  }

  /** Nothing is beyond the reader: every string is read from its escaped text. */
  lemma {:induction false} EscapedIsRead(s: string, rest: string)
    ensures ParseChars(EscapeAll(s) + "\"" + rest) == Done(s, rest)
  {
    hide ParseEscape, Escape;
    if s == "" {
      assert (EscapeAll(s) + "\"" + rest)[1..] == rest;
    } else {
      var c, tail := s[0], EscapeAll(s[1..]) + "\"" + rest;
      EscapedIsRead(s[1..], rest);
      assert EscapeAll(s) + "\"" + rest == Escape(c) + tail;
      OneCharRead(c, s[1..], tail, rest);
      assert [c] + s[1..] == s;
    }
  }

  lemma OneCharRead(c: char, more: string, tail: string, rest: string)
    requires ParseChars(tail) == Done(more, rest)
    ensures ParseChars(Escape(c) + tail) == Done([c] + more, rest)
  {
    hide ParseEscape;
    var s := Escape(c) + tail;
    if Unescaped(c) {
      assert s[0] == c && s[1..] == tail;
    } else {
      EscapeReads(c, tail);
      assert s[0] == '\\' && s[1..] == Escape(c)[1..] + tail;
    }
  }

  // ----- what is read is no shorter than what is printed -----

  /**
   * The text up to `rest` is as long as `printed`, and longer if what was read is not plain:
   * a character that needs escaping can only come from an escape.
   */
  predicate Fits(s: string, rest: string, printed: string, plain: bool)
  {
    |printed| + |rest| + (if plain then 0 else 1) <= |s|
  }

  lemma PlainCons(c: char, text: string)
    ensures Plain([c] + text) <==> Unescaped(c) && Plain(text)
  {
    assert ([c] + text)[0] == c;
    assert forall i :: 0 <= i < |text| ==> ([c] + text)[i + 1] == text[i];
  }

  lemma {:induction false} CharsFit(s: string)
    ensures ParseChars(s).Done? ==>
              var text := ParseChars(s).value; Fits(s, ParseChars(s).rest, text + "\"", Plain(text))
    decreases |s|
  {
    hide Plain, Unescape, ParseHex4;
    if s != "" && s[0] == '\"' {
      EmptyIsPlain();
    } else if s != "" && s[0] == '\\' {
      var e := ParseEscape(s[1..]);
      if e.Done? && ParseChars(e.rest).Done? {
        CharsFit(e.rest);
      }
    } else if s != "" && ParseChars(s[1..]).Done? {
      CharsFit(s[1..]);
      PlainCons(s[0], ParseChars(s[1..]).value);
    }
  }

  lemma EmptyIsPlain()
    ensures Plain("")
  {
  }

  lemma StringFits(s: string)
    ensures ParseString(s).Done? ==>
              var text := ParseString(s).value; Fits(s, ParseString(s).rest, Quoted(text), Plain(text))
  {
    hide ParseChars;
    if s != "" {
      CharsFit(s[1..]);
    }
  }

  /** A number is printed in decimal digits, the most significant first and no zero in front. */
  lemma DecimalDigitByDigit(m: nat, d: nat)
    requires d < 10
    ensures Decimal(10 * m + d) == (if m == 0 then "" else Decimal(m)) + ["0123456789"[d]]
  {
  }

  lemma DecimalSnoc(m: nat, d: nat)
    requires m > 0 && d < 10
    ensures Decimal(m * 10 + d) == Decimal(m) + [DigitChar(d)]
  {
  }

  lemma {:induction false} DigitsFit(s: string, m: nat)
    requires m > 0 && AllDigits(s)
    ensures Decimal(Fold(s, m)) == Decimal(m) + s
  {
    hide Decimal;
    if s == "" {
      assert Decimal(m) + s == Decimal(m);
    } else {
      var d := DigitOf(s[0]);
      DigitsFit(s[1..], m * 10 + d);
      DecimalSnoc(m, d);
      assert [DigitChar(d)] + s[1..] == s;
      assert Decimal(m) + [DigitChar(d)] + s[1..] == Decimal(m) + s;
    }
  }

  /** An integer prints as it was written. */
  lemma IntegerFits(t: string)
    requires IsInteger(t)
    ensures Decimal(Fold(t, 0)) == t
  {
    var d := DigitOf(t[0]);
    assert Decimal(d) + t[1..] == t;
    if t[0] != '0' {
      DigitsFit(t[1..], d);
    }
  }

  lemma TokenFits(s: string)
    ensures ParseToken(s).Done? ==>
              var v := ParseToken(s).value; Fits(s, ParseToken(s).rest, Print(v), PlainValue(v))
  {
    hide Fold, IsToken, Decimal;
    var n := TokenRun(s);
    if n > 0 && IsInteger(s[..n]) {
      IntegerFits(s[..n]);
    }
  }

  lemma {:induction false} ValueFits(s: string)
    ensures ParseValue(s).Done? ==>
              var v := ParseValue(s).value; Fits(s, ParseValue(s).rest, Print(v), PlainValue(v))
    decreases |s|, 0
  {
    hide ParseString, ParseToken, Plain, PlainValue, Print, Skip;
    if s == "" {
    } else if s[0] == '\"' {
      StringFits(s);
      PrintStr(s);
    } else if s[0] == '[' {
      PrintEmpty();
      ItemsFit(s[1..]);
      PrintArr(s[1..]);
    } else if s[0] == '{' {
      PrintEmpty();
      FieldsFit(s[1..]);
      PrintObj(s[1..]);
    } else {
      TokenFits(s);
    }
  }

  lemma {:induction false} SpacedFits(s: string)
    ensures Parse(s).Done? ==> Fits(s, Parse(s).rest, Print(Parse(s).value), PlainValue(Parse(s).value))
    decreases |s|, 1
  {
    hide ParseValue, Print, PlainValue;
    ValueFits(Skip(s));
  }

  lemma PrintStr(s: string)
    ensures ParseString(s).Done? ==>
              var t := ParseString(s).value; Print(Str(t)) == Quoted(t) && (PlainValue(Str(t)) <==> Plain(t))
  {
    hide ParseString;
  }

  lemma PrintArr(s: string)
    ensures ParseItems(s).Done? ==> |Print(Arr(ParseItems(s).value))| == |PrintItems(ParseItems(s).value)| + 2
  {
    hide ParseItems;
  }

  lemma PrintObj(s: string)
    ensures ParseFields(s).Done? ==> |Print(Obj(ParseFields(s).value))| == |PrintFields(ParseFields(s).value)| + 2
  {
    hide ParseFields;
  }

  lemma PrintEmpty()
    ensures Print(Arr([])) == "[]" && Print(Obj([])) == "{}" && PlainValue(Arr([])) && PlainValue(Obj([]))
  {
  }

  /** A list read up to its closing bracket, which takes one character more. */
  lemma {:induction false} ItemsFit(s: string)
    ensures ParseItems(s).Done? ==>
              var items := ParseItems(s).value;
              Fits(s, ParseItems(s).rest, PrintItems(items) + "]", PlainValue(Arr(items)))
    decreases |s|, 2
  {
    hide Parse, PlainValue, Print, PrintItems;
    SpacedFits(s);
    var first := Parse(s);
    if first.Done? && first.rest != "" {
      if first.rest[0] == ']' {
        OneItem(first.value);
      } else if first.rest[0] == ',' {
        ItemsFit(first.rest[1..]);
        var more := ParseItems(first.rest[1..]);
        if more.Done? {
          MoreItems(first.value, more.value);
        }
      }
    }
  }

  lemma OneItem(v: Json)
    ensures PrintItems([v]) == Print(v) && (PlainValue(Arr([v])) <==> PlainValue(v))
  {
    assert [v][0] == v;
  }

  lemma MoreItems(v: Json, more: seq<Json>)
    ensures |PrintItems([v] + more)| <= |Print(v)| + 1 + |PrintItems(more)|
    ensures PlainValue(Arr([v] + more)) <==> PlainValue(v) && PlainValue(Arr(more))
  {
    var all := [v] + more;
    assert all[0] == v && all[1..] == more;
    assert forall i :: 0 <= i < |more| ==> all[i + 1] == more[i];
  }

  lemma {:induction false} FieldFits(s: string)
    ensures ParseField(s).Done? ==>
              var f := ParseField(s).value;
              Fits(s, ParseField(s).rest, PrintField(f), PlainValue(Obj([f])))
    decreases |s|, 2
  {
    hide ParseString, Parse, PlainValue, Plain;
    StringFits(Skip(s));
    var name := ParseString(Skip(s));
    if name.Done? {
      var rest := Skip(name.rest);
      if rest != "" && rest[0] == ':' {
        SpacedFits(rest[1..]);
        var v := Parse(rest[1..]);
        if v.Done? {
          OneField(Field(name.value, v.value));
        }
      }
    }
  }

  lemma OneField(f: Field)
    ensures PrintFields([f]) == PrintField(f)
    ensures PlainValue(Obj([f])) <==> Plain(f.name) && PlainValue(f.value)
  {
    assert [f][0] == f;
  }

  lemma MoreFields(f: Field, more: seq<Field>)
    ensures |PrintFields([f] + more)| <= |PrintField(f)| + 1 + |PrintFields(more)|
    ensures PlainValue(Obj([f] + more)) <==> PlainValue(Obj([f])) && PlainValue(Obj(more))
  {
    hide PrintField, Plain;
    var all := [f] + more;
    assert all[0] == f == [f][0] && all[1..] == more;
    assert forall i :: 0 <= i < |more| ==> all[i + 1] == more[i];
  }

  lemma {:induction false} FieldsFit(s: string)
    ensures ParseFields(s).Done? ==>
              var fields := ParseFields(s).value;
              Fits(s, ParseFields(s).rest, PrintFields(fields) + "}", PlainValue(Obj(fields)))
    decreases |s|, 3
  {
    hide ParseField, PlainValue, PrintField, PrintFields;
    FieldFits(s);
    var first := ParseField(s);
    if first.Done? && first.rest != "" {
      if first.rest[0] == '}' {
        OneField(first.value);
      } else if first.rest[0] == ',' {
        FieldsFit(first.rest[1..]);
        var more := ParseFields(first.rest[1..]);
        if more.Done? {
          MoreFields(first.value, more.value);
        }
      }
    }
  }

  /** What a whole text yields prints no longer than the text, and shorter if it is not plain. */
  lemma TextFits(text: string)
    ensures ParseText(text).Some? ==>
              var v := ParseText(text).value; |Print(v)| + (if PlainValue(v) then 0 else 1) <= |text|
  {
    hide Parse, Print, PlainValue;
    SpacedFits(text);
  }

  /** Printed without escaping, a value is read back if and only if none of its strings needs it. */
  lemma TextReadBackIffPlain(v: Json)
    ensures ParseText(Print(v)) == Some(v) <==> PlainValue(v)
  {
    hide ParseText, Print, PlainValue;
    TextFits(Print(v));
    if PlainValue(v) {
      TextRoundTrip(v);
    }
  }

  // ----- one line -----

  predicate OneLine(s: string) { forall i :: 0 <= i < |s| ==> s[i] != '\n' }

  lemma {:induction false} PrintIsOneLine(v: Json)
    requires PlainValue(v)
    ensures OneLine(Print(v))
    decreases v, 0
  {
    match v
    case Str(_) =>
    case Num(n) => DecimalDigits(n);
    case Other(t) => assert forall i :: 0 <= i < |t| ==> TokenChar(t[i]);
    case Arr(items) => ItemsAreOneLine(items);
    case Obj(fields) => FieldsAreOneLine(fields);
  }

  lemma {:induction false} ItemsAreOneLine(items: seq<Json>)
    requires forall i :: 0 <= i < |items| ==> PlainValue(items[i])
    ensures OneLine(PrintItems(items))
    decreases items, 1
  {
    if items != [] {
      PrintIsOneLine(items[0]);
      ItemsAreOneLine(items[1..]);
    }
  }

  lemma {:induction false} FieldsAreOneLine(fields: seq<Field>)
    requires forall i :: 0 <= i < |fields| ==> Plain(fields[i].name) && PlainValue(fields[i].value)
    ensures OneLine(PrintFields(fields))
    decreases fields, 1
  {
    if fields != [] {
      PrintIsOneLine(fields[0].value);
      FieldsAreOneLine(fields[1..]);
    }
  }
}
