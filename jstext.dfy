/** The JavaScript built-ins the handlers apply to request values: truthiness,
    `String.prototype.trim`, `String.prototype.split` on one character and the
    global `parseInt` with no radix argument. */
module JsText {
  import opened Common

  /** A value read from a JSON request body or a query string; an absent field
      reads as Undefined. */
  datatype JsValue = Undefined | Null | Bool(b: bool) | Num(n: real) | Str(s: string)

  /** JavaScript truthiness: `false`, `0`, `""`, `null` and `undefined` are falsy. */
  predicate Truthy(v: JsValue)
  {
    match v
    case Undefined => false
    case Null => false
    case Bool(b) => b
    case Num(n) => n != 0.0
    case Str(s) => s != ""
  }

  /** Exactly five values are falsy. */
  lemma FalsyValues(v: JsValue)
    ensures !Truthy(v) <==> v in {Undefined, Null, Bool(false), Num(0.0), Str("")}
  {
  }

  /** Truthiness of an optional string field (absent or empty is falsy). */
  predicate Present(s: Option<string>): (b: bool)
    ensures b <==> s != None && s != Some("")
  {
    s.Some? && s.value != ""
  }

  // ---------------------------------------------------------------- trim

  /** The ECMAScript WhiteSpace and LineTerminator code points: what `trim`
      removes and what `parseInt` skips at the start. */
  const SpaceCodes: set<int> := {
    0x0009, 0x000A, 0x000B, 0x000C, 0x000D, 0x0020, 0x00A0, 0x1680,
    0x2000, 0x2001, 0x2002, 0x2003, 0x2004, 0x2005, 0x2006, 0x2007, 0x2008, 0x2009, 0x200A,
    0x2028, 0x2029, 0x202F, 0x205F, 0x3000, 0xFEFF
  }

  predicate IsSpace(c: char)
  {
    c as int in SpaceCodes
  }

  predicate AllSpace(s: string)
  {
    forall i :: 0 <= i < |s| ==> IsSpace(s[i])
  }

  /** `trimStart`: the suffix left after dropping leading white space. */
  function TrimStart(s: string): (r: string)
    ensures |r| <= |s| && r == s[|s| - |r|..]
    ensures AllSpace(s[..|s| - |r|])
    ensures r == [] || !IsSpace(r[0])
    decreases |s|
  {
    if |s| > 0 && IsSpace(s[0]) then
      var r := TrimStart(s[1..]);
      assert s[..|s| - |r|] == [s[0]] + s[1..][..|s| - 1 - |r|];
      r
    else s
  }

  /** `trimEnd`: the prefix left after dropping trailing white space. */
  function TrimEnd(s: string): (r: string)
    ensures |r| <= |s| && r == s[..|r|]
    ensures AllSpace(s[|r|..])
    ensures r == [] || !IsSpace(r[|r| - 1])
    decreases |s|
  {
    if |s| > 0 && IsSpace(s[|s| - 1]) then
      var r := TrimEnd(s[..|s| - 1]);
      assert s[|r|..] == s[..|s| - 1][|r|..] + [s[|s| - 1]];
      r
    else s
  }

  /** `trim`: both ends stripped of white space. */
  function Trim(s: string): (r: string)
    ensures |r| <= |s|
    ensures r == [] || (!IsSpace(r[0]) && !IsSpace(r[|r| - 1]))
  {
    TrimEnd(TrimStart(s))
  }

  /** The original string is a run of leading white space, then the trimmed
      string, then a run of trailing white space. */
  lemma TrimDecomposes(s: string)
    ensures AllSpace(s[..|s| - |TrimStart(s)|])
    ensures AllSpace(TrimStart(s)[|Trim(s)|..])
    ensures s == s[..|s| - |TrimStart(s)|] + (Trim(s) + TrimStart(s)[|Trim(s)|..])
  {
    var t := TrimStart(s);
    assert s == s[..|s| - |t|] + t;
    assert t == Trim(s) + t[|Trim(s)|..];
  }

  /** Trimming twice is trimming once. */
  lemma TrimIdempotent(s: string)
    ensures Trim(Trim(s)) == Trim(s)
  {
    var r := Trim(s);
    assert TrimStart(r) == r;
    assert TrimEnd(r) == r;
  }

  /** White space around a text does not change what `trim` leaves. */
  lemma PaddedTrim(padding: string, s: string)
    requires AllSpace(padding)
    ensures Trim(padding + s + padding) == Trim(s)
  {
    assert padding + s + padding == padding + (s + padding);
    StartPadding(padding, s + padding);
    if AllSpace(s) {
      AllSpaceAppend(s, padding);
      TrimStartAllSpace(s + padding);
      TrimStartAllSpace(s);
    } else {
      TrimStartAppend(s, padding);
      EndPadding(TrimStart(s), padding);
    }
  }

  lemma AllSpaceAppend(a: string, b: string)
    requires AllSpace(a) && AllSpace(b)
    ensures AllSpace(a + b)
  {
    var c := a + b;
    forall k | 0 <= k < |c| ensures IsSpace(c[k]) {
      if k < |a| { assert c[k] == a[k]; } else { assert c[k] == b[k - |a|]; }
    }
  }

  lemma {:induction false} TrimStartAllSpace(s: string)
    requires AllSpace(s)
    ensures TrimStart(s) == ""
    decreases |s|
  {
    if |s| > 0 {
      assert IsSpace(s[0]);
      TrimStartAllSpace(s[1..]);
    }
  }

  lemma {:induction false} StartPadding(padding: string, s: string)
    requires AllSpace(padding)
    ensures TrimStart(padding + s) == TrimStart(s)
    decreases |padding|
  {
    if |padding| > 0 {
      var x := padding + s;
      assert x[0] == padding[0] && IsSpace(padding[0]);
      assert x[1..] == padding[1..] + s;
      StartPadding(padding[1..], s);
    } else {
      assert padding + s == s;
    }
  }

  lemma {:induction false} EndPadding(s: string, padding: string)
    requires AllSpace(padding)
    ensures TrimEnd(s + padding) == TrimEnd(s)
    decreases |padding|
  {
    var x := s + padding;
    if |padding| > 0 {
      var n := |padding| - 1;
      assert x[|x| - 1] == padding[n] && IsSpace(padding[n]);
      assert x[..|x| - 1] == s + padding[..n];
      EndPadding(s, padding[..n]);
    } else {
      assert x == s;
    }
  }

  /** Trailing white space passes through `trimStart` untouched when the text
      is not all white space. */
  lemma {:induction false} TrimStartAppend(s: string, padding: string)
    requires !AllSpace(s)
    ensures TrimStart(s + padding) == TrimStart(s) + padding
    decreases |s|
  {
    var x := s + padding;
    assert x[0] == s[0];
    if IsSpace(s[0]) {
      assert x[1..] == s[1..] + padding;
      TrimStartAppend(s[1..], padding);
    }
  }

  // ---------------------------------------------------------------- split

  /** The position of the first occurrence of c. */
  function IndexOf(s: string, c: char): (i: nat)
    requires c in s
    ensures i < |s| && s[i] == c && c !in s[..i]
    decreases |s|
  {
    if s[0] == c then 0 else 1 + IndexOf(s[1..], c)
  }

  /** `s.split(sep)` for a one-character separator: the pieces between
      separators, empty pieces included, always at least one piece. */
  function Split(s: string, sep: char): (r: seq<string>)
    ensures |r| >= 1
    ensures forall k :: 0 <= k < |r| ==> sep !in r[k]
    decreases |s|
  {
    if sep !in s then [s]
    else
      var i := IndexOf(s, sep);
      [s[..i]] + Split(s[i + 1..], sep)
  }

  /** `pieces.join(sep)`. */
  function Join(pieces: seq<string>, sep: char): string
    requires |pieces| >= 1
    decreases |pieces|
  {
    if |pieces| == 1 then pieces[0] else pieces[0] + [sep] + Join(pieces[1..], sep)
  }

  /** Joining the pieces of a split gives back the original string. */
  lemma {:induction false} JoinSplit(s: string, sep: char)
    ensures Join(Split(s, sep), sep) == s
    decreases |s|
  {
    if sep in s {
      var i := IndexOf(s, sep);
      JoinSplit(s[i + 1..], sep);
      assert Split(s, sep)[1..] == Split(s[i + 1..], sep);
      assert s == s[..i] + [sep] + s[i + 1..];
    }
  }

  lemma IndexOfJoined(a: string, sep: char, b: string)
    requires sep !in a
    ensures sep in a + [sep] + b && IndexOf(a + [sep] + b, sep) == |a|
  {
    var s := a + [sep] + b;
    assert s[|a|] == sep;
    assert s[..|a|] == a;
  }

  /** Splitting at a first separator gives the text before it, then the
      pieces of the rest. */
  lemma SplitCons(a: string, sep: char, b: string)
    requires sep !in a
    ensures Split(a + [sep] + b, sep) == [a] + Split(b, sep)
  {
    var s := a + [sep] + b;
    IndexOfJoined(a, sep, b);
    assert s[..|a|] == a;
    assert s[|a| + 1..] == b;
  }

  /** Splitting pieces that do not contain the separator, once joined, gives
      back exactly those pieces. */
  lemma {:induction false} SplitJoin(pieces: seq<string>, sep: char)
    requires |pieces| >= 1
    requires forall k :: 0 <= k < |pieces| ==> sep !in pieces[k]
    ensures Split(Join(pieces, sep), sep) == pieces
    decreases |pieces|
  {
    if |pieces| > 1 {
      SplitCons(pieces[0], sep, Join(pieces[1..], sep));
      SplitJoin(pieces[1..], sep);
      assert pieces == [pieces[0]] + pieces[1..];
    }
  }

  // ---------------------------------------------------------------- parseInt

  /** The value of c as a digit of the given radix (10 or 16). */
  function DigitValue(c: char, radix: nat): (d: Option<nat>)
    ensures d.Some? ==> d.value < radix
  {
    if '0' <= c <= '9' && (c as int) - ('0' as int) < radix then Some((c as int) - ('0' as int))
    else if radix == 16 && 'a' <= c <= 'f' then Some((c as int) - ('a' as int) + 10)
    else if radix == 16 && 'A' <= c <= 'F' then Some((c as int) - ('A' as int) + 10)
    else None
  }

  predicate AllDigits(s: string, radix: nat)
  {
    forall i :: 0 <= i < |s| ==> DigitValue(s[i], radix).Some?
  }

  /** The length of the longest prefix made of digits of the radix. */
  function DigitRun(s: string, radix: nat): (n: nat)
    ensures n <= |s| && AllDigits(s[..n], radix)
    ensures n < |s| ==> DigitValue(s[n], radix).None?
    decreases |s|
  {
    if |s| > 0 && DigitValue(s[0], radix).Some? then 1 + DigitRun(s[1..], radix) else 0
  }

  /** The number a string of digits denotes, most significant digit first. */
  function DigitsValue(s: string, radix: nat): nat
    requires AllDigits(s, radix)
    decreases |s|
  {
    if |s| == 0 then 0
    else DigitsValue(s[..|s| - 1], radix) * radix + DigitValue(s[|s| - 1], radix).value
  }

  /** The longest run of radix digits at the start, read as a number; NaN
      (None) when there is no digit at all. */
  function LeadingNumber(body: string, radix: nat): Option<nat>
  {
    var n := DigitRun(body, radix);
    if n == 0 then None else Some(DigitsValue(body[..n], radix))
  }

  /** An unsigned numeral: a `0x`/`0X` prefix selects radix 16, otherwise 10. */
  function ParseUnsigned(u: string): Option<nat>
  {
    if |u| >= 2 && u[0] == '0' && (u[1] == 'x' || u[1] == 'X') then LeadingNumber(u[2..], 16)
    else LeadingNumber(u, 10)
  }

  /** `parseInt(s)` with no radix: leading white space skipped, one optional
      sign, then an unsigned numeral. */
  function ParseIntText(s: string): Option<int>
  {
    var t := TrimStart(s);
    var negative := |t| > 0 && t[0] == '-';
    var u := if |t| > 0 && (t[0] == '-' || t[0] == '+') then t[1..] else t;
    WithSign(negative, ParseUnsigned(u))
  }

  function WithSign(negative: bool, magnitude: Option<nat>): Option<int>
  {
    match magnitude
    case Some(v) => Some(if negative then -(v as int) else v)
    case None => None
  }

  /** `parseInt(v)` of a request value: parseInt reads `String(v)`. A number is
      truncated toward zero; `undefined`, `null`, `true` and `false` spell no
      digit and give NaN. */
  function ParseInt(v: JsValue): Option<int>
  {
    match v
    case Str(s) => ParseIntText(s)
    case Num(n) => Some(if n >= 0.0 then n.Floor else -((-n).Floor))
    case _ => None
  }

  /** Blank text is NaN, and a negative result needs a leading minus sign
      after the white space. */
  lemma ParseIntTextSign(s: string)
    ensures TrimStart(s) == "" ==> ParseIntText(s).None?
    ensures ParseIntText(s).Some? && ParseIntText(s).value < 0 ==> TrimStart(s)[0] == '-'
  {
    if TrimStart(s) == "" {
      assert DigitRun("", 10) == 0;
    }
  }

  /** `undefined`, `null` and the booleans are NaN; a number is truncated
      toward zero. */
  lemma ParseIntValues(v: JsValue)
    ensures v.Undefined? || v.Null? || v.Bool? ==> ParseInt(v).None?
    ensures v.Num? ==> ParseInt(v).Some?
    ensures v.Num? && v.n >= 0.0 ==> ParseInt(v).value as real <= v.n < ParseInt(v).value as real + 1.0
    ensures v.Num? && v.n < 0.0 ==> ParseInt(v).value as real - 1.0 < v.n <= ParseInt(v).value as real
  {
  }

  /** `parseInt(v) || fallback`: NaN and zero both fall back. */
  function IntOr(parsed: Option<int>, fallback: int): (r: int)
    ensures fallback != 0 ==> r != 0
    ensures parsed.Some? && parsed.value != 0 ==> r == parsed.value
    ensures (parsed.None? || parsed.value == 0) ==> r == fallback
  {
    match parsed
    case Some(i) => if i != 0 then i else fallback
    case None => fallback
  }

  /** The decimal spelling of a natural number (`Number.prototype.toString`). */
  function Decimal(n: nat): (s: string)
    decreases n
  {
    if n < 10 then [('0' as int + n) as char]
    else Decimal(n / 10) + [('0' as int + n % 10) as char]
  }

  /** The decimal spelling of an integer, with a leading `-` when negative. */
  function IntToString(i: int): string
  {
    if i < 0 then ['-'] + Decimal(-i) else Decimal(i)
  }

  lemma {:induction false} DecimalDigits(n: nat)
    ensures |Decimal(n)| >= 1 && AllDigits(Decimal(n), 10)
    ensures forall k :: 0 <= k < |Decimal(n)| ==> '0' <= Decimal(n)[k] <= '9'
    ensures DigitsValue(Decimal(n), 10) == n
    decreases n
  {
    if n >= 10 {
      DecimalDigits(n / 10);
      var s := Decimal(n);
      assert s[..|s| - 1] == Decimal(n / 10);
    }
  }

  lemma DigitRunAll(s: string, radix: nat)
    requires AllDigits(s, radix)
    ensures DigitRun(s, radix) == |s|
  {
  }

  /** A run of decimal digits is read in radix 10 as the number it spells. */
  lemma ParseUnsignedDecimal(d: string)
    requires |d| >= 1 && forall k :: 0 <= k < |d| ==> '0' <= d[k] <= '9'
    ensures AllDigits(d, 10) && ParseUnsigned(d) == Some(DigitsValue(d, 10))
  {
    assert !(|d| >= 2 && d[0] == '0' && (d[1] == 'x' || d[1] == 'X'));
    DigitRunAll(d, 10);
    assert d[..|d|] == d;
  }

  /** Nothing to trim at the start of a string that does not start with white space. */
  lemma TrimStartKeeps(s: string)
    requires |s| > 0 && !IsSpace(s[0])
    ensures TrimStart(s) == s
  {
  }

  /** Without white space or a sign in front, parseInt reads an unsigned numeral. */
  lemma ParseIntTextUnsigned(s: string)
    requires |s| > 0 && !IsSpace(s[0]) && s[0] != '-' && s[0] != '+'
    ensures ParseIntText(s) == WithSign(false, ParseUnsigned(s))
  {
    TrimStartKeeps(s);
  }

  /** A leading minus sign negates the unsigned numeral after it. */
  lemma ParseIntTextNegative(s: string)
    requires |s| > 0 && s[0] == '-'
    ensures ParseIntText(s) == WithSign(true, ParseUnsigned(s[1..]))
  {
    MinusIsNotSpace();
    TrimStartKeeps(s);
  }

  lemma MinusIsNotSpace()
    ensures !IsSpace('-')
  {
  }

  lemma DigitIsNotSpace(c: char)
    requires '0' <= c <= '9'
    ensures !IsSpace(c) && c != '-' && c != '+'
  {
  }

  /** parseInt reads back the decimal spelling of every integer. */
  lemma ParseIntOfDecimal(i: int)
    ensures ParseIntText(IntToString(i)) == Some(i)
  {
    var m: nat := if i < 0 then -i else i;
    var d := Decimal(m);
    DecimalDigits(m);
    ParseUnsignedDecimal(d);
    var s := IntToString(i);
    if i < 0 {
      assert s[0] == '-' && s[1..] == d;
      ParseIntTextNegative(s);
    } else {
      DigitIsNotSpace(d[0]);
      ParseIntTextUnsigned(d);
    }
  }
}
