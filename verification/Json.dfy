/** The JSON that json.dumps writes for the broker's frames, and a browser's reading of it.
    A `char` is a Unicode scalar value, which is what a decoded chunk consists of. */
module Json {
  import opened Prelude

  // ---- strings: ASCII only, everything else escaped ----

  function HexDigit(d: nat): char
    requires d < 16
  {
    "0123456789abcdef"[d]
  }

  function HexValue(c: char): Option<nat> {
    if '0' <= c <= '9' then Some((c - '0') as nat)
    else if 'a' <= c <= 'f' then Some((c - 'a') as nat + 10)
    else if 'A' <= c <= 'F' then Some((c - 'A') as nat + 10)
    else None
  }

  /** `k` hexadecimal digits. */
  function Hex(u: nat, k: nat): string {
    if k == 0 then [] else Hex(u / 16, k - 1) + [HexDigit(u % 16)]
  }

  /** A UTF-16 code unit as \uXXXX. */
  function UnitEscape(u: nat): string {
    "\\u" + Hex(u, 4)
  }

  /** A character beyond the first plane as a surrogate pair. */
  function High(u: nat): nat
    requires 0x1_0000 <= u < 0x11_0000
  {
    0xD800 + (u - 0x1_0000) / 1024
  }

  function Low(u: nat): nat
    requires 0x1_0000 <= u < 0x11_0000
  {
    0xDC00 + (u - 0x1_0000) % 1024
  }

  function ShortEscape(c: char): Option<char> {
    match c
    case '\"' => Some('\"')
    case '\\' => Some('\\')
    case '\n' => Some('n')
    case '\r' => Some('r')
    case '\t' => Some('t')
    case '\U{8}' => Some('b')
    case '\U{c}' => Some('f')
    case _ => None
  }

  function EscapeUnits(u: nat): string
    requires u < 0x11_0000
  {
    if u < 0x1_0000 then UnitEscape(u) else UnitEscape(High(u)) + UnitEscape(Low(u))
  }

  function EscapeChar(c: char): string {
    if ShortEscape(c).Some? then ['\\', ShortEscape(c).value]
    else if ' ' <= c <= '~' then [c]
    else EscapeUnits(c as nat)
  }

  function Escape(s: string): string {
    if |s| == 0 then [] else EscapeChar(s[0]) + Escape(s[1..])
  }

  predicate Printable(s: string) {
    forall i | 0 <= i < |s| :: ' ' <= s[i] <= '~'
  }

  lemma {:induction false} HexPrintable(u: nat, k: nat)
    ensures |Hex(u, k)| == k && Printable(Hex(u, k))
    decreases k
  {
    if k > 0 {
      HexPrintable(u / 16, k - 1);
      DigitPrintable(u % 16);
    }
  }

  lemma DigitPrintable(d: nat)
    requires d < 16
    ensures ' ' <= HexDigit(d) <= '~' && HexValue(HexDigit(d)) == Some(d)
  {
  }

  lemma UnitPrintable(u: nat)
    ensures Printable(UnitEscape(u)) && |UnitEscape(u)| == 6
  {
    HexPrintable(u, 4);
  }

  lemma UnitsPrintable(u: nat)
    requires u < 0x11_0000
    ensures Printable(EscapeUnits(u)) && |EscapeUnits(u)| > 0 && EscapeUnits(u)[0] == '\\'
  {
    UnitPrintable(u);
    if u >= 0x1_0000 {
      UnitPrintable(High(u));
      UnitPrintable(Low(u));
    }
  }

  lemma EscapeCharPrintable(c: char)
    ensures Printable(EscapeChar(c)) && |EscapeChar(c)| > 0 && EscapeChar(c)[0] != '\"'
  {
    UnitsPrintable(c as nat);
  }

  /** Whatever the text, nothing in its encoding could end a line. */
  lemma {:induction false} EscapePrintable(s: string)
    ensures Printable(Escape(s))
  {
    if |s| > 0 {
      EscapeCharPrintable(s[0]);
      EscapePrintable(s[1..]);
    }
  }

  /** The short escapes of section 7 of RFC 8259. */
  lemma ShortEscapesAre()
    ensures ShortEscape('\"') == Some('\"') && ShortEscape('\\') == Some('\\') && ShortEscape('/') == None
    ensures ShortEscape('\n') == Some('n') && ShortEscape('\r') == Some('r') && ShortEscape('\t') == Some('t')
    ensures ShortEscape('\U{8}') == Some('b') && ShortEscape('\U{c}') == Some('f')
  {
  }

  lemma HexAdd(u: nat, v: nat, d: nat, k: nat)
    requires d < 16 && u == v * 16 + d
    ensures Hex(u, k + 1) == Hex(v, k) + [HexDigit(d)]
  {
    assert u / 16 == v && u % 16 == d;
  }

  /** \uXXXX: four hexadecimal digits a, b, c, d, the most significant first. */
  lemma {:induction false} UnitEscapeIs(u: nat, a: nat, b: nat, c: nat, d: nat)
    requires a < 16 && b < 16 && c < 16 && d < 16 && u == 4096 * a + 256 * b + 16 * c + d
    ensures UnitEscape(u) == "\\u" + [HexDigit(a), HexDigit(b), HexDigit(c), HexDigit(d)]
  {
    var ab := 16 * a + b;
    var abc := 16 * ab + c;
    HexAdd(u, abc, d, 3);
    HexAdd(abc, ab, c, 2);
    HexAdd(ab, a, b, 1);
    HexAdd(a, 0, a, 0);
    Joined4(Hex(0, 0), HexDigit(a), HexDigit(b), HexDigit(c), HexDigit(d));
  }

  lemma Joined4(s: string, a: char, b: char, c: char, d: char)
    requires s == []
    ensures ((s + [a]) + [b]) + [c] + [d] == [a, b, c, d]
  {
  }

  // ---- reading a string back ----

  function ReadHex(s: string): Option<nat> {
    if |s| == 0 then Some(0)
    else
      var front, last := ReadHex(s[..|s| - 1]), HexValue(s[|s| - 1]);
      if front.None? || last.None? then None else Some(16 * front.value + last.value)
  }

  function ReadUnit(s: string): Option<nat> {
    if |s| < 6 || s[0] != '\\' || s[1] != 'u' then None else ReadHex(s[2..6])
  }

  function Pow16(k: nat): nat {
    if k == 0 then 1 else 16 * Pow16(k - 1)
  }

  lemma {:induction false} HexRoundTrip(u: nat, k: nat)
    requires u < Pow16(k)
    ensures ReadHex(Hex(u, k)) == Some(u)
    decreases k
  {
    if k > 0 {
      HexRoundTrip(u / 16, k - 1);
      DigitPrintable(u % 16);
      assert Hex(u, k)[..|Hex(u, k)| - 1] == Hex(u / 16, k - 1);
    }
  }

  lemma UnitRoundTrip(u: nat, rest: string)
    requires u < 0x1_0000
    ensures |UnitEscape(u)| == 6
    ensures ReadUnit(UnitEscape(u) + rest) == Some(u) && (UnitEscape(u) + rest)[6..] == rest
    ensures (UnitEscape(u) + rest)[0] == '\\' && (UnitEscape(u) + rest)[1] == 'u'
  {
    UnitPrintable(u);
    assert Pow16(4) == 0x1_0000 by { assert Pow16(2) == 256; }
    HexRoundTrip(u, 4);
    assert (UnitEscape(u) + rest)[2..6] == Hex(u, 4);
  }

  lemma PairIs(u: nat)
    requires 0x1_0000 <= u < 0x11_0000
    ensures 0xD800 <= High(u) < 0xDC00 <= Low(u) < 0xE000
    ensures 0x1_0000 + (High(u) - 0xD800) * 1024 + (Low(u) - 0xDC00) == u
  {
  }

  function ShortUnescape(c: char): Option<char> {
    match c
    case '\"' => Some('\"')
    case '\\' => Some('\\')
    case '/' => Some('/')
    case 'n' => Some('\n')
    case 'r' => Some('\r')
    case 't' => Some('\t')
    case 'b' => Some('\U{8}')
    case 'f' => Some('\U{c}')
    case _ => None
  }

  predicate ScalarUnit(u: nat) {
    u < 0xD800 || 0xE000 <= u < 0x1_0000
  }

  /** The next character of a string literal's inside, and what follows it.  A surrogate pair
      is one character; a lone surrogate is none. */
  function ReadChar(s: string): (r: Option<(char, string)>)
    ensures r.Some? ==> |r.value.1| < |s|
  {
    if |s| == 0 then None
    else if s[0] != '\\' then
      if s[0] == '\"' || s[0] < ' ' then None else Some((s[0], s[1..]))
    else if |s| < 2 then None
    else if ShortUnescape(s[1]).Some? then Some((ShortUnescape(s[1]).value, s[2..]))
    else
      match ReadUnit(s)
      case None => None
      case Some(u) =>
        if ScalarUnit(u) then Some((u as char, s[6..]))
        else
          match ReadUnit(s[6..])
          case None => None
          case Some(v) =>
            if u < 0xDC00 && 0xDC00 <= v < 0xE000
            then Some(((0x1_0000 + (u - 0xD800) * 1024 + (v - 0xDC00)) as char, s[12..])) else None
  }

  lemma PlainRoundTrip(c: char, rest: string)
    requires ShortEscape(c).None? && ' ' <= c <= '~'
    ensures ReadChar([c] + rest) == Some((c, rest))
  {
    assert ([c] + rest)[1..] == rest;
  }

  lemma ShortRoundTrip(c: char, rest: string)
    requires ShortEscape(c).Some?
    ensures ReadChar(['\\', ShortEscape(c).value] + rest) == Some((c, rest))
  {
    assert (['\\', ShortEscape(c).value] + rest)[2..] == rest;
  }

  lemma BasicRoundTrip(u: nat, rest: string)
    requires ScalarUnit(u)
    ensures ReadChar(UnitEscape(u) + rest) == Some((u as char, rest))
  {
    UnitRoundTrip(u, rest);
  }

  lemma PairRoundTrip(u: nat, rest: string)
    requires 0x1_0000 <= u < 0x11_0000
    ensures ReadChar(UnitEscape(High(u)) + (UnitEscape(Low(u)) + rest)) == Some((u as char, rest))
  {
    PairIs(u);
    var tail := UnitEscape(Low(u)) + rest;
    UnitRoundTrip(High(u), tail);
    UnitRoundTrip(Low(u), rest);
    assert (UnitEscape(High(u)) + tail)[12..] == tail[6..];
  }

  lemma UnitsRoundTrip(u: nat, rest: string)
    requires u < 0x11_0000 && (u < 0x1_0000 ==> ScalarUnit(u))
    ensures ReadChar(EscapeUnits(u) + rest) == Some((u as char, rest))
  {
    if u < 0x1_0000 {
      BasicRoundTrip(u, rest);
    } else {
      PairRoundTrip(u, rest);
      assert EscapeUnits(u) + rest == UnitEscape(High(u)) + (UnitEscape(Low(u)) + rest);
    }
  }

  lemma CharRoundTrip(c: char, rest: string)
    ensures ReadChar(EscapeChar(c) + rest) == Some((c, rest))
  {
    if ShortEscape(c).Some? {
      ShortRoundTrip(c, rest);
    } else if ' ' <= c <= '~' {
      PlainRoundTrip(c, rest);
    } else {
      UnitsRoundTrip(c as nat, rest);
    }
  }

  /** The inside of a string literal up to its closing quote, and what follows the quote. */
  function ReadString(s: string): Option<(string, string)> {
    if |s| > 0 && s[0] == '\"' then Some(([], s[1..]))
    else
      match ReadChar(s)
      case None => None
      case Some((c, rest)) =>
        match ReadString(rest)
        case None => None
        case Some((text, after)) => Some(([c] + text, after))
  }

  lemma ReadStringStep(s: string, c: char, rest: string, text: string, after: string)
    requires |s| > 0 && s[0] != '\"' && ReadChar(s) == Some((c, rest))
    requires ReadString(rest) == Some((text, after))
    ensures ReadString(s) == Some(([c] + text, after))
  {
  }

  lemma ReadStringEnd(rest: string)
    ensures ReadString("\"" + rest) == Some(("", rest))
  {
    assert ("\"" + rest)[1..] == rest;
  }

  lemma EscapeStep(text: string, tail: string)
    requires |text| > 0
    ensures Escape(text) + tail == EscapeChar(text[0]) + (Escape(text[1..]) + tail)
  {
  }

  /** Reading a text back from its encoding gives that text, whatever it contains. */
  lemma {:induction false} StringRoundTrip(text: string, rest: string)
    ensures ReadString(Escape(text) + ("\"" + rest)) == Some((text, rest))
  {
    var close := "\"" + rest;
    if |text| == 0 {
      assert Escape(text) + close == close;
      ReadStringEnd(rest);
    } else {
      var tail := Escape(text[1..]) + close;
      EscapeStep(text, close);
      EscapeCharPrintable(text[0]);
      CharRoundTrip(text[0], tail);
      StringRoundTrip(text[1..], rest);
      ReadStringStep(EscapeChar(text[0]) + tail, text[0], tail, text[1..], rest);
      assert text == [text[0]] + text[1..];
    }
  }

  // ---- numbers ----

  function Digit(d: nat): char
    requires d < 10
  {
    "0123456789"[d]
  }

  function Decimal(n: nat): string {
    if n < 10 then [Digit(n)] else Decimal(n / 10) + [Digit(n % 10)]
  }

  function Number(n: int): string {
    if n < 0 then "-" + Decimal(-n) else Decimal(n)
  }

  predicate IsDigit(c: char) {
    '0' <= c <= '9'
  }

  function DigitsPrefix(s: string): nat
    ensures DigitsPrefix(s) <= |s|
  {
    if |s| > 0 && IsDigit(s[0]) then 1 + DigitsPrefix(s[1..]) else 0
  }

  function DigitValue(c: char): nat {
    if IsDigit(c) then (c - '0') as nat else 0
  }

  function Value(s: string): nat {
    if |s| == 0 then 0 else 10 * Value(s[..|s| - 1]) + DigitValue(s[|s| - 1])
  }

  lemma {:induction false} DecimalRoundTrip(n: nat)
    ensures |Decimal(n)| > 0 && forall i | 0 <= i < |Decimal(n)| :: IsDigit(Decimal(n)[i])
    ensures Value(Decimal(n)) == n
  {
    if n < 10 {
      assert Decimal(n) == [Digit(n)];
      assert Value([Digit(n)]) == n;
    } else {
      DecimalRoundTrip(n / 10);
      var s := Decimal(n);
      assert s[..|s| - 1] == Decimal(n / 10);
    }
  }

  lemma {:induction false} DigitsPrefixIs(digits: string, rest: string)
    requires forall i | 0 <= i < |digits| :: IsDigit(digits[i])
    requires |rest| > 0 ==> !IsDigit(rest[0])
    ensures DigitsPrefix(digits + rest) == |digits|
    ensures (digits + rest)[..|digits|] == digits && (digits + rest)[|digits|..] == rest
  {
    if |digits| == 0 {
      assert digits + rest == rest;
    } else {
      DigitsPrefixIs(digits[1..], rest);
      assert (digits + rest)[1..] == digits[1..] + rest;
    }
  }

  function ReadNat(s: string): Option<(nat, string)> {
    var k := DigitsPrefix(s);
    if k == 0 then None else Some((Value(s[..k]), s[k..]))
  }

  function ReadNumber(s: string): Option<(int, string)> {
    if |s| > 0 && s[0] == '-' then
      match ReadNat(s[1..])
      case None => None
      case Some((n, rest)) => Some((0 - (n as int), rest))
    else
      match ReadNat(s)
      case None => None
      case Some((n, rest)) => Some((n, rest))
  }

  lemma NatRoundTrip(n: nat, rest: string)
    requires |rest| > 0 ==> !IsDigit(rest[0])
    ensures ReadNat(Decimal(n) + rest) == Some((n, rest))
  {
    DecimalRoundTrip(n);
    DigitsPrefixIs(Decimal(n), rest);
  }

  lemma NegativeRoundTrip(n: nat, rest: string)
    requires ReadNat(Decimal(n) + rest) == Some((n, rest))
    ensures ReadNumber("-" + Decimal(n) + rest) == Some((0 - (n as int), rest))
  {
    assert ("-" + Decimal(n) + rest)[1..] == Decimal(n) + rest;
  }

  lemma UnsignedRoundTrip(n: nat, s: string, rest: string)
    requires |s| > 0 && s[0] != '-' && ReadNat(s) == Some((n, rest))
    ensures ReadNumber(s) == Some((n as int, rest))
  {
  }

  lemma DecimalStarts(n: nat, rest: string)
    ensures |Decimal(n) + rest| > 0 && (Decimal(n) + rest)[0] != '-'
  {
    DecimalRoundTrip(n);
  }

  lemma {:induction false} NumberRoundTrip(n: int, rest: string)
    requires |rest| > 0 ==> !IsDigit(rest[0])
    ensures ReadNumber(Number(n) + rest) == Some((n, rest))
  {
    var k: nat := if n < 0 then -n else n;
    NatRoundTrip(k, rest);
    if n < 0 {
      NegativeRoundTrip(k, rest);
    } else {
      DecimalStarts(k, rest);
      UnsignedRoundTrip(k, Decimal(k) + rest, rest);
    }
  }

  lemma NumberPrintable(n: int)
    ensures Printable(Number(n))
  {
    DecimalRoundTrip(if n < 0 then -n else n);
  }
}
