/** The pieces of JavaScript value semantics the client code leans on:
    truthiness of strings, `||` and `??`, `String.prototype.trim`,
    `Number.prototype.toString`, `String.prototype.padStart`, `parseInt`,
    and how an awaited call settles. */
module Js {

  datatype Option<+T> = None | Some(value: T)

  /** The `data` of an error response, reduced to the two string fields the
      client reads from it (`message` and `error`). */
  datatype ErrorBody = ErrorBody(message: Option<string>, error: Option<string>)

  /** Why an awaited call was rejected: `body` is `error.response?.data`,
      absent when no response arrived or the error was thrown locally. */
  datatype Rejection = Rejection(body: Option<ErrorBody>)

  /** How an awaited promise settles. */
  datatype Settled<+T> = Fulfilled(value: T) | Rejected(reason: Rejection)

  /** A string that may be `undefined`/`null` is truthy when present and non-empty. */
  predicate Truthy(s: Option<string>)
  {
    s.Some? && s.value != ""
  }

  /** `a || fallback` on strings. */
  function OrElse(a: Option<string>, fallback: string): string
  {
    if Truthy(a) then a.value else fallback
  }

  /** `a ?? fallback` on strings: only `null`/`undefined` fall back. */
  function Coalesce(a: Option<string>, fallback: string): string
  {
    if a.Some? then a.value else fallback
  }

  /** `reason.response?.data?.message` */
  function MessageOf(r: Rejection): Option<string>
  {
    if r.body.Some? then r.body.value.message else None
  }

  /** `reason?.response?.data?.error` */
  function ErrorFieldOf(r: Rejection): Option<string>
  {
    if r.body.Some? then r.body.value.error else None
  }

  lemma OrElseVersusCoalesce(msg: string, fallback: string)
    ensures OrElse(Some(msg), fallback) == (if msg == "" then fallback else msg)
    ensures Coalesce(Some(msg), fallback) == msg
    ensures OrElse(None, fallback) == Coalesce(None, fallback) == fallback
  {
  }

  // ---------------------------------------------------------------------
  // String.prototype.trim

  /** The characters ECMAScript's WhiteSpace and LineTerminator productions name. */
  predicate IsWhitespace(c: char)
  {
    c == ' ' || c == '\t' || c == '\n' || c == '\U{000B}' || c == '\U{000C}' || c == '\r'
    || c == '\U{00A0}' || c == '\U{1680}' || ('\U{2000}' <= c <= '\U{200A}')
    || c == '\U{2028}' || c == '\U{2029}' || c == '\U{202F}' || c == '\U{205F}'
    || c == '\U{3000}' || c == '\U{FEFF}'
  }

  predicate AllWhitespace(s: string)
  {
    forall i :: 0 <= i < |s| ==> IsWhitespace(s[i])
  }

  /** Drops leading white space. */
  function TrimStart(s: string): string
  {
    if s != [] && IsWhitespace(s[0]) then TrimStart(s[1..]) else s
  }

  /** Drops trailing white space. */
  function TrimEnd(s: string): string
  {
    if s != [] && IsWhitespace(s[|s| - 1]) then TrimEnd(s[..|s| - 1]) else s
  }

  /** `s.trim()` */
  function Trim(s: string): string
  {
    TrimEnd(TrimStart(s))
  }

  /** `TrimStart` keeps the longest suffix that does not start with white
      space: everything it drops is white space. */
  lemma {:induction false} TrimStartSuffix(s: string)
    ensures var r := TrimStart(s);
      |r| <= |s| && r == s[|s| - |r|..] && AllWhitespace(s[..|s| - |r|])
      && (r == [] || !IsWhitespace(r[0]))
  {
    if s != [] && IsWhitespace(s[0]) {
      var r := TrimStart(s[1..]);
      TrimStartSuffix(s[1..]);
      assert s[1..][..|s[1..]| - |r|] == s[1..|s| - |r|];
      assert s[..|s| - |r|] == [s[0]] + s[1..|s| - |r|];
    }
  }

  /** `TrimEnd` keeps the longest prefix that does not end with white
      space: everything it drops is white space. */
  lemma {:induction false} TrimEndPrefix(s: string)
    ensures var r := TrimEnd(s);
      |r| <= |s| && r == s[..|r|] && AllWhitespace(s[|r|..])
      && (r == [] || !IsWhitespace(r[|r| - 1]))
  {
    if s != [] && IsWhitespace(s[|s| - 1]) {
      var r := TrimEnd(s[..|s| - 1]);
      TrimEndPrefix(s[..|s| - 1]);
      assert s[..|s| - 1][|r|..] == s[|r|..|s| - 1];
      assert s[|r|..] == s[|r|..|s| - 1] + [s[|s| - 1]];
    }
  }

  lemma {:induction false} TrimStartOfWhitespace(s: string)
    requires AllWhitespace(s)
    ensures TrimStart(s) == []
  {
    if s != [] {
      TrimStartOfWhitespace(s[1..]);
    }
  }

  /** A string trims to "" exactly when every character of it is white space. */
  lemma TrimEmptyIff(s: string)
    ensures Trim(s) == "" <==> AllWhitespace(s)
  {
    if AllWhitespace(s) {
      TrimStartOfWhitespace(s);
    }
    if Trim(s) == "" {
      var t := TrimStart(s);
      TrimStartSuffix(s);
      TrimEndPrefix(t);
      assert t[0..] == t;
      assert t == [];
      assert s[..|s|] == s;
    }
  }

  // ---------------------------------------------------------------------
  // Strings as JavaScript sees them: UTF-16 code units

  /** The UTF-16 code units of one character: one below U+10000, a
      surrogate pair above. */
  function CodeUnits(c: char): (r: seq<int>)
    ensures 1 <= |r| <= 2
    ensures |r| == 1 <==> c as int < 0x1_0000
    ensures c as int < 0x1_0000 ==> r == [c as int]
    ensures c as int >= 0x1_0000 ==>
      0xD800 <= r[0] < 0xDC00 <= r[1] < 0xE000
      && (r[0] - 0xD800) * 0x400 + (r[1] - 0xDC00) + 0x1_0000 == c as int
  {
    if c as int < 0x1_0000 then [c as int]
    else
      var v := c as int - 0x1_0000;
      [0xD800 + v / 0x400, 0xDC00 + v % 0x400]
  }

  /** The code units of a string: `s.length` is the length of this
      sequence and `s[i]` its `i`-th element. */
  function Utf16(s: string): seq<int>
  {
    if s == [] then [] else CodeUnits(s[0]) + Utf16(s[1..])
  }

  /** A string has at least as many code units as characters and at most
      twice as many; exactly as many when no character lies above U+FFFF. */
  lemma {:induction false} Utf16Length(s: string)
    ensures |s| <= |Utf16(s)| <= 2 * |s|
    ensures (forall i :: 0 <= i < |s| ==> s[i] as int < 0x1_0000) ==> |Utf16(s)| == |s|
  {
    if s != [] {
      Utf16Length(s[1..]);
      assert forall i :: 0 <= i < |s| - 1 ==> s[1..][i] == s[i + 1];
    }
  }

  /** `s[0] === c` for a character `c` below the surrogates: the first code
      unit is `c` exactly when the first character is, and the code units
      after it are those of the rest of the string. */
  lemma Utf16Head(s: string, c: char)
    requires c as int < 0xD800
    ensures (|Utf16(s)| > 0 && Utf16(s)[0] == c as int) <==> (s != [] && s[0] == c)
    ensures s != [] && s[0] == c ==> Utf16(s)[1..] == Utf16(s[1..])
  {
    if s != [] {
      assert Utf16(s) == CodeUnits(s[0]) + Utf16(s[1..]);
    }
  }

  // ---------------------------------------------------------------------
  // Number.prototype.toString on integers, and decimal reading

  predicate IsDigit(c: char)
  {
    '0' <= c <= '9'
  }

  predicate AllDigits(s: string)
  {
    forall i :: 0 <= i < |s| ==> IsDigit(s[i])
  }

  function DigitChar(d: nat): (c: char)
    requires d < 10
    ensures IsDigit(c) && c as int - '0' as int == d
  {
    (d + '0' as int) as char
  }

  /** The decimal numeral of a natural number, without leading zeros. */
  function NatToString(n: nat): (r: string)
    ensures |r| >= 1 && AllDigits(r)
    ensures r[0] != '0' || r == "0"
  {
    if n < 10 then [DigitChar(n)] else NatToString(n / 10) + [DigitChar(n % 10)]
  }

  /** The value a string of decimal digits denotes (leading zeros allowed). */
  function DecimalValue(s: string): nat
    requires AllDigits(s)
  {
    if s == [] then 0 else 10 * DecimalValue(s[..|s| - 1]) + (s[|s| - 1] as int - '0' as int)
  }

  /** Reading back the numeral of `n` gives `n`. */
  lemma {:induction false} DecimalRoundTrip(n: nat)
    ensures DecimalValue(NatToString(n)) == n
  {
    if n >= 10 {
      var r := NatToString(n);
      assert r[..|r| - 1] == NatToString(n / 10);
      DecimalRoundTrip(n / 10);
    }
  }

  /** A leading zero does not change the value of a numeral. */
  lemma {:induction false} LeadingZero(s: string)
    requires AllDigits(s)
    ensures AllDigits("0" + s) && DecimalValue("0" + s) == DecimalValue(s)
  {
    if s != [] {
      assert ("0" + s)[..|"0" + s| - 1] == "0" + s[..|s| - 1];
      LeadingZero(s[..|s| - 1]);
    }
  }

  /** `n.toString()` for an integral number. */
  function NumberToString(n: int): string
  {
    if n < 0 then "-" + NatToString(-n) else NatToString(n)
  }

  // ---------------------------------------------------------------------
  // String.prototype.padStart

  /** `s.padStart(width, fill)` with a one-character fill: left-fills up to
      `width` and never truncates a longer string. */
  function PadStart(s: string, width: nat, fill: char): (r: string)
    ensures |r| == if |s| >= width then |s| else width
    ensures r[|r| - |s|..] == s
    ensures forall i :: 0 <= i < |r| - |s| ==> r[i] == fill
    decreases width - |s|
  {
    if |s| >= width then s else PadStart([fill] + s, width, fill)
  }

  // ---------------------------------------------------------------------
  // parseInt(s) with the default radix, on decimal input

  function LeadingDigits(s: string): (r: string)
    ensures |r| <= |s| && r == s[..|r|] && AllDigits(r)
  {
    if s != [] && IsDigit(s[0]) then [s[0]] + LeadingDigits(s[1..]) else []
  }

  /** `parseInt(s)`: skips leading white space, reads an optional sign and the
      longest run of decimal digits; `None` stands for `NaN`. */
  function ParseInt(s: string): Option<int>
  {
    var t := TrimStart(s);
    var sign := if t != [] && (t[0] == '-' || t[0] == '+') then t[0] else '+';
    var body := if t != [] && (t[0] == '-' || t[0] == '+') then t[1..] else t;
    var digits := LeadingDigits(body);
    if digits == [] then None
    else
      var v: int := DecimalValue(digits);
      Some(if sign == '-' then -v else v)
  }

  /** `parseInt` reads back what `toString` writes. */
  lemma ParseIntOfNumeral(n: nat)
    ensures ParseInt(NatToString(n)) == Some(n)
  {
    var r := NatToString(n);
    ParseIntOfDigits(r);
    DecimalRoundTrip(n);
  }

  /** A non-empty run of digits parses to its decimal value. */
  lemma ParseIntOfDigits(s: string)
    requires s != [] && AllDigits(s)
    ensures ParseInt(s) == Some(DecimalValue(s))
  {
    assert IsDigit(s[0]);
    TrimStartOfNonSpace(s);
    LeadingDigitsOfDigits(s);
  }

  lemma TrimStartOfNonSpace(s: string)
    requires s != [] && !IsWhitespace(s[0])
    ensures TrimStart(s) == s
  {
  }

  lemma {:induction false} LeadingDigitsOfDigits(s: string)
    requires AllDigits(s)
    ensures LeadingDigits(s) == s
  {
    if s != [] {
      LeadingDigitsOfDigits(s[1..]);
    }
  }
}
