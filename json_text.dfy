/** `JSON.stringify` and `JSON.parse` on the one shape the session store
    persists: a flat object whose members are all strings. Writing escapes
    quotes, backslashes and control characters as `JSON.stringify` does;
    reading accepts any JSON white space and every JSON string escape
    except a `\u` escape naming a lone surrogate (U+D800 to U+DFFF, which a
    Dafny `char` cannot hold), and refuses everything outside that shape. */
module JsonText {
  import opened Js

  /** One object member, `"key":"value"`. */
  type Member = (string, string)

  // ---------------------------------------------------------------------
  // Writing

  function HexDigit(d: nat): char
    requires d < 16
  {
    "0123456789abcdef"[d]
  }

  /** How `JSON.stringify` writes one character inside a string literal. */
  function EscapeChar(c: char): string
  {
    if c == '"' then "\\\""
    else if c == '\\' then "\\\\"
    else if c == '\U{8}' then "\\b"
    else if c == '\U{C}' then "\\f"
    else if c == '\n' then "\\n"
    else if c == '\r' then "\\r"
    else if c == '\t' then "\\t"
    else if c < ' ' then "\\u00" + [HexDigit(c as int / 16), HexDigit(c as int % 16)]
    else [c]
  }

  function Escape(s: string): string
  {
    if s == [] then [] else EscapeChar(s[0]) + Escape(s[1..])
  }

  function Quote(s: string): string
  {
    "\"" + Escape(s) + "\""
  }

  function MemberText(m: Member): string
  {
    Quote(m.0) + ":" + Quote(m.1)
  }

  function MembersText(ms: seq<Member>): string
  {
    if ms == [] then ""
    else if |ms| == 1 then MemberText(ms[0])
    else MemberText(ms[0]) + "," + MembersText(ms[1..])
  }

  /** `JSON.stringify` of an object with the members `ms`, in order. */
  function Stringify(ms: seq<Member>): string
  {
    "{" + MembersText(ms) + "}"
  }

  // ---------------------------------------------------------------------
  // Reading

  predicate IsJsonSpace(c: char)
  {
    c == ' ' || c == '\t' || c == '\n' || c == '\r'
  }

  function SkipSpace(s: string): (r: string)
    ensures |r| <= |s|
  {
    if s != [] && IsJsonSpace(s[0]) then SkipSpace(s[1..]) else s
  }

  function HexValue(c: char): (r: Option<nat>)
    ensures r.Some? ==> r.value < 16
  {
    if '0' <= c <= '9' then Some(c as int - '0' as int)
    else if 'a' <= c <= 'f' then Some(c as int - 'a' as int + 10)
    else if 'A' <= c <= 'F' then Some(c as int - 'A' as int + 10)
    else None
  }

  /** The code unit a `\uXXXX` escape names, if its four characters are hex digits. */
  function HexQuad(s: string): (r: Option<nat>)
    requires |s| == 4
    ensures r.Some? ==> r.value < 0x1_0000
  {
    var a, b, c, d := HexValue(s[0]), HexValue(s[1]), HexValue(s[2]), HexValue(s[3]);
    if a.Some? && b.Some? && c.Some? && d.Some? then
      Some(((a.value * 16 + b.value) * 16 + c.value) * 16 + d.value)
    else None
  }

  /** The character a one-letter escape `\e` stands for. */
  function SimpleEscape(e: char): Option<char>
  {
    if e == '"' then Some('"')
    else if e == '\\' then Some('\\')
    else if e == '/' then Some('/')
    else if e == 'b' then Some('\U{8}')
    else if e == 'f' then Some('\U{C}')
    else if e == 'n' then Some('\n')
    else if e == 'r' then Some('\r')
    else if e == 't' then Some('\t')
    else None
  }

  /** Reads what follows a backslash: the escape letter `e`, then `rest`.
      A `\u` escape naming a lone surrogate is refused. */
  function ReadEscape(e: char, rest: string): (r: Option<(char, string)>)
    ensures r.Some? ==> |r.value.1| <= |rest|
  {
    if SimpleEscape(e).Some? then Some((SimpleEscape(e).value, rest))
    else if e == 'u' && |rest| >= 4 then
      var code := HexQuad(rest[..4]);
      if code.Some? && !(0xD800 <= code.value < 0xE000) then Some((code.value as char, rest[4..]))
      else None
    else None
  }

  /** Reads one character of a string literal that is not its closing quote. */
  function ReadChar(s: string): (r: Option<(char, string)>)
    ensures r.Some? ==> |r.value.1| < |s|
  {
    if s == [] || s[0] == '"' || s[0] < ' ' then None
    else if s[0] != '\\' then Some((s[0], s[1..]))
    else if |s| < 2 then None
    else ReadEscape(s[1], s[2..])
  }

  /** Reads the rest of a string literal whose opening quote is consumed. */
  function ReadStringBody(s: string): (r: Option<(string, string)>)
    ensures r.Some? ==> |r.value.1| < |s|
    decreases |s|
  {
    if s != [] && s[0] == '"' then Some(([], s[1..]))
    else
      match ReadChar(s)
      case None => None
      case Some((c, rest)) =>
        match ReadStringBody(rest)
        case None => None
        case Some((body, after)) => Some(([c] + body, after))
  }

  function ReadString(s: string): (r: Option<(string, string)>)
    ensures r.Some? ==> |r.value.1| < |s|
  {
    if s != [] && s[0] == '"' then ReadStringBody(s[1..]) else None
  }

  /** Reads `"key" : "value"`. */
  function ReadMember(s: string): (r: Option<(Member, string)>)
    ensures r.Some? ==> |r.value.1| < |s|
  {
    match ReadString(s)
    case None => None
    case Some((key, rest)) =>
      var t := SkipSpace(rest);
      if t != [] && t[0] == ':' then
        match ReadString(SkipSpace(t[1..]))
        case None => None
        case Some((value, after)) => Some(((key, value), after))
      else None
  }

  /** Reads one or more members and the closing brace. */
  function ReadMembers(s: string): (r: Option<(seq<Member>, string)>)
    ensures r.Some? ==> |r.value.1| < |s|
    decreases |s|
  {
    match ReadMember(s)
    case None => None
    case Some((m, rest)) =>
      var t := SkipSpace(rest);
      if t != [] && t[0] == '}' then Some(([m], t[1..]))
      else if t != [] && t[0] == ',' then
        match ReadMembers(SkipSpace(t[1..]))
        case None => None
        case Some((ms, after)) => Some(([m] + ms, after))
      else None
  }

  /** `JSON.parse` restricted to flat objects of string members; `None`
      stands for the `SyntaxError` it throws (or a shape outside this model). */
  function Parse(text: string): Option<seq<Member>>
  {
    var t := SkipSpace(text);
    if t == [] || t[0] != '{' then None
    else
      var u := SkipSpace(t[1..]);
      var body: Option<(seq<Member>, string)> :=
        if u != [] && u[0] == '}' then Some(([], u[1..])) else ReadMembers(u);
      match body
      case None => None
      case Some((ms, rest)) => if SkipSpace(rest) == [] then Some(ms) else None
  }

  /** The value of property `key` of a parsed object: the last member with
      that key wins, as in `JSON.parse`; `None` is `undefined`. This is the
      rule `Api.LastMember` follows on response bodies; it is restated here
      because members of the stored text hold strings, not JSON values. */
  function Lookup(ms: seq<Member>, key: string): (r: Option<string>)
    ensures r.Some? <==> exists i :: 0 <= i < |ms| && ms[i].0 == key
    ensures r.Some? ==> exists i :: 0 <= i < |ms| && ms[i] == (key, r.value)
  {
    if ms == [] then None
    else if ms[|ms| - 1].0 == key then Some(ms[|ms| - 1].1)
    else
      var r := Lookup(ms[..|ms| - 1], key);
      assert forall i :: 0 <= i < |ms| - 1 ==> ms[..|ms| - 1][i] == ms[i];
      r
  }

  /** The value found is that of the last member with the key, as in `JSON.parse`. */
  lemma {:induction false} LookupFindsLast(ms: seq<Member>, key: string)
    ensures Lookup(ms, key).Some? ==>
      exists i :: 0 <= i < |ms| && ms[i] == (key, Lookup(ms, key).value)
                  && forall j :: i < j < |ms| ==> ms[j].0 != key
  {
    if ms != [] && ms[|ms| - 1].0 != key {
      var init := ms[..|ms| - 1];
      LookupFindsLast(init, key);
      if Lookup(ms, key).Some? {
        var i :| 0 <= i < |init| && init[i] == (key, Lookup(init, key).value)
                 && forall j :: i < j < |init| ==> init[j].0 != key;
        assert ms[i] == init[i];
        assert forall j :: i < j < |ms| - 1 ==> ms[j] == init[j];
      }
    }
  }

  // ---------------------------------------------------------------------
  // Reading back what was written

  lemma HexRoundTrip(d: nat)
    requires d < 16
    ensures HexValue(HexDigit(d)) == Some(d)
  {
  }

  /** A printable character other than a quote or a backslash is read as itself. */
  lemma ReadPlainChar(c: char, t: string)
    requires c >= ' ' && c != '"' && c != '\\'
    ensures ReadChar([c] + t) == Some((c, t))
  {
    assert ([c] + t)[0] == c && ([c] + t)[1..] == t;
  }

  /** A backslash and an escape letter are read as the character the letter names. */
  lemma ReadSimpleEscape(e: char, c: char, t: string)
    requires SimpleEscape(e) == Some(c)
    ensures ReadChar(['\\', e] + t) == Some((c, t))
  {
    var s := ['\\', e] + t;
    assert s[0] == '\\' && s[1] == e && s[2..] == t;
  }

  /** A control character written as `\u00XY` is read back as itself. */
  lemma ReadControlEscape(c: char, t: string)
    requires c < ' '
    ensures ReadChar("\\u00" + [HexDigit(c as int / 16), HexDigit(c as int % 16)] + t) == Some((c, t))
  {
    var hi, lo := c as int / 16, c as int % 16;
    var rest := ['0', '0', HexDigit(hi), HexDigit(lo)] + t;
    var s := "\\u00" + [HexDigit(hi), HexDigit(lo)] + t;
    assert s[0] == '\\' && s[1] == 'u' && s[2..] == rest;
    HexRoundTrip(hi);
    HexRoundTrip(lo);
    assert rest[..4] == ['0', '0', HexDigit(hi), HexDigit(lo)];
    assert HexQuad(rest[..4]) == Some(c as int);
    assert ReadEscape('u', rest) == Some((c, rest[4..]));
    assert rest[4..] == t;
  }

  /** Every escaped character reads back as itself. */
  lemma ReadEscapedChar(c: char, t: string)
    ensures ReadChar(EscapeChar(c) + t) == Some((c, t))
  {
    if c == '"' {
      ReadSimpleEscape('"', c, t);
    } else if c == '\\' {
      ReadSimpleEscape('\\', c, t);
    } else if c == '\U{8}' {
      ReadSimpleEscape('b', c, t);
    } else if c == '\U{C}' {
      ReadSimpleEscape('f', c, t);
    } else if c == '\n' {
      ReadSimpleEscape('n', c, t);
    } else if c == '\r' {
      ReadSimpleEscape('r', c, t);
    } else if c == '\t' {
      ReadSimpleEscape('t', c, t);
    } else if c < ' ' {
      ReadControlEscape(c, t);
    } else {
      ReadPlainChar(c, t);
    }
  }

  /** Once one character of a literal's body is read, the rest of the body
      is read from where it stopped. */
  lemma ReadBodyStep(s: string, c: char, rest: string)
    requires ReadChar(s) == Some((c, rest))
    ensures ReadStringBody(s) ==
      match ReadStringBody(rest)
      case None => None
      case Some((body, after)) => Some(([c] + body, after))
  {
  }

  /** The body of a written string literal reads back as the original string. */
  lemma {:induction false} ReadEscapedBody(s: string, t: string)
    ensures ReadStringBody(Escape(s) + "\"" + t) == Some((s, t))
  {
    if s == [] {
      assert Escape(s) + "\"" + t == "\"" + t;
      assert ("\"" + t)[1..] == t;
    } else {
      var e := Escape(s) + "\"" + t;
      var tail := Escape(s[1..]) + "\"" + t;
      assert e == EscapeChar(s[0]) + tail;
      ReadEscapedChar(s[0], tail);
      ReadBodyStep(e, s[0], tail);
      ReadEscapedBody(s[1..], t);
      assert [s[0]] + s[1..] == s;
    }
  }

  lemma ReadQuoted(s: string, t: string)
    ensures ReadString(Quote(s) + t) == Some((s, t))
  {
    var body := Escape(s) + "\"" + t;
    assert Quote(s) + t == "\"" + body;
    assert ("\"" + body)[1..] == body;
    ReadEscapedBody(s, t);
  }

  /** A key, a colon and a value with no white space between them read as one member. */
  lemma ReadMemberStep(s: string, key: string, value: string, valueRest: string, after: string)
    requires ReadString(s) == Some((key, ":" + valueRest))
    requires valueRest != [] && valueRest[0] == '"'
    requires ReadString(valueRest) == Some((value, after))
    ensures ReadMember(s) == Some(((key, value), after))
  {
    var keyRest := ":" + valueRest;
    SkipNoSpace(keyRest);
    assert keyRest[1..] == valueRest;
    SkipNoSpace(valueRest);
  }

  lemma ReadWrittenMember(m: Member, t: string)
    ensures ReadMember(MemberText(m) + t) == Some((m, t))
  {
    var valueRest := Quote(m.1) + t;
    assert MemberText(m) + t == Quote(m.0) + (":" + valueRest);
    ReadQuoted(m.0, ":" + valueRest);
    ReadQuoted(m.1, t);
    ReadMemberStep(MemberText(m) + t, m.0, m.1, valueRest, t);
  }

  lemma SkipNoSpace(s: string)
    requires s != [] && !IsJsonSpace(s[0])
    ensures SkipSpace(s) == s
  {
  }

  lemma {:induction false} MembersTextStartsWithQuote(ms: seq<Member>)
    requires ms != []
    ensures MembersText(ms) != [] && MembersText(ms)[0] == '"'
  {
    assert MemberText(ms[0])[0] == '"';
  }

  lemma ReadLastMember(m: Member, t: string)
    ensures ReadMembers(MemberText(m) + ("}" + t)) == Some(([m], t))
  {
    var rest := "}" + t;
    ReadWrittenMember(m, rest);
    SkipNoSpace(rest);
    assert rest[1..] == t;
  }

  lemma ReadMemberThenComma(m: Member, tail: string)
    requires tail != [] && tail[0] == '"'
    ensures ReadMembers(MemberText(m) + ("," + tail)) ==
      match ReadMembers(tail)
      case None => None
      case Some((ms, after)) => Some(([m] + ms, after))
  {
    var rest := "," + tail;
    ReadWrittenMember(m, rest);
    SkipNoSpace(rest);
    assert rest[1..] == tail;
    SkipNoSpace(tail);
  }

  lemma SeqAssoc(head: string, mid: string, t: string)
    ensures head + "," + mid + "}" + t == head + ("," + (mid + "}" + t))
  {
  }

  /** Written members followed by the closing brace read back as the same members. */
  lemma {:induction false} ReadWrittenMembers(ms: seq<Member>, t: string)
    requires ms != []
    ensures ReadMembers(MembersText(ms) + "}" + t) == Some((ms, t))
  {
    var m := ms[0];
    if |ms| == 1 {
      assert MembersText(ms) + "}" + t == MemberText(m) + ("}" + t);
      ReadLastMember(m, t);
      assert ms == [m];
    } else {
      var tail := MembersText(ms[1..]) + "}" + t;
      var head := MemberText(m);
      assert MembersText(ms) == head + "," + MembersText(ms[1..]);
      SeqAssoc(head, MembersText(ms[1..]), t);
      MembersTextStartsWithQuote(ms[1..]);
      ReadMemberThenComma(m, tail);
      ReadWrittenMembers(ms[1..], t);
      assert [m] + ms[1..] == ms;
    }
  }

  /** `{}` parses as the object with no members. */
  lemma ParseEmptyObject()
    ensures Parse("{}") == Some([])
  {
    var text := "{}";
    SkipNoSpace(text);
    SkipNoSpace(text[1..]);
    assert text[1..][1..] == [];
  }

  /** An opening brace followed by a member parses as the members read
      from there, provided nothing but white space follows them. */
  lemma ParseOpenBrace(inner: string)
    requires inner != [] && inner[0] == '"'
    ensures Parse("{" + inner) ==
      match ReadMembers(inner)
      case None => None
      case Some((ms, rest)) => if SkipSpace(rest) == [] then Some(ms) else None
  {
    var text := "{" + inner;
    SkipNoSpace(text);
    assert text[1..] == inner;
    SkipNoSpace(inner);
  }

  /** Round trip: parsing what `Stringify` wrote gives back the same members. */
  lemma ParseStringify(ms: seq<Member>)
    ensures Parse(Stringify(ms)) == Some(ms)
  {
    if ms == [] {
      assert Stringify(ms) == "{}";
      ParseEmptyObject();
    } else {
      var inner := MembersText(ms) + "}" + "";
      assert Stringify(ms) == "{" + inner;
      MembersTextStartsWithQuote(ms);
      ParseOpenBrace(inner);
      ReadWrittenMembers(ms, "");
    }
  }
}
