/** The client keeps the signed-in user in `localStorage` as text:
    `JSON.stringify(user)` when it logs in and `JSON.parse` when it reads it
    back. This module gives both directions for the one value ever stored,
    the public user `{ id, name, email }`, and proves that reading back what
    was written gives the same user. */
module JsonUser {
  import opened Common
  import opened UserModel

  // -------------------------------------------------------------------
  // Numbers

  predicate IsDigit(c: char) {
    '0' <= c <= '9'
  }

  predicate AllDigits(s: string) {
    forall i :: 0 <= i < |s| ==> IsDigit(s[i])
  }

  function Digit(d: nat): (c: char)
    requires d < 10
    ensures IsDigit(c) && c as int - '0' as int == d
  {
    ('0' as int + d) as char
  }

  /** The decimal spelling of `n`, as `JSON.stringify` writes an integer:
      no sign, no leading zero. */
  function NatToString(n: nat): (s: string)
    ensures |s| > 0 && AllDigits(s)
    ensures s[0] == '0' ==> s == "0"
  {
    if n < 10 then [Digit(n)] else NatToString(n / 10) + [Digit(n % 10)]
  }

  /** The value of a string of decimal digits. */
  function DigitsValue(ds: string): nat
    requires AllDigits(ds)
  {
    if ds == [] then 0
    else DigitsValue(ds[..|ds| - 1]) * 10 + (ds[|ds| - 1] as int - '0' as int)
  }

  lemma {:induction false} NatToStringValue(n: nat)
    ensures DigitsValue(NatToString(n)) == n
  {
    if n >= 10 {
      var s := NatToString(n);
      assert s[..|s| - 1] == NatToString(n / 10);
      NatToStringValue(n / 10);
    }
  }

  /** The length of the run of digits at the start of `s`. */
  function LeadingDigits(s: string): (k: nat)
    ensures k <= |s| && AllDigits(s[..k])
    ensures k < |s| ==> !IsDigit(s[k])
  {
    if s != [] && IsDigit(s[0]) then
      var k := 1 + LeadingDigits(s[1..]);
      assert s[..k] == [s[0]] + s[1..][..k - 1];
      k
    else 0
  }

  lemma {:induction false} LeadingDigitsOf(ds: string, rest: string)
    requires AllDigits(ds) && (rest == [] || !IsDigit(rest[0]))
    ensures LeadingDigits(ds + rest) == |ds|
  {
    if ds != [] {
      assert (ds + rest)[1..] == ds[1..] + rest;
      LeadingDigitsOf(ds[1..], rest);
    }
  }

  /** A JSON integer that is a `nat`: the digits, then what follows them.
      A leading zero on a longer number is not JSON. */
  function ParseNat(s: string): Option<(nat, string)> {
    var k := LeadingDigits(s);
    if k == 0 || (k > 1 && s[0] == '0') then None
    else Some((DigitsValue(s[..k]), s[k..]))
  }

  lemma ParseNatToString(n: nat, rest: string)
    requires rest == [] || !IsDigit(rest[0])
    ensures ParseNat(NatToString(n) + rest) == Some((n, rest))
  {
    var ds := NatToString(n);
    LeadingDigitsOf(ds, rest);
    assert (ds + rest)[..|ds|] == ds;
    assert (ds + rest)[|ds|..] == rest;
    NatToStringValue(n);
  }

  // -------------------------------------------------------------------
  // Strings

  function Hex(d: nat): char
    requires d < 16
  {
    if d < 10 then Digit(d) else ('a' as int + d - 10) as char
  }

  function HexValue(c: char): (v: Option<nat>)
    ensures v.Some? ==> v.value < 16
  {
    if '0' <= c <= '9' then Some(c as int - '0' as int)
    else if 'a' <= c <= 'f' then Some(c as int - 'a' as int + 10)
    else if 'A' <= c <= 'F' then Some(c as int - 'A' as int + 10)
    else None
  }

  lemma HexValueOfHex(d: nat)
    requires d < 16
    ensures HexValue(Hex(d)) == Some(d)
  {
  }

  /** How `JSON.stringify` writes one character inside a string literal:
      the quote and the backslash escaped, the control characters with a
      short escape where JSON has one and as `\u00xx` otherwise. */
  function EscapeChar(c: char): (e: string)
    ensures |e| > 0
  {
    if c == '"' then "\\\""
    else if c == '\\' then "\\\\"
    else if c == (8 as char) then "\\b"
    else if c == (12 as char) then "\\f"
    else if c == '\n' then "\\n"
    else if c == '\r' then "\\r"
    else if c == '\t' then "\\t"
    else if c < (0x20 as char) then "\\u00" + [Hex(c as int / 16), Hex(c as int % 16)]
    else [c]
  }

  function Escape(t: string): string {
    if t == [] then [] else EscapeChar(t[0]) + Escape(t[1..])
  }

  /** The escape sequence at the start of `s` (which starts with a
      backslash): the character it stands for and its length. A `\u` escape
      of a surrogate half is not modelled and is refused. */
  function Unescape(s: string): (r: Option<(char, nat)>)
    requires |s| > 0 && s[0] == '\\'
    ensures r.Some? ==> 2 <= r.value.1 <= |s|
  {
    if |s| < 2 then None
    else if s[1] == '"' then Some(('"', 2))
    else if s[1] == '\\' then Some(('\\', 2))
    else if s[1] == '/' then Some(('/', 2))
    else if s[1] == 'b' then Some(((8 as char), 2))
    else if s[1] == 'f' then Some(((12 as char), 2))
    else if s[1] == 'n' then Some(('\n', 2))
    else if s[1] == 'r' then Some(('\r', 2))
    else if s[1] == 't' then Some(('\t', 2))
    else if s[1] == 'u' && |s| >= 6 then
      match (HexValue(s[2]), HexValue(s[3]), HexValue(s[4]), HexValue(s[5]))
      case (Some(a), Some(b), Some(c), Some(d)) =>
        var v := ((a * 16 + b) * 16 + c) * 16 + d;
        if 0xD800 <= v <= 0xDFFF then None else Some((v as char, 6))
      case _ => None
    else None
  }

  /** The body of a JSON string literal after its opening quote: the
      characters it denotes and the input after its closing quote. A raw
      control character or a broken escape is a syntax error. */
  function ParseChars(s: string): (r: Option<(string, string)>)
    decreases |s|
  {
    if s == [] then None
    else if s[0] == '"' then Some(("", s[1..]))
    else if s[0] == '\\' then
      match Unescape(s)
      case None => None
      case Some((c, k)) =>
        match ParseChars(s[k..])
        case None => None
        case Some((t, rest)) => Some(([c] + t, rest))
    else if s[0] < (0x20 as char) then None
    else
      match ParseChars(s[1..])
      case None => None
      case Some((t, rest)) => Some(([s[0]] + t, rest))
  }

  /** Reading one written character: whatever follows, the parser yields
      the character back and goes on with the rest. */
  lemma ParseEscapedChar(c: char, tail: string)
    ensures ParseChars(EscapeChar(c) + tail) ==
            match ParseChars(tail)
            case None => None
            case Some((t, rest)) => Some(([c] + t, rest))
  {
    var e := EscapeChar(c);
    var s := e + tail;
    assert s[..|e|] == e;
    assert s[|e|..] == tail;
    if c != '"' && c != '\\' && c != (8 as char) && c != (12 as char) && c != '\n' && c != '\r' && c != '\t'
       && c < (0x20 as char) {
      var hi, lo := c as int / 16, c as int % 16;
      HexValueOfHex(hi);
      HexValueOfHex(lo);
      assert s[2] == '0' && s[3] == '0' && s[4] == Hex(hi) && s[5] == Hex(lo);
      assert Unescape(s) == Some((c, 6));
    }
  }

  lemma {:induction false} ParseEscape(t: string, rest: string)
    ensures ParseChars(Escape(t) + "\"" + rest) == Some((t, rest))
  {
    if t == [] {
      assert Escape(t) + "\"" + rest == "\"" + rest;
      assert ("\"" + rest)[1..] == rest;
    } else {
      var tail := Escape(t[1..]) + "\"" + rest;
      assert Escape(t) + "\"" + rest == EscapeChar(t[0]) + tail;
      ParseEscape(t[1..], rest);
      ParseEscapedChar(t[0], tail);
      assert [t[0]] + t[1..] == t;
    }
  }

  // -------------------------------------------------------------------
  // The stored user

  /** `s` starts with `lit`; what follows it. */
  function Expect(s: string, lit: string): (r: Option<string>)
    ensures r.Some? <==> |lit| <= |s| && s[..|lit|] == lit
    ensures r.Some? ==> r.value == s[|lit|..]
  {
    if |lit| <= |s| && s[..|lit|] == lit then Some(s[|lit|..]) else None
  }

  lemma ExpectPrefix(lit: string, rest: string)
    ensures Expect(lit + rest, lit) == Some(rest)
  {
    assert (lit + rest)[..|lit|] == lit;
    assert (lit + rest)[|lit|..] == rest;
  }

  const IdKey: string := "{\"id\":"
  const NameKey: string := ",\"name\":\""
  const EmailKey: string := ",\"email\":\""

  /** `JSON.stringify({ id, name, email })`: the keys in that order, no
      white space. */
  function Stringify(u: PublicUser): (s: string)
    ensures |IdKey| < |s| && s[..|IdKey|] == IdKey && s[|s| - 1] == '}'
  {
    IdKey + (NatToString(u.id) + (NameKey + (Escape(u.name) + "\"" + (EmailKey + (Escape(u.email) + "\"" + "}")))))
  }

  /** `JSON.parse` of a stored user: the public user it denotes, or `None`
      when the text is not such an object (in particular when `JSON.parse`
      throws). */
  function ParseUser(s: string): (r: Option<PublicUser>)
    ensures r.Some? ==> |IdKey| <= |s| && s[..|IdKey|] == IdKey
  {
    match Expect(s, IdKey)
    case None => None
    case Some(s1) =>
      match ParseNat(s1)
      case None => None
      case Some((id, s2)) =>
        match Expect(s2, NameKey)
        case None => None
        case Some(s3) =>
          match ParseChars(s3)
          case None => None
          case Some((name, s4)) =>
            match Expect(s4, EmailKey)
            case None => None
            case Some(s5) =>
              match ParseChars(s5)
              case None => None
              case Some((email, s6)) => if s6 == "}" then Some(PublicUser(id, name, email)) else None
  }

  /** Reading back a stored user gives that user. */
  lemma {:induction false} ParseStringify(u: PublicUser)
    ensures ParseUser(Stringify(u)) == Some(u)
  {
    var tail5 := Escape(u.email) + "\"" + "}";
    var tail4 := EmailKey + tail5;
    var tail3 := Escape(u.name) + "\"" + tail4;
    var tail2 := NameKey + tail3;
    var tail1 := NatToString(u.id) + tail2;
    assert Stringify(u) == IdKey + tail1;
    ExpectPrefix(IdKey, tail1);
    ParseNatToString(u.id, tail2);
    ExpectPrefix(NameKey, tail3);
    ParseEscape(u.name, tail4);
    ExpectPrefix(EmailKey, tail5);
    ParseEscape(u.email, "}");
  }

  /** `JSON.stringify(undefined)` stored by `setItem` becomes the text
      `"undefined"`, which `JSON.parse` rejects. */
  lemma UndefinedIsUnreadable()
    ensures ParseUser("undefined") == None
  {
  }
}
