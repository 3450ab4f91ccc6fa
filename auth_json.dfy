/**
 * The frontend's `AuthUser` and the JSON text it is stored as:
 * `JSON.stringify(authUser)` and `JSON.parse(raw)`.
 *
 * Writing follows `JSON.stringify` for an object of three string properties:
 * `"` and `\` are escaped, the control characters with a short escape use
 * it, the other control characters become `\u00XX`. Reading accepts the
 * object shape writing produces, with every JSON string escape (a surrogate
 * pair written as two `\u` escapes is the one character it encodes); any
 * other text is a parse failure.
 */
module AuthJson {
  import opened Wrappers

  /** `AuthUser` (frontend/src/Models/AppUser.ts). */
  datatype AuthUser = AuthUser(username: string, email: string, token: string)

  function HexDigit(n: nat): (c: char)
    requires n < 16
  {
    if n < 10 then ('0' as int + n) as char else ('a' as int + n - 10) as char
  }

  function HexValue(c: char): (r: Option<nat>)
    ensures r.Some? ==> r.value < 16
  {
    if '0' <= c <= '9' then Some(c as int - '0' as int)
    else if 'a' <= c <= 'f' then Some(c as int - 'a' as int + 10)
    else if 'A' <= c <= 'F' then Some(c as int - 'A' as int + 10)
    else None
  }

  const Backspace: char := 8 as char
  const FormFeed: char := 12 as char

  /** How `JSON.stringify` writes one character inside a string literal. */
  function EscapeChar(c: char): (r: string)
    ensures r != [] && r[0] != '"'
  {
    if c == '"' then ['\\', '"']
    else if c == '\\' then ['\\', '\\']
    else if c == Backspace then ['\\', 'b']
    else if c == FormFeed then ['\\', 'f']
    else if c == '\n' then ['\\', 'n']
    else if c == '\r' then ['\\', 'r']
    else if c == '\t' then ['\\', 't']
    else if (c as int) < 0x20 then ['\\', 'u', '0', '0', HexDigit(c as int / 16), HexDigit(c as int % 16)]
    else [c]
  }

  /** The characters of a string literal between its quotes. */
  function Escape(s: string): string
  {
    if s == [] then [] else EscapeChar(s[0]) + Escape(s[1..])
  }

  /** The four hex digits of a `\uXXXX` escape, as a code unit. */
  function HexQuad(t: string): (r: Option<nat>)
    requires |t| >= 4
    ensures r.Some? ==> r.value < 0x10000
  {
    match (HexValue(t[0]), HexValue(t[1]), HexValue(t[2]), HexValue(t[3]))
    case (Some(a), Some(b), Some(c), Some(d)) => Some(((a * 16 + b) * 16 + c) * 16 + d)
    case _ => None
  }

  /** A high (leading) and a low (trailing) UTF-16 surrogate half. */
  predicate IsHighSurrogate(code: nat) { 0xD800 <= code < 0xDC00 }
  predicate IsLowSurrogate(code: nat) { 0xDC00 <= code < 0xE000 }

  /** The character a UTF-16 surrogate pair encodes. */
  function FromSurrogates(high: nat, low: nat): (c: char)
    requires IsHighSurrogate(high) && IsLowSurrogate(low)
    ensures 0x10000 <= c as int < 0x110000
  {
    ((high - 0xD800) * 0x400 + (low - 0xDC00) + 0x10000) as char
  }

  /**
   * The character an escape sequence stands for, and how many characters
   * follow the backslash. `\uXXXX\uXXXX` naming a high then a low surrogate
   * half is the one character of the pair; a lone surrogate half is not a
   * character of its own and is refused.
   */
  function Unescape(t: string): (r: Option<(char, nat)>)
    ensures r.Some? ==> 1 <= r.value.1 <= |t|
  {
    if t == [] then None
    else if t[0] == '"' || t[0] == '\\' || t[0] == '/' then Some((t[0], 1))
    else if t[0] == 'b' then Some((Backspace, 1))
    else if t[0] == 'f' then Some((FormFeed, 1))
    else if t[0] == 'n' then Some(('\n', 1))
    else if t[0] == 'r' then Some(('\r', 1))
    else if t[0] == 't' then Some(('\t', 1))
    else if t[0] == 'u' && |t| >= 5 then
      match HexQuad(t[1..5])
      case None => None
      case Some(code) =>
        if IsHighSurrogate(code) && |t| >= 11 && t[5] == '\\' && t[6] == 'u' then
          match HexQuad(t[7..11])
          case Some(low) =>
            if IsLowSurrogate(low) then Some((FromSurrogates(code, low), 11)) else None
          case None => None
        else if 0xD800 <= code < 0xE000 then None
        else Some((code as char, 5))
    else None
  }

  /** A literal's value with `c` in front, when reading it succeeded. */
  function Prepend(c: char, r: Option<(string, string)>): Option<(string, string)>
  {
    match r
    case None => None
    case Some((v, rest)) => Some(([c] + v, rest))
  }

  /**
   * Reads a string literal whose opening quote is already consumed: its
   * value and the text after the closing quote.
   */
  function ParseString(t: string): (r: Option<(string, string)>)
    ensures r.Some? ==> |r.value.1| < |t|
    decreases |t|
  {
    if t == [] then None
    else if t[0] == '"' then Some(([], t[1..]))
    else if t[0] == '\\' then
      match Unescape(t[1..])
      case None => None
      case Some((c, n)) => Prepend(c, ParseString(t[1 + n..]))
    else if (t[0] as int) < 0x20 then None
    else Prepend(t[0], ParseString(t[1..]))
  }

  lemma HexRoundTrip(n: nat)
    requires n < 16
    ensures HexValue(HexDigit(n)) == Some(n)
  {
  }

  /** Reading back a two-character escape `\\x`. */
  lemma ParseShortEscape(c: char, e: char, tail: string)
    requires Unescape([e]) == Some((c, 1))
    ensures ParseString(['\\', e] + tail) == Prepend(c, ParseString(tail))
  {
    var t := ['\\', e] + tail;
    assert t[1..][0] == e && t[2..] == tail;
  }

  /** Reading back a `\\u00XX` escape of a control character. */
  lemma ParseControlEscape(c: char, tail: string)
    requires (c as int) < 0x20
    ensures var e := ['\\', 'u', '0', '0', HexDigit(c as int / 16), HexDigit(c as int % 16)];
            ParseString(e + tail) == Prepend(c, ParseString(tail))
  {
    var hi, lo := c as int / 16, c as int % 16;
    HexRoundTrip(hi);
    HexRoundTrip(lo);
    var e := ['\\', 'u', '0', '0', HexDigit(hi), HexDigit(lo)];
    var t := e + tail;
    assert t[1..][1..5] == e[2..6];
    assert HexQuad(t[1..][1..5]) == Some(c as int);
    assert t[6..] == tail;
  }

  /** Reading back one written character. */
  lemma ParseEscapedChar(c: char, tail: string)
    ensures ParseString(EscapeChar(c) + tail) == Prepend(c, ParseString(tail))
  {
    if c == '"' || c == '\\' {
      ParseShortEscape(c, c, tail);
    } else if c == Backspace {
      ParseShortEscape(c, 'b', tail);
    } else if c == FormFeed {
      ParseShortEscape(c, 'f', tail);
    } else if c == '\n' {
      ParseShortEscape(c, 'n', tail);
    } else if c == '\r' {
      ParseShortEscape(c, 'r', tail);
    } else if c == '\t' {
      ParseShortEscape(c, 't', tail);
    } else if (c as int) < 0x20 {
      ParseControlEscape(c, tail);
    } else {
      assert ([c] + tail)[1..] == tail;
    }
  }

  /** Reading back a written string literal yields the original string and the text after it. */
  lemma {:induction false} ParseEscaped(s: string, rest: string)
    ensures ParseString(Escape(s) + ("\"" + rest)) == Some((s, rest))
  {
    if s == [] {
      assert Escape(s) + ("\"" + rest) == "\"" + rest;
    } else {
      var tail := Escape(s[1..]) + ("\"" + rest);
      assert Escape(s) + ("\"" + rest) == EscapeChar(s[0]) + tail;
      ParseEscapedChar(s[0], tail);
      ParseEscaped(s[1..], rest);
      assert [s[0]] + s[1..] == s;
    }
  }

  /** One step of `ParseString` over an escape sequence. */
  lemma ParseEscapeStep(t: string, c: char, n: nat)
    requires t != [] && t[0] == '\\' && Unescape(t[1..]) == Some((c, n))
    ensures ParseString(t) == Prepend(c, ParseString(t[1 + n..]))
  {
  }

  /**
   * Any surrogate pair written as two `\\u` escapes, a high half `q1` then a
   * low half `q2` (hex digits in either case), reads as the one character
   * the pair encodes.
   */
  lemma SurrogatePairRead(q1: string, q2: string, tail: string)
    requires |q1| == 4 && HexQuad(q1).Some? && IsHighSurrogate(HexQuad(q1).value)
    requires |q2| == 4 && HexQuad(q2).Some? && IsLowSurrogate(HexQuad(q2).value)
    ensures ParseString("\\u" + q1 + "\\u" + q2 + tail)
            == Prepend(FromSurrogates(HexQuad(q1).value, HexQuad(q2).value), ParseString(tail))
  {
    var t := "\\u" + q1 + "\\u" + q2 + tail;
    var u := t[1..];
    assert u[1..5] == q1 && u[5] == '\\' && u[6] == 'u' && u[7..11] == q2;
    ParseEscapeStep(t, FromSurrogates(HexQuad(q1).value, HexQuad(q2).value), 11);
    assert t[12..] == tail;
  }

  /**
   * Every character beyond the Basic Multilingual Plane is the character of
   * one surrogate pair, so the pairs `SurrogatePairRead` accepts cover them all.
   */
  lemma SurrogatesCoverSupplementary(c: char)
    requires c as int >= 0x10000
    ensures var v := c as int - 0x10000;
      && IsHighSurrogate(0xD800 + v / 0x400) && IsLowSurrogate(0xDC00 + v % 0x400)
      && FromSurrogates(0xD800 + v / 0x400, 0xDC00 + v % 0x400) == c
  {
    var v := c as int - 0x10000;
    assert v < 0x100000;
    assert (v / 0x400) * 0x400 + v % 0x400 == v;
  }

  /**
   * A `\\u` escape of a surrogate half is refused unless it is a high half
   * followed at once by a `\\u` escape of a low half.
   */
  lemma LoneSurrogateRefused(q: string, rest: string)
    requires |q| == 4 && HexQuad(q).Some? && 0xD800 <= HexQuad(q).value < 0xE000
    requires !(IsHighSurrogate(HexQuad(q).value) && |rest| >= 6 && rest[0] == '\\' && rest[1] == 'u'
               && HexQuad(rest[2..6]).Some? && IsLowSurrogate(HexQuad(rest[2..6]).value))
    ensures ParseString("\\u" + q + rest) == None
  {
    var t := "\\u" + q + rest;
    var u := t[1..];
    assert u[1..5] == q;
    if |u| >= 11 {
      assert u[5] == rest[0] && u[6] == rest[1] && u[7..11] == rest[2..6];
    }
  }

  /** The text before each property's value, up to and including its opening quote. */
  const OpenUsername := "{\"username\":\""
  const OpenEmail := ",\"email\":\""
  const OpenToken := ",\"token\":\""

  /** `JSON.stringify(authUser)`. */
  function Stringify(u: AuthUser): (r: string)
    ensures r != []
  {
    OpenUsername + (Escape(u.username) + ("\"" +
    (OpenEmail + (Escape(u.email) + ("\"" +
    (OpenToken + (Escape(u.token) + ("\"" + "}"))))))))
  }

  /** Strips `prefix` from `t`. */
  function After(prefix: string, t: string): Option<string>
  {
    if prefix <= t then Some(t[|prefix|..]) else None
  }

  /** `JSON.parse(raw)` for the stored user, `None` where it throws or the text is another shape. */
  function Parse(raw: string): Option<AuthUser>
  {
    match After(OpenUsername, raw)
    case None => None
    case Some(t0) =>
      match ParseString(t0)
      case None => None
      case Some((username, t1)) =>
        match After(OpenEmail, t1)
        case None => None
        case Some(t2) =>
          match ParseString(t2)
          case None => None
          case Some((email, t3)) =>
            match After(OpenToken, t3)
            case None => None
            case Some(t4) =>
              match ParseString(t4)
              case None => None
              case Some((token, t5)) => if t5 == "}" then Some(AuthUser(username, email, token)) else None
  }

  lemma AfterPrefix(prefix: string, t: string)
    ensures After(prefix, prefix + t) == Some(t)
  {
    assert (prefix + t)[|prefix|..] == t;
  }

  /** What `login` stores reads back as the same user. */
  lemma {:induction false} ParseStringify(u: AuthUser)
    ensures Parse(Stringify(u)) == Some(u)
  {
    var tokenPart := OpenToken + (Escape(u.token) + ("\"" + "}"));
    var emailPart := OpenEmail + (Escape(u.email) + ("\"" + tokenPart));
    AfterPrefix(OpenUsername, Escape(u.username) + ("\"" + emailPart));
    ParseEscaped(u.username, emailPart);
    AfterPrefix(OpenEmail, Escape(u.email) + ("\"" + tokenPart));
    ParseEscaped(u.email, tokenPart);
    AfterPrefix(OpenToken, Escape(u.token) + ("\"" + "}"));
    ParseEscaped(u.token, "}");
  }
}
