/**
 * The text `JSON.stringify` writes for the stored user `{email, roles}`, and the reader that turns
 * it back into a user. Fields whose value is `undefined` are omitted, as `JSON.stringify` does.
 */
module UserCodec {
  import opened Wrappers
  import opened Domain

  // ----- JSON string literals -----

  function HexDigit(d: nat): (c: char)
    requires d < 16
  {
    "0123456789abcdef"[d]
  }

  function HexValue(c: char): (r: Option<nat>)
    ensures r.Some? ==> r.value < 16
  {
    if '0' <= c <= '9' then Some((c as int) - ('0' as int))
    else if 'a' <= c <= 'f' then Some((c as int) - ('a' as int) + 10)
    else if 'A' <= c <= 'F' then Some((c as int) - ('A' as int) + 10)
    else None
  }

  /** How `JSON.stringify` writes one character inside a string literal. */
  function EscapeChar(c: char): (r: string)
    ensures |r| > 0 && r[0] != '"'
    ensures r[0] == '\\' <==> |r| > 1
  {
    if c == '"' then "\\\""
    else if c == '\\' then "\\\\"
    else if c == '\U{0008}' then "\\b"
    else if c == '\t' then "\\t"
    else if c == '\n' then "\\n"
    else if c == '\U{000C}' then "\\f"
    else if c == '\r' then "\\r"
    else if (c as int) < 0x20 then "\\u00" + [HexDigit((c as int) / 16), HexDigit((c as int) % 16)]
    else [c]
  }

  function EscapeString(s: string): string {
    if |s| == 0 then "" else EscapeChar(s[0]) + EscapeString(s[1..])
  }

  /** A string value: `"` + escaped text + `"`. */
  function Quote(s: string): (r: string)
    ensures |r| >= 2 && r[0] == '"'
  {
    "\"" + EscapeString(s) + "\""
  }

  /** Reads one character of a string literal (escaped or not); the count is how many were consumed. */
  function ReadChar(s: string): (r: Option<(char, nat)>)
    ensures r.Some? ==> 1 <= r.value.1 <= |s|
  {
    if |s| == 0 || s[0] == '"' then None
    else if s[0] != '\\' then (if (s[0] as int) < 0x20 then None else Some((s[0], 1)))
    else if |s| < 2 then None
    else if s[1] == '"' then Some(('"', 2))
    else if s[1] == '\\' then Some(('\\', 2))
    else if s[1] == '/' then Some(('/', 2))
    else if s[1] == 'b' then Some(('\U{0008}', 2))
    else if s[1] == 't' then Some(('\t', 2))
    else if s[1] == 'n' then Some(('\n', 2))
    else if s[1] == 'f' then Some(('\U{000C}', 2))
    else if s[1] == 'r' then Some(('\r', 2))
    else if s[1] == 'u' && |s| >= 6 then
      match (HexValue(s[2]), HexValue(s[3]), HexValue(s[4]), HexValue(s[5]))
      case (Some(a), Some(b), Some(c), Some(d)) =>
        var v := 4096 * a + 256 * b + 16 * c + d;
        if 0xD800 <= v < 0xE000 then None else Some((v as char, 6))
      case _ => None
    else None
  }

  /** Reads the rest of a string literal up to its closing quote: the text and what follows the quote. */
  function ReadString(s: string): (r: Option<(string, string)>)
    ensures r.Some? ==> |r.value.1| < |s|
    decreases |s|
  {
    if |s| == 0 then None
    else if s[0] == '"' then Some(("", s[1..]))
    else match ReadChar(s)
      case None => None
      case Some((c, n)) =>
        match ReadString(s[n..])
        case None => None
        case Some((t, rest)) => Some(([c] + t, rest))
  }

  lemma ReadEscapedChar(c: char, tail: string)
    ensures ReadChar(EscapeChar(c) + tail) == Some((c, |EscapeChar(c)|))
  {
    var e := EscapeChar(c);
    var s := e + tail;
    assert s[..|e|] == e;
    if (c as int) < 0x20 && c != '\U{0008}' && c != '\t' && c != '\n' && c != '\U{000C}' && c != '\r' {
      var hi, lo := (c as int) / 16, (c as int) % 16;
      assert s[2] == '0' && s[3] == '0' && s[4] == HexDigit(hi) && s[5] == HexDigit(lo);
      assert HexValue(HexDigit(hi)) == Some(hi);
      assert HexValue(HexDigit(lo)) == Some(lo);
    }
  }

  /** Every string survives being written as a literal and read back, whatever follows the literal. */
  lemma {:induction false} ReadStringRoundTrip(x: string, rest: string)
    ensures ReadString(EscapeString(x) + "\"" + rest) == Some((x, rest))
  {
    var s := EscapeString(x) + "\"" + rest;
    if |x| == 0 {
      assert s == "\"" + rest;
    } else {
      var e := EscapeChar(x[0]);
      var t := EscapeString(x[1..]) + "\"" + rest;
      assert s == e + t;
      ReadEscapedChar(x[0], t);
      assert s[|e|..] == t;
      ReadStringRoundTrip(x[1..], rest);
      assert [x[0]] + x[1..] == x;
    }
  }

  // ----- arrays of strings -----

  /** The elements of a string array, comma-separated. */
  function Elements(xs: seq<string>): (r: string)
    ensures |xs| > 0 ==> |r| > 0 && r[0] == '"'
  {
    if |xs| == 0 then ""
    else if |xs| == 1 then Quote(xs[0])
    else Quote(xs[0]) + "," + Elements(xs[1..])
  }

  function ArrayText(xs: seq<string>): string {
    "[" + Elements(xs) + "]"
  }

  /** Reads `"a","b",...]` (the part after `[` of a non-empty array). */
  function ReadElements(s: string): (r: Option<(seq<string>, string)>)
    ensures r.Some? ==> |r.value.1| < |s|
    decreases |s|
  {
    if |s| == 0 || s[0] != '"' then None
    else match ReadString(s[1..])
      case None => None
      case Some((a, rest)) =>
        if |rest| > 0 && rest[0] == ']' then Some(([a], rest[1..]))
        else if |rest| > 0 && rest[0] == ',' then
          match ReadElements(rest[1..])
          case None => None
          case Some((more, rest2)) => Some(([a] + more, rest2))
        else None
  }

  /** Reads a string array and returns what follows its `]`. */
  function ReadArray(s: string): Option<(seq<string>, string)> {
    if |s| >= 2 && s[..2] == "[]" then Some(([], s[2..]))
    else if |s| > 0 && s[0] == '[' then ReadElements(s[1..])
    else None
  }

  lemma ReadLastElement(a: string, rest: string)
    ensures ReadElements(Quote(a) + "]" + rest) == Some(([a], rest))
  {
    var s := Quote(a) + "]" + rest;
    assert s == "\"" + (EscapeString(a) + "\"" + ("]" + rest));
    assert s[1..] == EscapeString(a) + "\"" + ("]" + rest);
    ReadStringRoundTrip(a, "]" + rest);
    assert ("]" + rest)[1..] == rest;
  }

  lemma ReadNextElement(a: string, tail: string)
    ensures ReadElements(Quote(a) + "," + tail) ==
      match ReadElements(tail)
      case None => None
      case Some((more, rest2)) => Some(([a] + more, rest2))
  {
    var s := Quote(a) + "," + tail;
    assert s == "\"" + (EscapeString(a) + "\"" + ("," + tail));
    assert s[1..] == EscapeString(a) + "\"" + ("," + tail);
    ReadStringRoundTrip(a, "," + tail);
    assert ("," + tail)[1..] == tail;
  }

  lemma {:induction false} ReadElementsRoundTrip(xs: seq<string>, rest: string)
    requires |xs| > 0
    ensures ReadElements(Elements(xs) + "]" + rest) == Some((xs, rest))
  {
    if |xs| == 1 {
      ReadLastElement(xs[0], rest);
      assert [xs[0]] == xs;
    } else {
      var tail := Elements(xs[1..]) + "]" + rest;
      assert Elements(xs) + "]" + rest == Quote(xs[0]) + "," + tail;
      ReadNextElement(xs[0], tail);
      ReadElementsRoundTrip(xs[1..], rest);
      assert [xs[0]] + xs[1..] == xs;
    }
  }

  lemma ReadArrayRoundTrip(xs: seq<string>, rest: string)
    ensures ReadArray(ArrayText(xs) + rest) == Some((xs, rest))
  {
    var s := ArrayText(xs) + rest;
    if |xs| == 0 {
      assert s == "[]" + rest;
      assert s[..2] == "[]";
    } else {
      var body := Elements(xs) + "]" + rest;
      assert s == "[" + body;
      assert s[1..] == body;
      assert s[..2] != "[]" by {
        assert s[1] == body[0] == '"';
      }
      assert ReadArray(s) == ReadElements(body);
      ReadElementsRoundTrip(xs, rest);
    }
  }

  // ----- the user object -----

  const EmailKey := "{\"email\":"
  const RolesKey := "{\"roles\":"
  const RolesAfterEmail := ",\"roles\":"

  /** `JSON.stringify({ email, roles })`. */
  function EncodeUser(u: User): string {
    match (u.email, u.roles)
    case (None, None) => "{}"
    case (Some(e), None) => EmailKey + Quote(e) + "}"
    case (None, Some(rs)) => RolesKey + ArrayText(rs) + "}"
    case (Some(e), Some(rs)) => EmailKey + Quote(e) + RolesAfterEmail + ArrayText(rs) + "}"
  }

  /** Reads back the text `EncodeUser` writes; anything else is malformed. */
  function DecodeUser(s: string): Option<User> {
    if s == "{}" then Some(User(None, None))
    else if |s| > |EmailKey| && s[..|EmailKey|] == EmailKey && s[|EmailKey|] == '"' then
      match ReadString(s[|EmailKey| + 1..])
      case None => None
      case Some((e, rest)) => DecodeAfterEmail(e, rest)
    else if |s| >= |RolesKey| && s[..|RolesKey|] == RolesKey then
      match ReadArray(s[|RolesKey|..])
      case Some((rs, "}")) => Some(User(None, Some(rs)))
      case _ => None
    else None
  }

  /** The rest of a user object whose e-mail `e` has been read: `}`, or the roles and then `}`. */
  function DecodeAfterEmail(e: string, rest: string): Option<User> {
    if rest == "}" then Some(User(Some(e), None))
    else if |rest| >= |RolesAfterEmail| && rest[..|RolesAfterEmail|] == RolesAfterEmail then
      match ReadArray(rest[|RolesAfterEmail|..])
      case Some((rs, "}")) => Some(User(Some(e), Some(rs)))
      case _ => None
    else None
  }

  /** An object that starts with an e-mail field is decoded by reading the e-mail and then the rest. */
  lemma DecodeEmailPrefix(e: string, rest: string)
    ensures DecodeUser(EmailKey + Quote(e) + rest) == DecodeAfterEmail(e, rest)
  {
    var s := EmailKey + Quote(e) + rest;
    assert s == EmailKey + "\"" + (EscapeString(e) + "\"" + rest);
    assert s[..|EmailKey|] == EmailKey;
    assert s[|EmailKey| + 1..] == EscapeString(e) + "\"" + rest;
    ReadStringRoundTrip(e, rest);
  }

  /** The stored user reads back as exactly the user that was stored. */
  lemma UserRoundTrip(u: User)
    ensures DecodeUser(EncodeUser(u)) == Some(u)
  {
    match (u.email, u.roles)
    case (None, None) =>
    case (Some(e), None) => EmailOnlyRoundTrip(e);
    case (None, Some(rs)) => RolesOnlyRoundTrip(rs);
    case (Some(e), Some(rs)) => EmailAndRolesRoundTrip(e, rs);
  }

  lemma EmailOnlyRoundTrip(e: string)
    ensures DecodeUser(EncodeUser(User(Some(e), None))) == Some(User(Some(e), None))
  {
    DecodeEmailPrefix(e, "}");
    assert EncodeUser(User(Some(e), None)) == EmailKey + Quote(e) + "}";
  }

  lemma RolesOnlyRoundTrip(rs: seq<string>)
    ensures DecodeUser(EncodeUser(User(None, Some(rs)))) == Some(User(None, Some(rs)))
  {
    var s := EncodeUser(User(None, Some(rs)));
    assert s == RolesKey + (ArrayText(rs) + "}");
    assert s[..|RolesKey|] == RolesKey;
    assert s[|RolesKey|..] == ArrayText(rs) + "}";
    ReadArrayRoundTrip(rs, "}");
    assert s != "{}";
    assert s[..|EmailKey|] != EmailKey by {
      assert s[2] == 'r';
    }
  }

  lemma EmailAndRolesRoundTrip(e: string, rs: seq<string>)
    ensures DecodeUser(EncodeUser(User(Some(e), Some(rs)))) == Some(User(Some(e), Some(rs)))
  {
    var rest := RolesAfterEmail + ArrayText(rs) + "}";
    assert EncodeUser(User(Some(e), Some(rs))) == EmailKey + Quote(e) + rest;
    DecodeEmailPrefix(e, rest);
    assert DecodeAfterEmail(e, rest) == Some(User(Some(e), Some(rs))) by {
      assert rest != "}";
      assert rest[..|RolesAfterEmail|] == RolesAfterEmail;
      assert rest[|RolesAfterEmail|..] == ArrayText(rs) + "}";
      ReadArrayRoundTrip(rs, "}");
    }
  }
}
