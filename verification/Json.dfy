/**
 The JSON text the log hashes: Python's `json.dumps(payload, sort_keys=True)` on flat
 objects whose values are null, strings or integers, with ASCII-only escapes.
 A parser for the same text (section 7 of RFC 8259 for strings) inverts it.
 */
module Json {
  import opened Wrappers

  datatype Value = Null | Str(s: string) | Int(n: int)
  datatype Member = Member(key: string, value: Value)

  /* ----- writing ----- */

  function HexDigit(d: nat): char
    requires d < 16
  {
    if d < 10 then (48 + d) as char else (87 + d) as char
  }

  function Hex4(n: nat): string
    requires n < 0x10000
  {
    [HexDigit(n / 16 / 16 / 16), HexDigit(n / 16 / 16 % 16), HexDigit(n / 16 % 16), HexDigit(n % 16)]
  }

  function UnicodeEscape(n: nat): (e: string)
    requires n < 0x10000
    ensures |e| == 6 && e[0] == '\\'
  {
    "\\u" + Hex4(n)
  }

  // Characters outside printable ASCII become \u escapes, beyond the BMP a surrogate pair.
  function EscapeChar(c: char): string {
    var n := c as int;
    if c == '\"' then "\\\""
    else if c == '\\' then "\\\\"
    else if c == '\n' then "\\n"
    else if c == '\r' then "\\r"
    else if c == '\t' then "\\t"
    else if n == 8 then "\\b"
    else if n == 12 then "\\f"
    else if 32 <= n < 127 then [c]
    else if n < 0x10000 then UnicodeEscape(n)
    else UnicodeEscape(0xD800 + (n - 0x10000) / 1024) + UnicodeEscape(0xDC00 + (n - 0x10000) % 1024)
  }

  function Escape(s: string): string {
    if s == "" then "" else EscapeChar(s[0]) + Escape(s[1..])
  }

  function NatText(n: nat): string {
    if n < 10 then [HexDigit(n)] else NatText(n / 10) + [HexDigit(n % 10)]
  }

  function ValueText(v: Value): string {
    match v
    case Null => "null"
    case Str(s) => "\"" + Escape(s) + "\""
    case Int(n) => if n < 0 then "-" + NatText(-n) else NatText(n)
  }

  function MemberText(m: Member): string {
    "\"" + Escape(m.key) + "\"" + ": " + ValueText(m.value)
  }

  function MembersText(ms: seq<Member>): string
    requires ms != []
  {
    MemberText(ms[0]) + if |ms| == 1 then "}" else ", " + MembersText(ms[1..])
  }

  function Dumps(ms: seq<Member>): string {
    if ms == [] then "{}" else "{" + MembersText(ms)
  }

  /* ----- parsing ----- */

  function HexValue(c: char): (d: int)
    ensures -1 <= d < 16
  {
    if '0' <= c <= '9' then c as int - 48
    else if 'a' <= c <= 'f' then c as int - 87
    else if 'A' <= c <= 'F' then c as int - 55
    else -1
  }

  // The value of "\uXXXX" at the front of s.
  function ParseUnicode(s: string): (r: Option<nat>)
    ensures r.Some? ==> |s| >= 6 && r.value < 0x10000
  {
    if |s| < 6 || s[0] != '\\' || s[1] != 'u' then None
    else
      var a, b, c, d := HexValue(s[2]), HexValue(s[3]), HexValue(s[4]), HexValue(s[5]);
      if a < 0 || b < 0 || c < 0 || d < 0 then None
      else Some(4096 * a + 256 * b + 16 * c + d)
  }

  function ShortEscape(c: char): Option<char> {
    if c == '\"' || c == '\\' || c == '/' then Some(c)
    else if c == 'n' then Some('\n')
    else if c == 'r' then Some('\r')
    else if c == 't' then Some('\t')
    else if c == 'b' then Some(8 as char)
    else if c == 'f' then Some(12 as char)
    else None
  }

  // One character of a string body, with the number of text characters it took.
  function ParseChar(s: string): (r: Option<(char, nat)>)
    ensures r.Some? ==> 0 < r.value.1 <= |s|
  {
    if s == "" || s[0] == '\"' || s[0] as int < 32 then None
    else if s[0] != '\\' then Some((s[0], 1))
    else if |s| >= 2 && ShortEscape(s[1]).Some? then Some((ShortEscape(s[1]).value, 2))
    else
      match ParseUnicode(s)
      case None => None
      case Some(n) =>
        if n < 0xD800 || 0xE000 <= n then Some((n as char, 6))
        else if 0xDC00 <= n then None
        else
          match ParseUnicode(s[6..])
          case None => None
          case Some(low) =>
            if low < 0xDC00 || 0xE000 <= low then None
            else Some(((0x10000 + 1024 * (n - 0xD800) + (low - 0xDC00)) as char, 12))
  }

  // The rest of a string after its opening quote, and the text after its closing quote.
  function ParseString(s: string): (r: Option<(string, string)>)
    ensures r.Some? ==> |r.value.1| < |s|
    decreases |s|
  {
    if s != "" && s[0] == '\"' then Some(("", s[1..]))
    else
      match ParseChar(s)
      case None => None
      case Some((c, used)) =>
        match ParseString(s[used..])
        case None => None
        case Some((tail, rest)) => Some(([c] + tail, rest))
  }

  predicate IsDigit(c: char) { '0' <= c <= '9' }

  // The digits at the front of s, read in base ten after the accumulator.
  function ParseDigits(s: string, acc: nat): (nat, string)
    decreases |s|
  {
    if s == "" || !IsDigit(s[0]) then (acc, s)
    else ParseDigits(s[1..], 10 * acc + (s[0] as int - 48))
  }

  function ParseValue(s: string): (r: Option<(Value, string)>)
    ensures r.Some? ==> |r.value.1| <= |s|
  {
    if s == "" then None
    else if s[0] == '\"' then
      match ParseString(s[1..])
      case None => None
      case Some((body, rest)) => Some((Str(body), rest))
    else if s[0] == 'n' && |s| >= 4 && s[..4] == "null" then Some((Null, s[4..]))
    else if s[0] == '-' then
      DigitsShrink(s[1..], 0);
      var digits := ParseDigits(s[1..], 0);
      Some((Int(0 - digits.0), digits.1))
    else if IsDigit(s[0]) then
      DigitsShrink(s, 0);
      var digits := ParseDigits(s, 0);
      Some((Int(digits.0), digits.1))
    else None
  }

  lemma DigitsShrink(s: string, acc: nat)
    ensures |ParseDigits(s, acc).1| <= |s|
    decreases |s|
  {
  }

  function ParseMember(s: string): (r: Option<(Member, string)>)
    ensures r.Some? ==> |r.value.1| < |s|
  {
    if s == "" || s[0] != '\"' then None
    else
      match ParseString(s[1..])
      case None => None
      case Some((key, rest)) =>
        if |rest| < 2 || rest[..2] != ": " then None
        else
          match ParseValue(rest[2..])
          case None => None
          case Some((value, rest')) => Some((Member(key, value), rest'))
  }

  // Members up to the closing brace, which must end the text.
  function ParseMembers(s: string): Option<seq<Member>>
    decreases |s|
  {
    match ParseMember(s)
    case None => None
    case Some((m, rest)) =>
      if rest == "}" then Some([m])
      else if |rest| < 2 || rest[..2] != ", " then None
      else
        match ParseMembers(rest[2..])
        case None => None
        case Some(ms) => Some([m] + ms)
  }

  function Loads(s: string): Option<seq<Member>> {
    if s == "{}" then Some([])
    else if s == "" || s[0] != '{' then None
    else ParseMembers(s[1..])
  }

  /* ----- the parser inverts the writer ----- */

  lemma HexRoundTrip(d: nat)
    requires d < 16
    ensures HexValue(HexDigit(d)) == d
  {
  }

  lemma UnicodeRoundTrip(n: nat, rest: string)
    requires n < 0x10000
    ensures ParseUnicode(UnicodeEscape(n) + rest) == Some(n)
  {
    var s := UnicodeEscape(n) + rest;
    var a, b, c, d := n / 16 / 16 / 16, n / 16 / 16 % 16, n / 16 % 16, n % 16;
    assert UnicodeEscape(n) == ['\\', 'u', HexDigit(a), HexDigit(b), HexDigit(c), HexDigit(d)];
    assert s[0] == '\\' && s[1] == 'u';
    assert s[2] == HexDigit(a) && s[3] == HexDigit(b) && s[4] == HexDigit(c) && s[5] == HexDigit(d);
    HexRoundTrip(a);
    HexRoundTrip(b);
    HexRoundTrip(c);
    HexRoundTrip(d);
  }

  // A two-character escape.
  lemma ShortRoundTrip(c: char, e: char, rest: string)
    requires EscapeChar(c) == ['\\', e] && ShortEscape(e) == Some(c)
    ensures ParseChar(EscapeChar(c) + rest) == Some((c, |EscapeChar(c)|))
  {
    var s := EscapeChar(c) + rest;
    assert s[0] == '\\' && s[1] == e;
  }

  lemma PrintableRoundTrip(c: char, rest: string)
    requires 32 <= c as int < 127 && c != '\"' && c != '\\'
    ensures ParseChar([c] + rest) == Some((c, 1))
  {
    assert ([c] + rest)[0] == c;
  }

  // One \u escape that is not a surrogate.
  lemma PlainUnicodeRoundTrip(n: nat, rest: string)
    requires n < 0xD800 || 0xE000 <= n < 0x10000
    ensures ParseChar(UnicodeEscape(n) + rest) == Some((n as char, 6))
  {
    var s := UnicodeEscape(n) + rest;
    UnicodeRoundTrip(n, rest);
    assert s[0] == '\\' && s[1] == 'u';
  }

  // A surrogate pair.
  lemma {:induction false} PairRoundTrip(high: nat, low: nat, rest: string)
    requires 0xD800 <= high < 0xDC00 <= low < 0xE000
    ensures ParseChar(UnicodeEscape(high) + UnicodeEscape(low) + rest)
         == Some(((0x10000 + 1024 * (high - 0xD800) + (low - 0xDC00)) as char, 12))
  {
    var tail := UnicodeEscape(low) + rest;
    var s := UnicodeEscape(high) + tail;
    assert UnicodeEscape(high) + UnicodeEscape(low) + rest == s;
    UnicodeRoundTrip(high, tail);
    UnicodeRoundTrip(low, rest);
    assert s[6..] == tail;
    assert s[0] == '\\' && s[1] == 'u';
  }

  lemma {:induction false} CharRoundTrip(c: char, rest: string)
    ensures EscapeChar(c) != "" && EscapeChar(c)[0] != '\"'
    ensures ParseChar(EscapeChar(c) + rest) == Some((c, |EscapeChar(c)|))
  {
    hide ParseChar, ParseUnicode, UnicodeEscape;
    var n := c as int;
    if c == '\"' { ShortRoundTrip(c, '\"', rest); }
    else if c == '\\' { ShortRoundTrip(c, '\\', rest); }
    else if c == '\n' { ShortRoundTrip(c, 'n', rest); }
    else if c == '\r' { ShortRoundTrip(c, 'r', rest); }
    else if c == '\t' { ShortRoundTrip(c, 't', rest); }
    else if n == 8 { ShortRoundTrip(c, 'b', rest); }
    else if n == 12 { ShortRoundTrip(c, 'f', rest); }
    else if 32 <= n < 127 {
      PrintableRoundTrip(c, rest);
    } else if n < 0x10000 {
      PlainUnicodeRoundTrip(n, rest);
    } else {
      PairRoundTrip(0xD800 + (n - 0x10000) / 1024, 0xDC00 + (n - 0x10000) % 1024, rest);
    }
  }

  lemma {:induction false} StringRoundTrip(v: string, rest: string)
    ensures ParseString(Escape(v) + "\"" + rest) == Some((v, rest))
  {
    hide ParseChar, EscapeChar;
    var s := Escape(v) + "\"" + rest;
    if v == "" {
      assert s == "\"" + rest;
      assert s[0] == '\"' && s[1..] == rest;
    } else {
      var first, tail := EscapeChar(v[0]), Escape(v[1..]) + "\"" + rest;
      assert s == first + tail;
      CharRoundTrip(v[0], tail);
      assert s[0] == first[0] && s[|first|..] == tail;
      StringRoundTrip(v[1..], rest);
      assert [v[0]] + v[1..] == v;
    }
  }

  lemma {:induction false} DigitsRoundTrip(n: nat, rest: string)
    requires rest == "" || !IsDigit(rest[0])
    ensures ParseDigits(NatText(n) + rest, 0) == (n, rest)
    ensures NatText(n) != "" && IsDigit(NatText(n)[0])
  {
    DigitsFrom(n, rest);
  }

  // Reading the digits of n leaves the accumulator at n.
  lemma {:induction false} DigitsFrom(n: nat, rest: string)
    ensures ParseDigits(NatText(n) + rest, 0) == ParseDigits(rest, n)
    ensures NatText(n) != "" && IsDigit(NatText(n)[0])
    decreases n
  {
    if n < 10 {
      assert (NatText(n) + rest)[1..] == rest;
    } else {
      var last := [HexDigit(n % 10)];
      assert NatText(n) + rest == NatText(n / 10) + (last + rest);
      DigitsFrom(n / 10, last + rest);
      assert (last + rest)[1..] == rest;
    }
  }

  lemma {:induction false} QuotedRoundTrip(body: string, rest: string)
    ensures ParseValue("\"" + Escape(body) + "\"" + rest) == Some((Str(body), rest))
  {
    hide Escape, ParseString, ParseDigits;
    var s := "\"" + Escape(body) + "\"" + rest;
    assert s[0] == '\"' && s[1..] == Escape(body) + "\"" + rest;
    StringRoundTrip(body, rest);
  }

  lemma {:induction false} IntRoundTrip(n: int, rest: string)
    requires rest == "" || !IsDigit(rest[0])
    ensures ParseValue(ValueText(Int(n)) + rest) == Some((Int(n), rest))
  {
    hide ParseString, NatText, ParseDigits;
    var s := ValueText(Int(n)) + rest;
    if n < 0 {
      DigitsRoundTrip(-n, rest);
      assert s[0] == '-' && s[1..] == NatText(-n) + rest;
    } else {
      DigitsRoundTrip(n, rest);
      assert s[0] == NatText(n)[0];
    }
  }

  lemma {:induction false} NullRoundTrip(rest: string)
    ensures ParseValue("null" + rest) == Some((Null, rest))
  {
    hide ParseString, ParseDigits;
    var s := "null" + rest;
    assert s[0] == 'n' && s[..4] == "null" && s[4..] == rest;
  }

  lemma {:induction false} ValueRoundTrip(v: Value, rest: string)
    requires rest == "" || !IsDigit(rest[0])
    ensures ParseValue(ValueText(v) + rest) == Some((v, rest))
  {
    hide Escape, ParseValue, NatText;
    match v
    case Null => NullRoundTrip(rest);
    case Str(body) => QuotedRoundTrip(body, rest);
    case Int(n) => IntRoundTrip(n, rest);
  }

  lemma {:induction false} MemberRoundTrip(m: Member, rest: string)
    requires rest == "" || !IsDigit(rest[0])
    ensures ParseMember(MemberText(m) + rest) == Some((m, rest))
  {
    hide Escape, ParseString, ValueText, ParseValue;
    var s := MemberText(m) + rest;
    var afterKey := ": " + (ValueText(m.value) + rest);
    assert s[0] == '\"' && s[1..] == Escape(m.key) + "\"" + afterKey;
    StringRoundTrip(m.key, afterKey);
    assert afterKey[..2] == ": " && afterKey[2..] == ValueText(m.value) + rest;
    ValueRoundTrip(m.value, rest);
  }

  lemma {:induction false} MembersRoundTrip(ms: seq<Member>)
    requires ms != []
    ensures ParseMembers(MembersText(ms)) == Some(ms)
  {
    hide MemberText, ParseMember;
    if |ms| == 1 {
      MemberRoundTrip(ms[0], "}");
      assert ms == [ms[0]];
    } else {
      var tail := ", " + MembersText(ms[1..]);
      MemberRoundTrip(ms[0], tail);
      assert tail[..2] == ", " && tail[2..] == MembersText(ms[1..]);
      MembersRoundTrip(ms[1..]);
      assert [ms[0]] + ms[1..] == ms;
    }
  }

  /** Parsing what was written gives the members back, escapes, nulls and numbers included. */
  lemma {:induction false} LoadsDumps(ms: seq<Member>)
    ensures Loads(Dumps(ms)) == Some(ms)
    ensures Dumps(ms)[0] == '{'
  {
    if ms != [] {
      MembersRoundTrip(ms);
      assert Dumps(ms)[1..] == MembersText(ms);
      assert MembersText(ms)[0] == '\"';
      assert Dumps(ms)[1] == '\"';
    }
  }

  /** Writing is injective: no two objects share a text. */
  lemma {:induction false} DumpsInjective(a: seq<Member>, b: seq<Member>)
    ensures Dumps(a) == Dumps(b) <==> a == b
  {
    LoadsDumps(a);
    LoadsDumps(b);
  }

  /* ----- the form of the text ----- */

  predicate Printable(s: string) { forall i | 0 <= i < |s| :: ' ' <= s[i] <= '~' }

  lemma HexPrints(d: nat)
    requires d < 16
    ensures ' ' <= HexDigit(d) <= '~'
  {
  }

  lemma UnicodePrints(n: nat)
    requires n < 0x10000
    ensures Printable(UnicodeEscape(n))
  {
    hide HexDigit;
    HexPrints(n / 16 / 16 / 16);
    HexPrints(n / 16 / 16 % 16);
    HexPrints(n / 16 % 16);
    HexPrints(n % 16);
  }

  lemma CharPrints(c: char)
    ensures Printable(EscapeChar(c))
  {
    hide UnicodeEscape;
    var n := c as int;
    if n < 0x10000 {
      UnicodePrints(n);
    } else {
      UnicodePrints(0xD800 + (n - 0x10000) / 1024);
      UnicodePrints(0xDC00 + (n - 0x10000) % 1024);
    }
  }

  lemma {:induction false} EscapePrints(s: string)
    ensures Printable(Escape(s))
  {
    hide EscapeChar;
    if s != "" {
      CharPrints(s[0]);
      EscapePrints(s[1..]);
    }
  }

  lemma {:induction false} NatPrints(n: nat)
    ensures Printable(NatText(n))
  {
    if n >= 10 { NatPrints(n / 10); }
  }

  lemma {:induction false} ValuePrints(v: Value)
    ensures Printable(ValueText(v))
  {
    hide Escape, NatText;
    match v
    case Null =>
    case Str(s) => EscapePrints(s);
    case Int(n) => NatPrints(if n < 0 then -n else n);
  }

  lemma {:induction false} MembersPrint(ms: seq<Member>)
    requires ms != []
    ensures Printable(MembersText(ms))
  {
    hide Escape, ValueText;
    EscapePrints(ms[0].key);
    ValuePrints(ms[0].value);
    if |ms| > 1 { MembersPrint(ms[1..]); }
  }

  /** The text is printable ASCII whatever the strings hold. */
  lemma {:induction false} DumpsIsAscii(ms: seq<Member>)
    ensures forall i | 0 <= i < |Dumps(ms)| :: ' ' <= Dumps(ms)[i] <= '~'
  {
    hide MembersText;
    if ms != [] { MembersPrint(ms); }
  }

  /** A member more, written after the others; the separators are a colon or a comma and a space. */
  lemma {:induction false} DumpsAppend(ms: seq<Member>, m: Member)
    ensures
      var text, item := Dumps(ms), "\"" + Escape(m.key) + "\": " + ValueText(m.value) + "}";
      Dumps(ms + [m]) == text[..|text| - 1] + (if ms == [] then "" else ", ") + item
  {
    hide Escape, ValueText, MemberText, MembersText;
    if ms == [] {
      assert ms + [m] == [m] && Dumps(ms)[..1] == "{";
      OneMember(m);
    } else {
      MembersAppend(ms, m);
      OneMember(m);
      assert Dumps(ms)[..|Dumps(ms)| - 1] == "{" + MembersText(ms)[..|MembersText(ms)| - 1];
    }
  }

  lemma OneMember(m: Member)
    ensures MembersText([m]) == "\"" + Escape(m.key) + "\": " + ValueText(m.value) + "}"
  {
    hide Escape, ValueText;
  }

  lemma {:induction false} MembersAppend(ms: seq<Member>, m: Member)
    requires ms != []
    ensures |MembersText(ms)| > 0
    ensures MembersText(ms + [m]) == MembersText(ms)[..|MembersText(ms)| - 1] + ", " + MembersText([m])
  {
    hide MemberText;
    var all := ms + [m];
    if |ms| == 1 {
      assert all[1..] == [m];
    } else {
      MembersAppend(ms[1..], m);
      assert all[1..] == ms[1..] + [m];
      var head, tail := MemberText(ms[0]) + ", ", MembersText(ms[1..]);
      assert MembersText(ms) == head + tail;
      assert (head + tail)[..|head + tail| - 1] == head + tail[..|tail| - 1];
    }
  }

  /** How the characters that are not written as themselves are written. */
  lemma EscapesWritten()
    ensures EscapeChar('\"') == "\\\"" && EscapeChar('\\') == "\\\\" && EscapeChar('/') == "/"
    ensures EscapeChar('\n') == "\\n" && EscapeChar('\r') == "\\r" && EscapeChar('\t') == "\\t"
    ensures EscapeChar(8 as char) == "\\b" && EscapeChar(12 as char) == "\\f"
    ensures EscapeChar(31 as char) == "\\u001f" && EscapeChar(127 as char) == "\\u007f"
    ensures EscapeChar(0xE9 as char) == "\\u00e9" && EscapeChar(0x1F600 as char) == "\\ud83d\\ude00"
  {
    hide Hex4;
    HexWritten();
    hide UnicodeEscape;
  }

  lemma HexWritten()
    ensures UnicodeEscape(0x1F) == "\\u001f" && UnicodeEscape(0x7F) == "\\u007f" && UnicodeEscape(0xE9) == "\\u00e9"
    ensures UnicodeEscape(0xD83D) == "\\ud83d" && UnicodeEscape(0xDE00) == "\\ude00"
  {
    assert Hex4(0x1F) == "001f" && Hex4(0x7F) == "007f" && Hex4(0xE9) == "00e9";
    assert Hex4(0xD83D) == "d83d" && Hex4(0xDE00) == "de00";
  }
}
