/**
 Where a hashed text comes apart. Whatever stands before it, the JSON text of an object whose
 first key starts with an `a` begins at the last `{"a`: inside the object a brace can stand only
 in a string, and a quote right after it, being unescaped, ends that string.
 */
module SplitText {
  import opened Json

  predicate StartsMark(s: string) { |s| >= 3 && s[0] == '{' && s[1] == '\"' && s[2] == 'a' }

  // The mark is nowhere in s.
  predicate Unmarked(s: string) { s == "" || (!StartsMark(s) && Unmarked(s[1..])) }

  lemma {:induction false} UnmarkedFrom(s: string, i: nat)
    requires Unmarked(s) && i <= |s|
    ensures !StartsMark(s[i..])
  {
    if i > 0 { UnmarkedFrom(s[1..], i - 1); }
  }

  lemma {:induction false} UnmarkedAfter(p: string, t: string)
    requires '{' !in p && Unmarked(t)
    ensures Unmarked(p + t)
  {
    if p == "" {
      assert p + t == t;
    } else {
      assert (p + t)[0] == p[0] && (p + t)[1..] == p[1..] + t;
      UnmarkedAfter(p[1..], t);
    }
  }

  lemma DigitHasNoBrace(d: nat)
    requires d < 16
    ensures HexDigit(d) != '{'
  {
  }

  lemma UnicodeHasNoBrace(n: nat)
    requires n < 0x10000
    ensures '{' !in UnicodeEscape(n)
  {
    DigitHasNoBrace(n / 16 / 16 / 16);
    DigitHasNoBrace(n / 16 / 16 % 16);
    DigitHasNoBrace(n / 16 % 16);
    DigitHasNoBrace(n % 16);
  }

  // Only a brace is written with a brace, and as itself.
  lemma CharBrace(c: char)
    ensures if c == '{' then EscapeChar(c) == "{" else '{' !in EscapeChar(c)
  {
    hide UnicodeEscape;
    var n := c as int;
    if n >= 0x10000 {
      UnicodeHasNoBrace(0xD800 + (n - 0x10000) / 1024);
      UnicodeHasNoBrace(0xDC00 + (n - 0x10000) % 1024);
    } else {
      UnicodeHasNoBrace(n);
    }
  }

  // A string body with its closing quote, before anything but an `a`.
  lemma {:induction false} StringUnmarked(v: string, rest: string)
    requires rest != "" && rest[0] != 'a' && Unmarked(rest)
    ensures Unmarked(Escape(v) + "\"" + rest)
  {
    hide EscapeChar, Unmarked;
    if v == "" {
      assert Escape(v) + "\"" + rest == "\"" + rest;
      UnmarkedAfter("\"", rest);
    } else {
      var tail := Escape(v[1..]) + "\"" + rest;
      assert Escape(v) + "\"" + rest == EscapeChar(v[0]) + tail;
      StringUnmarked(v[1..], rest);
      CharBrace(v[0]);
      if v[0] == '{' {
        BodyNotMarked(v[1..], rest);
        BraceUnmarked(tail);
      } else {
        UnmarkedAfter(EscapeChar(v[0]), tail);
      }
    }
  }

  // A body that starts with a quote is an empty one.
  lemma BodyNotMarked(v: string, rest: string)
    requires rest != "" && rest[0] != 'a'
    ensures !StartsMark("{" + (Escape(v) + "\"" + rest))
  {
    hide EscapeChar, ParseChar;
    if v == "" {
      assert Escape(v) + "\"" + rest == "\"" + rest;
    } else {
      CharRoundTrip(v[0], "");
      assert (Escape(v) + "\"" + rest)[0] == EscapeChar(v[0])[0];
    }
  }

  lemma BraceUnmarked(t: string)
    requires Unmarked(t) && !StartsMark("{" + t)
    ensures Unmarked("{" + t)
  {
    assert ("{" + t)[1..] == t;
  }

  lemma {:induction false} NatHasNoBrace(n: nat)
    ensures '{' !in NatText(n)
  {
    if n >= 10 {
      NatHasNoBrace(n / 10);
      DigitHasNoBrace(n % 10);
    }
  }

  lemma {:induction false} ValueUnmarked(v: Value, rest: string)
    requires rest != "" && rest[0] != 'a' && Unmarked(rest)
    ensures Unmarked(ValueText(v) + rest)
  {
    hide Escape, Unmarked, NatText;
    match v
    case Null => UnmarkedAfter("null", rest);
    case Str(s) =>
      assert ValueText(v) + rest == "\"" + (Escape(s) + "\"" + rest);
      StringUnmarked(s, rest);
      UnmarkedAfter("\"", Escape(s) + "\"" + rest);
    case Int(n) =>
      if n < 0 { NatHasNoBrace(-n); } else { NatHasNoBrace(n); }
      UnmarkedAfter(ValueText(v), rest);
  }

  lemma {:induction false} MemberUnmarked(m: Member, rest: string)
    requires rest != "" && rest[0] != 'a' && Unmarked(rest)
    ensures Unmarked(MemberText(m) + rest)
  {
    hide Escape, ValueText, Unmarked;
    var value := ValueText(m.value) + rest;
    ValueUnmarked(m.value, rest);
    UnmarkedAfter(": ", value);
    StringUnmarked(m.key, ": " + value);
    UnmarkedAfter("\"", Escape(m.key) + "\"" + (": " + value));
    assert MemberText(m) + rest == "\"" + (Escape(m.key) + "\"" + (": " + value));
  }

  lemma {:induction false} MembersUnmarked(ms: seq<Member>)
    requires ms != []
    ensures Unmarked(MembersText(ms))
  {
    hide MemberText;
    if |ms| == 1 {
      assert Unmarked("}") by { assert "}"[1..] == ""; }
      MemberUnmarked(ms[0], "}");
    } else {
      MembersUnmarked(ms[1..]);
      UnmarkedAfter(", ", MembersText(ms[1..]));
      MemberUnmarked(ms[0], ", " + MembersText(ms[1..]));
    }
  }

  lemma PlainA()
    ensures EscapeChar('a') == "a"
  {
  }

  // The text starts with the mark and does not hold it again.
  predicate MarkedOnce(t: string) { StartsMark(t) && Unmarked(t[1..]) }

  lemma {:induction false} ObjectMarkedOnce(ms: seq<Member>)
    requires ms != [] && ms[0].key != "" && ms[0].key[0] == 'a'
    ensures MarkedOnce(Dumps(ms))
  {
    hide EscapeChar, ValueText, Unmarked;
    MembersUnmarked(ms);
    assert Dumps(ms)[1..] == MembersText(ms);
    var m := ms[0];
    PlainA();
    assert Escape(m.key) == "a" + Escape(m.key[1..]);
  }

  // Two texts with such ends are equal only if both their parts are.
  lemma {:induction false} SplitAtLastMark(p: string, t: string, q: string, u: string)
    requires MarkedOnce(t) && MarkedOnce(u) && p + t == q + u
    ensures p == q && t == u
  {
    hide StartsMark, Unmarked;
    if |p| < |q| {
      NotWithin(p, t, q, u);
    } else if |q| < |p| {
      NotWithin(q, u, p, t);
    } else {
      assert (p + t)[..|p|] == p && (q + u)[..|q|] == q;
      assert (p + t)[|p|..] == t && (q + u)[|q|..] == u;
    }
  }

  lemma NotWithin(p: string, t: string, q: string, u: string)
    requires MarkedOnce(t) && MarkedOnce(u) && p + t == q + u
    ensures |q| <= |p|
  {
    hide StartsMark, Unmarked;
    if |p| < |q| {
      var k := |q| - |p|;
      assert (p + t)[|p|..] == t && (q + u)[|q|..] == u;
      assert t[1..][k - 1..] == t[k..] == u;
      UnmarkedFrom(t[1..], k - 1);
    }
  }
}
