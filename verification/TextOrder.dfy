/**
 The order in which Python and SQLite compare text, and why comparing the log's fixed-width
 UTC timestamps as text compares the times.
 */
module TextOrder {

  // a comes strictly before b.
  predicate Before(a: string, b: string)
    decreases |a|
  {
    b != "" && (a == "" || a[0] < b[0] || (a[0] == b[0] && Before(a[1..], b[1..])))
  }

  function Later(a: string, b: string): string { if Before(a, b) then b else a }

  lemma {:induction false} Trichotomy(a: string, b: string)
    ensures Before(a, b) ==> !Before(b, a) && a != b
    ensures Before(a, b) || Before(b, a) || a == b
    decreases |a|
  {
    if a != "" && b != "" && a[0] == b[0] {
      Trichotomy(a[1..], b[1..]);
      assert a == [a[0]] + a[1..] && b == [b[0]] + b[1..];
    }
  }

  lemma {:induction false} Transitive(a: string, b: string, c: string)
    requires Before(a, b) && !Before(c, b)
    ensures Before(a, c)
    decreases |a|
  {
    if a != "" && c != "" && a[0] == b[0] == c[0] {
      Transitive(a[1..], b[1..], c[1..]);
    }
  }

  /* ----- timestamps ----- */

  // %Y-%m-%dT%H:%M:%SZ, for years of four digits.
  datatype Stamp = Stamp(year: nat, month: nat, day: nat, hour: nat, minute: nat, second: nat)

  predicate Proper(t: Stamp) {
    t.year < 10000 && t.month < 100 && t.day < 100 && t.hour < 100 && t.minute < 100 && t.second < 100
  }

  function Digit(d: nat): char
    requires d < 10
  {
    (48 + d) as char
  }

  // The last `width` decimal digits of n.
  function Pad(n: nat, width: nat): (s: string)
    ensures |s| == width
  {
    if width == 0 then "" else Pad(n / 10, width - 1) + [Digit(n % 10)]
  }

  function StampText(t: Stamp): string {
    Pad(t.year, 4) + ("-" + (Pad(t.month, 2) + ("-" + (Pad(t.day, 2) +
      ("T" + (Pad(t.hour, 2) + (":" + (Pad(t.minute, 2) + (":" + (Pad(t.second, 2) + "Z"))))))))))
  }

  // Earlier in time: the first component that differs decides.
  predicate Earlier(t: Stamp, u: Stamp) {
    t.year < u.year || (t.year == u.year && (t.month < u.month || (t.month == u.month && (t.day < u.day ||
      (t.day == u.day && (t.hour < u.hour || (t.hour == u.hour && (t.minute < u.minute ||
        (t.minute == u.minute && t.second < u.second)))))))))
  }

  function PowerOfTen(k: nat): nat { if k == 0 then 1 else 10 * PowerOfTen(k - 1) }

  // Texts with heads of equal length compare by the heads first.
  lemma {:induction false} HeadsFirst(p: string, s: string, q: string, t: string)
    requires |p| == |q|
    ensures Before(p + s, q + t) <==> Before(p, q) || (p == q && Before(s, t))
    decreases |p|
  {
    if p == "" {
      assert p + s == s && q + t == t;
    } else {
      assert (p + s)[1..] == p[1..] + s && (q + t)[1..] == q[1..] + t;
      HeadsFirst(p[1..], s, q[1..], t);
      assert p == [p[0]] + p[1..] && q == [q[0]] + q[1..];
    }
  }

  lemma {:induction false} PadOrder(a: nat, b: nat, width: nat)
    requires a < PowerOfTen(width) && b < PowerOfTen(width)
    ensures Before(Pad(a, width), Pad(b, width)) <==> a < b
    ensures Pad(a, width) == Pad(b, width) <==> a == b
  {
    if width > 0 {
      PadOrder(a / 10, b / 10, width - 1);
      var p, q := Pad(a / 10, width - 1), Pad(b / 10, width - 1);
      HeadsFirst(p, [Digit(a % 10)], q, [Digit(b % 10)]);
      assert Pad(a, width)[..width - 1] == p && Pad(b, width)[..width - 1] == q;
      assert Pad(a, width)[width - 1] == Digit(a % 10) && Pad(b, width)[width - 1] == Digit(b % 10);
    }
  }

  // A fixed-width field followed by a separator, in front of the rest.
  lemma {:induction false} FieldOrder(a: nat, b: nat, width: nat, sep: string, s: string, t: string)
    requires a < PowerOfTen(width) && b < PowerOfTen(width)
    ensures Before(Pad(a, width) + (sep + s), Pad(b, width) + (sep + t)) <==> a < b || (a == b && Before(s, t))
  {
    PadOrder(a, b, width);
    HeadsFirst(Pad(a, width), sep + s, Pad(b, width), sep + t);
    HeadsFirst(sep, s, sep, t);
    Trichotomy(sep, sep);
  }

  /** Timestamps compare as text exactly as they compare in time. */
  lemma {:induction false} StampOrder(t: Stamp, u: Stamp)
    requires Proper(t) && Proper(u)
    ensures Before(StampText(t), StampText(u)) <==> Earlier(t, u)
  {
    hide Before, Pad;
    assert PowerOfTen(2) == 100 && PowerOfTen(4) == 10000 by {
      assert PowerOfTen(1) == 10 && PowerOfTen(3) == 1000;
    }
    var s1, t1 := Pad(t.second, 2) + "Z", Pad(u.second, 2) + "Z";
    var s2, t2 := Pad(t.minute, 2) + (":" + s1), Pad(u.minute, 2) + (":" + t1);
    var s3, t3 := Pad(t.hour, 2) + (":" + s2), Pad(u.hour, 2) + (":" + t2);
    var s4, t4 := Pad(t.day, 2) + ("T" + s3), Pad(u.day, 2) + ("T" + t3);
    var s5, t5 := Pad(t.month, 2) + ("-" + s4), Pad(u.month, 2) + ("-" + t4);
    assert "Z" + "" == "Z";
    FieldOrder(t.second, u.second, 2, "Z", "", "");
    Trichotomy("", "");
    FieldOrder(t.minute, u.minute, 2, ":", s1, t1);
    FieldOrder(t.hour, u.hour, 2, ":", s2, t2);
    FieldOrder(t.day, u.day, 2, "T", s3, t3);
    FieldOrder(t.month, u.month, 2, "-", s4, t4);
    FieldOrder(t.year, u.year, 4, "-", s5, t5);
  }
}
