/** Why the outbox may sort scans by the text of their time: `now_iso` writes UTC times whose text order is their
    order in time, although the fraction is left out on a whole second. */
module IsoTimestamp {

  datatype Time = Time(year: nat, month: nat, day: nat, hour: nat, minute: nat, second: nat, micro: nat)

  predicate InRange(t: Time) {
    && t.year < 10000 && t.month < 100 && t.day < 100
    && t.hour < 100 && t.minute < 100 && t.second < 100 && t.micro < 1000000
  }

  function Fields(t: Time): seq<nat> {
    [t.year, t.month, t.day, t.hour, t.minute, t.second, t.micro]
  }

  /** Earlier, field by field from the year down. */
  predicate FieldsBefore(a: seq<nat>, b: seq<nat>)
    requires |a| == |b|
  {
    a != [] && (a[0] < b[0] || (a[0] == b[0] && FieldsBefore(a[1..], b[1..])))
  }

  predicate Before(a: Time, b: Time) {
    FieldsBefore(Fields(a), Fields(b))
  }

  // ---------------------------------------------------------------------------
  // The text
  // ---------------------------------------------------------------------------

  function Digit(d: nat): char
    requires d < 10
  {
    (d as char) + '0'
  }

  /** n decimal digits, zero-padded. */
  function Pad(x: nat, n: nat): (s: string)
    ensures |s| == n
  {
    if n == 0 then "" else Pad(x / 10, n - 1) + [Digit(x % 10)]
  }

  function Fraction(micro: nat): string {
    (if micro == 0 then "" else "." + Pad(micro, 6)) + "+00:00"
  }

  /** `datetime.now(timezone.utc).isoformat()`. */
  function Text(t: Time): string {
    Pad(t.year, 4) + ("-" + (Pad(t.month, 2) + ("-" + (Pad(t.day, 2) + ("T" + (Pad(t.hour, 2) + (":" +
    (Pad(t.minute, 2) + (":" + (Pad(t.second, 2) + Fraction(t.micro)))))))))))
  }

  /** Byte order of text. */
  predicate TextLess(s: string, t: string) {
    t != "" && (s == "" || s[0] < t[0] || (s[0] == t[0] && TextLess(s[1..], t[1..])))
  }

  lemma {:induction false} SamePrefix(p: string, u: string, v: string)
    ensures TextLess(p + u, p + v) == TextLess(u, v)
  {
    if p == "" {
      assert p + u == u && p + v == v;
    } else {
      assert (p + u)[1..] == p[1..] + u && (p + v)[1..] == p[1..] + v;
      SamePrefix(p[1..], u, v);
    }
  }

  lemma {:induction false} Asymmetric(s: string, t: string)
    ensures !(TextLess(s, t) && TextLess(t, s))
  {
    if s != "" && t != "" && s[0] == t[0] {
      Asymmetric(s[1..], t[1..]);
    }
  }

  /** The smaller of two numbers of equal width comes first, whatever follows. */
  lemma {:induction false} PadOrders(x: nat, y: nat, n: nat, u: string, v: string)
    requires x < y && Fits(y, n)
    ensures TextLess(Pad(x, n) + u, Pad(y, n) + v)
    decreases n
  {
    if n > 0 {
      var p, q := Pad(x / 10, n - 1), Pad(y / 10, n - 1);
      assert Pad(x, n) + u == p + ([Digit(x % 10)] + u);
      assert Pad(y, n) + v == q + ([Digit(y % 10)] + v);
      if x / 10 < y / 10 {
        PadOrders(x / 10, y / 10, n - 1, [Digit(x % 10)] + u, [Digit(y % 10)] + v);
      } else {
        SamePrefix(p, [Digit(x % 10)] + u, [Digit(y % 10)] + v);
      }
    }
  }

  /** y has at most n digits. */
  predicate Fits(y: nat, n: nat) {
    if n == 0 then y == 0 else Fits(y / 10, n - 1)
  }

  /** One field settles the order, or passes it on to the rest. */
  lemma FieldStep(x: nat, y: nat, n: nat, u: string, v: string)
    requires Fits(y, n)
    ensures x < y ==> TextLess(Pad(x, n) + u, Pad(y, n) + v)
    ensures x == y ==> TextLess(Pad(x, n) + u, Pad(y, n) + v) == TextLess(u, v)
  {
    if x < y {
      PadOrders(x, y, n, u, v);
    } else if x == y {
      SamePrefix(Pad(x, n), u, v);
    }
  }

  /** The omitted fraction sorts first: '+' precedes '.'. */
  lemma FractionOrders(a: nat, b: nat)
    requires a < b && Fits(b, 6)
    ensures TextLess(Fraction(a), Fraction(b))
  {
    if a == 0 {
      assert Fraction(a)[0] == '+' && Fraction(b)[0] == '.';
    } else {
      PadOrders(a, b, 6, "+00:00", "+00:00");
      assert Fraction(a) == "." + (Pad(a, 6) + "+00:00") && Fraction(b) == "." + (Pad(b, 6) + "+00:00");
      SamePrefix(".", Pad(a, 6) + "+00:00", Pad(b, 6) + "+00:00");
    }
  }

  function Power(n: nat): nat {
    if n == 0 then 1 else 10 * Power(n - 1)
  }

  lemma {:induction false} BelowPowerFits(y: nat, n: nat)
    requires y < Power(n)
    ensures Fits(y, n)
  {
    if n > 0 {
      assert y / 10 < Power(n - 1);
      BelowPowerFits(y / 10, n - 1);
    }
  }

  lemma FieldsFit(t: Time)
    requires InRange(t)
    ensures Fits(t.year, 4) && Fits(t.month, 2) && Fits(t.day, 2)
    ensures Fits(t.hour, 2) && Fits(t.minute, 2) && Fits(t.second, 2) && Fits(t.micro, 6)
  {
    assert Power(2) == 100;
    assert Power(4) == 100 * Power(2);
    assert Power(6) == 100 * Power(4);
    BelowPowerFits(t.year, 4);
    BelowPowerFits(t.month, 2);
    BelowPowerFits(t.day, 2);
    BelowPowerFits(t.hour, 2);
    BelowPowerFits(t.minute, 2);
    BelowPowerFits(t.second, 2);
    BelowPowerFits(t.micro, 6);
  }

  /** Six fields of the given widths, each followed by its separator, and then the fraction. */
  function Tail(t: Time, k: nat): string
    requires k <= 6
    decreases 6 - k
  {
    if k == 6 then Fraction(t.micro)
    else Pad(Fields(t)[k], Width(k)) + (Separator(k) + Tail(t, k + 1))
  }

  function Width(k: nat): nat {
    if k == 0 then 4 else 2
  }

  function Separator(k: nat): string {
    if k < 2 then "-" else if k == 2 then "T" else if k < 5 then ":" else ""
  }

  lemma TextIsTail(t: Time)
    ensures Text(t) == Tail(t, 0)
  {
    assert Tail(t, 4) == Pad(t.minute, 2) + (":" + Tail(t, 5));
    assert Separator(5) + Tail(t, 6) == Tail(t, 6);
    assert Tail(t, 2) == Pad(t.day, 2) + ("T" + Tail(t, 3));
  }

  lemma {:induction false} TailOrders(a: Time, b: Time, k: nat)
    requires k <= 6 && InRange(b) && FieldsBefore(Fields(a)[k..], Fields(b)[k..])
    ensures TextLess(Tail(a, k), Tail(b, k))
    decreases 6 - k
  {
    FieldsFit(b);
    var x, y := Fields(a)[k], Fields(b)[k];
    assert Fields(a)[k..][1..] == Fields(a)[k + 1..] && Fields(b)[k..][1..] == Fields(b)[k + 1..];
    if k == 6 {
      FractionOrders(a.micro, b.micro);
    } else {
      var u, v := Tail(a, k + 1), Tail(b, k + 1);
      FieldStep(x, y, Width(k), Separator(k) + u, Separator(k) + v);
      if x == y {
        TailOrders(a, b, k + 1);
        SamePrefix(Separator(k), u, v);
      }
    }
  }

  lemma EarlierSortsFirst(a: Time, b: Time)
    requires InRange(b) && Before(a, b)
    ensures TextLess(Text(a), Text(b))
  {
    TextIsTail(a);
    TextIsTail(b);
    assert Fields(a)[0..] == Fields(a) && Fields(b)[0..] == Fields(b);
    TailOrders(a, b, 0);
  }

  lemma {:induction false} OneComesFirst(a: seq<nat>, b: seq<nat>)
    requires |a| == |b|
    ensures FieldsBefore(a, b) || FieldsBefore(b, a) || a == b
    decreases |a|
  {
    if a != [] && a[0] == b[0] {
      OneComesFirst(a[1..], b[1..]);
      assert a == [a[0]] + a[1..] && b == [b[0]] + b[1..];
    }
  }

  /** The order of the texts is the order in time, both ways. */
  lemma TextOrderIsTimeOrder(a: Time, b: Time)
    requires InRange(a) && InRange(b)
    ensures TextLess(Text(a), Text(b)) <==> Before(a, b)
  {
    OneComesFirst(Fields(a), Fields(b));
    Asymmetric(Text(a), Text(b));
    if Before(a, b) {
      EarlierSortsFirst(a, b);
    } else if Before(b, a) {
      EarlierSortsFirst(b, a);
    } else {
      assert Fields(a)[0] == a.year && Fields(a)[1] == a.month && Fields(a)[2] == a.day && Fields(a)[3] == a.hour;
      assert Fields(a)[4] == a.minute && Fields(a)[5] == a.second && Fields(a)[6] == a.micro;
      assert a == b;
    }
  }

  // ---------------------------------------------------------------------------
  // What the text says
  // ---------------------------------------------------------------------------

  /** The number that decimal digits write. */
  function Value(s: string): int {
    if s == "" then 0 else 10 * Value(s[..|s| - 1]) + (s[|s| - 1] as int - '0' as int)
  }

  lemma {:induction false} PadIsDecimal(x: nat, n: nat)
    requires Fits(x, n)
    ensures Value(Pad(x, n)) == x && forall k | 0 <= k < n :: '0' <= Pad(x, n)[k] <= '9'
    decreases n
  {
    if n > 0 {
      PadIsDecimal(x / 10, n - 1);
      assert Pad(x, n)[..n - 1] == Pad(x / 10, n - 1);
      assert Digit(x % 10) as int == x % 10 + '0' as int;
    }
  }

  function ClockText(t: Time): string {
    Pad(t.hour, 2) + (":" + (Pad(t.minute, 2) + (":" + (Pad(t.second, 2) + Fraction(t.micro)))))
  }

  /** The date stands where ISO 8601 has it, in decimal, before the 'T'. */
  lemma TextSaysTheDate(t: Time)
    requires InRange(t)
    ensures var s := Text(t);
            && |s| == 11 + |ClockText(t)| && s[11..] == ClockText(t)
            && Value(s[..4]) == t.year && s[4] == '-' && Value(s[5..7]) == t.month && s[7] == '-' && Value(s[8..10]) == t.day
            && s[10] == 'T'
  {
    FieldsFit(t);
    PadIsDecimal(t.year, 4);
    PadIsDecimal(t.month, 2);
    PadIsDecimal(t.day, 2);
    DateStands(Pad(t.year, 4), Pad(t.month, 2), Pad(t.day, 2), ClockText(t));
  }

  /** So does the time after it, marked as UTC; the fraction is there exactly when it is not zero. */
  lemma TextSaysTheTime(t: Time)
    requires InRange(t)
    ensures var s := ClockText(t);
            && |s| == (if t.micro == 0 then 14 else 21)
            && Value(s[0..2]) == t.hour && s[2] == ':' && Value(s[3..5]) == t.minute && s[5] == ':' && Value(s[6..8]) == t.second
            && (t.micro != 0 ==> s[8] == '.' && Value(s[9..15]) == t.micro)
            && s[|s| - 6..] == "+00:00"
  {
    FieldsFit(t);
    PadIsDecimal(t.hour, 2);
    PadIsDecimal(t.minute, 2);
    PadIsDecimal(t.second, 2);
    PadIsDecimal(t.micro, 6);
    var fraction := Fraction(t.micro);
    ClockStands(Pad(t.hour, 2), Pad(t.minute, 2), Pad(t.second, 2), fraction);
    FractionStands(t.micro);
    Shifted(ClockText(t), 8, fraction);
    assert ClockText(t)[8 + (|fraction| - 6)..] == fraction[|fraction| - 6..];
    if t.micro != 0 {
      assert ClockText(t)[8 + 1..8 + 7] == fraction[1..7];
    }
  }

  /** Slices of a tail are slices of the whole. */
  lemma Shifted(s: string, n: nat, tail: string)
    requires n <= |s| && s[n..] == tail
    ensures |s| == n + |tail|
    ensures forall i | 0 <= i < |tail| :: s[n + i] == tail[i]
    ensures forall i, j | 0 <= i <= j <= |tail| :: s[n + i..n + j] == tail[i..j]
    ensures forall i | 0 <= i <= |tail| :: s[n + i..] == tail[i..]
  {
  }

  lemma DateStands(year: string, month: string, day: string, clock: string)
    requires |year| == 4 && |month| == |day| == 2
    ensures var s := year + ("-" + (month + ("-" + (day + ("T" + clock)))));
            && |s| == 11 + |clock| && s[..4] == year && s[4] == '-' && s[5..7] == month && s[7] == '-' && s[8..10] == day
            && s[10] == 'T' && s[11..] == clock
  {
  }

  lemma ClockStands(hour: string, minute: string, second: string, fraction: string)
    requires |hour| == |minute| == |second| == 2
    ensures var s := hour + (":" + (minute + (":" + (second + fraction))));
            && |s| == 8 + |fraction| && s[0..2] == hour && s[2] == ':' && s[3..5] == minute && s[5] == ':'
            && s[6..8] == second && s[8..] == fraction
  {
  }

  lemma FractionStands(micro: nat)
    ensures var s := Fraction(micro);
            && |s| == (if micro == 0 then 6 else 13) && s[|s| - 6..] == "+00:00"
            && (micro != 0 ==> s[0] == '.' && s[1..7] == Pad(micro, 6))
  {
  }
}
