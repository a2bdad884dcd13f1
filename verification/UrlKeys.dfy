/** The keys of the two signed-URL caches: an object key, a bar and a rendering of the expiry. */
module UrlKeys {
  import opened Basics

  const SECOND := 1_000_000_000

  function DigitChar(d: nat): char
    requires d < 10
  {
    '0' + d as char
  }

  predicate IsDigit(c: char) {
    '0' <= c <= '9'
  }

  ghost predicate AllDigits(s: string) {
    forall i :: 0 <= i < |s| ==> IsDigit(s[i])
  }

  function Decimal(n: nat): string {
    if n < 10 then [DigitChar(n)] else Decimal(n / 10) + [DigitChar(n % 10)]
  }

  function Itoa(n: int): string {
    if n < 0 then "-" + Decimal(-n) else Decimal(n)
  }

  /** The whole seconds of a duration, a fraction dropped. */
  function Whole(duration: int): int {
    Quotient(duration, SECOND)
  }

  /** The text of a duration of whole seconds: hours and minutes appear only when they are reached. */
  function Clock(seconds: nat): string {
    if seconds < 60 then Decimal(seconds) + "s"
    else if seconds < 3600 then Decimal(seconds / 60) + "m" + (Decimal(seconds % 60) + "s")
    else
      Decimal(seconds / 3600) + "h" + (Decimal(seconds / 60 % 60) + "m" + (Decimal(seconds % 60) + "s"))
  }

  function DurationText(seconds: int): string {
    if seconds < 0 then "-" + Clock(-seconds) else Clock(seconds)
  }

  function InnerKey(objectKey: string, expiry: int): string {
    objectKey + "|" + Itoa(Whole(expiry))
  }

  function OuterKey(objectKey: string, seconds: int): string {
    objectKey + "|" + DurationText(seconds)
  }

  // ---------- Renderings are injective ----------

  function Number(s: string): nat
    requires AllDigits(s)
  {
    if s == "" then 0 else Number(s[..|s| - 1]) * 10 + (s[|s| - 1] - '0') as nat
  }

  lemma {:induction false} DecimalReadsBack(n: nat)
    ensures Decimal(n) != "" && AllDigits(Decimal(n)) && Number(Decimal(n)) == n
  {
    var s := Decimal(n);
    if n >= 10 {
      DecimalReadsBack(n / 10);
      assert s[..|s| - 1] == Decimal(n / 10);
    } else {
      assert s[..|s| - 1] == "";
    }
  }

  lemma DecimalsDiffer(m: nat, n: nat)
    ensures Decimal(m) == Decimal(n) <==> m == n
  {
    DecimalReadsBack(m);
    DecimalReadsBack(n);
  }

  lemma ItoasDiffer(m: int, n: int)
    ensures Itoa(m) == Itoa(n) <==> m == n
    ensures '|' !in Itoa(m)
  {
    var p, q := if m < 0 then -m else m, if n < 0 then -n else n;
    DecimalReadsBack(p);
    DecimalReadsBack(q);
    if m < 0 && n < 0 {
      assert Itoa(m)[1..] == Decimal(p) && Itoa(n)[1..] == Decimal(q);
    } else if m < 0 || n < 0 {
      assert Itoa(m)[0] != Itoa(n)[0];
    }
  }

  lemma NoLonger(x: string, c: char, rest: string, y: string, d: char, tail: string)
    requires AllDigits(y) && !IsDigit(c)
    requires x + [c] + rest == y + [d] + tail
    ensures |y| <= |x|
  {
    var s := y + [d] + tail;
    assert s == x + [c] + rest && s[|x|] == c;
    assert forall i :: 0 <= i < |y| ==> s[i] == y[i];
  }

  /** A number ends at the first character that is not a digit. */
  lemma NumbersEndAlike(x: string, c: char, rest: string, y: string, d: char, tail: string)
    requires AllDigits(x) && AllDigits(y) && !IsDigit(c) && !IsDigit(d)
    requires x + [c] + rest == y + [d] + tail
    ensures x == y && c == d && rest == tail
  {
    var s, t := x + [c] + rest, y + [d] + tail;
    NoLonger(x, c, rest, y, d, tail);
    NoLonger(y, d, tail, x, c, rest);
    assert s[..|x|] == x && t[..|y|] == y && s[|x|] == c && t[|y|] == d;
    assert s[|x| + 1..] == rest && t[|y| + 1..] == tail;
  }

  lemma SecondsDiffer(m: nat, n: nat)
    requires Decimal(m) + "s" == Decimal(n) + "s"
    ensures m == n
  {
    var s, t := Decimal(m) + "s", Decimal(n) + "s";
    assert s[..|s| - 1] == Decimal(m) && t[..|t| - 1] == Decimal(n);
    DecimalsDiffer(m, n);
  }

  /** The number a clock text starts with, its unit, and what follows. */
  function Leading(seconds: nat): (nat, char, string) {
    if seconds < 60 then (seconds, 's', "")
    else if seconds < 3600 then (seconds / 60, 'm', Decimal(seconds % 60) + "s")
    else (seconds / 3600, 'h', Decimal(seconds / 60 % 60) + "m" + (Decimal(seconds % 60) + "s"))
  }

  lemma ClockStarts(seconds: nat)
    ensures var (n, unit, rest) := Leading(seconds);
      Clock(seconds) == Decimal(n) + [unit] + rest && !IsDigit(unit) && AllDigits(Decimal(n)) && Decimal(n) != ""
  {
    DecimalReadsBack(Leading(seconds).0);
  }

  lemma ClocksDiffer(m: nat, n: nat)
    requires Clock(m) == Clock(n)
    ensures m == n
  {
    var (p, c, rest) := Leading(m);
    var (q, d, tail) := Leading(n);
    ClockStarts(m);
    ClockStarts(n);
    NumbersEndAlike(Decimal(p), c, rest, Decimal(q), d, tail);
    DecimalsDiffer(p, q);
    if c == 'm' {
      SecondsDiffer(m % 60, n % 60);
    } else if c == 'h' {
      DecimalReadsBack(m / 60 % 60);
      DecimalReadsBack(n / 60 % 60);
      NumbersEndAlike(Decimal(m / 60 % 60), 'm', Decimal(m % 60) + "s", Decimal(n / 60 % 60), 'm', Decimal(n % 60) + "s");
      DecimalsDiffer(m / 60 % 60, n / 60 % 60);
      SecondsDiffer(m % 60, n % 60);
    }
  }

  lemma DecimalHasNoBar(n: nat)
    ensures '|' !in Decimal(n)
  {
    DecimalReadsBack(n);
  }

  lemma ClockHasNoBar(seconds: nat)
    ensures '|' !in Clock(seconds)
  {
    DecimalHasNoBar(seconds % 60);
    if seconds < 60 {
      DecimalHasNoBar(seconds);
    } else if seconds < 3600 {
      DecimalHasNoBar(seconds / 60);
    } else {
      DecimalHasNoBar(seconds / 60 % 60);
      DecimalHasNoBar(seconds / 3600);
    }
  }

  lemma DurationTextsDiffer(m: int, n: int)
    ensures DurationText(m) == DurationText(n) <==> m == n
    ensures '|' !in DurationText(m)
  {
    var p, q := if m < 0 then -m else m, if n < 0 then -n else n;
    ClockStarts(p);
    ClockStarts(q);
    ClockHasNoBar(p);
    if m < 0 && n < 0 {
      assert DurationText(m)[1..] == Clock(p) && DurationText(n)[1..] == Clock(q);
    } else if m < 0 || n < 0 {
      assert DurationText(m)[0] != DurationText(n)[0];
    }
    if DurationText(m) == DurationText(n) {
      ClocksDiffer(p, q);
    }
  }

  lemma BarNoLater(a: string, x: string, b: string, y: string)
    requires '|' !in x && a + "|" + x == b + "|" + y
    ensures |b| <= |a|
  {
    var s := a + "|" + x;
    assert s == b + "|" + y && s[|b|] == '|';
    assert forall i :: |a| < i < |s| ==> s[i] == x[i - |a| - 1];
  }

  lemma LastBarDivides(a: string, x: string, b: string, y: string)
    requires '|' !in x && '|' !in y
    requires a + "|" + x == b + "|" + y
    ensures a == b && x == y
  {
    var s, t := a + "|" + x, b + "|" + y;
    BarNoLater(a, x, b, y);
    BarNoLater(b, y, a, x);
    assert s[..|a|] == a && t[..|b|] == b && s[|a| + 1..] == x && t[|b| + 1..] == y;
  }

  /** The inner cache tells two requests apart exactly when their object keys or their whole seconds of
      expiry differ; expiries that differ by a fraction of a second share an entry. */
  lemma InnerKeysDiffer(a: string, d: int, b: string, e: int)
    ensures InnerKey(a, d) == InnerKey(b, e) <==> a == b && Whole(d) == Whole(e)
  {
    ItoasDiffer(Whole(d), Whole(e));
    ItoasDiffer(Whole(e), Whole(d));
    if InnerKey(a, d) == InnerKey(b, e) {
      LastBarDivides(a, Itoa(Whole(d)), b, Itoa(Whole(e)));
    }
  }

  /** The outer cache tells apart any two different object keys or whole-second expiries. */
  lemma OuterKeysDiffer(a: string, m: int, b: string, n: int)
    ensures OuterKey(a, m) == OuterKey(b, n) <==> a == b && m == n
  {
    DurationTextsDiffer(m, n);
    DurationTextsDiffer(n, m);
    if OuterKey(a, m) == OuterKey(b, n) {
      LastBarDivides(a, DurationText(m), b, DurationText(n));
    }
  }
}
