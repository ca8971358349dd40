/** Times to the resolution of an ETag, and the ETag of a time: a fixed-width date, escaped for a query. */
module EntityTags {

  /** A date and time of day in UTC; `tick` counts 100 nanoseconds. */
  datatype Time = Time(year: nat, month: nat, day: nat, hour: nat, minute: nat, second: nat, tick: nat)

  predicate InRange(t: Time) {
    && t.year < 10_000 && 1 <= t.month <= 12 && 1 <= t.day <= 31
    && t.hour < 24 && t.minute < 60 && t.second < 60 && t.tick < 10_000_000
  }

  type Instant = t: Time | InRange(t) witness Time(1, 1, 1, 0, 0, 0, 0)

  predicate Earlier(a: Instant, b: Instant) {
    a.year < b.year || (a.year == b.year &&
    (a.month < b.month || (a.month == b.month &&
    (a.day < b.day || (a.day == b.day &&
    (a.hour < b.hour || (a.hour == b.hour &&
    (a.minute < b.minute || (a.minute == b.minute &&
    (a.second < b.second || (a.second == b.second && a.tick < b.tick)))))))))))
  }

  predicate NotAfter(a: Instant, b: Instant) {
    a == b || Earlier(a, b)
  }

  lemma EarlierTransitive(a: Instant, b: Instant, c: Instant)
    requires NotAfter(a, b)
    ensures NotAfter(b, c) ==> NotAfter(a, c)
    ensures Earlier(b, c) ==> Earlier(a, c) && a != c
  {
  }

  // ---- The text of a time ----

  function Pow10(w: nat): nat {
    if w == 0 then 1 else 10 * Pow10(w - 1)
  }

  /** The last w decimal digits of n. */
  function Pad(w: nat, n: nat): (s: string)
    ensures |s| == w
  {
    if w == 0 then "" else Pad(w - 1, n / 10) + ['0' + (n % 10) as char]
  }

  lemma {:induction false} PadInjective(w: nat, m: nat, n: nat)
    requires m < Pow10(w) && n < Pow10(w) && Pad(w, m) == Pad(w, n)
    ensures m == n
  {
    if w > 0 {
      assert Pad(w, m)[..w - 1] == Pad(w - 1, m / 10) && Pad(w, n)[..w - 1] == Pad(w - 1, n / 10);
      assert Pad(w, m)[w - 1] == Pad(w, n)[w - 1];
      PadInjective(w - 1, m / 10, n / 10);
    }
  }

  /** Year, month and day, then hour, minute and second with their colons escaped, then seven digits of a second. */
  function DateText(t: Instant): string {
    Pad(4, t.year) + ("-" + (Pad(2, t.month) + ("-" + (Pad(2, t.day) + ("T" +
      (Pad(2, t.hour) + ("%3A" + (Pad(2, t.minute) + ("%3A" + (Pad(2, t.second) + ("." + (Pad(7, t.tick) + "Z"))))))))))))
  }

  function EtagFor(t: Instant): string {
    "W/\"datetime'" + (DateText(t) + "'\"")
  }

  lemma SameParts(a: string, x: string, b: string, y: string)
    requires |a| == |b| && a + x == b + y
    ensures a == b && x == y
  {
    assert a == (a + x)[..|a|] && b == (b + y)[..|b|] && x == (a + x)[|a|..] && y == (b + y)[|b|..];
  }

  /** A field of w digits between a fixed prefix and the rest of the text. */
  lemma SameField(w: nat, m: nat, n: nat, sep: string, x: string, y: string)
    requires m < Pow10(w) && n < Pow10(w) && Pad(w, m) + (sep + x) == Pad(w, n) + (sep + y)
    ensures m == n && x == y
  {
    SameParts(Pad(w, m), sep + x, Pad(w, n), sep + y);
    SameParts(sep, x, sep, y);
    PadInjective(w, m, n);
  }

  lemma Widths()
    ensures Pow10(2) == 100 && Pow10(4) == 10_000 && Pow10(7) == 10_000_000
  {
    assert Pow10(3) == 1000 && Pow10(5) == 100_000;
  }

  lemma DateInjective(a: Instant, b: Instant)
    requires DateText(a) == DateText(b)
    ensures a == b
  {
    hide Pad, Pow10;
    Widths();
    var a6, b6 := Pad(7, a.tick) + "Z", Pad(7, b.tick) + "Z";
    var a5, b5 := Pad(2, a.second) + ("." + a6), Pad(2, b.second) + ("." + b6);
    var a4, b4 := Pad(2, a.minute) + ("%3A" + a5), Pad(2, b.minute) + ("%3A" + b5);
    var a3, b3 := Pad(2, a.hour) + ("%3A" + a4), Pad(2, b.hour) + ("%3A" + b4);
    var a2, b2 := Pad(2, a.day) + ("T" + a3), Pad(2, b.day) + ("T" + b3);
    var a1, b1 := Pad(2, a.month) + ("-" + a2), Pad(2, b.month) + ("-" + b2);
    SameField(4, a.year, b.year, "-", a1, b1);
    SameField(2, a.month, b.month, "-", a2, b2);
    SameField(2, a.day, b.day, "T", a3, b3);
    SameField(2, a.hour, b.hour, "%3A", a4, b4);
    SameField(2, a.minute, b.minute, "%3A", a5, b5);
    SameField(2, a.second, b.second, ".", a6, b6);
    SameParts(Pad(7, a.tick), "Z", Pad(7, b.tick), "Z");
    PadInjective(7, a.tick, b.tick);
  }

  /** An If-Match header that names one ETag. */
  predicate Concrete(ifMatch: string) {
    ifMatch != "" && ifMatch != "*"
  }

  /** Different times have different ETags, and none reads as "no condition" or "any". */
  lemma EtagInjective(a: Instant, b: Instant)
    ensures EtagFor(a) == EtagFor(b) ==> a == b
    ensures Concrete(EtagFor(a))
  {
    hide DateText;
    if EtagFor(a) == EtagFor(b) {
      SameParts("W/\"datetime'", DateText(a) + "'\"", "W/\"datetime'", DateText(b) + "'\"");
      assert |DateText(a)| == |DateText(a) + "'\""| - 2 == |DateText(b)|;
      SameParts(DateText(a), "'\"", DateText(b), "'\"");
      DateInjective(a, b);
    }
  }
}
