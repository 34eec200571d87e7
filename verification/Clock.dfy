/** Timestamps as text (time_range.go): the normal form the database compares, and what raw text compares like. */
module Clock {
  /* ---- Bytewise order on text ---- */

  predicate Less(a: string, b: string) {
    b != [] && (a == [] || a[0] < b[0] || (a[0] == b[0] && Less(a[1..], b[1..])))
  }

  lemma {:induction false} LessTotal(a: string, b: string)
    ensures Less(a, b) || a == b || Less(b, a)
    ensures !(Less(a, b) && Less(b, a)) && !Less(a, a)
  {
    if a != [] && b != [] {
      LessTotal(a[1..], b[1..]);
      assert a == [a[0]] + a[1..] && b == [b[0]] + b[1..];
    }
    if a != [] {
      LessTotal(a[1..], a[1..]);
    }
  }

  lemma {:induction false} LessTransitive(a: string, b: string, c: string)
    requires Less(a, b) && Less(b, c)
    ensures Less(a, c)
  {
    if a != [] && a[0] == b[0] && b[0] == c[0] {
      LessTransitive(a[1..], b[1..], c[1..]);
    }
  }

  /** The first difference decides; text that follows it does not matter. */
  lemma {:induction false} LessPrefix(a: string, b: string, x: string, y: string)
    requires |a| == |b|
    ensures Less(a + x, b + y) <==> Less(a, b) || (a == b && Less(x, y))
  {
    if a == [] {
      assert a + x == x && b + y == y;
    } else {
      LessPrefix(a[1..], b[1..], x, y);
      assert (a + x)[1..] == a[1..] + x && (b + y)[1..] == b[1..] + y;
      assert a == [a[0]] + a[1..] && b == [b[0]] + b[1..];
    }
  }

  /* ---- Fixed-width decimals ---- */

  function Pow10(w: nat): (p: nat)
    ensures 1 <= p
  {
    if w == 0 then 1 else 10 * Pow10(w - 1)
  }

  const DIGITS := "0123456789"

  function Digits(n: nat, w: nat): (s: string)
    ensures |s| == w
  {
    if w == 0 then "" else Digits(n / 10, w - 1) + [DIGITS[n % 10]]
  }

  lemma DigitOrder(i: nat, j: nat)
    requires i < 10 && j < 10
    ensures DIGITS[i] < DIGITS[j] <==> i < j
    ensures DIGITS[i] == DIGITS[j] <==> i == j
  {
  }

  /** Numbers of one width compare like their values. */
  lemma {:induction false} DigitsOrder(n: nat, m: nat, w: nat)
    requires n < Pow10(w) && m < Pow10(w)
    ensures Less(Digits(n, w), Digits(m, w)) <==> n < m
    ensures Digits(n, w) == Digits(m, w) <==> n == m
  {
    if w != 0 {
      DigitsOrder(n / 10, m / 10, w - 1);
      DigitOrder(n % 10, m % 10);
      var a, b := Digits(n / 10, w - 1), Digits(m / 10, w - 1);
      LessPrefix(a, b, [DIGITS[n % 10]], [DIGITS[m % 10]]);
      assert (a + [DIGITS[n % 10]])[..w - 1] == a && (b + [DIGITS[m % 10]])[..w - 1] == b;
      assert (a + [DIGITS[n % 10]])[w - 1] == DIGITS[n % 10] && (b + [DIGITS[m % 10]])[w - 1] == DIGITS[m % 10];
    }
  }

  /* ---- UTC timestamps ---- */

  datatype Stamp = Stamp(year: nat, month: nat, day: nat, hour: nat, minute: nat, second: nat, nanos: nat)

  predicate Leap(y: nat) { y % 4 == 0 && (y % 100 != 0 || y % 400 == 0) }

  function MonthLength(y: nat, m: nat): nat {
    if m == 2 then if Leap(y) then 29 else 28
    else if m in {4, 6, 9, 11} then 30
    else 31
  }

  predicate Valid(s: Stamp) {
    && s.year < 10000 && 1 <= s.month <= 12 && 1 <= s.day <= MonthLength(s.year, s.month)
    && s.hour < 24 && s.minute < 60 && s.second < 60 && s.nanos < 1_000_000_000
  }

  function DaysBeforeMonth(y: nat, m: nat): nat {
    if m <= 1 then 0 else DaysBeforeMonth(y, m - 1) + MonthLength(y, m - 1)
  }

  function DaysBeforeYear(y: nat): nat {
    if y == 0 then 0 else DaysBeforeYear(y - 1) + DaysBeforeMonth(y - 1, 13)
  }

  function DayNumber(s: Stamp): nat {
    DaysBeforeYear(s.year) + DaysBeforeMonth(s.year, s.month) + s.day
  }

  /** Nanoseconds since the beginning of year 0, less one day. */
  function InstantOf(s: Stamp): int {
    (((DayNumber(s) * 24 + s.hour) * 60 + s.minute) * 60 + s.second) * 1_000_000_000 + s.nanos
  }

  lemma {:induction false} LaterMonth(y: nat, m: nat, n: nat)
    requires 1 <= m < n
    ensures DaysBeforeMonth(y, m) + MonthLength(y, m) <= DaysBeforeMonth(y, n)
    decreases n
  {
    if m < n - 1 {
      LaterMonth(y, m, n - 1);
    }
  }

  lemma {:induction false} LaterYear(y: nat, z: nat)
    requires y < z
    ensures DaysBeforeYear(y) + DaysBeforeMonth(y, 13) <= DaysBeforeYear(z)
    decreases z
  {
    if y < z - 1 {
      LaterYear(y, z - 1);
    }
  }

  predicate DateBefore(a: Stamp, b: Stamp) {
    a.year < b.year || (a.year == b.year && (a.month < b.month || (a.month == b.month && a.day < b.day)))
  }

  lemma EarlierDate(a: Stamp, b: Stamp)
    requires Valid(a) && Valid(b) && DateBefore(a, b)
    ensures DayNumber(a) < DayNumber(b)
  {
    LaterMonth(a.year, a.month, 13);
    if a.year < b.year {
      LaterYear(a.year, b.year);
    } else if a.month < b.month {
      LaterMonth(a.year, a.month, b.month);
    }
  }

  /** The day number orders valid dates like the calendar does. */
  lemma DateOrder(a: Stamp, b: Stamp)
    requires Valid(a) && Valid(b)
    ensures DayNumber(a) < DayNumber(b) <==> DateBefore(a, b)
    ensures DayNumber(a) == DayNumber(b) <==> (a.year == b.year && a.month == b.month && a.day == b.day)
  {
    if DateBefore(a, b) {
      EarlierDate(a, b);
    } else if DateBefore(b, a) {
      EarlierDate(b, a);
    }
  }

  function SecondOfDay(s: Stamp): nat { (s.hour * 60 + s.minute) * 60 + s.second }

  lemma InstantParts(s: Stamp)
    ensures InstantOf(s) == (DayNumber(s) * 86400 + SecondOfDay(s)) * 1_000_000_000 + s.nanos
  {
  }

  predicate SameSecond(a: Stamp, b: Stamp) {
    a.(nanos := 0) == b.(nanos := 0)
  }

  lemma InstantOrder(a: Stamp, b: Stamp)
    requires Valid(a) && Valid(b)
    ensures InstantOf(a) < InstantOf(b) <==>
              || DayNumber(a) < DayNumber(b)
              || (DayNumber(a) == DayNumber(b)
                  && (SecondOfDay(a) < SecondOfDay(b) || (SecondOfDay(a) == SecondOfDay(b) && a.nanos < b.nanos)))
    ensures InstantOf(a) == InstantOf(b) <==> a == b
  {
    InstantParts(a);
    InstantParts(b);
    DateOrder(a, b);
    assert SecondOfDay(a) < 86400 && SecondOfDay(b) < 86400;
  }

  /* ---- Their text ---- */

  /** Up to the second: nineteen characters. */
  function Prefix(s: Stamp): (r: string)
    ensures |r| == 19
  {
    Digits(s.year, 4) + ("-" + (Digits(s.month, 2) + ("-" + (Digits(s.day, 2) + ("T" +
      (Digits(s.hour, 2) + (":" + (Digits(s.minute, 2) + (":" + Digits(s.second, 2))))))))))
  }

  /** The bound of an instant: always nine fractional digits, no zone. */
  function UsageBound(s: Stamp): string { Prefix(s) + ("." + Digits(s.nanos, 9)) }

  /** An RFC 3339 timestamp can be written with `k` fractional digits when the remaining ones are zero. */
  predicate Fits(s: Stamp, k: nat) { k <= 9 && s.nanos % Pow10(9 - k) == 0 }

  function FractionDigits(s: Stamp, k: nat): (d: string)
    requires Fits(s, k)
    ensures |d| == k
  {
    Digits(s.nanos / Pow10(9 - k), k)
  }

  function Fraction(s: Stamp, k: nat): string
    requires Fits(s, k)
  {
    if FractionDigits(s, k) == "" then "" else "." + FractionDigits(s, k)
  }

  /** UTC text in the format of section 5.6 of RFC 3339. */
  function Text(s: Stamp, k: nat): string
    requires Fits(s, k)
  {
    Prefix(s) + (Fraction(s, k) + "Z")
  }

  /** SQL's substr, counting from 1; a negative length takes the characters before the position. */
  function Substr(x: string, from: nat, length: int): string
    requires 1 <= from
  {
    var start := from - 1;
    var lo := if length < 0 then start + length else start;
    var hi := if length < 0 then start else start + length;
    var first := if lo < 0 then 0 else if lo > |x| then |x| else lo;
    var last := if hi > |x| then |x| else hi;
    if first <= last then x[first..last] else ""
  }

  /** The expression the database compares instead of the stored text. */
  function UsageClock(text: string): string {
    var fraction := if Substr(text, 20, 1) == "." then Substr(text, 21, |text| - 21) else "";
    Substr(text, 1, 19) + "." + Substr(fraction + "000000000", 1, 9)
  }

  function Zeros(n: nat): (s: string)
    ensures |s| == n
  {
    if n == 0 then "" else Zeros(n - 1) + "0"
  }

  lemma ShiftByTen(n: nat, p: nat)
    ensures n * (10 * p) == 10 * (n * p)
  {
  }

  lemma TimesTen(m: nat, w: nat)
    ensures Digits(10 * m, w + 1) == Digits(m, w) + "0"
  {
    assert 10 * m / 10 == m && 10 * m % 10 == 0;
  }

  lemma {:induction false} PadDigits(n: nat, w: nat, z: nat)
    ensures Digits(n * Pow10(z), w + z) == Digits(n, w) + Zeros(z)
  {
    if z == 0 {
      assert Digits(n, w) + "" == Digits(n, w);
    } else {
      PadDigits(n, w, z - 1);
      ShiftByTen(n, Pow10(z - 1));
      TimesTen(n * Pow10(z - 1), w + z - 1);
      assert (Digits(n, w) + Zeros(z - 1)) + "0" == Digits(n, w) + Zeros(z);
    }
  }

  lemma NineZeros()
    ensures "000000000" == Zeros(9)
  {
    assert Zeros(9) == Zeros(8) + "0" && Zeros(8) == Zeros(7) + "0" && Zeros(7) == Zeros(6) + "0" && Zeros(6) == Zeros(5) + "0";
    assert Zeros(5) == Zeros(4) + "0" && Zeros(4) == Zeros(3) + "0" && Zeros(3) == Zeros(2) + "0" && Zeros(2) == Zeros(1) + "0";
    assert Zeros(1) == Zeros(0) + "0";
  }

  lemma {:induction false} FractionPads(s: Stamp, k: nat)
    requires Fits(s, k)
    ensures Digits(s.nanos, 9) == FractionDigits(s, k) + Zeros(9 - k)
  {
    var p := Pow10(9 - k);
    assert s.nanos == s.nanos / p * p;
    PadDigits(s.nanos / p, k, 9 - k);
  }

  /** The first nine of `digits` and enough zeros. */
  lemma {:induction false} PaddedNine(digits: string)
    requires |digits| <= 9
    ensures Substr(digits + "000000000", 1, 9) == digits + Zeros(9 - |digits|)
  {
    hide Zeros;
    NineZeros();
    ZerosJoin(9 - |digits|, |digits|);
    CutNine(digits, Zeros(9 - |digits|), Zeros(|digits|));
  }

  lemma CutNine(digits: string, x: string, y: string)
    requires |digits| + |x| == 9
    ensures Substr(digits + (x + y), 1, 9) == digits + x
  {
    assert digits + (x + y) == (digits + x) + y;
    assert ((digits + x) + y)[0..9] == digits + x;
  }

  /** The stored text, however many fractional digits it has, normalises to the bound of its instant. */
  lemma ClockIsBound(s: Stamp, k: nat)
    requires Fits(s, k)
    ensures UsageClock(Text(s, k)) == UsageBound(s)
  {
    FractionPads(s, k);
    ClockOf(Prefix(s), FractionDigits(s, k));
  }

  lemma ClockOf(p: string, digits: string)
    requires |p| == 19 && |digits| <= 9
    ensures UsageClock(p + ((if digits == "" then "" else "." + digits) + "Z")) == p + ("." + (digits + Zeros(9 - |digits|)))
  {
    PaddedNine(digits);
    var text := p + ((if digits == "" then "" else "." + digits) + "Z");
    assert Substr(text, 1, 19) == p;
    if digits == "" {
      assert text[19] == 'Z' && Substr(text, 20, 1) == "Z";
      assert "" + "000000000" == digits + "000000000";
    } else {
      assert text[19] == '.' && Substr(text, 20, 1) == ".";
      assert text[20..20 + |digits|] == digits;
      assert Substr(text, 21, |text| - 21) == digits;
    }
    assert (p + ".") + (digits + Zeros(9 - |digits|)) == p + ("." + (digits + Zeros(9 - |digits|)));
  }

  lemma {:induction false} ZerosJoin(a: nat, b: nat)
    ensures Zeros(a) + Zeros(b) == Zeros(a + b)
  {
    if b == 0 {
      assert Zeros(a) + "" == Zeros(a);
    } else {
      ZerosJoin(a, b - 1);
      assert Zeros(a) + (Zeros(b - 1) + "0") == (Zeros(a) + Zeros(b - 1)) + "0";
    }
  }

  /* ---- Order embedding ---- */

  lemma PowFacts()
    ensures Pow10(2) == 100 && Pow10(4) == 10000 && Pow10(9) == 1_000_000_000
  {
    assert Pow10(1) == 10 && Pow10(3) == 1000 && Pow10(5) == 100000 && Pow10(6) == 1000000 && Pow10(7) == 10000000 && Pow10(8) == 100000000;
  }

  /** One numeric field followed by a separator and the rest. */
  lemma FieldThen(n: nat, m: nat, w: nat, sep: string, x: string, y: string)
    requires n < Pow10(w) && m < Pow10(w)
    ensures Less(Digits(n, w) + (sep + x), Digits(m, w) + (sep + y)) <==> n < m || (n == m && Less(x, y))
    ensures Digits(n, w) + (sep + x) == Digits(m, w) + (sep + y) <==> n == m && x == y
  {
    DigitsOrder(n, m, w);
    LessPrefix(Digits(n, w), Digits(m, w), sep + x, sep + y);
    LessPrefix(sep, sep, x, y);
    LessTotal(sep, sep);
    var a, b := Digits(n, w) + (sep + x), Digits(m, w) + (sep + y);
    assert a[..w] == Digits(n, w) && b[..w] == Digits(m, w) && a[w + |sep|..] == x && b[w + |sep|..] == y;
  }

  /** The first nineteen characters compare like the instants do, down to the second. */
  lemma PrefixOrder(a: Stamp, b: Stamp)
    requires Valid(a) && Valid(b)
    ensures Less(Prefix(a), Prefix(b)) <==>
              DayNumber(a) < DayNumber(b) || (DayNumber(a) == DayNumber(b) && SecondOfDay(a) < SecondOfDay(b))
    ensures Prefix(a) == Prefix(b) <==> SameSecond(a, b)
  {
    PowFacts();
    var sa, sb := Digits(a.second, 2), Digits(b.second, 2);
    var ma, mb := Digits(a.minute, 2) + (":" + sa), Digits(b.minute, 2) + (":" + sb);
    var ha, hb := Digits(a.hour, 2) + (":" + ma), Digits(b.hour, 2) + (":" + mb);
    var da, db := Digits(a.day, 2) + ("T" + ha), Digits(b.day, 2) + ("T" + hb);
    var oa, ob := Digits(a.month, 2) + ("-" + da), Digits(b.month, 2) + ("-" + db);
    DigitsOrder(a.second, b.second, 2);
    FieldThen(a.minute, b.minute, 2, ":", sa, sb);
    FieldThen(a.hour, b.hour, 2, ":", ma, mb);
    FieldThen(a.day, b.day, 2, "T", ha, hb);
    FieldThen(a.month, b.month, 2, "-", da, db);
    FieldThen(a.year, b.year, 4, "-", oa, ob);
    DateOrder(a, b);
  }

  /** Bounds compare exactly like the instants they stand for. */
  lemma {:induction false} BoundOrder(a: Stamp, b: Stamp)
    requires Valid(a) && Valid(b)
    ensures Less(UsageBound(a), UsageBound(b)) <==> InstantOf(a) < InstantOf(b)
    ensures UsageBound(a) == UsageBound(b) <==> a == b
  {
    PowFacts();
    PrefixOrder(a, b);
    InstantOrder(a, b);
    DateOrder(a, b);
    LessPrefix(Prefix(a), Prefix(b), "." + Digits(a.nanos, 9), "." + Digits(b.nanos, 9));
    LessPrefix(".", ".", Digits(a.nanos, 9), Digits(b.nanos, 9));
    LessTotal(".", ".");
    DigitsOrder(a.nanos, b.nanos, 9);
    assert UsageBound(a)[..19] == Prefix(a) && UsageBound(b)[..19] == Prefix(b);
    assert UsageBound(a)[20..] == Digits(a.nanos, 9) && UsageBound(b)[20..] == Digits(b.nanos, 9);
  }

  /** The half-open window test of the database. */
  predicate InWindow(text: string, start: Stamp, end: Stamp) {
    !Less(UsageClock(text), UsageBound(start)) && Less(UsageClock(text), UsageBound(end))
  }

  /** Selecting by text is selecting by time, so adjacent windows split a range without gap or overlap. */
  lemma {:induction false} WindowIsInterval(s: Stamp, k: nat, start: Stamp, end: Stamp)
    requires Valid(s) && Fits(s, k) && Valid(start) && Valid(end)
    ensures InWindow(Text(s, k), start, end) <==> InstantOf(start) <= InstantOf(s) < InstantOf(end)
  {
    ClockIsBound(s, k);
    BoundOrder(s, start);
    BoundOrder(s, end);
  }

  lemma {:induction false} WindowsPartition(s: Stamp, k: nat, start: Stamp, mid: Stamp, end: Stamp)
    requires Valid(s) && Fits(s, k) && Valid(start) && Valid(mid) && Valid(end)
    requires InstantOf(start) <= InstantOf(mid) <= InstantOf(end)
    ensures InWindow(Text(s, k), start, end) <==> InWindow(Text(s, k), start, mid) || InWindow(Text(s, k), mid, end)
    ensures !(InWindow(Text(s, k), start, mid) && InWindow(Text(s, k), mid, end))
  {
    WindowIsInterval(s, k, start, end);
    WindowIsInterval(s, k, start, mid);
    WindowIsInterval(s, k, mid, end);
  }

  /* ---- Why the raw text is not compared ---- */

  lemma {:induction false} FirstDifference(x: string, y: string, u: string, v: string, w: string, z: string)
    requires !(x <= y) && !(y <= x)
    ensures Less(x + u, y + v) <==> Less(x + w, y + z)
  {
    assert (x + u)[1..] == x[1..] + u && (y + v)[1..] == y[1..] + v;
    assert (x + w)[1..] == x[1..] + w && (y + z)[1..] == y[1..] + z;
    if x[0] == y[0] {
      assert x == [x[0]] + x[1..] && y == [y[0]] + y[1..];
      FirstDifference(x[1..], y[1..], u, v, w, z);
    }
  }

  lemma {:induction false} BelowZ(n: nat, w: nat)
    ensures forall i :: 0 <= i < w ==> Digits(n, w)[i] < 'Z'
  {
    if w != 0 {
      BelowZ(n / 10, w - 1);
    }
  }

  lemma FractionBelowZ(s: Stamp, k: nat)
    requires Fits(s, k)
    ensures forall i :: 0 <= i < |Fraction(s, k)| ==> Fraction(s, k)[i] < 'Z'
  {
    BelowZ(s.nanos / Pow10(9 - k), k);
  }

  /** When one fraction continues the other, the shorter one's Z decides. */
  lemma ContinuedFraction(x: string, w: string)
    requires w != "" && w[0] < 'Z'
    ensures Less((x + w) + "Z", x + "Z") && !Less(x + "Z", (x + w) + "Z")
  {
    assert (x + w) + "Z" == x + (w + "Z");
    LessPrefix(x, x, w + "Z", "Z");
    LessTotal((x + w) + "Z", x + "Z");
  }

  lemma {:induction false} SameFraction(a: Stamp, j: nat, b: Stamp, k: nat)
    requires Valid(a) && Valid(b) && Fits(a, j) && Fits(b, k) && Fraction(a, j) == Fraction(b, k)
    ensures a.nanos == b.nanos
  {
    FractionPads(a, j);
    FractionPads(b, k);
    PowFacts();
    DigitsOrder(a.nanos, b.nanos, 9);
    assert |Fraction(a, j)| == |Fraction(b, k)| && j == k;
    assert j != 0 ==> Fraction(a, j)[1..] == FractionDigits(a, j) && Fraction(b, k)[1..] == FractionDigits(b, k);
  }

  lemma BranchingFractions(a: Stamp, j: nat, b: Stamp, k: nat)
    requires Valid(a) && Valid(b) && Fits(a, j) && Fits(b, k) && a.nanos < b.nanos
    requires !(Fraction(a, j) <= Fraction(b, k)) && !(Fraction(b, k) <= Fraction(a, j))
    ensures Less(Fraction(a, j) + "Z", Fraction(b, k) + "Z")
  {
    hide Pow10, Digits, Zeros, Prefix, FractionDigits;
    var fa, fb, za, zb := Fraction(a, j), Fraction(b, k), Zeros(9 - j), Zeros(9 - k);
    FirstDifference(fa, fb, "Z", "Z", za, zb);
    FractionPads(a, j);
    FractionPads(b, k);
    PowFacts();
    DigitsOrder(a.nanos, b.nanos, 9);
    assert ("." + FractionDigits(a, j)) + za == "." + Digits(a.nanos, 9);
    assert ("." + FractionDigits(b, k)) + zb == "." + Digits(b.nanos, 9);
    LessPrefix(".", ".", Digits(a.nanos, 9), Digits(b.nanos, 9));
    LessTotal(".", ".");
  }

  lemma FractionOrder(a: Stamp, j: nat, b: Stamp, k: nat)
    requires Valid(a) && Valid(b) && Fits(a, j) && Fits(b, k) && a.nanos < b.nanos
    ensures Less(Fraction(a, j) + "Z", Fraction(b, k) + "Z") <==> !(Fraction(a, j) <= Fraction(b, k))
  {
    var fa, fb := Fraction(a, j), Fraction(b, k);
    FractionBelowZ(a, j);
    FractionBelowZ(b, k);
    if fa == fb {
      SameFraction(a, j, b, k);
    } else if fa <= fb {
      assert fb == fa + fb[|fa|..];
      ContinuedFraction(fa, fb[|fa|..]);
    } else if fb <= fa {
      assert fa == fb + fa[|fb|..];
      ContinuedFraction(fb, fa[|fb|..]);
    } else {
      BranchingFractions(a, j, b, k);
    }
  }

  lemma {:induction false} EarlierPrefix(a: Stamp, b: Stamp)
    requires Valid(a) && Valid(b) && InstantOf(a) < InstantOf(b)
    ensures if SameSecond(a, b) then Prefix(a) == Prefix(b) && a.nanos < b.nanos else Less(Prefix(a), Prefix(b))
  {
    PrefixOrder(a, b);
    InstantOrder(a, b);
    DateOrder(a, b);
  }

  /** The stored text itself sorts an earlier instant first except in exactly one case: within one second, when the
      earlier fraction is the beginning of the later one (none at all, or .5 before .51). */
  lemma {:induction false} RawTextOrder(a: Stamp, j: nat, b: Stamp, k: nat)
    requires Valid(a) && Valid(b) && Fits(a, j) && Fits(b, k)
    requires InstantOf(a) < InstantOf(b)
    ensures Less(Text(a, j), Text(b, k)) <==> !(SameSecond(a, b) && Fraction(a, j) <= Fraction(b, k))
  {
    EarlierPrefix(a, b);
    TextOrder(Prefix(a), Prefix(b), Fraction(a, j) + "Z", Fraction(b, k) + "Z");
    if SameSecond(a, b) {
      FractionOrder(a, j, b, k);
    }
  }

  lemma TextOrder(p: string, q: string, x: string, y: string)
    requires |p| == |q|
    ensures Less(p, q) ==> Less(p + x, q + y)
    ensures p == q ==> (Less(p + x, q + y) <==> Less(x, y))
  {
    LessPrefix(p, q, x, y);
    LessTotal(p, q);
  }
}
