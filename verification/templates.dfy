/**
 * The two template helpers: `formatDuration`, which prints a number of
 * seconds as `h:mm:ss` or `m:ss`, and `divf`, a division that yields 0
 * for a zero divisor.
 *
 * Go's integer `/` and `%` truncate toward zero, unlike Dafny's Euclidean
 * operators, so they are written out as `TruncDiv` and `TruncMod`; the
 * `%d` and `%02d` verbs are written out as `IntString` and `Pad2`.
 * `ParseClock` reads a printed duration back and is the partner the
 * round-trip lemma relates `FormatDuration` to.
 */
module Templates {
  import opened Models

  // ---------------------------------------------------------------------
  // Go integer arithmetic

  /** Go's `a / b` for a positive divisor: the quotient truncated toward zero. */
  function TruncDiv(a: int, b: int): int
    requires b > 0
  {
    if a >= 0 then a / b else -((-a) / b)
  }

  /** Go's `a % b` for a positive divisor: the remainder takes the sign of `a`. */
  function TruncMod(a: int, b: int): int
    requires b > 0
  {
    a - b * TruncDiv(a, b)
  }

  /** Truncated division and remainder rebuild the dividend; the remainder
      has the dividend's sign and is smaller than the divisor in magnitude. */
  lemma TruncDivMod(a: int, b: int)
    requires b > 0
    ensures b * TruncDiv(a, b) + TruncMod(a, b) == a
    ensures a >= 0 ==> 0 <= TruncMod(a, b) < b && TruncDiv(a, b) == a / b && TruncMod(a, b) == a % b
    ensures a < 0 ==> -b < TruncMod(a, b) <= 0 && TruncDiv(a, b) == -((-a) / b) && TruncMod(a, b) == -((-a) % b)
  {
  }

  /** Euclidean division is determined by a quotient and an in-range remainder. */
  lemma DivUnique(n: int, d: int, q: int, r: int)
    requires d > 0 && 0 <= r < d && n == d * q + r
    ensures n / d == q && n % d == r
  {
    var q', r' := n / d, n % d;
    assert d * (q - q') == r' - r;
    if q < q' {
      MulAtLeast(d, q' - q);
    } else if q' < q {
      MulAtLeast(d, q - q');
    }
  }

  lemma {:induction false} MulAtLeast(d: int, k: int)
    requires d > 0 && k >= 1
    ensures d * k >= d
    decreases k
  {
    if k > 1 {
      MulAtLeast(d, k - 1);
      assert d * k == d * (k - 1) + d;
    }
  }

  /** Hours, minutes within the hour and seconds within the minute of a
      non-negative count, computed two ways: via minutes (the template
      helper) and via the remainder modulo an hour (the handlers). */
  lemma ClockDigits(n: nat)
    ensures (n / 60) / 60 == n / 3600
    ensures (n / 60) % 60 == (n % 3600) / 60
    ensures n == (n / 3600) * 3600 + ((n % 3600) / 60) * 60 + n % 60
    ensures (n % 3600) % 60 == n % 60
  {
    var a, r := n / 3600, n % 3600;
    var b, c := r / 60, r % 60;
    assert n == 60 * (60 * a + b) + c;
    DivUnique(n, 60, 60 * a + b, c);
    DivUnique(n / 60, 60, a, b);
  }

  // ---------------------------------------------------------------------
  // `%d` and `%02d`

  function DigitChar(d: nat): char
    requires d < 10
  {
    ('0' as int + d) as char
  }

  function DigitValue(c: char): int {
    c as int - '0' as int
  }

  predicate IsDigit(c: char) {
    '0' <= c <= '9'
  }

  predicate AllDigits(s: string) {
    forall k :: 0 <= k < |s| ==> IsDigit(s[k])
  }

  /** The decimal digits of `n`, most significant first, without leading zeros. */
  function NatString(n: nat): (s: string)
    ensures |s| > 0 && AllDigits(s)
    ensures n < 10 <==> |s| == 1
    ensures 10 <= n < 100 ==> |s| == 2
  {
    if n < 10 then [DigitChar(n)] else NatString(n / 10) + [DigitChar(n % 10)]
  }

  /** Go's `%d`: a minus sign before the digits of a negative number. */
  function IntString(n: int): (s: string)
    ensures |s| > 0
    ensures s[0] == '-' <==> n < 0
    ensures n >= 0 ==> AllDigits(s)
  {
    if n < 0 then "-" + NatString(-n) else NatString(n)
  }

  /** Go's `%02d`: one leading zero for a single non-negative digit; a
      negative single digit already fills two characters with its sign. */
  function Pad2(n: int): (s: string)
    ensures |s| >= 2
    ensures 0 <= n < 100 ==> |s| == 2 && AllDigits(s)
  {
    if 0 <= n < 10 then "0" + NatString(n) else IntString(n)
  }

  /** The value of a string of decimal digits, most significant first. */
  function ParseNat(s: string): int {
    if |s| == 0 then 0 else ParseNat(s[..|s| - 1]) * 10 + DigitValue(s[|s| - 1])
  }

  /** Reading the digits of `n` gives back `n`. */
  lemma {:induction false} ParseNatString(n: nat)
    ensures ParseNat(NatString(n)) == n
    decreases n
  {
    if n >= 10 {
      ParseNatString(n / 10);
      var s := NatString(n);
      assert s[..|s| - 1] == NatString(n / 10);
    }
  }

  /** A non-negative number below 100 prints as exactly two digits under
      `%02d` and reads back as itself. */
  lemma Pad2Facts(n: nat)
    requires n < 100
    ensures |Pad2(n)| == 2 && AllDigits(Pad2(n))
    ensures ParseNat(Pad2(n)) == n
  {
    ParseNatString(n);
    if n < 10 {
      var s := Pad2(n);
      assert s[..1] == "0";
    }
  }

  // ---------------------------------------------------------------------
  // formatDuration

  /** Hours, minutes and seconds of a duration. */
  datatype Clock = Clock(hours: int, minutes: int, secs: int)

  /** `time.Duration(seconds)` split as the template helper does: whole
      hours, whole minutes modulo 60 and whole seconds modulo 60, each
      truncated toward zero. For a non-negative count the parts rebuild it,
      and minutes and seconds lie in [0, 60). */
  function Parts(seconds: int): (c: Clock)
    ensures seconds >= 0 ==> c.hours >= 0 && 0 <= c.minutes < 60 && 0 <= c.secs < 60
    ensures seconds >= 0 ==> c.hours * 3600 + c.minutes * 60 + c.secs == seconds
    ensures seconds < 0 ==> c.hours <= 0 && -60 < c.minutes <= 0 && -60 < c.secs <= 0
  {
    var c := Clock(TruncDiv(seconds, 3600), TruncMod(TruncDiv(seconds, 60), 60), TruncMod(seconds, 60));
    if seconds >= 0 then
      ClockDigits(seconds);
      c
    else
      ClockDigits(-seconds);
      c
  }

  /** Print a clock: `h:mm:ss` with at least one hour, else `m:ss`. */
  function Render(c: Clock): string {
    if c.hours > 0 then IntString(c.hours) + ":" + Pad2(c.minutes) + ":" + Pad2(c.secs)
    else IntString(c.minutes) + ":" + Pad2(c.secs)
  }

  /** `formatDuration` of the template helpers. */
  function FormatDuration(seconds: int): string {
    Render(Parts(seconds))
  }

  /** `divf`: 0 for a zero divisor, otherwise the quotient. */
  function Divf(a: real, b: real): (r: real)
    ensures b == 0.0 ==> r == 0.0
    ensures b != 0.0 ==> r * b == a
  {
    if b == 0.0 then 0.0 else a / b
  }

  // ---------------------------------------------------------------------
  // Reading a printed duration back

  /** The pieces of `s` between colons, in order; never empty. */
  function Fields(s: string): (r: seq<string>)
    ensures |r| > 0
  {
    if |s| == 0 then [""]
    else
      var rest := Fields(s[1..]);
      if s[0] == ':' then [""] + rest else [[s[0]] + rest[0]] + rest[1..]
  }

  /** A character other than a colon joins the first field of what follows. */
  lemma FieldsCons(c: char, u: string)
    requires c != ':'
    ensures Fields([c] + u) == [[c] + Fields(u)[0]] + Fields(u)[1..]
  {
    assert ([c] + u)[1..] == u;
  }

  /** A colon-free prefix joins the first field of what follows. */
  lemma {:induction false} FieldsPrefix(a: string, t: string)
    requires AllDigits(a)
    ensures Fields(a + t) == [a + Fields(t)[0]] + Fields(t)[1..]
    decreases |a|
  {
    var f := Fields(t);
    if |a| > 0 {
      var u := a[1..] + t;
      assert a + t == [a[0]] + u;
      assert IsDigit(a[0]);
      FieldsPrefix(a[1..], t);
      FieldsCons(a[0], u);
      assert [a[0]] + (a[1..] + f[0]) == a + f[0];
    } else {
      assert a + t == t;
      assert a + f[0] == f[0];
      assert [f[0]] + f[1..] == f;
    }
  }

  /** Digits followed by a colon form one field of their own. */
  lemma FieldsColon(a: string, t: string)
    requires AllDigits(a)
    ensures Fields(a + ":" + t) == [a] + Fields(t)
  {
    FieldsPrefix(a, ":" + t);
    assert (":" + t)[1..] == t;
    assert Fields(":" + t) == [""] + Fields(t);
    assert a + "" == a;
    assert a + ":" + t == a + (":" + t);
  }

  /** A string of digits is a single field. */
  lemma FieldsDigits(a: string)
    requires AllDigits(a)
    ensures Fields(a) == [a]
  {
    FieldsPrefix(a, "");
    assert a + "" == a;
  }

  /** A field of at least one digit. */
  predicate Numeral(s: string) {
    |s| > 0 && AllDigits(s)
  }

  /** Reads `h:mm:ss` or `m:ss` (minute and second fields of two digits)
      back into seconds; `None` for anything else. */
  function ParseClock(s: string): Option<int> {
    var f := Fields(s);
    if |f| == 3 && Numeral(f[0]) && Numeral(f[1]) && Numeral(f[2]) && |f[1]| == 2 && |f[2]| == 2 then
      Some(ParseNat(f[0]) * 3600 + ParseNat(f[1]) * 60 + ParseNat(f[2]))
    else if |f| == 2 && Numeral(f[0]) && Numeral(f[1]) && |f[1]| == 2 then
      Some(ParseNat(f[0]) * 60 + ParseNat(f[1]))
    else None
  }

  /** The fields of the `h:mm:ss` form. */
  lemma HourFields(h: int, m: nat, sec: nat)
    requires h > 0 && m < 60 && sec < 60
    ensures Fields(IntString(h) + ":" + Pad2(m) + ":" + Pad2(sec)) == [IntString(h), Pad2(m), Pad2(sec)]
  {
    Pad2Facts(m);
    Pad2Facts(sec);
    FieldsDigits(Pad2(sec));
    FieldsColon(Pad2(m), Pad2(sec));
    FieldsColon(IntString(h), Pad2(m) + ":" + Pad2(sec));
    assert IntString(h) + ":" + Pad2(m) + ":" + Pad2(sec) == IntString(h) + ":" + (Pad2(m) + ":" + Pad2(sec));
  }

  /** The fields of the `m:ss` form. */
  lemma MinuteFields(m: nat, sec: nat)
    requires m < 60 && sec < 60
    ensures Fields(IntString(m) + ":" + Pad2(sec)) == [IntString(m), Pad2(sec)]
  {
    Pad2Facts(sec);
    FieldsDigits(Pad2(sec));
    FieldsColon(IntString(m), Pad2(sec));
  }

  /** For a non-negative count the printed form has three colon-separated
      fields exactly when there is at least one hour, two otherwise; every
      field is a numeral and the seconds field (and the minutes field of
      the three-field form) has exactly two digits. */
  lemma FormatShape(seconds: nat)
    ensures |Fields(FormatDuration(seconds))| == (if seconds >= 3600 then 3 else 2)
    ensures forall k :: 0 <= k < |Fields(FormatDuration(seconds))| ==> Numeral(Fields(FormatDuration(seconds))[k])
    ensures |Fields(FormatDuration(seconds))[|Fields(FormatDuration(seconds))| - 1]| == 2
    ensures seconds >= 3600 ==> |Fields(FormatDuration(seconds))[1]| == 2
  {
    var c := Parts(seconds);
    assert c.hours > 0 <==> seconds >= 3600;
    Pad2Facts(c.minutes);
    Pad2Facts(c.secs);
    if c.hours > 0 {
      HourFields(c.hours, c.minutes, c.secs);
    } else {
      MinuteFields(c.minutes, c.secs);
    }
  }

  /** Reading the `h:mm:ss` form back. */
  lemma ParseHourForm(h: int, m: nat, sec: nat)
    requires h > 0 && m < 60 && sec < 60
    ensures ParseClock(IntString(h) + ":" + Pad2(m) + ":" + Pad2(sec)) == Some(h * 3600 + m * 60 + sec)
  {
    Pad2Facts(m);
    Pad2Facts(sec);
    ParseNatString(h);
    HourFields(h, m, sec);
  }

  /** Reading the `m:ss` form back. */
  lemma ParseMinuteForm(m: nat, sec: nat)
    requires m < 60 && sec < 60
    ensures ParseClock(IntString(m) + ":" + Pad2(sec)) == Some(m * 60 + sec)
  {
    Pad2Facts(sec);
    ParseNatString(m);
    MinuteFields(m, sec);
  }

  /** Reading the printed form of a non-negative count gives the count back. */
  lemma FormatRoundTrip(seconds: nat)
    ensures ParseClock(FormatDuration(seconds)) == Some(seconds)
  {
    var c := Parts(seconds);
    if c.hours > 0 {
      ParseHourForm(c.hours, c.minutes, c.secs);
    } else {
      ParseMinuteForm(c.minutes, c.secs);
    }
  }

  /** Printing is injective on non-negative counts. */
  lemma FormatInjective(s1: nat, s2: nat)
    requires FormatDuration(s1) == FormatDuration(s2)
    ensures s1 == s2
  {
    FormatRoundTrip(s1);
    FormatRoundTrip(s2);
  }

  /** One hour, two minutes and five seconds. */
  lemma FormatHourExample()
    ensures FormatDuration(3725) == "1:02:05"
  {
    assert Parts(3725) == Clock(1, 2, 5);
    assert NatString(1) == "1" && NatString(2) == "2" && NatString(5) == "5";
  }

  /** Under an hour the minutes are not padded. */
  lemma FormatMinuteExample()
    ensures FormatDuration(65) == "1:05"
  {
    assert Parts(65) == Clock(0, 1, 5);
    assert NatString(1) == "1" && NatString(5) == "5";
  }

  /** A negative count prints negative minutes and seconds. */
  lemma FormatNegativeExample()
    ensures FormatDuration(-65) == "-1:-5"
  {
    var c := Parts(-65);
    assert c == Clock(TruncDiv(-65, 3600), TruncMod(TruncDiv(-65, 60), 60), TruncMod(-65, 60));
    assert TruncDiv(-65, 3600) == 0 && TruncDiv(-65, 60) == -1;
    assert TruncMod(-1, 60) == -1 && TruncMod(-65, 60) == -5;
    assert IntString(-1) == "-1";
    assert Pad2(-5) == "-5";
  }
}
