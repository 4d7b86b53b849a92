/** Prints a number of seconds as days, hours, minutes and seconds. */
module Duration {
  import opened Wrappers

  const TWO_63: nat := 0x8000_0000_0000_0000
  const SECOND: nat := 1_000_000_000
  const MINUTE: nat := 60_000_000_000
  const HOUR: nat := 3_600_000_000_000

  /** The largest number of seconds whose nanoseconds fit in 64 bits. */
  const MAX_SECONDS: int := 9_223_372_036

  type int64 = x: int | -0x8000_0000_0000_0000 <= x < 0x8000_0000_0000_0000

  /** The 64-bit value of a product. */
  function Wrap(x: int): int64 {
    (x + TWO_63) % (2 * TWO_63) - TWO_63
  }

  /** Go's division and remainder, which truncate toward zero. */
  function Quot(a: int, b: int): int
    requires b > 0
  {
    if a >= 0 then a / b else -((-a) / b)
  }

  function Rem(a: int, b: int): int
    requires b > 0
  {
    a - Quot(a, b) * b
  }

  /** `Hours`, `Minutes` and `Seconds` of a duration: a whole part and a fraction. */
  function In(duration: int64, unit: nat): real
    requires unit > 0
  {
    Quot(duration, unit) as real + Rem(duration, unit) as real / unit as real
  }

  /** Go's conversion of a float to an int, which truncates toward zero. */
  function Trunc(x: real): int {
    if x >= 0.0 then x.Floor else -((-x).Floor)
  }

  // ---------------------------------------------------------------- text

  function Digit(n: nat): char
    requires n < 10
  {
    '0' + n as char
  }

  predicate IsDigit(c: char) {
    '0' <= c <= '9'
  }

  predicate AllDigits(s: string) {
    forall i :: 0 <= i < |s| ==> IsDigit(s[i])
  }

  /** The shortest decimal text. */
  function Decimal(n: nat): (s: string)
    ensures s != [] && AllDigits(s) && (n > 0 ==> s[0] != '0')
  {
    if n < 10 then [Digit(n)] else Decimal(n / 10) + [Digit(n % 10)]
  }

  function Unit(n: int, name: char): string {
    if n > 0 then Decimal(n) + [name, ' '] else ""
  }

  /** The text for a whole number of seconds; empty when there are none. */
  function Text(seconds: int): string {
    if seconds <= 0 then ""
    else Unit(seconds / 86400, 'd') + Unit(seconds / 3600 % 24, 'h') + Unit(seconds / 60 % 60, 'm') + Unit(seconds % 60, 's')
  }

  /** The whole seconds of the duration that `sec` is turned into. */
  function Held(sec: int64): int {
    Quot(Wrap(sec * SECOND), SECOND)
  }

  lemma Fraction(r: int, unit: nat)
    requires 0 <= r < unit
    ensures 0.0 <= r as real / unit as real < 1.0
    ensures (-r) as real / unit as real == -(r as real / unit as real)
  {
  }

  lemma QuotRem(a: int, b: int)
    requires b > 0
    ensures a == Quot(a, b) * b + Rem(a, b)
    ensures if a >= 0 then 0 <= Rem(a, b) < b && Quot(a, b) >= 0 else -b < Rem(a, b) <= 0 && Quot(a, b) <= 0
  {
  }

  /** Cutting the number of units to an integer gives the quotient. */
  lemma TruncatedUnit(duration: int64, unit: nat)
    requires unit > 0
    ensures Trunc(In(duration, unit)) == Quot(duration, unit)
  {
    QuotRem(duration, unit);
    hide Quot, Rem;
    var q, r := Quot(duration, unit), Rem(duration, unit);
    if duration >= 0 {
      Fraction(r, unit);
    } else {
      Fraction(-r, unit);
    }
  }

  method GetDurationFormatBySecond(sec: int64) returns (formatString: string)
    ensures formatString == Text(Held(sec))
    ensures -MAX_SECONDS <= sec <= 0 ==> formatString == ""
    ensures 0 < sec <= MAX_SECONDS ==>
      formatString == (if sec / 86400 > 0 then Decimal(sec / 86400) + "d " else "")
                    + (if sec / 3600 % 24 > 0 then Decimal(sec / 3600 % 24) + "h " else "")
                    + (if sec / 60 % 60 > 0 then Decimal(sec / 60 % 60) + "m " else "")
                    + (if sec % 60 > 0 then Decimal(sec % 60) + "s " else "")
  {
    ShownText(sec);
    var duration := Wrap(sec * SECOND);
    var d := Quot(Trunc(In(duration, HOUR)), 24);
    var h := Rem(Trunc(In(duration, HOUR)), 24);
    var m := Rem(Trunc(In(duration, MINUTE)), 60);
    var s := Rem(Trunc(In(duration, SECOND)), 60);
    PartsOfHeld(sec);
    hide *;
    formatString := "";
    if d > 0 {
      formatString := Decimal(d) + "d ";
    }
    assert formatString == Unit(d, 'd') by { UnitIs(d, 'd'); }
    if h > 0 {
      formatString := formatString + (Decimal(h) + "h ");
    }
    assert formatString == Unit(d, 'd') + Unit(h, 'h') by { UnitIs(h, 'h'); }
    if m > 0 {
      formatString := formatString + (Decimal(m) + "m ");
    }
    assert formatString == Unit(d, 'd') + Unit(h, 'h') + Unit(m, 'm') by { UnitIs(m, 'm'); }
    if s > 0 {
      formatString := formatString + (Decimal(s) + "s ");
    }
    assert formatString == Unit(d, 'd') + Unit(h, 'h') + Unit(m, 'm') + Unit(s, 's') by { UnitIs(s, 's'); }
  }

  /** Units that are zero are left out, and no time or a negative one gives an empty text. */
  lemma ShownText(sec: int64)
    ensures -MAX_SECONDS <= sec <= 0 ==> Text(Held(sec)) == ""
    ensures 0 < sec <= MAX_SECONDS ==>
      Text(Held(sec)) == (if sec / 86400 > 0 then Decimal(sec / 86400) + "d " else "")
                       + (if sec / 3600 % 24 > 0 then Decimal(sec / 3600 % 24) + "h " else "")
                       + (if sec / 60 % 60 > 0 then Decimal(sec / 60 % 60) + "m " else "")
                       + (if sec % 60 > 0 then Decimal(sec % 60) + "s " else "")
  {
    HeldRange(sec);
    hide Held, Decimal;
    if 0 < sec <= MAX_SECONDS {
      TextIs(sec);
      hide Text;
      UnitIs(sec / 86400, 'd');
      UnitIs(sec / 3600 % 24, 'h');
      UnitIs(sec / 60 % 60, 'm');
      UnitIs(sec % 60, 's');
      hide Unit;
    }
  }

  lemma UnitIs(n: int, name: char)
    ensures Unit(n, name) == if n > 0 then Decimal(n) + [name, ' '] else ""
  {
  }

  /** The quotients of the duration in hours and minutes, from its whole seconds. */
  lemma UnitsOfHeld(sec: int64)
    ensures var duration, t := Wrap(sec * SECOND), Held(sec);
      if t <= 0 then
        Quot(duration, HOUR) <= 0 && Quot(duration, MINUTE) <= 0 && Quot(duration, SECOND) <= 0
      else
        && Quot(duration, HOUR) == t / 3600 && Quot(duration, MINUTE) == t / 60 && Quot(duration, SECOND) == t
        && t / 3600 / 24 == t / 86400
  {
  }

  /** The four printed numbers give the text; none of them is positive when the
      duration holds no whole second. */
  lemma PartsOfHeld(sec: int64)
    ensures var duration := Wrap(sec * SECOND);
      var hours, minutes, seconds := Trunc(In(duration, HOUR)), Trunc(In(duration, MINUTE)), Trunc(In(duration, SECOND));
      Text(Held(sec)) == Unit(Quot(hours, 24), 'd') + Unit(Rem(hours, 24), 'h') + Unit(Rem(minutes, 60), 'm') + Unit(Rem(seconds, 60), 's')
  {
    var duration := Wrap(sec * SECOND);
    TruncatedUnit(duration, HOUR);
    TruncatedUnit(duration, MINUTE);
    TruncatedUnit(duration, SECOND);
    UnitsOfHeld(sec);
    var hours, minutes, seconds := Quot(duration, HOUR), Quot(duration, MINUTE), Quot(duration, SECOND);
    hide Held, In, Trunc, Wrap, Decimal;
    if Held(sec) <= 0 {
      assert Quot(hours, 24) <= 0 && Rem(hours, 24) <= 0 && Rem(minutes, 60) <= 0 && Rem(seconds, 60) <= 0;
    } else {
      assert Quot(hours, 24) == Held(sec) / 86400 && Rem(hours, 24) == Held(sec) / 3600 % 24
        && Rem(minutes, 60) == Held(sec) / 60 % 60 && Rem(seconds, 60) == Held(sec) % 60;
    }
  }

  // ---------------------------------------------------------------- reading the text back

  /** How many digits the text starts with. */
  function Digits(s: string): (n: nat)
    ensures n <= |s| && AllDigits(s[..n])
  {
    if s != [] && IsDigit(s[0]) then 1 + Digits(s[1..]) else 0
  }

  function DigitValue(c: char): nat
    requires IsDigit(c)
  {
    c as int - '0' as int
  }

  function Value(s: string): nat
    requires AllDigits(s)
  {
    if s == [] then 0 else 10 * Value(s[..|s| - 1]) + DigitValue(s[|s| - 1])
  }

  /** The seconds in n of the named unit. */
  function Seconds(n: nat, name: char): Option<nat> {
    match name
    case 'd' => Some(n * 86400)
    case 'h' => Some(n * 3600)
    case 'm' => Some(n * 60)
    case 's' => Some(n)
    case _ => None
  }

  datatype Read = Unreadable | Read(seconds: nat, rest: string)

  /** Reads one number with its unit and the space after it. */
  function ReadUnit(s: string): (r: Read)
    ensures r.Read? ==> |r.rest| < |s|
  {
    var n := Digits(s);
    if n == 0 || n + 1 >= |s| || s[n + 1] != ' ' then Unreadable
    else
      match Seconds(Value(s[..n]), s[n])
      case None => Unreadable
      case Some(seconds) => Read(seconds, s[n + 2..])
  }

  /** The number of seconds a printed text stands for. */
  function Parse(s: string): Option<nat>
    decreases |s|
  {
    if s == [] then Some(0)
    else
      match ReadUnit(s)
      case Unreadable => None
      case Read(seconds, rest) =>
        match Parse(rest)
        case None => None
        case Some(more) => Some(seconds + more)
  }

  lemma {:induction false} ValueOfDecimal(n: nat)
    ensures Value(Decimal(n)) == n
    decreases n
  {
    if n < 10 {
      assert [Digit(n)][..0] == [];
    } else {
      ValueOfDecimal(n / 10);
      var s := Decimal(n);
      assert s[..|s| - 1] == Decimal(n / 10);
    }
  }

  lemma {:induction false} DigitsAre(s: string, n: nat)
    requires n < |s| && !IsDigit(s[n]) && AllDigits(s[..n])
    ensures Digits(s) == n
    decreases n
  {
    if n > 0 {
      assert s[..n][0] == s[0] && s[..n][1..] == s[1..][..n - 1];
      DigitsAre(s[1..], n - 1);
    }
  }

  lemma ReadUnitIs(s: string, n: nat)
    requires n == Digits(s) && 0 < n && n + 1 < |s| && s[n + 1] == ' '
    requires Seconds(Value(s[..n]), s[n]).Some?
    ensures ReadUnit(s) == Read(Seconds(Value(s[..n]), s[n]).value, s[n + 2..])
  {
  }

  lemma UnitSplits(n: nat, name: char, rest: string)
    requires n > 0
    ensures var s, k := Unit(n, name) + rest, |Decimal(n)|;
      k + 1 < |s| && s[..k] == Decimal(n) && s[k] == name && s[k + 1] == ' ' && s[k + 2..] == rest
  {
    hide Decimal;
  }

  lemma ReadPiece(s: string, n: nat)
    requires 0 < n && n + 1 < |s| && s[n + 1] == ' '
    requires AllDigits(s[..n]) && Seconds(Value(s[..n]), s[n]).Some?
    ensures ReadUnit(s) == Read(Seconds(Value(s[..n]), s[n]).value, s[n + 2..])
  {
    assert !IsDigit(s[n]);
    hide *;
    DigitsAre(s, n);
    ReadUnitIs(s, n);
  }

  lemma ParseStep(s: string)
    requires ReadUnit(s).Read? && Parse(ReadUnit(s).rest).Some?
    ensures Parse(s) == Some(ReadUnit(s).seconds + Parse(ReadUnit(s).rest).value)
  {
    hide ReadUnit;
  }

  lemma NoUnit(name: char, rest: string)
    requires Seconds(0, name).Some?
    ensures Unit(0, name) + rest == rest && Seconds(0, name).value == 0
  {
  }

  lemma ParseUnit(n: nat, name: char, rest: string)
    requires Seconds(n, name).Some? && Parse(rest).Some?
    ensures Parse(Unit(n, name) + rest) == Some(Seconds(n, name).value + Parse(rest).value)
  {
    hide *;
    if n == 0 {
      NoUnit(name, rest);
    } else {
      UnitSplits(n, name, rest);
      ValueOfDecimal(n);
      ReadPiece(Unit(n, name) + rest, |Decimal(n)|);
      ParseStep(Unit(n, name) + rest);
    }
  }

  lemma ParseNothing()
    ensures Parse("") == Some(0)
  {
  }

  lemma ParseUnits(d: nat, h: nat, m: nat, s: nat)
    ensures Parse(Unit(d, 'd') + Unit(h, 'h') + Unit(m, 'm') + Unit(s, 's')) == Some(d * 86400 + h * 3600 + m * 60 + s)
  {
    hide Parse, Unit;
    var us := Unit(s, 's');
    var ums := Unit(m, 'm') + us;
    var uhms := Unit(h, 'h') + ums;
    ParseNothing();
    ParseUnit(s, 's', "");
    assert us + "" == us;
    ParseUnit(m, 'm', us);
    ParseUnit(h, 'h', ums);
    ParseUnit(d, 'd', uhms);
    assert Unit(d, 'd') + uhms == Unit(d, 'd') + Unit(h, 'h') + Unit(m, 'm') + Unit(s, 's');
  }

  /** Reading a text back gives the seconds it was printed for. */
  lemma ParseText(seconds: nat)
    ensures Parse(Text(seconds)) == Some(seconds)
  {
    var d, h, m, s := Decompose(seconds);
    hide Parse, Unit, Text;
    ParseUnits(d, h, m, s);
  }

  /** The text shows days, hours, minutes and seconds in their ranges, with nothing lost. */
  lemma Decompose(seconds: nat) returns (d: nat, h: nat, m: nat, s: nat)
    ensures Text(seconds) == Unit(d, 'd') + Unit(h, 'h') + Unit(m, 'm') + Unit(s, 's')
    ensures h < 24 && m < 60 && s < 60
    ensures seconds == 86400 * d + 3600 * h + 60 * m + s
  {
    d, h, m, s := seconds / 86400, seconds / 3600 % 24, seconds / 60 % 60, seconds % 60;
    hide *;
    NestedDivision(seconds);
    TextIs(seconds);
  }

  lemma NestedDivision(n: nat)
    ensures n / 3600 == n / 60 / 60
    ensures n / 86400 == n / 3600 / 24
  {
  }

  lemma TextIs(seconds: nat)
    ensures Text(seconds) == Unit(seconds / 86400, 'd') + Unit(seconds / 3600 % 24, 'h') + Unit(seconds / 60 % 60, 'm') + Unit(seconds % 60, 's')
  {
  }

  lemma HeldRange(sec: int64)
    ensures Held(sec) <= MAX_SECONDS
    ensures 0 <= sec <= MAX_SECONDS ==> Held(sec) == sec
    ensures -MAX_SECONDS <= sec <= 0 ==> Held(sec) <= 0
  {
  }

  /** The printed text determines the number of seconds exactly from 0 up to the
      bound at which the nanoseconds overflow 64 bits. */
  lemma RoundTrip(sec: int64)
    ensures Parse(Text(Held(sec))) == Some(sec) <==> 0 <= sec <= MAX_SECONDS
  {
    HeldRange(sec);
    var t := if Held(sec) > 0 then Held(sec) else 0;
    assert Text(Held(sec)) == Text(t);
    hide Text, Parse, Held;
    ParseText(t);
  }

  lemma PrinterIsInjective(a: int64, b: int64)
    requires 0 <= a <= MAX_SECONDS && 0 <= b <= MAX_SECONDS && Text(Held(a)) == Text(Held(b))
    ensures a == b
  {
    RoundTrip(a);
    RoundTrip(b);
  }
}
