/**
 * Vocabulary shared by every module of the wallet saga model: nullable values,
 * results that carry a Java exception, exact money amounts, 32-bit integers,
 * the way concatenation prints numbers, and query results in id order.
 */
module Base {

  /** A nullable reference: `None` stands for Java's `null`. */
  datatype Option<+T> = None | Some(value: T)

  /** A Java call that either returns a value or throws. */
  datatype Result<+T> = Ok(value: T) | Err(error: Exception)

  /** The exception classes the modelled code throws or lets escape. */
  datatype ExceptionKind =
    | RuntimeException
    | IllegalArgumentException
    | NullPointerException
    | ClassCastException
    | NumberFormatException
    | DataAccessException

  /** A thrown exception: its class and what `getMessage()` returns. */
  datatype Exception = Exception(kind: ExceptionKind, message: string)

  function Runtime(message: string): Exception
  {
    Exception(RuntimeException, message)
  }

  function IllegalArgument(message: string): Exception
  {
    Exception(IllegalArgumentException, message)
  }

  /**
   * `BigDecimal` amounts and balances. The code only adds, subtracts and
   * compares them, which is exact on reals as it is on `BigDecimal`.
   */
  type Money = real

  /** Java's `int` / `Integer` range. */
  type Int32 = x: int | -0x8000_0000 <= x < 0x8000_0000

  /** `x++` on an `Integer`: one more, modulo 2^32 (it wraps at the top of the range). */
  function IncrementInt32(x: Int32): (r: Int32)
    ensures (r - x - 1) % 0x1_0000_0000 == 0
    ensures x < 0x7fff_ffff ==> r == x + 1
  {
    if x == 0x7fff_ffff then -0x8000_0000 else x + 1
  }

  function DigitChar(d: int): char
    requires 0 <= d < 10
  {
    "0123456789"[d]
  }

  /** Decimal text of a natural number. */
  function NatToString(n: nat): string
    decreases n
  {
    if n < 10 then [DigitChar(n)] else NatToString(n / 10) + [DigitChar(n % 10)]
  }

  /** How string concatenation prints a `Long`. */
  function Show(n: int): string
  {
    if n < 0 then "-" + NatToString(-n) else NatToString(n)
  }

  /** How string concatenation prints a possibly-null `Long`. */
  function ShowNullable(n: Option<int>): string
  {
    match n
    case None => "null"
    case Some(v) => Show(v)
  }

  predicate IsDigit(c: char)
  {
    '0' <= c <= '9'
  }

  predicate AllDigits(s: string)
  {
    forall i :: 0 <= i < |s| ==> IsDigit(s[i])
  }

  /** The value of a string of decimal digits. */
  function DigitsValue(s: string): nat
    requires AllDigits(s)
    decreases |s|
  {
    if |s| == 0 then 0 else DigitsValue(s[..|s| - 1]) * 10 + (s[|s| - 1] as int - '0' as int)
  }

  /**
   * `Long.parseLong` on ASCII text: an optional sign followed by at least one
   * digit; anything else is `None` (a NumberFormatException).
   */
  function ParseInteger(s: string): (r: Option<int>)
    ensures r.Some? ==> |s| > 0
  {
    if |s| > 0 && (s[0] == '-' || s[0] == '+') then
      (if |s| > 1 && AllDigits(s[1..])
       then (var v: int := DigitsValue(s[1..]); Some(if s[0] == '-' then -v else v))
       else None)
    else if |s| > 0 && AllDigits(s) then Some(DigitsValue(s))
    else None
  }

  lemma {:induction false} NatToStringDigits(n: nat)
    ensures |NatToString(n)| > 0 && AllDigits(NatToString(n))
    ensures DigitsValue(NatToString(n)) == n
    decreases n
  {
    var s := NatToString(n);
    if n >= 10 {
      NatToStringDigits(n / 10);
      var prefix := NatToString(n / 10);
      assert s == prefix + [DigitChar(n % 10)];
      assert s[..|s| - 1] == prefix;
    }
  }

  /** Printing a `Long` and parsing the text back gives the same number. */
  lemma ShowParseRoundTrip(n: int)
    ensures ParseInteger(Show(n)) == Some(n)
  {
    if n < 0 {
      var digits := NatToString(-n);
      NatToStringDigits(-n);
      assert Show(n) == "-" + digits;
      assert Show(n)[0] == '-' && Show(n)[1..] == digits;
      assert |Show(n)| > 1 && AllDigits(Show(n)[1..]);
    } else {
      var digits := NatToString(n);
      NatToStringDigits(n);
      assert Show(n) == digits;
      assert IsDigit(digits[0]);
    }
  }

  /** The first position of `s` holding one of `marks`, if any. */
  function FirstIndex(s: string, marks: set<char>): (r: Option<nat>)
    ensures r.Some? ==> r.value < |s| && s[r.value] in marks && forall j :: 0 <= j < r.value ==> s[j] !in marks
    ensures r.None? ==> forall j :: 0 <= j < |s| ==> s[j] !in marks
    decreases |s|
  {
    if |s| == 0 then None
    else if s[0] in marks then Some(0)
    else
      match FirstIndex(s[1..], marks)
      case None => None
      case Some(i) => Some(i + 1)
  }

  /** Ten to the power `e`. */
  function Pow10(e: nat): (r: nat)
    ensures r >= 1
  {
    if e == 0 then 1 else 10 * Pow10(e - 1)
  }

  /**
   * The unsigned significand of `new BigDecimal(text)`: digits with at most
   * one point and at least one digit ("12", "1.5", ".5", "5."), read as the
   * whole number the digits spell divided by ten to the count of digits after
   * the point.
   */
  function ParseSignificand(s: string): (r: Option<real>)
    ensures r.Some? ==> r.value >= 0.0
  {
    match FirstIndex(s, {'.'})
    case None => if |s| > 0 && AllDigits(s) then Some(DigitsValue(s) as real) else None
    case Some(p) =>
      var whole, fraction := s[..p], s[p + 1..];
      if |whole| + |fraction| > 0 && AllDigits(whole + fraction)
      then Some((DigitsValue(whole + fraction) as real) / (Pow10(|fraction|) as real))
      else None
  }

  /** `m` times ten to the power `x`, for an exponent of either sign. */
  function Scaled(m: real, x: int): real
  {
    if x >= 0 then m * (Pow10(x) as real) else m / (Pow10(-x) as real)
  }

  /**
   * `new BigDecimal(text)` on ASCII text: an optional sign before an unsigned
   * decimal; anything else is `None` (a NumberFormatException).
   */
  function ParseDecimalText(s: string): (r: Option<real>)
  {
    if |s| > 0 && (s[0] == '-' || s[0] == '+') then
      match ParseUnsignedDecimal(s[1..])
      case None => None
      case Some(v) => Some(if s[0] == '-' then -v else v)
    else ParseUnsignedDecimal(s)
  }

  /**
   * An unsigned decimal: a significand, then optionally an exponent (`e` or
   * `E`, an optional sign, at least one digit) that scales it.
   */
  function ParseUnsignedDecimal(s: string): (r: Option<real>)
    ensures r.Some? ==> |s| > 0
  {
    match FirstIndex(s, {'e', 'E'})
    case None => ParseSignificand(s)
    case Some(p) =>
      match ParseSignificand(s[..p])
      case None => None
      case Some(m) =>
        match ParseInteger(s[p + 1..])
        case None => None
        case Some(x) => Some(Scaled(m, x))
  }

  /** Digits alone, with no point or exponent, are the number they spell. */
  lemma DigitsAreDecimal(s: string)
    requires |s| > 0 && AllDigits(s)
    ensures ParseUnsignedDecimal(s) == Some(DigitsValue(s) as real)
  {
    assert forall j :: 0 <= j < |s| ==> s[j] !in {'e', 'E'} && s[j] !in {'.'} by {
      forall j | 0 <= j < |s|
        ensures s[j] !in {'e', 'E'} && s[j] !in {'.'}
      {
        assert IsDigit(s[j]);
      }
    }
  }

  /** Text `Long.parseLong` accepts is read by `new BigDecimal` as the same number. */
  lemma IntegerTextIsDecimal(s: string)
    requires ParseInteger(s).Some?
    ensures ParseDecimalText(s) == Some(ParseInteger(s).value as real)
  {
    if s[0] == '-' || s[0] == '+' {
      DigitsAreDecimal(s[1..]);
    } else {
      DigitsAreDecimal(s);
    }
  }

  /** Decimal text with a fraction, which `Long.parseLong` refuses, is read as the number it spells. */
  lemma FractionTextIsDecimal()
    ensures ParseDecimalText("1.5") == Some(1.5) && ParseInteger("1.5").None?
  {
    var s := "1.5";
    assert s[0] == '1' && s[1] == '.' && s[2] == '5';
    assert FirstIndex(s, {'e', 'E'}) == None;
    PointSplitsSignificand(s, "1", "5");
    assert DigitsValue("15") == 15 by { assert "15"[..1] == "1"; }
    assert !IsDigit(s[1]);
  }

  /** So is text with an exponent, of either sign. */
  lemma ExponentTextIsDecimal()
    ensures ParseDecimalText("-2.5E2") == Some(-250.0)
  {
    var u := "2.5E2";
    assert "-2.5E2"[1..] == u;
    assert u[0] == '2' && u[1] == '.' && u[2] == '5' && u[3] == 'E';
    assert FirstIndex(u, {'e', 'E'}) == Some(3);
    assert u[..3] == "2.5" && u[4..] == "2";
    assert ParseInteger("2") == Some(2);
    SignificandWithPoint();
    assert Pow10(2) == 100;
    assert Scaled(2.5, 2) == 250.0;
  }

  /** A significand with a point divides the digits by ten per fraction digit. */
  lemma SignificandWithPoint()
    ensures ParseSignificand("2.5") == Some(2.5)
  {
    var s := "2.5";
    assert s[0] == '2' && s[1] == '.' && s[2] == '5';
    PointSplitsSignificand(s, "2", "5");
    assert DigitsValue("25") == 25 by { assert "25"[..1] == "2"; }
  }

  /** A significand whose one point sits between `whole` and `fraction` is read from their digits. */
  lemma PointSplitsSignificand(s: string, whole: string, fraction: string)
    requires s == whole + "." + fraction && '.' !in whole
    ensures FirstIndex(s, {'.'}) == Some(|whole|)
    ensures ParseSignificand(s) == if |whole| + |fraction| > 0 && AllDigits(whole + fraction)
      then Some((DigitsValue(whole + fraction) as real) / (Pow10(|fraction|) as real)) else None
  {
    assert s[|whole|] == '.';
    assert forall j :: 0 <= j < |whole| ==> s[j] == whole[j];
    assert s[..|whole|] == whole && s[|whole| + 1..] == fraction;
  }

  /** A point with no digit around it is not a number. */
  lemma LonePointIsNotDecimal()
    ensures ParseDecimalText(".") == None && ParseDecimalText("-.") == None
  {
    assert FirstIndex(".", {'.'}) == Some(0);
    assert "-."[1..] == ".";
  }

  /**
   * The positions of `s` whose element satisfies `p`, in ascending order:
   * the result of a repository query over a table whose ids are its positions.
   */
  function Positions<T>(s: seq<T>, p: T -> bool): (r: seq<nat>)
    ensures forall k :: 0 <= k < |r| ==> r[k] < |s| && p(s[r[k]])
    ensures forall j :: 0 <= j < |s| && p(s[j]) ==> j in r
    ensures forall k, l :: 0 <= k < l < |r| ==> r[k] < r[l]
    decreases |s|
  {
    if |s| == 0 then []
    else Positions(s[..|s| - 1], p) + (if p(s[|s| - 1]) then [|s| - 1] else [])
  }

  /** Where no element satisfies `p`, there is no position. */
  lemma {:induction false} PositionsOfNone<T>(s: seq<T>, p: T -> bool)
    requires forall j :: 0 <= j < |s| ==> !p(s[j])
    ensures Positions(s, p) == []
    decreases |s|
  {
    if |s| > 0 {
      PositionsOfNone(s[..|s| - 1], p);
    }
  }

  /** A stream `filter`: the elements of `s` that satisfy `p`, in their order. */
  function Filter<T>(s: seq<T>, p: T -> bool): (r: seq<T>)
    ensures forall k :: 0 <= k < |r| ==> r[k] in s && p(r[k])
    ensures forall j :: 0 <= j < |s| && p(s[j]) ==> s[j] in r
    ensures |r| <= |s|
    decreases |s|
  {
    if |s| == 0 then []
    else (if p(s[0]) then [s[0]] else []) + Filter(s[1..], p)
  }

  /** `s` back to front. */
  function Reversed<T>(s: seq<T>): (r: seq<T>)
    decreases |s|
  {
    if s == [] then [] else Reversed(s[1..]) + [s[0]]
  }

  lemma {:induction false} ReversedAt<T>(s: seq<T>, k: nat)
    requires k < |s|
    ensures |Reversed(s)| == |s| && Reversed(s)[k] == s[|s| - 1 - k]
  {
    if k < |s| - 1 {
      ReversedAt(s[1..], k);
    } else {
      ReversedLength(s[1..]);
    }
  }

  lemma {:induction false} ReversedLength<T>(s: seq<T>)
    ensures |Reversed(s)| == |s|
    decreases |s|
  {
    if s != [] {
      ReversedLength(s[1..]);
    }
  }

  /** Reversing a concatenation reverses each part and swaps them. */
  lemma {:induction false} ReversedConcat<T>(s: seq<T>, t: seq<T>)
    ensures Reversed(s + t) == Reversed(t) + Reversed(s)
    decreases |s|
  {
    if s == [] {
      assert s + t == t;
    } else {
      assert (s + t)[1..] == s[1..] + t;
      ReversedConcat(s[1..], t);
    }
  }
}
