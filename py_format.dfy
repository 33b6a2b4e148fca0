/**
 * The two pieces of Python string behaviour the watch client relies on:
 * `str()` of an integer (the millisecond timestamp) and `str.format` with
 * positional replacement fields such as `{0}` and `{1}`.
 */
module PyFormat {
  import opened Wrappers

  predicate IsDigit(c: char) { '0' <= c <= '9' }

  predicate AllDigits(s: string) { forall i :: 0 <= i < |s| ==> IsDigit(s[i]) }

  /** No character of `s` is a replacement-field delimiter. */
  predicate BraceFree(s: string) { '{' !in s && '}' !in s }

  function DigitChar(d: nat): (c: char)
    requires d < 10
    ensures IsDigit(c)
  {
    (('0' as int) + d) as char
  }

  function DigitValue(c: char): (d: nat)
    requires IsDigit(c)
    ensures d < 10
  {
    (c as int) - ('0' as int)
  }

  /** `str(n)` for a non-negative Python int: decimal digits, no leading zero. */
  function NatToDecimal(n: nat): (s: string)
    ensures |s| >= 1 && AllDigits(s)
    ensures |s| > 1 ==> s[0] != '0'
    decreases n
  {
    if n < 10 then [DigitChar(n)] else NatToDecimal(n / 10) + [DigitChar(n % 10)]
  }

  /** The number a string of decimal digits denotes. */
  function DecimalValue(s: string): nat
    requires AllDigits(s)
    decreases |s|
  {
    if s == [] then 0 else DecimalValue(s[..|s| - 1]) * 10 + DigitValue(s[|s| - 1])
  }

  /** Reading back the digits of `str(n)` gives `n`. */
  lemma {:induction false} DecimalValueOfNat(n: nat)
    ensures DecimalValue(NatToDecimal(n)) == n
  {
    var s := NatToDecimal(n);
    if n >= 10 {
      DecimalValueOfNat(n / 10);
      assert s[..|s| - 1] == NatToDecimal(n / 10);
    }
  }

  /** `str(n)` for any Python int: a minus sign before the digits of a negative number. */
  function IntToDecimal(n: int): (s: string)
    ensures |s| >= 1 && BraceFree(s) && '.' !in s
    ensures n >= 0 ==> AllDigits(s)
    ensures n < 0 ==> s[0] == '-' && AllDigits(s[1..])
  {
    if n < 0 then "-" + NatToDecimal(-n) else NatToDecimal(n)
  }

  /** `str` is injective on ints: distinct timestamps print differently. */
  lemma IntToDecimalInjective(a: int, b: int)
    ensures IntToDecimal(a) == IntToDecimal(b) <==> a == b
  {
    if IntToDecimal(a) == IntToDecimal(b) {
      if a >= 0 && b >= 0 {
        DecimalValueOfNat(a);
        DecimalValueOfNat(b);
      } else if a < 0 && b < 0 {
        assert NatToDecimal(-a) == IntToDecimal(a)[1..];
        assert NatToDecimal(-b) == IntToDecimal(b)[1..];
        DecimalValueOfNat(-a);
        DecimalValueOfNat(-b);
      }
    }
  }

  /** Why `str.format` raises (ValueError or IndexError in Python). */
  datatype FormatError =
    | UnmatchedOpen      // a '{' whose field is never closed
    | UnmatchedClose     // a single '}' outside any field
    | IndexOutOfRange    // `{k}` with k at least the number of arguments
    | UnsupportedField   // any field other than `{digits}`; see the README

  /**
   * Index of the '}' that closes a field opened before position `i`, with
   * `depth` fields still open; `|t|` when the field is never closed.
   */
  function MatchingClose(t: string, i: nat, depth: nat): (j: nat)
    requires i <= |t| && depth >= 1
    ensures i <= j <= |t|
    ensures j < |t| ==> t[j] == '}'
    decreases |t| - i
  {
    if i == |t| then |t|
    else if t[i] == '{' then MatchingClose(t, i + 1, depth + 1)
    else if t[i] == '}' then (if depth == 1 then i else MatchingClose(t, i + 1, depth - 1))
    else MatchingClose(t, i + 1, depth)
  }

  /** Puts `p` in front of a successful result; passes an error through. */
  function Prefixed(p: string, r: Result<string, FormatError>): Result<string, FormatError>
  {
    match r
    case Success(s) => Success(p + s)
    case Failure(e) => Failure(e)
  }

  /**
   * `t.format(*args)`, where each argument has already been turned into its
   * `str()`. Literal text is copied, `{{` and `}}` stand for one brace, and
   * `{k}` is replaced by `args[k]`; the first malformed piece, scanning from
   * the left, decides the error.
   */
  function Format(t: string, args: seq<string>): Result<string, FormatError>
    decreases |t|
  {
    if t == [] then Success([])
    else if t[0] == '{' && |t| >= 2 && t[1] == '{' then Prefixed("{", Format(t[2..], args))
    else if t[0] == '}' && |t| >= 2 && t[1] == '}' then Prefixed("}", Format(t[2..], args))
    else if t[0] == '}' then Failure(UnmatchedClose)
    else if t[0] == '{' then
      var j := MatchingClose(t, 1, 1);
      if j == |t| then Failure(UnmatchedOpen)
      else
        var field := t[1..j];
        if field == [] || !AllDigits(field) then Failure(UnsupportedField)
        else if DecimalValue(field) >= |args| then Failure(IndexOutOfRange)
        else Prefixed(args[DecimalValue(field)], Format(t[j + 1..], args))
    else Prefixed([t[0]], Format(t[1..], args))
  }

  /** A string without braces formats to itself, whatever the arguments. */
  lemma {:induction false} FormatBraceFree(t: string, args: seq<string>)
    requires BraceFree(t)
    ensures Format(t, args) == Success(t)
    decreases |t|
  {
    if t != [] {
      assert t == [t[0]] + t[1..];
      FormatBraceFree(t[1..], args);
    }
  }

  /** Brace-free literal text in front of a template is copied unchanged. */
  lemma {:induction false} FormatLiteralPrefix(a: string, b: string, args: seq<string>)
    requires BraceFree(a)
    ensures Format(a + b, args) == Prefixed(a, Format(b, args))
  {
    if a == [] {
      assert a + b == b;
      match Format(b, args)
      case Success(s) => assert a + s == s;
      case Failure(_) =>
    } else {
      assert (a + b)[1..] == a[1..] + b;
      FormatLiteralPrefix(a[1..], b, args);
      match Format(b, args)
      case Success(s) => assert [a[0]] + (a[1..] + s) == a + s;
      case Failure(_) =>
    }
  }

  /** With one field open, the scan stops at the first '}' when no brace comes before it. */
  lemma {:induction false} ClosesAt(t: string, i: nat, j: nat)
    requires i <= j < |t| && t[j] == '}'
    requires forall k :: i <= k < j ==> t[k] != '{' && t[k] != '}'
    ensures MatchingClose(t, i, 1) == j
    decreases j - i
  {
    if i < j {
      ClosesAt(t, i + 1, j);
    }
  }

  /** A positional field `{k}`, with `k` written in decimal, is replaced by the k-th argument. */
  lemma FormatPositionalField(k: nat, b: string, args: seq<string>)
    requires k < |args|
    ensures Format("{" + NatToDecimal(k) + "}" + b, args) == Prefixed(args[k], Format(b, args))
  {
    var digits := NatToDecimal(k);
    var t := "{" + digits + "}" + b;
    var j := |digits| + 1;
    assert t[0] == '{' && t[1] == digits[0] && t[j] == '}';
    forall m | 1 <= m < j ensures t[m] != '{' && t[m] != '}' {
      assert t[m] == digits[m - 1] && IsDigit(digits[m - 1]);
    }
    ClosesAt(t, 1, j);
    assert t[1..j] == digits;
    DecimalValueOfNat(k);
    assert t[j + 1..] == b;
  }
}
