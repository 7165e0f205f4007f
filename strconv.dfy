/** The parts of Go's `strconv` package that the tag parser and the value
    coercion use: `ParseBool`, and `ParseUint`/`ParseInt` in base 10 with a
    bit size of 8, including the value each returns alongside its error. */
module Strconv {
  import opened Wrappers

  /** `strconv.ParseBool`: the twelve accepted literals. */
  function ParseBool(s: string): (r: Option<bool>)
    ensures r == Some(true) <==> s in {"1", "t", "T", "TRUE", "true", "True"}
    ensures r == Some(false) <==> s in {"0", "f", "F", "FALSE", "false", "False"}
  {
    if s in {"1", "t", "T", "TRUE", "true", "True"} then Some(true)
    else if s in {"0", "f", "F", "FALSE", "false", "False"} then Some(false)
    else None
  }

  /** The error kinds of strconv. A `RangeError` carries the clamped value
      that is returned with it; a syntax error comes with the value 0. */
  datatype NumResult = NumOk(n: int) | SyntaxError | RangeError(clamped: int)
  {
    /** The integer Go returns next to the error. */
    function Returned(): int {
      match this
      case NumOk(n) => n
      case SyntaxError => 0
      case RangeError(c) => c
    }
  }

  predicate IsDigit(c: char) { '0' <= c <= '9' }

  function DigitValue(c: char): nat
    requires IsDigit(c)
  {
    c as int - '0' as int
  }

  predicate AllDigits(s: string) {
    forall i :: 0 <= i < |s| ==> IsDigit(s[i])
  }

  /** The decimal value of a digit string. */
  function Decimal(s: string): nat
    requires AllDigits(s)
  {
    if s == [] then 0 else Decimal(s[..|s| - 1]) * 10 + DigitValue(s[|s| - 1])
  }

  /** The digit loop of `ParseUint` from accumulated value `n`: a character
      that is not a decimal digit is a syntax error, and the first prefix whose
      value exceeds `maxVal` stops the scan with a range error at once. */
  function ScanDecimal(s: string, n: nat, maxVal: nat): (r: NumResult)
    requires n <= maxVal
    ensures r.NumOk? ==> n <= r.n <= maxVal
    ensures r.RangeError? ==> r.clamped == maxVal
  {
    if s == [] then NumOk(n)
    else if !IsDigit(s[0]) then SyntaxError
    else
      var n1 := n * 10 + DigitValue(s[0]);
      if n1 > maxVal then RangeError(maxVal) else ScanDecimal(s[1..], n1, maxVal)
  }

  lemma {:induction false} ScanDecimalOk(s: string, n: nat, maxVal: nat, pre: string)
    requires n <= maxVal && AllDigits(pre) && Decimal(pre) == n
    requires ScanDecimal(s, n, maxVal).NumOk?
    ensures AllDigits(s) && AllDigits(pre + s) && ScanDecimal(s, n, maxVal).n == Decimal(pre + s)
  {
    if s == [] {
      assert pre + s == pre;
    } else {
      var pre' := pre + [s[0]];
      assert pre'[..|pre'| - 1] == pre;
      assert AllDigits(pre');
      ScanDecimalOk(s[1..], n * 10 + DigitValue(s[0]), maxVal, pre');
      assert pre' + s[1..] == pre + s;
    }
  }

  /** `strconv.ParseUint(s, 10, bitSize)` with `maxVal == 2^bitSize - 1`:
      the empty string is a syntax error, otherwise the digit loop decides. */
  function ParseUnsigned(s: string, maxVal: nat): (r: NumResult)
    ensures r.NumOk? ==> AllDigits(s) && s != [] && r.n == Decimal(s) && r.n <= maxVal
    ensures r.RangeError? ==> r.clamped == maxVal
    ensures s == [] ==> r == SyntaxError
  {
    if s == [] then SyntaxError
    else
      var r := ScanDecimal(s, 0, maxVal);
      if r.NumOk? then
        ScanDecimalOk(s, 0, maxVal, "");
        assert "" + s == s;
        r
      else r
  }

  const MaxUint8: nat := 255

  /** `strconv.ParseUint(s, 10, 8)`. */
  function ParseUint8(s: string): (r: NumResult)
    ensures r.NumOk? ==> AllDigits(s) && s != [] && r.n == Decimal(s) && r.n <= 255
    ensures r.RangeError? ==> r.clamped == 255
    ensures s == [] ==> r == SyntaxError
  {
    ParseUnsigned(s, MaxUint8)
  }

  /** Whether `s` is signed with a leading `-`. */
  predicate Negative(s: string) {
    s != [] && s[0] == '-'
  }

  /** `s` without its one optional leading sign. */
  function Unsigned(s: string): string {
    if s != [] && (s[0] == '+' || s[0] == '-') then s[1..] else s
  }

  /** `strconv.ParseInt(s, 10, 8)`: an optional sign, then `ParseUint` of
      the rest with the same bit size 8. Its syntax error is returned as is
      (value 0); its range error (value 255) or a value outside the int8
      range becomes a range error clamped to 127 or -128. */
  function ParseInt8(s: string): (r: NumResult)
    ensures r.NumOk? ==> -128 <= r.n <= 127
    ensures r.RangeError? ==> r.clamped == 127 || r.clamped == -128
    ensures s == [] ==> r == SyntaxError
  {
    if s == [] then SyntaxError
    else
      var neg := Negative(s);
      var u := ParseUint8(Unsigned(s));
      if u.SyntaxError? then SyntaxError
      else
        var un := u.Returned();
        if !neg && un >= 128 then RangeError(127)
        else if neg && un > 128 then RangeError(-128)
        else NumOk(if neg then -un else un)
  }

  /** Some non-empty prefix of `s` is all digits and worth more than
      `maxVal`: the digit loop overflows before it can meet a non-digit. */
  predicate Overflows(s: string, maxVal: nat) {
    exists j :: 0 < j <= |s| && AllDigits(s[..j]) && Decimal(s[..j]) > maxVal
  }

  /** The outcome of the unsigned parse: a value exactly for a non-empty digit
      string within range, a range error exactly when the digits overflow
      first, and a syntax error for the empty string or a non-digit met
      before any overflow. */
  lemma ParseUnsignedClasses(s: string, maxVal: nat)
    ensures var r := ParseUnsigned(s, maxVal);
            && (r.NumOk? <==> s != [] && AllDigits(s) && Decimal(s) <= maxVal)
            && (r.RangeError? <==> Overflows(s, maxVal))
            && (r.SyntaxError? <==> s == [] || (!AllDigits(s) && !Overflows(s, maxVal)))
  {
    if s != [] {
      assert "" + s == s;
      ScanRange("", s, maxVal);
      if AllDigits(s) && Decimal(s) <= maxVal {
        DecimalScan(s, 0, maxVal, "");
      }
      if AllDigits(s) && Decimal(s) > maxVal {
        assert s[..|s|] == s;
      }
    }
  }

  /** `ParseUint(s, 10, 8)` succeeds, with the value of the digits, exactly
      on non-empty digit strings worth at most 255. */
  lemma ParseUint8Digits(s: string)
    ensures ParseUint8(s).NumOk? <==> s != [] && AllDigits(s) && Decimal(s) <= 255
    ensures ParseUint8(s).RangeError? <==> Overflows(s, 255)
  {
    ParseUnsignedClasses(s, MaxUint8);
  }

  /** The outcome of `ParseInt(s, 10, 8)`: a value, with its sign, exactly
      for well-formed digits within the int8 range; a range error exactly
      for well-formed digits outside it or digits overflowing 255 before
      a non-digit; a syntax error otherwise. */
  lemma ParseInt8Classes(s: string)
    requires s != []
    ensures var digits := Unsigned(s);
            var bound := if Negative(s) then 128 else 127;
            var r := ParseInt8(s);
            && (r.NumOk? <==> digits != [] && AllDigits(digits) && Decimal(digits) <= bound)
            && (r.NumOk? ==> r.n == (if Negative(s) then -1 else 1) * Decimal(digits))
            && (r.RangeError? <==>
                  (digits != [] && AllDigits(digits) && Decimal(digits) > bound) || Overflows(digits, MaxUint8))
  {
    var digits := Unsigned(s);
    ParseUnsignedClasses(digits, MaxUint8);
    if Overflows(digits, MaxUint8) && AllDigits(digits) {
      var j :| 0 < j <= |digits| && AllDigits(digits[..j]) && Decimal(digits[..j]) > MaxUint8;
      assert digits[..j] + digits[j..] == digits;
      DecimalPrefix(digits[..j], digits[j..]);
    }
  }

  /** A well-formed decimal in the int8 range parses to its value. */
  lemma ParseInt8Digits(s: string)
    requires s != [] && AllDigits(s) && Decimal(s) <= 127
    ensures ParseInt8(s) == NumOk(Decimal(s))
  {
    assert IsDigit(s[0]);
    assert Unsigned(s) == s && !Negative(s);
    ParseInt8Classes(s);
  }

  /** A digit run that passes 255 before a non-digit is a range error, not
      a syntax error: the 8-bit digit loop stops before it meets the
      non-digit, and `ParseInt` clamps the 255 it returns. */
  lemma ParseInt8LateJunk()
    ensures ParseInt8("1000x") == RangeError(127)
    ensures ParseInt8("256x") == RangeError(127)
    ensures ParseInt8("-1000x") == RangeError(-128)
    ensures ParseUint8("256x") == RangeError(255)
  {
    assert ScanDecimal("1000x", 0, MaxUint8) == ScanDecimal("000x", 1, MaxUint8);
    assert ScanDecimal("000x", 1, MaxUint8) == ScanDecimal("00x", 10, MaxUint8);
    assert ScanDecimal("00x", 10, MaxUint8) == ScanDecimal("0x", 100, MaxUint8);
    assert ScanDecimal("256x", 0, MaxUint8) == ScanDecimal("56x", 2, MaxUint8);
    assert ScanDecimal("56x", 2, MaxUint8) == ScanDecimal("6x", 25, MaxUint8);
    assert Unsigned("-1000x") == "1000x";
  }

  /** The digit loop, started on digits `pre` that fit, stops with a range
      error exactly when some digit prefix of `pre + s` exceeds `maxVal`. */
  lemma {:induction false} ScanRange(pre: string, s: string, maxVal: nat)
    requires AllDigits(pre) && Decimal(pre) <= maxVal
    ensures ScanDecimal(s, Decimal(pre), maxVal).RangeError? <==> Overflows(pre + s, maxVal)
    decreases |s|
  {
    var n := Decimal(pre);
    if s == [] {
      assert pre + s == pre;
      PrefixesFit(pre, maxVal);
    } else if !IsDigit(s[0]) {
      PrefixesFit(pre, maxVal);
      forall j | |pre| < j <= |pre + s| ensures !AllDigits((pre + s)[..j]) {
        assert (pre + s)[..j][|pre|] == s[0];
      }
      forall j | 0 < j <= |pre| ensures (pre + s)[..j] == pre[..j] {
      }
    } else {
      var pre' := pre + [s[0]];
      assert pre'[..|pre'| - 1] == pre;
      assert AllDigits(pre');
      assert Decimal(pre') == n * 10 + DigitValue(s[0]);
      assert pre' + s[1..] == pre + s;
      if Decimal(pre') > maxVal {
        assert (pre + s)[..|pre'|] == pre';
      } else {
        ScanRange(pre', s[1..], maxVal);
      }
    }
  }

  /** No digit prefix of a string that fits exceeds it. */
  lemma PrefixesFit(pre: string, maxVal: nat)
    requires AllDigits(pre) && Decimal(pre) <= maxVal
    ensures !Overflows(pre, maxVal)
  {
    forall j | 0 < j <= |pre| ensures Decimal(pre[..j]) <= maxVal {
      assert pre[..j] + pre[j..] == pre;
      DecimalPrefix(pre[..j], pre[j..]);
    }
  }

  lemma {:induction false} DecimalScan(s: string, n: nat, maxVal: nat, pre: string)
    requires n <= maxVal && AllDigits(pre) && Decimal(pre) == n
    requires AllDigits(s) && AllDigits(pre + s) && Decimal(pre + s) <= maxVal
    ensures ScanDecimal(s, n, maxVal) == NumOk(Decimal(pre + s))
  {
    if s == [] {
      assert pre + s == pre;
    } else {
      var pre' := pre + [s[0]];
      assert pre'[..|pre'| - 1] == pre;
      assert AllDigits(pre');
      assert pre' + s[1..] == pre + s;
      DecimalPrefix(pre', s[1..]);
      DecimalScan(s[1..], n * 10 + DigitValue(s[0]), maxVal, pre');
    }
  }

  /** Extending a digit string never makes its value smaller. */
  lemma {:induction false} DecimalPrefix(a: string, b: string)
    requires AllDigits(a + b)
    ensures AllDigits(a) && Decimal(a) <= Decimal(a + b)
  {
    assert forall i :: 0 <= i < |a| ==> (a + b)[i] == a[i];
    if b == [] {
      assert a + b == a;
    } else {
      var ab := a + b;
      assert ab[..|ab| - 1] == a + b[..|b| - 1];
      assert AllDigits(a + b[..|b| - 1]);
      DecimalPrefix(a, b[..|b| - 1]);
    }
  }
}
