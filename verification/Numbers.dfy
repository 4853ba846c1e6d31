/** Numbers as text: fill_numbuf of lib.c, and reading its digits back. */
module Numbers {
  import opened Words

  const NUMBUFSIZ := 24

  /** A base fill_numbuf is called with; negative for lower-case digits. From 7 on, 64-bit values fit
      the buffer. */
  type Base = b: int | 7 <= b <= 16 || -16 <= b <= -7 witness 10

  function Radix(b: Base): (r: nat)
    ensures 7 <= r <= 16
  {
    var n: int := b;
    if n < 0 then -n else n
  }

  /** The digit characters of the two tables. */
  function DigitChar(v: nat, lower: bool): char
    requires v < 16
  {
    if lower then "0123456789abcdef"[v] else "0123456789ABCDEF"[v]
  }

  /** The digits of a value, most significant first; "0" for zero. */
  function Digits(val: nat, b: Base): (s: string)
    ensures |s| > 0
    decreases val
  {
    var last := [DigitChar(val % Radix(b), b < 0)];
    if val < Radix(b) then last else Digits(val / Radix(b), b) + last
  }

  /** The value of a digit in either table. */
  function DigitValue(c: char): Option<nat> {
    if '0' <= c <= '9' then Some((c - '0') as nat)
    else if 'a' <= c <= 'f' then Some((c - 'a') as nat + 10)
    else if 'A' <= c <= 'F' then Some((c - 'A') as nat + 10)
    else None
  }

  /** The number a string denotes in a base, as int(s, base) reads a string of digits. */
  function ParseNumber(s: string, radix: nat): Option<nat> {
    if s == "" then None
    else
      match DigitValue(s[|s| - 1])
      case None => None
      case Some(d) =>
        if d >= radix then None
        else if |s| == 1 then Some(d)
        else
          match ParseNumber(s[..|s| - 1], radix)
          case None => None
          case Some(n) => Some(n * radix + d)
  }

  lemma DigitRoundTrip(v: nat, lower: bool)
    requires v < 16
    ensures DigitValue(DigitChar(v, lower)) == Some(v)
    ensures '0' <= DigitChar(v, lower) <= '9' <==> v < 10
    ensures DigitChar(v, lower) == '0' <==> v == 0
    ensures DigitChar(v, lower) !in " -+\n"
  {
  }

  lemma DivideLess(val: nat, r: nat)
    requires r >= 2 && val >= r
    ensures val / r < val && val == val / r * r + val % r && val / r > 0
  {
  }

  /** What fill_numbuf writes reads back as the value, in every base; no digit is superfluous. */
  lemma {:induction false} DigitsRoundTrip(val: nat, b: Base)
    ensures ParseNumber(Digits(val, b), Radix(b)) == Some(val)
    ensures Digits(val, b)[0] == '0' ==> val == 0 && Digits(val, b) == "0"
    decreases val
  {
    var r := Radix(b);
    if val < r {
      SmallRoundTrip(val, b);
    } else {
      DivideLess(val, r);
      DigitsStep(val, b);
      DigitRoundTrip(val % r, b < 0);
      hide Digits, ParseNumber, DigitChar, DigitValue, Radix;
      DigitsRoundTrip(val / r, b);
      ParseLast(Digits(val / r, b), DigitChar(val % r, b < 0), r);
    }
  }

  lemma {:induction false} SmallRoundTrip(val: nat, b: Base)
    requires val < Radix(b)
    ensures ParseNumber(Digits(val, b), Radix(b)) == Some(val)
    ensures Digits(val, b)[0] == '0' ==> val == 0 && Digits(val, b) == "0"
  {
    SmallDigits(val, b);
    DigitRoundTrip(val, b < 0);
    hide Digits, DigitChar, DigitValue, Radix;
  }

  lemma {:induction false} SmallDigits(val: nat, b: Base)
    requires val < Radix(b)
    ensures Digits(val, b) == [DigitChar(val, b < 0)]
  {
    assert val % Radix(b) == val;
    hide DigitChar, Radix;
  }

  lemma {:induction false} DigitsStep(val: nat, b: Base)
    requires val >= Radix(b)
    ensures Digits(val, b) == Digits(val / Radix(b), b) + [DigitChar(val % Radix(b), b < 0)]
  {
  }

  lemma {:induction false} ParseLast(s: string, c: char, radix: nat)
    requires s != "" && ParseNumber(s, radix).Some? && DigitValue(c).Some? && DigitValue(c).value < radix
    ensures ParseNumber(s + [c], radix) == Some(ParseNumber(s, radix).value * radix + DigitValue(c).value)
  {
    assert (s + [c])[..|s + [c]| - 1] == s;
    hide DigitValue;
  }

  /** No blank, sign or newline is a digit. */
  lemma {:induction false} DigitsArePlain(val: nat, b: Base, k: nat)
    requires k < |Digits(val, b)|
    ensures Digits(val, b)[k] !in " -+\n\0"
    decreases val
  {
    var s, r := Digits(val, b), Radix(b);
    DigitRoundTrip(val % r, b < 0);
    if val >= r && k < |s| - 1 {
      DivideLess(val, r);
      DigitsArePlain(val / r, b, k);
    }
  }

  function Power(r: nat, k: nat): nat {
    if k == 0 then 1 else r * Power(r, k - 1)
  }

  lemma {:induction false} FewDigits(val: nat, b: Base, k: nat)
    requires k > 0 && val < Power(Radix(b), k)
    ensures |Digits(val, b)| <= k
    decreases k
  {
    var r := Radix(b);
    if val >= r {
      DivideLess(val, r);
      if k > 1 {
        QuotientBound(val, r, Power(r, k - 1));
        FewDigits(val / r, b, k - 1);
      }
    }
  }

  lemma QuotientBound(val: nat, r: nat, p: nat)
    requires r > 0 && val < r * p
    ensures val / r < p
  {
    var q := val / r;
    assert val == q * r + val % r;
    if q >= p {
      MulMonotone(p, q, r, r);
      assert false;
    }
  }

  lemma MulMonotone(a: nat, b: nat, x: nat, y: nat)
    requires a <= b && x <= y
    ensures a * x <= b * y
  {
    assert b * y == a * x + a * (y - x) + (b - a) * y;
  }

  lemma {:induction false} PowerMonotone(r: nat, s: nat, k: nat)
    requires r <= s
    ensures Power(r, k) <= Power(s, k)
    decreases k
  {
    if k > 0 {
      PowerMonotone(r, s, k - 1);
      MulMonotone(r, s, Power(r, k - 1), Power(s, k - 1));
    }
  }

  lemma SevenToThe23()
    ensures Power(7, 23) == 27368747340080916343
  {
    assert Power(7, 5) == 16807;
    assert Power(7, 10) == 282475249;
    assert Power(7, 15) == 4747561509943;
    assert Power(7, 20) == 79792266297612001;
  }

  /** A 64-bit value has at most 23 digits, so that digits and NUL fit the buffer of 24. */
  lemma {:induction false} FitsBuffer(val: nat, b: Base)
    requires val < 0x1_0000_0000_0000_0000
    ensures |Digits(val, b)| < NUMBUFSIZ
  {
    SevenToThe23();
    PowerMonotone(7, Radix(b), 23);
    FewDigits(val, b, 23);
  }

  /** fill_numbuf: the digits end right before the NUL in the last place; it never leaves the buffer. */
  method FillNumbuf(numbuf: array<char>, val0: nat, base: Base) returns (start: nat)
    requires numbuf.Length == NUMBUFSIZ && val0 < 0x1_0000_0000_0000_0000
    modifies numbuf
    ensures start + |Digits(val0, base)| == NUMBUFSIZ - 1
    ensures numbuf[start..NUMBUFSIZ - 1] == Digits(val0, base) && numbuf[NUMBUFSIZ - 1] == '\0'
    ensures forall k | 0 <= k < start :: numbuf[k] == old(numbuf[k])
  {
    var lower := base < 0;
    var radix := Radix(base);
    FitsBuffer(val0, base);
    var val := val0;
    start := NUMBUFSIZ - 1;
    numbuf[start] := '\0';
    ghost var done := "";
    assert Digits(val0, base) == Digits(val, base) + done;
    while true
      invariant start + |done| == NUMBUFSIZ - 1 && numbuf[start..NUMBUFSIZ - 1] == done
      invariant numbuf[NUMBUFSIZ - 1] == '\0' && Digits(val0, base) == Digits(val, base) + done
      invariant forall k | 0 <= k < start :: numbuf[k] == old(numbuf[k])
      decreases val
    {
      var digit := DigitChar(val % radix, lower);
      assert Digits(val, base)[|Digits(val, base)| - 1] == digit;
      start := start - 1;
      numbuf[start] := digit;
      done := [digit] + done;
      if val / radix == 0 {
        SmallQuotient(val, radix);
        assert Digits(val0, base) == done;
        return;
      }
      LargeQuotient(val, radix);
      DivideLess(val, radix);
      assert Digits(val0, base) == Digits(val / radix, base) + done;
      val := val / radix;
    }
  }

  lemma SmallQuotient(val: nat, r: nat)
    requires r >= 2 && val / r == 0
    ensures val < r
  {
    if val >= r {
      DivideLess(val, r);
    }
  }

  lemma LargeQuotient(val: nat, r: nat)
    requires r >= 2 && val / r != 0
    ensures val >= r
  {
  }
}
