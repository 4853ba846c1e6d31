/** What each conversion of a format prints: sign or base prefix, zeros, digits and blanks. */
module Conversions {
  import opened Words
  import opened Numbers
  import opened Printer

  /** What stands before the digits of a value: its sign under d and i; 0x under p, and under an
      alternate x other than 0; 0X under such an X. */
  function Before(c: char, fl: FormatFlags, value: int): string {
    if c == 'd' || c == 'i' then
      if value < 0 then "-" else if fl.plus then "+" else if fl.space then " " else ""
    else if c == 'p' || (c == 'x' && fl.alt && value != 0) then "0x"
    else if c == 'X' && fl.alt && value != 0 then "0X"
    else ""
  }

  function BaseOf(c: char): nat {
    if c == 'x' || c == 'X' || c == 'p' then 16 else 10
  }

  /** The digits a conversion writes with: lower-case letters under x and p, upper-case under X. */
  function Table(c: char): string {
    if c == 'x' || c == 'p' then "0123456789abcdef" else if c == 'X' then "0123456789ABCDEF" else "0123456789"
  }

  predicate WrittenIn(s: string, table: string) {
    forall k | 0 <= k < |s| :: s[k] in table
  }

  function Absolute(x: int): nat {
    if x < 0 then -x else x
  }

  /** A value in the digits of a conversion, none of them superfluous. */
  predicate Spells(digits: string, c: char, value: int) {
    && digits != "" && WrittenIn(digits, Table(c)) && ParseNumber(digits, BaseOf(c)) == Some(Absolute(value))
    && (digits[0] == '0' ==> digits == "0" && value == 0)
  }

  function AtLeastZero(x: int): nat {
    if x > 0 then x else 0
  }

  /** Blanks, prefix, zeros, digits; with the - flag the blanks come last. */
  function LaidOut(left: bool, pad: nat, before: string, zeros: nat, digits: string): string {
    (if left then "" else Fill(' ', pad)) + before + Fill('0', zeros) + digits + (if left then Fill(' ', pad) else "")
  }

  // ---- Digits ----

  lemma {:induction false} DigitsWritten(val: nat, b: Base)
    requires b in {10, 16, -16}
    ensures WrittenIn(Digits(val, b),
      if b == 16 then "0123456789ABCDEF" else if b == -16 then "0123456789abcdef" else "0123456789")
    decreases val
  {
    var r := Radix(b);
    DigitIn(val % r, b);
    if val >= r {
      DivideLess(val, r);
      DigitsWritten(val / r, b);
      DigitsStep(val, b);
    }
  }

  lemma DigitIn(v: nat, b: Base)
    requires b in {10, 16, -16} && v < Radix(b)
    ensures DigitChar(v, b < 0) in
      if b == 16 then "0123456789ABCDEF" else if b == -16 then "0123456789abcdef" else "0123456789"
  {
    var upper, lower, decimal := "0123456789ABCDEF", "0123456789abcdef", "0123456789";
    assert upper[v] in upper && lower[v] in lower && (v < 10 ==> decimal[v] == upper[v]);
  }

  // ---- Numbers ----

  /** The number a conversion takes, as the value its argument means. */
  lemma ConvertedNumber(c: char, long: bool, args: seq<Arg>, fl: FormatFlags)
    requires c in "diuxXp" && args != [] && args[0].Num?
    ensures var cv, value := Convert(c, long, args), Denoted(c, long, args[0].n);
      && cv.Conversion? && cv.rest == args[1..] && cv.item.Number?
      && cv.item.num == Absolute(value) && cv.item.base == (if c == 'X' then 16 else if c in "xp" then -16 else 10)
      && NumberPrefix(cv.item, fl) == Before(c, fl, value)
  {
  }

  lemma SpelledDigits(item: Item, c: char, value: int)
    requires item.Number? && c in "diuxXp" && item.num == Absolute(value)
    requires item.base == if c == 'X' then 16 else if c in "xp" then -16 else 10
    ensures Spells(Digits(item.num, item.base), c, value)
  {
    DigitsRoundTrip(item.num, item.base);
    DigitsWritten(item.num, item.base);
    hide Digits, ParseNumber, WrittenIn;
  }

  /** A numeric conversion under any flags, width and precision: the prefix, then zeros up to the
      precision, or without one and with the 0 flag but not the - flag up to the width, then the
      digits of the value, and blanks up to the width, in front or with the - flag behind. */
  lemma NumberText(c: char, long: bool, args: seq<Arg>, fl: FormatFlags, width: int, precision: int)
    returns (pad: nat, zeros: nat, digits: string)
    requires c in "diuxXp" && args != [] && args[0].Num?
    ensures var value := Denoted(c, long, args[0].n);
      var before := Before(c, fl, value);
      && Convert(c, long, args).Conversion?
      && Formatted(Convert(c, long, args).item, fl, width, precision) == LaidOut(fl.left, pad, before, zeros, digits)
      && Spells(digits, c, value) && |digits| == |Body(Convert(c, long, args).item)|
      && zeros == (if precision >= 0 then AtLeastZero(precision - |digits|)
                   else if fl.zero && !fl.left then AtLeastZero(width - |before| - |digits|) else 0)
      && pad == AtLeastZero(width - |before| - zeros - |digits|)
  {
    var item, value := Convert(c, long, args).item, Denoted(c, long, args[0].n);
    ConvertedNumber(c, long, args, fl);
    SpelledDigits(item, c, value);
    NumberFormatted(item, fl, width, precision);
    hide Convert, Denoted, NumberPrefix, Before, Digits, Spells, Fill, Formatted;
    pad, zeros, digits := Padding(item, fl, width, precision), Zeros(item, fl, width, precision),
        Digits(item.num, item.base);
  }

  /** With the 0 flag, without the - flag and a precision, a value that fits the width fills it: the
      prefix, then its digits with zeros before them, and no blank. */
  lemma ZeroPadded(c: char, long: bool, args: seq<Arg>, fl: FormatFlags, width: int)
    requires c in "diuxXp" && args != [] && args[0].Num? && fl.zero && !fl.left
    requires var value := Denoted(c, long, args[0].n);
      var room := width - |Before(c, fl, value)|;
      room > 0 && Absolute(value) < Power(BaseOf(c), room)
    ensures var value := Denoted(c, long, args[0].n);
      var before := Before(c, fl, value);
      && Convert(c, long, args).Conversion?
      && (var text := Formatted(Convert(c, long, args).item, fl, width, -1);
        && |text| == width && text[..|before|] == before && WrittenIn(text[|before|..], Table(c))
        && ParseNumber(text[|before|..], BaseOf(c)) == Some(Absolute(value)))
  {
    hide Convert, Denoted, Before, BaseOf, Fill, ParseNumber, Power, Formatted, Body, Table, WrittenIn, LaidOut,
        Absolute;
    var before := Before(c, fl, Denoted(c, long, args[0].n));
    var pad, zeros, digits := NumberText(c, long, args, fl, width, -1);
    FewEnough(c, long, args, fl, width - |before|);
    ZeroText(before, zeros, digits, c);
  }

  lemma {:induction false} FewEnough(c: char, long: bool, args: seq<Arg>, fl: FormatFlags, room: nat)
    requires c in "diuxXp" && args != [] && args[0].Num? && room > 0
    requires Absolute(Denoted(c, long, args[0].n)) < Power(BaseOf(c), room)
    ensures Convert(c, long, args).Conversion? && |Body(Convert(c, long, args).item)| <= room
  {
    ConvertedNumber(c, long, args, fl);
    hide Convert, Denoted, Digits, Power;
    var item := Convert(c, long, args).item;
    FewDigits(item.num, item.base, room);
  }

  lemma {:induction false} ZeroText(before: string, zeros: nat, digits: string, c: char)
    requires digits != "" && WrittenIn(digits, Table(c))
    ensures var text := LaidOut(false, 0, before, zeros, digits);
      && |text| == |before| + zeros + |digits| && text[..|before|] == before
      && WrittenIn(text[|before|..], Table(c))
      && ParseNumber(text[|before|..], BaseOf(c)) == ParseNumber(digits, BaseOf(c))
  {
    ZerosParse(zeros, digits, BaseOf(c));
    ZerosWritten(zeros, digits, c);
    hide ParseNumber, Table, WrittenIn;
    var rest := Fill('0', zeros) + digits;
    assert Fill(' ', 0) == "";
    hide Fill;
    assert LaidOut(false, 0, before, zeros, digits) == before + rest;
    JoinTwo(before, rest);
  }

  lemma JoinTwo(a: string, b: string)
    ensures (a + b)[..|a|] == a && (a + b)[|a|..] == b
  {
  }

  lemma ZerosWritten(n: nat, digits: string, c: char)
    requires WrittenIn(digits, Table(c))
    ensures WrittenIn(Fill('0', n) + digits, Table(c))
  {
    assert Table(c)[0] == '0';
  }

  // ---- Other conversions ----

  /** What %s, %c and any character that is no conversion print: the string, as far as the precision
      lets it, the character, unless it is NUL, or the character itself, a percent sign at the end of
      the format. Flags other than - play no part; blanks fill the width. */
  lemma OtherText(c: char, long: bool, args: seq<Arg>, fl: FormatFlags, width: int, precision: int)
    requires c !in "diuxXpC"
    requires c == 's' ==> args != [] && args[0].Text?
    requires c == 'c' ==> args != [] && args[0].Num?
    ensures var cv := Convert(c, long, args);
      var whole := if c == 's' then args[0].s else if c == 'c' then
          (if args[0].n % 256 == 0 then "" else [(args[0].n % 256) as char])
        else if c == '\0' then "%" else [c];
      var shown := if 0 <= precision < |whole| then whole[..precision] else whole;
      && cv.Conversion? && cv.rest == (if c == 's' || c == 'c' then args[1..] else args)
      && Formatted(cv.item, fl, width, precision) == LaidOut(fl.left, AtLeastZero(width - |shown|), "", 0, shown)
  {
    var whole := if c == 's' then args[0].s else if c == 'c' then
        (if args[0].n % 256 == 0 then "" else [(args[0].n % 256) as char])
      else if c == '\0' then "%" else [c];
    assert Convert(c, long, args).item == Chars(whole);
    hide Convert, Fill;
    assert Body(Chars(whole))[..BodyLength(Chars(whole), precision)] ==
      if 0 <= precision < |whole| then whole[..precision] else whole;
    assert Fill('0', 0) == "";
  }

  /** %C takes an int and prints nothing. */
  lemma ColourText(long: bool, args: seq<Arg>, fl: FormatFlags, width: int, precision: int)
    requires args != [] && args[0].Num?
    ensures var cv := Convert('C', long, args);
      cv.Conversion? && cv.rest == args[1..] && Formatted(cv.item, fl, width, precision) == ""
  {
  }

  // ---- Width and precision ----

  /** A width is a number that does not start with 0, or * and the next int, or absent. */
  lemma WidthIs(f: string, i: nat, args: seq<Arg>)
    requires i < |f|
    ensures '1' <= f[i] <= '9' ==>
      var r := Width(f, i, args);
      && r.NumberScan? && i < r.at && (r.at < |f| ==> !('0' <= f[r.at] <= '9')) && r.rest == args
      && ParseNumber(f[i..r.at], 10) == Some(AtLeastZero(r.value))
    ensures f[i] == '*' && args != [] && args[0].Num? ==>
      Width(f, i, args) == NumberScan(Int32Of(args[0].n), i + 1, args[1..])
    ensures f[i] != '*' && !('1' <= f[i] <= '9') ==> Width(f, i, args) == NumberScan(-1, i, args)
  {
    if '1' <= f[i] <= '9' {
      WrittenNumber(f, i, args);
    }
  }

  /** The int in a variadic slot. */
  function Int32Of(n: Word64): int {
    var m := n % 0x1_0000_0000;
    if m >= 0x8000_0000 then m - 0x1_0000_0000 else m
  }

  /** A precision starts with a dot: then a number, or * and the next int but not less than 0, or
      nothing, which is 0. Without a dot it is absent. */
  lemma PrecisionIs(f: string, i: nat, args: seq<Arg>)
    requires i < |f|
    ensures f[i] != '.' ==> Precision(f, i, args) == NumberScan(-1, i, args)
    ensures f[i] == '.' && i + 1 < |f| && '0' <= f[i + 1] <= '9' ==>
      var r := Precision(f, i, args);
      && r.NumberScan? && i + 1 < r.at && (r.at < |f| ==> !('0' <= f[r.at] <= '9')) && r.rest == args
      && ParseNumber(f[i + 1..r.at], 10) == Some(AtLeastZero(r.value)) && r.value >= 0
    ensures f[i] == '.' && i + 1 < |f| && f[i + 1] == '*' && args != [] && args[0].Num? ==>
      Precision(f, i, args) == NumberScan(AtLeastZero(Int32Of(args[0].n)), i + 2, args[1..])
    ensures f[i] == '.' && (i + 1 == |f| || !(f[i + 1] == '*' || '0' <= f[i + 1] <= '9')) ==>
      Precision(f, i, args) == NumberScan(0, i + 1, args)
  {
    if f[i] == '.' && i + 1 < |f| && IsDigit(f[i + 1]) {
      WrittenNumber(f, i + 1, args);
    }
  }

  // ---- Conversions as they are written ----

  /** A conversion behind its percent sign: flags, width, precision, l and z, and its character. */
  datatype Written = Written(flags: string, width: Option<nat>, precision: Option<nat>, length: string, c: char)

  /** Flags in any order and number, a width that is not 0, and a character that is none of the others. */
  predicate Unambiguous(d: Written) {
    && AllFlags(d.flags) && (d.width.Some? ==> d.width.value > 0) && AllLong(d.length)
    && d.c != '#' && d.c != '-' && d.c != ' ' && d.c != '+' && d.c != '.' && d.c != '*' && d.c != 'l' && d.c != 'z'
    && !('0' <= d.c <= '9')
  }

  predicate AllFlags(s: string) {
    forall k | 0 <= k < |s| :: s[k] == '#' || s[k] == '0' || s[k] == '-' || s[k] == ' ' || s[k] == '+'
  }

  predicate AllLong(s: string) {
    forall k | 0 <= k < |s| :: s[k] == 'l' || s[k] == 'z'
  }

  function WidthText(d: Written): string {
    match d.width case None => "" case Some(w) => Digits(w, 10)
  }

  function PrecisionText(d: Written): string {
    match d.precision case None => "" case Some(n) => "." + Digits(n, 10)
  }

  function Spelled(d: Written): string {
    d.flags + WidthText(d) + PrecisionText(d) + d.length + [d.c]
  }

  function OrAbsent(n: Option<nat>): int {
    if n.Some? then n.value else -1
  }

  function FlagSet(flags: string): FormatFlags {
    FormatFlags('#' in flags, '0' in flags, '-' in flags, ' ' in flags, '+' in flags)
  }

  /** A string stands in another at a place. */
  predicate At(f: string, i: nat, s: string) {
    i + |s| <= |f| && f[i..i + |s|] == s
  }

  lemma AtCharacter(f: string, i: nat, s: string, k: nat)
    requires At(f, i, s) && k < |s|
    ensures f[i + k] == s[k]
  {
  }

  lemma AtRest(f: string, i: nat, s: string, t: string)
    requires At(f, i, s + t)
    ensures At(f, i + |s|, t)
  {
    var n := |s + t|;
    assert f[i..i + n][|s|..] == t;
    assert f[i + |s|..i + n] == f[i..i + n][|s|..];
  }

  lemma {:induction false} FlagsRead(f: string, i: nat, flags: string)
    requires At(f, i, flags) && AllFlags(flags)
    requires i + |flags| < |f| && !IsFlag(f[i + |flags|])
    ensures FlagsFrom(f, i, PLAIN) == FlagScan(FlagSet(flags), i + |flags|)
  {
    var r := FlagsFrom(f, i, PLAIN);
    FlagsAreThoseSeen(f, i, PLAIN, '#');
    FlagsAreThoseSeen(f, i, PLAIN, '0');
    FlagsAreThoseSeen(f, i, PLAIN, '-');
    FlagsAreThoseSeen(f, i, PLAIN, ' ');
    FlagsAreThoseSeen(f, i, PLAIN, '+');
    hide FlagsFrom;
    if r.at < i + |flags| {
      AtCharacter(f, i, flags, r.at - i);
    }
  }

  lemma {:induction false} DecimalDigits(n: nat)
    ensures forall k | 0 <= k < |Digits(n, 10)| :: IsDigit(Digits(n, 10)[k])
    ensures Digits(n, 10)[0] == '0' ==> n == 0
  {
    DigitsWritten(n, 10);
    DigitsRoundTrip(n, 10);
    hide Digits;
    forall k | 0 <= k < |Digits(n, 10)|
      ensures IsDigit(Digits(n, 10)[k])
    {
      DecimalCharacter(Digits(n, 10)[k]);
    }
  }

  lemma DecimalCharacter(c: char)
    requires c in "0123456789"
    ensures IsDigit(c)
  {
  }

  lemma {:induction false} DigitsEnd(f: string, i: nat, s: string, args: seq<Arg>)
    requires At(f, i, s) && i + |s| < |f| && !IsDigit(f[i + |s|]) && forall k | 0 <= k < |s| :: IsDigit(s[k])
    ensures DigitsFrom(f, i, 0, args).at == i + |s|
  {
    DigitsScanned(f, i, 0, args);
    hide DigitsFrom, Continued, IsDigit;
    var at := DigitsFrom(f, i, 0, args).at;
    if at < i + |s| {
      AtCharacter(f, i, s, at - i);
    }
  }

  /** A number written out and followed by no digit is read as that number. */
  lemma {:induction false} NumberRead(f: string, i: nat, n: nat, args: seq<Arg>)
    requires At(f, i, Digits(n, 10)) && i + |Digits(n, 10)| < |f| && !IsDigit(f[i + |Digits(n, 10)|])
    ensures IsDigit(f[i]) && (f[i] == '0' ==> n == 0)
    ensures DigitsFrom(f, i, 0, args) == NumberScan(n, i + |Digits(n, 10)|, args)
  {
    DecimalDigits(n);
    DigitsEnd(f, i, Digits(n, 10), args);
    DigitsRoundTrip(n, 10);
    AtCharacter(f, i, Digits(n, 10), 0);
    WrittenNumber(f, i, args);
    hide Digits, DigitsFrom, ParseNumber;
  }

  lemma {:induction false} LengthRead(f: string, i: nat, length: string)
    requires At(f, i, length) && AllLong(length)
    requires i + |length| < |f| && f[i + |length|] != 'l' && f[i + |length|] != 'z'
    ensures LengthEnd(f, i) == i + |length|
    decreases |length|
  {
    if length != "" {
      AtCharacter(f, i, length, 0);
      assert f[i + 1..i + 1 + |length[1..]|] == length[1..];
      LengthRead(f, i + 1, length[1..]);
    }
  }

  lemma WidthRead(f: string, i: nat, d: Written, args: seq<Arg>)
    requires Unambiguous(d) && At(f, i, WidthText(d))
    requires i + |WidthText(d)| < |f| && f[i + |WidthText(d)|] != '*' && !IsDigit(f[i + |WidthText(d)|])
    ensures Width(f, i, args) == NumberScan(OrAbsent(d.width), i + |WidthText(d)|, args)
  {
    if d.width.Some? {
      NumberRead(f, i, d.width.value, args);
    }
  }

  lemma PrecisionRead(f: string, i: nat, d: Written, args: seq<Arg>)
    requires Unambiguous(d) && At(f, i, PrecisionText(d))
    requires i + |PrecisionText(d)| < |f| && f[i + |PrecisionText(d)|] != '.' && !IsDigit(f[i + |PrecisionText(d)|])
    ensures Precision(f, i, args) == NumberScan(OrAbsent(d.precision), i + |PrecisionText(d)|, args)
  {
    if d.precision.Some? {
      var s := Digits(d.precision.value, 10);
      AtCharacter(f, i, PrecisionText(d), 0);
      AtRest(f, i, ".", s);
      NumberRead(f, i + 1, d.precision.value, args);
    }
  }

  /** The places of the parts. */
  lemma PartsAt(before: string, d: Written, after: string)
    ensures var f, i := before + Spelled(d) + after, |before|;
      var j := i + |d.flags|;
      var k := j + |WidthText(d)|;
      var l := k + |PrecisionText(d)|;
      var m := l + |d.length|;
      && At(f, i, d.flags) && At(f, j, WidthText(d)) && At(f, k, PrecisionText(d)) && At(f, l, d.length)
      && m < |f| && f[m] == d.c && m + 1 == i + |Spelled(d)|
  {
    hide Digits;
  }

  /** The first character of each part tells it from those before. */
  lemma PartStarts(d: Written)
    requires Unambiguous(d)
    ensures WidthText(d) != "" ==> IsDigit(WidthText(d)[0]) && !IsFlag(WidthText(d)[0])
    ensures PrecisionText(d) != "" ==> PrecisionText(d)[0] == '.'
    ensures d.length != "" ==> d.length[0] == 'l' || d.length[0] == 'z'
    ensures !IsFlag(d.c) && !IsDigit(d.c) && d.c != '.' && d.c != '*' && d.c != 'l' && d.c != 'z'
  {
    if d.width.Some? {
      DecimalDigits(d.width.value);
    }
  }

  /** What follows the flags, the width, the precision and the length. */
  lemma Boundaries(before: string, d: Written, after: string)
    requires Unambiguous(d)
    ensures var f, j := before + Spelled(d) + after, |before| + |d.flags|;
      var k := j + |WidthText(d)|;
      var l := k + |PrecisionText(d)|;
      && l + |d.length| < |f| && !IsFlag(f[j]) && f[k] != '*' && !IsDigit(f[k]) && f[l] != '.' && !IsDigit(f[l])
      && f[l + |d.length|] == d.c
  {
    PartsAt(before, d, after);
    PartStarts(d);
    hide WidthText, PrecisionText, Spelled, Unambiguous;
    var f, j := before + Spelled(d) + after, |before| + |d.flags|;
    var k := j + |WidthText(d)|;
    var l := k + |PrecisionText(d)|;
    if d.length != "" {
      AtCharacter(f, l, d.length, 0);
    }
    if PrecisionText(d) != "" {
      AtCharacter(f, k, PrecisionText(d), 0);
    }
    if WidthText(d) != "" {
      AtCharacter(f, j, WidthText(d), 0);
    }
  }

  /** A conversion stands at a place, part by part. */
  predicate SpelledAt(f: string, i: nat, d: Written) {
    var j := i + |d.flags|;
    var k := j + |WidthText(d)|;
    var l := k + |PrecisionText(d)|;
    var m := l + |d.length|;
    && At(f, i, d.flags) && At(f, j, WidthText(d)) && At(f, k, PrecisionText(d)) && At(f, l, d.length)
    && m < |f| && !IsFlag(f[j]) && f[k] != '*' && !IsDigit(f[k]) && f[l] != '.' && !IsDigit(f[l]) && f[m] == d.c
    && m + 1 == i + |Spelled(d)|
  }

  lemma IsSpelledAt(before: string, d: Written, after: string)
    requires Unambiguous(d)
    ensures SpelledAt(before + Spelled(d) + after, |before|, d)
  {
    PartsAt(before, d, after);
    Boundaries(before, d, after);
    hide WidthText, PrecisionText, Spelled, At, IsFlag, IsDigit, Unambiguous;
  }

  lemma {:induction false} PartsRead(f: string, i: nat, d: Written, args: seq<Arg>)
    requires Unambiguous(d) && SpelledAt(f, i, d)
    ensures FlagsFrom(f, i, PLAIN) == FlagScan(FlagSet(d.flags), i + |d.flags|)
    ensures var j := i + |d.flags|;
      var k := j + |WidthText(d)|;
      var l := k + |PrecisionText(d)|;
      && l + |d.length| < |f| && f[l + |d.length|] == d.c && l + |d.length| + 1 == i + |Spelled(d)|
      && Width(f, j, args) == NumberScan(OrAbsent(d.width), k, args)
      && Precision(f, k, args) == NumberScan(OrAbsent(d.precision), l, args)
      && LengthEnd(f, l) == l + |d.length|
  {
    hide WidthText, PrecisionText, Spelled, FlagsFrom, Width, Precision, LengthEnd, FlagSet, IsFlag, IsDigit, At;
    FlagsRead(f, i, d.flags);
    WidthRead(f, i + |d.flags|, d, args);
    PrecisionRead(f, i + |d.flags| + |WidthText(d)|, d, args);
    LengthRead(f, i + |d.flags| + |WidthText(d)| + |PrecisionText(d)|, d.length);
  }

  /** Whatever stands before and behind it, a conversion is read as it is written: with those flags,
      that width and precision, long exactly when it has an l or z. */
  lemma DirectiveReads(before: string, d: Written, after: string, args: seq<Arg>)
    requires Unambiguous(d)
    ensures var cv := Convert(d.c, d.length != "", args);
      DirectiveAt(before + Spelled(d) + after, |before|, args) ==
        if cv.UndefinedConversion? then UndefinedDirective
        else Directive(Formatted(cv.item, FlagSet(d.flags), OrAbsent(d.width), OrAbsent(d.precision)),
            |before| + |Spelled(d)|, cv.rest)
  {
    IsSpelledAt(before, d, after);
    hide Spelled, SpelledAt, DirectiveAt, Formatted, Convert, Unambiguous, FlagSet, OrAbsent;
    DirectiveFrom(before + Spelled(d) + after, |before|, d, args);
  }

  lemma DirectiveFrom(f: string, i: nat, d: Written, args: seq<Arg>)
    requires Unambiguous(d) && SpelledAt(f, i, d)
    ensures var cv := Convert(d.c, d.length != "", args);
      i <= |f| && DirectiveAt(f, i, args) ==
        if cv.UndefinedConversion? then UndefinedDirective
        else Directive(Formatted(cv.item, FlagSet(d.flags), OrAbsent(d.width), OrAbsent(d.precision)),
            i + |Spelled(d)|, cv.rest)
  {
    hide *;
    PartsRead(f, i, d, args);
    var j := i + |d.flags|;
    var k := j + |WidthText(d)|;
    var l := k + |PrecisionText(d)|;
    DirectiveOf(f, i, args, FlagScan(FlagSet(d.flags), j), NumberScan(OrAbsent(d.width), k, args),
      NumberScan(OrAbsent(d.precision), l, args), l + |d.length|);
    assert l + |d.length| > l <==> d.length != "";
  }

  lemma {:induction false} DirectiveOf(f: string, i: nat, args: seq<Arg>, fl: FlagScan, w: NumberScan, p: NumberScan,
      at: nat)
    requires i <= |f| && FlagsFrom(f, i, PLAIN) == fl && fl.at <= |f| && w.NumberScan? && p.NumberScan?
    requires Width(f, fl.at, args) == w && Precision(f, w.at, w.rest) == p && LengthEnd(f, p.at) == at && at < |f|
    ensures var cv := Convert(f[at], at > p.at, p.rest);
      DirectiveAt(f, i, args) == if cv.UndefinedConversion? then UndefinedDirective
        else Directive(Formatted(cv.item, fl.flags, w.value, p.value), at + 1, cv.rest)
  {
    hide Formatted, Convert, FlagsFrom, Width, Precision, LengthEnd;
  }

  // ---- A whole directive ----

  /** The header of the kernel's memory map: "0x%06X " prints an address below 2^24 as 0x, six digits
      of base 16 with zeros in front, and a blank. */
  lemma AddressHeader(pa: Word64)
    requires pa < 0x100_0000
    ensures match Render("0x%06X ", [Num(pa)])
      case None => false
      case Some(t) =>
        && |t| == 9 && t[..2] == "0x" && WrittenIn(t[2..8], "0123456789ABCDEF")
        && ParseNumber(t[2..8], 16) == Some(pa) && t[8] == ' '
  {
    var f, args := "0x%06X ", [Num(pa)];
    var fl := FormatFlags(false, true, false, false, false);
    HeaderDirective(pa);
    HeaderFits(pa);
    ZeroPadded('X', false, args, fl, 6);
    hide Formatted, Convert, ParseNumber, DirectiveAt, WrittenIn, Fill;
    var d := DirectiveAt(f, 3, args);
    assert "" + d.text == d.text && d.text[..0] == "" && d.text[0..] == d.text;
    HeaderRenders(args, d.text);
    HeaderText(d.text);
  }

  lemma HeaderRenders(args: seq<Arg>, text: string)
    requires DirectiveAt("0x%06X ", 3, args) == Directive(text, 6, [])
    ensures Render("0x%06X ", args) == Some("0" + ("x" + (text + " ")))
  {
    hide DirectiveAt;
    var f := "0x%06X ";
    assert RenderFrom(f, 7, []) == Some("");
    assert RenderFrom(f, 6, []) == Some(" " + "");
    assert " " + "" == " ";
    assert RenderFrom(f, 2, args) == Some(text + " ");
    assert RenderFrom(f, 1, args) == Some("x" + (text + " "));
  }

  lemma HeaderText(x: string)
    requires |x| == 6
    ensures var t := "0" + ("x" + (x + " "));
      |t| == 9 && t[..2] == "0x" && t[2..8] == x && t[8] == ' '
  {
  }

  lemma HeaderFits(pa: Word64)
    requires pa < 0x100_0000
    ensures Denoted('X', false, pa) == pa && pa < Power(16, 6)
  {
    assert Power(16, 3) == 0x1000;
  }

  lemma HeaderDirective(pa: Word64)
    requires pa < 0x100_0000
    ensures var fl := FormatFlags(false, true, false, false, false);
      DirectiveAt("0x%06X ", 3, [Num(pa)]) ==
        Directive(Formatted(Convert('X', false, [Num(pa)]).item, fl, 6, -1), 6, [])
  {
    var f, args := "0x%06X ", [Num(pa)];
    assert FlagsFrom(f, 4, FormatFlags(false, true, false, false, false)).at == 4;
    assert DigitsFrom(f, 5, 6, args) == NumberScan(6, 5, args);
    assert Width(f, 4, args) == NumberScan(6, 5, args);
    hide Formatted;
  }
}
