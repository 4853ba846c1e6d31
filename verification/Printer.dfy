/** The format printer of lib.c: what a format renders to, and the bounded string printer. */
module Printer {
  import opened Words
  import opened Numbers

  /** A variadic argument: a 64-bit slot, or a pointer to a C string. */
  datatype Arg = Num(n: Word64) | Text(s: string)

  datatype FormatFlags = FormatFlags(alt: bool, zero: bool, left: bool, space: bool, plus: bool)

  const PLAIN := FormatFlags(false, false, false, false, false)

  /** The character at a place of a C string; at its end there is the NUL. */
  function CharAt(f: string, i: nat): char {
    if i < |f| then f[i] else '\0'
  }

  predicate IsDigit(c: char) {
    '0' <= c <= '9'
  }

  // ---- Scanning a conversion ----

  datatype FlagScan = FlagScan(flags: FormatFlags, at: nat)

  predicate IsFlag(c: char) {
    c == '#' || c == '0' || c == '-' || c == ' ' || c == '+'
  }

  function AddFlag(fl: FormatFlags, c: char): FormatFlags {
    if c == '#' then fl.(alt := true)
    else if c == '0' then fl.(zero := true)
    else if c == '-' then fl.(left := true)
    else if c == ' ' then fl.(space := true)
    else if c == '+' then fl.(plus := true)
    else fl
  }

  function FlagsFrom(f: string, i: nat, fl: FormatFlags): (r: FlagScan)
    ensures r.at >= i && (i <= |f| ==> r.at <= |f|)
    decreases |f| - i
  {
    if i < |f| && IsFlag(f[i]) then FlagsFrom(f, i + 1, AddFlag(fl, f[i])) else FlagScan(fl, i)
  }

  /** A number read from the format or the arguments; or an argument that is not there, which C
      leaves undefined. */
  datatype NumberScan = NumberScan(value: int, at: nat, rest: seq<Arg>) | Undefined

  function DigitsFrom(f: string, i: nat, acc: nat, args: seq<Arg>): (r: NumberScan)
    ensures r.NumberScan? && r.value >= 0 && r.at >= i && (i <= |f| ==> r.at <= |f|)
    decreases |f| - i
  {
    if i < |f| && IsDigit(f[i]) then DigitsFrom(f, i + 1, 10 * acc + (f[i] - '0') as nat, args)
    else NumberScan(acc, i, args)
  }

  /** va_arg(val, int). */
  function IntArg(i: nat, args: seq<Arg>): (r: NumberScan)
    ensures r.NumberScan? ==> r.at == i
  {
    if args == [] || args[0].Text? then Undefined else NumberScan(ToInt32(args[0].n), i, args[1..])
  }

  function Width(f: string, i: nat, args: seq<Arg>): (r: NumberScan)
    requires i <= |f|
    ensures r.NumberScan? ==> i <= r.at <= |f|
  {
    if '1' <= CharAt(f, i) <= '9' then DigitsFrom(f, i, 0, args)
    else if CharAt(f, i) == '*' then IntArg(i + 1, args)
    else NumberScan(-1, i, args)
  }

  function Precision(f: string, i: nat, args: seq<Arg>): (r: NumberScan)
    requires i <= |f|
    ensures r.NumberScan? ==> i <= r.at <= |f|
  {
    if CharAt(f, i) != '.' then NumberScan(-1, i, args)
    else if IsDigit(CharAt(f, i + 1)) then DigitsFrom(f, i + 1, 0, args)
    else if CharAt(f, i + 1) == '*' then
      var r := IntArg(i + 2, args);
      if r.NumberScan? && r.value < 0 then r.(value := 0) else r
    else NumberScan(0, i + 1, args)
  }

  /** Place of the main conversion character, behind any l and z. */
  function LengthEnd(f: string, i: nat): (r: nat)
    ensures r >= i && (i <= |f| ==> r <= |f|)
    decreases |f| - i
  {
    if i < |f| && (f[i] == 'l' || f[i] == 'z') then LengthEnd(f, i + 1) else i
  }

  predicate HasFlag(fl: FormatFlags, c: char) {
    if c == '#' then fl.alt else if c == '0' then fl.zero else if c == '-' then fl.left
    else if c == ' ' then fl.space else c == '+' && fl.plus
  }

  /** Scanning flags stops at the first character that is no flag, and has set exactly those seen. */
  lemma {:induction false} FlagsAreThoseSeen(f: string, i: nat, fl: FormatFlags, c: char)
    requires i <= |f| && IsFlag(c)
    ensures var r := FlagsFrom(f, i, fl);
      && (forall k | i <= k < r.at :: IsFlag(f[k])) && (r.at < |f| ==> !IsFlag(f[r.at]))
      && (HasFlag(r.flags, c) <==> HasFlag(fl, c) || c in f[i..r.at])
    decreases |f| - i
  {
    if i < |f| && IsFlag(f[i]) {
      FlagsAreThoseSeen(f, i + 1, AddFlag(fl, f[i]), c);
      var at := FlagsFrom(f, i, fl).at;
      assert f[i..at] == [f[i]] + f[i + 1..at];
      FlagAdded(fl, f[i], c);
      hide AddFlag, HasFlag, IsFlag;
    } else {
      assert f[i..i] == "";
    }
  }

  lemma FlagAdded(fl: FormatFlags, d: char, c: char)
    requires IsFlag(c) && IsFlag(d)
    ensures HasFlag(AddFlag(fl, d), c) <==> HasFlag(fl, c) || c == d
  {
  }

  /** The value of a string of decimal digits, read from the left after a value already read. */
  function Continued(s: string, acc: nat): nat {
    if s == "" then acc else Continued(s[1..], 10 * acc + if IsDigit(s[0]) then (s[0] - '0') as nat else 0)
  }

  lemma {:induction false} ContinuedLast(s: string, c: char, acc: nat)
    requires IsDigit(c)
    ensures Continued(s + [c], acc) == 10 * Continued(s, acc) + (c - '0') as nat
    decreases |s|
  {
    if s == "" {
      assert (s + [c])[1..] == "";
    } else {
      assert (s + [c])[1..] == s[1..] + [c];
      ContinuedLast(s[1..], c, 10 * acc + if IsDigit(s[0]) then (s[0] - '0') as nat else 0);
    }
  }

  lemma {:induction false} ContinuedParses(s: string)
    requires s != "" && forall k | 0 <= k < |s| :: IsDigit(s[k])
    ensures ParseNumber(s, 10) == Some(Continued(s, 0))
    decreases |s|
  {
    var t, c := s[..|s| - 1], s[|s| - 1];
    assert s == t + [c];
    ContinuedLast(t, c, 0);
    if t != "" {
      ContinuedParses(t);
    }
  }

  lemma {:induction false} DigitsScanned(f: string, i: nat, acc: nat, args: seq<Arg>)
    requires i <= |f|
    ensures var r := DigitsFrom(f, i, acc, args);
      && (forall k | i <= k < r.at :: IsDigit(f[k])) && (r.at < |f| ==> !IsDigit(f[r.at]))
      && r.rest == args && r.value == Continued(f[i..r.at], acc)
    decreases |f| - i
  {
    if i < |f| && IsDigit(f[i]) {
      DigitsScanned(f, i + 1, 10 * acc + (f[i] - '0') as nat, args);
      var at := DigitsFrom(f, i, acc, args).at;
      assert f[i..at][0] == f[i] && f[i..at][1..] == f[i + 1..at];
    } else {
      assert f[i..i] == "";
    }
  }

  /** A width or precision written out is read as the decimal number it is, to its last digit. */
  lemma {:induction false} WrittenNumber(f: string, i: nat, args: seq<Arg>)
    requires i < |f| && IsDigit(f[i])
    ensures var r := DigitsFrom(f, i, 0, args);
      && i < r.at && (r.at < |f| ==> !IsDigit(f[r.at])) && r.rest == args
      && ParseNumber(f[i..r.at], 10) == Some(r.value as nat)
  {
    DigitsScanned(f, i, 0, args);
    var at := DigitsFrom(f, i, 0, args).at;
    assert forall k | 0 <= k < |f[i..at]| :: f[i..at][k] == f[i + k];
    ContinuedParses(f[i..at]);
  }

  // ---- Conversions ----

  /** What a conversion prints: a number, a string, or nothing (a change of colour). */
  datatype Item =
    | Number(num: Word64, base: Base, signed: bool, negative: bool, address: bool)
    | Chars(s: string)
    | Colour

  datatype Conversion = Conversion(item: Item, rest: seq<Arg>) | UndefinedConversion

  function SignedValue(n: Word64, long: bool): int {
    if long then (if n < 0x8000_0000_0000_0000 then n else n - 0x1_0000_0000_0000_0000) else ToInt32(n)
  }

  function Magnitude(x: int): Word64
    requires -0x8000_0000_0000_0000 <= x < 0x8000_0000_0000_0000
  {
    if x < 0 then -x else x
  }

  function UnsignedValue(n: Word64, long: bool): Word64 {
    if long then n else n % 0x1_0000_0000
  }

  predicate TakesNumber(c: char) {
    c in "diuxXpCc"
  }

  /** The string of one character; a NUL makes it empty. */
  function OneChar(n: nat): string {
    if n % 256 == 0 then "" else [(n % 256) as char]
  }

  function Convert(c: char, long: bool, args: seq<Arg>): Conversion {
    if TakesNumber(c) then
      if args == [] || args[0].Text? then UndefinedConversion else
      var n := args[0].n;
      var item :=
        if c == 'd' || c == 'i' then Number(Magnitude(SignedValue(n, long)), 10, true, SignedValue(n, long) < 0, false)
        else if c == 'u' then Number(UnsignedValue(n, long), 10, false, false, false)
        else if c == 'x' then Number(UnsignedValue(n, long), -16, false, false, false)
        else if c == 'X' then Number(UnsignedValue(n, long), 16, false, false, false)
        else if c == 'p' then Number(n, -16, false, false, true)
        else if c == 'C' then Colour
        else Chars(OneChar(n));
      Conversion(item, args[1..])
    else if c == 's' then
      if args == [] || args[0].Num? then UndefinedConversion else Conversion(Chars(args[0].s), args[1..])
    else Conversion(Chars(if c == '\0' then "%" else [c]), args)
  }

  // ---- Formatted ----

  function NumberPrefix(item: Item, fl: FormatFlags): string {
    if !item.Number? then ""
    else if item.signed then (if item.negative then "-" else if fl.plus then "+" else if fl.space then " " else "")
    else if (fl.alt || item.address) && (item.base == 16 || item.base == -16) && (item.num != 0 || item.address)
    then (if item.base == -16 then "0x" else "0X")
    else ""
  }

  function Body(item: Item): string {
    match item
    case Number(num, base, _, _, _) => Digits(num, base)
    case Chars(s) => s
    case Colour => ""
  }

  /** len: how much of the body is printed. */
  function BodyLength(item: Item, precision: int): (r: nat)
    ensures r <= |Body(item)|
  {
    if precision >= 0 && !item.Number? && precision < |Body(item)| then precision else |Body(item)|
  }

  function Zeros(item: Item, fl: FormatFlags, width: int, precision: int): nat {
    var len, pre := BodyLength(item, precision), |NumberPrefix(item, fl)|;
    if item.Number? && precision >= 0 then (if precision > len then precision - len else 0)
    else if item.Number? && fl.zero && !fl.left && len + pre < width then width - len - pre
    else 0
  }

  function Padding(item: Item, fl: FormatFlags, width: int, precision: int): nat {
    var pad := width - (BodyLength(item, precision) + Zeros(item, fl, width, precision) + |NumberPrefix(item, fl)|);
    if pad > 0 then pad else 0
  }

  function Fill(c: char, n: nat): (t: string)
    ensures |t| == n && forall k | 0 <= k < n :: t[k] == c
  {
    seq(n, _ => c)
  }

  /** The characters of one conversion. */
  function Formatted(item: Item, fl: FormatFlags, width: int, precision: int): string {
    if item.Colour? then "" else
    var pad := Padding(item, fl, width, precision);
    (if fl.left then "" else Fill(' ', pad)) + NumberPrefix(item, fl) + Fill('0', Zeros(item, fl, width, precision))
    + Body(item)[..BodyLength(item, precision)] + (if fl.left then Fill(' ', pad) else "")
  }

  /** A numeric conversion emits exactly max(width, prefix + zeros + digits) characters; so does any
      other, with what the precision leaves of its string. */
  lemma FormattedLength(item: Item, fl: FormatFlags, width: int, precision: int)
    requires !item.Colour?
    ensures var n := |NumberPrefix(item, fl)| + Zeros(item, fl, width, precision) + BodyLength(item, precision);
      |Formatted(item, fl, width, precision)| == if width > n then width else n
  {
  }

  /** Leading zeros do not change the number read back. */
  lemma {:induction false} ZerosParse(n: nat, s: string, radix: nat)
    requires s != "" && radix > 0
    ensures ParseNumber(Fill('0', n) + s, radix) == ParseNumber(s, radix)
    decreases |s|
  {
    var t := Fill('0', n) + s;
    if |s| == 1 {
      ZerosDigit(n, s[0], radix);
      assert t == Fill('0', n) + [s[0]];
    } else {
      assert t[..|t| - 1] == Fill('0', n) + s[..|s| - 1];
      ZerosParse(n, s[..|s| - 1], radix);
    }
  }

  lemma {:induction false} ZerosDigit(n: nat, c: char, radix: nat)
    requires radix > 0
    ensures ParseNumber(Fill('0', n) + [c], radix) == ParseNumber([c], radix)
    decreases n
  {
    var t := Fill('0', n) + [c];
    if n > 0 {
      assert t[..|t| - 1] == Fill('0', n - 1) + ['0'];
      ZerosDigit(n - 1, '0', radix);
    } else {
      assert t == [c];
    }
  }

  /** Whatever the flags, the width and the precision: between blanks and prefix, and trailing
      blanks, a number's characters read back as the number. */
  lemma NumberReadsBack(item: Item, fl: FormatFlags, width: int, precision: int)
    requires item.Number?
    ensures var text := Formatted(item, fl, width, precision);
      var skip := (if fl.left then 0 else Padding(item, fl, width, precision)) + |NumberPrefix(item, fl)|;
      var n := Zeros(item, fl, width, precision) + |Body(item)|;
      && skip + n <= |text|
      && ParseNumber(text[skip..skip + n], Radix(item.base)) == Some(item.num)
      && (forall k | 0 <= k < |text| && !(skip - |NumberPrefix(item, fl)| <= k < skip + n) :: text[k] == ' ')
  {
    NumberFormatted(item, fl, width, precision);
    hide Formatted, Zeros, Padding, NumberPrefix, ParseNumber, Radix, Digits, Fill;
    var zeros, pad := Zeros(item, fl, width, precision), Padding(item, fl, width, precision);
    var before, after := if fl.left then "" else Fill(' ', pad), if fl.left then Fill(' ', pad) else "";
    MiddleOf(before, NumberPrefix(item, fl), Fill('0', zeros), Body(item), after);
    PaddedNumber(item, zeros);
    hide Body;
  }

  /** The number an argument means under a conversion: a 32-bit or 64-bit two's complement value for d
      and i, else the unsigned value of 32 or 64 bits, and all 64 for p. */
  function Denoted(c: char, long: bool, n: Word64): int {
    if c == 'd' || c == 'i' then
      if long then (if n >= 0x8000_0000_0000_0000 then n - 0x1_0000_0000_0000_0000 else n)
      else if n % 0x1_0000_0000 >= 0x8000_0000 then n % 0x1_0000_0000 - 0x1_0000_0000 else n % 0x1_0000_0000
    else if c == 'p' || long then n
    else n % 0x1_0000_0000
  }

  /** Under every numeric conversion, with any flags, width and precision, the digits printed read in
      base 10 or 16 as the magnitude of the number the argument means, and a minus sign stands before
      them exactly when it is negative. */
  lemma ConversionReadsBack(c: char, long: bool, args: seq<Arg>, fl: FormatFlags, width: int, precision: int)
    requires c in "diuxXp" && args != [] && args[0].Num?
    ensures var cv := Convert(c, long, args);
      && cv.Conversion? && cv.rest == args[1..] && cv.item.Number?
      && (var text := Formatted(cv.item, fl, width, precision);
          var skip := (if fl.left then 0 else Padding(cv.item, fl, width, precision)) + |NumberPrefix(cv.item, fl)|;
          var n := Zeros(cv.item, fl, width, precision) + |Body(cv.item)|;
          var value := Denoted(c, long, args[0].n);
          && skip + n <= |text|
          && ParseNumber(text[skip..skip + n], if c in "xXp" then 16 else 10) ==
             Some(if value < 0 then -value else value)
          && (NumberPrefix(cv.item, fl) == "-" <==> value < 0))
  {
    hide Formatted, Padding, Zeros, Digits, ParseNumber;
    NumberReadsBack(Convert(c, long, args).item, fl, width, precision);
  }

  lemma PaddedNumber(item: Item, zeros: nat)
    requires item.Number?
    ensures ParseNumber(Fill('0', zeros) + Body(item), Radix(item.base)) == Some(item.num)
  {
    hide Digits, Fill, ParseNumber, Radix;
    DigitsRoundTrip(item.num, item.base);
    ZerosParse(zeros, Body(item), Radix(item.base));
  }

  lemma NumberFormatted(item: Item, fl: FormatFlags, width: int, precision: int)
    requires item.Number?
    ensures var pad := Padding(item, fl, width, precision);
      Formatted(item, fl, width, precision) ==
        (if fl.left then "" else Fill(' ', pad)) + NumberPrefix(item, fl) + Fill('0', Zeros(item, fl, width, precision))
        + Body(item) + (if fl.left then Fill(' ', pad) else "")
  {
    hide Padding, NumberPrefix, Zeros, Fill, Body;
    assert Body(item)[..BodyLength(item, precision)] == Body(item);
  }

  lemma MiddleOf(a: string, p: string, z: string, b: string, e: string)
    ensures var t := a + p + z + b + e;
      && |t| == |a| + |p| + |z| + |b| + |e|
      && t[|a| + |p|..|a| + |p| + (|z| + |b|)] == z + b
      && (forall k | 0 <= k < |a| :: t[k] == a[k])
      && (forall k | |t| - |e| <= k < |t| :: t[k] == e[k - (|t| - |e|)])
  {
  }

  // ---- A whole format ----

  /** One conversion: its characters, the place behind it, and the arguments left. */
  datatype Directive = Directive(text: string, at: nat, rest: seq<Arg>) | UndefinedDirective

  /** The conversion that starts behind a percent sign. */
  function DirectiveAt(f: string, i: nat, args: seq<Arg>): (r: Directive)
    requires i <= |f|
    ensures r.Directive? ==> i <= r.at <= |f|
  {
    var fl := FlagsFrom(f, i, PLAIN);
    var w := Width(f, fl.at, args);
    if w.Undefined? then UndefinedDirective else
    var p := Precision(f, w.at, w.rest);
    if p.Undefined? then UndefinedDirective else
    var at := LengthEnd(f, p.at);
    var c := Convert(CharAt(f, at), at > p.at, p.rest);
    if c.UndefinedConversion? then UndefinedDirective
    else Directive(Formatted(c.item, fl.flags, w.value, p.value), if at < |f| then at + 1 else at, c.rest)
  }

  /** What printer_vprintf gives to putc from place i on; None where C defines nothing. */
  function RenderFrom(f: string, i: nat, args: seq<Arg>): Option<string>
    requires i <= |f|
    decreases |f| - i
  {
    if i == |f| then Some("")
    else if f[i] != '%' then
      match RenderFrom(f, i + 1, args)
      case None => None
      case Some(t) => Some([f[i]] + t)
    else
      var d := DirectiveAt(f, i + 1, args);
      if d.UndefinedDirective? then None else
      match RenderFrom(f, d.at, d.rest)
      case None => None
      case Some(t) => Some(d.text + t)
  }

  function Render(f: string, args: seq<Arg>): Option<string> {
    RenderFrom(f, 0, args)
  }

  /** A C string contains no NUL. */
  predicate CString(f: string) {
    forall i | 0 <= i < |f| :: f[i] != '\0'
  }

  /** So does every string a format is given. */
  predicate CArgs(args: seq<Arg>) {
    forall a | a in args && a.Text? :: CString(a.s)
  }

  /** The string printer: a cursor s that stops one short of the buffer's end. `emitted` is all that
      putc has been given. */
  class StringPrinter {
    const buf: array<char>
    const end: nat
    var s: nat
    ghost var emitted: string

    ghost predicate Valid()
      reads this, buf
    {
      && s <= end < buf.Length && s == (if |emitted| < end then |emitted| else end)
      && buf[..s] == emitted[..s]
    }

    constructor (buf: array<char>, size: nat)
      requires 0 < size <= buf.Length
      ensures Valid() && this.buf == buf && end == size - 1 && emitted == ""
    {
      this.buf, this.end, this.s, this.emitted := buf, size - 1, 0, "";
    }

    /** string_putc. */
    method Putc(c: char)
      requires Valid()
      modifies this`s, this`emitted, buf
      ensures Valid() && emitted == old(emitted) + [c]
      ensures forall k | end <= k < buf.Length :: buf[k] == old(buf[k])
    {
      if s < end {
        buf[s] := c;
        s := s + 1;
      }
      emitted := emitted + [c];
    }

    method PutFill(c: char, n: nat)
      requires Valid()
      modifies this`s, this`emitted, buf
      ensures Valid() && emitted == old(emitted) + Fill(c, n)
      ensures forall k | end <= k < buf.Length :: buf[k] == old(buf[k])
    {
      ghost var was := emitted;
      var left := n;
      while left > 0
        invariant 0 <= left <= n && Valid() && emitted == was + Fill(c, n - left)
        invariant forall k | end <= k < buf.Length :: buf[k] == old(buf[k])
      {
        Putc(c);
        left := left - 1;
        assert Fill(c, n - left) == Fill(c, n - left - 1) + [c];
      }
    }

    method PutString(t: string)
      requires Valid()
      modifies this`s, this`emitted, buf
      ensures Valid() && emitted == old(emitted) + t
      ensures forall k | end <= k < buf.Length :: buf[k] == old(buf[k])
    {
      ghost var was := emitted;
      var i := 0;
      while i < |t|
        invariant 0 <= i <= |t| && Valid() && emitted == was + t[..i]
        invariant forall k | end <= k < buf.Length :: buf[k] == old(buf[k])
      {
        Putc(t[i]);
        assert t[..i + 1] == t[..i] + [t[i]];
        i := i + 1;
      }
    }

    /** The second half of the loop body of printer_vprintf: prefix, zeros, padding, output. */
    method PutItem(item: Item, fl: FormatFlags, width0: int, precision: int)
      requires Valid() && !item.Colour?
      modifies this`s, this`emitted, buf
      ensures Valid() && emitted == old(emitted) + Formatted(item, fl, width0, precision)
      ensures forall k | end <= k < buf.Length :: buf[k] == old(buf[k])
    {
      hide Digits;
      ghost var was := emitted;
      var data := BodyOf(item);
      var prefix := NumberPrefix(item, fl);
      var len := if precision >= 0 && !item.Number? && precision < |data| then precision else |data|;
      var zeros := 0;
      if item.Number? && precision >= 0 {
        zeros := if precision > len then precision - len else 0;
      } else if item.Number? && fl.zero && !fl.left && len + |prefix| < width0 {
        zeros := width0 - len - |prefix|;
      }
      var width := width0 - (len + zeros + |prefix|);
      assert len == BodyLength(item, precision) && zeros == Zeros(item, fl, width0, precision);
      ghost var pad := Padding(item, fl, width0, precision);
      ghost var before, after := if fl.left then "" else Fill(' ', pad), if fl.left then Fill(' ', pad) else "";
      hide NumberPrefix, BodyLength, Zeros, Padding;
      if !fl.left && width > 0 {
        PutFill(' ', width);
        width := 0;
      }
      assert emitted == was + before;
      PutString(prefix);
      PutFill('0', zeros);
      PutString(data[..len]);
      ghost var most := emitted;
      if width > 0 {
        PutFill(' ', width);
      }
      assert emitted == most + after;
      JoinFive(was, before, prefix, Fill('0', zeros), data[..len], after);
    }

    /** printer_vprintf into this printer; false where C defines nothing. */
    method VPrintf(f: string, args0: seq<Arg>) returns (ok: bool)
      requires Valid() && CString(f) && CArgs(args0)
      modifies this`s, this`emitted, buf
      ensures Valid() && (ok <==> Render(f, args0).Some?)
      ensures ok ==> emitted == old(emitted) + Render(f, args0).value
      ensures forall k | end <= k < buf.Length :: buf[k] == old(buf[k])
    {
      hide Formatted, Convert, Width, Precision, FlagsFrom, LengthEnd;
      ghost var was, whole := emitted, Render(f, args0);
      ghost var sofar := "";
      PrependNothing(whole);
      var i, args := 0, args0;
      while i < |f|
        invariant 0 <= i <= |f| && Valid() && emitted == was + sofar
        invariant whole == Prepended(sofar, RenderFrom(f, i, args))
        invariant forall k | end <= k < buf.Length :: buf[k] == old(buf[k])
        decreases |f| - i
      {
        ghost var before := sofar;
        if f[i] != '%' {
          Putc(f[i]);
          sofar := sofar + [f[i]];
          PrependTwice(before, [f[i]], RenderFrom(f, i + 1, args));
          i := i + 1;
        } else {
          var fl := ScanFlags(f, i + 1);
          var w := ScanWidth(f, fl.at, args);
          if w.Undefined? {
            return false;
          }
          var p := ScanPrecision(f, w.at, w.rest);
          if p.Undefined? {
            return false;
          }
          var at := LengthEnd(f, p.at);
          var c := Convert(CharAt(f, at), at > p.at, p.rest);
          if c.UndefinedConversion? {
            return false;
          }
          ghost var text := Formatted(c.item, fl.flags, w.value, p.value);
          if c.item.Colour? {
            ColourIsEmpty(fl.flags, w.value, p.value);
          } else {
            PutItem(c.item, fl.flags, w.value, p.value);
          }
          sofar := sofar + text;
          PrependTwice(before, text, RenderFrom(f, if at < |f| then at + 1 else at, c.rest));
          i, args := if at < |f| then at + 1 else at, c.rest;
        }
      }
      return true;
    }
  }

  /** A string followed by a rendering. */
  function Prepended(s: string, o: Option<string>): Option<string> {
    match o
    case None => None
    case Some(t) => Some(s + t)
  }

  lemma PrependTwice(s: string, t: string, o: Option<string>)
    ensures Prepended(s, Prepended(t, o)) == Prepended(s + t, o)
  {
    if o.Some? {
      assert s + (t + o.value) == (s + t) + o.value;
    }
  }

  lemma PrependNothing(o: Option<string>)
    ensures Prepended("", o) == o
  {
    if o.Some? {
      assert "" + o.value == o.value;
    }
  }

  lemma JoinFive(o: string, a: string, p: string, z: string, b: string, e: string)
    ensures o + a + p + z + b + e == o + (a + p + z + b + e)
  {
  }

  lemma ColourIsEmpty(fl: FormatFlags, width: int, precision: int)
    ensures Formatted(Colour, fl, width, precision) == ""
  {
  }

  /** data: for numbers the digits that fill_numbuf leaves in its buffer. */
  method BodyOf(item: Item) returns (data: string)
    requires !item.Colour?
    ensures data == Body(item)
  {
    match item
    case Number(num, base, _, _, _) =>
      var numbuf := new char[NUMBUFSIZ];
      var start := FillNumbuf(numbuf, num, base);
      data := numbuf[start..NUMBUFSIZ - 1];
    case Chars(s) => data := s;
  }

  method ScanFlags(f: string, i: nat) returns (r: FlagScan)
    requires i <= |f|
    ensures r == FlagsFrom(f, i, PLAIN)
  {
    var fl, at := PLAIN, i;
    while at < |f| && IsFlag(f[at])
      invariant i <= at <= |f| && FlagsFrom(f, at, fl) == FlagsFrom(f, i, PLAIN)
    {
      fl := AddFlag(fl, f[at]);
      at := at + 1;
    }
    return FlagScan(fl, at);
  }

  method ScanDigits(f: string, i: nat, args: seq<Arg>) returns (r: NumberScan)
    requires i <= |f|
    ensures r == DigitsFrom(f, i, 0, args)
  {
    var value, at: nat := 0, i;
    while at < |f| && IsDigit(f[at])
      invariant i <= at <= |f| && value >= 0 && DigitsFrom(f, at, value, args) == DigitsFrom(f, i, 0, args)
    {
      value := 10 * value + (f[at] - '0') as nat;
      at := at + 1;
    }
    return NumberScan(value, at, args);
  }

  method ScanWidth(f: string, i: nat, args: seq<Arg>) returns (r: NumberScan)
    requires i <= |f|
    ensures r == Width(f, i, args)
  {
    if '1' <= CharAt(f, i) <= '9' {
      r := ScanDigits(f, i, args);
    } else if CharAt(f, i) == '*' {
      r := IntArg(i + 1, args);
    } else {
      r := NumberScan(-1, i, args);
    }
  }

  method ScanPrecision(f: string, i: nat, args: seq<Arg>) returns (r: NumberScan)
    requires i <= |f|
    ensures r == Precision(f, i, args)
  {
    r := NumberScan(-1, i, args);
    if CharAt(f, i) == '.' {
      if IsDigit(CharAt(f, i + 1)) {
        r := ScanDigits(f, i + 1, args);
      } else if CharAt(f, i + 1) == '*' {
        r := IntArg(i + 2, args);
      } else {
        r := NumberScan(-1, i + 1, args);
      }
      if r.NumberScan? && r.value < 0 {
        r := r.(value := 0);
      }
    }
  }

  /** vsnprintf with a size: the longest prefix of the whole rendering that fits in size - 1, and a
      NUL; nothing from size on is touched. Without a size nothing is written. */
  method Vsnprintf(buf: array<char>, size: nat, f: string, args: seq<Arg>) returns (ok: bool, n: nat)
    requires size <= buf.Length && CString(f) && CArgs(args)
    modifies buf
    ensures size == 0 ==> ok && n == 0 && buf[..] == old(buf[..])
    ensures size > 0 ==> (ok <==> Render(f, args).Some?)
    ensures forall k | size <= k < buf.Length :: buf[k] == old(buf[k])
    ensures size > 0 && ok ==>
      var t := Render(f, args).value;
      && n == (if |t| < size - 1 then |t| else size - 1)
      && buf[..n] == t[..n] && buf[n] == '\0'
  {
    if size == 0 {
      return true, 0;
    }
    hide Render;
    var sp := new StringPrinter(buf, size);
    ok := sp.VPrintf(f, args);
    n := sp.s;
    ghost var written := buf[..n];
    assert written == sp.emitted[..n];
    buf[n] := '\0';
    assert buf[..n] == written;
  }
}
