/** The kernel's number printer and its string formatter. */
module Printing {

  type Word = x: int | 0 <= x < 0x1_0000_0000

  const DIGITS: string := "0123456789ABCDEFGHIJKLMNOPQRSTUVWXYZ"

  // ---- Numerals

  function Digit(d: nat): char
    requires d < 36
  {
    if d < 10 then ('0' as int + d) as char else ('A' as int + d - 10) as char
  }

  // Products and quotients by repeated addition and subtraction, so that proofs
  // about numerals need linear arithmetic only.

  function Times(q: nat, d: nat): nat {
    if q == 0 then 0 else Times(q - 1, d) + d
  }

  function Quotient(n: nat, d: nat): (q: nat)
    requires d >= 2
    ensures n < d <==> q == 0
    ensures q > 0 ==> q < n
  {
    if n < d then 0 else 1 + Quotient(n - d, d)
  }

  function Remainder(n: nat, d: nat): (r: nat)
    requires d >= 2
    ensures r < d
  {
    if n < d then n else Remainder(n - d, d)
  }

  lemma {:induction false} TimesIsProduct(q: nat, d: nat)
    ensures Times(q, d) == q * d
  {
    if q > 0 {
      TimesIsProduct(q - 1, d);
    }
  }

  lemma {:induction false} Divides(n: nat, d: nat)
    requires d >= 2
    ensures n == Times(Quotient(n, d), d) + Remainder(n, d)
  {
    if n >= d {
      Divides(n - d, d);
    }
  }

  lemma {:induction false} DividesOnce(n: nat, d: nat, q: nat, r: nat)
    requires d >= 2 && r < d && n == Times(q, d) + r
    ensures Quotient(n, d) == q && Remainder(n, d) == r
    decreases q
  {
    if q > 0 {
      DividesOnce(n - d, d, q - 1, r);
    }
  }

  lemma QuotientIsQuotient(n: nat, d: nat)
    requires d >= 2
    ensures Quotient(n, d) == n / d && Remainder(n, d) == n % d
  {
    TimesIsProduct(n / d, d);
    DividesOnce(n, d, n / d, n % d);
  }

  /** The digits of `n` without leading zeros. */
  function Numeral(n: nat, radix: nat): (s: string)
    requires 2 <= radix <= 36
    ensures s != []
  {
    if n < radix then [Digit(n)] else Numeral(Quotient(n, radix), radix) + [Digit(Remainder(n, radix))]
  }

  /** The value of a digit, by the order of the characters. */
  function Value(c: char): int {
    if '0' <= c <= '9' then c as int - '0' as int
    else if 'A' <= c <= 'Z' then c as int - 'A' as int + 10
    else -1
  }

  predicate IsNumeral(s: string, radix: nat) {
    && s != [] && (|s| > 1 ==> s[0] != '0')
    && forall i :: 0 <= i < |s| ==> 0 <= Value(s[i]) < radix
  }

  /** The number a row of digits stands for. */
  function Parse(s: string, radix: nat): (n: nat)
    requires forall i :: 0 <= i < |s| ==> 0 <= Value(s[i]) < radix
  {
    if s == [] then 0 else Times(Parse(s[..|s| - 1], radix), radix) + Value(s[|s| - 1])
  }

  function Power(radix: nat, k: nat): nat {
    if k == 0 then 1 else Power(radix, k - 1) * radix
  }

  lemma ValueOfDigit(d: nat)
    requires d < 36
    ensures Value(Digit(d)) == d && Digit(d) != '-' && (Digit(d) == '0' <==> d == 0) && Digit(d) != '\0'
  {
  }

  lemma DigitOfValue(c: char)
    requires 0 <= Value(c)
    ensures Value(c) < 36 && Digit(Value(c)) == c
  {
  }

  lemma ParseOneMore(s: string, c: char, radix: nat)
    requires forall i :: 0 <= i < |s| ==> 0 <= Value(s[i]) < radix
    requires 0 <= Value(c) < radix
    ensures (forall i :: 0 <= i < |s + [c]| ==> 0 <= Value((s + [c])[i]) < radix)
    ensures Parse(s + [c], radix) == Times(Parse(s, radix), radix) + Value(c)
  {
    assert (s + [c])[..|s|] == s;
  }

  /** Printing and reading back gives the number; the text has no leading zero. */
  lemma {:induction false} ParseNumeral(n: nat, radix: nat)
    requires 2 <= radix <= 36
    ensures IsNumeral(Numeral(n, radix), radix)
    ensures Parse(Numeral(n, radix), radix) == n
    ensures n > 0 ==> Numeral(n, radix)[0] != '0'
  {
    if n < radix {
      ValueOfDigit(n);
      ParseOneMore([], Digit(n), radix);
      assert [] + [Digit(n)] == [Digit(n)];
    } else {
      var high, low := Quotient(n, radix), Remainder(n, radix);
      Divides(n, radix);
      ParseNumeral(high, radix);
      ValueOfDigit(low);
      ParseOneMore(Numeral(high, radix), Digit(low), radix);
    }
  }

  lemma {:induction false} NumeralIsPositive(s: string, radix: nat)
    requires 2 <= radix <= 36 && IsNumeral(s, radix) && s[0] != '0'
    ensures Parse(s, radix) > 0
  {
    if |s| > 1 {
      NumeralIsPositive(s[..|s| - 1], radix);
    }
  }

  lemma NumeralOneMore(q: nat, d: nat, radix: nat)
    requires 2 <= radix <= 36 && q > 0 && d < radix
    ensures Numeral(Times(q, radix) + d, radix) == Numeral(q, radix) + [Digit(d)]
  {
    DividesOnce(Times(q, radix) + d, radix, q, d);
  }

  /** Reading a text without leading zeros and printing gives the text: the
      printed form is the only one. */
  lemma {:induction false} NumeralOfParse(s: string, radix: nat)
    requires 2 <= radix <= 36 && IsNumeral(s, radix)
    ensures Numeral(Parse(s, radix), radix) == s
  {
    var high, c := s[..|s| - 1], s[|s| - 1];
    DigitOfValue(c);
    assert s == high + [c];
    if high != [] {
      NumeralOfParse(high, radix);
      NumeralIsPositive(high, radix);
      NumeralOneMore(Parse(high, radix), Value(c), radix);
    }
  }

  lemma {:induction false} Shrinks(n: nat, radix: nat, p: nat)
    requires 2 <= radix
    ensures Quotient(n, radix) < p <==> n < Times(p, radix)
  {
    if p > 0 && n >= radix {
      Shrinks(n - radix, radix, p - 1);
    }
  }

  /** The number of digits. */
  lemma {:induction false} NumeralLength(n: nat, radix: nat, k: nat)
    requires 2 <= radix <= 36 && k > 0
    ensures |Numeral(n, radix)| <= k <==> n < Power(radix, k)
  {
    if n < radix {
      PowerGrows(radix, k);
    } else if k > 1 {
      NumeralLength(Quotient(n, radix), radix, k - 1);
      Shrinks(n, radix, Power(radix, k - 1));
      TimesIsProduct(Power(radix, k - 1), radix);
    } else {
      assert Power(radix, 0) == 1;
    }
  }

  lemma {:induction false} PowerGrows(radix: nat, k: nat)
    requires 2 <= radix && k > 0
    ensures Power(radix, k) >= radix
  {
    if k > 1 {
      PowerGrows(radix, k - 1);
    }
  }

  /** The buffers of twelve characters hold every 32-bit number. */
  lemma BuffersSuffice(n: Word)
    ensures |Numeral(n, 10)| <= 10 && |Numeral(n, 16)| <= 8
  {
    assert Power(10, 5) == 100_000;
    assert Power(10, 10) == 10_000_000_000;
    assert Power(16, 4) == 0x1_0000;
    assert Power(16, 8) == 0x1_0000_0000;
    NumeralLength(n, 10, 10);
    NumeralLength(n, 16, 8);
  }

  // ---- The printer

  function Reversed(s: string): (r: string)
    ensures |r| == |s| && forall i :: 0 <= i < |s| ==> r[i] == s[|s| - 1 - i]
  {
    seq(|s|, i requires 0 <= i < |s| => s[|s| - 1 - i])
  }

  lemma ReversedOneMore(s: string, c: char)
    ensures Reversed(s + [c]) == [c] + Reversed(s)
  {
  }

  /** The text that is in the buffer, up to its end mark. */
  predicate Holds(buffer: seq<char>, s: string) {
    |s| < |buffer| && buffer[..|s|] == s && buffer[|s|] == '\0'
  }

  /** `s32_itoa`: the digits are written from the lowest on, then turned round in place. */
  method Itoa(n: Word, str: array<char>, radix: nat)
    requires 2 <= radix <= 36 && |Numeral(n, radix)| < str.Length
    modifies str
    ensures Holds(str[..], Numeral(n, radix))
    ensures forall i :: |Numeral(n, radix)| < i < str.Length ==> str[i] == old(str[i])
  {
    if n == 0 {
      str[0] := '0';
      str[1] := '\0';
      return;
    }
    var p := WriteDigits(n, str, radix);
    str[p] := '\0';
    assert str[..p] == Reversed(Numeral(n, radix));
    ParseNumeral(n, radix);
    forall i | 0 <= i < p ensures str[i] != '-' {
      assert Value(Numeral(n, radix)[p - 1 - i]) >= 0;
    }
    TurnRound(str, p);
    assert str[..p] == Numeral(n, radix);
  }

  /** The digits that are still to be written. */
  function Rest(m: nat, radix: nat): string
    requires 2 <= radix <= 36
  {
    if m == 0 then "" else Numeral(m, radix)
  }

  /** The last digit that is left, from the table, and what is left in front of it. */
  method NextDigit(m: nat, radix: nat) returns (c: char, high: nat)
    requires m > 0 && 2 <= radix <= 36
    ensures high < m && Rest(m, radix) == Rest(high, radix) + [c]
  {
    QuotientIsQuotient(m, radix);
    c := DIGITS[m % radix];
    high := m / radix;
  }

  method WriteDigits(n: Word, str: array<char>, radix: nat) returns (p: nat)
    requires n > 0 && 2 <= radix <= 36 && |Numeral(n, radix)| < str.Length
    modifies str
    ensures p == |Numeral(n, radix)| && str[..p] == Reversed(Numeral(n, radix))
    ensures forall i :: p <= i < str.Length ==> str[i] == old(str[i])
  {
    p := 0;
    var m: nat := n;
    while m != 0
      invariant p <= |Numeral(n, radix)|
      invariant Numeral(n, radix) == Rest(m, radix) + Reversed(str[..p])
      invariant forall i :: p <= i < str.Length ==> str[i] == old(str[i])
    {
      ghost var done := str[..p];
      var c, high := NextDigit(m, radix);
      str[p] := c;
      p := p + 1;
      m := high;
      ReversedOneMore(done, c);
      assert str[..p] == done + [c];
    }
    assert str[..p] == Reversed(Reversed(str[..p]));
  }

  /** Characters are swapped unless a sign stands before the later one. */
  method TurnRound(str: array<char>, length: nat)
    requires 0 < length <= str.Length && forall i :: 0 <= i < length ==> str[i] != '-'
    modifies str
    ensures str[..length] == Reversed(old(str[..length]))
    ensures forall i :: length <= i < str.Length ==> str[i] == old(str[i])
  {
    var head, p := 0, length - 1;
    while head < p
      invariant head + p == length - 1 && head <= p + 1
      invariant forall i :: 0 <= i < head || p < i < length ==> str[i] == old(str[length - 1 - i])
      invariant forall i :: head <= i <= p || length <= i < str.Length ==> str[i] == old(str[i])
    {
      var temp := str[head];
      if str[p - 1] != '-' {
        str[head] := str[p];
        str[p] := temp;
      }
      head, p := head + 1, p - 1;
    }
  }

  // ---- The formatter

  /** What a word used as a string pointer leads to, up to the end mark. */
  type Texts = Word -> string

  /** No percent sign stands alone at the end. */
  predicate Complete(format: string) {
    if format == "" then true
    else if format[0] != '%' then Complete(format[1..])
    else |format| > 1 && Complete(format[2..])
  }

  /** One argument is taken for every directive, known or not. */
  function Uses(format: string): nat
    requires Complete(format)
  {
    if format == "" then 0 else if format[0] != '%' then Uses(format[1..]) else 1 + Uses(format[2..])
  }

  function Printed(directive: char, argument: Word, texts: Texts): string {
    match directive
    case 'c' => [(argument % 0x100) as char]
    case 'd' => Numeral(argument, 10)
    case 'x' => Numeral(argument, 16)
    case 's' => texts(argument)
    case _ => ""
  }

  function Format(format: string, arguments: seq<Word>, texts: Texts): string
    requires Complete(format) && |arguments| >= Uses(format)
  {
    if format == "" then ""
    else if format[0] != '%' then [format[0]] + Format(format[1..], arguments, texts)
    else Printed(format[1], arguments[0], texts) + Format(format[2..], arguments[1..], texts)
  }

  lemma {:induction false} PlainTextStays(format: string, arguments: seq<Word>, texts: Texts)
    requires '%' !in format
    ensures Complete(format) && Uses(format) == 0 && Format(format, arguments, texts) == format
  {
    if format != "" {
      PlainTextStays(format[1..], arguments, texts);
    }
  }

  lemma {:induction false} UsesSplit(f: string, g: string)
    requires Complete(f) && Complete(g)
    ensures Complete(f + g) && Uses(f + g) == Uses(f) + Uses(g)
    decreases |f|
  {
    if f == "" {
      assert f + g == g;
    } else if f[0] != '%' {
      UsesSplit(f[1..], g);
      assert (f + g)[1..] == f[1..] + g;
    } else {
      UsesSplit(f[2..], g);
      assert (f + g)[2..] == f[2..] + g;
    }
  }

  lemma {:induction false} FormatOfCharacter(f: string, g: string, arguments: seq<Word>, texts: Texts)
    requires Complete(f) && Complete(f + g) && Uses(f) <= Uses(f + g) <= |arguments| && f != "" && f[0] != '%'
    ensures Complete(f[1..] + g) && Uses(f[1..] + g) == Uses(f + g) && Uses(f[1..]) == Uses(f)
    ensures Format(f, arguments, texts) == [f[0]] + Format(f[1..], arguments, texts)
    ensures Format(f + g, arguments, texts) == [f[0]] + Format(f[1..] + g, arguments, texts)
  {
    assert (f + g)[1..] == f[1..] + g;
  }

  lemma FormatOfDirective(f: string, g: string, arguments: seq<Word>, texts: Texts)
    requires Complete(f) && Complete(f + g) && Uses(f) <= Uses(f + g) <= |arguments| && f != "" && f[0] == '%'
    ensures Complete(f[2..] + g) && Uses(f[2..] + g) == Uses(f + g) - 1 && Uses(f[2..]) == Uses(f) - 1
    ensures Format(f, arguments, texts)
         == Printed(f[1], arguments[0], texts) + Format(f[2..], arguments[1..], texts)
    ensures Format(f + g, arguments, texts)
         == Printed(f[1], arguments[0], texts) + Format(f[2..] + g, arguments[1..], texts)
  {
    assert (f + g)[2..] == f[2..] + g;
  }

  /** A format is printed part by part, each with the arguments that are left. */
  lemma {:induction false} FormatSplits(f: string, g: string, arguments: seq<Word>, texts: Texts)
    requires Complete(f) && Complete(g) && Uses(f) + Uses(g) <= |arguments|
    ensures Complete(f + g) && Uses(f + g) == Uses(f) + Uses(g)
    ensures Format(f + g, arguments, texts) == Format(f, arguments, texts) + Format(g, arguments[Uses(f)..], texts)
    decreases |f|
  {
    UsesSplit(f, g);
    if f == "" {
      assert f + g == g && arguments[0..] == arguments;
    } else if f[0] != '%' {
      FormatOfCharacter(f, g, arguments, texts);
      var front, back := Format(f[1..], arguments, texts), Format(g, arguments[Uses(f)..], texts);
      FormatSplits(f[1..], g, arguments, texts);
      Together([f[0]], front, back);
    } else {
      FormatOfDirective(f, g, arguments, texts);
      var rest := arguments[1..];
      assert rest[Uses(f) - 1..] == arguments[Uses(f)..];
      var front, back := Format(f[2..], rest, texts), Format(g, rest[Uses(f) - 1..], texts);
      FormatSplits(f[2..], g, rest, texts);
      Together(Printed(f[1], arguments[0], texts), front, back);
    }
  }

  lemma Together(a: string, b: string, c: string)
    ensures a + (b + c) == a + b + c
  {
  }

  /** Arguments beyond the last directive are not looked at. */
  lemma {:induction false} SpareArgumentsIgnored(f: string, arguments: seq<Word>, spare: seq<Word>, texts: Texts)
    requires Complete(f) && |arguments| >= Uses(f)
    ensures Format(f, arguments + spare, texts) == Format(f, arguments, texts)
    decreases |f|
  {
    if f == "" {
    } else if f[0] != '%' {
      SpareArgumentsIgnored(f[1..], arguments, spare, texts);
    } else {
      assert (arguments + spare)[1..] == arguments[1..] + spare;
      SpareArgumentsIgnored(f[2..], arguments[1..], spare, texts);
    }
  }

  lemma DirectiveAlone(d: char, n: Word, texts: Texts)
    ensures Complete(['%', d]) && Uses(['%', d]) == 1 && Format(['%', d], [n], texts) == Printed(d, n, texts)
  {
    var f := ['%', d];
    assert f[2..] == "" && [n][1..] == [];
    assert Format(f, [n], texts) == Printed(d, n, texts) + Format(f[2..], [n][1..], texts);
  }

  /** What each directive prints: a decimal or a hexadecimal numeral that stands
      for the argument, the character with the lowest eight bits of it, the string
      it points to; any other directive nothing. */
  lemma DirectivesPrint(n: Word, texts: Texts, d: char)
    ensures Complete(['%', d]) && Uses(['%', d]) == 1
    ensures var text := Format(['%', d], [n], texts);
            && (d == 'd' ==> IsNumeral(text, 10) && Parse(text, 10) == n)
            && (d == 'x' ==> IsNumeral(text, 16) && Parse(text, 16) == n)
            && (d == 'c' ==> text == [(n % 0x100) as char])
            && (d == 's' ==> text == texts(n))
            && (d != 'd' && d != 'x' && d != 'c' && d != 's' ==> text == "")
  {
    DirectiveAlone(d, n, texts);
    ParseNumeral(n, 10);
    ParseNumeral(n, 16);
  }

  lemma Reads(s: string, c: char, radix: nat, high: nat, t: string)
    requires 2 <= radix <= 36 && 0 <= Value(c) < radix && t == s + [c]
    requires (forall i :: 0 <= i < |s| ==> 0 <= Value(s[i]) < radix) && Parse(s, radix) == high
    ensures (forall i :: 0 <= i < |t| ==> 0 <= Value(t[i]) < radix)
    ensures Parse(t, radix) == high * radix + Value(c)
  {
    ParseOneMore(s, c, radix);
    TimesIsProduct(high, radix);
  }

  lemma KnownHexadecimal()
    ensures Numeral(0xbe, 16) == "BE"
  {
    Reads("", 'B', 16, 0, "B");
    Reads("B", 'E', 16, 0xb, "BE");
    NumeralOfParse("BE", 16);
  }

  lemma KnownDecimal()
    ensures Numeral(42, 10) == "42"
  {
    Reads("", '4', 10, 0, "4");
    Reads("4", '2', 10, 4, "42");
    NumeralOfParse("42", 10);
  }

  /** Two numbers as they are printed. */
  lemma KnownNumerals(texts: Texts)
    ensures Complete(['%', 'x']) && Uses(['%', 'x']) == 1 && Format(['%', 'x'], [0xbe], texts) == "BE"
    ensures Complete(['%', 'd']) && Uses(['%', 'd']) == 1 && Format(['%', 'd'], [42], texts) == "42"
  {
    DirectiveAlone('x', 0xbe, texts);
    DirectiveAlone('d', 42, texts);
    KnownHexadecimal();
    KnownDecimal();
  }

  /** Copies a string behind what is already in the buffer. */
  method CopyText(buffer: array<char>, p: nat, text: string) returns (q: nat)
    requires p + |text| < buffer.Length
    modifies buffer
    ensures q == p + |text| && buffer[..q] == old(buffer[..p]) + text
    ensures forall i :: q <= i < buffer.Length ==> buffer[i] == old(buffer[i])
  {
    q := p;
    while q < p + |text|
      invariant p <= q <= p + |text| && buffer[..q] == old(buffer[..p]) + text[..q - p]
      invariant forall i :: q <= i < buffer.Length ==> buffer[i] == old(buffer[i])
    {
      buffer[q] := text[q - p];
      q := q + 1;
    }
  }

  /** Prints a number to a buffer of twelve characters, and copies it up to its end mark. */
  method CopyNumber(buffer: array<char>, p: nat, n: Word, radix: nat) returns (q: nat)
    requires (radix == 10 || radix == 16) && p + |Numeral(n, radix)| < buffer.Length
    modifies buffer
    ensures q == p + |Numeral(n, radix)| && buffer[..q] == old(buffer[..p]) + Numeral(n, radix)
    ensures forall i :: q <= i < buffer.Length ==> buffer[i] == old(buffer[i])
  {
    var str := new char[12];
    BuffersSuffice(n);
    Itoa(n, str, radix);
    ghost var s := Numeral(n, radix);
    NumeralHasNoEnd(n, radix, str[..]);
    var i := 0;
    while str[i] != '\0'
      invariant i <= |s| && Holds(str[..], s)
      invariant buffer[..p + i] == old(buffer[..p]) + s[..i]
      invariant forall j :: p + i <= j < buffer.Length ==> buffer[j] == old(buffer[j])
      decreases |s| - i
    {
      assert i < |s| && str[i] == s[i];
      buffer[p + i] := str[i];
      i := i + 1;
    }
    assert i == |s| && s[..i] == s;
    q := p + i;
  }

  lemma NumeralHasNoEnd(n: nat, radix: nat, buffer: seq<char>)
    requires 2 <= radix <= 36 && Holds(buffer, Numeral(n, radix))
    ensures forall i :: 0 <= i < |Numeral(n, radix)| ==> buffer[i] != '\0'
  {
    ParseNumeral(n, radix);
    forall i | 0 <= i < |Numeral(n, radix)| ensures buffer[i] != '\0' {
      assert buffer[..|Numeral(n, radix)|][i] == Numeral(n, radix)[i];
      assert Value(Numeral(n, radix)[i]) >= 0;
    }
  }

  method CopyPrinted(buffer: array<char>, p: nat, directive: char, argument: Word, texts: Texts) returns (q: nat)
    requires p + |Printed(directive, argument, texts)| < buffer.Length
    modifies buffer
    ensures q == p + |Printed(directive, argument, texts)|
    ensures buffer[..q] == old(buffer[..p]) + Printed(directive, argument, texts)
    ensures forall i :: q <= i < buffer.Length ==> buffer[i] == old(buffer[i])
  {
    match directive
    case 'c' =>
      buffer[p] := (argument % 0x100) as char;
      q := p + 1;
    case 'd' => q := CopyNumber(buffer, p, argument, 10);
    case 'x' => q := CopyNumber(buffer, p, argument, 16);
    case 's' => q := CopyText(buffer, p, texts(argument));
    case _ => q := p;
  }

  /** `s32_vsprintf`: the answer is one less than the number of characters. */
  method VsPrintf(buffer: array<char>, format: string, arguments: seq<Word>, texts: Texts) returns (r: int)
    requires Complete(format) && |arguments| >= Uses(format)
    requires |Format(format, arguments, texts)| < buffer.Length
    modifies buffer
    ensures Holds(buffer[..], Format(format, arguments, texts))
    ensures r == |Format(format, arguments, texts)| - 1
    ensures forall i :: |Format(format, arguments, texts)| < i < buffer.Length ==> buffer[i] == old(buffer[i])
  {
    ghost var all := Format(format, arguments, texts);
    var p: nat, f: nat, a: nat := 0, 0, 0;
    while f < |format|
      invariant f <= |format| && a <= |arguments| && p <= |all|
      invariant StillToPrint(all, buffer[..p], format[f..], arguments[a..], texts)
      invariant forall i :: p <= i < buffer.Length ==> buffer[i] == old(buffer[i])
    {
      ghost var left, unused, done := format[f..], arguments[a..], buffer[..p];
      if format[f] != '%' {
        PrintCharacter(all, done, left, unused, texts);
        buffer[p] := format[f];
        p := p + 1;
        f := f + 1;
        assert buffer[..p] == done + [left[0]] && format[f..] == left[1..];
      } else {
        PrintDirective(all, done, left, unused, texts);
        f := f + 1;
        p := CopyPrinted(buffer, p, format[f], arguments[a], texts);
        a := a + 1;
        f := f + 1;
        assert format[f..] == left[2..] && arguments[a..] == unused[1..];
      }
    }
    buffer[p] := '\0';
    assert buffer[..p] == all;
    r := p - 1;
  }

  /** `done` is printed; the rest of the text comes from the rest of the format. */
  ghost predicate StillToPrint(all: string, done: string, left: string, unused: seq<Word>, texts: Texts) {
    Complete(left) && |unused| >= Uses(left) && all == done + Format(left, unused, texts)
  }

  lemma PrintCharacter(all: string, done: string, left: string, unused: seq<Word>, texts: Texts)
    requires StillToPrint(all, done, left, unused, texts) && left != "" && left[0] != '%'
    ensures |done| < |all| && StillToPrint(all, done + [left[0]], left[1..], unused, texts)
  {
  }

  lemma PrintDirective(all: string, done: string, left: string, unused: seq<Word>, texts: Texts)
    requires StillToPrint(all, done, left, unused, texts) && left != "" && left[0] == '%'
    ensures |left| > 1 && |unused| > 0 && |done + Printed(left[1], unused[0], texts)| <= |all|
    ensures StillToPrint(all, done + Printed(left[1], unused[0], texts), left[2..], unused[1..], texts)
  {
  }
}
