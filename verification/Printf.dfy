/** The integer printer of printf.c and the parser of system.c that is meant to read it back. */
module Printf {
  import opened PowersOfTwo

  const PRINT_BUF_LEN := 64

  /** The flags of a conversion. */
  datatype Flags = Flags(padZero: bool, padRight: bool)

  // ---------------------------------------------------------------- what is printed

  function DigitChar(t: nat, letbase: char): char
    requires t < 36 && (letbase == 'a' || letbase == 'A')
  {
    if t >= 10 then (t - 10 + letbase as int) as char else (t + '0' as int) as char
  }

  /** The digits of u in the given base; no digits for 0. */
  function Digits(u: nat, base: nat, letbase: char): string
    requires 2 <= base <= 36 && (letbase == 'a' || letbase == 'A')
  {
    if u == 0 then "" else Digits(u / base, base, letbase) + [DigitChar(u % base, letbase)]
  }

  function Fill(c: char, n: int): (s: string)
    ensures |s| == if n > 0 then n else 0
    ensures forall i :: 0 <= i < |s| ==> s[i] == c
  {
    if n <= 0 then "" else [c] + Fill(c, n - 1)
  }

  function PadChar(flags: Flags): char {
    if flags.padZero then '0' else ' '
  }

  /** prints */
  function Padded(text: string, width: int, flags: Flags): string {
    var fill := Fill(PadChar(flags), width - |text|);
    if flags.padRight then text + fill else fill + text
  }

  /** simple_outputi for `%d`. */
  function Decimal(n: int, width: int, flags: Flags): string {
    if n == 0 then Padded("0", width, flags)
    else if n > 0 then Padded(Digits(n, 10, 'a'), width, flags)
    else if width != 0 && flags.padZero then "-" + Padded(Digits(-n, 10, 'a'), width - 1, flags)
    else Padded("-" + Digits(-n, 10, 'a'), width, flags)
  }

  /** The printed number without padding. */
  function Plain(n: int): string {
    if n == 0 then "0" else if n > 0 then Digits(n, 10, 'a') else "-" + Digits(-n, 10, 'a')
  }

  // ---------------------------------------------------------------- what is parsed

  predicate IsDigit(c: char) {
    '0' <= c <= '9'
  }

  /** The character at position i of a NUL-terminated string. */
  function At(s: string, i: nat): char {
    if i < |s| then s[i] else '\0'
  }

  function DigitValue(c: char): int {
    c as int - '0' as int
  }

  /** The loop of kernelToInt: the digits from the front of s on, accumulated with the sign. */
  function Accumulate(s: string, k: int, sgn: int): int {
    if s != "" && IsDigit(s[0]) then Accumulate(s[1..], k * 10 + DigitValue(s[0]) * sgn, sgn) else k
  }

  /** kernelToInt: the number and whether the text was taken for one. */
  function Parsed(s: string): (int, bool) {
    if !(At(s, 0) == '-' || IsDigit(At(s, 0))) then (0, false)
    else if At(s, 0) == '-' then (if IsDigit(At(s, 1)) then Accumulate(s[1..], 0, -1) else 0, true)
    else (Accumulate(s, 0, 1), true)
  }

  // ---------------------------------------------------------------- the code

  /** The padding loop of prints: `width` pad characters, none if it is not positive. */
  method OutputPadding(sofar: string, padchar: char, width: int) returns (out: string)
    ensures out == sofar + Fill(padchar, width)
  {
    out := sofar;
    var w := width;
    while w > 0
      invariant out + Fill(padchar, w) == sofar + Fill(padchar, width)
    {
      assert out + ([padchar] + Fill(padchar, w - 1)) == out + [padchar] + Fill(padchar, w - 1);
      out := out + [padchar];
      w := w - 1;
    }
    assert out + "" == out;
  }

  /** prints: the padding and the text, one character at a time, and how many characters that were. */
  method Prints(text: string, width: int, flags: Flags) returns (out: string, pc: int)
    ensures out == Padded(text, width, flags) && pc == |out|
  {
    var w := width;
    out := "";
    var padchar := ' ';
    if w > 0 {
      if |text| >= w {
        w := 0;
      } else {
        w := w - |text|;
      }
      if flags.padZero {
        padchar := '0';
      }
    }
    ghost var fill := Fill(PadChar(flags), width - |text|);
    assert fill == Fill(padchar, w);
    if !flags.padRight {
      out := OutputPadding(out, padchar, w);
      w := 0;
    }
    ghost var before := out;
    for i := 0 to |text|
      invariant out == before + text[..i]
    {
      assert before + text[..i + 1] == before + text[..i] + [text[i]];
      out := out + [text[i]];
    }
    assert out == before + text;
    out := OutputPadding(out, padchar, w);
    pc := |out|;
  }

  /** One round of the digit loop: the last digit moves from the number to the text. */
  lemma DigitMoves(u: nat, base: nat, letbase: char, room: nat, text: string)
    requires u > 0 && 2 <= base <= 36 && (letbase == 'a' || letbase == 'A') && u < Pow2(room)
    ensures Digits(u, base, letbase) + text == Digits(u / base, base, letbase) + ([DigitChar(u % base, letbase)] + text)
    ensures room > 0 && 0 <= u / base < Pow2(room - 1) && u / base < u
  {
    assert Digits(u, base, letbase) == Digits(u / base, base, letbase) + [DigitChar(u % base, letbase)];
    HalfAtLeast(u, base, Pow2(room - 1));
  }

  lemma HalfAtLeast(u: nat, base: nat, p: nat)
    requires base >= 2 && 0 < u < 2 * p
    ensures 0 <= u / base < p && u / base < u
  {
    var q := u / base;
    assert q * base <= u;
    if q >= p {
      MulMonotone(p, q, base);
      MulMonotone(2, base, p);
    }
    MulMonotone(2, base, q);
  }

  /** The digit loop of simple_outputi: the digits of u, written backwards from the end of the buffer. */
  method WriteDigits(printBuf: array<char>, number: nat, base: nat, letbase: char) returns (s: nat)
    requires printBuf.Length == PRINT_BUF_LEN && number < 0x1_0000_0000
    requires 2 <= base <= 36 && (letbase == 'a' || letbase == 'A')
    modifies printBuf
    ensures 31 <= s < PRINT_BUF_LEN
    ensures printBuf[s..PRINT_BUF_LEN - 1] == Digits(number, base, letbase)
  {
    var u: nat := number;
    s := PRINT_BUF_LEN - 1;
    ghost var room: nat := Pow2Of32();
    while u > 0
      invariant PRINT_BUF_LEN - 1 - s + room == 32 && u < Pow2(room) && s < PRINT_BUF_LEN
      invariant Digits(number, base, letbase) == Digits(u, base, letbase) + printBuf[s..PRINT_BUF_LEN - 1]
    {
      ghost var text := printBuf[s..PRINT_BUF_LEN - 1];
      DigitMoves(u, base, letbase, room, text);
      var digit := DigitChar(u % base, letbase);
      s := s - 1;
      printBuf[s] := digit;
      assert printBuf[s..PRINT_BUF_LEN - 1] == [digit] + text;
      u := u / base;
      room := room - 1;
    }
  }

  /** The C conversion of an int to an unsigned int. */
  function Unsigned(i: int): nat
    requires -0x8000_0000 <= i
  {
    if i < 0 then i + 0x1_0000_0000 else i
  }

  /** Decimal digits need no letters. */
  lemma {:induction false} LettersUnused(u: nat, letbase: char)
    requires letbase == 'a' || letbase == 'A'
    ensures Digits(u, 10, letbase) == Digits(u, 10, 'a')
  {
    if u > 0 {
      LettersUnused(u / 10, letbase);
    }
  }

  /** simple_outputi: its 64-byte buffer holds the digits of every 32-bit number and a sign. Negating the
      smallest int wraps, and as an unsigned number the result is its absolute value all the same. */
  method SimpleOutputi(i: int, base: nat, sign: bool, width: int, flags: Flags, letbase: char)
    returns (out: string, pc: int)
    requires -0x8000_0000 <= i < 0x8000_0000 && 2 <= base <= 36 && (letbase == 'a' || letbase == 'A')
    ensures pc == |out|
    ensures sign && base == 10 ==> out == Decimal(i, width, flags)
    ensures !(sign && base == 10) ==>
              out == Padded(if i == 0 then "0" else Digits(i % 0x1_0000_0000, base, letbase), width, flags)
  {
    if i == 0 {
      out, pc := Prints("0", width, flags);
      return;
    }
    var neg := sign && base == 10 && i < 0;
    var u: nat := if neg then -i else Unsigned(i);
    LettersUnused(u, letbase);
    assert Unsigned(i) == i % 0x1_0000_0000;
    var printBuf := new char[PRINT_BUF_LEN];
    var s := WriteDigits(printBuf, u, base, letbase);
    var w := width;
    pc := 0;
    var first := "";
    if neg {
      if width != 0 && flags.padZero {
        first := "-";
        pc := 1;
        w := w - 1;
      } else {
        ghost var digits := printBuf[s..PRINT_BUF_LEN - 1];
        s := s - 1;
        printBuf[s] := '-';
        assert printBuf[s..PRINT_BUF_LEN - 1] == "-" + digits;
      }
    }
    var rest, n := Prints(printBuf[s..PRINT_BUF_LEN - 1], w, flags);
    out := first + rest;
    pc := pc + n;
  }

  /** The sign in front of a number. */
  function SignOf(s: string): (n: nat)
    ensures n <= 1 && n <= |s|
  {
    if At(s, 0) == '-' && IsDigit(At(s, 1)) then 1 else 0
  }

  /** kernelToInt: the number, the response flag, and how far the returned pointer advanced: past a sign and all
      the digits behind it. A text taken for a number may still hold none: a '-' that no digit follows. */
  method KernelToInt(s: string) returns (k: int, resp: bool, pos: nat)
    ensures (k, resp) == Parsed(s)
    ensures SignOf(s) <= pos <= |s| && AllDigits(s[SignOf(s)..pos]) && !IsDigit(At(s, pos))
    ensures k == (if SignOf(s) == 1 then -1 else 1) * Value(s[SignOf(s)..pos], 10, 'a')
    ensures resp <==> At(s, 0) == '-' || IsDigit(At(s, 0))
  {
    hide Value, AllDigits;
    k := 0;
    pos := 0;
    var sgn := 1;
    resp := true;
    NoDigits(s, SignOf(s));
    if !(At(s, 0) == '-' || IsDigit(At(s, 0))) {
      return 0, false, 0;
    }
    if At(s, 0) == '-' {
      if IsDigit(At(s, 1)) {
        pos := 1;
        sgn := -1;
        k := DigitValue(At(s, 1)) * sgn;
        pos := 2;
        ShiftInDigit(0, sgn, s, 1, 1);
      } else {
        return 0, true, 0;
      }
    }
    ghost var sign := SignOf(s);
    while IsDigit(At(s, pos))
      invariant sign <= pos <= |s| && Parsed(s) == (Accumulate(s[pos..], k, sgn), true)
      invariant AllDigits(s[sign..pos]) && k == sgn * Value(s[sign..pos], 10, 'a')
      decreases |s| - pos
    {
      assert s[pos..][1..] == s[pos + 1..];
      ShiftInDigit(k, sgn, s, sign, pos);
      k := k * 10 + DigitValue(At(s, pos)) * sgn;
      pos := pos + 1;
    }
  }

  lemma NoDigits(s: string, pos: nat)
    requires pos <= |s|
    ensures AllDigits(s[pos..pos]) && Value(s[pos..pos], 10, 'a') == 0
  {
  }

  lemma ShiftInDigit(k: int, sgn: int, s: string, sign: nat, pos: nat)
    requires sign <= pos < |s| && IsDigit(s[pos])
    requires AllDigits(s[sign..pos]) && k == sgn * Value(s[sign..pos], 10, 'a')
    ensures AllDigits(s[sign..pos + 1])
    ensures k * 10 + DigitValue(s[pos]) * sgn == sgn * Value(s[sign..pos + 1], 10, 'a')
  {
    var v := Value(s[sign..pos], 10, 'a');
    LastIsWorth(s[sign..pos + 1], s[sign..pos], s[pos], 10, 'a');
    ShiftIn(v * 10 + DigitValue(s[pos]), v, DigitValue(s[pos]), sgn);
  }

  // ---------------------------------------------------------------- round trip

  predicate AllDigits(s: string) {
    forall i :: 0 <= i < |s| ==> IsDigit(s[i])
  }

  lemma {:induction false} AccumulateConcat(a: string, b: string, k: int, sgn: int)
    requires AllDigits(a)
    ensures Accumulate(a + b, k, sgn) == Accumulate(b, Accumulate(a, k, sgn), sgn)
  {
    if a == "" {
      assert a + b == b;
    } else {
      assert (a + b)[1..] == a[1..] + b;
      AccumulateConcat(a[1..], b, k * 10 + DigitValue(a[0]) * sgn, sgn);
    }
  }

  lemma {:induction false} DigitsAreDigits(u: nat)
    ensures AllDigits(Digits(u, 10, 'a'))
    ensures u > 0 ==> Digits(u, 10, 'a') != ""
  {
    if u > 0 {
      DigitsAreDigits(u / 10);
    }
  }

  /** Reading the digits of u gives u. */
  lemma {:induction false} DigitsRoundTrip(u: nat, sgn: int)
    ensures Accumulate(Digits(u, 10, 'a'), 0, sgn) == sgn * u
  {
    if u > 0 {
      var c := DigitChar(u % 10, 'a');
      DigitsRoundTrip(u / 10, sgn);
      DigitsAreDigits(u / 10);
      AccumulateConcat(Digits(u / 10, 10, 'a'), [c], 0, sgn);
      LastDigit(sgn * (u / 10), c, sgn);
      ShiftIn(u, u / 10, u % 10, sgn);
    }
  }

  // ---------------------------------------------------------------- any base

  /** What a digit is worth: the letters go on where 9 ends. */
  function Worth(c: char, letbase: char): int {
    if IsDigit(c) then DigitValue(c) else 10 + (c as int - letbase as int)
  }

  /** The number a text of digits stands for. */
  function Value(text: string, base: nat, letbase: char): int {
    if text == "" then 0 else Value(text[..|text| - 1], base, letbase) * base + Worth(text[|text| - 1], letbase)
  }

  lemma DigitIsWorth(t: nat, letbase: char)
    requires t < 36 && (letbase == 'a' || letbase == 'A')
    ensures Worth(DigitChar(t, letbase), letbase) == t && (t > 0 ==> DigitChar(t, letbase) != '0')
    ensures t < 10 <==> IsDigit(DigitChar(t, letbase))
  {
  }

  lemma OneDigit(u: nat, base: nat, letbase: char) returns (q: nat, t: nat)
    requires u > 0 && 2 <= base <= 36 && (letbase == 'a' || letbase == 'A')
    ensures q < u && t < base && q * base + t == u && (q == 0 ==> t > 0)
    ensures Digits(u, base, letbase) == Digits(q, base, letbase) + [DigitChar(t, letbase)]
    ensures Digits(0, base, letbase) == ""
  {
    q, t := u / base, u % base;
    HalfAtLeast(u, base, u);
  }

  /** What is printed stands for the number, in every base and with either kind of letters, without leading zeros. */
  lemma {:induction false} DigitsStandFor(u: nat, base: nat, letbase: char)
    requires 2 <= base <= 36 && (letbase == 'a' || letbase == 'A')
    ensures Value(Digits(u, base, letbase), base, letbase) == u
    ensures u > 0 ==> Digits(u, base, letbase) != "" && Digits(u, base, letbase)[0] != '0'
  {
    if u > 0 {
      hide Worth, DigitChar, Digits, Value;
      var q, t := OneDigit(u, base, letbase);
      DigitsStandFor(q, base, letbase);
      DigitIsWorth(t, letbase);
      LastIsWorth(Digits(u, base, letbase), Digits(q, base, letbase), DigitChar(t, letbase), base, letbase);
    }
  }

  lemma LastIsWorth(text: string, front: string, c: char, base: nat, letbase: char)
    requires text == front + [c]
    ensures Value(text, base, letbase) == Value(front, base, letbase) * base + Worth(c, letbase)
    ensures text != "" && text[0] == if front == "" then c else front[0]
  {
    assert text[..|text| - 1] == front;
  }

  lemma ShiftIn(u: int, q: int, r: int, sgn: int)
    requires u == 10 * q + r
    ensures sgn * u == sgn * q * 10 + r * sgn
  {
  }

  lemma LastDigit(k: int, c: char, sgn: int)
    requires IsDigit(c)
    ensures Accumulate([c], k, sgn) == k * 10 + DigitValue(c) * sgn
  {
    assert [c][1..] == "";
  }

  lemma {:induction false} LeadingZeros(n: int, sgn: int)
    ensures Accumulate(Fill('0', n), 0, sgn) == 0
    ensures AllDigits(Fill('0', n))
    decreases n
  {
    if n > 0 {
      LeadingZeros(n - 1, sgn);
      assert Fill('0', n)[1..] == Fill('0', n - 1);
    }
  }

  /** Trailing zeros keep the number exactly when it is 0 or there are none. */
  lemma {:induction false} TrailingZeros(n: int, k: int, sgn: int)
    ensures Accumulate(Fill('0', n), k, sgn) == k <==> n <= 0 || k == 0
    ensures k > 0 ==> Accumulate(Fill('0', n), k, sgn) >= k
    ensures k < 0 ==> Accumulate(Fill('0', n), k, sgn) <= k
    decreases n
  {
    if n > 0 {
      assert Fill('0', n)[1..] == Fill('0', n - 1);
      TrailingZeros(n - 1, k * 10, sgn);
    }
  }

  lemma StopsAtSpace(n: int, k: int, sgn: int)
    ensures Accumulate(Fill(' ', n), k, sgn) == k
  {
  }

  /** Padding that kernelToInt cannot see through: blanks in front, or zeros behind a number that is not 0. */
  predicate Spoiled(n: int, width: int, flags: Flags) {
    width > |Plain(n)| && if flags.padZero then flags.padRight && n != 0 else !flags.padRight
  }

  /** Reading the digits of u with padding on either side. */
  lemma PaddedDigits(u: nat, width: int, flags: Flags, sgn: int)
    requires u > 0 && (sgn == 1 || sgn == -1)
    requires flags.padZero || flags.padRight || width <= |Digits(u, 10, 'a')|
    ensures Accumulate(Padded(Digits(u, 10, 'a'), width, flags), 0, sgn) == sgn * u <==>
            !(width > |Digits(u, 10, 'a')| && flags.padZero && flags.padRight)
    ensures IsDigit(At(Padded(Digits(u, 10, 'a'), width, flags), 0))
  {
    var d := Digits(u, 10, 'a');
    var fill := Fill(PadChar(flags), width - |d|);
    DigitsAreDigits(u);
    DigitsRoundTrip(u, sgn);
    AccumulateConcat(d, fill, 0, sgn);
    if flags.padRight {
      TrailingZeros(width - |d|, sgn * u, sgn);
      StopsAtSpace(width - |d|, sgn * u, sgn);
    } else if flags.padZero {
      LeadingZeros(width - |d|, sgn);
      AccumulateConcat(fill, d, 0, sgn);
    } else {
      assert fill + d == d;
    }
  }

  lemma BlanksInFront(text: string, width: int)
    requires width > |text|
    ensures !Parsed(Fill(' ', width - |text|) + text).1
  {
  }

  lemma RoundTripZero(width: int, flags: Flags)
    ensures Parsed(Decimal(0, width, flags)) == (0, true) <==> !Spoiled(0, width, flags)
  {
    var fill := Fill(PadChar(flags), width - 1);
    assert AllDigits("0");
    assert Accumulate("0", 0, 1) == 0 by { LastDigit(0, '0', 1); }
    AccumulateConcat("0", fill, 0, 1);
    if flags.padRight {
      TrailingZeros(width - 1, 0, 1);
      StopsAtSpace(width - 1, 0, 1);
    } else if flags.padZero {
      LeadingZeros(width - 1, 1);
      AccumulateConcat(fill, "0", 0, 1);
    } else if width > 1 {
      BlanksInFront("0", width);
    } else {
      assert fill + "0" == "0";
    }
  }

  lemma RoundTripPositive(n: nat, width: int, flags: Flags)
    requires n > 0
    ensures Parsed(Decimal(n, width, flags)) == (n as int, true) <==> !Spoiled(n, width, flags)
  {
    var d := Digits(n, 10, 'a');
    if !flags.padZero && !flags.padRight && width > |d| {
      BlanksInFront(d, width);
    } else {
      PaddedDigits(n, width, flags, 1);
    }
  }

  /** Zero padding after the sign. */
  lemma RoundTripSignFirst(n: int, width: int, flags: Flags)
    requires n < 0 && width != 0 && flags.padZero
    ensures Parsed(Decimal(n, width, flags)) == (n, true) <==> !Spoiled(n, width, flags)
  {
    hide Digits, Padded, Parsed, Accumulate;
    var body := Padded(Digits(-n, 10, 'a'), width - 1, flags);
    PaddedDigits(-n, width - 1, flags, -1);
    SignedBody(body);
  }

  lemma SignedBody(body: string)
    requires IsDigit(At(body, 0))
    ensures Parsed("-" + body) == (Accumulate(body, 0, -1), true)
  {
    var out := "-" + body;
    assert out[1..] == body && At(out, 1) == At(body, 0);
  }

  /** The sign as part of the padded text, with no blanks in front. */
  lemma RoundTripSignedText(n: int, width: int, flags: Flags)
    requires n < 0 && !(width != 0 && flags.padZero)
    requires flags.padRight || width <= |Plain(n)|
    ensures Parsed(Decimal(n, width, flags)) == (n, true)
  {
    var d, fill := Digits(-n, 10, 'a'), Fill(' ', width - |Plain(n)|);
    DigitsAreDigits(-n);
    DigitsThenBlanks(-n, width - |Plain(n)|);
    assert Decimal(n, width, flags) == "-" + d + fill;
    assert "-" + d + fill == "-" + (d + fill);
    SignedBody(d + fill);
  }

  lemma DigitsThenBlanks(u: nat, n: int)
    ensures Accumulate(Digits(u, 10, 'a') + Fill(' ', n), 0, -1) == 0 - u
  {
    DigitsAreDigits(u);
    DigitsRoundTrip(u, -1);
    AccumulateConcat(Digits(u, 10, 'a'), Fill(' ', n), 0, -1);
    StopsAtSpace(n, 0 - u, -1);
  }

  lemma RoundTripNegative(n: int, width: int, flags: Flags)
    requires n < 0
    ensures Parsed(Decimal(n, width, flags)) == (n, true) <==> !Spoiled(n, width, flags)
  {
    if width != 0 && flags.padZero {
      RoundTripSignFirst(n, width, flags);
    } else if flags.padRight || width <= |Plain(n)| {
      RoundTripSignedText(n, width, flags);
    } else {
      BlanksInFront(Plain(n), width);
    }
  }

  /** The round trip, for every number, width and flags: kernelToInt gives the printed number back exactly
      when the padding does not spoil it. */
  lemma RoundTripIff(n: int, width: int, flags: Flags)
    ensures Parsed(Decimal(n, width, flags)) == (n, true) <==> !Spoiled(n, width, flags)
  {
    if n == 0 {
      RoundTripZero(width, flags);
    } else if n > 0 {
      RoundTripPositive(n, width, flags);
    } else {
      RoundTripNegative(n, width, flags);
    }
  }

  /** The reported count is the larger of the width and the number's own length. */
  lemma CountIsMax(n: int, width: int, flags: Flags)
    ensures |Decimal(n, width, flags)| == if width > |Plain(n)| then width else |Plain(n)|
  {
    if n < 0 {
      DigitsAreDigits(-n);
    }
  }
}
