/** Integer printing in src/common/printf.c: what is printed reads back as the number. */
module Printfs {
  import opened Integers

  const NTOA_BUFFER_SIZE: nat := 32
  const WORD: nat := 0x1_0000_0000

  type Word = x: int | 0 <= x < WORD

  /** The flags but for HASH. */
  datatype Flags = Flags(zeropad: bool, left: bool, plus: bool, space: bool, uppercase: bool, precision: bool)

  // ---------------------------------------------------------------------------------------------
  // Numerals.

  predicate IsBase(base: nat) {
    base == 2 || base == 8 || base == 10 || base == 16
  }

  /** All digits of v but the last; the case split keeps the arithmetic linear. */
  function Rest(v: nat, base: nat): (q: nat)
    requires IsBase(base)
    ensures 2 * q <= v && (q == 0 <==> v < base)
  {
    if base == 2 then v / 2 else if base == 8 then v / 8 else if base == 10 then v / 10 else v / 16
  }

  function LastDigit(v: nat, base: nat): (d: nat)
    requires IsBase(base)
    ensures d < base
  {
    if base == 2 then v % 2 else if base == 8 then v % 8 else if base == 10 then v % 10 else v % 16
  }

  lemma DivMod(v: nat, base: nat)
    requires IsBase(base)
    ensures Rest(v, base) == v / base && LastDigit(v, base) == v % base
    ensures v == Rest(v, base) * base + LastDigit(v, base)
  {
  }

  function DigitChar(d: nat, upper: bool): char
    requires d < 16
  {
    if d < 10 then '0' + d as char else (if upper then 'A' else 'a') + (d - 10) as char
  }

  /** The numeral of v, most significant digit first. */
  function Text(v: nat, base: nat, upper: bool): (s: string)
    requires IsBase(base)
    decreases v
  {
    if v < base then [DigitChar(v, upper)]
    else Text(Rest(v, base), base, upper) + [DigitChar(LastDigit(v, base), upper)]
  }

  function DigitValue(c: char): nat {
    if '0' <= c <= '9' then c as nat - '0' as nat
    else if 'a' <= c <= 'f' then c as nat - 'a' as nat + 10
    else if 'A' <= c <= 'F' then c as nat - 'A' as nat + 10
    else 16
  }

  /** Reading on from n: what the digits at the head of s make of it. */
  function ReadFrom(s: string, base: nat, n: nat): nat {
    if s == "" || DigitValue(s[0]) >= base then n
    else ReadFrom(s[1..], base, n * base + DigitValue(s[0]))
  }

  lemma DigitReads(d: nat, base: nat, upper: bool, rest: string, n: nat)
    requires d < base <= 16
    ensures ReadFrom([DigitChar(d, upper)] + rest, base, n) == ReadFrom(rest, base, n * base + d)
  {
    var s := [DigitChar(d, upper)] + rest;
    assert DigitValue(s[0]) == d;
    assert s[1..] == rest;
  }

  /** A numeral reads back as its number, whatever follows it. */
  lemma {:induction false} NumeralReads(v: nat, base: nat, upper: bool, rest: string)
    requires IsBase(base)
    ensures ReadFrom(Text(v, base, upper) + rest, base, 0) == ReadFrom(rest, base, v)
    decreases v
  {
    if v < base {
      DigitReads(v, base, upper, rest, 0);
    } else {
      var q, d := Rest(v, base), LastDigit(v, base);
      var tail := [DigitChar(d, upper)] + rest;
      assert Text(v, base, upper) + rest == Text(q, base, upper) + tail;
      NumeralReads(q, base, upper, tail);
      DigitReads(d, base, upper, rest, q);
      DivMod(v, base);
    }
  }

  function Repeat(c: char, n: nat): (s: string)
    ensures |s| == n && forall i :: 0 <= i < n ==> s[i] == c
  {
    seq(n, _ => c)
  }

  lemma {:induction false} ZerosRead(n: nat, s: string, base: nat)
    requires IsBase(base)
    ensures ReadFrom(Repeat('0', n) + s, base, 0) == ReadFrom(s, base, 0)
  {
    var t := Repeat('0', n) + s;
    if n == 0 {
      assert t == s;
    } else {
      assert t[1..] == Repeat('0', n - 1) + s;
      ZerosRead(n - 1, s, base);
    }
  }

  // ---------------------------------------------------------------------------------------------
  // The layout.

  function DigitsOf(v: nat, base: nat, f: Flags): string
    requires IsBase(base)
  {
    if f.precision && v == 0 then "" else Text(v, base, f.uppercase)
  }

  function SignWanted(negative: bool, f: Flags): string {
    if negative then "-" else if f.plus then "+" else if f.space then " " else ""
  }

  /** The digits wanted of zero padding. */
  function DigitWidth(negative: bool, width: nat, f: Flags): nat {
    if width > 0 && SignWanted(negative, f) != "" then width - 1 else width
  }

  /** The places taken by zeros and d digits: precision and zero padding count for right-aligned
      numbers only, and the buffer has 32 places. */
  function Places(d: nat, negative: bool, prec: nat, width: nat, f: Flags): (n: nat)
    ensures d <= n
  {
    if f.left then d
    else Max(Max(d, Min(prec, NTOA_BUFFER_SIZE)),
             if f.zeropad then Min(DigitWidth(negative, width, f), NTOA_BUFFER_SIZE) else 0)
  }

  /** The sign is left out when the buffer is full. */
  function Sign(places: nat, negative: bool, f: Flags): string {
    if places < NTOA_BUFFER_SIZE then SignWanted(negative, f) else ""
  }

  /** Sign, zeros and digits. */
  function Core(digits: string, negative: bool, prec: nat, width: nat, f: Flags): string {
    var n := Places(|digits|, negative, prec, width, f);
    Sign(n, negative, f) + (Repeat('0', n - |digits|) + digits)
  }

  function LeftBlanks(core: string, width: nat, f: Flags): nat {
    if f.left || f.zeropad then 0 else Max(0, width - |core|)
  }

  function RightBlanks(core: string, width: nat, f: Flags): nat {
    if f.left then Max(0, width - |core|) else 0
  }

  function Padded(core: string, width: nat, f: Flags): string {
    Repeat(' ', LeftBlanks(core, width, f)) + (core + Repeat(' ', RightBlanks(core, width, f)))
  }

  /** What is printed: blanks, sign, zeros, digits, blanks. */
  function Printed(v: nat, negative: bool, base: nat, prec: nat, width: nat, f: Flags): string
    requires IsBase(base)
  {
    Padded(Core(DigitsOf(v, base, f), negative, prec, width, f), width, f)
  }

  // ---------------------------------------------------------------------------------------------
  // What the layout promises.

  function SkipBlanks(s: string): string {
    if s != "" && s[0] == ' ' then SkipBlanks(s[1..]) else s
  }

  /** The number a reader sees: blanks, a sign, digits. */
  function ReadNumber(s: string, base: nat): (bool, nat) {
    var t := SkipBlanks(s);
    if t != "" && t[0] == '-' then (true, ReadFrom(t[1..], base, 0))
    else if t != "" && t[0] == '+' then (false, ReadFrom(t[1..], base, 0))
    else (false, ReadFrom(t, base, 0))
  }

  lemma {:induction false} BlanksSkipped(n: nat, s: string)
    ensures SkipBlanks(Repeat(' ', n) + s) == SkipBlanks(s)
  {
    var t := Repeat(' ', n) + s;
    if n == 0 {
      assert t == s;
    } else {
      assert t[1..] == Repeat(' ', n - 1) + s;
      BlanksSkipped(n - 1, s);
    }
  }

  /** Zeros and digits before blanks read as the number. */
  lemma BodyReads(v: nat, base: nat, f: Flags, zeros: nat, blanks: nat)
    requires IsBase(base)
    ensures ReadFrom((Repeat('0', zeros) + DigitsOf(v, base, f)) + Repeat(' ', blanks), base, 0) == v
  {
    var digits, tail := DigitsOf(v, base, f), Repeat(' ', blanks);
    assert (Repeat('0', zeros) + digits) + tail == Repeat('0', zeros) + (digits + tail);
    ZerosRead(zeros, digits + tail, base);
    if digits == "" {
      assert digits + tail == tail;
    }
    if digits != "" {
      NumeralReads(v, base, f.uppercase, tail);
    }
  }

  /** A text that starts with neither a blank nor a sign is read as it stands. */
  lemma {:induction false} TextHead(v: nat, base: nat, upper: bool)
    requires IsBase(base)
    ensures Text(v, base, upper) != "" && DigitValue(Text(v, base, upper)[0]) < 16
    decreases v
  {
    if v < base {
    } else {
      TextHead(Rest(v, base), base, upper);
    }
  }

  /** Behind the left blanks: sign, zeros, digits and blanks read as the signed number. */
  lemma SignedReads(sign: string, v: nat, base: nat, f: Flags, zeros: nat, blanks: nat)
    requires IsBase(base) && sign in {"", "-", "+", " "}
    ensures ReadNumber(sign + ((Repeat('0', zeros) + DigitsOf(v, base, f)) + Repeat(' ', blanks)), base)
         == (sign == "-", v)
  {
    hide Text;
    var body := (Repeat('0', zeros) + DigitsOf(v, base, f)) + Repeat(' ', blanks);
    var s := sign + body;
    BodyReads(v, base, f, zeros, blanks);
    TextHead(v, base, f.uppercase);
    if sign == "-" || sign == "+" {
      assert s[1..] == body;
    } else {
      if sign == " " { assert s[1..] == body; } else { assert s == body; }
      if zeros == 0 && DigitsOf(v, base, f) == "" {
        assert body == Repeat(' ', blanks) + "";
        BlanksSkipped(blanks, "");
      } else {
        assert body[0] == if zeros > 0 then '0' else DigitsOf(v, base, f)[0];
        assert SkipBlanks(body) == body;
      }
    }
  }

  lemma PaddedReads(sign: string, v: nat, base: nat, f: Flags, zeros: nat, left: nat, right: nat)
    requires IsBase(base) && sign in {"", "-", "+", " "}
    ensures ReadNumber(Repeat(' ', left)
                       + ((sign + (Repeat('0', zeros) + DigitsOf(v, base, f))) + Repeat(' ', right)), base)
         == (sign == "-", v)
  {
    var body := Repeat('0', zeros) + DigitsOf(v, base, f);
    Associates(sign, body, Repeat(' ', right));
    BlanksSkipped(left, (sign + body) + Repeat(' ', right));
    SignedReads(sign, v, base, f, zeros, right);
  }

  /** The round trip: every value reads back from what is printed, for every base, precision,
      width and flags; the minus sign reads back exactly when the buffer had a place for it. */
  lemma PrintedReadsBack(v: nat, negative: bool, base: nat, prec: nat, width: nat, f: Flags)
    requires IsBase(base)
    ensures ReadNumber(Printed(v, negative, base, prec, width, f), base).1 == v
    ensures ReadNumber(Printed(v, negative, base, prec, width, f), base).0
        <==> negative && Places(|DigitsOf(v, base, f)|, negative, prec, width, f) < NTOA_BUFFER_SIZE
  {
    var digits := DigitsOf(v, base, f);
    var n := Places(|digits|, negative, prec, width, f);
    var core := Core(digits, negative, prec, width, f);
    PaddedReads(Sign(n, negative, f), v, base, f, n - |digits|, LeftBlanks(core, width, f),
                RightBlanks(core, width, f));
  }

  predicate IsDigit(c: char, upper: bool) {
    '0' <= c <= '9' || if upper then 'A' <= c <= 'F' else 'a' <= c <= 'f'
  }

  /** A numeral is made of digits, letters in the case asked for, and starts with 0 for the number 0 only. */
  lemma {:induction false} NumeralShape(v: nat, base: nat, upper: bool)
    requires IsBase(base)
    ensures Text(v, base, upper) != "" && (Text(v, base, upper)[0] == '0' <==> v == 0)
    ensures forall i :: 0 <= i < |Text(v, base, upper)| ==> IsDigit(Text(v, base, upper)[i], upper)
    decreases v
  {
    if v < base {
    } else {
      NumeralShape(Rest(v, base), base, upper);
    }
  }

  /** The width adds blanks to a number printed without one: with LEFT behind it, without LEFT and ZEROPAD in front
      of it, as many as are missing. */
  lemma BlanksPad(v: nat, negative: bool, base: nat, prec: nat, width: nat, f: Flags)
    requires IsBase(base) && (f.left || !f.zeropad)
    ensures var bare, out := Printed(v, negative, base, prec, 0, f), Printed(v, negative, base, prec, width, f);
            var missing := Repeat(' ', Max(0, width - |bare|));
            out == if f.left then bare + missing else missing + bare
  {
    hide Text;
    var digits := DigitsOf(v, base, f);
    var core := Core(digits, negative, prec, 0, f);
    assert Core(digits, negative, prec, width, f) == core;
    NoBlanks(core, f);
  }

  lemma ZeroPlaces(d: nat, negative: bool, prec: nat, width: nat, f: Flags)
    requires f.zeropad && !f.left && width <= 32 && prec < 32 && d < 32
    ensures var sign, n0 := SignWanted(negative, f), Places(d, negative, prec, 0, f);
            var n := Places(d, negative, prec, width, f);
            n == n0 + Max(0, width - (|sign| + n0)) && Sign(n0, negative, f) == sign && Sign(n, negative, f) == sign
  {
  }

  /** With ZEROPAD and without LEFT, the width adds zeros between the sign and the rest. */
  lemma ZerosPad(v: nat, negative: bool, base: nat, prec: nat, width: nat, f: Flags)
    requires IsBase(base) && f.zeropad && !f.left && width <= 32 && prec < 32 && |DigitsOf(v, base, f)| < 32
    ensures var bare, out := Printed(v, negative, base, prec, 0, f), Printed(v, negative, base, prec, width, f);
            var sign, missing := SignWanted(negative, f), Repeat('0', Max(0, width - |bare|));
            sign <= bare && out == sign + (missing + bare[|sign|..])
  {
    hide Text, DigitsOf, Padded, Core, SignWanted;
    var digits, sign := DigitsOf(v, base, f), SignWanted(negative, f);
    ZerosInCore(digits, negative, prec, width, f);
    NoBlanksZero(Core(digits, negative, prec, 0, f), 0, f);
    NoBlanksZero(Core(digits, negative, prec, width, f), width, f);
  }

  lemma ZerosInCore(digits: string, negative: bool, prec: nat, width: nat, f: Flags)
    requires f.zeropad && !f.left && width <= 32 && prec < 32 && |digits| < 32
    ensures var bare, sign := Core(digits, negative, prec, 0, f), SignWanted(negative, f);
            && sign <= bare
            && Core(digits, negative, prec, width, f)
                 == sign + (Repeat('0', Max(0, width - |bare|)) + bare[|sign|..])
  {
    ZeroPlaces(|digits|, negative, prec, width, f);
    hide SignWanted, Sign, Places;
    var sign, n0 := SignWanted(negative, f), Places(|digits|, negative, prec, 0, f);
    var zeros, missing := n0 - |digits|, Max(0, width - (|sign| + n0));
    var rest := Repeat('0', zeros) + digits;
    assert Core(digits, negative, prec, 0, f) == sign + rest;
    assert Core(digits, negative, prec, width, f) == sign + (Repeat('0', missing + zeros) + digits);
    hide Core, Repeat;
    AfterSign(sign, rest);
    MoreZeros(missing, zeros, digits);
  }

  lemma AfterSign(sign: string, rest: string)
    ensures sign <= sign + rest && (sign + rest)[|sign|..] == rest
  {
  }

  lemma MoreZeros(m: nat, n: nat, digits: string)
    ensures Repeat('0', m + n) + digits == Repeat('0', m) + (Repeat('0', n) + digits)
  {
  }

  lemma NoBlanks(core: string, f: Flags)
    ensures Padded(core, 0, f) == core
    ensures Repeat(' ', 0) == ""
  {
  }

  lemma NoBlanksZero(core: string, width: nat, f: Flags)
    requires f.zeropad && !f.left
    ensures Padded(core, width, f) == core
  {
  }

  /** The sign stands in front of what is printed without one: minus for a negative number, else plus if asked for,
      else a blank if asked for. */
  lemma SignInFront(v: nat, negative: bool, base: nat, prec: nat, f: Flags)
    requires IsBase(base) && prec < 32 && |DigitsOf(v, base, f)| < 32
    ensures Printed(v, negative, base, prec, 0, f)
         == (if negative then "-" else if f.plus then "+" else if f.space then " " else "")
            + Printed(v, false, base, prec, 0, f.(plus := false, space := false))
  {
    hide Text;
    var digits, plain := DigitsOf(v, base, f), f.(plus := false, space := false);
    NoBlanks(Core(digits, negative, prec, 0, f), f);
    NoBlanks(Core(digits, false, prec, 0, plain), plain);
    assert Core(digits, false, prec, 0, plain)
        == Repeat('0', Places(|digits|, negative, prec, 0, f) - |digits|) + digits;
  }

  /** The precision of a number that is not left-aligned is filled up with zeros in front of its digits, to 32 at
      most. */
  lemma PrecisionFills(v: nat, base: nat, prec: nat, f: Flags)
    requires IsBase(base) && !f.plus && !f.space && |DigitsOf(v, base, f)| <= 32
    ensures Printed(v, false, base, 0, 0, f) == DigitsOf(v, base, f)
    ensures Printed(v, false, base, prec, 0, f)
         == Repeat('0', if f.left then 0 else Max(0, Min(prec, 32) - |DigitsOf(v, base, f)|)) + DigitsOf(v, base, f)
  {
    hide Text;
    var digits := DigitsOf(v, base, f);
    NoBlanks(Core(digits, false, 0, 0, f), f);
    NoBlanks(Core(digits, false, prec, 0, f), f);
    assert Core(digits, false, 0, 0, f) == digits;
  }

  function Pow2(n: nat): nat { if n == 0 then 1 else 2 * Pow2(n - 1) }

  lemma Pow32()
    ensures Pow2(NTOA_BUFFER_SIZE) == WORD && Pow2(NTOA_BUFFER_SIZE - 1) == WORD / 2
    ensures Pow2(NTOA_BUFFER_SIZE - 3) == WORD / 8
  {
    assert Pow2(8) == 0x100;
    assert Pow2(16) == 0x1_0000;
    assert Pow2(24) == 0x100_0000;
    assert Pow2(29) == 0x2000_0000;
  }

  lemma {:induction false} NumeralLength(v: nat, base: nat, upper: bool, n: nat)
    requires IsBase(base) && v < Pow2(n) && n > 0
    ensures 0 < |Text(v, base, upper)| <= n
    decreases v
  {
    if v < base {
    } else {
      assert n > 1 by { assert n == 1 ==> Pow2(n) == 2; }
      NumeralLength(Rest(v, base), base, upper, n - 1);
    }
  }

  /** The characters a number needs: digits, the zeros its precision asks for, its sign. */
  function Needed(digits: string, negative: bool, prec: nat, f: Flags): nat {
    (if f.left then |digits| else Max(|digits|, prec)) + |SignWanted(negative, f)|
  }

  /** The length printed is the larger of the width and the characters needed, unless the digits
      alone fill the buffer and a sign is wanted. */
  lemma PrintedLength(v: nat, negative: bool, base: nat, prec: nat, width: nat, f: Flags)
    requires IsBase(base) && prec < NTOA_BUFFER_SIZE && width <= NTOA_BUFFER_SIZE
    ensures |Printed(v, negative, base, prec, width, f)|
            == Max(width, Needed(DigitsOf(v, base, f), negative, prec, f))
        <==> |DigitsOf(v, base, f)| < NTOA_BUFFER_SIZE || SignWanted(negative, f) == ""
  {
    var core := Core(DigitsOf(v, base, f), negative, prec, width, f);
    assert |Padded(core, width, f)| == if f.zeropad && !f.left then |core| else Max(width, |core|);
  }

  /** Of 32-bit values, only those printed in base 2 can have digits enough to fill the buffer. */
  lemma WordLength(v: Word, negative: bool, base: nat, prec: nat, width: nat, f: Flags)
    requires IsBase(base) && prec < NTOA_BUFFER_SIZE && width <= NTOA_BUFFER_SIZE
    requires base != 2 || v < WORD / 2
    ensures |Printed(v, negative, base, prec, width, f)|
         == Max(width, Needed(DigitsOf(v, base, f), negative, prec, f))
  {
    Pow32();
    PrintedLength(v, negative, base, prec, width, f);
    if base == 2 {
      NumeralLength(v, base, f.uppercase, NTOA_BUFFER_SIZE - 1);
    } else if v >= base {
      assert Rest(v, base) <= v / 8;
      NumeralLength(Rest(v, base), base, f.uppercase, NTOA_BUFFER_SIZE - 3);
    }
  }

  predicate HasDigit(s: string) {
    exists i :: 0 <= i < |s| && '0' <= s[i] <= '9'
  }

  /** Zero printed with the precision flag set and precision 0 has no digits of its own: only zero
      padding makes it show any. */
  lemma ZeroWithPrecision(negative: bool, base: nat, width: nat, f: Flags)
    requires IsBase(base) && f.precision
    ensures HasDigit(Printed(0, negative, base, 0, width, f))
        <==> f.zeropad && !f.left && DigitWidth(negative, width, f) > 0
  {
    var n := Places(0, negative, 0, width, f);
    var sign := Sign(n, negative, f);
    var core := Core("", negative, 0, width, f);
    assert DigitsOf(0, base, f) == "";
    DigitsIn(LeftBlanks(core, width, f), sign, n, RightBlanks(core, width, f));
  }

  lemma DigitsIn(left: nat, sign: string, zeros: nat, right: nat)
    requires sign in {"", "-", "+", " "}
    ensures HasDigit(Repeat(' ', left) + ((sign + (Repeat('0', zeros) + "")) + Repeat(' ', right))) <==> zeros > 0
  {
    var s := Repeat(' ', left) + ((sign + (Repeat('0', zeros) + "")) + Repeat(' ', right));
    if zeros > 0 { assert s[left + |sign|] == '0'; }
  }

  // ---------------------------------------------------------------------------------------------
  // The program.

  function Reversed(s: string): (r: string)
    ensures |r| == |s| && forall i :: 0 <= i < |s| ==> r[i] == s[|s| - 1 - i]
  {
    seq(|s|, i requires 0 <= i < |s| => s[|s| - 1 - i])
  }

  /** What the digits still to come make, before what the buffer holds. */
  ghost predicate Spells(value: nat, base: nat, upper: bool, held: string, text: string)
    requires IsBase(base)
  {
    text == (if value == 0 then "" else Text(value, base, upper)) + Reversed(held)
  }

  lemma DigitWritten(value: nat, base: nat, upper: bool, held: string, text: string)
    requires IsBase(base)
    requires text == Text(value, base, upper) + Reversed(held)
    ensures Spells(Rest(value, base), base, upper, held + [DigitChar(LastDigit(value, base), upper)], text)
  {
    var c := DigitChar(LastDigit(value, base), upper);
    ReversedMore(held, c);
    if value < base {
      SmallDigit(value, base);
    } else {
      Associates(Text(Rest(value, base), base, upper), [c], Reversed(held));
    }
  }

  lemma SmallDigit(value: nat, base: nat)
    requires IsBase(base) && value < base
    ensures LastDigit(value, base) == value
  {
  }

  lemma ReversedMore(held: string, c: char)
    ensures Reversed(held + [c]) == [c] + Reversed(held)
  {
  }

  lemma Associates(a: string, b: string, c: string)
    ensures (a + b) + c == a + (b + c)
  {
  }

  method NextDigit(value: nat, base: nat, upper: bool) returns (c: char, rest: nat)
    requires IsBase(base)
    ensures c == DigitChar(LastDigit(value, base), upper) && rest == Rest(value, base)
  {
    DivMod(value, base);
    var digit := value % base;
    c := if digit < 10 then '0' + digit as char else (if upper then 'A' else 'a') + (digit - 10) as char;
    rest := value / base;
  }

  /** The loop of _ntoa_long: digits go into the buffer, least significant first. */
  method WriteDigits(v: Word, base: nat, upper: bool, buf: array<char>) returns (len: nat)
    requires IsBase(base) && buf.Length == NTOA_BUFFER_SIZE
    modifies buf
    ensures len <= NTOA_BUFFER_SIZE && Reversed(buf[..len]) == Text(v, base, upper)
  {
    len := 0;
    var value: nat := v;
    Pow32();
    hide Text, Rest, LastDigit, DigitChar;
    while true
      invariant len < NTOA_BUFFER_SIZE && value < Pow2(NTOA_BUFFER_SIZE - len)
      invariant Text(v, base, upper) == Text(value, base, upper) + Reversed(buf[..len])
      decreases NTOA_BUFFER_SIZE - len
    {
      ghost var held := buf[..len];
      DigitWritten(value, base, upper, held, Text(v, base, upper));
      buf[len], value := NextDigit(value, base, upper);
      len := len + 1;
      assert buf[..len] == held + [buf[len - 1]];
      if value == 0 || len >= NTOA_BUFFER_SIZE { break; }
    }
  }

  /** A zero-padding loop of _ntoa_format. */
  method PadZeros(buf: array<char>, len0: nat, upto: nat) returns (len: nat)
    requires buf.Length == NTOA_BUFFER_SIZE && len0 <= NTOA_BUFFER_SIZE
    modifies buf
    ensures len == Max(len0, Min(upto, NTOA_BUFFER_SIZE))
    ensures buf[..len] == old(buf[..len0]) + Repeat('0', len - len0)
  {
    len := len0;
    while len < upto && len < NTOA_BUFFER_SIZE
      invariant len0 <= len <= Max(len0, Min(upto, NTOA_BUFFER_SIZE))
      invariant buf[..len] == old(buf[..len0]) + Repeat('0', len - len0)
    {
      buf[len] := '0';
      len := len + 1;
    }
  }

  method AppendSign(buf: array<char>, len0: nat, negative: bool, f: Flags) returns (len: nat)
    requires buf.Length == NTOA_BUFFER_SIZE && len0 <= NTOA_BUFFER_SIZE
    modifies buf
    ensures len0 <= len <= NTOA_BUFFER_SIZE
    ensures buf[..len] == old(buf[..len0]) + Sign(len0, negative, f)
  {
    len := len0;
    if len < NTOA_BUFFER_SIZE {
      if negative {
        buf[len] := '-';
        len := len + 1;
      } else if f.plus {
        buf[len] := '+';
        len := len + 1;
      } else if f.space {
        buf[len] := ' ';
        len := len + 1;
      }
    }
  }

  /** The zeros of _ntoa_format: those of the precision, then those of zero padding. */
  method FillZeros(buf: array<char>, len0: nat, negative: bool, prec: nat, width0: nat, f: Flags)
    returns (len: nat, width: nat)
    requires buf.Length == NTOA_BUFFER_SIZE && len0 <= NTOA_BUFFER_SIZE
    modifies buf
    ensures len == Places(len0, negative, prec, width0, f) && len <= NTOA_BUFFER_SIZE
    ensures buf[..len] == old(buf[..len0]) + Repeat('0', len - len0)
    ensures width == width0 || (f.zeropad && !f.left)
  {
    len, width := len0, width0;
    if !f.left {
      if width > 0 && f.zeropad && (negative || f.plus || f.space) {
        width := width - 1;
      }
      len := PadZeros(buf, len, prec);
      if f.zeropad {
        ghost var first := len - len0;
        len := PadZeros(buf, len, width);
        RepeatMore(old(buf[..len0]), '0', first, len - len0 - first);
      }
    }
  }

  lemma RepeatMore(s: string, c: char, m: nat, n: nat)
    ensures (s + Repeat(c, m)) + Repeat(c, n) == s + Repeat(c, m + n)
  {
  }

  /** _ntoa_format up to its call of _out_rev: the buffer then holds the core, reversed. */
  method Format(buf: array<char>, len0: nat, negative: bool, prec: nat, width0: nat, f: Flags)
    returns (len: nat, width: nat)
    requires buf.Length == NTOA_BUFFER_SIZE && len0 <= NTOA_BUFFER_SIZE
    modifies buf
    ensures len <= NTOA_BUFFER_SIZE
    ensures Reversed(buf[..len]) == Core(Reversed(old(buf[..len0])), negative, prec, width0, f)
    ensures width == width0 || (f.zeropad && !f.left)
  {
    len, width := FillZeros(buf, len0, negative, prec, width0, f);
    ghost var n := len;
    len := AppendSign(buf, len, negative, f);
    CoreReversed(old(buf[..len0]), n - len0, Sign(n, negative, f));
  }

  lemma CoreReversed(held: string, zeros: nat, sign: string)
    requires |sign| <= 1
    ensures Reversed((held + Repeat('0', zeros)) + sign) == sign + (Repeat('0', zeros) + Reversed(held))
  {
  }

  /** _out_rev: what goes to the output, character by character. */
  method OutRev(buf: array<char>, len0: nat, width: nat, f: Flags) returns (out: string)
    requires len0 <= buf.Length
    ensures out == Padded(Reversed(buf[..len0]), width, f)
  {
    out := "";
    var len: nat := len0;
    ghost var core := Reversed(buf[..len0]);
    if !f.left && !f.zeropad {
      var i: nat := len;
      while i < width
        invariant len <= i <= Max(len, width) && out == Repeat(' ', i - len)
      {
        out := out + " ";
        i := i + 1;
      }
    }
    ghost var blanks := out;
    while len > 0
      invariant len <= len0 && out == blanks + core[..len0 - len]
    {
      len := len - 1;
      out := out + [buf[len]];
    }
    assert core[..len0] == core;
    if f.left {
      while |out| < width
        invariant |core| <= |out| <= Max(|core|, width)
        invariant out == core + Repeat(' ', |out| - |core|)
      {
        out := out + " ";
      }
    }
  }

  /** _ntoa_long: the output is what the layout says, for every word, precision, width and flags. */
  method NtoaLong(value: Word, negative: bool, base: nat, prec: nat, width: nat, f: Flags)
    returns (out: string)
    requires IsBase(base)
    ensures out == Printed(value, negative, base, prec, width, f)
  {
    var buf := new char[NTOA_BUFFER_SIZE];
    var len := 0;
    if !f.precision || value != 0 {
      len := WriteDigits(value, base, f.uppercase, buf);
    }
    assert Reversed(buf[..len]) == DigitsOf(value, base, f);
    var width' := width;
    len, width' := Format(buf, len, negative, prec, width, f);
    out := OutRev(buf, len, width', f);
  }

  // ---------------------------------------------------------------------------------------------
  // Reading decimals.

  lemma WrapStep(n: nat, d: nat)
    ensures (n % WORD * 10 + d) % WORD == (n * 10 + d) % WORD
  {
    var q := n / WORD;
    assert n == q * WORD + n % WORD;
    var r := n % WORD * 10 + d;
    assert n * 10 + d == r + (q * 10) * WORD;
  }

  lemma DigitTaken(str: string, next: nat, n: nat)
    requires next < |str| && '0' <= str[next] <= '9'
    ensures ReadFrom(str[next..], 10, n) == ReadFrom(str[next + 1..], 10, n * 10 + (str[next] as nat - '0' as nat))
  {
    assert str[next..][0] == str[next] && str[next..][1..] == str[next + 1..];
  }

  /** _atoi: takes the digits from `pos` on; their value comes back modulo the word. */
  method Atoi(str: string, pos: nat) returns (i: Word, next: nat)
    requires pos <= |str|
    ensures i == ReadFrom(str[pos..], 10, 0) % WORD
    ensures pos <= next <= |str| && (next < |str| ==> !('0' <= str[next] <= '9'))
    ensures forall k :: pos <= k < next ==> '0' <= str[k] <= '9'
  {
    i, next := 0, pos;
    ghost var n: nat := 0;
    while next < |str| && '0' <= str[next] <= '9'
      invariant pos <= next <= |str| && i == n % WORD
      invariant forall k :: pos <= k < next ==> '0' <= str[k] <= '9'
      invariant ReadFrom(str[pos..], 10, 0) == ReadFrom(str[next..], 10, n)
    {
      var d := str[next] as nat - '0' as nat;
      WrapStep(n, d);
      DigitTaken(str, next, n);
      i := (i * 10 + d) % WORD;
      n := n * 10 + d;
      next := next + 1;
    }
  }

  /** Where the zeros and digits of a printed number start. */
  function DigitsAt(v: nat, negative: bool, base: nat, prec: nat, width: nat, f: Flags): nat
    requires IsBase(base)
  {
    var digits := DigitsOf(v, base, f);
    LeftBlanks(Core(digits, negative, prec, width, f), width, f)
    + |Sign(Places(|digits|, negative, prec, width, f), negative, f)|
  }

  lemma Behind(a: string, b: string, c: string)
    ensures (a + (b + c))[|a| + |b|..] == c
  {
  }

  /** What is printed, read from behind its blanks and sign, is the value. */
  lemma PrintedDigitsRead(v: nat, negative: bool, base: nat, prec: nat, width: nat, f: Flags)
    requires IsBase(base)
    ensures DigitsAt(v, negative, base, prec, width, f) <= |Printed(v, negative, base, prec, width, f)|
    ensures ReadFrom(Printed(v, negative, base, prec, width, f)[DigitsAt(v, negative, base, prec, width, f)..], base, 0)
         == v
  {
    var digits := DigitsOf(v, base, f);
    var n := Places(|digits|, negative, prec, width, f);
    var sign := Sign(n, negative, f);
    var core := Core(digits, negative, prec, width, f);
    var body := Repeat('0', n - |digits|) + digits;
    var blanks := Repeat(' ', RightBlanks(core, width, f));
    Associates(sign, body, blanks);
    Behind(Repeat(' ', LeftBlanks(core, width, f)), sign, body + blanks);
    BodyReads(v, base, f, n - |digits|, RightBlanks(core, width, f));
  }

  /** In base 10 _atoi recovers every word that _ntoa_long prints, at any precision and width and with
      any flags, from behind its blanks and sign. */
  method PrintAndRead(v: Word, negative: bool, prec: nat, width: nat, f: Flags) returns (out: string, i: Word)
    ensures out == Printed(v, negative, 10, prec, width, f)
    ensures i == v
  {
    out := NtoaLong(v, negative, 10, prec, width, f);
    PrintedDigitsRead(v, negative, 10, prec, width, f);
    var next: nat;
    i, next := Atoi(out, DigitsAt(v, negative, 10, prec, width, f));
  }

  /** The sign of -5 printed with precision 32 does not read back: its zeros fill the buffer. */
  lemma SignLost(width: nat, f: Flags)
    requires !f.left
    ensures ReadNumber(Printed(5, true, 10, NTOA_BUFFER_SIZE, width, f), 10) == (false, 5)
  {
    PrintedReadsBack(5, true, 10, NTOA_BUFFER_SIZE, width, f);
  }
}
