/** print_num of kernel/printf.c: a numeral written into a 32-byte buffer backwards and drained
    forwards. */
module PrintNum {
  import opened Bits
  import opened Options

  const DIGITS: string := "0123456789abcdef"

  /** The digits of num, least significant first; none for 0. */
  function Digits(num: nat, base: nat): seq<nat>
    requires base >= 2
  {
    if num == 0 then [] else [num % base] + Digits(num / base, base)
  }

  /** The number a sequence of digits stands for, least significant first. */
  function Value(digits: seq<nat>, base: nat): nat {
    if digits == [] then 0 else digits[0] + base * Value(digits[1..], base)
  }

  /** The digits that are printed: 0 has one. */
  function Shown(num: nat, base: nat): seq<nat>
    requires base >= 2
  {
    if num == 0 then [0] else Digits(num, base)
  }

  function Power(base: nat, k: nat): nat {
    if k == 0 then 1 else base * Power(base, k - 1)
  }

  /** A number has at most k digits exactly when it is below the k-th power of the base. */
  lemma {:induction false} DigitsFitIff(num: nat, base: nat, k: nat)
    requires base >= 2
    ensures |Digits(num, base)| <= k <==> num < Power(base, k)
  {
    hide Digits, Power;
    PowerPositive(base, k);
    PowerTurn(base, k);
    NoDigits(base);
    if num > 0 {
      DigitsTurn(num, base);
      if k > 0 {
        DivBelowIff(num, base, Power(base, k - 1));
        DigitsFitIff(num / base, base, k - 1);
      }
    }
  }

  lemma PowerTurn(base: nat, k: nat)
    ensures Power(base, k) == if k == 0 then 1 else base * Power(base, k - 1)
  {}

  lemma {:induction false} PowerPositive(base: nat, k: nat)
    requires base >= 2
    ensures Power(base, k) >= 1
  {
    if k > 0 {
      PowerPositive(base, k - 1);
      MulAtLeast(base, Power(base, k - 1));
    }
  }

  lemma DivBelowIff(x: nat, d: nat, p: nat)
    requires d > 0
    ensures x / d < p <==> x < d * p
  {
    var z := x / d - p;
    assert z * d == x / d * d - d * p;
    assert x / d * d <= x < x / d * d + d;
    if z >= 0 { assert x >= d * p; }
    else { MulAtLeast(-z, d); }
  }

  lemma {:induction false} DigitsAreDigits(num: nat, base: nat)
    requires base >= 2
    ensures forall i :: 0 <= i < |Digits(num, base)| ==> Digits(num, base)[i] < base
  {
    if num > 0 { DigitsAreDigits(num / base, base); }
  }

  /** Reading the digits back gives the number. */
  lemma {:induction false} ShownValue(num: nat, base: nat)
    requires base >= 2
    ensures Value(Shown(num, base), base) == num
    ensures Value(Digits(num, base), base) == num
  {
    if num == 0 {
      assert Value([0], base) == 0;
    } else {
      ShownValue(num / base, base);
    }
  }

  lemma {:induction false} PowerGrows(a: nat, b: nat, k: nat)
    requires 2 <= a <= b
    ensures Power(a, k) <= Power(b, k)
  {
    hide Power;
    PowerTurn(a, k);
    PowerTurn(b, k);
    if k > 0 {
      PowerGrows(a, b, k - 1);
      PowerPositive(a, k - 1);
      var x, y := Power(a, k - 1), Power(b, k - 1);
      assert b * y - a * x == b * (y - x) + (b - a) * x;
      if y > x { MulAtLeast(b, y - x); }
      if b > a { MulAtLeast(b - a, x); }
    }
  }

  /** From base 4 on, and so for the bases 10 and 16 that printf passes, every 64-bit number fits the
      buffer. */
  lemma FitsBuffer(num: Word, base: nat)
    requires base >= 4
    ensures num < Power(base, 32)
  {
    assert Power(4, 8) == 65536;
    assert Power(4, 16) == 0x1_0000_0000;
    assert Power(4, 24) == 0x1_0000_0000_0000;
    assert Power(4, 32) == TWO64;
    PowerGrows(4, base, 32);
  }

  // ------------------------------------------------------------------ reading the text

  /** The value of a digit character by its code; 16 for any other character. */
  function CharValue(c: char): nat {
    if '0' <= c <= '9' then c as int - '0' as int
    else if 'a' <= c <= 'f' then c as int - 'a' as int + 10
    else 16
  }

  /** The number a text stands for, read from the left. */
  function ReadNumber(text: string, base: nat): nat {
    if text == [] then 0 else ReadNumber(text[..|text| - 1], base) * base + CharValue(text[|text| - 1])
  }

  /** The text is the numeral of num: digits below the base, the first one not 0 unless it is the only
      one, that read as num. */
  predicate IsNumeral(text: string, num: nat, base: nat) {
    && text != [] && ReadNumber(text, base) == num
    && (forall i :: 0 <= i < |text| ==> CharValue(text[i]) < base)
    && (|text| > 1 ==> text[0] != '0')
  }

  /** There is only one numeral of a number. */
  lemma {:induction false} NumeralUnique(a: string, b: string, num: nat, base: nat)
    requires 2 <= base <= 16 && IsNumeral(a, num, base) && IsNumeral(b, num, base)
    ensures a == b
  {
    hide ReadNumber;
    LastOfNumeral(a, num, base);
    LastOfNumeral(b, num, base);
    SameChar(a[|a| - 1], b[|b| - 1]);
    if |a| > 1 { NumeralUnique(a[..|a| - 1], b[..|b| - 1], num / base, base); }
    assert a == a[..|a| - 1] + [a[|a| - 1]] && b == b[..|b| - 1] + [b[|b| - 1]];
  }

  lemma SameChar(c: char, d: char)
    requires CharValue(c) == CharValue(d) < 16
    ensures c == d
  {}

  /** The last character gives the remainder, and what is before it, if anything, the quotient. */
  lemma LastOfNumeral(text: string, num: nat, base: nat)
    requires 2 <= base <= 16 && IsNumeral(text, num, base)
    ensures CharValue(text[|text| - 1]) == num % base && (|text| > 1 <==> num / base > 0)
    ensures |text| > 1 ==> IsNumeral(text[..|text| - 1], num / base, base)
  {
    hide ReadNumber;
    var front, c := text[..|text| - 1], CharValue(text[|text| - 1]);
    ReadTurn(text, base);
    ReadTurn([], base);
    DivUnique(num, base, ReadNumber(front, base), c);
    if |text| > 1 {
      Leading(text[0]);
      ReadPositive(front, base);
    }
  }

  lemma Leading(c: char)
    requires c != '0'
    ensures CharValue(c) > 0
  {}

  lemma {:induction false} ReadPositive(text: string, base: nat)
    requires base >= 2 && text != [] && CharValue(text[0]) > 0
    ensures ReadNumber(text, base) > 0
  {
    hide ReadNumber;
    var front := text[..|text| - 1];
    ReadTurn(text, base);
    if |text| > 1 {
      ReadPositive(front, base);
      MulAtLeast(ReadNumber(front, base), base);
    } else {
      ReadTurn([], base);
      assert ReadNumber(front, base) * base == 0;
    }
  }

  /** The characters of the digits, least significant last. */
  function Spelled(digits: seq<nat>): string
    requires forall i :: 0 <= i < |digits| ==> digits[i] < 16
  {
    seq(|digits|, i requires 0 <= i < |digits| => DIGITS[digits[|digits| - 1 - i]])
  }

  lemma DigitsSpell(d: nat)
    requires d < 16
    ensures CharValue(DIGITS[d]) == d && (DIGITS[d] == '0' <==> d == 0)
  {}

  lemma {:induction false} SpelledReads(digits: seq<nat>, base: nat)
    requires forall i :: 0 <= i < |digits| ==> digits[i] < 16
    ensures ReadNumber(Spelled(digits), base) == Value(digits, base)
  {
    hide ReadNumber, Value, Spelled;
    LastSpelled(digits);
    ReadTurn(Spelled(digits), base);
    ValueTurn(digits, base);
    if digits != [] {
      DigitsSpell(digits[0]);
      SpelledReads(digits[1..], base);
      assert Value(digits[1..], base) * base == base * Value(digits[1..], base);
    }
  }

  lemma LastSpelled(digits: seq<nat>)
    requires forall i :: 0 <= i < |digits| ==> digits[i] < 16
    ensures var text := Spelled(digits);
            && |text| == |digits|
            && (digits != [] ==> text[..|text| - 1] == Spelled(digits[1..]) && text[|text| - 1] == DIGITS[digits[0]])
  {}

  lemma ReadTurn(text: string, base: nat)
    ensures ReadNumber(text, base) ==
            if text == [] then 0 else ReadNumber(text[..|text| - 1], base) * base + CharValue(text[|text| - 1])
  {}

  lemma ValueTurn(digits: seq<nat>, base: nat)
    ensures Value(digits, base) == if digits == [] then 0 else digits[0] + base * Value(digits[1..], base)
  {}

  lemma {:induction false} TopDigit(num: nat, base: nat)
    requires base >= 2 && num > 0
    ensures var d := Digits(num, base); d != [] && d[|d| - 1] != 0
  {
    hide Digits;
    DigitsTurn(num, base);
    if num / base > 0 {
      TopDigit(num / base, base);
    } else {
      NoDigits(base);
      assert num == base * (num / base) + num % base;
    }
  }

  /** The digits printed spell the numeral. */
  lemma ShownSpells(num: nat, base: nat)
    requires 2 <= base <= 16
    ensures forall i :: 0 <= i < |Shown(num, base)| ==> Shown(num, base)[i] < 16
    ensures IsNumeral(Spelled(Shown(num, base)), num, base)
  {
    hide Digits, ReadNumber, Value;
    var shown := Shown(num, base);
    NoDigits(base);
    DigitsAreDigits(num, base);
    ShownValue(num, base);
    SpelledReads(shown, base);
    if num > 0 { TopDigit(num, base); }
    forall i | 0 <= i < |shown| ensures CharValue(Spelled(shown)[i]) < base {
      DigitsSpell(shown[|shown| - 1 - i]);
    }
    DigitsSpell(shown[|shown| - 1]);
  }

  /** The printed text: the numeral, with padding before it up to the width. */
  ghost predicate IsText(text: string, num: nat, base: nat, width: int, pad: char)
    requires 2 <= base <= 16
  {
    var n := |Shown(num, base)|;
    && |text| == (if width > n then width else n)
    && (forall i :: 0 <= i < |text| - n ==> text[i] == pad)
    && IsNumeral(text[|text| - n..], num, base)
  }

  /** The first loop of print_num; false where it would store past the end of the buffer. */
  method WriteDigits(buf: array<char>, num: Word, base: nat) returns (ok: bool, i: nat)
    requires buf.Length == 32 && 2 <= base <= 16
    modifies buf
    ensures ok <==> |Shown(num, base)| <= 32
    ensures ok ==> i == |Shown(num, base)|
    ensures ok ==> forall j :: 0 <= j < i ==> Shown(num, base)[j] < 16 && buf[j] == DIGITS[Shown(num, base)[j]]
  {
    hide Digits, Power;
    ghost var shown := Shown(num, base);
    ShownDigits(num, base);
    i := 0;
    var rest: nat := num;
    if rest == 0 {
      buf[i] := '0';
      i := i + 1;
    } else {
      while rest > 0
        invariant i <= 32 && i <= |shown| && shown[i..] == Digits(rest, base)
        invariant forall j :: 0 <= j < i ==> buf[j] == DIGITS[shown[j]]
        decreases rest
      {
        DigitsTurn(rest, base);
        assert shown[i] == shown[i..][0] && shown[i + 1..] == shown[i..][1..];
        if i == 32 {
          return false, i;
        }
        buf[i] := DIGITS[rest % base];
        i := i + 1;
        rest := rest / base;
      }
      NoDigits(base);
    }
    ok := true;
  }

  lemma DigitsTurn(num: nat, base: nat)
    requires base >= 2 && num > 0
    ensures Digits(num, base) == [num % base] + Digits(num / base, base) && num / base < num && num % base < base
  {
    MulAtLeast(base - 1, num);
    assert base * num == (base - 1) * num + num;
    DivBelowIff(num, base, num);
  }

  lemma NoDigits(base: nat)
    requires base >= 2
    ensures Digits(0, base) == []
  {}

  /** print_num, for every base that its digits serve. The text holds the characters in the order in
      which uart_putc gets them; None stands for a store past the end of the 32-byte buffer, which
      happens exactly for widths above 32 and for numbers of more than 32 digits. */
  method PrintNum(num: Word, base: nat, width: int, pad: char) returns (r: Option<string>)
    requires 2 <= base <= 16
    ensures r == None <==> width > 32 || num >= Power(base, 32)
    ensures r.Some? ==> IsText(r.value, num, base, width, pad)
    ensures Value(Shown(num, base), base) == num
  {
    hide Shown, Value, Power, IsNumeral;
    ghost var shown := Shown(num, base);
    ghost var w := if width > |shown| then width else |shown|;
    ShownDigits(num, base);
    ShownValue(num, base);
    var buf := new char[32];
    var ok, i := WriteDigits(buf, num, base);
    if !ok {
      return None;
    }
    while i < width
      invariant |shown| <= i <= w && i <= 32
      invariant forall j :: 0 <= j < |shown| ==> buf[j] == DIGITS[shown[j]]
      invariant forall j :: |shown| <= j < i ==> buf[j] == pad
    {
      if i == 32 {
        return None;
      }
      buf[i] := pad;
      i := i + 1;
    }
    assert i == w <= 32;
    ghost var b := buf[..];
    var text := "";
    while i > 0
      invariant 0 <= i <= w && |text| == w - i && buf[..] == b
      invariant forall j :: 0 <= j < |text| ==> text[j] == b[w - 1 - j]
    {
      i := i - 1;
      text := text + [buf[i]];
    }
    ShownSpells(num, base);
    assert text[w - |shown|..] == Spelled(shown);
    r := Some(text);
  }

  lemma ShownDigits(num: nat, base: nat)
    requires 2 <= base <= 16
    ensures |Shown(num, base)| <= 32 <==> num < Power(base, 32)
    ensures |Shown(num, base)| >= 1
    ensures forall i :: 0 <= i < |Shown(num, base)| ==> Shown(num, base)[i] < 16
  {
    PowerPositive(base, 32);
    DigitsFitIff(num, base, 32);
    DigitsAreDigits(num, base);
  }
}
