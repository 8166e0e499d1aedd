/** Integers as text: an int written to a stream, atoi, and decaf's Integer::parseInt. */
module Decimal {
  import opened Wrappers

  const MIN_INT := -0x8000_0000
  const MAX_INT := 0x7fff_ffff

  predicate IsInt(n: int) {
    MIN_INT <= n <= MAX_INT
  }

  predicate IsDigit(c: char) {
    '0' <= c <= '9'
  }

  predicate AllDigits(s: string) {
    forall c | c in s :: IsDigit(c)
  }

  function Value(digits: string): nat
    requires AllDigits(digits)
  {
    if digits == "" then 0
    else
      var n := |digits| - 1;
      assert IsDigit(digits[n]);
      Value(digits[..n]) * 10 + (digits[n] as int - '0' as int)
  }

  function PrintNat(n: nat): string {
    (if n < 10 then "" else PrintNat(n / 10)) + [('0' as int + n % 10) as char]
  }

  function Print(n: int): string {
    if n < 0 then "-" + PrintNat(-n) else PrintNat(n)
  }

  /** How many digits s begins with. */
  function DigitCount(s: string): (n: nat)
    ensures n <= |s| && AllDigits(s[..n])
  {
    if s == "" || !IsDigit(s[0]) then 0
    else
      var n := DigitCount(s[1..]) + 1;
      assert s[..n] == [s[0]] + s[1..][..n - 1];
      n
  }

  predicate IsSpace(c: char) {
    c == ' ' || '\t' <= c <= '\r'
  }

  function SkipSpace(s: string): string {
    if s != "" && IsSpace(s[0]) then SkipSpace(s[1..]) else s
  }

  /** C's atoi, on unbounded integers. */
  function Atoi(text: string): int {
    var s := SkipSpace(text);
    if s != "" && s[0] == '-' then -(LeadingNumber(s[1..]) as int)
    else if s != "" && s[0] == '+' then LeadingNumber(s[1..])
    else LeadingNumber(s)
  }

  function LeadingNumber(s: string): nat {
    Value(s[..DigitCount(s)])
  }

  /** An optional minus sign and digits, in range; anything else is a NumberFormatException. */
  function ParseInt(s: string): Option<int> {
    var negative := s != "" && s[0] == '-';
    var digits := if negative then s[1..] else s;
    if digits == "" || !AllDigits(digits) then None
    else
      var n: int := if negative then -(Value(digits) as int) else Value(digits);
      if IsInt(n) then Some(n) else None
  }

  // What the texts look like.

  /** n without its last k digits. */
  function Without(n: nat, k: nat): nat {
    if k == 0 then n else Without(n / 10, k - 1)
  }

  /** The k-th letter from the right is the k-th decimal digit, and there is no zero in front. */
  lemma {:induction false} DigitOf(n: nat, k: nat)
    requires k < |PrintNat(n)|
    ensures PrintNat(n)[|PrintNat(n)| - 1 - k] == "0123456789"[Without(n, k) % 10]
    ensures (n > 0 ==> PrintNat(n)[0] != '0') && Without(n, |PrintNat(n)|) == 0
    decreases n
  {
    assert forall d | 0 <= d < 10 :: "0123456789"[d] == ('0' as int + d) as char;
    if n >= 10 {
      var high := PrintNat(n / 10);
      assert PrintNat(n) == high + [('0' as int + n % 10) as char];
      DigitOf(n / 10, if k > 0 then k - 1 else 0);
    } else {
      assert |PrintNat(n)| == 1 && Without(n, 1) == Without(n / 10, 0) == 0;
    }
  }

  /** A sign is written only before a negative number. */
  lemma PrintedSign(n: int)
    ensures n < 0 ==> Print(n) == "-" + Print(-n)
    ensures n >= 0 ==> Print(n) == PrintNat(n)
  {
  }

  /** Zeros in front do not count. */
  lemma {:induction false} ZerosInFront(digits: string)
    requires AllDigits(digits)
    ensures AllDigits("0" + digits) && Value("0" + digits) == Value(digits)
  {
    var all := "0" + digits;
    assert forall c | c in all :: c == '0' || c in digits;
    if digits == "" {
      assert all[..0] == "";
    } else {
      var n := |digits| - 1;
      assert forall c | c in digits[..n] :: c in digits;
      ZerosInFront(digits[..n]);
      assert all[..|all| - 1] == "0" + digits[..n];
    }
  }

  /** atoi reads white space, a sign and digits, and stops there. */
  lemma AtoiText(space: string, sign: string, digits: string, rest: string)
    requires forall c | c in space :: c in " \t\n\U{B}\U{C}\r"
    requires sign in {"", "+", "-"} && AllDigits(digits) && digits != ""
    requires rest != "" ==> !('0' <= rest[0] <= '9')
    ensures Atoi(space + sign + digits + rest) == if sign == "-" then -(Value(digits) as int) else Value(digits)
  {
    var number := digits + rest;
    assert digits[0] in digits && number[0] == digits[0];
    AtoiSkips(space, sign, number);
    LeadingDigits(digits, rest);
    MoveOver(space, sign, digits, rest);
  }

  lemma MoveOver(a: string, b: string, c: string, d: string)
    ensures a + b + c + d == a + (b + (c + d))
  {
  }

  lemma AtoiSkips(space: string, sign: string, number: string)
    requires forall c | c in space :: c in " \t\n\U{B}\U{C}\r"
    requires sign in {"", "+", "-"} && number != "" && IsDigit(number[0])
    ensures Atoi(space + (sign + number)) ==
            if sign == "-" then -(LeadingNumber(number) as int) else LeadingNumber(number)
  {
    var text := sign + number;
    SpaceIsSkipped(space, text);
    if sign == "" {
      assert text == number;
    } else {
      assert text[1..] == number && text[0] == sign[0];
    }
  }

  lemma LeadingDigits(digits: string, rest: string)
    requires AllDigits(digits) && (rest != "" ==> !IsDigit(rest[0]))
    ensures LeadingNumber(digits + rest) == Value(digits)
  {
    CountStops(digits, rest);
    assert (digits + rest)[..|digits|] == digits;
  }

  lemma {:induction false} SpaceIsSkipped(space: string, text: string)
    requires forall c | c in space :: c in " \t\n\U{B}\U{C}\r"
    requires text != "" && !IsSpace(text[0])
    ensures SkipSpace(space + text) == text
  {
    if space == "" {
      assert space + text == text;
    } else {
      assert (space + text)[1..] == space[1..] + text && space[0] in space;
      SpaceIsSkipped(space[1..], text);
    }
  }

  lemma {:induction false} CountStops(digits: string, rest: string)
    requires AllDigits(digits) && (rest != "" ==> !IsDigit(rest[0]))
    ensures DigitCount(digits + rest) == |digits|
  {
    if digits == "" {
      assert digits + rest == rest;
    } else {
      assert (digits + rest)[1..] == digits[1..] + rest && digits[0] in digits;
      assert forall c | c in digits[1..] :: c in digits;
      CountStops(digits[1..], rest);
    }
  }

  /** Without a sign or digits that come first it is zero. */
  lemma AtoiOfOther(space: string, rest: string)
    requires forall c | c in space :: c in " \t\n\U{B}\U{C}\r"
    requires rest != "" && !IsSpace(rest[0]) && !('0' <= rest[0] <= '9') && rest[0] != '+' && rest[0] != '-'
    ensures Atoi(space + rest) == 0
  {
    SpaceIsSkipped(space, rest);
  }

  /** The strict parser takes digits, with at most a minus sign before them, and nothing else. */
  lemma ParsedText(text: string)
    ensures ParseInt(text).Some? ==>
              var digits := if text != "" && text[0] == '-' then text[1..] else text;
              && digits != "" && (forall c | c in digits :: c in "0123456789")
              && AllDigits(digits)
              && ParseInt(text).value == if text[0] == '-' then -(Value(digits) as int) else Value(digits)
    ensures ParseInt(text) == None ==>
              var digits := if text != "" && text[0] == '-' then text[1..] else text;
              || digits == "" || (exists c :: c in digits && c !in "0123456789")
              || (AllDigits(digits) && (Value(digits) > 2147483647 && (text[0] != '-' || Value(digits) > 2147483648)))
  {
    assert forall c :: IsDigit(c) <==> c in "0123456789";
  }

  // Integer::parse.

  /** The value that an int takes after an operation. */
  function Wrap(n: int): int {
    (n + 0x8000_0000) % 0x1_0000_0000 - 0x8000_0000
  }

  function Digit(c: char): int {
    if IsDigit(c) then c as int - '0' as int else -1
  }

  lemma ValueNext(s: string, i: nat)
    requires i < |s| && AllDigits(s[..i]) && IsDigit(s[i])
    ensures AllDigits(s[..i + 1]) && Value(s[..i + 1]) == Value(s[..i]) * 10 + Digit(s[i])
  {
    assert s[..i + 1][..i] == s[..i] && s[..i + 1][i] == s[i];
    assert forall c | c in s[..i + 1] :: c in s[..i] || c == s[i];
  }

  lemma {:induction false} ValueGrows(s: string, i: nat)
    requires i <= |s| && AllDigits(s)
    ensures AllDigits(s[..i]) && Value(s[..i]) <= Value(s)
  {
    if i == |s| {
      assert s[..i] == s;
    } else {
      var n := |s| - 1;
      assert s[..n][..i] == s[..i] && s[n] in s && forall c | c in s[..n] :: c in s;
      ValueGrows(s[..n], i);
    }
  }

  /** The next character is no digit, or one too many. */
  lemma CannotGoOn(negative: bool, s: string, i: nat)
    requires i < |s| && AllDigits(s[..i]) && (negative || s[0] != '-')
    requires IsDigit(s[i]) ==> Value(s[..i]) * 10 + Digit(s[i]) > 0x8000_0000
    ensures ParseInt(if negative then "-" + s else s) == None
  {
    var text := if negative then "-" + s else s;
    assert negative ==> text[1..] == s;
    if AllDigits(s) {
      assert s[i] in s;
      ValueNext(s, i);
      ValueGrows(s, i + 1);
    }
  }

  /** One turn of the loop, which counts down from 0: a product that does not fit is too small or shows in its sign. */
  method NextResult(result: int, c: char) returns (r: Option<int>)
    requires IsInt(result) && result <= 0
    ensures r == if IsDigit(c) && IsInt(result * 10 - Digit(c)) then Some(result * 10 - Digit(c)) else None
  {
    var max := -0xccc_cccc;
    var digit := Digit(c);
    if digit == -1 || max > result {
      return None;
    }
    var next := Wrap(result * 10 - digit);
    return if next > result then None else Some(next);
  }

  /** Integer::parseInt. */
  method Parse(text: string) returns (r: Option<int>)
    ensures r == ParseInt(text)
  {
    if text == "" {
      return None;
    }
    var negative := text[0] == '-';
    if negative && |text| == 1 {
      return None;
    }
    r := ParseFrom(text, if negative then 1 else 0, negative);
  }

  /** Integer::parse. */
  method ParseFrom(text: string, start: nat, negative: bool) returns (r: Option<int>)
    requires start < |text| && start == (if negative then 1 else 0) && (negative <==> text[0] == '-')
    ensures r == ParseInt(text)
  {
    ghost var s := text[start..];
    assert text == if negative then "-" + s else s;
    var result, offset := 0, start;
    while offset < |text|
      invariant start <= offset <= |text| && AllDigits(s[..offset - start])
      invariant IsInt(result) && result == -(Value(s[..offset - start]) as int)
    {
      ghost var i := offset - start;
      assert s[i] == text[offset];
      var next := NextResult(result, text[offset]);
      if next == None {
        CannotGoOn(negative, s, i);
        return None;
      }
      ValueNext(s, i);
      offset, result := offset + 1, next.value;
    }
    assert s[..|s|] == s;
    if !negative {
      result := Wrap(-result);
      if result < 0 {
        return None;
      }
    }
    return Some(result);
  }

  lemma {:induction false} PrintNatValue(n: nat)
    ensures AllDigits(PrintNat(n)) && Value(PrintNat(n)) == n && |PrintNat(n)| > 0
  {
    var high := if n < 10 then "" else PrintNat(n / 10);
    if n >= 10 {
      PrintNatValue(n / 10);
    }
    assert PrintNat(n)[..|high|] == high;
  }

  lemma {:induction false} AllAreCounted(s: string)
    requires AllDigits(s)
    ensures DigitCount(s) == |s|
  {
    if s != "" {
      assert forall c | c in s[1..] :: c in s;
      AllAreCounted(s[1..]);
    }
  }

  /** Both parsers undo the printer, the strict one exactly for the numbers that an int can hold. */
  lemma ParsePrint(n: int)
    ensures Atoi(Print(n)) == n
    ensures ParseInt(Print(n)) == if -2147483648 <= n <= 2147483647 then Some(n) else None
  {
    PrintedDigits(if n < 0 then -n else n);
    if n < 0 {
      AtoiNegative(PrintNat(-n));
      ParseNegative(PrintNat(-n));
    }
  }

  lemma AtoiNegative(digits: string)
    requires AllDigits(digits)
    ensures Atoi("-" + digits) == -(Value(digits) as int)
  {
    var s := "-" + digits;
    assert SkipSpace(s) == s && s[1..] == digits;
    AllAreCounted(digits);
    assert digits[..|digits|] == digits;
  }

  lemma ParseNegative(digits: string)
    requires AllDigits(digits) && digits != ""
    ensures var n := -(Value(digits) as int); ParseInt("-" + digits) == if IsInt(n) then Some(n) else None
  {
    var s := "-" + digits;
    assert s[1..] == digits;
  }

  lemma PrintedDigits(n: nat)
    ensures var digits := PrintNat(n);
            && digits != "" && IsDigit(digits[0]) && AllDigits(digits) && Value(digits) == n
            && digits[..DigitCount(digits)] == digits
  {
    PrintNatValue(n);
    AllAreCounted(PrintNat(n));
  }

  lemma PrintHasNo(n: int, c: char)
    requires c != '-' && !IsDigit(c)
    ensures c !in Print(n) && Print(n) != ""
  {
    PrintNatValue(if n < 0 then -n else n);
  }
}
