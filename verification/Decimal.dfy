/** Printing and reading integers, as strconv.Itoa and strconv.ParseInt do. */
module Decimal {
  import opened Wrappers

  const MIN64 := -0x8000_0000_0000_0000
  const MAX64 := 0x7FFF_FFFF_FFFF_FFFF

  predicate IsDigit(c: char) {
    '0' <= c <= '9'
  }

  function Digits(n: nat): (s: string)
    ensures s != [] && forall i :: 0 <= i < |s| ==> IsDigit(s[i])
  {
    if n < 10 then [('0' as int + n) as char] else Digits(n / 10) + [('0' as int + n % 10) as char]
  }

  function Itoa(n: int): string {
    if n < 0 then "-" + Digits(-n) else Digits(n)
  }

  predicate AllDigits(s: string) {
    forall i :: 0 <= i < |s| ==> IsDigit(s[i])
  }

  /** The value of a string of digits; the empty string counts as 0. */
  function Value(s: string): nat
    requires AllDigits(s)
  {
    if s == [] then 0
    else
      var last := s[|s| - 1];
      assert IsDigit(last);
      10 * Value(s[..|s| - 1]) + (last as int - '0' as int)
  }

  /** A signed 64-bit integer in base ten: an optional sign and at least one
      digit, leading zeros allowed, within range. */
  function ParseInt(s: string): Option<int> {
    var negative := s != [] && s[0] == '-';
    var digits := if s != [] && (s[0] == '-' || s[0] == '+') then s[1..] else s;
    if digits == [] || !AllDigits(digits) then None
    else
      var v: int := if negative then 0 - Value(digits) else Value(digits);
      if MIN64 <= v <= MAX64 then Some(v) else None
  }

  lemma {:induction false} ValueOfDigits(n: nat)
    ensures Value(Digits(n)) == n
  {
    if n >= 10 {
      ValueOfDigits(n / 10);
      assert Digits(n)[..|Digits(n)| - 1] == Digits(n / 10);
    }
  }

  /** What is read: an optional sign and digits, whose value fits into 64 bits. */
  lemma ParseMeans(s: string, v: int)
    ensures ParseInt(s) == Some(v) <==>
      && -9223372036854775808 <= v <= 9223372036854775807
      && exists digits :: digits != "" && AllDigits(digits)
           && ((s in {digits, "+" + digits} && v == Value(digits)) || (s == "-" + digits && v == 0 - Value(digits)))
  {
    if ParseInt(s).Some? {
      var digits := if s[0] == '-' || s[0] == '+' then s[1..] else s;
      assert s[0] == '-' ==> s == "-" + digits;
      assert s[0] == '+' ==> s == "+" + digits;
      assert AllDigits(digits) && digits != "";
    }
    forall digits | digits != "" && AllDigits(digits) && s in {digits, "+" + digits, "-" + digits}
      ensures s != "" && digits == if s[0] == '-' || s[0] == '+' then s[1..] else s
      ensures s[0] == '-' <==> s == "-" + digits
    {
      assert IsDigit(digits[0]);
    }
  }

  /** A digit more is worth ten times what came before, and itself. */
  lemma ValueMeans(s: string, c: char)
    requires AllDigits(s) && '0' <= c <= '9'
    ensures Value([]) == 0 && AllDigits(s + [c]) && Value(s + [c]) == 10 * Value(s) + (c as int - 48)
  {
    assert (s + [c])[..|s|] == s;
  }

  /** An integer is printed without leading zeros, negative ones with a sign. */
  lemma ItoaMeans(n: int)
    ensures var s := Itoa(n);
      && (n < 0 ==> s[0] == '-' && AllDigits(s[1..]) && s[1..] != "" && s[1] != '0' && Value(s[1..]) == 0 - n)
      && (n >= 0 ==> AllDigits(s) && s != "" && (s[0] == '0' ==> s == "0") && Value(s) == n)
  {
    var m := if n < 0 then -n else n;
    ValueOfDigits(m);
    NoLeadingZero(m);
    if n < 0 {
      assert Itoa(n)[1..] == Digits(m);
    }
  }

  lemma {:induction false} NoLeadingZero(n: nat)
    ensures Digits(n)[0] == '0' <==> n == 0
    ensures n == 0 ==> Digits(n) == "0"
  {
    if n >= 10 {
      NoLeadingZero(n / 10);
    }
  }

  /** Reading what was printed, for every 64-bit integer. */
  lemma ParseItoa(n: int)
    ensures ParseInt(Itoa(n)) == if MIN64 <= n <= MAX64 then Some(n) else None
  {
    var m := if n < 0 then -n else n;
    ValueOfDigits(m);
    assert IsDigit(Digits(m)[0]);
    if n < 0 {
      assert Itoa(n)[1..] == Digits(m);
    }
  }

  lemma ItoaInjective(a: int, b: int)
    requires Itoa(a) == Itoa(b)
    ensures a == b
  {
    var x, y := Digits(if a < 0 then -a else a), Digits(if b < 0 then -b else b);
    ValueOfDigits(if a < 0 then -a else a);
    ValueOfDigits(if b < 0 then -b else b);
    assert IsDigit(x[0]) && IsDigit(y[0]);
    if a < 0 {
      assert Itoa(a)[0] == '-' && Itoa(a)[1..] == x;
      assert Itoa(b)[1..] == y;
    }
  }

  lemma ItoaCharacters(n: int, c: char)
    requires c in Itoa(n)
    ensures c == '-' || IsDigit(c)
  {
  }
}
