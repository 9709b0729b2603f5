/** Integer.parseInt and Integer.toString for the decimal radix, on Java's
    32-bit int. Only the ASCII digits '0'..'9' are modelled. */
module JavaInt {
  import opened Chars

  const MinInt: int := -0x8000_0000
  const MaxInt: int := 0x7fff_ffff

  predicate IsInt32(n: int) { MinInt <= n <= MaxInt }

  /** Every character of `d` is an ASCII digit (checked from the right,
      the order in which DigitsValue consumes them). */
  predicate AllDigits(d: string)
  {
    d == [] || (AllDigits(d[..|d| - 1]) && IsDigit(d[|d| - 1]))
  }

  lemma {:induction false} AllDigitsAt(d: string)
    ensures AllDigits(d) <==> forall i :: 0 <= i < |d| ==> IsDigit(d[i])
  {
    if d != [] {
      AllDigitsAt(d[..|d| - 1]);
    }
  }

  function DigitValue(c: char): (v: nat)
    requires IsDigit(c)
    ensures v < 10
  {
    c as int - '0' as int
  }

  function DigitChar(v: nat): (c: char)
    requires v < 10
    ensures IsDigit(c) && DigitValue(c) == v
  {
    ('0' as int + v) as char
  }

  /** The value of a string of decimal digits, most significant first. */
  function DigitsValue(d: string): nat
    requires AllDigits(d)
  {
    if d == [] then 0 else DigitsValue(d[..|d| - 1]) * 10 + DigitValue(d[|d| - 1])
  }

  /** Integer.parseInt(s): an optional '+' or '-' followed by at least one
      digit, whose value fits in an int; anything else is a
      NumberFormatException, here None. */
  function ParseInt(s: string): (r: Option<int>)
    ensures r.Some? ==> IsInt32(r.value)
  {
    if s == [] then None
    else
      var negative := s[0] == '-';
      var d := if s[0] == '-' || s[0] == '+' then s[1..] else s;
      if d == [] || !AllDigits(d) then None
      else
        var v := if negative then 0 - DigitsValue(d) as int else DigitsValue(d) as int;
        if IsInt32(v) then Some(v) else None
  }

  /** The decimal digits of `n` without leading zeros. */
  function NatToDigits(n: nat): (d: string)
    ensures d != [] && AllDigits(d)
    decreases n
  {
    if n < 10 then [DigitChar(n)]
    else
      var d := NatToDigits(n / 10);
      assert (d + [DigitChar(n % 10)])[..|d|] == d;
      d + [DigitChar(n % 10)]
  }

  /** Integer.toString(n). */
  function IntToString(n: int): (s: string)
    ensures s != []
  {
    if n < 0 then "-" + NatToDigits(-n) else NatToDigits(n)
  }

  lemma {:induction false} NatToDigitsValue(n: nat)
    ensures DigitsValue(NatToDigits(n)) == n
    decreases n
  {
    if n >= 10 {
      NatToDigitsValue(n / 10);
      var d := NatToDigits(n);
      assert d[..|d| - 1] == NatToDigits(n / 10);
    }
  }

  /** Parsing what toString printed gives the number back, for every int. */
  lemma ParseIntToString(n: int)
    requires IsInt32(n)
    ensures ParseInt(IntToString(n)) == Some(n)
  {
    if n < 0 {
      NatToDigitsValue(-n);
      assert IntToString(n)[1..] == NatToDigits(-n);
    } else {
      NatToDigitsValue(n);
      AllDigitsAt(NatToDigits(n));
    }
  }

  /** Malformed lines: parseInt throws on them. */
  lemma ParseIntRejects()
    ensures ParseInt("") == None
    ensures ParseInt("-") == None && ParseInt("+") == None
    ensures ParseInt(" 7") == None && ParseInt("7 ") == None
    ensures ParseInt("x") == None
  {
    assert !AllDigits(" 7") by { assert !IsDigit(" 7"[0]); }
    assert !AllDigits("7 ") by { assert !IsDigit("7 "[1]); }
    assert !AllDigits("x") by { assert !IsDigit("x"[0]); }
  }

  /** A leading '+' and leading zeros are accepted. */
  lemma ParseIntLeading()
    ensures ParseInt("+7") == Some(7) && ParseInt("007") == Some(7)
  {
    assert DigitsValue("7") == 7;
    assert "+7"[1..] == "7";
    assert DigitsValue("007") == 7 by {
      assert "007"[..2] == "00";
      assert "00"[..1] == "0";
    }
  }

  /** 2147483648 is the first magnitude that only fits with a minus sign. */
  lemma ParseIntLimits()
    ensures ParseInt("-2147483648") == Some(MinInt)
    ensures ParseInt("2147483648") == None
  {
    var m := "-2147483648";
    assert m[1..] == "2147483648";
    assert DigitsValue("2147483648") == 2147483648 by {
      assert "2147483648"[..9] == "214748364";
      assert "214748364"[..8] == "21474836";
      assert "21474836"[..7] == "2147483";
      assert "2147483"[..6] == "214748";
      assert "214748"[..5] == "21474";
      assert "21474"[..4] == "2147";
      assert "2147"[..3] == "214";
      assert "214"[..2] == "21";
      assert "21"[..1] == "2";
    }
  }
}
