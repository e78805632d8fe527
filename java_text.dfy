/**
 * The pieces of the Java platform the page-view parser relies on, with their
 * Java semantics: 32-bit int arithmetic, Integer.toString, Integer.parseInt
 * and String.split(" ").
 */
module JavaText {
  import opened Outcomes

  const Int32Min: int := -0x8000_0000
  const Int32Max: int := 0x7fff_ffff
  const Int32Modulus: int := 0x1_0000_0000

  predicate IsInt32(n: int)
  {
    Int32Min <= n <= Int32Max
  }

  /** The Java int that the unbounded integer `n` wraps around to. */
  function Wrap32(n: int): (r: int)
    ensures IsInt32(r)
    ensures (r - n) % Int32Modulus == 0
    ensures IsInt32(n) ==> r == n
  {
    (n - Int32Min) % Int32Modulus + Int32Min
  }

  /** Wrapping after every addition is the same as wrapping the exact sum once. */
  lemma Wrap32Add(a: int, b: int)
    ensures Wrap32(Wrap32(a) + b) == Wrap32(a + b)
  {
    var q := (a - Int32Min) / 0x1_0000_0000;
    assert Wrap32(a) == a - q * 0x1_0000_0000;
    ModuloShift(a + b - Int32Min, q);
  }

  lemma ModuloShift(x: int, q: int)
    ensures (x - q * 0x1_0000_0000) % 0x1_0000_0000 == x % 0x1_0000_0000
  {
  }

  predicate IsDigit(c: char)
  {
    '0' <= c <= '9'
  }

  predicate AllDigits(s: string)
  {
    forall i | 0 <= i < |s| :: IsDigit(s[i])
  }

  function DigitChar(d: int): (c: char)
    requires 0 <= d < 10
    ensures IsDigit(c)
  {
    (48 + d) as char
  }

  function DigitValue(c: char): (d: int)
    requires IsDigit(c)
    ensures 0 <= d < 10 && DigitChar(d) == c
  {
    c as int - 48
  }

  /** The decimal digits of a natural number, most significant first, without leading zeros. */
  function NatToString(n: nat): (s: string)
    ensures |s| >= 1 && AllDigits(s)
    ensures |s| == 1 <==> n < 10
  {
    if n < 10 then [DigitChar(n)]
    else NatToString(n / 10) + [DigitChar(n % 10)]
  }

  /** Integer.toString(n): a minus sign before the digits of a negative number. */
  function IntToString(n: int): string
  {
    if n < 0 then "-" + NatToString(-n) else NatToString(n)
  }

  /** Integer.toString writes a minus sign exactly for a negative number, and digits after it. */
  lemma IntToStringForm(n: int)
    ensures var r := IntToString(n);
            && |r| >= 1 && (r[0] == '-' <==> n < 0)
            && AllDigits(if n < 0 then r[1..] else r) && (n < 0 ==> |r| >= 2)
  {
    if n < 0 {
      var digits := NatToString(-n);
      assert ("-" + digits)[1..] == digits;
    }
  }

  /** The value of a string of decimal digits. */
  function DigitsValue(s: string): nat
    requires AllDigits(s)
  {
    if s == [] then 0
    else DigitsValue(s[..|s| - 1]) * 10 + DigitValue(s[|s| - 1])
  }

  /** Reading the digits of a number back gives the number. */
  lemma {:induction false} DigitsOfNat(n: nat)
    ensures DigitsValue(NatToString(n)) == n
  {
    if n >= 10 {
      var s := NatToString(n);
      assert s[..|s| - 1] == NatToString(n / 10);
      DigitsOfNat(n / 10);
    }
  }

  /** The digits of a positive number do not start with a zero. */
  lemma {:induction false} NatToStringNoLeadingZero(n: nat)
    requires n >= 1
    ensures NatToString(n)[0] != '0'
  {
    if n >= 10 {
      NatToStringNoLeadingZero(n / 10);
      assert NatToString(n)[0] == NatToString(n / 10)[0];
    }
  }

  /** A number of 10 to 99 has two digits, one of 1000 to 9999 four. */
  lemma NatToStringWidth(n: nat)
    ensures 10 <= n < 100 ==> |NatToString(n)| == 2
    ensures 1000 <= n < 10000 ==> |NatToString(n)| == 4
  {
    if 1000 <= n < 10000 {
      assert |NatToString(n / 10 / 10)| == 2;
    }
  }

  /**
   * Integer.parseInt(s): an optional sign followed by at least one decimal
   * digit, whose value is an int; `None` where Java throws
   * NumberFormatException.
   */
  function ParseInt(s: string): (r: Option<int>)
    ensures r.Some? ==> IsInt32(r.value)
    ensures s == [] ==> r.None?
  {
    if s == [] then None
    else
      var body := if s[0] == '-' || s[0] == '+' then s[1..] else s;
      if body == [] || !AllDigits(body) then None
      else
        var v: int := if s[0] == '-' then -(DigitsValue(body) as int) else DigitsValue(body);
        if IsInt32(v) then Some(v) else None
  }

  /** A minus sign before a digit string makes Integer.parseInt negate its value. */
  lemma ParseIntNegative(digits: string)
    requires digits != [] && AllDigits(digits) && IsInt32(-(DigitsValue(digits) as int))
    ensures ParseInt("-" + digits) == Some(-(DigitsValue(digits) as int))
  {
    var s := "-" + digits;
    assert s[0] == '-' && s[1..] == digits;
  }

  /** Integer.parseInt reads back what Integer.toString writes. */
  lemma ParseIntOfIntToString(n: int)
    requires IsInt32(n)
    ensures ParseInt(IntToString(n)) == Some(n)
  {
    var s := IntToString(n);
    if n < 0 {
      var m: nat := -n;
      var digits := NatToString(m);
      DigitsOfNat(m);
      assert s == "-" + digits;
      ParseIntNegative(digits);
    } else {
      assert s == NatToString(n) && IsDigit(s[0]);
      DigitsOfNat(n);
      assert ParseInt(s) == Some(DigitsValue(s) as int);
    }
  }

  /** A leading zero does not change the value of a digit string. */
  lemma {:induction false} LeadingZeroValue(s: string)
    requires AllDigits(s)
    ensures DigitsValue("0" + s) == DigitsValue(s)
  {
    if s != [] {
      var t := "0" + s;
      assert t[..|t| - 1] == "0" + s[..|s| - 1];
      LeadingZeroValue(s[..|s| - 1]);
    }
  }

  /** The pieces of `s` between single spaces, empty pieces included. */
  function SplitAll(s: string): (r: seq<string>)
    ensures |r| >= 1
    ensures forall i | 0 <= i < |r| :: ' ' !in r[i]
  {
    if s == [] then [""]
    else
      var rest := SplitAll(s[1..]);
      if s[0] == ' ' then [""] + rest
      else [[s[0]] + rest[0]] + rest[1..]
  }

  /** The pieces joined again with single spaces. */
  function Join(parts: seq<string>): string
    requires |parts| >= 1
  {
    if |parts| == 1 then parts[0] else parts[0] + " " + Join(parts[1..])
  }

  /** Splitting at every space loses nothing: joining the pieces gives the string back. */
  lemma {:induction false} JoinSplitAll(s: string)
    ensures Join(SplitAll(s)) == s
  {
    if s != [] {
      var rest := SplitAll(s[1..]);
      JoinSplitAll(s[1..]);
      if s[0] == ' ' {
        assert ([""] + rest)[1..] == rest;
      } else {
        var r := [[s[0]] + rest[0]] + rest[1..];
        if |rest| > 1 {
          assert r[1..] == rest[1..];
          assert Join(rest) == rest[0] + " " + Join(rest[1..]);
        }
      }
    }
  }

  function DropTrailingEmpty(parts: seq<string>): (r: seq<string>)
    ensures |r| <= |parts| && r == parts[..|r|]
    ensures r != [] ==> r[|r| - 1] != ""
    ensures forall i | |r| <= i < |parts| :: parts[i] == ""
  {
    if parts != [] && parts[|parts| - 1] == "" then DropTrailingEmpty(parts[..|parts| - 1])
    else parts
  }

  /**
   * String.split(" "): the string itself when it holds no space; otherwise
   * the pieces between single spaces with the trailing empty pieces removed.
   */
  function Split(s: string): (r: seq<string>)
    ensures ' ' !in s ==> r == [s]
    ensures ' ' in s ==> |r| <= |SplitAll(s)| && r == SplitAll(s)[..|r|] && forall i | |r| <= i < |SplitAll(s)| :: SplitAll(s)[i] == ""
    ensures ' ' in s && r != [] ==> r[|r| - 1] != ""
  {
    if ' ' !in s then [s] else DropTrailingEmpty(SplitAll(s))
  }
}
