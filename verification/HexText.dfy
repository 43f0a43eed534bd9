/**
  The text of the constants in the emitted C: printf's `0x%0Nx`, and how a C compiler reads it.
  N is a minimum width; nothing is ever cut off.
  */
module HexText {
  import opened Words

  datatype Option<T> = None | Some(value: T)

  function Digit(d: nat): char
    requires d < 16
  {
    if d < 10 then '0' + d as char else 'a' + (d - 10) as char
  }

  /** The value of a hex digit in either case. */
  function DigitValue(c: char): (r: Option<nat>)
    ensures r.Some? ==> r.value < 16
  {
    if '0' <= c <= '9' then Some((c - '0') as nat)
    else if 'a' <= c <= 'f' then Some((c - 'a') as nat + 10)
    else if 'A' <= c <= 'F' then Some((c - 'A') as nat + 10)
    else None
  }

  function Digits(n: nat): (s: string)
    ensures |s| >= 1
  {
    if n < 16 then [Digit(n)] else Digits(n / 16) + [Digit(n % 16)]
  }

  function Zeros(n: nat): string {
    if n == 0 then "" else "0" + Zeros(n - 1)
  }

  /** printf("0x%0Nx", n) with N = width. */
  function PrintHex(n: nat, width: nat): string {
    var s := Digits(n);
    "0x" + (if |s| < width then Zeros(width - |s|) + s else s)
  }

  function ParseDigits(s: string): Option<nat>
    decreases |s|
  {
    if |s| == 0 then Some(0) else
      var hi := ParseDigits(s[..|s| - 1]);
      var lo := DigitValue(s[|s| - 1]);
      if hi.Some? && lo.Some? then Some(16 * hi.value + lo.value) else None
  }

  /** The value of a C hexadecimal constant; None for text that is not one. */
  function ParseHex(s: string): Option<nat> {
    if |s| >= 3 && s[..2] == "0x" then ParseDigits(s[2..]) else None
  }

  lemma {:induction false} ParseOfDigits(n: nat)
    ensures ParseDigits(Digits(n)) == Some(n)
  {
    if n < 16 {
      assert Digits(n)[..0] == [];
    } else {
      ParseOfDigits(n / 16);
      assert Digits(n)[..|Digits(n)| - 1] == Digits(n / 16);
    }
  }

  lemma {:induction false} LeadingZeros(k: nat, s: string)
    requires |s| >= 1
    ensures ParseDigits(Zeros(k) + s) == ParseDigits(s)
    ensures |Zeros(k)| == k
    decreases k, |s|
  {
    if k > 0 {
      LeadingZeros(k - 1, s);
      LeadingZero(Zeros(k - 1) + s);
      assert Zeros(k) + s == "0" + (Zeros(k - 1) + s);
    } else {
      assert Zeros(k) + s == s;
    }
  }

  lemma {:induction false} LeadingZero(s: string)
    ensures ParseDigits("0" + s) == ParseDigits(s)
    decreases |s|
  {
    var t := "0" + s;
    if |s| == 0 {
      assert t[..0] == [];
    } else {
      assert t[..|t| - 1] == "0" + s[..|s| - 1];
      LeadingZero(s[..|s| - 1]);
    }
  }

  /** The compiler reads back exactly the number that was printed, whatever the minimum width. */
  lemma ParseOfPrint(n: nat, width: nat)
    ensures ParseHex(PrintHex(n, width)) == Some(n)
    ensures |PrintHex(n, width)| >= 2 + width
  {
    ParseOfDigits(n);
    var s := Digits(n);
    if |s| < width {
      LeadingZeros(width - |s|, s);
    }
    var body := if |s| < width then Zeros(width - |s|) + s else s;
    assert PrintHex(n, width)[2..] == body;
  }

  predicate LowerHex(c: char) { '0' <= c <= '9' || 'a' <= c <= 'f' }

  lemma {:induction false} DigitsShape(n: nat)
    ensures Digits(n) != "" && forall i :: 0 <= i < |Digits(n)| ==> LowerHex(Digits(n)[i])
  {
    if n >= 16 {
      DigitsShape(n / 16);
    }
  }

  lemma {:induction false} DigitsShort(n: nat, width: nat)
    requires 0 < width && n < Pow2(4 * width)
    ensures |Digits(n)| <= width
  {
    if n >= 16 {
      assert Pow2(4) == 16 by { Pow2Values(); }
      if width > 1 {
        Pow2Sum(4 * (width - 1), 4);
        QuotientBelow(n, 16, Pow2(4 * (width - 1)));
        DigitsShort(n / 16, width - 1);
      }
    }
  }

  lemma {:induction false} ZerosShape(n: nat)
    ensures |Zeros(n)| == n && forall i :: 0 <= i < n ==> Zeros(n)[i] == '0'
  {
    if n > 0 {
      ZerosShape(n - 1);
    }
  }

  /** The text is 0x and lower-case digits, exactly `width` of them for a number that they can hold. */
  lemma PrintHexShape(n: nat, width: nat)
    requires 0 < width && n < Pow2(4 * width)
    ensures |PrintHex(n, width)| == 2 + width && PrintHex(n, width)[..2] == "0x"
    ensures forall i :: 2 <= i < 2 + width ==> LowerHex(PrintHex(n, width)[i])
  {
    DigitsShape(n);
    DigitsShort(n, width);
    ZerosShape(width - |Digits(n)|);
  }
}
