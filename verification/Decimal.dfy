/** Decimal notation as printf writes it with %d and sscanf reads it. */
module Decimal {

  datatype Option<+T> = None | Some(value: T)

  predicate IsDigit(c: char) {
    '0' <= c <= '9'
  }

  function DigitChar(d: nat): (c: char)
    requires d < 10
    ensures IsDigit(c)
  {
    ('0' as int + d) as char
  }

  function DigitValue(c: char): (d: nat)
    requires IsDigit(c)
    ensures d < 10 && DigitChar(d) == c
  {
    c as int - '0' as int
  }

  ghost predicate AllDigits(s: string) {
    forall i :: 0 <= i < |s| ==> IsDigit(s[i])
  }

  function ShowNat(n: nat): (s: string)
    ensures |s| > 0 && AllDigits(s)
  {
    if n < 10 then [DigitChar(n)] else ShowNat(n / 10) + [DigitChar(n % 10)]
  }

  function Show(n: int): (s: string)
    ensures |s| > 0
  {
    if n < 0 then "-" + ShowNat(-n) else ShowNat(n)
  }

  /** The longest prefix of digits, and the number it denotes. */
  function DigitCount(s: string): (k: nat)
    ensures k <= |s| && AllDigits(s[..k]) && (k < |s| ==> !IsDigit(s[k]))
  {
    if s == [] || !IsDigit(s[0]) then 0
    else
      var k := 1 + DigitCount(s[1..]);
      assert s[..k] == [s[0]] + s[1..][..k - 1];
      k
  }

  function NatOf(s: string): nat
    requires AllDigits(s)
  {
    if s == [] then 0 else 10 * NatOf(s[..|s| - 1]) + DigitValue(s[|s| - 1])
  }

  predicate IsSpace(c: char) {
    c == ' ' || '\t' as int <= c as int <= '\r' as int
  }

  function SkipSpace(s: string): string {
    if s != [] && IsSpace(s[0]) then SkipSpace(s[1..]) else s
  }

  /** The unsigned part of sscanf's %d. */
  function ScanNat(s: string): Option<nat> {
    var k := DigitCount(s);
    if k == 0 then None else Some(NatOf(s[..k]))
  }

  function Negate(n: Option<nat>): Option<int> {
    if n.Some? then Some(-(n.value as int)) else None
  }

  /** sscanf's %d at the start of `s`: white space, an optional sign, digits; what follows is ignored. */
  function Scan(s: string): Option<int> {
    var t := SkipSpace(s);
    if t == [] then None
    else if t[0] == '-' then Negate(ScanNat(t[1..]))
    else if t[0] == '+' then ScanNat(t[1..])
    else ScanNat(t)
  }

  lemma {:induction false} NatOfShow(n: nat)
    ensures NatOf(ShowNat(n)) == n
  {
    if n >= 10 {
      NatOfShow(n / 10);
      assert ShowNat(n)[..|ShowNat(n)| - 1] == ShowNat(n / 10);
    }
  }

  lemma {:induction false} DigitCountOf(s: string, rest: string)
    requires AllDigits(s) && (rest == [] || !IsDigit(rest[0]))
    ensures DigitCount(s + rest) == |s|
  {
    if s == [] {
      assert s + rest == rest;
    } else {
      assert (s + rest)[1..] == s[1..] + rest;
      DigitCountOf(s[1..], rest);
    }
  }

  lemma ScanDigits(n: nat, rest: string)
    requires rest == [] || !IsDigit(rest[0])
    ensures ScanNat(ShowNat(n) + rest) == Some(n)
  {
    NatOfShow(n);
    DigitCountOf(ShowNat(n), rest);
    assert (ShowNat(n) + rest)[..|ShowNat(n)|] == ShowNat(n);
  }

  lemma ScanMinus(digits: string, n: nat)
    requires ScanNat(digits) == Some(n)
    ensures Scan("-" + digits) == Negate(Some(n))
  {
    assert ("-" + digits)[1..] == digits;
  }

  lemma ScanPlain(digits: string, n: nat)
    requires ScanNat(digits) == Some(n)
    ensures Scan(digits) == Some(n)
  {
    assert IsDigit(digits[0]);
  }

  /** Leading white space is skipped, whatever it is. */
  lemma {:induction false} ScanSpaced(g: string, s: string)
    requires forall i :: 0 <= i < |g| ==> g[i] in {' ', '\t', '\n', '\r'}
    ensures Scan(g + s) == Scan(s)
    decreases |g|
  {
    if g == "" {
      assert g + s == s;
    } else {
      assert (g + s)[1..] == g[1..] + s;
      ScanSpaced(g[1..], s);
    }
  }

  lemma ScanPlus(digits: string, n: nat)
    requires ScanNat(digits) == Some(n)
    ensures Scan("+" + digits) == Some(n)
  {
    assert ("+" + digits)[1..] == digits;
  }

  /** A plus sign may stand before the digits. */
  lemma ScanSigned(n: nat, rest: string)
    requires rest == [] || !IsDigit(rest[0])
    ensures Scan("+" + ShowNat(n) + rest) == Some(n)
  {
    hide ScanNat, Scan, ShowNat;
    ScanDigits(n, rest);
    ScanPlus(ShowNat(n) + rest, n);
    assert "+" + ShowNat(n) + rest == "+" + (ShowNat(n) + rest);
  }

  /** Without digits nothing is read. */
  lemma ScanNothing(c: char, rest: string)
    requires c > ' ' && c != '+' && c != '-' && !IsDigit(c)
    ensures Scan([c] + rest) == None && Scan("") == None
  {
    assert DigitCount([c] + rest) == 0;
  }

  /** Scanning what was printed, followed by anything but a digit, gives the number back. */
  lemma ScanShow(n: int, rest: string)
    requires rest == [] || !IsDigit(rest[0])
    ensures Scan(Show(n) + rest) == Some(n)
  {
    if n < 0 {
      var digits := ShowNat(-n);
      ScanDigits(-n, rest);
      ScanMinus(digits + rest, -n);
      assert ("-" + digits) + rest == "-" + (digits + rest);
    } else {
      ScanDigits(n, rest);
      ScanPlain(ShowNat(n) + rest, n);
    }
  }
}
