/** Decimal text of 64-bit numbers: what `std::to_string` prints and what `strtoull`
    (section 7.22.1.4 of ISO C11, base 10) reads. */
module Decimal {

  const TWO_TO_THE_64: nat := 0x1_0000_0000_0000_0000

  predicate IsDigit(c: char) {
    '0' <= c <= '9'
  }

  predicate IsSpace(c: char) {
    c == ' ' || 9 as char <= c <= 13 as char
  }

  function DigitChar(d: nat): char
    requires d < 10
  {
    '0' + d as char
  }

  function DigitValue(c: char): nat
    requires IsDigit(c)
  {
    c as nat - '0' as nat
  }

  predicate AllDigits(s: string) {
    forall i :: 0 <= i < |s| ==> IsDigit(s[i])
  }

  function ToString(n: nat): (s: string)
    ensures s != "" && AllDigits(s)
  {
    if n < 10 then [DigitChar(n)] else ToString(n / 10) + [DigitChar(n % 10)]
  }

  function Value(s: string): nat
    requires AllDigits(s)
  {
    if s == "" then 0 else 10 * Value(s[..|s| - 1]) + DigitValue(s[|s| - 1])
  }

  lemma {:induction false} ValueOfToString(n: nat)
    ensures Value(ToString(n)) == n
  {
    if n >= 10 {
      ValueOfToString(n / 10);
      var s := ToString(n);
      assert s[..|s| - 1] == ToString(n / 10);
    }
  }

  /** The length of the leading run of digits. */
  function DigitRun(s: string): (n: nat)
    ensures n <= |s| && AllDigits(s[..n])
  {
    if s != "" && IsDigit(s[0]) then
      var n := 1 + DigitRun(s[1..]);
      assert s[..n] == [s[0]] + s[1..][..n - 1];
      n
    else 0
  }

  lemma {:induction false} DigitRunStops(ds: string, rest: string)
    requires AllDigits(ds) && (rest == "" || !IsDigit(rest[0]))
    ensures DigitRun(ds + rest) == |ds|
    decreases |ds|
  {
    if ds == "" {
      assert ds + rest == rest;
    } else {
      assert (ds + rest)[1..] == ds[1..] + rest;
      DigitRunStops(ds[1..], rest);
    }
  }

  function DropSpace(s: string): string {
    if s != "" && IsSpace(s[0]) then DropSpace(s[1..]) else s
  }

  /** Skip white space, read an optional sign, read digits up to the first other character.
      A value that does not fit saturates; a minus sign negates modulo 2^64. */
  function StrToULL(s: string): (v: nat)
    ensures v < TWO_TO_THE_64
  {
    var t := DropSpace(s);
    var signed := t != "" && (t[0] == '-' || t[0] == '+');
    var u := if signed then t[1..] else t;
    var v := Value(u[..DigitRun(u)]);
    if v >= TWO_TO_THE_64 then TWO_TO_THE_64 - 1
    else if signed && t[0] == '-' then (TWO_TO_THE_64 - v) % TWO_TO_THE_64
    else v
  }

  /** Every 64-bit number survives printing and reading, whatever non-digit follows. */
  lemma ReadsBack(n: nat, rest: string)
    requires n < TWO_TO_THE_64 && (rest == "" || !IsDigit(rest[0]))
    ensures StrToULL(ToString(n) + rest) == n
  {
    var s := ToString(n) + rest;
    assert s[0] == ToString(n)[0] && IsDigit(s[0]);
    assert DropSpace(s) == s;
    DigitRunStops(ToString(n), rest);
    assert s[..|ToString(n)|] == ToString(n);
    ValueOfToString(n);
  }

  predicate AllSpace(s: string) {
    forall i :: 0 <= i < |s| ==> IsSpace(s[i])
  }

  lemma {:induction false} DropSpaceStops(space: string, rest: string)
    requires AllSpace(space) && (rest == "" || !IsSpace(rest[0]))
    ensures DropSpace(space + rest) == rest
    decreases |space|
  {
    if space == "" {
      assert space + rest == rest;
    } else {
      assert (space + rest)[1..] == space[1..] + rest;
      DropSpaceStops(space[1..], rest);
    }
  }

  /** What any text is read as: white space, a sign or none, digits (perhaps none) and a rest that
      does not go on with digits. A magnitude of 2^64 or more saturates, whatever its sign. */
  lemma ReadsAny(space: string, sign: string, ds: string, rest: string)
    requires AllSpace(space) && AllDigits(ds) && sign in {"", "+", "-"}
    requires rest == "" || !IsDigit(rest[0])
    requires sign == "" && ds == "" ==> rest == "" || !(IsSpace(rest[0]) || rest[0] == '+' || rest[0] == '-')
    ensures
      var v := StrToULL(space + (sign + (ds + rest)));
      && (Value(ds) >= TWO_TO_THE_64 ==> v == TWO_TO_THE_64 - 1)
      && (Value(ds) < TWO_TO_THE_64 && sign != "-" ==> v == Value(ds))
      && (Value(ds) < TWO_TO_THE_64 && sign == "-" ==>
            v == if Value(ds) == 0 then 0 else TWO_TO_THE_64 - Value(ds))
  {
    hide DropSpace, DigitRun, Value;
    var u := ds + rest;
    var t := sign + u;
    assert u[..|ds|] == ds;
    DropSpaceStops(space, t);
    DigitRunStops(ds, rest);
    if sign == "" {
      assert t == u;
    } else {
      assert t[1..] == u;
    }
  }
}
