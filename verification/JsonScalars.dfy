/** Strings and numbers: what is printed reads back. */
module JsonScalars {
  import opened Decimal
  import opened Json
  import opened JsonValues

  // ---- escaping ----

  lemma TurnUnescapes(c: char, more: string)
    ensures EscapeChar(c) != "" && EscapeChar(c)[0] != '"'
    ensures StringTurn(EscapeChar(c) + more) == ([c], |EscapeChar(c)|)
  {
    var e := EscapeChar(c);
    var t := e + more;
    assert forall i :: 0 <= i < |e| ==> t[i] == e[i];
    if c as nat < 0x20 && c != '\n' && c != '\r' && c != '\t' {
      assert t[2..6] == e[2..6];
      HexReadsBack(c as nat / 16);
      HexReadsBack(c as nat % 16);
      assert Hex4(e[2..6]) == c as nat;
    }
  }

  lemma HexReadsBack(d: nat)
    requires d < 16
    ensures HexNibble(HexDigit(d)) == d
  {
  }

  const LOWER := "0123456789abcdef"
  const UPPER := "0123456789ABCDEF"

  /** Four hexadecimal digits, each in either case, are read as the number they spell. */
  lemma HexReads(ds: seq<nat>, t: string)
    requires |ds| == 4 && |t| == 4 && forall i :: 0 <= i < 4 ==> ds[i] < 16
    requires forall i :: 0 <= i < 4 ==> t[i] == LOWER[ds[i]] || t[i] == UPPER[ds[i]]
    ensures Hex4(t) == 0x1000 * ds[0] + 0x100 * ds[1] + 0x10 * ds[2] + ds[3]
  {
    hide HexNibble;
    Nibble(ds[0], t[0]);
    Nibble(ds[1], t[1]);
    Nibble(ds[2], t[2]);
    Nibble(ds[3], t[3]);
  }

  lemma Nibble(d: nat, c: char)
    requires d < 16 && (c == LOWER[d] || c == UPPER[d])
    ensures HexNibble(c) == d
  {
  }

  lemma {:induction false} ScanEscaped(s: string, rest: string, acc: string)
    ensures ScanString(Escape(s) + "\"" + rest, acc) == (acc + s, "\"" + rest)
    decreases |s|
  {
    hide EscapeChar, StringTurn, ScanString;
    var t := Escape(s) + "\"" + rest;
    if s == "" {
      assert t == "\"" + rest && acc + s == acc;
      ScanStop(t, acc);
    } else {
      var e, more := EscapeChar(s[0]), Escape(s[1..]) + "\"" + rest;
      assert t == e + more && t[|e|..] == more;
      TurnUnescapes(s[0], more);
      assert t[0] == e[0];
      ScanTurn(t, acc);
      ScanEscaped(s[1..], rest, acc + [s[0]]);
      assert acc + [s[0]] + s[1..] == acc + s;
    }
  }

  /** Any bytes at all survive as a string literal: quotes, backslashes, control bytes and NUL. */
  lemma StringReadsBack(s: string, rest: string, ok: bool)
    ensures ReadString(Cursor(Quoted(s) + rest, ok)) == Read(s, Cursor(rest, ok))
  {
    hide ScanString, ReadString, Escape;
    var t := Quoted(s) + rest;
    assert t[1..] == Escape(s) + "\"" + rest;
    ReadStringUnfolds(t, ok);
    ScanEscaped(s, rest, "");
    assert "" + s == s && ("\"" + rest)[1..] == rest;
  }

  /** Section 7 of RFC 8259 holds of what is printed: it is a well-formed string. */
  lemma {:induction false} EscapeIsJson(s: string)
    ensures BodyOk(Escape(s))
  {
    if s != "" {
      EscapeIsJson(s[1..]);
      var e := EscapeChar(s[0]);
      var t := e + Escape(s[1..]);
      assert t[|e|..] == Escape(s[1..]);
      assert forall i :: 0 <= i < |e| ==> t[i] == e[i];
    }
  }

  /** What is printed for a string is a literal that reads as it. */
  lemma EscapeDecodes(s: string)
    ensures BodyOk(Escape(s)) && Decode(Escape(s)) == s && Quoted(s) == Literal(Escape(s))
  {
    hide ScanString, Escape, BodyOk, Decode;
    EscapeIsJson(s);
    ScanEscaped(s, "", "");
    ScanLiteral(Escape(s), "", "");
    assert "" + s == s && "" + Decode(Escape(s)) == Decode(Escape(s));
  }

  // ---- numbers ----

  predicate EndsNumber(rest: string) {
    rest == "" || !(IsDigit(rest[0]) || rest[0] == '-')
  }

  lemma {:induction false} NumberRunStops(ds: string, rest: string)
    requires AllDigits(ds) && EndsNumber(rest)
    ensures NumberRun(ds + rest) == |ds|
    decreases |ds|
  {
    if ds == "" {
      assert ds + rest == rest;
    } else {
      assert (ds + rest)[1..] == ds[1..] + rest;
      NumberRunStops(ds[1..], rest);
    }
  }

  lemma NumberUnfolds(t: string)
    requires t != "" && IsDigit(t[0])
    ensures ReadU64(Cursor(t, true)) == Read(StrToULL(t[..NumberRun(t)]), Cursor(t[NumberRun(t)..], true))
  {
    hide StrToULL, NumberRun, DropWs;
    NoWs(t);
  }

  lemma NumberReadsBack(n: nat, rest: string)
    requires n < TWO_TO_THE_64 && EndsNumber(rest)
    ensures ReadU64(Cursor(ToString(n) + rest, true)) == Read(n, Cursor(rest, true))
  {
    hide ToString, StrToULL, NumberRun, ReadU64, EndsNumber;
    var ds := ToString(n);
    var t := ds + rest;
    assert t[0] == ds[0] && IsDigit(ds[0]);
    NumberUnfolds(t);
    NumberRunStops(ds, rest);
    assert t[..|ds|] == ds && t[|ds|..] == rest;
    ReadsBack(n, "");
    assert ds + "" == ds;
  }
}
