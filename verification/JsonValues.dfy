/** Well-formed JSON values (RFC 8259), and why the parser steps over each of them exactly. */
module JsonValues {
  import opened Decimal
  import opened Json

  /** Values with their insignificant white space. */
  datatype Value =
    | Token(text: string)                 // a number, true, false or null
    | Str(body: string)                   // what stands between the quotes, escapes and all
    | EmptyArr(pad: string)
    | Arr(elems: Elems)
    | EmptyObj(pad: string)
    | Obj(fields: Fields)
  datatype Elems =
    | LastElem(pre: string, value: Value, post: string)
    | MoreElems(pre: string, value: Value, post: string, rest: Elems)
  datatype Fields =
    | LastField(pre: string, key: string, mid: string, lead: string, value: Value, post: string)
    | MoreFields(pre: string, key: string, mid: string, lead: string, value: Value, post: string, rest: Fields)

  predicate AllWs(s: string) {
    forall i :: 0 <= i < |s| ==> IsWs(s[i])
  }

  predicate IsTokenChar(c: char) {
    IsDigit(c) || 'a' <= c <= 'z' || 'A' <= c <= 'Z' || c == '+' || c == '-' || c == '.'
  }

  predicate IsHex(c: char) {
    IsDigit(c) || 'a' <= c <= 'f' || 'A' <= c <= 'F'
  }

  /** Section 7 of RFC 8259: no bare quote, backslash or control character. */
  predicate BodyOk(b: string) {
    if b == "" then true
    else if b[0] == '\\' then
      if |b| < 2 then false
      else if b[1] == 'u' then
        |b| >= 6 && IsHex(b[2]) && IsHex(b[3]) && IsHex(b[4]) && IsHex(b[5]) && BodyOk(b[6..])
      else b[1] in "\"\\/bfnrt" && BodyOk(b[2..])
    else b[0] != '"' && b[0] as nat >= 0x20 && BodyOk(b[1..])
  }

  predicate ValueOk(v: Value) {
    match v
    case Token(t) => t != "" && forall i :: 0 <= i < |t| ==> IsTokenChar(t[i])
    case Str(b) => BodyOk(b)
    case EmptyArr(pad) => AllWs(pad)
    case Arr(es) => ElemsOk(es)
    case EmptyObj(pad) => AllWs(pad)
    case Obj(fs) => FieldsOk(fs)
  }

  predicate ElemsOk(es: Elems) {
    && AllWs(es.pre) && ValueOk(es.value) && AllWs(es.post)
    && (es.MoreElems? ==> ElemsOk(es.rest))
  }

  predicate FieldsOk(fs: Fields) {
    && AllWs(fs.pre) && BodyOk(fs.key) && AllWs(fs.mid) && AllWs(fs.lead) && ValueOk(fs.value) && AllWs(fs.post)
    && (fs.MoreFields? ==> FieldsOk(fs.rest))
  }

  function Literal(body: string): string {
    "\"" + body + "\""
  }

  function Text(v: Value): string {
    match v
    case Token(t) => t
    case Str(b) => Literal(b)
    case EmptyArr(pad) => "[" + pad + "]"
    case Arr(es) => "[" + ElemsText(es) + "]"
    case EmptyObj(pad) => "{" + pad + "}"
    case Obj(fs) => "{" + FieldsText(fs) + "}"
  }

  function ElemsText(es: Elems): string {
    es.pre + Text(es.value) + es.post + if es.MoreElems? then "," + ElemsText(es.rest) else ""
  }

  function FieldsText(fs: Fields): string {
    fs.pre + Literal(fs.key) + (fs.mid + ":" + fs.lead) + Text(fs.value) + fs.post
    + if fs.MoreFields? then "," + FieldsText(fs.rest) else ""
  }

  ghost predicate IsJson(text: string) {
    exists v :: ValueOk(v) && Text(v) == text
  }

  // ---- strings ----

  /** What the parser makes of what stands between the quotes. */
  function Decode(b: string): string
    decreases |b|
  {
    if b == "" then "" else
      var turn := StringTurn(b);
      turn.0 + Decode(b[turn.1..])
  }

  /** A turn inside a literal does not look past its end. */
  lemma TurnInside(b: string, rest: string)
    requires BodyOk(b) && b != ""
    ensures
      var turn := StringTurn(b);
      StringTurn(b + rest) == turn && 0 < turn.1 <= |b| && BodyOk(b[turn.1..]) && b[0] != '"'
  {
    var t := b + rest;
    assert t[0] == b[0] && (|b| > 1 ==> t[1] == b[1]);
    if b[0] == '\\' && b[1] == 'u' {
      assert t[2..6] == b[2..6];
    }
  }

  lemma {:induction false} ScanLiteral(b: string, rest: string, acc: string)
    requires BodyOk(b)
    ensures ScanString(b + "\"" + rest, acc) == (acc + Decode(b), "\"" + rest)
    decreases |b|
  {
    hide StringTurn, BodyOk, ScanString;
    var t := b + "\"" + rest;
    if b == "" {
      assert t == "\"" + rest && acc + "" == acc;
      ScanStop(t, acc);
    } else {
      var turn := StringTurn(b);
      assert t == b + ("\"" + rest);
      TurnInside(b, "\"" + rest);
      ScanTurn(t, acc);
      ScanLiteral(b[turn.1..], rest, acc + turn.0);
      assert t[turn.1..] == b[turn.1..] + "\"" + rest;
      assert acc + turn.0 + Decode(b[turn.1..]) == acc + Decode(b);
    }
  }

  lemma ReadLiteral(b: string, rest: string, ok: bool)
    requires BodyOk(b)
    ensures ReadString(Cursor(Literal(b) + rest, ok)) == Read(Decode(b), Cursor(rest, ok))
  {
    hide ScanString, ReadString, BodyOk;
    var t := Literal(b) + rest;
    assert t[1..] == b + "\"" + rest;
    ReadStringUnfolds(t, ok);
    ScanLiteral(b, rest, "");
    assert "" + Decode(b) == Decode(b) && ("\"" + rest)[1..] == rest;
  }

  // ---- what a literal names ----

  /** Section 7 of RFC 8259: the value of a two-character escape. */
  function EscapeValue(c: char): nat {
    match c
    case 'b' => 0x08
    case 'f' => 0x0c
    case 'n' => 0x0a
    case 'r' => 0x0d
    case 't' => 0x09
    case _ => c as nat
  }

  /** The code units a literal stands for. */
  function Name(b: string): seq<nat>
    requires BodyOk(b)
    decreases |b|
  {
    if b == "" then []
    else if b[0] != '\\' then [b[0] as nat] + Name(b[1..])
    else if b[1] == 'u' then [Hex4(b[2..6])] + Name(b[6..])
    else [EscapeValue(b[1])] + Name(b[2..])
  }

  /** No `\u` escape at or above 0x80. */
  predicate AsciiEscapes(b: string)
    requires BodyOk(b)
    decreases |b|
  {
    if b == "" then true
    else if b[0] != '\\' then AsciiEscapes(b[1..])
    else if b[1] == 'u' then Hex4(b[2..6]) < 0x80 && AsciiEscapes(b[6..])
    else AsciiEscapes(b[2..])
  }

  function Codes(s: string): (cs: seq<nat>)
    ensures |cs| == |s| && forall i :: 0 <= i < |s| ==> cs[i] == s[i] as nat
  {
    seq(|s|, i requires 0 <= i < |s| => s[i] as nat)
  }

  lemma {:induction false} DecodesSome(b: string)
    requires BodyOk(b)
    ensures |Decode(b)| <= |Name(b)| && (|Decode(b)| == |Name(b)| <==> AsciiEscapes(b))
    ensures AsciiEscapes(b) ==> Codes(Decode(b)) == Name(b)
    decreases |b|
  {
    if b != "" {
      var turn := StringTurn(b);
      var rest := b[turn.1..];
      TurnInside(b, "");
      DecodesSome(rest);
      if AsciiEscapes(b) {
        assert Codes(turn.0 + Decode(rest)) == Codes(turn.0) + Codes(Decode(rest));
        assert Codes(turn.0) == [Name(b)[0]];
      }
    }
  }

  /** The parser reads a literal as what it names exactly when it has no `\u` escape at or above
      0x80; those it drops. */
  lemma DecodesNameExactly(b: string)
    requires BodyOk(b)
    ensures Codes(Decode(b)) == Name(b) <==> AsciiEscapes(b)
  {
    hide BodyOk, AsciiEscapes, Name, Decode;
    DecodesSome(b);
  }

  // ---- balanced texts ----

  predicate IsBracketPair(open: char, close: char) {
    (open == '{' && close == '}') || (open == '[' && close == ']')
  }

  /** Skipping, at any depth, passes over the text and comes out at the same depth. */
  ghost predicate Balanced(s: string) {
    forall rest, ok, open, close, depth: nat :: IsBracketPair(open, close) && depth > 0 ==>
      SkipNest(Cursor(s + rest, ok), open, close, depth) == SkipNest(Cursor(rest, ok), open, close, depth)
  }

  lemma BalancedConcat(a: string, b: string)
    requires Balanced(a) && Balanced(b)
    ensures Balanced(a + b)
  {
    forall rest, ok, open, close, depth: nat | IsBracketPair(open, close) && depth > 0
      ensures SkipNest(Cursor(a + b + rest, ok), open, close, depth) == SkipNest(Cursor(rest, ok), open, close, depth)
    {
      assert a + b + rest == a + (b + rest);
    }
  }

  predicate IsPlain(c: char) {
    c != '"' && c != '{' && c != '}' && c != '[' && c != ']'
  }

  lemma {:induction false} BalancedPlain(s: string)
    requires forall i :: 0 <= i < |s| ==> IsPlain(s[i])
    ensures Balanced(s)
    decreases |s|
  {
    if s == "" {
      assert forall rest: string :: s + rest == rest;
    } else {
      BalancedPlain(s[1..]);
      forall rest, ok, open, close, depth: nat | IsBracketPair(open, close) && depth > 0
        ensures SkipNest(Cursor(s + rest, ok), open, close, depth) == SkipNest(Cursor(rest, ok), open, close, depth)
      {
        assert (s + rest)[0] == s[0] && (s + rest)[1..] == s[1..] + rest;
      }
    }
  }

  lemma BalancedLiteral(b: string)
    requires BodyOk(b)
    ensures Balanced(Literal(b))
  {
    forall rest, ok, open, close, depth: nat | IsBracketPair(open, close) && depth > 0
      ensures
        SkipNest(Cursor(Literal(b) + rest, ok), open, close, depth) == SkipNest(Cursor(rest, ok), open, close, depth)
    {
      hide ReadString, BodyOk;
      ReadLiteral(b, rest, ok);
      assert (Literal(b) + rest)[0] == '"';
    }
  }

  lemma NestStep(inner: string, rest: string, ok: bool, o: char, c: char, open: char, close: char, depth: nat)
    requires Balanced(inner) && IsBracketPair(o, c) && IsBracketPair(open, close) && depth > 0
    ensures
      SkipNest(Cursor([o] + inner + [c] + rest, ok), open, close, depth) ==
        SkipNest(Cursor(rest, ok), open, close, depth)
  {
    hide SkipNest;
    var s, t := [o] + inner + [c] + rest, [c] + rest;
    var d := if o == open then depth + 1 else depth;
    assert s[0] == o && s[1..] == inner + t;
    SkipNestStep(s, ok, open, close, depth);
    assert SkipNest(Cursor(inner + t, ok), open, close, d) == SkipNest(Cursor(t, ok), open, close, d);
    assert t[1..] == rest;
    SkipNestStep(t, ok, open, close, d);
  }

  lemma BalancedNest(inner: string)
    requires Balanced(inner)
    ensures Balanced("[" + inner + "]") && Balanced("{" + inner + "}")
  {
    forall rest, ok, open, close, depth: nat | IsBracketPair(open, close) && depth > 0
      ensures SkipNest(Cursor("[" + inner + "]" + rest, ok), open, close, depth) ==
        SkipNest(Cursor(rest, ok), open, close, depth)
      ensures SkipNest(Cursor("{" + inner + "}" + rest, ok), open, close, depth) ==
        SkipNest(Cursor(rest, ok), open, close, depth)
    {
      hide Balanced, SkipNest;
      NestStep(inner, rest, ok, '[', ']', open, close, depth);
      NestStep(inner, rest, ok, '{', '}', open, close, depth);
      assert ['['] == "[" && [']'] == "]" && ['{'] == "{" && ['}'] == "}";
    }
  }

  // ---- strings that break off ----

  lemma {:induction false} ScanPlain(u: string, acc: string)
    requires forall i :: 0 <= i < |u| ==> u[i] != '"' && u[i] != '\\'
    ensures ScanString(u, acc).1 == ""
    decreases |u|
  {
    if u != "" {
      ScanPlain(u[1..], acc + [u[0]]);
    }
  }

  /** A turn inside a prefix that holds all of it. */
  lemma TurnWithin(b: string, u: string)
    requires BodyOk(b) && b != "" && u <= b && |u| >= StringTurn(b).1
    ensures u != "" && StringTurn(u) == StringTurn(b)
  {
    assert u[0] == b[0] && (|u| > 1 ==> u[1] == b[1]);
    if b[0] == '\\' && b[1] == 'u' {
      assert u[2..6] == b[2..6];
    }
  }

  /** The body of a literal that breaks off has no closing quote. */
  lemma {:induction false} ScanCut(b: string, u: string, acc: string)
    requires BodyOk(b) && u <= b
    ensures ScanString(u, acc).1 == ""
    decreases |b|
  {
    if u != "" {
      var turn := StringTurn(b);
      TurnInside(b, "");
      if |u| >= turn.1 {
        TurnWithin(b, u);
        assert u[turn.1..] <= b[turn.1..];
        ScanTurn(u, acc);
        ScanCut(b[turn.1..], u[turn.1..], acc + turn.0);
      } else {
        EscapeCut(b, u, acc);
      }
    }
  }

  lemma EscapeCut(b: string, u: string, acc: string)
    requires BodyOk(b) && u <= b && u != "" && |u| < StringTurn(b).1
    ensures ScanString(u, acc).1 == ""
  {
    var turn := StringTurn(u);
    assert u[0] == '\\';
    ScanTurn(u, acc);
    assert forall i :: 0 <= i < |u| ==> u[i] == b[i];
    ScanPlain(u[turn.1..], acc + turn.0);
  }

  lemma LiteralCut(b: string, u: string, ok: bool)
    requires BodyOk(b) && u <= Literal(b) && |u| < |Literal(b)|
    ensures ReadString(Cursor(u, ok)).cur == Cursor("", false)
  {
    hide ScanString, ReadString, BodyOk;
    if u == "" {
      NothingRead(ok);
    } else {
      assert u[0] == '"' && u[1..] <= b;
      ReadStringUnfolds(u, ok);
      ScanCut(b, u[1..], "");
    }
  }

  lemma NothingRead(ok: bool)
    ensures ReadString(Cursor("", ok)).cur == Cursor("", false)
  {
  }

  // ---- values that break off ----

  /** Skipping, at any depth, runs to the end of whatever is there of the text. */
  ghost predicate RunsOut(s: string) {
    forall u, ok, open, close, depth: nat :: u <= s && IsBracketPair(open, close) && depth > 0 ==>
      SkipNest(Cursor(u, ok), open, close, depth).text == ""
  }

  lemma RunsOutConcat(a: string, b: string)
    requires RunsOut(a) && Balanced(a) && RunsOut(b)
    ensures RunsOut(a + b)
  {
    hide SkipNest;
    forall u, ok, open, close, depth: nat | u <= a + b && IsBracketPair(open, close) && depth > 0
      ensures SkipNest(Cursor(u, ok), open, close, depth).text == ""
    {
      if |u| <= |a| {
        assert u <= a;
      } else {
        var v := u[|a|..];
        assert u == a + v && v <= b;
        assert SkipNest(Cursor(a + v, ok), open, close, depth) == SkipNest(Cursor(v, ok), open, close, depth);
      }
    }
  }

  lemma {:induction false} SkipPlainOut(u: string, ok: bool, open: char, close: char, depth: nat)
    requires forall i :: 0 <= i < |u| ==> IsPlain(u[i])
    requires IsBracketPair(open, close) && depth > 0
    ensures SkipNest(Cursor(u, ok), open, close, depth).text == ""
    decreases |u|
  {
    if u == "" {
      SkipNestStops(ok, open, close, depth);
    } else {
      SkipNestStep(u, ok, open, close, depth);
      SkipPlainOut(u[1..], ok, open, close, depth);
    }
  }

  lemma SkipNestStops(ok: bool, open: char, close: char, depth: nat)
    ensures SkipNest(Cursor("", ok), open, close, depth) == Cursor("", ok)
  {
  }

  lemma PlainRunsOut(s: string)
    requires forall i :: 0 <= i < |s| ==> IsPlain(s[i])
    ensures RunsOut(s)
  {
    hide SkipNest;
    forall u, ok, open, close, depth: nat | u <= s && IsBracketPair(open, close) && depth > 0
      ensures SkipNest(Cursor(u, ok), open, close, depth).text == ""
    {
      SkipPlainOut(u, ok, open, close, depth);
    }
  }

  lemma LiteralRunsOut(b: string)
    requires BodyOk(b)
    ensures RunsOut(Literal(b))
  {
    hide SkipNest, BodyOk, ReadString;
    forall u, ok, open, close, depth: nat | u <= Literal(b) && IsBracketPair(open, close) && depth > 0
      ensures SkipNest(Cursor(u, ok), open, close, depth).text == ""
    {
      if u == "" {
        SkipNestStops(ok, open, close, depth);
      } else {
        assert u[0] == '"';
        SkipNestString(u, ok, open, close, depth);
        if |u| < |Literal(b)| {
          LiteralCut(b, u, ok);
          SkipNestStops(false, open, close, depth);
        } else {
          assert u == Literal(b) + "";
          ReadLiteral(b, "", ok);
          SkipNestStops(ok, open, close, depth);
        }
      }
    }
  }

  lemma SkipNestString(u: string, ok: bool, open: char, close: char, depth: nat)
    requires u != "" && u[0] == '"' && depth > 0
    ensures SkipNest(Cursor(u, ok), open, close, depth) == SkipNest(ReadString(Cursor(u, ok)).cur, open, close, depth)
  {
    hide ReadString;
  }

  /** A bracketed text, of either kind, seen from inside another. */
  lemma NestRunsOut(inner: string, o: char, c: char)
    requires RunsOut(inner) && Balanced(inner) && IsBracketPair(o, c)
    ensures RunsOut([o] + inner + [c])
  {
    hide SkipNest;
    var s := [o] + inner + [c];
    forall u, ok, open, close, depth: nat | u <= s && IsBracketPair(open, close) && depth > 0
      ensures SkipNest(Cursor(u, ok), open, close, depth).text == ""
    {
      if u == "" {
        SkipNestStops(ok, open, close, depth);
      } else if |u| <= |inner| + 1 {
        assert u[0] == o && u[1..] <= inner;
        SkipNestStep(u, ok, open, close, depth);
      } else {
        assert u == [o] + inner + [c] + "";
        NestStep(inner, "", ok, o, c, open, close, depth);
        SkipNestStops(ok, open, close, depth);
      }
    }
  }

  // ---- every value ----

  /** Skipped exactly when whole, and to the end when it breaks off. */
  ghost predicate Sound(s: string) {
    Balanced(s) && RunsOut(s)
  }

  lemma SoundConcat(a: string, b: string)
    requires Sound(a) && Sound(b)
    ensures Sound(a + b)
  {
    hide Balanced, RunsOut;
    BalancedConcat(a, b);
    RunsOutConcat(a, b);
  }

  lemma SoundPlain(s: string)
    requires forall i :: 0 <= i < |s| ==> IsPlain(s[i])
    ensures Sound(s)
  {
    hide Balanced, RunsOut;
    BalancedPlain(s);
    PlainRunsOut(s);
  }

  lemma SoundLiteral(b: string)
    requires BodyOk(b)
    ensures Sound(Literal(b))
  {
    hide Balanced, RunsOut, BodyOk;
    BalancedLiteral(b);
    LiteralRunsOut(b);
  }

  lemma SoundNest(inner: string)
    requires Sound(inner)
    ensures Sound("[" + inner + "]") && Sound("{" + inner + "}")
  {
    hide Balanced, RunsOut;
    BalancedNest(inner);
    NestRunsOut(inner, '[', ']');
    NestRunsOut(inner, '{', '}');
    assert ['['] == "[" && [']'] == "]" && ['{'] == "{" && ['}'] == "}";
  }

  lemma {:induction false} TextSound(v: Value)
    requires ValueOk(v)
    ensures Sound(Text(v))
  {
    hide Sound, BodyOk;
    match v
    case Token(t) => SoundPlain(t);
    case Str(b) => SoundLiteral(b);
    case EmptyArr(pad) =>
      SoundPlain(pad);
      SoundNest(pad);
    case Arr(es) =>
      ElemsSound(es);
      SoundNest(ElemsText(es));
    case EmptyObj(pad) =>
      SoundPlain(pad);
      SoundNest(pad);
    case Obj(fs) =>
      FieldsSound(fs);
      SoundNest(FieldsText(fs));
  }

  lemma {:induction false} ElemsSound(es: Elems)
    requires ElemsOk(es)
    ensures Sound(ElemsText(es))
  {
    hide Sound;
    SoundPlain(es.pre);
    TextSound(es.value);
    SoundPlain(es.post);
    SoundConcat(es.pre, Text(es.value));
    SoundConcat(es.pre + Text(es.value), es.post);
    var head := es.pre + Text(es.value) + es.post;
    if es.MoreElems? {
      ElemsSound(es.rest);
      SoundPlain(",");
      SoundConcat(",", ElemsText(es.rest));
      SoundConcat(head, "," + ElemsText(es.rest));
    } else {
      assert ElemsText(es) == head;
    }
  }

  lemma {:induction false} FieldsSound(fs: Fields)
    requires FieldsOk(fs)
    ensures Sound(FieldsText(fs))
  {
    hide Sound, BodyOk;
    SoundPlain(fs.pre);
    SoundLiteral(fs.key);
    var colon := fs.mid + ":" + fs.lead;
    SoundPlain(colon);
    TextSound(fs.value);
    SoundPlain(fs.post);
    var a := fs.pre + Literal(fs.key);
    SoundConcat(fs.pre, Literal(fs.key));
    SoundConcat(a, colon);
    SoundConcat(a + colon, Text(fs.value));
    SoundConcat(a + colon + Text(fs.value), fs.post);
    var head := a + colon + Text(fs.value) + fs.post;
    if fs.MoreFields? {
      FieldsSound(fs.rest);
      SoundPlain(",");
      SoundConcat(",", FieldsText(fs.rest));
      SoundConcat(head, "," + FieldsText(fs.rest));
    } else {
      assert FieldsText(fs) == head;
    }
  }

  // ---- skipping a value ----

  lemma {:induction false} WsLead(lead: string, u: string)
    requires AllWs(lead)
    ensures DropWs(lead + u) == DropWs(u)
    decreases |lead|
  {
    if lead == "" {
      assert lead + u == u;
    } else {
      assert (lead + u)[1..] == lead[1..] + u;
      WsLead(lead[1..], u);
    }
  }

  /** Every reader starts by passing over white space. */
  lemma LeadIgnored(lead: string, u: string)
    requires AllWs(lead)
    ensures ReadU64(Cursor(lead + u, true)) == ReadU64(Cursor(u, true))
    ensures ReadString(Cursor(lead + u, true)) == ReadString(Cursor(u, true))
    ensures SkipValue(Cursor(lead + u, true)) == SkipValue(Cursor(u, true))
  {
    hide DropWs, ScanString, SkipNest, DropScalar, NumberRun, StrToULL;
    WsLead(lead, u);
  }

  /** What may follow a value: white space, then a comma, a closing bracket or the end. */
  predicate Stops(follow: string) {
    var u := DropWs(follow);
    u == "" || u[0] == ',' || u[0] == '}' || u[0] == ']'
  }

  lemma SkipBracketed(inner: string, rest: string, open: char, close: char)
    requires Balanced(inner) && IsBracketPair(open, close)
    ensures SkipNest(Cursor(inner + [close] + rest, true), open, close, 1) == Cursor(rest, true)
  {
    hide SkipNest;
    var t := [close] + rest;
    assert inner + [close] + rest == inner + t;
    assert t[1..] == rest;
    SkipNestStep(t, true, open, close, 1);
    SkipNestEnds(rest, true, open, close);
  }

  /** Skipping a number or a literal takes the white space after it too. */
  lemma {:induction false} DropTrailing(follow: string)
    requires Stops(follow)
    ensures DropScalar(follow) == DropWs(follow)
  {
    if follow != "" && IsWs(follow[0]) {
      DropTrailing(follow[1..]);
    }
  }

  lemma {:induction false} DropToken(t: string, follow: string)
    requires Stops(follow) && forall i :: 0 <= i < |t| ==> IsTokenChar(t[i])
    ensures DropScalar(t + follow) == DropWs(follow)
    decreases |t|
  {
    hide Stops, DropWs;
    if t == "" {
      assert t + follow == follow;
      DropTrailing(follow);
    } else {
      assert (t + follow)[0] == t[0] && (t + follow)[1..] == t[1..] + follow;
      DropToken(t[1..], follow);
    }
  }

  lemma SkipValueOpens(t: string)
    requires t != ""
    ensures t[0] == '[' ==> SkipValue(Cursor(t, true)) == SkipNest(Cursor(t[1..], true), '[', ']', 1)
    ensures t[0] == '{' ==> SkipValue(Cursor(t, true)) == SkipNest(Cursor(t[1..], true), '{', '}', 1)
  {
    hide SkipNest, ReadString, DropWs, DropScalar;
    if t[0] == '[' || t[0] == '{' {
      NoWs(t);
    }
  }

  /** How a bracketed value is skipped. */
  lemma SkipsNested(inner: string, rest: string)
    requires Balanced(inner)
    ensures SkipValue(Cursor("[" + inner + "]" + rest, true)) == Cursor(rest, true)
    ensures SkipValue(Cursor("{" + inner + "}" + rest, true)) == Cursor(rest, true)
  {
    hide Balanced, SkipNest, SkipValue;
    var t, u := "[" + inner + "]" + rest, "{" + inner + "}" + rest;
    SkipValueOpens(t);
    SkipValueOpens(u);
    SkipBracketed(inner, rest, '[', ']');
    SkipBracketed(inner, rest, '{', '}');
    assert t[1..] == inner + [']'] + rest;
    assert u[1..] == inner + ['}'] + rest;
  }

  /** Every well-formed value is stepped over exactly, up to the white space after it, and no
      error is raised. */
  lemma SkipsValue(v: Value, follow: string)
    requires ValueOk(v) && Stops(follow)
    ensures Ws(SkipValue(Cursor(Text(v) + follow, true))) == Ws(Cursor(follow, true))
  {
    hide Balanced, BodyOk, SkipValue, Stops, DropWs;
    match v
    case Token(t) => SkipsToken(t, follow);
    case Str(b) => SkipsString(b, follow);
    case EmptyArr(pad) =>
      SoundPlain(pad);
      SkipsNested(pad, follow);
    case Arr(es) =>
      ElemsSound(es);
      SkipsNested(ElemsText(es), follow);
    case EmptyObj(pad) =>
      SoundPlain(pad);
      SkipsNested(pad, follow);
    case Obj(fs) =>
      FieldsSound(fs);
      SkipsNested(FieldsText(fs), follow);
  }

  lemma SkipsToken(t: string, follow: string)
    requires t != "" && (forall i :: 0 <= i < |t| ==> IsTokenChar(t[i])) && Stops(follow)
    ensures Ws(SkipValue(Cursor(t + follow, true))) == Ws(Cursor(follow, true))
  {
    hide SkipNest, ReadString, DropWs, DropScalar, Stops;
    assert (t + follow)[0] == t[0];
    NoWs(t + follow);
    DropToken(t, follow);
    WsTwice(follow);
  }

  lemma {:induction false} WsTwice(t: string)
    ensures DropWs(DropWs(t)) == DropWs(t)
  {
    if t != "" && IsWs(t[0]) {
      WsTwice(t[1..]);
    }
  }

  lemma SkipsString(b: string, rest: string)
    requires BodyOk(b)
    ensures SkipValue(Cursor(Literal(b) + rest, true)) == Cursor(rest, true)
  {
    hide SkipNest, ReadString, DropWs, DropScalar, BodyOk;
    assert (Literal(b) + rest)[0] == '"';
    NoWs(Literal(b) + rest);
    ReadLiteral(b, rest, true);
  }
}
