/** What an accepted text looks like: after white space, an object whose members each have a key
    literal, a colon, a value of the kind its key calls for, and a comma unless the closing brace
    follows; that brace is in the text. */
module JsonAccepted {
  import opened Messages
  import opened Decimal
  import opened Json
  import opened JsonValues

  // ---- the grammar ----

  /** The body of a literal that is read as `key`. A quote stands in it only as part of an escape;
      an escape of a code point keeps its digits, unless the text ends before the fourth of them. */
  ghost predicate Spelled(s: string, key: string)
    decreases |s|, 0
  {
    if s == "" then key == ""
    else if s[0] != '\\' then s[0] != '"' && key != "" && key[0] == s[0] && Spelled(s[1..], key[1..])
    else if |s| == 1 then false
    else if s[1] != 'u' then key != "" && key[0] == Unescape(s[1]) && Spelled(s[2..], key[1..])
    else Spelled(s[2..], key) || (|s| >= 6 && SpelledCode(Hex4(s[2..6]), s[6..], key))
  }

  /** A code point below 0x80 is kept, any other dropped. */
  ghost predicate SpelledCode(v: nat, s: string, key: string)
    decreases |s|, 1
  {
    if v < 0x80 then key != "" && key[0] == v as char && Spelled(s, key[1..]) else Spelled(s, key)
  }

  ghost predicate IsLiteral(t: string, key: string) {
    |t| >= 2 && t[0] == '"' && t[|t| - 1] == '"' && Spelled(t[1..|t| - 1], key)
  }

  ghost predicate NumberValue(v: string) {
    exists k :: 0 <= k <= |v| && AllWs(v[..k]) && forall i :: k <= i < |v| ==> IsDigit(v[i]) || v[i] == '-'
  }

  ghost predicate StringValue(v: string) {
    exists k, s :: 0 <= k <= |v| && AllWs(v[..k]) && IsLiteral(v[k..], s)
  }

  /** A value that is passed over: a string, a bracketed text that is closed, or neither. */
  ghost predicate AnyValue(v: string) {
    StringValue(v)
    || exists k :: 0 <= k <= |v| && AllWs(v[..k]) && (Bracketed(v[k..]) || Scalar(v[k..]))
  }

  ghost predicate Bracketed(t: string) {
    |t| >= 2 && ((t[0] == '{' && t[|t| - 1] == '}') || (t[0] == '[' && t[|t| - 1] == ']'))
  }

  ghost predicate Scalar(t: string) {
    forall i :: 0 <= i < |t| ==> t[i] != ',' && t[i] != '}' && t[i] != ']'
  }

  /** A member with the white space in it, the key it is read as, and whether a comma ends it. */
  datatype Part = Part(
    lead: string, literal: string, key: string, gap: string, value: string, post: string, comma: bool)

  ghost function PartText(p: Part): string {
    p.lead + p.literal + p.gap + ":" + p.value + p.post + if p.comma then "," else ""
  }

  /** Which text may be the value of which key. */
  type Values = (string, string) -> bool

  ghost predicate PartOk(values: Values, p: Part) {
    AllWs(p.lead) && AllWs(p.gap) && AllWs(p.post) && IsLiteral(p.literal, p.key) && values(p.key, p.value)
  }

  ghost function PartsText(ps: seq<Part>): string {
    if ps == [] then "" else PartText(ps[0]) + PartsText(ps[1..])
  }

  /** Only the last may go without its comma. */
  ghost predicate PartsOk(values: Values, ps: seq<Part>) {
    ps == [] || (PartOk(values, ps[0]) && (ps[0].comma || |ps| == 1) && PartsOk(values, ps[1..]))
  }

  ghost predicate IsObject(values: Values, t: string) {
    exists ps, gap :: t == "{" + PartsText(ps) + gap + "}" && PartsOk(values, ps) && AllWs(gap)
  }

  /** An element of an array, an object, with the white space around it. */
  datatype Slot = Slot(lead: string, item: string, post: string, comma: bool)

  ghost function SlotText(s: Slot): string {
    s.lead + s.item + s.post + if s.comma then "," else ""
  }

  ghost predicate SlotOk(values: Values, s: Slot) {
    AllWs(s.lead) && AllWs(s.post) && IsObject(values, s.item)
  }

  ghost function SlotsText(ss: seq<Slot>): string {
    if ss == [] then "" else SlotText(ss[0]) + SlotsText(ss[1..])
  }

  ghost predicate SlotsOk(values: Values, ss: seq<Slot>) {
    ss == [] || (SlotOk(values, ss[0]) && (ss[0].comma || |ss| == 1) && SlotsOk(values, ss[1..]))
  }

  ghost predicate IsArray(values: Values, t: string) {
    exists ss, gap :: t == "[" + SlotsText(ss) + gap + "]" && SlotsOk(values, ss) && AllWs(gap)
  }

  ghost predicate ArrayValue(values: Values, v: string) {
    exists k :: 0 <= k <= |v| && AllWs(v[..k]) && IsArray(values, v[k..])
  }

  ghost predicate BufferedValues(key: string, v: string) {
    if key == "seq" || key == "hash" then NumberValue(v)
    else if key == "payload" then StringValue(v)
    else AnyValue(v)
  }

  ghost predicate EventValues(key: string, v: string) {
    if key == "seq" || key == "hash" then NumberValue(v)
    else if key == "t" || key == "payload" then StringValue(v)
    else AnyValue(v)
  }

  ghost predicate CheckpointValues(key: string, v: string) {
    if key == "committed_upto" || key == "event_count" || key == "history_hash" then NumberValue(v)
    else if key == "buffer" then ArrayValue(BufferedValues, v)
    else AnyValue(v)
  }

  ghost predicate ReplayValues(key: string, v: string) {
    if key == "from" then NumberValue(v)
    else if key == "events" then ArrayValue(EventValues, v)
    else AnyValue(v)
  }

  /** White space, an object, and whatever follows it. */
  ghost predicate IsDocument(values: Values, text: string) {
    exists lead, item, rest :: text == lead + item + rest && AllWs(lead) && IsObject(values, item)
  }

  // ---- what each step of the parser took ----

  ghost function Taken(t: string, u: string): string {
    if |u| <= |t| then t[..|t| - |u|] else ""
  }

  lemma Rejoined(t: string, u: string)
    requires Tail(u, t)
    ensures t == Taken(t, u) + u
  {
  }

  /** What is taken in two goes. */
  lemma TakenTwice(t: string, u: string, v: string)
    requires Tail(u, t) && Tail(v, u)
    ensures Tail(v, t) && Taken(t, v) == Taken(t, u) + Taken(u, v)
    ensures Taken(t, v)[..|Taken(t, u)|] == Taken(t, u) && Taken(t, v)[|Taken(t, u)|..] == Taken(u, v)
  {
  }

  lemma TakenOf(a: string, b: string)
    ensures Tail(b, a + b) && Taken(a + b, b) == a
  {
  }

  lemma WsDropped(t: string)
    requires t != "" && IsWs(t[0])
    ensures DropWs(t) == DropWs(t[1..])
  {
    hide IsWs;
  }

  lemma {:induction false} DropWsTaken(t: string)
    ensures forall i :: 0 <= i < |t| - |DropWs(t)| ==> IsWs(t[i])
    ensures DropWs(DropWs(t)) == DropWs(t)
  {
    hide IsWs, DropWs;
    if t == "" || !IsWs(t[0]) {
      NoWs(t);
    } else {
      WsDropped(t);
      DropWsTaken(t[1..]);
      forall i | 0 <= i < |t| - |DropWs(t)| ensures IsWs(t[i]) {
        if i > 0 {
          assert t[i] == t[1..][i - 1];
        }
      }
    }
  }

  lemma WsTaken(t: string)
    ensures AllWs(Taken(t, DropWs(t))) && Tail(DropWs(t), t) && t == Taken(t, DropWs(t)) + DropWs(t)
    ensures DropWs(DropWs(t)) == DropWs(t)
  {
    hide DropWs, IsWs;
    DropWsTaken(t);
    Rejoined(t, DropWs(t));
  }

  lemma EatTaken(c: Cursor, ch: char) returns (lead: string)
    requires Eat(c, ch).hit
    ensures c.text == lead + [ch] + Eat(c, ch).cur.text && AllWs(lead)
    ensures Eat(c, ch).cur.ok == c.ok && lead == Taken(c.text, DropWs(c.text))
  {
    hide DropWs, AllWs, Taken, Tail;
    WsTaken(c.text);
    lead := Taken(c.text, DropWs(c.text));
    TakeFirst(lead, DropWs(c.text));
  }

  lemma TakeFirst(lead: string, d: string)
    requires d != ""
    ensures lead + d == lead + [d[0]] + d[1..]
  {
  }

  lemma {:induction false} ScanSpelled(t: string, acc: string)
    requires ScanString(t, acc).1 != ""
    ensures
      var (key, rest) := ScanString(t, acc);
      acc <= key && rest[0] == '"' && Tail(rest, t) && Spelled(Taken(t, rest), key[|acc|..])
    decreases |t|
  {
    hide StringTurn, Spelled, Taken, Tail;
    if t == "" || t[0] == '"' {
      ScanStop(t, acc);
      NothingSpelled(t, acc);
    } else {
      var turn := StringTurn(t);
      TurnTakes(t);
      var u := t[turn.1..];
      ScanTurn(t, acc);
      ScanSpelled(u, acc + turn.0);
      var (key, rest) := ScanString(t, acc);
      TakenAfter(t, turn.1, rest);
      KeyCut(acc, turn.0, key);
      SpelledTurn(t, Taken(t, rest), key[|acc|..]);
    }
  }

  lemma NothingSpelled(t: string, acc: string)
    ensures Tail(t, t) && Spelled(Taken(t, t), acc[|acc|..])
  {
  }

  lemma TakenAfter(t: string, n: nat, rest: string)
    requires n <= |t| && Tail(rest, t[n..]) && rest != ""
    ensures
      var s := Taken(t, rest);
      Tail(rest, t) && n <= |s| < |t| && s <= t && s[n..] == Taken(t[n..], rest)
  {
  }

  lemma KeyCut(acc: string, more: string, key: string)
    requires acc + more <= key
    ensures acc <= key && more <= key[|acc|..] && key[|acc|..][|more|..] == key[|acc + more|..]
  {
  }

  lemma SpelledTurn(t: string, s: string, key: string)
    requires t != "" && t[0] != '"' && s <= t && |s| < |t|
    requires StringTurn(t).1 <= |s| && StringTurn(t).0 <= key
    requires Spelled(s[StringTurn(t).1..], key[|StringTurn(t).0|..])
    ensures Spelled(s, key)
  {
    if t[0] == '\\' && |t| > 1 && t[1] == 'u' && |t| >= 6 {
      assert s[2..6] == t[2..6];
      assert SpelledCode(Hex4(s[2..6]), s[6..], key);
    }
  }

  lemma LiteralTaken(c: Cursor) returns (lead: string, literal: string)
    requires ReadString(c).cur.ok
    ensures c.text == lead + literal + ReadString(c).cur.text && c.ok
    ensures AllWs(lead) && IsLiteral(literal, ReadString(c).value) && lead == Taken(c.text, DropWs(c.text))
  {
    hide ScanString, Spelled, Eat, AllWs;
    var h := Eat(c, '"');
    EatMisses(c, '"');
    lead := EatTaken(c, '"');
    var (key, rest) := ScanString(h.cur.text, "");
    ScanSpelled(h.cur.text, "");
    Rejoined(h.cur.text, rest);
    var body := Taken(h.cur.text, rest);
    literal := "\"" + body + "\"";
    Enclosed(lead, body, rest);
  }

  lemma Enclosed(lead: string, body: string, rest: string)
    requires rest != "" && rest[0] == '"'
    ensures
      var literal := "\"" + body + "\"";
      lead + "\"" + (body + rest) == lead + literal + rest[1..] && literal[1..|literal| - 1] == body
  {
  }

  lemma EatMisses(c: Cursor, ch: char)
    ensures !Eat(c, ch).hit ==> !Eat(c, ch).cur.ok
  {
  }

  lemma StringTaken(c: Cursor)
    requires ReadString(c).cur.ok
    ensures StringValue(Taken(c.text, ReadString(c).cur.text))
  {
    hide ReadString, IsLiteral, AllWs;
    var lead, literal := LiteralTaken(c);
    var v := lead + literal;
    TakenOf(v, ReadString(c).cur.text);
    assert v[..|lead|] == lead && v[|lead|..] == literal;
  }

  lemma {:induction false} RunTaken(t: string)
    ensures forall i :: 0 <= i < NumberRun(t) ==> IsDigit(t[i]) || t[i] == '-'
  {
    if t != "" && (IsDigit(t[0]) || t[0] == '-') {
      RunTaken(t[1..]);
      forall i | 0 <= i < NumberRun(t) ensures IsDigit(t[i]) || t[i] == '-' {
        if i > 0 {
          assert t[i] == t[1..][i - 1];
        }
      }
    }
  }

  lemma NumberTaken(c: Cursor)
    ensures NumberValue(Taken(c.text, ReadU64(c).cur.text))
  {
    hide NumberRun, AllWs, DropWs, StrToULL, IsDigit, Taken, Tail, NumberValue;
    var d := DropWs(c.text);
    var n := NumberRun(d);
    WsTaken(c.text);
    RunTaken(d);
    TailCut(d, n);
    NumberAfterWs(c.text, d, n);
  }

  lemma NumberAfterWs(t: string, d: string, n: nat)
    requires Tail(d, t) && AllWs(Taken(t, d)) && n <= |d| && Tail(d[n..], d)
    requires forall i :: 0 <= i < n ==> IsDigit(d[i]) || d[i] == '-'
    ensures NumberValue(Taken(t, d[n..]))
  {
    hide AllWs, IsDigit, Taken, Tail;
    var v, k := Taken(t, d[n..]), |Taken(t, d)|;
    TakenTwice(t, d, d[n..]);
    TakenRun(d, n);
    forall i | k <= i < |v| ensures IsDigit(v[i]) || v[i] == '-' {
      assert v[i] == v[k..][i - k] == d[..n][i - k];
    }
  }

  lemma TakenRun(d: string, n: nat)
    requires n <= |d|
    ensures Taken(d, d[n..]) == d[..n]
  {
  }

  lemma {:induction false} ScalarTaken(t: string)
    ensures Tail(DropScalar(t), t) && Scalar(Taken(t, DropScalar(t)))
  {
    hide Taken, Tail, Scalar;
    if t != "" && t[0] != ',' && t[0] != '}' && t[0] != ']' {
      ScalarTaken(t[1..]);
      TailCut(t, 1);
      TailOfTail(t, t[1..], DropScalar(t));
      TakenCons(t, DropScalar(t));
    } else {
      NothingTaken(t);
    }
  }

  lemma TakenCons(t: string, u: string)
    requires t != "" && Tail(u, t[1..]) && Scalar(Taken(t[1..], u)) && t[0] != ',' && t[0] != '}' && t[0] != ']'
    ensures Scalar(Taken(t, u))
  {
    var s := Taken(t, u);
    forall i | 0 <= i < |s| ensures s[i] != ',' && s[i] != '}' && s[i] != ']' {
      if i > 0 {
        assert s[i] == Taken(t[1..], u)[i - 1];
      }
    }
  }

  lemma NothingTaken(t: string)
    ensures Tail(t, t) && Scalar(Taken(t, t))
  {
  }

  /** Skipping a bracketed text that leaves anything stopped right after a closing bracket. */
  lemma {:induction false} NestTaken(c: Cursor, open: char, close: char, depth: nat)
    requires depth > 0 && open != close && SkipNest(c, open, close, depth).text != ""
    ensures
      var r := SkipNest(c, open, close, depth).text;
      |r| < |c.text| && c.text[|c.text| - |r| - 1] == close && Tail(r, c.text)
    decreases |c.text|
  {
    hide ReadString;
    if c.text[0] == '"' {
      ReadStringShrinks(c);
      NestTaken(ReadString(c).cur, open, close, depth);
    } else {
      var d := if c.text[0] == open then depth + 1 else if c.text[0] == close then depth - 1 else depth;
      if d > 0 {
        NestTaken(c.(text := c.text[1..]), open, close, d);
      }
    }
  }

  lemma ValueTaken(c: Cursor)
    requires SkipValue(c).ok && SkipValue(c).text != ""
    ensures AnyValue(Taken(c.text, SkipValue(c).text))
  {
    hide ReadString, SkipNest, DropScalar, DropWs, AllWs, StringValue, Bracketed, Scalar, Taken, Tail;
    var d := DropWs(c.text);
    WsTaken(c.text);
    if d[0] == '"' {
      WsAgain(c);
      StringTaken(c);
      assert StringValue(Taken(c.text, SkipValue(c).text));
    } else {
      var r := SkipValue(c).text;
      if d[0] == '{' || d[0] == '[' {
        BracketTaken(d, c.ok, d[0], if d[0] == '{' then '}' else ']');
      } else {
        ScalarTaken(d);
      }
      TakenTwice(c.text, d, r);
      ValueAfterWs(c.text, d, r);
    }
  }

  lemma ValueAfterWs(t: string, d: string, r: string)
    requires Tail(d, t) && Tail(r, d) && AllWs(Taken(t, d)) && (Bracketed(Taken(d, r)) || Scalar(Taken(d, r)))
    ensures AnyValue(Taken(t, r))
  {
    hide Bracketed, Scalar, AllWs, StringValue;
    TakenTwice(t, d, r);
    var k := |Taken(t, d)|;
    assert AllWs(Taken(t, r)[..k]);
  }

  lemma BracketTaken(d: string, ok: bool, open: char, close: char)
    requires d != "" && d[0] == open && ((open == '{' && close == '}') || (open == '[' && close == ']'))
    requires SkipNest(Cursor(d[1..], ok), open, close, 1).text != ""
    ensures
      var r := SkipNest(Cursor(d[1..], ok), open, close, 1).text;
      Tail(r, d) && Bracketed(Taken(d, r))
  {
    hide SkipNest;
    NestTaken(Cursor(d[1..], ok), open, close, 1);
  }

  lemma WsAgain(c: Cursor)
    ensures ReadString(Ws(c)) == ReadString(c)
    ensures forall ch :: Eat(Ws(c), ch) == Eat(c, ch)
  {
    hide ScanString, Eat, Ws;
    forall ch ensures Eat(Ws(c), ch) == Eat(c, ch) {
      EatAgain(c, ch);
    }
    EatAgain(c, '"');
  }

  lemma EatAgain(c: Cursor, ch: char)
    ensures Eat(Ws(c), ch) == Eat(c, ch)
  {
    hide DropWs;
    DropWsTaken(c.text);
  }

  // ---- objects and arrays ----

  /** What the handling of a member takes is a value its key may have. */
  ghost predicate Suits<T(!new)>(f: FieldFn<T>, values: Values) {
    forall key, c, out :: SuitsAt(f, values, key, c, out)
  }

  ghost predicate SuitsAt<T(!new)>(f: FieldFn<T>, values: Values, key: string, c: Cursor, out: T) {
    var l := f(key, c, out);
    l.cur.ok && !l.aborted && l.cur.text != "" ==> values(key, Taken(c.text, l.cur.text))
  }

  /** What stands between a value and the next one: white space, then a comma or what closes. */
  lemma SeparatorTaken(c: Cursor, close: char) returns (post: string, comma: bool)
    requires
      var p := Peek(c, close);
      (if p.hit then p.cur else Eat(p.cur, ',').cur).ok
    ensures
      var p := Peek(c, close);
      var d := if p.hit then p.cur else Eat(p.cur, ',').cur;
      c.ok && c.text != "" && AllWs(post) && c.text == post + (if comma then "," else "") + d.text
      && comma == !p.hit && (!comma ==> Peek(d, close).hit)
  {
    hide DropWs, AllWs, Taken, Tail;
    var p := Peek(c, close);
    comma := !p.hit;
    WsTaken(c.text);
    post := Taken(c.text, DropWs(c.text));
    if comma {
      WsAgain(c);
      EatMisses(c, ',');
      var lead := EatTaken(c, ',');
    } else {
      assert post + "" == post;
    }
  }

  lemma MemberTaken<T(!new)>(f: FieldFn<T>, values: Values, c: Cursor, out: T) returns (p: Part)
    requires Advances(f) && Suits(f, values)
    requires OneMember(f, c, out).cur.ok && !OneMember(f, c, out).aborted
    ensures
      var m := OneMember(f, c, out);
      c.ok && PartOk(values, p) && c.text == PartText(p) + m.cur.text && (!p.comma ==> Peek(m.cur, '}').hit)
  {
    hide ReadString, Eat, Peek, IsLiteral, AllWs, Taken, PartText, Tail;
    var key := ReadString(c);
    var colon := Eat(key.cur, ':');
    var field := f(key.value, colon.cur, out);
    assert After(colon.cur, field.cur);
    var post, comma := SeparatorTaken(field.cur, '}');
    var gap := EatTaken(key.cur, ':');
    var lead, literal := LiteralTaken(c);
    assert SuitsAt(f, values, key.value, colon.cur, out);
    var value := Taken(colon.cur.text, field.cur.text);
    Rejoined(colon.cur.text, field.cur.text);
    p := Part(lead, literal, key.value, gap, value, post, comma);
    PartRejoined(p, c.text, key.cur.text, colon.cur.text, field.cur.text, OneMember(f, c, out).cur.text);
  }

  lemma PartRejoined(p: Part, t: string, key: string, colon: string, field: string, rest: string)
    requires t == p.lead + p.literal + key && key == p.gap + ":" + colon && colon == p.value + field
    requires field == p.post + (if p.comma then "," else "") + rest
    ensures t == PartText(p) + rest
  {
    var comma := if p.comma then "," else "";
    assert colon == p.value + p.post + comma + rest;
    assert key == p.gap + ":" + p.value + p.post + comma + rest;
  }

  lemma PartsGrow(p: Part, ps: seq<Part>, gap: string, t: string, u: string, v: string)
    requires t == PartText(p) + u && u == PartsText(ps) + gap + v
    ensures t == PartsText([p] + ps) + gap + v
  {
    hide PartText;
    assert ([p] + ps)[1..] == ps;
  }

  lemma NoParts(values: Values, gap: string)
    ensures PartsOk(values, []) && PartsText([]) + gap == gap
  {
  }

  lemma PartsStart(values: Values, p: Part, ps: seq<Part>)
    requires PartOk(values, p) && PartsOk(values, ps) && (p.comma || ps == [])
    ensures PartsOk(values, [p] + ps)
  {
    hide PartOk;
    assert ([p] + ps)[1..] == ps;
  }

  lemma {:induction false} MembersTaken<T(!new)>(f: FieldFn<T>, values: Values, c: Cursor, out: T)
    returns (ps: seq<Part>, gap: string)
    requires Advances(f) && Suits(f, values)
    requires Members(f, c, out).cur.ok && !Members(f, c, out).aborted
    ensures
      var l := Members(f, c, out);
      c.ok && c.text == PartsText(ps) + gap + l.cur.text && PartsOk(values, ps) && AllWs(gap)
      && l.cur.text != "" && l.cur.text[0] == '}' && (Peek(c, '}').hit ==> ps == [])
    decreases Fuel(c)
  {
    hide OneMember, AllWs, Suits, Advances, PartText, PartOk, PartsOk, PartsText, After, DropWs, Taken, Tail, Fuel;
    var p := Peek(c, '}');
    WsTaken(c.text);
    PeekAdvances(c, '}');
    if p.hit {
      ps, gap := [], Taken(c.text, DropWs(c.text));
      NoParts(values, gap);
    } else {
      MembersAdvance(f, c, out);
      AfterLength(c, Members(f, c, out).cur);
      OneMemberAdvances(f, p.cur, out);
      var m := OneMember(f, p.cur, out);
      AfterAfter(c, p.cur, m.cur);
      FuelShrinks(c, p.cur, m.cur);
      MembersAdvance(f, m.cur, m.out);
      AfterLength(m.cur, Members(f, m.cur, m.out).cur);
      MemberFromWs(f, c, out);
      var part := MemberTaken(f, values, c, out);
      var more: seq<Part>;
      more, gap := MembersTaken(f, values, m.cur, m.out);
      ps := [part] + more;
      PartsGrow(part, more, gap, c.text, m.cur.text, Members(f, c, out).cur.text);
      PartsStart(values, part, more);
    }
  }

  lemma MemberFromWs<T>(f: FieldFn<T>, c: Cursor, out: T)
    ensures OneMember(f, Ws(c), out) == OneMember(f, c, out)
  {
    hide ReadString, Eat, Peek;
    WsAgain(c);
  }

  /** From an opening brace to the closing one. */
  lemma ObjectTaken<T(!new)>(f: FieldFn<T>, values: Values, c: Cursor, blank: T) returns (lead: string, item: string)
    requires Advances(f) && Suits(f, values)
    requires ReadObject(f, blank, c).cur.ok && !ReadObject(f, blank, c).aborted
    ensures c.text == lead + item + ReadObject(f, blank, c).cur.text && AllWs(lead) && IsObject(values, item)
    ensures c.ok
  {
    hide Members, Eat, AllWs, PartsOk, PartsText, Suits, Advances, Taken, DropWs, IsObject;
    var open := Eat(c, '{');
    var l := Members(f, open.cur, blank);
    EatMisses(l.cur, '}');
    var none := EatTaken(l.cur, '}');
    var ps, gap := MembersTaken(f, values, open.cur, blank);
    lead := EatTaken(c, '{');
    EndsAt(l.cur, '}');
    item := "{" + PartsText(ps) + gap + "}";
    Enclose(lead, "{", PartsText(ps), gap, "}", c.text, open.cur.text, l.cur.text, ReadObject(f, blank, c).cur.text);
    ObjectFound(values, ps, gap);
  }

  lemma ObjectFound(values: Values, ps: seq<Part>, gap: string)
    requires PartsOk(values, ps) && AllWs(gap)
    ensures IsObject(values, "{" + PartsText(ps) + gap + "}")
  {
    hide PartsOk, AllWs, PartsText;
  }

  lemma Enclose(lead: string, open: string, body: string, gap: string, close: string,
      t: string, inner: string, last: string, rest: string)
    requires t == lead + open + inner && inner == body + gap + last && last == close + rest
    ensures t == lead + (open + body + gap + close) + rest
  {
    assert inner == body + gap + close + rest;
  }

  lemma EndsAt(c: Cursor, ch: char)
    requires c.text != "" && c.text[0] == ch && !IsWs(ch)
    ensures Eat(c, ch).hit && c.text == [ch] + Eat(c, ch).cur.text
  {
    hide DropWs;
    NoWs(c.text);
  }

  lemma ElementTaken<T(!new)>(f: FieldFn<T>, values: Values, blank: T, c: Cursor, out: seq<T>) returns (s: Slot)
    requires Advances(f) && Suits(f, values)
    requires OneElement(f, blank, c, out).cur.ok && !OneElement(f, blank, c, out).aborted
    ensures
      var e := OneElement(f, blank, c, out);
      c.ok && SlotOk(values, s) && c.text == SlotText(s) + e.cur.text && (!s.comma ==> Peek(e.cur, ']').hit)
  {
    hide Members, Eat, Peek, IsObject, AllWs, Suits, Advances;
    var r := ReadObject(f, blank, c);
    var post, comma := SeparatorTaken(r.cur, ']');
    var lead, item := ObjectTaken(f, values, c, blank);
    s := Slot(lead, item, post, comma);
  }

  lemma SlotsGrow(s: Slot, ss: seq<Slot>, gap: string, t: string, u: string, v: string)
    requires t == SlotText(s) + u && u == SlotsText(ss) + gap + v
    ensures t == SlotsText([s] + ss) + gap + v
  {
    hide SlotText;
    assert ([s] + ss)[1..] == ss;
  }

  lemma NoSlots(values: Values, gap: string)
    ensures SlotsOk(values, []) && SlotsText([]) + gap == gap
  {
  }

  lemma SlotsStart(values: Values, s: Slot, ss: seq<Slot>)
    requires SlotOk(values, s) && SlotsOk(values, ss) && (s.comma || ss == [])
    ensures SlotsOk(values, [s] + ss)
  {
    hide SlotOk;
    assert ([s] + ss)[1..] == ss;
  }

  lemma ElementFromWs<T(!new)>(f: FieldFn<T>, blank: T, c: Cursor, out: seq<T>)
    requires Advances(f)
    ensures OneElement(f, blank, Ws(c), out) == OneElement(f, blank, c, out)
  {
    hide Members, Eat, Peek, Advances;
    WsAgain(c);
  }

  lemma {:induction false} ElementsTaken<T(!new)>(f: FieldFn<T>, values: Values, blank: T, c: Cursor, out: seq<T>)
    returns (ss: seq<Slot>, gap: string)
    requires Advances(f) && Suits(f, values)
    requires Elements(f, blank, c, out).cur.ok && !Elements(f, blank, c, out).aborted
    ensures
      var l := Elements(f, blank, c, out);
      c.ok && c.text == SlotsText(ss) + gap + l.cur.text && SlotsOk(values, ss) && AllWs(gap)
      && l.cur.text != "" && l.cur.text[0] == ']' && (Peek(c, ']').hit ==> ss == [])
    decreases Fuel(c)
  {
    hide OneElement, AllWs, Suits, Advances, SlotText, SlotOk, SlotsOk, SlotsText, After, DropWs, Taken, Tail, Fuel;
    var p := Peek(c, ']');
    WsTaken(c.text);
    PeekAdvances(c, ']');
    if p.hit {
      ss, gap := [], Taken(c.text, DropWs(c.text));
      NoSlots(values, gap);
    } else {
      ElementsAdvance(f, blank, c, out);
      AfterLength(c, Elements(f, blank, c, out).cur);
      OneElementAdvances(f, blank, p.cur, out);
      var e := OneElement(f, blank, p.cur, out);
      AfterAfter(c, p.cur, e.cur);
      FuelShrinks(c, p.cur, e.cur);
      ElementsAdvance(f, blank, e.cur, e.out);
      AfterLength(e.cur, Elements(f, blank, e.cur, e.out).cur);
      ElementFromWs(f, blank, c, out);
      var slot := ElementTaken(f, values, blank, c, out);
      var more: seq<Slot>;
      more, gap := ElementsTaken(f, values, blank, e.cur, e.out);
      ss := [slot] + more;
      SlotsGrow(slot, more, gap, c.text, e.cur.text, Elements(f, blank, c, out).cur.text);
      SlotsStart(values, slot, more);
    }
  }

  lemma ArrayTaken<T(!new)>(f: FieldFn<T>, values: Values, blank: T, c: Cursor, have: seq<T>)
    requires Advances(f) && Suits(f, values)
    requires ReadArray(f, blank, c, have).cur.ok && !ReadArray(f, blank, c, have).aborted
    ensures ArrayValue(values, Taken(c.text, ReadArray(f, blank, c, have).cur.text))
  {
    hide Elements, Eat, AllWs, SlotsOk, SlotsText, Suits, Advances, Taken, DropWs, IsArray, ArrayValue, Tail;
    var open := Eat(c, '[');
    var l := Elements(f, blank, open.cur, have);
    EatMisses(l.cur, ']');
    var none := EatTaken(l.cur, ']');
    var ss, gap := ElementsTaken(f, values, blank, open.cur, have);
    var lead := EatTaken(c, '[');
    EndsAt(l.cur, ']');
    var rest := ReadArray(f, blank, c, have).cur.text;
    Enclose(lead, "[", SlotsText(ss), gap, "]", c.text, open.cur.text, l.cur.text, rest);
    ArrayFound(values, lead, ss, gap);
    TakenOf(lead + ("[" + SlotsText(ss) + gap + "]"), rest);
  }

  lemma ArrayFound(values: Values, lead: string, ss: seq<Slot>, gap: string)
    requires AllWs(lead) && SlotsOk(values, ss) && AllWs(gap)
    ensures ArrayValue(values, lead + ("[" + SlotsText(ss) + gap + "]"))
  {
    hide SlotsOk, AllWs, SlotsText;
    var t := "[" + SlotsText(ss) + gap + "]";
    assert IsArray(values, t);
    assert (lead + t)[..|lead|] == lead && (lead + t)[|lead|..] == t;
  }

  // ---- the two documents ----

  lemma FieldsSuit()
    ensures Suits(BufferedField, BufferedValues) && Suits(EventField, EventValues)
  {
    hide ReadU64, ReadString, SkipValue, NumberValue, StringValue, AnyValue;
    forall key, c, out ensures SuitsAt(BufferedField, BufferedValues, key, c, out) {
      ScalarsSuit(c);
    }
    forall key, c, out ensures SuitsAt(EventField, EventValues, key, c, out) {
      ScalarsSuit(c);
    }
  }

  lemma ScalarsSuit(c: Cursor)
    ensures NumberValue(Taken(c.text, ReadU64(c).cur.text))
    ensures ReadString(c).cur.ok ==> StringValue(Taken(c.text, ReadString(c).cur.text))
    ensures SkipValue(c).ok && SkipValue(c).text != "" ==> AnyValue(Taken(c.text, SkipValue(c).text))
  {
    hide ReadU64, ReadString, SkipValue, NumberValue, StringValue, AnyValue;
    NumberTaken(c);
    if ReadString(c).cur.ok {
      StringTaken(c);
    }
    if SkipValue(c).ok && SkipValue(c).text != "" {
      ValueTaken(c);
    }
  }

  lemma DocumentsSuit()
    ensures Suits(CheckpointField, CheckpointValues) && Suits(ReplayField, ReplayValues)
  {
    hide ReadU64, SkipValue, ReadArray, NumberValue, AnyValue, ArrayValue, Suits, Advances;
    FieldsAdvance();
    FieldsSuit();
    forall key, c, out ensures SuitsAt(CheckpointField, CheckpointValues, key, c, out) {
      ScalarsSuit(c);
      BufferSuits(c, out.buffer);
    }
    forall key, c, out ensures SuitsAt(ReplayField, ReplayValues, key, c, out) {
      ScalarsSuit(c);
      EventsSuit(c, out.events);
    }
    SuitsAll(CheckpointField, CheckpointValues);
    SuitsAll(ReplayField, ReplayValues);
  }

  lemma SuitsAll<T(!new)>(f: FieldFn<T>, values: Values)
    requires forall key, c, out :: SuitsAt(f, values, key, c, out)
    ensures Suits(f, values)
  {
  }

  lemma BufferSuits(c: Cursor, have: seq<BufferedResponse>)
    requires Advances(BufferedField) && Suits(BufferedField, BufferedValues)
    ensures
      var l := ReadArray(BufferedField, BLANK_BUFFERED, c, have);
      l.cur.ok && !l.aborted ==> ArrayValue(BufferedValues, Taken(c.text, l.cur.text))
  {
    hide ReadArray, ArrayValue, Advances, Suits;
    var l := ReadArray(BufferedField, BLANK_BUFFERED, c, have);
    if l.cur.ok && !l.aborted {
      ArrayTaken(BufferedField, BufferedValues, BLANK_BUFFERED, c, have);
    }
  }

  lemma EventsSuit(c: Cursor, have: seq<ReplayEvent>)
    requires Advances(EventField) && Suits(EventField, EventValues)
    ensures
      var l := ReadArray(EventField, BLANK_EVENT, c, have);
      l.cur.ok && !l.aborted ==> ArrayValue(EventValues, Taken(c.text, l.cur.text))
  {
    hide ReadArray, ArrayValue, Advances, Suits;
    var l := ReadArray(EventField, BLANK_EVENT, c, have);
    if l.cur.ok && !l.aborted {
      ArrayTaken(EventField, EventValues, BLANK_EVENT, c, have);
    }
  }

  lemma AcceptedCheckpoint(text: string)
    requires ParseCheckpoint(text).ok
    ensures IsDocument(CheckpointValues, text)
  {
    hide ReadObject, IsObject, AllWs, Advances, Suits;
    DocumentsAdvance();
    DocumentsSuit();
    var lead, item := ObjectTaken(CheckpointField, CheckpointValues, Cursor(text, true), Checkpoint(0, 0, 0, []));
  }

  lemma AcceptedReplay(text: string)
    requires ParseReplay(text).ok
    ensures IsDocument(ReplayValues, text)
  {
    hide ReadObject, IsObject, AllWs, Advances, Suits;
    DocumentsAdvance();
    DocumentsSuit();
    var lead, item := ObjectTaken(ReplayField, ReplayValues, Cursor(text, true), Replay(0, []));
  }
}
