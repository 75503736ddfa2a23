/** The failover JSON codec as functions: what is printed, and what the recursive-descent
    parser makes of a text. A parser is at a `Cursor`: the text left, and whether all was
    well so far. */
module Json {
  import opened Messages
  import opened Decimal

  // ---- printing ----

  function HexDigit(d: nat): char
    requires d < 16
  {
    if d < 10 then '0' + d as char else 'a' + (d - 10) as char
  }

  function EscapeChar(c: char): string {
    if c == '"' then "\\\""
    else if c == '\\' then "\\\\"
    else if c == '\n' then "\\n"
    else if c == '\r' then "\\r"
    else if c == '\t' then "\\t"
    else if c as nat < 0x20 then "\\u00" + [HexDigit(c as nat / 16), HexDigit(c as nat % 16)]
    else [c]
  }

  function Escape(s: string): string {
    if s == "" then "" else EscapeChar(s[0]) + Escape(s[1..])
  }

  function Quoted(s: string): string {
    "\"" + Escape(s) + "\""
  }

  /** A member of an object: its key, and the text of its value. */
  datatype Member = Member(key: string, text: string)

  function MemberText(m: Member): string {
    Quoted(m.key) + ":" + m.text
  }

  /** Texts separated by commas. */
  function Joined(ts: seq<string>): string {
    if ts == [] then ""
    else if |ts| == 1 then ts[0]
    else ts[0] + "," + Joined(ts[1..])
  }

  lemma JoinedEmpty()
    ensures Joined([]) == ""
  {
  }

  function MemberTexts(ms: seq<Member>): (ts: seq<string>)
    ensures |ts| == |ms| && forall i :: 0 <= i < |ms| ==> ts[i] == MemberText(ms[i])
  {
    seq(|ms|, i requires 0 <= i < |ms| => MemberText(ms[i]))
  }

  function ObjectText(ms: seq<Member>): string {
    "{" + Joined(MemberTexts(ms)) + "}"
  }

  function ObjectTexts(items: seq<seq<Member>>): (ts: seq<string>)
    ensures |ts| == |items| && forall i :: 0 <= i < |items| ==> ts[i] == ObjectText(items[i])
  {
    seq(|items|, i requires 0 <= i < |items| => ObjectText(items[i]))
  }

  function ArrayText(items: seq<seq<Member>>): string {
    "[" + Joined(ObjectTexts(items)) + "]"
  }

  // ---- what is printed for each structure ----

  function BufferedMembers(b: BufferedResponse): seq<Member> {
    [Member("seq", ToString(b.id)), Member("payload", Quoted(b.payload)), Member("hash", ToString(b.hash))]
  }

  function BufferItems(bs: seq<BufferedResponse>): (items: seq<seq<Member>>)
    ensures |items| == |bs| && forall i :: 0 <= i < |bs| ==> items[i] == BufferedMembers(bs[i])
  {
    seq(|bs|, i requires 0 <= i < |bs| => BufferedMembers(bs[i]))
  }

  /** The members the parser recognises, around a given rendering of the buffer. */
  function CheckpointMembers(cp: Checkpoint, items: seq<seq<Member>>): seq<Member> {
    [Member("committed_upto", ToString(cp.committedUpto)), Member("event_count", ToString(cp.eventCount)),
     Member("history_hash", ToString(cp.historyHash)), Member("buffer", ArrayText(items))]
  }

  function CheckpointText(cp: Checkpoint): string {
    ObjectText([Member("version", "1")] + CheckpointMembers(cp, BufferItems(cp.buffer)))
  }

  function EventMembers(e: ReplayEvent): seq<Member> {
    [Member("t", if e.isResponse then "\"r\"" else "\"R\""), Member("seq", ToString(e.id))]
    + if e.isResponse then [Member("payload", Quoted(e.payload)), Member("hash", ToString(e.hash))] else []
  }

  function EventItems(es: seq<ReplayEvent>): (items: seq<seq<Member>>)
    ensures |items| == |es| && forall i :: 0 <= i < |es| ==> items[i] == EventMembers(es[i])
  {
    seq(|es|, i requires 0 <= i < |es| => EventMembers(es[i]))
  }

  function ReplayMembers(rp: Replay, items: seq<seq<Member>>): seq<Member> {
    [Member("from", ToString(rp.from)), Member("events", ArrayText(items))]
  }

  function ReplayText(rp: Replay): string {
    ObjectText(ReplayMembers(rp, EventItems(rp.events)))
  }

  // ---- parsing ----

  datatype Cursor = Cursor(text: string, ok: bool)
  datatype Hit = Hit(cur: Cursor, hit: bool)
  datatype Read<T> = Read(value: T, cur: Cursor)

  /** Where a loop ended, and whether the whole parse was abandoned inside it. */
  datatype Loop<T> = Loop(out: T, cur: Cursor, aborted: bool)

  predicate IsWs(c: char) {
    c == ' ' || c == '\t' || c == '\n' || c == '\r'
  }

  function DropWs(t: string): (u: string)
    ensures |u| <= |t| && u == t[|t| - |u|..]
  {
    if t != "" && IsWs(t[0]) then DropWs(t[1..]) else t
  }

  function Ws(c: Cursor): Cursor {
    c.(text := DropWs(c.text))
  }

  function At(c: Cursor, ch: char): bool {
    c.text != "" && c.text[0] == ch
  }

  function Eat(c: Cursor, ch: char): Hit {
    var d := Ws(c);
    if At(d, ch) then Hit(d.(text := d.text[1..]), true) else Hit(d.(ok := false), false)
  }

  function Peek(c: Cursor, ch: char): Hit {
    Hit(Ws(c), At(Ws(c), ch))
  }

  /** The text that is left of another after some of it was taken. */
  ghost predicate Tail(u: string, t: string) {
    |u| <= |t| && u == t[|t| - |u|..]
  }

  lemma TailOfTail(a: string, b: string, c: string)
    requires Tail(b, a) && Tail(c, b)
    ensures Tail(c, a)
  {
  }

  /** Moving on: what is left is a tail of what was, no error forgotten. */
  ghost predicate After(c: Cursor, d: Cursor) {
    Tail(d.text, c.text) && (d.ok ==> c.ok)
  }

  lemma AfterAfter(a: Cursor, b: Cursor, c: Cursor)
    requires After(a, b) && After(b, c)
    ensures After(a, c) && |c.text| <= |b.text| <= |a.text|
  {
    TailOfTail(a.text, b.text, c.text);
  }

  lemma AfterItself(c: Cursor)
    ensures After(c, c) && After(c, c.(ok := false))
  {
  }

  lemma EatAdvances(c: Cursor, ch: char)
    ensures After(c, Eat(c, ch).cur) && After(c, Peek(c, ch).cur)
    ensures Eat(c, ch).hit ==> |Eat(c, ch).cur.text| < |c.text|
    ensures Eat(c, ch).cur.ok ==> Eat(c, ch).hit
  {
  }

  function HexNibble(h: char): nat {
    if '0' <= h <= '9' then h as nat - '0' as nat
    else if 'a' <= h <= 'f' then h as nat - 'a' as nat + 10
    else if 'A' <= h <= 'F' then h as nat - 'A' as nat + 10
    else 0
  }

  function Hex4(t: string): nat
    requires |t| == 4
  {
    ((HexNibble(t[0]) * 16 + HexNibble(t[1])) * 16 + HexNibble(t[2])) * 16 + HexNibble(t[3])
  }

  function Unescape(e: char): char {
    if e == 'n' then '\n' else if e == 'r' then '\r' else if e == 't' then '\t'
    else if e == 'b' then 8 as char else if e == 'f' then 12 as char else e
  }

  /** One turn of the string loop: how much text it takes, and what it adds. */
  function StringTurn(t: string): (string, nat)
    requires t != ""
  {
    if t[0] == '\\' && |t| > 1 then
      if t[1] == 'u' then
        if |t| >= 6 then
          var v := Hex4(t[2..6]);
          (if v < 0x80 then [v as char] else "", 6)
        else ("", 2)
      else ([Unescape(t[1])], 2)
    else ([t[0]], 1)
  }

  /** The body of a string literal, up to a closing quote or the end of the text. */
  function ScanString(t: string, acc: string): (string, string)
    decreases |t|
  {
    if t == "" || t[0] == '"' then (acc, t) else
      var turn := StringTurn(t);
      ScanString(t[turn.1..], acc + turn.0)
  }

  lemma {:induction false} ScanShrinks(t: string, acc: string)
    ensures Tail(ScanString(t, acc).1, t)
    ensures ScanString(t, acc).1 == "" || ScanString(t, acc).1[0] == '"'
    decreases |t|
  {
    hide StringTurn, Tail;
    if t == "" || t[0] == '"' {
      ScanStop(t, acc);
      TailCut(t, 0);
    } else {
      var turn := StringTurn(t);
      TurnTakes(t);
      ScanTurn(t, acc);
      TailCut(t, turn.1);
      ScanShrinks(t[turn.1..], acc + turn.0);
      TailOfTail(t, t[turn.1..], ScanString(t, acc).1);
    }
  }

  lemma TurnTakes(t: string)
    requires t != ""
    ensures 0 < StringTurn(t).1 <= |t|
  {
  }

  lemma TailCut(t: string, n: nat)
    requires n <= |t|
    ensures Tail(t[n..], t)
  {
  }

  lemma ScanTurn(t: string, acc: string)
    requires t != "" && t[0] != '"'
    ensures ScanString(t, acc) == ScanString(t[StringTurn(t).1..], acc + StringTurn(t).0)
  {
    hide StringTurn;
  }

  lemma ScanStop(t: string, acc: string)
    requires t == "" || t[0] == '"'
    ensures ScanString(t, acc) == (acc, t)
  {
  }

  function ReadString(c: Cursor): Read<string> {
    var h := Eat(c, '"');
    if !h.hit then Read("", h.cur) else
      var (s, t) := ScanString(h.cur.text, "");
      if t != "" then ScanShrinks(h.cur.text, ""); Read(s, Cursor(t[1..], h.cur.ok)) else Read(s, Cursor(t, false))
  }

  /** The run of characters handed to `strtoull`. */
  function NumberRun(t: string): (n: nat)
    ensures n <= |t|
  {
    if t != "" && (IsDigit(t[0]) || t[0] == '-') then 1 + NumberRun(t[1..]) else 0
  }

  function ReadU64(c: Cursor): Read<nat> {
    var d := Ws(c);
    var n := NumberRun(d.text);
    Read(StrToULL(d.text[..n]), d.(text := d.text[n..]))
  }

  /** Skip to the end of a nested value, counting one kind of bracket and passing over strings. */
  function SkipNest(c: Cursor, open: char, close: char, depth: nat): Cursor
    decreases |c.text|
  {
    if c.text == "" || depth == 0 then c
    else if c.text[0] == '"' then
      ReadStringShrinks(c);
      SkipNest(ReadString(c).cur, open, close, depth)
    else
      var d := if c.text[0] == open then depth + 1 else if c.text[0] == close then depth - 1 else depth;
      SkipNest(c.(text := c.text[1..]), open, close, d)
  }

  lemma ReadStringShrinks(c: Cursor)
    ensures After(c, ReadString(c).cur)
    ensures ReadString(c).cur.ok || (c.text != "" && c.text[0] == '"') ==> |ReadString(c).cur.text| < |c.text|
  {
    hide ScanString, Eat, After, Tail;
    var h := Eat(c, '"');
    EatAdvances(c, '"');
    if At(c, '"') {
      QuoteAhead(c);
    }
    if h.hit {
      var t := ScanString(h.cur.text, "").1;
      ScanShrinks(h.cur.text, "");
      if t != "" {
        TailCut(t, 1);
        TailOfTail(h.cur.text, t, t[1..]);
      }
      var d := ReadString(c).cur;
      TailAfter(h.cur, d);
      AfterAfter(c, h.cur, d);
    }
  }

  lemma TailAfter(c: Cursor, d: Cursor)
    requires Tail(d.text, c.text) && (d.ok ==> c.ok)
    ensures After(c, d)
  {
  }

  lemma QuoteAhead(c: Cursor)
    requires At(c, '"')
    ensures Eat(c, '"').hit
  {
    hide DropWs;
    NoWs(c.text);
  }

  lemma NoWs(t: string)
    requires t != "" ==> !IsWs(t[0])
    ensures DropWs(t) == t
  {
  }

  lemma ReadStringUnfolds(t: string, ok: bool)
    requires t != "" && t[0] == '"'
    ensures
      var (s, u) := ScanString(t[1..], "");
      ReadString(Cursor(t, ok)) == if u != "" then Read(s, Cursor(u[1..], ok)) else Read(s, Cursor(u, false))
  {
    hide ScanString, DropWs;
    NoWs(t);
  }

  lemma SkipNestStep(t: string, ok: bool, open: char, close: char, depth: nat)
    requires t != "" && t[0] != '"' && depth > 0
    ensures
      var d := if t[0] == open then depth + 1 else if t[0] == close then depth - 1 else depth;
      SkipNest(Cursor(t, ok), open, close, depth) == SkipNest(Cursor(t[1..], ok), open, close, d)
  {
    hide ReadString;
  }

  lemma SkipNestEnds(t: string, ok: bool, open: char, close: char)
    ensures SkipNest(Cursor(t, ok), open, close, 0) == Cursor(t, ok)
  {
    hide ReadString;
  }

  function DropScalar(t: string): string {
    if t != "" && t[0] != ',' && t[0] != '}' && t[0] != ']' then DropScalar(t[1..]) else t
  }

  function SkipValue(c: Cursor): Cursor {
    var d := Ws(c);
    if d.text == "" then d.(ok := false)
    else if d.text[0] == '"' then ReadString(d).cur
    else if d.text[0] == '{' then SkipNest(d.(text := d.text[1..]), '{', '}', 1)
    else if d.text[0] == '[' then SkipNest(d.(text := d.text[1..]), '[', ']', 1)
    else d.(text := DropScalar(d.text))
  }

  // ---- objects and arrays, for any handling of one member or one element ----

  type FieldFn<!T> = (string, Cursor, T) -> Loop<T>

  /** Handling a member never moves backwards nor clears an error. */
  ghost predicate Advances<T(!new)>(f: FieldFn<T>) {
    forall key, c, out ::
      After(c, f(key, c, out).cur)
  }

  /** `"key" : value` and the comma after it, if no closing brace follows. */
  function OneMember<T>(f: FieldFn<T>, c: Cursor, out: T): Loop<T> {
    var key := ReadString(c);
    var colon := Eat(key.cur, ':');
    if !colon.hit then Loop(out, colon.cur, true) else
      var field := f(key.value, colon.cur, out);
      if field.aborted then field else
        var p := Peek(field.cur, '}');
        Loop(field.out, if p.hit then p.cur else Eat(p.cur, ',').cur, false)
  }

  lemma OneMemberAdvances<T(!new)>(f: FieldFn<T>, c: Cursor, out: T)
    requires Advances(f)
    ensures
      var m := OneMember(f, c, out);
      After(c, m.cur) && (m.cur.ok ==> |m.cur.text| < |c.text|)
  {
    hide ReadString, Eat, Peek, After;
    ReadStringShrinks(c);
    var key := ReadString(c);
    EatAdvances(key.cur, ':');
    var colon := Eat(key.cur, ':');
    AfterAfter(c, key.cur, colon.cur);
    AfterLength(key.cur, colon.cur);
    if colon.hit {
      var field := f(key.value, colon.cur, out);
      AfterAfter(c, colon.cur, field.cur);
      AfterLength(colon.cur, field.cur);
      SeparatorAdvances(c, field.cur, '}');
    }
  }

  ghost function Fuel(c: Cursor): nat {
    2 * |c.text| + if c.ok then 1 else 0
  }

  function Members<T(!new)>(f: FieldFn<T>, c: Cursor, out: T): Loop<T>
    requires Advances(f)
    decreases Fuel(c)
  {
    var p := Peek(c, '}');
    if p.hit || !p.cur.ok then Loop(out, p.cur, false) else
      OneMemberAdvances(f, p.cur, out);
      var m := OneMember(f, p.cur, out);
      if m.aborted then m else Members(f, m.cur, m.out)
  }

  lemma {:induction false} MembersAdvance<T(!new)>(f: FieldFn<T>, c: Cursor, out: T)
    requires Advances(f)
    ensures
      var l := Members(f, c, out);
      After(c, l.cur)
    decreases Fuel(c)
  {
    hide After, OneMember, Peek;
    var p := Peek(c, '}');
    PeekAdvances(c, '}');
    if !p.hit && p.cur.ok {
      OneMemberAdvances(f, p.cur, out);
      var m := OneMember(f, p.cur, out);
      AfterAfter(c, p.cur, m.cur);
      if !m.aborted {
        FuelShrinks(c, p.cur, m.cur);
        MembersAdvance(f, m.cur, m.out);
        AfterAfter(c, m.cur, Members(f, m.cur, m.out).cur);
      }
    }
  }

  lemma PeekAdvances(c: Cursor, ch: char)
    ensures After(c, Peek(c, ch).cur) && |Peek(c, ch).cur.text| <= |c.text| && Peek(c, ch).cur.ok == c.ok
  {
  }

  lemma FuelShrinks(c: Cursor, p: Cursor, m: Cursor)
    requires After(c, m) && |p.text| <= |c.text| && p.ok == c.ok && p.ok && (m.ok ==> |m.text| < |p.text|)
    ensures Fuel(m) < Fuel(c)
  {
  }

  /** One object of an array, appended, and the comma after it, if no closing bracket follows. */
  function OneElement<T(!new)>(f: FieldFn<T>, blank: T, c: Cursor, out: seq<T>): Loop<seq<T>>
    requires Advances(f)
  {
    var open := Eat(c, '{');
    if !open.hit then Loop(out, open.cur, true) else
      var item := Members(f, open.cur, blank);
      if item.aborted then Loop(out, item.cur, true) else
        var p := Peek(Eat(item.cur, '}').cur, ']');
        Loop(out + [item.out], if p.hit then p.cur else Eat(p.cur, ',').cur, false)
  }

  lemma OneElementAdvances<T(!new)>(f: FieldFn<T>, blank: T, c: Cursor, out: seq<T>)
    requires Advances(f)
    ensures
      var e := OneElement(f, blank, c, out);
      After(c, e.cur) && (e.cur.ok ==> |e.cur.text| < |c.text|)
  {
    hide Members, Eat, Peek, After;
    var open := Eat(c, '{');
    EatAdvances(c, '{');
    if open.hit {
      MembersAdvance(f, open.cur, blank);
      var item := Members(f, open.cur, blank);
      AfterAfter(c, open.cur, item.cur);
      var close := Eat(item.cur, '}').cur;
      EatAdvances(item.cur, '}');
      AfterAfter(c, item.cur, close);
      SeparatorAdvances(c, close, ']');
      AfterLength(open.cur, item.cur);
      AfterLength(item.cur, close);
    } else {
      AfterLength(c, open.cur);
    }
  }

  lemma AfterLength(c: Cursor, d: Cursor)
    requires After(c, d)
    ensures |d.text| <= |c.text| && (d.ok ==> c.ok)
  {
  }

  /** The closing bracket ahead, or the comma taken. */
  lemma SeparatorAdvances(c: Cursor, d: Cursor, close: char)
    requires After(c, d)
    ensures
      var p := Peek(d, close);
      var e := if p.hit then p.cur else Eat(p.cur, ',').cur;
      After(c, e) && |e.text| <= |d.text| && (e.ok ==> d.ok)
  {
    hide Peek, Eat, After;
    var p := Peek(d, close);
    PeekAdvances(d, close);
    AfterAfter(c, d, p.cur);
    EatAdvances(p.cur, ',');
    AfterAfter(c, p.cur, Eat(p.cur, ',').cur);
    AfterLength(p.cur, Eat(p.cur, ',').cur);
  }

  function Elements<T(!new)>(f: FieldFn<T>, blank: T, c: Cursor, out: seq<T>): Loop<seq<T>>
    requires Advances(f)
    decreases Fuel(c)
  {
    var p := Peek(c, ']');
    if p.hit || !p.cur.ok then Loop(out, p.cur, false) else
      OneElementAdvances(f, blank, p.cur, out);
      var e := OneElement(f, blank, p.cur, out);
      if e.aborted then e else Elements(f, blank, e.cur, e.out)
  }

  lemma {:induction false} ElementsAdvance<T(!new)>(f: FieldFn<T>, blank: T, c: Cursor, out: seq<T>)
    requires Advances(f)
    ensures
      var l := Elements(f, blank, c, out);
      After(c, l.cur)
    decreases Fuel(c)
  {
    hide After, OneElement, Peek;
    var p := Peek(c, ']');
    PeekAdvances(c, ']');
    if !p.hit && p.cur.ok {
      OneElementAdvances(f, blank, p.cur, out);
      var e := OneElement(f, blank, p.cur, out);
      AfterAfter(c, p.cur, e.cur);
      if !e.aborted {
        FuelShrinks(c, p.cur, e.cur);
        ElementsAdvance(f, blank, e.cur, e.out);
        AfterAfter(c, e.cur, Elements(f, blank, e.cur, e.out).cur);
      }
    }
  }

  /** An array of objects, appended to what there is already. */
  function ReadArray<T(!new)>(f: FieldFn<T>, blank: T, c: Cursor, have: seq<T>): Loop<seq<T>>
    requires Advances(f)
  {
    var open := Eat(c, '[');
    if !open.hit then Loop(have, open.cur, true) else
      var l := Elements(f, blank, open.cur, have);
      if l.aborted then l else l.(cur := Eat(l.cur, ']').cur)
  }

  lemma ReadArrayAdvances<T(!new)>(f: FieldFn<T>, blank: T, c: Cursor, have: seq<T>)
    requires Advances(f)
    ensures After(c, ReadArray(f, blank, c, have).cur)
  {
    hide Elements, Eat;
    EatAdvances(c, '[');
    var open := Eat(c, '[');
    ElementsAdvance(f, blank, open.cur, have);
    EatAdvances(Elements(f, blank, open.cur, have).cur, ']');
  }

  function ReadObject<T(!new)>(f: FieldFn<T>, blank: T, c: Cursor): Loop<T>
    requires Advances(f)
  {
    var open := Eat(c, '{');
    if !open.hit then Loop(blank, open.cur, true) else
      var l := Members(f, open.cur, blank);
      if l.aborted then l else l.(cur := Eat(l.cur, '}').cur)
  }

  // ---- the two documents ----

  function Set<T>(out: T, cur: Cursor): Loop<T> {
    Loop(out, cur, false)
  }

  function BufferedField(key: string, c: Cursor, b: BufferedResponse): Loop<BufferedResponse> {
    if key == "seq" then var r := ReadU64(c); Set(b.(id := r.value), r.cur)
    else if key == "payload" then var r := ReadString(c); Set(b.(payload := r.value), r.cur)
    else if key == "hash" then var r := ReadU64(c); Set(b.(hash := r.value), r.cur)
    else Set(b, SkipValue(c))
  }

  function EventField(key: string, c: Cursor, e: ReplayEvent): Loop<ReplayEvent> {
    if key == "t" then var r := ReadString(c); Set(e.(isResponse := r.value == "r"), r.cur)
    else if key == "seq" then var r := ReadU64(c); Set(e.(id := r.value), r.cur)
    else if key == "payload" then var r := ReadString(c); Set(e.(payload := r.value), r.cur)
    else if key == "hash" then var r := ReadU64(c); Set(e.(hash := r.value), r.cur)
    else Set(e, SkipValue(c))
  }

  lemma {:induction false} SkipNestAdvances(c: Cursor, open: char, close: char, depth: nat)
    ensures After(c, SkipNest(c, open, close, depth))
    decreases |c.text|
  {
    hide ReadString;
    if c.text != "" && depth > 0 {
      if c.text[0] == '"' {
        ReadStringShrinks(c);
        SkipNestAdvances(ReadString(c).cur, open, close, depth);
      } else {
        var d := if c.text[0] == open then depth + 1 else if c.text[0] == close then depth - 1 else depth;
        SkipNestAdvances(c.(text := c.text[1..]), open, close, d);
      }
    }
  }

  lemma {:induction false} DropScalarShrinks(t: string)
    ensures Tail(DropScalar(t), t)
  {
    if t != "" {
      DropScalarShrinks(t[1..]);
    }
  }

  lemma SkipValueAdvances(c: Cursor)
    ensures After(c, SkipValue(c))
  {
    hide ReadString, SkipNest, DropScalar, After;
    var d := Ws(c);
    WsAdvances(c);
    ReadStringShrinks(d);
    AfterAfter(c, d, ReadString(d).cur);
    ScalarAdvances(d);
    AfterAfter(c, d, d.(text := DropScalar(d.text)));
    AfterItself(d);
    AfterAfter(c, d, d.(ok := false));
    if d.text != "" {
      var inner := d.(text := d.text[1..]);
      OneTaken(d);
      SkipNestAdvances(inner, '{', '}', 1);
      SkipNestAdvances(inner, '[', ']', 1);
      AfterAfter(c, d, inner);
      AfterAfter(c, inner, SkipNest(inner, '{', '}', 1));
      AfterAfter(c, inner, SkipNest(inner, '[', ']', 1));
    }
  }

  lemma WsAdvances(c: Cursor)
    ensures After(c, Ws(c))
  {
  }

  lemma OneTaken(c: Cursor)
    requires c.text != ""
    ensures After(c, c.(text := c.text[1..]))
  {
  }

  lemma ScalarAdvances(c: Cursor)
    ensures After(c, c.(text := DropScalar(c.text)))
  {
    DropScalarShrinks(c.text);
  }

  lemma ScalarsAdvance(c: Cursor)
    ensures After(c, ReadU64(c).cur) && After(c, ReadString(c).cur) && After(c, SkipValue(c))
  {
    hide SkipValue, ReadString, ReadU64, After;
    ReadStringShrinks(c);
    SkipValueAdvances(c);
    NumberAdvances(c);
  }

  lemma NumberAdvances(c: Cursor)
    ensures After(c, ReadU64(c).cur)
  {
    hide After, DropWs, NumberRun, StrToULL;
    var d := Ws(c);
    WsAdvances(c);
    RunAdvances(d, NumberRun(d.text));
    AfterAfter(c, d, ReadU64(c).cur);
  }

  lemma RunAdvances(c: Cursor, n: nat)
    requires n <= |c.text|
    ensures After(c, c.(text := c.text[n..]))
  {
  }

  lemma FieldsAdvance()
    ensures Advances(BufferedField) && Advances(EventField)
  {
    hide SkipValue, ReadString, ReadU64, After;
    forall key, c, out: BufferedResponse ensures After(c, BufferedField(key, c, out).cur) {
      ScalarsAdvance(c);
    }
    forall key, c, out: ReplayEvent ensures After(c, EventField(key, c, out).cur) {
      ScalarsAdvance(c);
    }
  }

  const BLANK_BUFFERED := BufferedResponse(0, "", 0)
  const BLANK_EVENT := ReplayEvent(false, 0, "", 0)

  function CheckpointField(key: string, c: Cursor, cp: Checkpoint): Loop<Checkpoint> {
    if key == "committed_upto" then var r := ReadU64(c); Set(cp.(committedUpto := r.value), r.cur)
    else if key == "event_count" then var r := ReadU64(c); Set(cp.(eventCount := r.value), r.cur)
    else if key == "history_hash" then var r := ReadU64(c); Set(cp.(historyHash := r.value), r.cur)
    else if key == "buffer" then
      FieldsAdvance();
      var l := ReadArray(BufferedField, BLANK_BUFFERED, c, cp.buffer);
      Loop(cp.(buffer := l.out), l.cur, l.aborted)
    else Set(cp, SkipValue(c))
  }

  function ReplayField(key: string, c: Cursor, rp: Replay): Loop<Replay> {
    if key == "from" then var r := ReadU64(c); Set(rp.(from := r.value), r.cur)
    else if key == "events" then
      FieldsAdvance();
      var l := ReadArray(EventField, BLANK_EVENT, c, rp.events);
      Loop(rp.(events := l.out), l.cur, l.aborted)
    else Set(rp, SkipValue(c))
  }

  lemma DocumentsAdvance()
    ensures Advances(CheckpointField) && Advances(ReplayField)
  {
    hide SkipValue, ReadString, ReadU64, After, ReadArray;
    FieldsAdvance();
    forall key, c, out: Checkpoint ensures After(c, CheckpointField(key, c, out).cur) {
      ScalarsAdvance(c);
      ReadArrayAdvances(BufferedField, BLANK_BUFFERED, c, out.buffer);
    }
    forall key, c, out: Replay ensures After(c, ReplayField(key, c, out).cur) {
      ScalarsAdvance(c);
      ReadArrayAdvances(EventField, BLANK_EVENT, c, out.events);
    }
  }

  datatype Outcome<T> = Outcome(ok: bool, out: T)

  /** A whole document; what follows its closing brace is not looked at. */
  function ParseCheckpoint(text: string): Outcome<Checkpoint> {
    DocumentsAdvance();
    var l := ReadObject(CheckpointField, Checkpoint(0, 0, 0, []), Cursor(text, true));
    Outcome(l.cur.ok && !l.aborted, l.out)
  }

  function ParseReplay(text: string): Outcome<Replay> {
    DocumentsAdvance();
    var l := ReadObject(ReplayField, Replay(0, []), Cursor(text, true));
    Outcome(l.cur.ok && !l.aborted, l.out)
  }
}
