/** The failover JSON codec as it runs: a parser object whose position and error flag move
    step by step, and printers that append to a buffer. Each is proved to compute what the
    functions of `Json` say, on every input. */
module JsonCodec {
  import opened Messages
  import opened Decimal
  import opened Json

  // ---- facts the loops need about one more turn ----

  lemma NumberTurn(t: string)
    ensures NumberRun(t) == if t != "" && (IsDigit(t[0]) || t[0] == '-') then 1 + NumberRun(t[1..]) else 0
  {
  }

  lemma MembersTurn<T(!new)>(f: FieldFn<T>, c: Cursor, out: T)
    requires Advances(f)
    requires !Peek(c, '}').hit && Peek(c, '}').cur.ok
    ensures
      var m := OneMember(f, Peek(c, '}').cur, out);
      && Members(f, c, out) == (if m.aborted then m else Members(f, m.cur, m.out))
      && Fuel(m.cur) < Fuel(c)
  {
    hide OneMember;
    OneMemberAdvances(f, Peek(c, '}').cur, out);
  }

  lemma MembersStop<T(!new)>(f: FieldFn<T>, c: Cursor, out: T)
    requires Advances(f)
    requires Peek(c, '}').hit || !Peek(c, '}').cur.ok
    ensures Members(f, c, out) == Loop(out, Peek(c, '}').cur, false)
  {
  }

  lemma ElementsTurn<T(!new)>(f: FieldFn<T>, blank: T, c: Cursor, out: seq<T>)
    requires Advances(f)
    requires !Peek(c, ']').hit && Peek(c, ']').cur.ok
    ensures
      var e := OneElement(f, blank, Peek(c, ']').cur, out);
      && Elements(f, blank, c, out) == (if e.aborted then e else Elements(f, blank, e.cur, e.out))
      && Fuel(e.cur) < Fuel(c)
  {
    hide OneElement;
    OneElementAdvances(f, blank, Peek(c, ']').cur, out);
  }

  lemma ElementsStop<T(!new)>(f: FieldFn<T>, blank: T, c: Cursor, out: seq<T>)
    requires Advances(f)
    requires Peek(c, ']').hit || !Peek(c, ']').cur.ok
    ensures Elements(f, blank, c, out) == Loop(out, Peek(c, ']').cur, false)
  {
  }

  // ---- the parser ----

  class Parser {
    const input: string
    var pos: nat
    var ok: bool

    ghost predicate Valid()
      reads this
    {
      pos <= |input|
    }

    ghost function Cur(): Cursor
      requires Valid()
      reads this
    {
      Cursor(input[pos..], ok)
    }

    constructor (text: string)
      ensures Valid() && input == text && Cur() == Cursor(text, true)
    {
      input, pos, ok := text, 0, true;
      new;
      assert input[0..] == text;
    }

    lemma Shift(k: nat)
      requires Valid() && pos + k <= |input|
      ensures input[pos..][k..] == input[pos + k..]
    {
    }

    method SkipWs()
      requires Valid()
      modifies this`pos
      ensures Valid() && Cur() == Ws(old(Cur())) && old(pos) <= pos
      ensures pos < |input| ==> !IsWs(input[pos])
    {
      while pos < |input| && IsWs(input[pos])
        invariant Valid() && old(pos) <= pos
        invariant Ws(Cur()) == Ws(old(Cur()))
      {
        Shift(1);
        pos := pos + 1;
      }
    }

    method EatChar(ch: char) returns (hit: bool)
      requires Valid()
      modifies this
      ensures Valid() && Hit(Cur(), hit) == Eat(old(Cur()), ch) && old(pos) <= pos
    {
      SkipWs();
      if pos < |input| && input[pos] == ch {
        Shift(1);
        pos := pos + 1;
        return true;
      }
      ok := false;
      return false;
    }

    method PeekChar(ch: char) returns (hit: bool)
      requires Valid()
      modifies this`pos
      ensures Valid() && Hit(Cur(), hit) == Peek(old(Cur()), ch) && old(pos) <= pos
    {
      SkipWs();
      hit := pos < |input| && input[pos] == ch;
    }

    /** The four digits after `\u`. */
    method Hex() returns (v: nat)
      requires Valid() && pos + 4 <= |input|
      modifies this`pos
      ensures Valid() && pos == old(pos) + 4 && v == Hex4(input[old(pos)..pos])
    {
      v := 0;
      var i := 0;
      ghost var h := input[pos..pos + 4];
      while i < 4
        invariant 0 <= i <= 4 && pos == old(pos) + i
        invariant i == 0 ==> v == 0
        invariant i == 1 ==> v == HexNibble(h[0])
        invariant i == 2 ==> v == HexNibble(h[0]) * 16 + HexNibble(h[1])
        invariant i == 3 ==> v == (HexNibble(h[0]) * 16 + HexNibble(h[1])) * 16 + HexNibble(h[2])
        invariant i == 4 ==> v == Hex4(h)
      {
        v := v * 16 + HexNibble(input[pos]);
        pos, i := pos + 1, i + 1;
      }
    }

    /** One turn of the string loop. */
    method Turn() returns (s: string)
      requires Valid() && pos < |input|
      modifies this`pos
      ensures Valid() && pos == old(pos) + StringTurn(input[old(pos)..]).1
      ensures s == StringTurn(input[old(pos)..]).0 && old(pos) < pos
    {
      var c := input[pos];
      ghost var t := input[pos..];
      pos := pos + 1;
      if c == '\\' && pos < |input| {
        var e := input[pos];
        pos := pos + 1;
        if e != 'u' {
          return [Unescape(e)];
        }
        if |input| - pos >= 4 {
          assert input[pos..pos + 4] == t[2..6];
          var v := Hex();
          return if v < 0x80 then [v as char] else "";
        }
        return "";
      }
      return [c];
    }

    /** The string loop: up to a closing quote or the end of the text. */
    method StringBody() returns (s: string)
      requires Valid()
      modifies this`pos
      ensures Valid() && (s, input[pos..]) == ScanString(input[old(pos)..], "") && old(pos) <= pos
      ensures pos < |input| ==> input[pos] == '"'
    {
      hide ScanString, StringTurn;
      s := "";
      while pos < |input| && input[pos] != '"'
        invariant Valid() && old(pos) <= pos
        invariant ScanString(input[pos..], s) == ScanString(input[old(pos)..], "")
      {
        ScanTurn(input[pos..], s);
        ghost var from := pos;
        var more := Turn();
        assert input[from..][pos - from..] == input[pos..];
        s := s + more;
      }
      ScanStop(input[pos..], s);
    }

    method ParseString() returns (s: string)
      requires Valid()
      modifies this
      ensures Valid() && Read(s, Cur()) == ReadString(old(Cur())) && old(pos) <= pos
    {
      hide ScanString, Eat;
      var open := EatChar('"');
      if !open {
        return "";
      }
      s := StringBody();
      if pos < |input| {
        Shift(1);
        pos := pos + 1;
      } else {
        ok := false;
      }
    }

    /** The digits and signs from here on. */
    method NumberText() returns (digits: string)
      requires Valid()
      modifies this`pos
      ensures Valid() && old(pos) <= pos
      ensures var t := input[old(pos)..];
        var n := NumberRun(t);
        digits == t[..n] && input[pos..] == t[n..]
    {
      hide NumberRun, IsDigit;
      var start := pos;
      ghost var t := input[pos..];
      while pos < |input| && (IsDigit(input[pos]) || input[pos] == '-')
        invariant Valid() && start <= pos
        invariant pos - start + NumberRun(input[pos..]) == NumberRun(t)
      {
        NumberTurn(input[pos..]);
        Shift(1);
        pos := pos + 1;
      }
      NumberTurn(input[pos..]);
      assert t[..pos - start] == input[start..pos] && t[pos - start..] == input[pos..];
      return input[start..pos];
    }

    method ParseU64() returns (v: nat)
      requires Valid()
      modifies this`pos
      ensures Valid() && Read(v, Cur()) == ReadU64(old(Cur())) && old(pos) <= pos
    {
      hide StrToULL, NumberRun, DropWs;
      SkipWs();
      var digits := NumberText();
      v := StrToULL(digits);
    }

    /** From an opening bracket to the one that closes it. */
    method SkipNested(open: char, close: char)
      requires Valid() && pos < |input|
      modifies this
      ensures Valid() && old(pos) <= pos
      ensures Cur() == SkipNest(old(Cur().(text := Cur().text[1..])), open, close, 1)
    {
      hide ReadString, After, Tail;
      Shift(1);
      ghost var c0 := Cur().(text := Cur().text[1..]);
      pos := pos + 1;
      var depth: nat := 1;
      while pos < |input| && depth > 0
        invariant Valid() && old(pos) <= pos
        invariant SkipNest(Cur(), open, close, depth) == SkipNest(c0, open, close, 1)
        decreases |input| - pos
      {
        ReadStringShrinks(Cur());
        if input[pos] == '"' {
          var _ := ParseString();
          continue;
        }
        if input[pos] == open {
          depth := depth + 1;
        } else if input[pos] == close {
          depth := depth - 1;
        }
        Shift(1);
        pos := pos + 1;
      }
    }

    /** A number or a literal: up to a comma or a closing bracket. */
    method SkipScalar()
      requires Valid()
      modifies this`pos
      ensures Valid() && input[pos..] == DropScalar(input[old(pos)..]) && old(pos) <= pos
    {
      while pos < |input| && input[pos] != ',' && input[pos] != '}' && input[pos] != ']'
        invariant Valid() && old(pos) <= pos
        invariant DropScalar(input[pos..]) == DropScalar(input[old(pos)..])
      {
        Shift(1);
        pos := pos + 1;
      }
    }

    method SkipAny()
      requires Valid()
      modifies this
      ensures Valid() && Cur() == SkipValue(old(Cur())) && old(pos) <= pos
    {
      hide ReadString, SkipNest, DropScalar, DropWs, IsWs;
      SkipWs();
      if pos >= |input| {
        ok := false;
        return;
      }
      if input[pos] == '"' {
        var _ := ParseString();
        return;
      }
      if input[pos] == '{' || input[pos] == '[' {
        var open := input[pos];
        SkipNested(open, if open == '{' then '}' else ']');
        return;
      }
      SkipScalar();
    }

    /** The comma after a member or an element, unless the closing character follows. */
    method Comma(close: char)
      requires Valid()
      modifies this
      ensures Valid() && old(pos) <= pos
      ensures Cur() == var p := Peek(old(Cur()), close); if p.hit then p.cur else Eat(p.cur, ',').cur
    {
      hide Eat, Peek;
      var closing := PeekChar(close);
      if !closing {
        var _ := EatChar(',');
      }
    }

    method BufferedValue(key: string, b0: BufferedResponse) returns (b: BufferedResponse)
      requires Valid()
      modifies this
      ensures Valid() && Loop(b, Cur(), false) == BufferedField(key, old(Cur()), b0)
    {
      hide ReadString, ReadU64, SkipValue;
      b := b0;
      if key == "seq" {
        var v := ParseU64();
        b := b.(id := v);
      } else if key == "payload" {
        var s := ParseString();
        b := b.(payload := s);
      } else if key == "hash" {
        var v := ParseU64();
        b := b.(hash := v);
      } else {
        SkipAny();
      }
    }

    method EventValue(key: string, e0: ReplayEvent) returns (e: ReplayEvent)
      requires Valid()
      modifies this
      ensures Valid() && Loop(e, Cur(), false) == EventField(key, old(Cur()), e0)
    {
      hide ReadString, ReadU64, SkipValue;
      e := e0;
      if key == "t" {
        var s := ParseString();
        e := e.(isResponse := s == "r");
      } else if key == "seq" {
        var v := ParseU64();
        e := e.(id := v);
      } else if key == "payload" {
        var s := ParseString();
        e := e.(payload := s);
      } else if key == "hash" {
        var v := ParseU64();
        e := e.(hash := v);
      } else {
        SkipAny();
      }
    }

    /** The members of one buffered response, up to the closing brace. */
    method ReadBuffered() returns (b: BufferedResponse, aborted: bool)
      requires Valid() && Advances(BufferedField)
      modifies this
      ensures Valid() && Loop(b, Cur(), aborted) == Members(BufferedField, old(Cur()), BLANK_BUFFERED)
    {
      hide Members, Peek, Eat, ReadString, BufferedField, Advances;
      b, aborted := BLANK_BUFFERED, false;
      ghost var c0 := Cur();
      while true
        invariant Valid()
        invariant Members(BufferedField, Cur(), b) == Members(BufferedField, c0, BLANK_BUFFERED)
        decreases Fuel(Cur())
      {
        ghost var c := Cur();
        var closing := PeekChar('}');
        if closing || !ok {
          MembersStop(BufferedField, c, b);
          return b, false;
        }
        MembersTurn(BufferedField, c, b);
        var key := ParseString();
        var colon := EatChar(':');
        if !colon {
          return b, true;
        }
        b := BufferedValue(key, b);
        Comma('}');
      }
    }

    method ReadEvent() returns (e: ReplayEvent, aborted: bool)
      requires Valid() && Advances(EventField)
      modifies this
      ensures Valid() && Loop(e, Cur(), aborted) == Members(EventField, old(Cur()), BLANK_EVENT)
    {
      hide Members, Peek, Eat, ReadString, EventField, Advances;
      e, aborted := BLANK_EVENT, false;
      ghost var c0 := Cur();
      while true
        invariant Valid()
        invariant Members(EventField, Cur(), e) == Members(EventField, c0, BLANK_EVENT)
        decreases Fuel(Cur())
      {
        ghost var c := Cur();
        var closing := PeekChar('}');
        if closing || !ok {
          MembersStop(EventField, c, e);
          return e, false;
        }
        MembersTurn(EventField, c, e);
        var key := ParseString();
        var colon := EatChar(':');
        if !colon {
          return e, true;
        }
        e := EventValue(key, e);
        Comma('}');
      }
    }

    /** An array of such objects, added to those there are already. */
    method BufferArray(have: seq<BufferedResponse>) returns (items: seq<BufferedResponse>, aborted: bool)
      requires Valid() && Advances(BufferedField)
      modifies this
      ensures Valid() && Loop(items, Cur(), aborted) == ReadArray(BufferedField, BLANK_BUFFERED, old(Cur()), have)
    {
      hide Members, Elements, Peek, Eat, BufferedField, Advances;
      items := have;
      var open := EatChar('[');
      if !open {
        return items, true;
      }
      ghost var c0 := Cur();
      while true
        invariant Valid()
        invariant Elements(BufferedField, BLANK_BUFFERED, Cur(), items) ==
          Elements(BufferedField, BLANK_BUFFERED, c0, have)
        decreases Fuel(Cur())
      {
        ghost var c := Cur();
        var closing := PeekChar(']');
        if closing || !ok {
          ElementsStop(BufferedField, BLANK_BUFFERED, c, items);
          break;
        }
        ElementsTurn(BufferedField, BLANK_BUFFERED, c, items);
        open := EatChar('{');
        if !open {
          return items, true;
        }
        var item, stopped := ReadBuffered();
        if stopped {
          return items, true;
        }
        var _ := EatChar('}');
        items := items + [item];
        Comma(']');
      }
      var _ := EatChar(']');
      return items, false;
    }

    /** An array of such objects, added to those there are already. */
    method EventArray(have: seq<ReplayEvent>) returns (items: seq<ReplayEvent>, aborted: bool)
      requires Valid() && Advances(EventField)
      modifies this
      ensures Valid() && Loop(items, Cur(), aborted) == ReadArray(EventField, BLANK_EVENT, old(Cur()), have)
    {
      hide Members, Elements, Peek, Eat, EventField, Advances;
      items := have;
      var open := EatChar('[');
      if !open {
        return items, true;
      }
      ghost var c0 := Cur();
      while true
        invariant Valid()
        invariant Elements(EventField, BLANK_EVENT, Cur(), items) == Elements(EventField, BLANK_EVENT, c0, have)
        decreases Fuel(Cur())
      {
        ghost var c := Cur();
        var closing := PeekChar(']');
        if closing || !ok {
          ElementsStop(EventField, BLANK_EVENT, c, items);
          break;
        }
        ElementsTurn(EventField, BLANK_EVENT, c, items);
        open := EatChar('{');
        if !open {
          return items, true;
        }
        var item, stopped := ReadEvent();
        if stopped {
          return items, true;
        }
        var _ := EatChar('}');
        items := items + [item];
        Comma(']');
      }
      var _ := EatChar(']');
      return items, false;
    }

    method CheckpointValue(key: string, cp0: Checkpoint) returns (cp: Checkpoint, aborted: bool)
      requires Valid()
      modifies this
      ensures Valid() && Loop(cp, Cur(), aborted) == CheckpointField(key, old(Cur()), cp0)
    {
      hide ReadArray, ReadU64, SkipValue;
      cp, aborted := cp0, false;
      if key == "committed_upto" {
        var v := ParseU64();
        cp := cp.(committedUpto := v);
      } else if key == "event_count" {
        var v := ParseU64();
        cp := cp.(eventCount := v);
      } else if key == "history_hash" {
        var v := ParseU64();
        cp := cp.(historyHash := v);
      } else if key == "buffer" {
        FieldsAdvance();
        var items;
        items, aborted := BufferArray(cp.buffer);
        cp := cp.(buffer := items);
      } else {
        SkipAny();
      }
    }

    method ReplayValue(key: string, rp0: Replay) returns (rp: Replay, aborted: bool)
      requires Valid()
      modifies this
      ensures Valid() && Loop(rp, Cur(), aborted) == ReplayField(key, old(Cur()), rp0)
    {
      hide ReadArray, ReadU64, SkipValue;
      rp, aborted := rp0, false;
      if key == "from" {
        var v := ParseU64();
        rp := rp.(from := v);
      } else if key == "events" {
        FieldsAdvance();
        var items;
        items, aborted := EventArray(rp.events);
        rp := rp.(events := items);
      } else {
        SkipAny();
      }
    }
  }

  /** Whether the text was accepted, and what it was read as. */
  method FromJsonCheckpoint(text: string) returns (ok: bool, out: Checkpoint)
    ensures Outcome(ok, out) == ParseCheckpoint(text)
  {
    hide Members, Peek, Eat, ReadString, CheckpointField, Advances;
    DocumentsAdvance();
    out := Checkpoint(0, 0, 0, []);
    var p := new Parser(text);
    var open := p.EatChar('{');
    if !open {
      return false, out;
    }
    ghost var c0, blank := p.Cur(), out;
    while true
      invariant p.Valid()
      invariant Members(CheckpointField, p.Cur(), out) == Members(CheckpointField, c0, blank)
      decreases Fuel(p.Cur())
    {
      ghost var c := p.Cur();
      var closing := p.PeekChar('}');
      if closing || !p.ok {
        MembersStop(CheckpointField, c, out);
        break;
      }
      MembersTurn(CheckpointField, c, out);
      var key := p.ParseString();
      var colon := p.EatChar(':');
      if !colon {
        return false, out;
      }
      var stopped;
      out, stopped := p.CheckpointValue(key, out);
      if stopped {
        return false, out;
      }
      p.Comma('}');
    }
    var _ := p.EatChar('}');
    return p.ok, out;
  }

  /** Whether the text was accepted, and what it was read as. */
  method FromJsonReplay(text: string) returns (ok: bool, out: Replay)
    ensures Outcome(ok, out) == ParseReplay(text)
  {
    hide Members, Peek, Eat, ReadString, ReplayField, Advances;
    DocumentsAdvance();
    out := Replay(0, []);
    var p := new Parser(text);
    var open := p.EatChar('{');
    if !open {
      return false, out;
    }
    ghost var c0, blank := p.Cur(), out;
    while true
      invariant p.Valid()
      invariant Members(ReplayField, p.Cur(), out) == Members(ReplayField, c0, blank)
      decreases Fuel(p.Cur())
    {
      ghost var c := p.Cur();
      var closing := p.PeekChar('}');
      if closing || !p.ok {
        MembersStop(ReplayField, c, out);
        break;
      }
      MembersTurn(ReplayField, c, out);
      var key := p.ParseString();
      var colon := p.EatChar(':');
      if !colon {
        return false, out;
      }
      var stopped;
      out, stopped := p.ReplayValue(key, out);
      if stopped {
        return false, out;
      }
      p.Comma('}');
    }
    var _ := p.EatChar('}');
    return p.ok, out;
  }

  // ---- the printers ----

  lemma {:induction false} EscapeSnoc(s: string, c: char)
    ensures Escape(s + [c]) == Escape(s) + EscapeChar(c)
  {
    hide EscapeChar;
    if s == "" {
      assert (s + [c])[1..] == "";
    } else {
      assert (s + [c])[1..] == s[1..] + [c];
      EscapeSnoc(s[1..], c);
    }
  }

  lemma {:induction false} JoinedSnoc(ts: seq<string>, t: string)
    ensures Joined(ts + [t]) == (if ts == [] then t else Joined(ts) + "," + t)
  {
    if ts != [] {
      assert (ts + [t])[1..] == ts[1..] + [t];
      JoinedSnoc(ts[1..], t);
    }
  }

  /** Text that is printed as it is. */
  predicate Plain(s: string) {
    forall i :: 0 <= i < |s| ==> ' ' <= s[i] && s[i] != '"' && s[i] != '\\'
  }

  lemma {:induction false} EscapePlain(s: string)
    requires Plain(s)
    ensures Escape(s) == s
  {
    if s != "" {
      EscapePlain(s[1..]);
      assert s == [s[0]] + s[1..];
    }
  }

  method AppendEscaped(out: string, s: string) returns (r: string)
    ensures r == out + Quoted(s)
  {
    hide Escape;
    r := out + "\"";
    EscapeEmpty();
    var i := 0;
    while i < |s|
      invariant 0 <= i <= |s|
      invariant r == out + "\"" + Escape(s[..i])
    {
      var c := s[i];
      EscapeSnoc(s[..i], c);
      assert s[..i + 1] == s[..i] + [c];
      r := AppendChar(r, c);
      i := i + 1;
    }
    assert s[..i] == s;
    r := r + "\"";
  }

  lemma EscapeEmpty()
    ensures Escape("") == ""
  {
  }

  /** The switch inside the loop above. */
  method AppendChar(out: string, c: char) returns (r: string)
    ensures r == out + EscapeChar(c)
  {
    match c {
      case '"' => r := out + "\\\"";
      case '\\' => r := out + "\\\\";
      case '\n' => r := out + "\\n";
      case '\r' => r := out + "\\r";
      case '\t' => r := out + "\\t";
      case _ =>
        if c as nat < 0x20 {
          r := out + "\\u00";
          r := r + [HexDigit(c as nat / 16)];
          r := r + [HexDigit(c as nat % 16)];
        } else {
          r := out + [c];
        }
    }
  }

  /** The text of an object so far. */
  ghost function Opened(ms: seq<Member>): (s: string)
    ensures ObjectText(ms) == s + "}"
  {
    "{" + Joined(MemberTexts(ms))
  }

  /** Adding a member whose key needs no escaping. */
  lemma OpenedSnoc(ms: seq<Member>, m: Member, label_: string)
    requires Plain(m.key) && label_ == (if ms == [] then "" else ",") + "\"" + m.key + "\":"
    ensures Opened(ms + [m]) == Opened(ms) + label_ + m.text
  {
    hide Escape, Plain, Joined, MemberText;
    assert MemberTexts(ms + [m]) == MemberTexts(ms) + [MemberText(m)];
    JoinedSnoc(MemberTexts(ms), MemberText(m));
    JoinedEmpty();
    PlainMember(m);
  }

  lemma PlainMember(m: Member)
    requires Plain(m.key)
    ensures MemberText(m) == "\"" + m.key + "\":" + m.text
  {
    hide Escape, Plain;
    EscapePlain(m.key);
  }

  lemma OpenedEmpty()
    ensures Opened([]) == "{"
  {
    JoinedEmpty();
    assert MemberTexts([]) == [];
  }

  lemma Labels()
    ensures "{" + ("" + "\"" + "seq" + "\":") == "{\"seq\":" && Plain("seq")
    ensures "," + "\"" + "payload" + "\":" == ",\"payload\":" && Plain("payload")
    ensures "," + "\"" + "hash" + "\":" == ",\"hash\":" && Plain("hash")
    ensures "," + "\"" + "seq" + "\":" == ",\"seq\":"
  {
  }

  method BufferedJson(b: BufferedResponse) returns (s: string)
    ensures s == ObjectText(BufferedMembers(b))
  {
    hide ToString, Quoted, Plain, Opened;
    ghost var ms := BufferedMembers(b);
    Labels();
    OpenedEmpty();
    s := "{\"seq\":" + ToString(b.id);
    OpenedSnoc([], ms[0], "\"seq\":");
    assert [] + [ms[0]] == [ms[0]];
    assert s == Opened([ms[0]]);
    s := s + ",\"payload\":";
    s := AppendEscaped(s, b.payload);
    OpenedSnoc([ms[0]], ms[1], ",\"payload\":");
    assert [ms[0]] + [ms[1]] == [ms[0], ms[1]];
    s := s + ",\"hash\":" + ToString(b.hash) + "}";
    OpenedSnoc([ms[0], ms[1]], ms[2], ",\"hash\":");
    assert [ms[0], ms[1]] + [ms[2]] == ms;
  }

  /** Adding an object to the text of an array. */
  lemma ItemsSnoc(items: seq<seq<Member>>, item: seq<Member>)
    ensures Joined(ObjectTexts(items + [item])) ==
      Joined(ObjectTexts(items)) + (if items == [] then "" else ",") + ObjectText(item)
  {
    hide Joined, ObjectText;
    assert ObjectTexts(items + [item]) == ObjectTexts(items) + [ObjectText(item)];
    JoinedSnoc(ObjectTexts(items), ObjectText(item));
    JoinedEmpty();
  }

  method BufferJson(bs: seq<BufferedResponse>) returns (s: string)
    ensures s == ArrayText(BufferItems(bs))
  {
    hide Joined, ObjectText, ObjectTexts;
    s := "[";
    JoinedEmpty();
    assert ObjectTexts(BufferItems(bs[..0])) == [];
    for i := 0 to |bs|
      invariant s == "[" + Joined(ObjectTexts(BufferItems(bs[..i])))
    {
      if i > 0 {
        s := s + ",";
      }
      var item := BufferedJson(bs[i]);
      s := s + item;
      assert BufferItems(bs[..i + 1]) == BufferItems(bs[..i]) + [BufferedMembers(bs[i])];
      ItemsSnoc(BufferItems(bs[..i]), BufferedMembers(bs[i]));
    }
    assert bs[..|bs|] == bs;
    s := s + "]";
  }

  lemma CheckpointLabels()
    ensures "{" + ("" + "\"" + "version" + "\":") == "{\"version\":" && Plain("version")
    ensures "," + "\"" + "committed_upto" + "\":" == ",\"committed_upto\":" && Plain("committed_upto")
    ensures "," + "\"" + "event_count" + "\":" == ",\"event_count\":" && Plain("event_count")
    ensures "," + "\"" + "history_hash" + "\":" == ",\"history_hash\":" && Plain("history_hash")
    ensures "," + "\"" + "buffer" + "\":" == ",\"buffer\":" && Plain("buffer")
  {
  }

  method ToJsonCheckpoint(cp: Checkpoint) returns (s: string)
    ensures s == CheckpointText(cp)
  {
    hide ToString, Plain, Opened, ArrayText, ObjectText, MemberTexts;
    ghost var ms := [Member("version", "1")] + CheckpointMembers(cp, BufferItems(cp.buffer));
    CheckpointLabels();
    OpenedEmpty();
    s := "{\"version\":" + "1";
    OpenedSnoc([], ms[0], "\"version\":");
    assert ms[..1] == [] + [ms[0]];
    assert s == Opened(ms[..1]);
    s := s + ",\"committed_upto\":" + ToString(cp.committedUpto);
    OpenedSnoc(ms[..1], ms[1], ",\"committed_upto\":");
    assert ms[..2] == ms[..1] + [ms[1]];
    s := s + ",\"event_count\":" + ToString(cp.eventCount);
    OpenedSnoc(ms[..2], ms[2], ",\"event_count\":");
    assert ms[..3] == ms[..2] + [ms[2]];
    assert s == Opened(ms[..3]);
    s := s + ",\"history_hash\":" + ToString(cp.historyHash);
    OpenedSnoc(ms[..3], ms[3], ",\"history_hash\":");
    assert ms[..4] == ms[..3] + [ms[3]];
    var items := BufferJson(cp.buffer);
    s := s + ",\"buffer\":" + items + "}";
    OpenedSnoc(ms[..4], ms[4], ",\"buffer\":");
    assert ms == ms[..4] + [ms[4]];
  }

  lemma EventLabels()
    ensures "{" + ("" + "\"" + "t" + "\":") + "\"r\"" == "{\"t\":\"r\""
    ensures "{" + ("" + "\"" + "t" + "\":") + "\"R\"" == "{\"t\":\"R\""
    ensures Plain("t")
  {
  }

  method EventJson(e: ReplayEvent) returns (s: string)
    ensures s == ObjectText(EventMembers(e))
  {
    hide ToString, Plain, Opened, Quoted;
    ghost var ms := EventMembers(e);
    Labels();
    EventLabels();
    OpenedEmpty();
    s := "{\"t\":\"" + (if e.isResponse then "r" else "R") + "\"";
    OpenedSnoc([], ms[0], "\"t\":");
    assert ms[..1] == [] + [ms[0]];
    assert s == Opened(ms[..1]);
    s := s + ",\"seq\":" + ToString(e.id);
    OpenedSnoc(ms[..1], ms[1], ",\"seq\":");
    assert ms[..2] == ms[..1] + [ms[1]];
    if e.isResponse {
      s := s + ",\"payload\":";
      s := AppendEscaped(s, e.payload);
      OpenedSnoc(ms[..2], ms[2], ",\"payload\":");
      s := s + ",\"hash\":" + ToString(e.hash);
      OpenedSnoc(ms[..3], ms[3], ",\"hash\":");
      assert ms[..3] == ms[..2] + [ms[2]] && ms == ms[..3] + [ms[3]];
    } else {
      assert ms == ms[..2];
    }
    s := s + "}";
  }

  method EventsJson(es: seq<ReplayEvent>) returns (s: string)
    ensures s == ArrayText(EventItems(es))
  {
    hide Joined, ObjectText, ObjectTexts;
    s := "[";
    JoinedEmpty();
    assert ObjectTexts(EventItems(es[..0])) == [];
    for i := 0 to |es|
      invariant s == "[" + Joined(ObjectTexts(EventItems(es[..i])))
    {
      if i > 0 {
        s := s + ",";
      }
      var item := EventJson(es[i]);
      s := s + item;
      assert EventItems(es[..i + 1]) == EventItems(es[..i]) + [EventMembers(es[i])];
      ItemsSnoc(EventItems(es[..i]), EventMembers(es[i]));
    }
    assert es[..|es|] == es;
    s := s + "]";
  }

  lemma ReplayLabels()
    ensures "{" + ("" + "\"" + "from" + "\":") == "{\"from\":" && Plain("from")
    ensures "," + "\"" + "events" + "\":" == ",\"events\":" && Plain("events")
  {
  }

  method ToJsonReplay(rp: Replay) returns (s: string)
    ensures s == ReplayText(rp)
  {
    hide ToString, Plain, Opened, ArrayText;
    ghost var ms := ReplayMembers(rp, EventItems(rp.events));
    ReplayLabels();
    OpenedEmpty();
    s := "{\"from\":" + ToString(rp.from);
    OpenedSnoc([], ms[0], "\"from\":");
    var items := EventsJson(rp.events);
    s := s + ",\"events\":" + items + "}";
    OpenedSnoc(ms[..1], ms[1], ",\"events\":");
    assert ms[..1] == [] + [ms[0]] && ms == ms[..1] + [ms[1]];
  }
}
