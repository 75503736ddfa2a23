/** Objects and arrays laid out in any way: white space anywhere between tokens, members in any
    order, members of others' making in between. Reading them finds what they say. */
module JsonLayout {
  import opened Json
  import opened JsonValues

  // ---- layouts ----

  /** A member, its key as any string literal, with the white space around its parts. */
  datatype Item = Item(pre: string, body: string, mid: string, lead: string, text: string, post: string)

  predicate PadsOk(it: Item) {
    BodyOk(it.body) && AllWs(it.pre) && AllWs(it.mid) && AllWs(it.lead) && AllWs(it.post)
  }

  /** The key as the parser reads it. */
  function Key(it: Item): string {
    Decode(it.body)
  }

  function Bare(it: Item): string {
    Literal(it.body) + (it.mid + ":" + (it.lead + it.text))
  }

  function ItemText(it: Item): string {
    it.pre + Bare(it) + it.post
  }

  function ItemTexts(items: seq<Item>): (ts: seq<string>)
    ensures |ts| == |items| && forall i :: 0 <= i < |items| ==> ts[i] == ItemText(items[i])
  {
    seq(|items|, i requires 0 <= i < |items| => ItemText(items[i]))
  }

  function ObjectLayout(items: seq<Item>): string {
    "{" + Joined(ItemTexts(items)) + "}"
  }

  /** An object of an array with the white space around it. */
  datatype Elem = Elem(pre: string, items: seq<Item>, post: string)

  function ElemText(e: Elem): string {
    e.pre + ObjectLayout(e.items) + e.post
  }

  function ElemTexts(es: seq<Elem>): (ts: seq<string>)
    ensures |ts| == |es| && forall i :: 0 <= i < |es| ==> ts[i] == ElemText(es[i])
  {
    seq(|es|, i requires 0 <= i < |es| => ElemText(es[i]))
  }

  function ArrayLayout(es: seq<Elem>, pad: string): string {
    "[" + (if es == [] then pad else Joined(ElemTexts(es))) + "]"
  }

  /** What an object has to say: the keys its reader knows, those of them it has, what text may
      stand for each, and what is known once some of them were read. */
  datatype Shape<T> = Shape(
    known: set<string>,
    own: set<string>,
    right: (string, string) -> bool,
    part: set<string> -> T)

  /** Each of the object's own members once, in any order, and any others with unknown keys. */
  ghost predicate Lays<T>(sh: Shape<T>, items: seq<Item>, seen: set<string>) {
    if items == [] then seen == sh.own else
      var it := items[0];
      && PadsOk(it)
      && if Key(it) in sh.known
         then
           && Key(it) in sh.own && Key(it) !in seen && sh.right(Key(it), it.text)
           && Lays(sh, items[1..], seen + {Key(it)})
         else IsJson(it.text) && Lays(sh, items[1..], seen)
  }

  // ---- reading a member ----

  /** What may follow a member's value: white space, then a comma or the closing brace. */
  predicate Follows(follow: string) {
    var u := DropWs(follow);
    u != "" && (u[0] == ',' || u[0] == '}')
  }

  /** Handling this member takes its text and no more than the white space after it. */
  ghost predicate Took<T(!new)>(r: Loop<T>, after: T, follow: string) {
    r.out == after && !r.aborted && Ws(r.cur) == Ws(Cursor(follow, true))
  }

  ghost predicate Takes<T(!new)>(f: FieldFn<T>, key: string, text: string, before: T, after: T) {
    forall lead, follow :: AllWs(lead) && Follows(follow) ==>
      Took(f(key, Cursor(lead + text + follow, true), before), after, follow)
  }

  ghost predicate Handles<T(!new)>(f: FieldFn<T>, sh: Shape<T>) {
    && (forall key, text, seen :: key in sh.own && key !in seen && seen <= sh.own && sh.right(key, text) ==>
          Takes(f, key, text, sh.part(seen), sh.part(seen + {key})))
    && (forall key, text, out :: key !in sh.known && IsJson(text) ==> Takes(f, key, text, out, out))
  }

  lemma PadDrops(pad: string, u: string)
    requires AllWs(pad) && u != "" && !IsWs(u[0])
    ensures DropWs(pad + u) == u
  {
    hide DropWs;
    WsLead(pad, u);
    NoWs(u);
  }

  lemma EatsAfter(pad: string, ch: char, rest: string)
    requires AllWs(pad) && !IsWs(ch)
    ensures Eat(Cursor(pad + ([ch] + rest), true), ch) == Hit(Cursor(rest, true), true)
  {
    hide DropWs;
    PadDrops(pad, [ch] + rest);
    assert ([ch] + rest)[1..] == rest;
  }

  /** The comma or the closing bracket after a value. */
  lemma Separates(c: Cursor, close: char, post: string, rest: string)
    requires AllWs(post) && rest != "" && (rest[0] == ',' || rest[0] == close) && !IsWs(close)
    requires Ws(c) == Ws(Cursor(post + rest, true))
    ensures
      var p := Peek(c, close);
      && p.hit == (rest[0] == close)
      && (if p.hit then p.cur else Eat(p.cur, ',').cur) == Cursor(if rest[0] == close then rest else rest[1..], true)
  {
    hide DropWs;
    PadDrops(post, rest);
    NoWs(rest);
  }

  lemma OneMemberTakes<T(!new)>(f: FieldFn<T>, it: Item, before: T, after: T, rest: string)
    requires PadsOk(it) && Takes(f, Key(it), it.text, before, after)
    requires rest != "" && (rest[0] == ',' || rest[0] == '}')
    ensures OneMember(f, Cursor(Bare(it) + (it.post + rest), true), before) ==
      Loop(after, Cursor(if rest[0] == '}' then rest else rest[1..], true), false)
  {
    hide ReadString, Literal, BodyOk, Decode, DropWs, Eat, Peek, AllWs, Takes;
    var follow := it.post + rest;
    var value := it.lead + it.text + follow;
    var colon := it.mid + ([':'] + value);
    assert Bare(it) + follow == Literal(it.body) + colon;
    ReadLiteral(it.body, colon, true);
    EatsAfter(it.mid, ':', value);
    TakesHere(f, it, before, after, rest);
    Separates(f(Key(it), Cursor(value, true), before).cur, '}', it.post, rest);
  }

  lemma TakesHere<T(!new)>(f: FieldFn<T>, it: Item, before: T, after: T, rest: string)
    requires PadsOk(it) && Takes(f, Key(it), it.text, before, after)
    requires rest != "" && (rest[0] == ',' || rest[0] == '}')
    ensures Took(f(Key(it), Cursor(it.lead + it.text + (it.post + rest), true), before), after, it.post + rest)
  {
    hide DropWs, AllWs, Took;
    PadDrops(it.post, rest);
    assert Follows(it.post + rest);
  }

  // ---- reading an object ----

  lemma MembersStep<T(!new)>(f: FieldFn<T>, pre: string, u: string, out: T)
    requires Advances(f) && AllWs(pre) && u != "" && !IsWs(u[0])
    ensures u[0] == '}' ==> Members(f, Cursor(pre + u, true), out) == Loop(out, Cursor(u, true), false)
    ensures u[0] != '}' ==>
      var m := OneMember(f, Cursor(u, true), out);
      !m.aborted ==> Members(f, Cursor(pre + u, true), out) == Members(f, m.cur, m.out)
  {
    hide OneMember, DropWs;
    PadDrops(pre, u);
  }

  /** The text of the first member and what follows it. */
  lemma HeadText(items: seq<Item>, tail: string)
    requires items != []
    ensures
      var it := items[0];
      var rest := if |items| == 1 then "}" + tail else "," + (Joined(ItemTexts(items[1..])) + "}" + tail);
      Joined(ItemTexts(items)) + "}" + tail == it.pre + (Bare(it) + (it.post + rest))
  {
    hide Bare;
    assert ItemTexts(items)[1..] == ItemTexts(items[1..]);
  }

  lemma BareQuoted(it: Item, rest: string)
    ensures (Bare(it) + rest)[0] == '"' && !IsWs('"')
  {
  }

  /** A sequence of results, one member apart. */
  ghost predicate Chained<T(!new)>(f: FieldFn<T>, items: seq<Item>, outs: seq<T>) {
    && |outs| == |items| + 1
    && forall i :: 0 <= i < |items| ==>
         PadsOk(items[i]) && Takes(f, Key(items[i]), items[i].text, outs[i], outs[i + 1])
  }

  lemma {:induction false} MembersChain<T(!new)>(f: FieldFn<T>, items: seq<Item>, outs: seq<T>, tail: string)
    requires Advances(f) && Chained(f, items, outs)
    ensures
      Members(f, Cursor(Joined(ItemTexts(items)) + "}" + tail, true), outs[0]) ==
      Loop(outs[|items|], Cursor("}" + tail, true), false)
    decreases |items|
  {
    hide Advances, Members, OneMember, Takes, Bare, ItemTexts, Joined;
    JoinedEmpty();
    var t := Joined(ItemTexts(items)) + "}" + tail;
    assert "" + ("}" + tail) == "}" + tail;
    MembersStep(f, "", "}" + tail, outs[|items|]);
    if items == [] {
      NoItems();
      assert t == "}" + tail;
    } else {
      var it := items[0];
      HeadText(items, tail);
      var rest := if |items| == 1 then "}" + tail else "," + (Joined(ItemTexts(items[1..])) + "}" + tail);
      BareQuoted(it, it.post + rest);
      MembersStep(f, it.pre, Bare(it) + (it.post + rest), outs[0]);
      OneMemberTakes(f, it, outs[0], outs[1], rest);
      MembersChain(f, items[1..], outs[1..], tail);
      if |items| == 1 {
        NoItems();
        assert Joined(ItemTexts(items[1..])) + "}" + tail == "}" + tail;
      }
    }
  }

  lemma {:induction false} ChainOf<T(!new)>(f: FieldFn<T>, sh: Shape<T>, items: seq<Item>, seen: set<string>)
    returns (outs: seq<T>)
    requires Handles(f, sh) && Lays(sh, items, seen) && seen <= sh.own
    ensures Chained(f, items, outs) && outs[0] == sh.part(seen) && outs[|items|] == sh.part(sh.own)
    decreases |items|
  {
    hide Handles, Takes, PadsOk, Key, IsJson;
    if items == [] {
      outs := [sh.part(seen)];
    } else {
      var it := items[0];
      ItemTaken(f, sh, it, seen);
      var rest := ChainOf(f, sh, items[1..], if Key(it) in sh.known then seen + {Key(it)} else seen);
      outs := [sh.part(seen)] + rest;
    }
  }

  /** For any handling of members: an object with each of its own members once, in any order, and
      any others in between, reads as what its own members say. */
  lemma MembersRead<T(!new)>(f: FieldFn<T>, sh: Shape<T>, items: seq<Item>, seen: set<string>, tail: string)
    requires Advances(f) && Handles(f, sh) && Lays(sh, items, seen) && seen <= sh.own
    ensures
      Members(f, Cursor(Joined(ItemTexts(items)) + "}" + tail, true), sh.part(seen)) ==
      Loop(sh.part(sh.own), Cursor("}" + tail, true), false)
  {
    hide Advances, Members, Handles, Lays, Chained;
    var outs := ChainOf(f, sh, items, seen);
    MembersChain(f, items, outs, tail);
  }

  lemma NoItems()
    ensures ItemTexts([]) == []
  {
  }

  lemma ItemTaken<T(!new)>(f: FieldFn<T>, sh: Shape<T>, it: Item, seen: set<string>)
    requires Handles(f, sh) && seen <= sh.own
    requires if Key(it) in sh.known
             then Key(it) in sh.own && Key(it) !in seen && sh.right(Key(it), it.text)
             else IsJson(it.text)
    ensures Takes(f, Key(it), it.text, sh.part(seen), sh.part(if Key(it) in sh.known then seen + {Key(it)} else seen))
  {
    hide Takes;
  }

  /** The members of an object, read from a blank, give this value. */
  ghost predicate Yields<T(!new)>(f: FieldFn<T>, blank: T, items: seq<Item>, value: T)
    requires Advances(f)
  {
    forall tail :: Members(f, Cursor(Joined(ItemTexts(items)) + "}" + tail, true), blank) ==
                   Loop(value, Cursor("}" + tail, true), false)
  }

  lemma LaidYields<T(!new)>(f: FieldFn<T>, sh: Shape<T>, items: seq<Item>)
    requires Advances(f) && Handles(f, sh) && Lays(sh, items, {})
    ensures Yields(f, sh.part({}), items, sh.part(sh.own))
  {
    hide Members, Handles, Lays, Advances;
    forall tail
      ensures Members(f, Cursor(Joined(ItemTexts(items)) + "}" + tail, true), sh.part({})) ==
              Loop(sh.part(sh.own), Cursor("}" + tail, true), false)
    {
      MembersRead(f, sh, items, {}, tail);
    }
  }

  // ---- which members change nothing ----

  function Extra(body: string, text: string): Item {
    Item("", body, "", "", text, "")
  }

  /** Every key the reader knows can be given a value that changes the result. */
  ghost predicate Alters<T(!new)>(f: FieldFn<T>, sh: Shape<T>) {
    forall key :: key in sh.known ==> Alterable(f, key, sh.part(sh.own))
  }

  ghost predicate Alterable<T(!new)>(f: FieldFn<T>, key: string, value: T) {
    exists text, other :: IsJson(text) && other != value && Takes(f, key, text, value, other)
  }

  lemma {:induction false} LaysMore<T>(sh: Shape<T>, items: seq<Item>, seen: set<string>, it: Item)
    requires Lays(sh, items, seen) && PadsOk(it) && Key(it) !in sh.known && IsJson(it.text)
    ensures Lays(sh, items + [it], seen)
    decreases |items|
  {
    hide IsJson, PadsOk, Key;
    if items == [] {
      assert items + [it] == [it];
    } else {
      var head := items[0];
      assert (items + [it])[1..] == items[1..] + [it];
      LaysMore(sh, items[1..], if Key(head) in sh.known then seen + {Key(head)} else seen, it);
    }
  }

  lemma ExtraTaken<T(!new)>(f: FieldFn<T>, sh: Shape<T>, items: seq<Item>, it: Item, other: T)
    requires Advances(f) && Handles(f, sh) && Lays(sh, items, {})
    requires PadsOk(it) && Takes(f, Key(it), it.text, sh.part(sh.own), other)
    ensures Yields(f, sh.part({}), items + [it], other)
  {
    hide Advances, Members, Handles, Lays, Takes, PadsOk, Key, ItemTexts, Joined;
    var outs := ChainOf(f, sh, items, {});
    var more, outs' := items + [it], outs + [other];
    assert Chained(f, more, outs');
    forall tail
      ensures Members(f, Cursor(Joined(ItemTexts(more)) + "}" + tail, true), sh.part({})) ==
              Loop(other, Cursor("}" + tail, true), false)
    {
      MembersChain(f, more, outs', tail);
    }
  }

  lemma YieldsOnce<T(!new)>(f: FieldFn<T>, blank: T, items: seq<Item>, a: T, b: T)
    requires Advances(f) && Yields(f, blank, items, a) && Yields(f, blank, items, b)
    ensures a == b
  {
    hide Members, ItemTexts, Joined, Advances;
    assert Loop(a, Cursor("}" + "", true), false) == Loop(b, Cursor("}" + "", true), false);
  }

  /** One more member, with any key literal, changes nothing whatever its value exactly when the
      parser does not read its key as one it knows. */
  lemma ExtraIgnoredExactly<T(!new)>(f: FieldFn<T>, sh: Shape<T>, items: seq<Item>, body: string)
    requires Advances(f) && Handles(f, sh) && Alters(f, sh) && Lays(sh, items, {}) && BodyOk(body)
    ensures
      (forall text :: IsJson(text) ==> Yields(f, sh.part({}), items + [Extra(body, text)], sh.part(sh.own)))
      <==> Decode(body) !in sh.known
  {
    hide Advances, Handles, Lays, Yields, IsJson, Takes, BodyOk, Decode;
    NoPad();
    if Decode(body) in sh.known {
      assert Alterable(f, Decode(body), sh.part(sh.own));
      var text, other :| IsJson(text) && other != sh.part(sh.own)
        && Takes(f, Decode(body), text, sh.part(sh.own), other);
      ExtraTaken(f, sh, items, Extra(body, text), other);
      if Yields(f, sh.part({}), items + [Extra(body, text)], sh.part(sh.own)) {
        YieldsOnce(f, sh.part({}), items + [Extra(body, text)], sh.part(sh.own), other);
      }
    } else {
      forall text | IsJson(text) ensures Yields(f, sh.part({}), items + [Extra(body, text)], sh.part(sh.own)) {
        LaysMore(sh, items, {}, Extra(body, text));
        LaidYields(f, sh, items + [Extra(body, text)]);
      }
    }
  }

  // ---- reading the whole object ----

  lemma ObjectReads<T(!new)>(f: FieldFn<T>, blank: T, pre: string, items: seq<Item>, value: T, tail: string)
    requires Advances(f) && Yields(f, blank, items, value) && AllWs(pre)
    ensures ReadObject(f, blank, Cursor(pre + ObjectLayout(items) + tail, true)) ==
      Loop(value, Cursor(tail, true), false)
  {
    hide Members, Eat, ItemTexts, AllWs;
    var inner := Joined(ItemTexts(items)) + "}" + tail;
    assert pre + ObjectLayout(items) + tail == pre + (['{'] + inner);
    EatsAfter(pre, '{', inner);
    ClosesObject(tail);
  }

  lemma NoPad()
    ensures AllWs("")
  {
  }

  // ---- reading an array ----

  lemma OneElementReads<T(!new)>(f: FieldFn<T>, blank: T, e: Elem, value: T, have: seq<T>, rest: string)
    requires Advances(f) && Yields(f, blank, e.items, value) && AllWs(e.post)
    requires rest != "" && (rest[0] == ',' || rest[0] == ']')
    ensures OneElement(f, blank, Cursor(ObjectLayout(e.items) + (e.post + rest), true), have) ==
      Loop(have + [value], Cursor(if rest[0] == ']' then rest else rest[1..], true), false)
  {
    hide Members, Eat, Peek, ObjectLayout, AllWs;
    var follow := e.post + rest;
    var inner := Joined(ItemTexts(e.items)) + "}" + follow;
    OpensObject(e.items, follow);
    assert Members(f, Cursor(inner, true), blank) == Loop(value, Cursor("}" + follow, true), false);
    ClosesObject(follow);
    Separates(Cursor(follow, true), ']', e.post, rest);
  }

  lemma OpensObject(items: seq<Item>, follow: string)
    ensures Eat(Cursor(ObjectLayout(items) + follow, true), '{') ==
      Hit(Cursor(Joined(ItemTexts(items)) + "}" + follow, true), true)
  {
    hide Eat, ItemTexts, Joined;
    var inner := Joined(ItemTexts(items)) + "}" + follow;
    NoPad();
    assert ObjectLayout(items) + follow == "" + (['{'] + inner);
    EatsAfter("", '{', inner);
  }

  lemma ClosesObject(follow: string)
    ensures Eat(Cursor("}" + follow, true), '}') == Hit(Cursor(follow, true), true)
  {
    hide Eat;
    NoPad();
    assert "" + (['}'] + follow) == "}" + follow;
    EatsAfter("", '}', follow);
  }

  lemma ElementsStep<T(!new)>(f: FieldFn<T>, blank: T, pre: string, u: string, out: seq<T>)
    requires Advances(f) && AllWs(pre) && u != "" && !IsWs(u[0])
    ensures u[0] == ']' ==> Elements(f, blank, Cursor(pre + u, true), out) == Loop(out, Cursor(u, true), false)
    ensures u[0] != ']' ==>
      var e := OneElement(f, blank, Cursor(u, true), out);
      !e.aborted ==> Elements(f, blank, Cursor(pre + u, true), out) == Elements(f, blank, e.cur, e.out)
  {
    hide OneElement, DropWs;
    PadDrops(pre, u);
  }

  lemma HeadElem(es: seq<Elem>, tail: string)
    requires es != []
    ensures
      var e := es[0];
      var rest := if |es| == 1 then "]" + tail else "," + (Joined(ElemTexts(es[1..])) + "]" + tail);
      Joined(ElemTexts(es)) + "]" + tail == e.pre + (ObjectLayout(e.items) + (e.post + rest))
  {
    hide ObjectLayout;
    assert ElemTexts(es)[1..] == ElemTexts(es[1..]);
  }

  ghost predicate ElemsYield<T(!new)>(f: FieldFn<T>, blank: T, es: seq<Elem>, values: seq<T>)
    requires Advances(f)
  {
    && |es| == |values|
    && forall i :: 0 <= i < |es| ==> AllWs(es[i].pre) && AllWs(es[i].post) && Yields(f, blank, es[i].items, values[i])
  }

  /** One object of the array, with the white space around it and what separates it from the rest. */
  lemma ElementTaken<T(!new)>(f: FieldFn<T>, blank: T, e: Elem, value: T, have: seq<T>, rest: string)
    requires Advances(f) && Yields(f, blank, e.items, value) && AllWs(e.pre) && AllWs(e.post)
    requires rest != "" && (rest[0] == ',' || rest[0] == ']')
    ensures
      Elements(f, blank, Cursor(e.pre + (ObjectLayout(e.items) + (e.post + rest)), true), have) ==
      Elements(f, blank, Cursor(if rest[0] == ']' then rest else rest[1..], true), have + [value])
  {
    hide Advances, Elements, OneElement, Yields, ObjectLayout, AllWs;
    StartsBraced(e.items, e.post + rest);
    ElementsStep(f, blank, e.pre, ObjectLayout(e.items) + (e.post + rest), have);
    OneElementReads(f, blank, e, value, have, rest);
  }

  lemma ElementsEnd<T(!new)>(f: FieldFn<T>, blank: T, tail: string, have: seq<T>)
    requires Advances(f)
    ensures Elements(f, blank, Cursor("]" + tail, true), have) == Loop(have, Cursor("]" + tail, true), false)
  {
    hide Advances, Elements;
    NoPad();
    assert "" + ("]" + tail) == "]" + tail;
    ElementsStep(f, blank, "", "]" + tail, have);
  }

  lemma {:induction false} ElementsRead<T(!new)>(
      f: FieldFn<T>, blank: T, es: seq<Elem>, values: seq<T>, have: seq<T>, tail: string)
    requires Advances(f) && ElemsYield(f, blank, es, values)
    ensures
      Elements(f, blank, Cursor(Joined(ElemTexts(es)) + "]" + tail, true), have) ==
      Loop(have + values, Cursor("]" + tail, true), false)
    decreases |es|
  {
    hide Advances, Elements, Yields, ObjectLayout, ElemTexts, Joined, AllWs;
    if es == [] {
      NoneJoined(tail);
      ElementsEnd(f, blank, tail, have);
      assert have + values == have;
    } else {
      var rest := if |es| == 1 then "]" + tail else "," + (Joined(ElemTexts(es[1..])) + "]" + tail);
      HeadElem(es, tail);
      ElementTaken(f, blank, es[0], values[0], have, rest);
      ElementsRead(f, blank, es[1..], values[1..], have + [values[0]], tail);
      Regroup(have, values);
      if |es| == 1 {
        NoneJoined(tail);
      } else {
        assert rest[1..] == Joined(ElemTexts(es[1..])) + "]" + tail;
      }
    }
  }

  lemma NoneJoined(tail: string)
    ensures Joined(ElemTexts([])) + "]" + tail == "]" + tail
  {
    assert ElemTexts([]) == [];
  }

  lemma Regroup<T>(have: seq<T>, values: seq<T>)
    requires values != []
    ensures have + [values[0]] + values[1..] == have + values
  {
  }

  lemma StartsBraced(items: seq<Item>, rest: string)
    ensures (ObjectLayout(items) + rest)[0] == '{' && !IsWs('{')
  {
  }

  lemma ArrayReads<T(!new)>(
      f: FieldFn<T>, blank: T, es: seq<Elem>, pad: string, values: seq<T>, lead: string, rest: string, have: seq<T>)
    requires Advances(f) && ElemsYield(f, blank, es, values) && AllWs(pad) && AllWs(lead)
    ensures ReadArray(f, blank, Cursor(lead + ArrayLayout(es, pad) + rest, true), have) ==
      Loop(have + values, Cursor(rest, true), false)
  {
    hide Elements, Yields, Eat, ElemTexts, Joined, AllWs;
    var body := if es == [] then pad else Joined(ElemTexts(es));
    var inner := body + "]" + rest;
    assert lead + ArrayLayout(es, pad) + rest == lead + (['['] + inner);
    EatsAfter(lead, '[', inner);
    if es == [] {
      assert inner == pad + ("]" + rest);
      ElementsStep(f, blank, pad, "]" + rest, have);
      assert have + values == have;
    } else {
      ElementsRead(f, blank, es, values, have, rest);
    }
    NoPad();
    EatsAfter("", ']', rest);
    assert "" + ([']'] + rest) == "]" + rest;
  }

  // ---- the layout that is printed ----

  function Plainly(ms: seq<Member>): (items: seq<Item>)
    ensures |items| == |ms|
    ensures forall i :: 0 <= i < |ms| ==> items[i] == Item("", Escape(ms[i].key), "", "", ms[i].text, "")
  {
    seq(|ms|, i requires 0 <= i < |ms| => Item("", Escape(ms[i].key), "", "", ms[i].text, ""))
  }

  lemma PrintedObject(ms: seq<Member>)
    ensures ObjectText(ms) == ObjectLayout(Plainly(ms))
  {
    hide Escape, Joined;
    var items := Plainly(ms);
    forall i | 0 <= i < |ms| ensures MemberText(ms[i]) == ItemText(items[i]) {
      assert "" + ":" + ("" + ms[i].text) == ":" + ms[i].text;
    }
    assert MemberTexts(ms) == ItemTexts(items);
  }

  function PlainElems(objects: seq<seq<Member>>): (es: seq<Elem>)
    ensures |es| == |objects| && forall i :: 0 <= i < |es| ==> es[i] == Elem("", Plainly(objects[i]), "")
  {
    seq(|objects|, i requires 0 <= i < |objects| => Elem("", Plainly(objects[i]), ""))
  }

  lemma PrintedArray(objects: seq<seq<Member>>)
    ensures ArrayText(objects) == ArrayLayout(PlainElems(objects), "")
  {
    hide Joined, ObjectText, ObjectLayout;
    var es := PlainElems(objects);
    forall i | 0 <= i < |objects| ensures ObjectText(objects[i]) == ElemText(es[i]) {
      PrintedObject(objects[i]);
    }
    assert ObjectTexts(objects) == ElemTexts(es);
    JoinedEmpty();
  }
}
