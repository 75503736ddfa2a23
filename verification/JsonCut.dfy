/** A document that breaks off is rejected: no strict prefix of a checkpoint or a replay, however it
    is laid out, is accepted. */
module JsonCut {
  import opened Messages
  import opened Decimal
  import opened Json
  import opened JsonValues
  import opened JsonScalars
  import opened JsonLayout
  import opened JsonRoundTrip

  // ---- values that break off ----

  lemma {:induction false} WsOnly(u: string)
    requires AllWs(u)
    ensures DropWs(u) == ""
  {
    if u != "" {
      WsOnly(u[1..]);
    }
  }

  lemma WsPrefix(u: string, pad: string)
    requires AllWs(pad) && u <= pad
    ensures AllWs(u) && DropWs(u) == ""
  {
    WsOnly(u);
  }

  /** There is nothing left to read, or an error. */
  ghost predicate Spent(c: Cursor) {
    !c.ok || DropWs(c.text) == ""
  }

  lemma {:induction false} DropAll(w: string)
    requires forall i :: 0 <= i < |w| ==> w[i] != ',' && w[i] != '}' && w[i] != ']'
    ensures DropScalar(w) == ""
  {
    if w != "" {
      DropAll(w[1..]);
    }
  }

  lemma TokenCut(t: string, post: string, w: string)
    requires (forall i :: 0 <= i < |t| ==> IsTokenChar(t[i])) && AllWs(post) && w <= t + post
    requires w != "" && !IsWs(w[0]) && w[0] != '"' && w[0] != '{' && w[0] != '['
    ensures Spent(SkipValue(Cursor(w, true)))
  {
    hide SkipNest, ReadString, DropWs, DropScalar;
    NoWs(w);
    assert forall i :: 0 <= i < |w| ==> w[i] == (t + post)[i];
    DropAll(w);
    NoWs("");
  }

  lemma StringCut(b: string, post: string, w: string)
    requires BodyOk(b) && AllWs(post) && w <= Literal(b) + post
    ensures Spent(ReadString(Cursor(w, true)).cur)
  {
    hide ReadString, BodyOk, DropWs, AllWs;
    if |w| < |Literal(b)| {
      assert w <= Literal(b);
      LiteralCut(b, w, true);
    } else {
      var v := w[|Literal(b)|..];
      assert w == Literal(b) + v && v <= post;
      ReadLiteral(b, v, true);
      WsPrefix(v, post);
    }
  }

  lemma NestCut(inner: string, o: char, c: char, post: string, w: string)
    requires Sound(inner) && IsBracketPair(o, c) && AllWs(post) && w <= [o] + inner + [c] + post && w != ""
    ensures Spent(SkipValue(Cursor(w, true)))
  {
    hide SkipNest, SkipValue, Balanced, DropWs, AllWs;
    assert w[0] == o;
    SkipValueOpens(w);
    var v := w[1..];
    if |v| <= |inner| {
      assert v <= inner;
      InnerCut(inner, o, c, v);
    } else {
      var rest := v[|inner| + 1..];
      assert v == inner + [c] + rest && rest <= post;
      SkipBracketed(inner, rest, o, c);
      WsPrefix(rest, post);
    }
  }

  lemma InnerCut(inner: string, o: char, c: char, v: string)
    requires RunsOut(inner) && IsBracketPair(o, c) && v <= inner
    ensures SkipNest(Cursor(v, true), o, c, 1).text == "" && DropWs("") == ""
  {
    hide SkipNest;
  }

  /** The text of a value starts with something. */
  lemma TextStarts(v: Value)
    requires ValueOk(v)
    ensures Text(v) != "" && !IsWs(Text(v)[0])
  {
  }

  lemma BareCut(v: Value, post: string, w: string)
    requires ValueOk(v) && AllWs(post) && w <= Text(v) + post && w != ""
    ensures Spent(SkipValue(Cursor(w, true)))
  {
    hide SkipValue, Sound, BodyOk, AllWs, DropWs;
    TextStarts(v);
    match v
    case Token(t) => TokenHere(t, post, w);
    case Str(b) => StringHere(b, post, w);
    case EmptyArr(pad) =>
      WsSound(pad);
      assert Text(v) == ['['] + pad + [']'];
      NestCut(pad, '[', ']', post, w);
    case Arr(es) =>
      ElemsSound(es);
      assert Text(v) == ['['] + ElemsText(es) + [']'];
      NestCut(ElemsText(es), '[', ']', post, w);
    case EmptyObj(pad) =>
      WsSound(pad);
      assert Text(v) == ['{'] + pad + ['}'];
      NestCut(pad, '{', '}', post, w);
    case Obj(fs) =>
      FieldsSound(fs);
      assert Text(v) == ['{'] + FieldsText(fs) + ['}'];
      NestCut(FieldsText(fs), '{', '}', post, w);
  }

  lemma WsSound(pad: string)
    requires AllWs(pad)
    ensures Sound(pad)
  {
    hide Sound;
    SoundPlain(pad);
  }

  lemma TokenHere(t: string, post: string, w: string)
    requires t != "" && (forall i :: 0 <= i < |t| ==> IsTokenChar(t[i])) && AllWs(post) && w <= t + post && w != ""
    ensures Spent(SkipValue(Cursor(w, true)))
  {
    hide SkipValue, AllWs, DropWs;
    assert w[0] == t[0] && IsTokenChar(t[0]);
    TokenCut(t, post, w);
  }

  lemma StringHere(b: string, post: string, w: string)
    requires BodyOk(b) && AllWs(post) && w <= Literal(b) + post && w != ""
    ensures Spent(SkipValue(Cursor(w, true)))
  {
    hide ReadString, BodyOk, AllWs, SkipNest, DropScalar, DropWs;
    assert w[0] == '"';
    NoWs(w);
    StringCut(b, post, w);
  }

  /** A well-formed value that breaks off, or is followed by nothing, leaves nothing to read. */
  lemma ValueCut(v: Value, lead: string, post: string, u: string)
    requires ValueOk(v) && AllWs(lead) && AllWs(post) && u <= lead + Text(v) + post
    ensures Spent(SkipValue(Cursor(u, true)))
  {
    hide SkipValue, ValueOk, Text, AllWs, DropWs;
    if |u| <= |lead| {
      assert u <= lead;
      WsPrefix(u, lead);
      NothingSkipped(u);
    } else {
      var w := u[|lead|..];
      assert u == lead + w && w <= Text(v) + post;
      LeadIgnored(lead, w);
      BareCut(v, post, w);
    }
  }

  lemma NothingSkipped(u: string)
    requires DropWs(u) == ""
    ensures Spent(SkipValue(Cursor(u, true)))
    ensures Spent(ReadString(Cursor(u, true)).cur) && Spent(Json.ReadU64(Cursor(u, true)).cur)
  {
    hide ScanString, SkipNest, DropScalar, StrToULL;
  }

  lemma {:induction false} NumberRunAll(ds: string)
    requires AllDigits(ds)
    ensures NumberRun(ds) == |ds|
    decreases |ds|
  {
    if ds != "" {
      NumberRunAll(ds[1..]);
    }
  }

  lemma DigitsCut(ds: string, post: string, w: string)
    requires AllDigits(ds) && AllWs(post) && w <= ds + post && w != "" && ds != ""
    ensures Spent(Json.ReadU64(Cursor(w, true)).cur)
  {
    hide StrToULL, NumberRun, DropWs;
    assert w[0] == ds[0];
    NoWs(w);
    if |w| <= |ds| {
      assert w <= ds;
      assert forall i :: 0 <= i < |w| ==> w[i] == ds[i];
      NumberRunAll(w);
      NoWs("");
    } else {
      var v := w[|ds|..];
      assert w == ds + v && v <= post;
      WsPrefix(v, post);
      NumberRunStops(ds, v);
    }
  }

  lemma NumberCut(n: nat, lead: string, post: string, u: string)
    requires AllWs(lead) && AllWs(post) && u <= lead + ToString(n) + post
    ensures Spent(Json.ReadU64(Cursor(u, true)).cur)
  {
    hide Json.ReadU64, ToString, AllWs, DropWs;
    if |u| <= |lead| {
      assert u <= lead;
      WsPrefix(u, lead);
      NothingSkipped(u);
    } else {
      var w := u[|lead|..];
      assert u == lead + w && w <= ToString(n) + post;
      LeadIgnored(lead, w);
      DigitsCut(ToString(n), post, w);
    }
  }

  lemma SpelledCut(text: string, s: string, lead: string, post: string, u: string)
    requires Spells(text, s) && AllWs(lead) && AllWs(post) && u <= lead + text + post
    ensures Spent(ReadString(Cursor(u, true)).cur)
  {
    hide ReadString, BodyOk, Decode, Literal, AllWs, DropWs;
    var b :| BodyOk(b) && Decode(b) == s && text == Literal(b);
    if |u| <= |lead| {
      assert u <= lead;
      WsPrefix(u, lead);
      NothingSkipped(u);
    } else {
      var w := u[|lead|..];
      assert u == lead + w && w <= text + post;
      LeadIgnored(lead, w);
      StringCut(b, post, w);
    }
  }

  // ---- members that break off ----

  /** Nothing that follows could be accepted. */
  ghost predicate Lost<T(!new)>(r: Loop<T>) {
    r.aborted || Spent(r.cur)
  }

  ghost predicate Rejected<T(!new)>(r: Loop<T>) {
    r.aborted || !r.cur.ok
  }

  /** Handling a member whose value breaks off leaves nothing to read. */
  ghost predicate Cuts<T(!new)>(f: FieldFn<T>, key: string, text: string, out: T) {
    forall lead, post, u :: AllWs(lead) && AllWs(post) && u <= lead + text + post ==> Lost(f(key, Cursor(u, true), out))
  }

  ghost predicate HandlesCut<T(!new)>(f: FieldFn<T>, sh: Shape<T>) {
    && (forall key, text, seen :: key in sh.own && key !in seen && seen <= sh.own && sh.right(key, text) ==>
          Cuts(f, key, text, sh.part(seen)))
    && (forall key, text, out :: key !in sh.known && IsJson(text) ==> Cuts(f, key, text, out))
  }

  lemma NoSeparator(c: Cursor, close: char)
    requires Spent(c)
    ensures !Peek(c, close).hit || !Peek(c, close).cur.ok
    ensures var p := Peek(c, close); !(if p.hit then p.cur else Eat(p.cur, ',').cur).ok
  {
    hide DropWs;
    WsTwice(c.text);
  }

  lemma NoColon(u: string, ok: bool)
    requires DropWs(u) == ""
    ensures !Eat(Cursor(u, ok), ':').hit
  {
  }

  lemma OneMemberCut<T(!new)>(f: FieldFn<T>, it: Item, out: T, u: string)
    requires Advances(f) && PadsOk(it) && Cuts(f, Key(it), it.text, out) && u <= Bare(it) + it.post
    ensures Rejected(OneMember(f, Cursor(u, true), out))
  {
    hide ReadString, Literal, BodyOk, Decode, DropWs, Eat, Peek, AllWs, Cuts;
    var colon := it.mid + ":" + (it.lead + it.text);
    if |u| < |Literal(it.body)| {
      assert u <= Literal(it.body);
      LiteralCut(it.body, u, true);
      NothingLeft();
      NoColon("", false);
    } else {
      var v := u[|Literal(it.body)|..];
      assert Bare(it) + it.post == Literal(it.body) + (colon + it.post);
      assert u == Literal(it.body) + v && v <= colon + it.post;
      ReadLiteral(it.body, v, true);
      if |v| <= |it.mid| {
        assert v <= it.mid;
        WsPrefix(v, it.mid);
        NoColon(v, true);
      } else {
        var w := v[|it.mid| + 1..];
        assert v == it.mid + ([':'] + w) && w <= it.lead + it.text + it.post;
        EatsAfter(it.mid, ':', w);
        ValueLost(f, it, out, w);
        AfterValue(f, Key(it), Cursor(w, true), out);
      }
    }
  }

  lemma NothingLeft()
    ensures DropWs("") == ""
  {
  }

  lemma ValueLost<T(!new)>(f: FieldFn<T>, it: Item, out: T, w: string)
    requires PadsOk(it) && Cuts(f, Key(it), it.text, out) && w <= it.lead + it.text + it.post
    ensures Lost(f(Key(it), Cursor(w, true), out))
  {
    hide AllWs, Lost, BodyOk, Decode;
  }

  lemma AfterValue<T(!new)>(f: FieldFn<T>, key: string, c: Cursor, out: T)
    requires Lost(f(key, c, out))
    ensures
      var field := f(key, c, out);
      field.aborted || var p := Peek(field.cur, '}'); !(if p.hit then p.cur else Eat(p.cur, ',').cur).ok
  {
    hide Peek, Eat, Spent;
    var field := f(key, c, out);
    if !field.aborted {
      NoSeparator(field.cur, '}');
    }
  }

  // ---- objects that break off ----

  /** A loop that meets an error, or runs out of text, is not left in a good state. */
  lemma MembersFail<T(!new)>(f: FieldFn<T>, pre: string, v: string, out: T)
    requires Advances(f) && AllWs(pre) && (v == "" || (!IsWs(v[0]) && v[0] != '}'))
    requires Rejected(OneMember(f, Cursor(v, true), out))
    ensures Rejected(Members(f, Cursor(pre + v, true), out))
  {
    hide OneMember, DropWs;
    WsLead(pre, v);
    NoWs(v);
    var m := OneMember(f, Cursor(v, true), out);
    OneMemberAdvances(f, Cursor(v, true), out);
    if !m.aborted {
      MembersAdvance(f, m.cur, m.out);
    }
  }

  lemma NoMember<T(!new)>(f: FieldFn<T>, out: T)
    ensures OneMember(f, Cursor("", true), out).aborted
  {
    hide ReadString;
    NothingRead(true);
  }

  lemma {:induction false} MembersCut<T(!new)>(
      f: FieldFn<T>, sh: Shape<T>, items: seq<Item>, seen: set<string>, u: string)
    requires Advances(f) && Handles(f, sh) && HandlesCut(f, sh) && Lays(sh, items, seen) && seen <= sh.own
    requires u <= Joined(ItemTexts(items))
    ensures Rejected(Members(f, Cursor(u, true), sh.part(seen)))
    decreases |items|
  {
    hide Advances, Members, OneMember, Takes, Cuts, Bare, Handles, HandlesCut;
    hide ItemTexts, Joined, IsJson, Rejected, AllWs;
    hide BodyOk, Key;
    NoPad();
    NoMember(f, sh.part(seen));
    if items == [] {
      NoItems();
      JoinedEmpty();
      AbortedRejected(OneMember(f, Cursor("", true), sh.part(seen)));
      MembersFail(f, "", "", sh.part(seen));
      assert "" + "" == u;
    } else {
      var it := items[0];
      var seen' := if Key(it) in sh.known then seen + {Key(it)} else seen;
      ItemTaken(f, sh, it, seen);
      ItemCut(f, sh, it, seen);
      var whole := it.pre + (Bare(it) + it.post);
      FirstText(items);
      if |u| <= |whole| {
        HeadCut(f, it, sh.part(seen), u);
      } else {
        var w := u[|whole| + 1..];
        RestText(items, u, w);
        BareQuoted(it, it.post + ("," + w));
        MembersStep(f, it.pre, Bare(it) + (it.post + ("," + w)), sh.part(seen));
        OneMemberTakes(f, it, sh.part(seen), sh.part(seen'), "," + w);
        assert ("," + w)[1..] == w;
        MembersCut(f, sh, items[1..], seen', w);
      }
    }
  }

  lemma AbortedRejected<T(!new)>(r: Loop<T>)
    requires r.aborted
    ensures Rejected(r)
  {
  }

  lemma ItemCut<T(!new)>(f: FieldFn<T>, sh: Shape<T>, it: Item, seen: set<string>)
    requires HandlesCut(f, sh) && seen <= sh.own
    requires if Key(it) in sh.known
             then Key(it) in sh.own && Key(it) !in seen && sh.right(Key(it), it.text)
             else IsJson(it.text)
    ensures Cuts(f, Key(it), it.text, sh.part(seen))
  {
    hide Cuts, Key, IsJson;
  }

  lemma FirstText(items: seq<Item>)
    requires items != []
    ensures
      var it := items[0];
      var whole := it.pre + (Bare(it) + it.post);
      Joined(ItemTexts(items)) == whole + if |items| == 1 then "" else "," + Joined(ItemTexts(items[1..]))
  {
    hide Bare;
    assert ItemTexts(items)[1..] == ItemTexts(items[1..]);
  }

  /** The prefix reaches past the first member and its comma. */
  lemma RestText(items: seq<Item>, u: string, w: string)
    requires items != [] && u <= Joined(ItemTexts(items))
    requires
      var whole := items[0].pre + (Bare(items[0]) + items[0].post);
      |u| > |whole| && w == u[|whole| + 1..]
    ensures |items| > 1 && w <= Joined(ItemTexts(items[1..]))
    ensures u == items[0].pre + (Bare(items[0]) + (items[0].post + ("," + w)))
  {
    hide Bare, ItemTexts, Joined;
    var it := items[0];
    var whole := it.pre + (Bare(it) + it.post);
    FirstText(items);
    assert |items| > 1;
    var rest := Joined(ItemTexts(items[1..]));
    assert u <= whole + ("," + rest);
    assert u[..|whole|] == whole && u[|whole|] == ',';
    assert u == whole + ("," + w);
  }

  lemma HeadCut<T(!new)>(f: FieldFn<T>, it: Item, out: T, u: string)
    requires Advances(f) && PadsOk(it) && Cuts(f, Key(it), it.text, out) && u <= it.pre + (Bare(it) + it.post)
    ensures Rejected(Members(f, Cursor(u, true), out))
  {
    hide Members, OneMember, Cuts, Advances, AllWs, BodyOk, Key, Bare;
    if |u| <= |it.pre| {
      assert u <= it.pre;
      WsPrefix(u, it.pre);
      NoMember(f, out);
      MembersFail(f, u, "", out);
      assert u + "" == u;
    } else {
      var v := u[|it.pre|..];
      assert u == it.pre + v && v <= Bare(it) + it.post;
      BareQuoted(it, it.post);
      OneMemberCut(f, it, out, v);
      MembersFail(f, it.pre, v, out);
    }
  }

  /** An object that breaks off anywhere before its closing brace is rejected. */
  lemma ObjectCut<T(!new)>(f: FieldFn<T>, sh: Shape<T>, pre: string, items: seq<Item>, u: string)
    requires Advances(f) && Handles(f, sh) && HandlesCut(f, sh) && Lays(sh, items, {}) && AllWs(pre)
    requires u <= pre + ObjectLayout(items) && |u| < |pre + ObjectLayout(items)|
    ensures Rejected(ReadObject(f, sh.part({}), Cursor(u, true)))
  {
    hide Members, Handles, HandlesCut, Lays, Advances, AllWs, ItemTexts, Joined, DropWs;
    var body := Joined(ItemTexts(items));
    if |u| <= |pre| {
      assert u <= pre;
      WsPrefix(u, pre);
    } else {
      var v := u[|pre| + 1..];
      assert u == pre + (['{'] + v) && v <= body;
      EatsAfter(pre, '{', v);
      MembersCut(f, sh, items, {}, v);
      var l := Members(f, Cursor(v, true), sh.part({}));
      EatAdvances(l.cur, '}');
    }
  }

  // ---- arrays that break off ----

  ghost predicate ElemsLaid<T(!new)>(f: FieldFn<T>, blank: T, es: seq<Elem>, shapes: seq<Shape<T>>)
    requires Advances(f)
  {
    && |es| == |shapes|
    && forall i :: 0 <= i < |es| ==> ElemLaid(f, blank, es[i], shapes[i])
  }

  ghost predicate ElemLaid<T(!new)>(f: FieldFn<T>, blank: T, e: Elem, sh: Shape<T>) {
    && AllWs(e.pre) && AllWs(e.post) && Handles(f, sh) && HandlesCut(f, sh) && Lays(sh, e.items, {})
    && sh.part({}) == blank
  }

  lemma ElementsFail<T(!new)>(f: FieldFn<T>, blank: T, pre: string, v: string, have: seq<T>)
    requires Advances(f) && AllWs(pre) && (v == "" || (!IsWs(v[0]) && v[0] != ']'))
    requires Rejected(OneElement(f, blank, Cursor(v, true), have))
    ensures Rejected(Elements(f, blank, Cursor(pre + v, true), have))
  {
    hide OneElement, DropWs;
    WsLead(pre, v);
    NoWs(v);
    var e := OneElement(f, blank, Cursor(v, true), have);
    OneElementAdvances(f, blank, Cursor(v, true), have);
    if !e.aborted {
      ElementsAdvance(f, blank, e.cur, e.out);
    }
  }

  lemma NoElement<T(!new)>(f: FieldFn<T>, blank: T, have: seq<T>)
    requires Advances(f)
    ensures OneElement(f, blank, Cursor("", true), have).aborted
  {
    hide Members;
  }

  /** One object of an array that breaks off, or that nothing follows. */
  lemma OneElementCut<T(!new)>(f: FieldFn<T>, blank: T, sh: Shape<T>, e: Elem, have: seq<T>, u: string)
    requires Advances(f) && ElemLaid(f, blank, e, sh) && u <= ObjectLayout(e.items) + e.post
    ensures Rejected(OneElement(f, blank, Cursor(u, true), have))
  {
    hide Members, Handles, HandlesCut, Lays, Advances, AllWs, ItemTexts, Joined, DropWs, Eat, Peek;
    NoPad();
    if u == "" {
      NoElement(f, blank, have);
    } else {
      var body := Joined(ItemTexts(e.items));
      var v := u[1..];
      assert u == "" + (['{'] + v) && v <= body + "}" + e.post;
      EatsAfter("", '{', v);
      if |v| <= |body| {
        assert v <= body;
        MembersCut(f, sh, e.items, {}, v);
        var l := Members(f, Cursor(v, true), blank);
        StaysBad(l.cur);
      } else {
        var rest := v[|body| + 1..];
        assert v == body + "}" + rest && rest <= e.post;
        LaidYields(f, sh, e.items);
        MembersRead(f, sh, e.items, {}, rest);
        ClosesObject(rest);
        WsPrefix(rest, e.post);
        NoSeparator(Cursor(rest, true), ']');
      }
    }
  }

  lemma StaysBad(c: Cursor)
    ensures !c.ok ==>
      var p := Peek(Eat(c, '}').cur, ']');
      !p.cur.ok && !Eat(p.cur, ',').cur.ok
  {
  }

  lemma {:induction false} ElementsCut<T(!new)>(
      f: FieldFn<T>, blank: T, es: seq<Elem>, shapes: seq<Shape<T>>, have: seq<T>, u: string)
    requires Advances(f) && ElemsLaid(f, blank, es, shapes) && u <= Joined(ElemTexts(es))
    ensures Rejected(Elements(f, blank, Cursor(u, true), have))
    decreases |es|
  {
    hide Advances, Elements, OneElement, ElemLaid, ObjectLayout, ElemTexts, Joined, AllWs, Rejected;
    NoPad();
    NoElement(f, blank, have);
    if es == [] {
      NoneJoined("");
      NoText();
      AbortedRejected(OneElement(f, blank, Cursor("", true), have));
      ElementsFail(f, blank, "", "", have);
      assert "" + "" == u;
    } else {
      var e := es[0];
      assert ElemLaid(f, blank, e, shapes[0]);
      var whole := e.pre + (ObjectLayout(e.items) + e.post);
      FirstElem(es);
      if |u| <= |whole| {
        HeadElemCut(f, blank, shapes[0], e, have, u);
      } else {
        var w := u[|whole| + 1..];
        RestElems(es, u, w);
        ElemReads(f, blank, shapes[0], e, have, "," + w);
        assert ("," + w)[1..] == w;
        ElementsCut(f, blank, es[1..], shapes[1..], have + [shapes[0].part(shapes[0].own)], w);
      }
    }
  }

  lemma NoText()
    ensures Joined(ElemTexts([])) == ""
  {
    assert ElemTexts([]) == [];
  }

  lemma ElemReads<T(!new)>(f: FieldFn<T>, blank: T, sh: Shape<T>, e: Elem, have: seq<T>, rest: string)
    requires Advances(f) && ElemLaid(f, blank, e, sh) && rest != "" && rest[0] == ','
    ensures
      Elements(f, blank, Cursor(e.pre + (ObjectLayout(e.items) + (e.post + rest)), true), have) ==
      Elements(f, blank, Cursor(rest[1..], true), have + [sh.part(sh.own)])
  {
    hide Elements, Handles, HandlesCut, Lays, Yields, Advances, AllWs, ObjectLayout;
    LaidYields(f, sh, e.items);
    ElementTaken(f, blank, e, sh.part(sh.own), have, rest);
  }

  lemma FirstElem(es: seq<Elem>)
    requires es != []
    ensures
      var e := es[0];
      var whole := e.pre + (ObjectLayout(e.items) + e.post);
      Joined(ElemTexts(es)) == whole + if |es| == 1 then "" else "," + Joined(ElemTexts(es[1..]))
  {
    hide ObjectLayout;
    assert ElemTexts(es)[1..] == ElemTexts(es[1..]);
  }

  lemma RestElems(es: seq<Elem>, u: string, w: string)
    requires es != [] && u <= Joined(ElemTexts(es))
    requires
      var whole := es[0].pre + (ObjectLayout(es[0].items) + es[0].post);
      |u| > |whole| && w == u[|whole| + 1..]
    ensures |es| > 1 && w <= Joined(ElemTexts(es[1..]))
    ensures u == es[0].pre + (ObjectLayout(es[0].items) + (es[0].post + ("," + w)))
  {
    hide ObjectLayout, ElemTexts, Joined;
    var whole := es[0].pre + (ObjectLayout(es[0].items) + es[0].post);
    FirstElem(es);
    assert |es| > 1;
    var rest := Joined(ElemTexts(es[1..]));
    assert u <= whole + ("," + rest);
    assert u[..|whole|] == whole && u[|whole|] == ',';
    assert u == whole + ("," + w);
  }

  lemma HeadElemCut<T(!new)>(f: FieldFn<T>, blank: T, sh: Shape<T>, e: Elem, have: seq<T>, u: string)
    requires Advances(f) && ElemLaid(f, blank, e, sh) && u <= e.pre + (ObjectLayout(e.items) + e.post)
    ensures Rejected(Elements(f, blank, Cursor(u, true), have))
  {
    hide Elements, OneElement, Advances, Handles, HandlesCut, Lays, AllWs, ObjectLayout;
    if |u| <= |e.pre| {
      assert u <= e.pre;
      WsPrefix(u, e.pre);
      NoElement(f, blank, have);
      ElementsFail(f, blank, u, "", have);
      assert u + "" == u;
    } else {
      var v := u[|e.pre|..];
      assert u == e.pre + v && v <= ObjectLayout(e.items) + e.post;
      StartsBraced(e.items, e.post);
      OneElementCut(f, blank, sh, e, have, v);
      ElementsFail(f, blank, e.pre, v, have);
    }
  }

  /** An array that breaks off, or that nothing follows, leaves nothing to read. */
  lemma ArrayCut<T(!new)>(
      f: FieldFn<T>, blank: T, es: seq<Elem>, shapes: seq<Shape<T>>, pad: string, values: seq<T>,
      lead: string, post: string, have: seq<T>, u: string)
    requires Advances(f) && ElemsLaid(f, blank, es, shapes) && ElemsYield(f, blank, es, values)
    requires AllWs(pad) && AllWs(lead) && AllWs(post) && u <= lead + ArrayLayout(es, pad) + post
    ensures Lost(ReadArray(f, blank, Cursor(u, true), have))
  {
    hide Elements, Yields, Eat, ElemTexts, ElemLaid, Joined, AllWs, DropWs, Advances, ElemsLaid, ElemsYield;
    var body := if es == [] then pad else Joined(ElemTexts(es));
    if |u| <= |lead| {
      assert u <= lead;
      WsPrefix(u, lead);
      NoBracket(u);
    } else if |u| <= |lead| + 1 + |body| {
      var v := u[|lead| + 1..];
      assert u == lead + (['['] + v) && v <= body;
      EatsAfter(lead, '[', v);
      BodyCut(f, blank, es, shapes, pad, have, v);
      EatAdvances(Elements(f, blank, Cursor(v, true), have).cur, ']');
    } else {
      var rest := u[|lead + ArrayLayout(es, pad)|..];
      assert u == lead + ArrayLayout(es, pad) + rest && rest <= post;
      WsPrefix(rest, post);
      ArrayReads(f, blank, es, pad, values, lead, rest, have);
    }
  }

  lemma NoBracket(u: string)
    requires DropWs(u) == ""
    ensures !Eat(Cursor(u, true), '[').hit && !Eat(Cursor(u, true), '{').hit
  {
  }

  lemma BodyCut<T(!new)>(
      f: FieldFn<T>, blank: T, es: seq<Elem>, shapes: seq<Shape<T>>, pad: string, have: seq<T>, v: string)
    requires Advances(f) && ElemsLaid(f, blank, es, shapes) && AllWs(pad)
    requires v <= if es == [] then pad else Joined(ElemTexts(es))
    ensures Rejected(Elements(f, blank, Cursor(v, true), have))
  {
    hide Elements, OneElement, ElemLaid, ElemTexts, Joined, AllWs, Advances;
    if es == [] {
      WsPrefix(v, pad);
      NoElement(f, blank, have);
      ElementsFail(f, blank, v, "", have);
      assert v + "" == v;
    } else {
      ElementsCut(f, blank, es, shapes, have, v);
    }
  }

  // ---- the structures ----

  lemma BufferedCuts(b: BufferedResponse, key: string, text: string, out: BufferedResponse)
    requires key in BUFFERED_KEYS && BufferedRight(b)(key, text)
    ensures Cuts(BufferedField, key, text, out)
  {
    hide ReadString, Json.ReadU64, SkipValue, ToString, Spells, AllWs, Spent;
    forall lead, post, u | AllWs(lead) && AllWs(post) && u <= lead + text + post
      ensures Lost(BufferedField(key, Cursor(u, true), out))
    {
      if key == "payload" {
        SpelledCut(text, b.payload, lead, post, u);
      } else {
        NumberCut(if key == "seq" then b.id else b.hash, lead, post, u);
      }
    }
  }

  lemma JsonCutsOff(text: string, lead: string, post: string, u: string)
    requires IsJson(text) && AllWs(lead) && AllWs(post) && u <= lead + text + post
    ensures Spent(SkipValue(Cursor(u, true)))
  {
    hide SkipValue, ValueOk, Text, AllWs;
    var v :| ValueOk(v) && Text(v) == text;
    ValueCut(v, lead, post, u);
  }

  lemma UnknownCut(key: string, text: string)
    requires IsJson(text)
    ensures key !in BUFFERED_KEYS ==> forall out :: Cuts(BufferedField, key, text, out)
    ensures key !in EVENT_KEYS ==> forall out :: Cuts(EventField, key, text, out)
    ensures key !in CHECKPOINT_KEYS ==> forall out :: Cuts(CheckpointField, key, text, out)
    ensures key !in REPLAY_KEYS ==> forall out :: Cuts(ReplayField, key, text, out)
  {
    hide ReadString, Json.ReadU64, ReadArray, SkipValue, IsJson, AllWs, Spent;
    forall lead, post, u | AllWs(lead) && AllWs(post) && u <= lead + text + post
      ensures Spent(SkipValue(Cursor(u, true)))
    {
      JsonCutsOff(text, lead, post, u);
    }
  }

  lemma BufferedHandledCut(b: BufferedResponse)
    ensures HandlesCut(BufferedField, BufferedShape(b))
  {
    hide Cuts, BufferedRight, BufferedPart, IsJson;
    var sh := BufferedShape(b);
    forall key, text, seen | key in sh.own && key !in seen && seen <= sh.own && sh.right(key, text)
      ensures Cuts(BufferedField, key, text, sh.part(seen))
    {
      BufferedCuts(b, key, text, sh.part(seen));
    }
    forall key, text, out | key !in sh.known && IsJson(text) ensures Cuts(BufferedField, key, text, out) {
      UnknownCut(key, text);
    }
  }

  lemma EventCuts(e: ReplayEvent, key: string, text: string, out: ReplayEvent)
    requires key in EVENT_KEYS && EventRight(e)(key, text)
    ensures Cuts(EventField, key, text, out)
  {
    hide ReadString, Json.ReadU64, SkipValue, ToString, Spells, AllWs, Spent;
    forall lead, post, u | AllWs(lead) && AllWs(post) && u <= lead + text + post
      ensures Lost(EventField(key, Cursor(u, true), out))
    {
      if key == "t" {
        SpelledCut(text, Kind(e), lead, post, u);
      } else if key == "payload" {
        SpelledCut(text, e.payload, lead, post, u);
      } else {
        NumberCut(if key == "seq" then e.id else e.hash, lead, post, u);
      }
    }
  }

  lemma EventHandledCut(e: ReplayEvent)
    ensures HandlesCut(EventField, EventShape(e))
  {
    hide Cuts, EventRight, EventPart, IsJson;
    var sh := EventShape(e);
    forall key, text, seen | key in sh.own && key !in seen && seen <= sh.own && sh.right(key, text)
      ensures Cuts(EventField, key, text, sh.part(seen))
    {
      EventCuts(e, key, text, sh.part(seen));
    }
    forall key, text, out | key !in sh.known && IsJson(text) ensures Cuts(EventField, key, text, out) {
      UnknownCut(key, text);
    }
  }

  ghost function BufferedShapes(bs: seq<BufferedResponse>): (shapes: seq<Shape<BufferedResponse>>)
    ensures |shapes| == |bs| && forall i :: 0 <= i < |bs| ==> shapes[i] == BufferedShape(bs[i])
  {
    seq(|bs|, i requires 0 <= i < |bs| => BufferedShape(bs[i]))
  }

  ghost function EventShapes(es: seq<ReplayEvent>): (shapes: seq<Shape<ReplayEvent>>)
    ensures |shapes| == |es| && forall i :: 0 <= i < |es| ==> shapes[i] == EventShape(es[i])
  {
    seq(|es|, i requires 0 <= i < |es| => EventShape(es[i]))
  }

  lemma BufferCut(
      text: string, bs: seq<BufferedResponse>, lead: string, post: string, have: seq<BufferedResponse>, u: string)
    requires Advances(BufferedField) && IsBuffer(text, bs) && BufferFits(bs)
    requires AllWs(lead) && AllWs(post) && u <= lead + text + post
    ensures Lost(ReadArray(BufferedField, BLANK_BUFFERED, Cursor(u, true), have))
  {
    hide Lays, Handles, HandlesCut, Yields, ReadArray, Advances, AllWs, ArrayLayout, Lost;
    var es: seq<Elem>, pad: string :| BufferLaid(es, bs) && AllWs(pad) && text == ArrayLayout(es, pad);
    var shapes := BufferedShapes(bs);
    forall i | 0 <= i < |es|
      ensures ElemLaid(BufferedField, BLANK_BUFFERED, es[i], shapes[i])
      ensures Yields(BufferedField, BLANK_BUFFERED, es[i].items, bs[i])
    {
      BufferedHandled(bs[i]);
      BufferedHandledCut(bs[i]);
      BufferedYields(bs[i], es[i].items);
    }
    ArrayCut(BufferedField, BLANK_BUFFERED, es, shapes, pad, bs, lead, post, have, u);
  }

  lemma EventsCut(text: string, es: seq<ReplayEvent>, lead: string, post: string, have: seq<ReplayEvent>, u: string)
    requires Advances(EventField) && IsEvents(text, es) && EventsFit(es)
    requires AllWs(lead) && AllWs(post) && u <= lead + text + post
    ensures Lost(ReadArray(EventField, BLANK_EVENT, Cursor(u, true), have))
  {
    hide Lays, Handles, HandlesCut, Yields, ReadArray, Advances, AllWs, ArrayLayout, Lost, Printed;
    var elems: seq<Elem>, pad: string :| EventsLaid(elems, es) && AllWs(pad) && text == ArrayLayout(elems, pad);
    var shapes := EventShapes(es);
    forall i | 0 <= i < |elems|
      ensures ElemLaid(EventField, BLANK_EVENT, elems[i], shapes[i])
      ensures Yields(EventField, BLANK_EVENT, elems[i].items, PrintedEvents(es)[i])
    {
      EventHandled(es[i]);
      EventHandledCut(es[i]);
      EventYields(es[i], elems[i].items);
    }
    ArrayCut(EventField, BLANK_EVENT, elems, shapes, pad, PrintedEvents(es), lead, post, have, u);
  }

  lemma CheckpointCuts(cp: Checkpoint, key: string, text: string, out: Checkpoint)
    requires CheckpointFits(cp) && key in CHECKPOINT_KEYS && CheckpointRight(cp)(key, text)
    ensures Cuts(CheckpointField, key, text, out)
  {
    hide ReadArray, Json.ReadU64, SkipValue, ToString, AllWs, Spent, IsBuffer, BufferFits, Advances;
    FieldsAdvance();
    forall lead, post, u | AllWs(lead) && AllWs(post) && u <= lead + text + post
      ensures Lost(CheckpointField(key, Cursor(u, true), out))
    {
      if key == "buffer" {
        BufferCut(text, cp.buffer, lead, post, out.buffer, u);
      } else {
        NumberCut(if key == "committed_upto" then cp.committedUpto
                  else if key == "event_count" then cp.eventCount else cp.historyHash, lead, post, u);
      }
    }
  }

  lemma CheckpointHandledCut(cp: Checkpoint)
    requires CheckpointFits(cp)
    ensures HandlesCut(CheckpointField, CheckpointShape(cp))
  {
    hide Cuts, CheckpointRight, CheckpointPart, IsJson, CheckpointFits;
    var sh := CheckpointShape(cp);
    forall key, text, seen | key in sh.own && key !in seen && seen <= sh.own && sh.right(key, text)
      ensures Cuts(CheckpointField, key, text, sh.part(seen))
    {
      CheckpointCuts(cp, key, text, sh.part(seen));
    }
    forall key, text, out | key !in sh.known && IsJson(text) ensures Cuts(CheckpointField, key, text, out) {
      UnknownCut(key, text);
    }
  }

  lemma ReplayCuts(rp: Replay, key: string, text: string, out: Replay)
    requires ReplayFits(rp) && key in REPLAY_KEYS && ReplayRight(rp)(key, text)
    ensures Cuts(ReplayField, key, text, out)
  {
    hide ReadArray, Json.ReadU64, SkipValue, ToString, AllWs, Spent, IsEvents, EventsFit, Advances;
    FieldsAdvance();
    forall lead, post, u | AllWs(lead) && AllWs(post) && u <= lead + text + post
      ensures Lost(ReplayField(key, Cursor(u, true), out))
    {
      if key == "events" {
        EventsCut(text, rp.events, lead, post, out.events, u);
      } else {
        NumberCut(rp.from, lead, post, u);
      }
    }
  }

  lemma ReplayHandledCut(rp: Replay)
    requires ReplayFits(rp)
    ensures HandlesCut(ReplayField, ReplayShape(rp))
  {
    hide Cuts, ReplayRight, ReplayPart, IsJson, ReplayFits;
    var sh := ReplayShape(rp);
    forall key, text, seen | key in sh.own && key !in seen && seen <= sh.own && sh.right(key, text)
      ensures Cuts(ReplayField, key, text, sh.part(seen))
    {
      ReplayCuts(rp, key, text, sh.part(seen));
    }
    forall key, text, out | key !in sh.known && IsJson(text) ensures Cuts(ReplayField, key, text, out) {
      UnknownCut(key, text);
    }
  }

  // ---- the documents ----

  /** A checkpoint, however it is laid out, that breaks off anywhere before its closing brace is
      rejected. */
  lemma CheckpointCut(cp: Checkpoint, pre: string, items: seq<Item>, u: string)
    requires CheckpointFits(cp) && AllWs(pre) && Lays(CheckpointShape(cp), items, {})
    requires u <= pre + ObjectLayout(items) && |u| < |pre + ObjectLayout(items)|
    ensures !ParseCheckpoint(u).ok
  {
    hide Lays, Handles, HandlesCut, Advances, ReadObject, CheckpointField, CheckpointFits, ObjectLayout;
    DocumentsAdvance();
    CheckpointHandled(cp);
    CheckpointHandledCut(cp);
    ObjectCut(CheckpointField, CheckpointShape(cp), pre, items, u);
  }

  lemma ReplayCut(rp: Replay, pre: string, items: seq<Item>, u: string)
    requires ReplayFits(rp) && AllWs(pre) && Lays(ReplayShape(rp), items, {})
    requires u <= pre + ObjectLayout(items) && |u| < |pre + ObjectLayout(items)|
    ensures !ParseReplay(u).ok
  {
    hide Lays, Handles, HandlesCut, Advances, ReadObject, ReplayField, ReplayFits, ObjectLayout;
    DocumentsAdvance();
    ReplayHandled(rp);
    ReplayHandledCut(rp);
    ObjectCut(ReplayField, ReplayShape(rp), pre, items, u);
  }

  /** So of a printed checkpoint only the whole is accepted. */
  lemma PrintedCheckpointWhole(cp: Checkpoint, u: string)
    requires CheckpointFits(cp) && u <= CheckpointText(cp)
    ensures ParseCheckpoint(u).ok <==> u == CheckpointText(cp)
  {
    hide ParseCheckpoint, CheckpointMembers, ObjectText, ObjectLayout, Lays, CheckpointFits, CheckpointShape;
    var ms := [Member("version", "1")] + CheckpointMembers(cp, BufferItems(cp.buffer));
    CheckpointRoundTrip(cp);
    CheckpointLaid(cp);
    PrintedObject(ms);
    NoPad();
    assert "" + ObjectLayout(Plainly(ms)) == CheckpointText(cp);
    if |u| < |CheckpointText(cp)| {
      CheckpointCut(cp, "", Plainly(ms), u);
    }
  }

  lemma PrintedReplayWhole(rp: Replay, u: string)
    requires ReplayFits(rp) && u <= ReplayText(rp)
    ensures ParseReplay(u).ok <==> u == ReplayText(rp)
  {
    hide ParseReplay, ReplayMembers, ObjectText, ObjectLayout, Lays, ReplayFits, ReplayShape;
    var ms := ReplayMembers(rp, EventItems(rp.events));
    ReplayRoundTripsExactly(rp);
    ReplayLaid(rp);
    PrintedObject(ms);
    NoPad();
    assert "" + ObjectLayout(Plainly(ms)) == ReplayText(rp);
    if |u| < |ReplayText(rp)| {
      ReplayCut(rp, "", Plainly(ms), u);
    }
  }
}
