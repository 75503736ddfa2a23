/** Which members a document may carry besides its own: exactly those whose key the parser does not
    read as one it knows. A key literal with a `\u` escape at or above 0x80 is read as something
    other than what it names, so some members that no reader should know are not ignored. */
module JsonUnknown {
  import opened Messages
  import opened Decimal
  import opened Json
  import opened JsonValues
  import opened JsonLayout
  import opened JsonRoundTrip

  /** A literal without such escapes that names no known key is not read as one. */
  lemma NamedUnknown(body: string, known: set<string>)
    requires BodyOk(body) && AsciiEscapes(body)
    requires forall key :: key in known ==> Name(body) != Codes(key)
    ensures Decode(body) !in known
  {
    hide BodyOk, AsciiEscapes, Name, Decode;
    DecodesNameExactly(body);
  }

  // ---- every known key can be given another value ----

  lemma NumberIsJson(n: nat)
    ensures IsJson(ToString(n))
  {
    hide ToString;
    assert Text(Token(ToString(n))) == ToString(n) && ValueOk(Token(ToString(n)));
  }

  function OtherNumber(n: nat): nat {
    if n == 0 then 1 else 0
  }

  lemma OtherNumberRead(n: nat)
    ensures NumberRead(OtherNumber(n), ToString(OtherNumber(n))) && IsJson(ToString(OtherNumber(n)))
  {
    hide NumberRead, ToString, IsJson;
    NumberTakes(OtherNumber(n));
    NumberIsJson(OtherNumber(n));
  }

  lemma TextRead(s: string)
    ensures StringRead(s, Quoted(s)) && IsJson(Quoted(s))
  {
    hide StringRead, Spells, Quoted, IsJson;
    QuotedSpells(s);
    StringTakes(Quoted(s), s);
  }

  lemma BufferedAltered(b: BufferedResponse, key: string)
    requires key in BUFFERED_KEYS
    ensures Alterable(BufferedField, key, b)
  {
    hide ReadString, Json.ReadU64, SkipValue, ToString, Quoted, DropWs, AllWs, Follows, IsJson;
    if key == "payload" {
      var s := if b.payload == "" then "x" else "";
      TextRead(s);
      assert Takes(BufferedField, key, Quoted(s), b, b.(payload := s));
    } else if key == "seq" {
      OtherNumberRead(b.id);
      assert Takes(BufferedField, key, ToString(OtherNumber(b.id)), b, b.(id := OtherNumber(b.id)));
    } else {
      OtherNumberRead(b.hash);
      assert Takes(BufferedField, key, ToString(OtherNumber(b.hash)), b, b.(hash := OtherNumber(b.hash)));
    }
  }

  lemma EventAltered(e: ReplayEvent, key: string)
    requires key in EVENT_KEYS
    ensures Alterable(EventField, key, e)
  {
    hide ReadString, Json.ReadU64, SkipValue, ToString, Quoted, DropWs, AllWs, Follows, IsJson;
    if key == "t" {
      var s := if e.isResponse then "R" else "r";
      TextRead(s);
      assert Takes(EventField, key, Quoted(s), e, e.(isResponse := !e.isResponse));
    } else if key == "payload" {
      var s := if e.payload == "" then "x" else "";
      TextRead(s);
      assert Takes(EventField, key, Quoted(s), e, e.(payload := s));
    } else if key == "seq" {
      OtherNumberRead(e.id);
      assert Takes(EventField, key, ToString(OtherNumber(e.id)), e, e.(id := OtherNumber(e.id)));
    } else {
      OtherNumberRead(e.hash);
      assert Takes(EventField, key, ToString(OtherNumber(e.hash)), e, e.(hash := OtherNumber(e.hash)));
    }
  }

  /** An array of one object that says nothing. */
  const ONE_BLANK := "[{}]"

  lemma OneBlankIsJson()
    ensures IsJson(ONE_BLANK) && ONE_BLANK == ArrayLayout([Elem("", [], "")], "")
  {
    var v := Arr(LastElem("", EmptyObj(""), ""));
    assert ValueOk(v) && Text(v) == ONE_BLANK;
    var e := Elem("", [], "");
    assert ItemTexts([]) == [] && ElemTexts([e]) == [ElemText(e)];
    assert ElemText(e) == "{}";
  }

  lemma BlankYields<T(!new)>(f: FieldFn<T>, blank: T)
    requires Advances(f)
    ensures ElemsYield(f, blank, [Elem("", [], "")], [blank])
  {
    hide Members, Advances, ItemTexts, Joined;
    forall tail
      ensures Members(f, Cursor(Joined(ItemTexts([])) + "}" + tail, true), blank) ==
              Loop(blank, Cursor("}" + tail, true), false)
    {
      MembersChain(f, [], [blank], tail);
    }
    NoPad();
  }

  lemma OneBlankRead<T(!new)>(f: FieldFn<T>, blank: T, lead: string, rest: string, have: seq<T>)
    requires Advances(f) && AllWs(lead)
    ensures ReadArray(f, blank, Cursor(lead + ONE_BLANK + rest, true), have) ==
      Loop(have + [blank], Cursor(rest, true), false)
  {
    hide ReadArray, ArrayLayout, ElemsYield, Advances, AllWs;
    OneBlankIsJson();
    BlankYields(f, blank);
    NoPad();
    ArrayReads(f, blank, [Elem("", [], "")], "", [blank], lead, rest, have);
  }

  lemma BufferGrows(cp: Checkpoint)
    ensures Takes(CheckpointField, "buffer", ONE_BLANK, cp, cp.(buffer := cp.buffer + [BLANK_BUFFERED]))
  {
    hide ReadArray, Advances, DropWs, AllWs, Follows, BufferedField;
    FieldsAdvance();
    forall lead, follow | AllWs(lead) && Follows(follow)
      ensures Took(CheckpointField("buffer", Cursor(lead + ONE_BLANK + follow, true), cp),
                   cp.(buffer := cp.buffer + [BLANK_BUFFERED]), follow)
    {
      OneBlankRead(BufferedField, BLANK_BUFFERED, lead, follow, cp.buffer);
    }
  }

  lemma CheckpointAltered(cp: Checkpoint, key: string)
    requires key in CHECKPOINT_KEYS
    ensures Alterable(CheckpointField, key, cp)
  {
    hide ReadArray, Json.ReadU64, SkipValue, ToString, DropWs, AllWs, Follows, IsJson;
    if key == "committed_upto" {
      var n := OtherNumber(cp.committedUpto);
      OtherNumberRead(cp.committedUpto);
      assert Takes(CheckpointField, key, ToString(n), cp, cp.(committedUpto := n));
    } else if key == "event_count" {
      var n := OtherNumber(cp.eventCount);
      OtherNumberRead(cp.eventCount);
      assert Takes(CheckpointField, key, ToString(n), cp, cp.(eventCount := n));
    } else if key == "history_hash" {
      var n := OtherNumber(cp.historyHash);
      OtherNumberRead(cp.historyHash);
      assert Takes(CheckpointField, key, ToString(n), cp, cp.(historyHash := n));
    } else {
      OneBlankIsJson();
      BufferGrows(cp);
    }
  }

  lemma EventsGrow(rp: Replay)
    ensures Takes(ReplayField, "events", ONE_BLANK, rp, rp.(events := rp.events + [BLANK_EVENT]))
  {
    hide ReadArray, Advances, DropWs, AllWs, Follows, EventField;
    FieldsAdvance();
    forall lead, follow | AllWs(lead) && Follows(follow)
      ensures Took(ReplayField("events", Cursor(lead + ONE_BLANK + follow, true), rp),
                   rp.(events := rp.events + [BLANK_EVENT]), follow)
    {
      OneBlankRead(EventField, BLANK_EVENT, lead, follow, rp.events);
    }
  }

  lemma FromChanges(rp: Replay, n: nat)
    requires Fits(n)
    ensures Takes(ReplayField, "from", ToString(n), rp, rp.(from := n))
  {
    hide ReadArray, Json.ReadU64, SkipValue, ToString, DropWs, AllWs, Follows;
    NumberTakes(n);
  }

  lemma ReplayAltered(rp: Replay, key: string)
    requires key in REPLAY_KEYS
    ensures Alterable(ReplayField, key, rp)
  {
    hide Takes, ToString, IsJson;
    if key == "from" {
      NumberIsJson(OtherNumber(rp.from));
      FromChanges(rp, OtherNumber(rp.from));
    } else {
      OneBlankIsJson();
      EventsGrow(rp);
      assert |rp.events + [BLANK_EVENT]| > |rp.events|;
      assert Takes(ReplayField, key, ONE_BLANK, rp, rp.(events := rp.events + [BLANK_EVENT]));
    }
  }

  // ---- one more member ----

  /** In an object of the buffer, a member with this key literal changes nothing, whatever its
      value, exactly when its key is not read as a known one. */
  lemma BufferedExtraExactly(b: BufferedResponse, items: seq<Item>, body: string)
    requires Advances(BufferedField) && Fits(b.id) && Fits(b.hash) && Lays(BufferedShape(b), items, {}) && BodyOk(body)
    ensures
      (forall text :: IsJson(text) ==> Yields(BufferedField, BLANK_BUFFERED, items + [Extra(body, text)], b)) <==>
      Decode(body) !in BUFFERED_KEYS
  {
    hide Advances, Handles, Lays, Yields, IsJson, Alterable, BodyOk, Decode;
    BufferedHandled(b);
    forall key | key in BUFFERED_KEYS ensures Alterable(BufferedField, key, b) {
      BufferedAltered(b, key);
    }
    ExtraIgnoredExactly(BufferedField, BufferedShape(b), items, body);
  }

  lemma EventExtraExactly(e: ReplayEvent, items: seq<Item>, body: string)
    requires Advances(EventField) && Fits(e.id) && (e.isResponse ==> Fits(e.hash))
    requires Lays(EventShape(e), items, {}) && BodyOk(body)
    ensures
      (forall text :: IsJson(text) ==> Yields(EventField, BLANK_EVENT, items + [Extra(body, text)], Printed(e))) <==>
      Decode(body) !in EVENT_KEYS
  {
    hide Advances, Handles, Lays, Yields, IsJson, Alterable, BodyOk, Decode;
    EventHandled(e);
    forall key | key in EVENT_KEYS ensures Alterable(EventField, key, Printed(e)) {
      EventAltered(Printed(e), key);
    }
    ExtraIgnoredExactly(EventField, EventShape(e), items, body);
  }

  /** What a document reads as once its members do. */
  lemma CheckpointYields(items: seq<Item>, cp: Checkpoint)
    requires Advances(CheckpointField) && Yields(CheckpointField, Checkpoint(0, 0, 0, []), items, cp)
    ensures ParseCheckpoint(ObjectLayout(items)) == Json.Outcome(true, cp)
  {
    hide Advances, Yields, ReadObject, CheckpointField, ObjectLayout;
    DocumentsAdvance();
    NoPad();
    ObjectReads(CheckpointField, Checkpoint(0, 0, 0, []), "", items, cp, "");
    assert "" + ObjectLayout(items) + "" == ObjectLayout(items);
  }

  lemma ReplayYields(items: seq<Item>, rp: Replay)
    requires Advances(ReplayField) && Yields(ReplayField, Replay(0, []), items, rp)
    ensures ParseReplay(ObjectLayout(items)) == Json.Outcome(true, rp)
  {
    hide Advances, Yields, ReadObject, ReplayField, ObjectLayout;
    DocumentsAdvance();
    NoPad();
    ObjectReads(ReplayField, Replay(0, []), "", items, rp, "");
    assert "" + ObjectLayout(items) + "" == ObjectLayout(items);
  }

  /** A checkpoint with one more member reads as itself, whatever the member's value, exactly when
      its key is not read as a known one. */
  lemma CheckpointExtraExactly(cp: Checkpoint, items: seq<Item>, body: string)
    requires CheckpointFits(cp) && Lays(CheckpointShape(cp), items, {}) && BodyOk(body)
    ensures
      (forall text :: IsJson(text) ==>
         ParseCheckpoint(ObjectLayout(items + [Extra(body, text)])) == Json.Outcome(true, cp)) <==>
      Decode(body) !in CHECKPOINT_KEYS
  {
    hide Advances, Handles, Lays, Yields, IsJson, BodyOk, Decode, ParseCheckpoint, CheckpointFits, Takes, ObjectLayout;
    DocumentsAdvance();
    CheckpointHandled(cp);
    NoPad();
    if Decode(body) in CHECKPOINT_KEYS {
      CheckpointAltered(cp, Decode(body));
      var text, other :| IsJson(text) && other != cp && Takes(CheckpointField, Decode(body), text, cp, other);
      ExtraTaken(CheckpointField, CheckpointShape(cp), items, Extra(body, text), other);
      CheckpointYields(items + [Extra(body, text)], other);
    } else {
      forall text | IsJson(text)
        ensures ParseCheckpoint(ObjectLayout(items + [Extra(body, text)])) == Json.Outcome(true, cp)
      {
        LaysMore(CheckpointShape(cp), items, {}, Extra(body, text));
        LaidYields(CheckpointField, CheckpointShape(cp), items + [Extra(body, text)]);
        CheckpointYields(items + [Extra(body, text)], cp);
      }
    }
  }

  lemma ReplayExtraExactly(rp: Replay, items: seq<Item>, body: string)
    requires ReplayFits(rp) && Lays(ReplayShape(rp), items, {}) && BodyOk(body)
    ensures
      (forall text :: IsJson(text) ==>
         ParseReplay(ObjectLayout(items + [Extra(body, text)])) ==
         Json.Outcome(true, Replay(rp.from, PrintedEvents(rp.events)))) <==>
      Decode(body) !in REPLAY_KEYS
  {
    hide Advances, Handles, Lays, Yields, IsJson, BodyOk, Decode, ParseReplay, ReplayFits, Takes, ObjectLayout;
    DocumentsAdvance();
    ReplayHandled(rp);
    NoPad();
    var read := Replay(rp.from, PrintedEvents(rp.events));
    if Decode(body) in REPLAY_KEYS {
      ReplayAltered(read, Decode(body));
      var text, other :| IsJson(text) && other != read && Takes(ReplayField, Decode(body), text, read, other);
      ExtraTaken(ReplayField, ReplayShape(rp), items, Extra(body, text), other);
      ReplayYields(items + [Extra(body, text)], other);
    } else {
      forall text | IsJson(text)
        ensures ParseReplay(ObjectLayout(items + [Extra(body, text)])) == Json.Outcome(true, read)
      {
        LaysMore(ReplayShape(rp), items, {}, Extra(body, text));
        LaidYields(ReplayField, ReplayShape(rp), items + [Extra(body, text)]);
        ReplayYields(items + [Extra(body, text)], read);
      }
    }
  }

  // ---- a member that no reader should know, and that is not ignored ----

  const ACCENTED := "\\u00e9from"

  lemma AccentedReads()
    ensures BodyOk(ACCENTED) && !AsciiEscapes(ACCENTED) && Decode(ACCENTED) == "from" && Name(ACCENTED) != Codes("from")
  {
    var b := ACCENTED;
    assert b[6..] == "from" && b[2..6] == "00e9" && Hex4("00e9") == 0xe9;
    FromReads();
    assert BodyOk(b) && !AsciiEscapes(b);
    assert StringTurn(b) == ("", 6);
    assert Decode(b) == "" + Decode("from");
    DecodesNameExactly(b);
  }

  lemma FromReads()
    ensures BodyOk("from") && Decode("from") == "from"
  {
    assert "from"[1..] == "rom" && "rom"[1..] == "om" && "om"[1..] == "m" && "m"[1..] == "";
    assert Decode("m") == "m" && Decode("om") == "om" && Decode("rom") == "rom";
    assert BodyOk("m") && BodyOk("om") && BodyOk("rom");
  }

  /** It overwrites the one it is not. */
  lemma AccentedOverwrites(n: nat, m: nat)
    requires Fits(n) && Fits(m)
    ensures
      ParseReplay(ObjectLayout([Extra("from", ToString(n)), Extra(ACCENTED, ToString(m))])) ==
      Json.Outcome(true, Replay(m, []))
  {
    hide Advances, ParseReplay, Takes, ObjectLayout, Members, ItemTexts, Joined, BodyOk, Decode, ToString;
    var items := [Extra("from", ToString(n)), Extra(ACCENTED, ToString(m))];
    var outs := [Replay(0, []), Replay(n, []), Replay(m, [])];
    AccentedReads();
    FromReads();
    NoPad();
    FromChanges(outs[0], n);
    FromChanges(outs[1], m);
    DocumentsAdvance();
    assert Chained(ReplayField, items, outs);
    forall tail
      ensures Members(ReplayField, Cursor(Joined(ItemTexts(items)) + "}" + tail, true), outs[0]) ==
              Loop(outs[2], Cursor("}" + tail, true), false)
    {
      MembersChain(ReplayField, items, outs, tail);
    }
    ReplayYields(items, outs[2]);
  }
}
