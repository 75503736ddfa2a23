/** Parsing what was printed returns it, and neither the layout of a document nor members the
    parser does not know change what is read. */
module JsonRoundTrip {
  import opened Messages
  import opened Decimal
  import opened Client
  import opened Json
  import opened JsonValues
  import opened JsonScalars
  import opened JsonLayout

  ghost predicate Fits(n: nat) {
    n < TWO_TO_THE_64
  }

  // ---- values, with white space around them ----

  lemma FollowsEnds(follow: string)
    requires Follows(follow)
    ensures EndsNumber(follow) && Stops(follow)
  {
  }

  ghost predicate NumberRead(n: nat, text: string) {
    forall lead, follow :: AllWs(lead) && Follows(follow) ==>
      Json.ReadU64(Cursor(lead + text + follow, true)) == Read(n, Cursor(follow, true))
  }

  lemma NumberTakes(n: nat)
    requires Fits(n)
    ensures NumberRead(n, ToString(n))
  {
    hide Json.ReadU64, ToString, Follows, AllWs;
    forall lead, follow | AllWs(lead) && Follows(follow)
      ensures Json.ReadU64(Cursor(lead + ToString(n) + follow, true)) == Read(n, Cursor(follow, true))
    {
      assert lead + ToString(n) + follow == lead + (ToString(n) + follow);
      LeadIgnored(lead, ToString(n) + follow);
      FollowsEnds(follow);
      NumberReadsBack(n, follow);
    }
  }

  ghost predicate StringRead(s: string, text: string) {
    forall lead, follow :: AllWs(lead) && Follows(follow) ==>
      ReadString(Cursor(lead + text + follow, true)) == Read(s, Cursor(follow, true))
  }

  /** A string literal that reads as s, in any spelling. */
  ghost predicate Spells(text: string, s: string) {
    exists b :: BodyOk(b) && Decode(b) == s && text == Literal(b)
  }

  lemma QuotedSpells(s: string)
    ensures Spells(Quoted(s), s) && IsJson(Quoted(s))
  {
    hide Escape, Decode, BodyOk, Literal;
    EscapeDecodes(s);
    assert Text(Str(Escape(s))) == Quoted(s) && ValueOk(Str(Escape(s)));
  }

  lemma StringTakes(text: string, s: string)
    requires Spells(text, s)
    ensures StringRead(s, text)
  {
    hide ReadString, Literal, BodyOk, Decode, Follows, AllWs;
    var b :| BodyOk(b) && Decode(b) == s && text == Literal(b);
    forall lead, follow | AllWs(lead) && Follows(follow)
      ensures ReadString(Cursor(lead + text + follow, true)) == Read(s, Cursor(follow, true))
    {
      assert lead + text + follow == lead + (text + follow);
      LeadIgnored(lead, text + follow);
      ReadLiteral(b, follow, true);
    }
  }

  ghost predicate Skipped(text: string) {
    forall lead, follow :: AllWs(lead) && Follows(follow) ==>
      Ws(SkipValue(Cursor(lead + text + follow, true))) == Ws(Cursor(follow, true))
  }

  lemma SkipsJson(text: string)
    requires IsJson(text)
    ensures Skipped(text)
  {
    hide SkipValue, Follows, AllWs, Ws, ValueOk, Text, Stops;
    var v :| ValueOk(v) && Text(v) == text;
    forall lead, follow | AllWs(lead) && Follows(follow)
      ensures Ws(SkipValue(Cursor(lead + text + follow, true))) == Ws(Cursor(follow, true))
    {
      assert lead + text + follow == lead + (text + follow);
      LeadIgnored(lead, text + follow);
      FollowsEnds(follow);
      SkipsValue(v, follow);
    }
  }

  // ---- buffered responses ----

  const BUFFERED_KEYS := {"seq", "payload", "hash"}

  ghost function BufferedRight(b: BufferedResponse): (string, string) -> bool {
    (key: string, text: string) =>
      && (key == "seq" ==> text == ToString(b.id))
      && (key == "payload" ==> Spells(text, b.payload))
      && (key == "hash" ==> text == ToString(b.hash))
  }

  ghost function BufferedPart(b: BufferedResponse): set<string> -> BufferedResponse {
    (seen: set<string>) =>
      BufferedResponse(if "seq" in seen then b.id else 0, if "payload" in seen then b.payload else "",
                       if "hash" in seen then b.hash else 0)
  }

  ghost function BufferedShape(b: BufferedResponse): Shape<BufferedResponse> {
    Shape(BUFFERED_KEYS, BUFFERED_KEYS, BufferedRight(b), BufferedPart(b))
  }

  lemma BufferedTakes(b: BufferedResponse, key: string, text: string, seen: set<string>)
    requires Fits(b.id) && Fits(b.hash) && key in BUFFERED_KEYS && key !in seen && BufferedRight(b)(key, text)
    ensures Takes(BufferedField, key, text, BufferedPart(b)(seen), BufferedPart(b)(seen + {key}))
  {
    hide ReadString, Json.ReadU64, SkipValue, ToString, Spells, DropWs, AllWs, Follows;
    if key == "payload" {
      StringTakes(text, b.payload);
    } else {
      NumberTakes(if key == "seq" then b.id else b.hash);
    }
  }

  lemma BufferedIgnores(key: string, text: string, out: BufferedResponse)
    requires key !in BUFFERED_KEYS && IsJson(text)
    ensures Takes(BufferedField, key, text, out, out)
  {
    hide ReadString, Json.ReadU64, SkipValue, DropWs, AllWs, Follows, IsJson;
    SkipsJson(text);
  }

  lemma BufferedHandled(b: BufferedResponse)
    requires Fits(b.id) && Fits(b.hash)
    ensures Handles(BufferedField, BufferedShape(b))
  {
    hide Takes, BufferedRight, BufferedPart, IsJson;
    var sh := BufferedShape(b);
    forall key, text, seen | key in sh.own && key !in seen && seen <= sh.own && sh.right(key, text)
      ensures Takes(BufferedField, key, text, sh.part(seen), sh.part(seen + {key}))
    {
      BufferedTakes(b, key, text, seen);
    }
    forall key, text, out | key !in sh.known && IsJson(text)
      ensures Takes(BufferedField, key, text, out, out)
    {
      BufferedIgnores(key, text, out);
    }
  }

  // ---- events ----

  const EVENT_KEYS := {"t", "seq", "payload", "hash"}

  /** What is left of an event after printing: a request carries neither payload nor hash. */
  function Printed(e: ReplayEvent): ReplayEvent {
    if e.isResponse then e else ReplayEvent(false, e.id, "", 0)
  }

  function Kind(e: ReplayEvent): string {
    if e.isResponse then "r" else "R"
  }

  ghost function EventRight(e: ReplayEvent): (string, string) -> bool {
    (key: string, text: string) =>
      && (key == "t" ==> Spells(text, Kind(e)))
      && (key == "seq" ==> text == ToString(e.id))
      && (key == "payload" ==> Spells(text, e.payload))
      && (key == "hash" ==> text == ToString(e.hash))
  }

  ghost function EventPart(e: ReplayEvent): set<string> -> ReplayEvent {
    (seen: set<string>) =>
      ReplayEvent("t" in seen && e.isResponse, if "seq" in seen then e.id else 0,
                  if "payload" in seen then e.payload else "", if "hash" in seen then e.hash else 0)
  }

  ghost function EventShape(e: ReplayEvent): Shape<ReplayEvent> {
    Shape(EVENT_KEYS, if e.isResponse then EVENT_KEYS else {"t", "seq"}, EventRight(e), EventPart(e))
  }

  lemma EventTakes(e: ReplayEvent, key: string, text: string, seen: set<string>)
    requires Fits(e.id) && key in EventShape(e).own && key !in seen && EventRight(e)(key, text)
    requires e.isResponse ==> Fits(e.hash)
    ensures Takes(EventField, key, text, EventPart(e)(seen), EventPart(e)(seen + {key}))
  {
    hide ReadString, Json.ReadU64, SkipValue, ToString, Spells, DropWs, AllWs, Follows;
    if key == "t" {
      StringTakes(text, Kind(e));
    } else if key == "payload" {
      StringTakes(text, e.payload);
    } else {
      NumberTakes(if key == "seq" then e.id else e.hash);
    }
  }

  lemma EventIgnores(key: string, text: string, out: ReplayEvent)
    requires key !in EVENT_KEYS && IsJson(text)
    ensures Takes(EventField, key, text, out, out)
  {
    hide ReadString, Json.ReadU64, SkipValue, DropWs, AllWs, Follows, IsJson;
    SkipsJson(text);
  }

  lemma EventHandled(e: ReplayEvent)
    requires Fits(e.id) && (e.isResponse ==> Fits(e.hash))
    ensures Handles(EventField, EventShape(e))
  {
    hide Takes, EventRight, EventPart, IsJson;
    var sh := EventShape(e);
    forall key, text, seen | key in sh.own && key !in seen && seen <= sh.own && sh.right(key, text)
      ensures Takes(EventField, key, text, sh.part(seen), sh.part(seen + {key}))
    {
      EventTakes(e, key, text, seen);
    }
    forall key, text, out | key !in sh.known && IsJson(text)
      ensures Takes(EventField, key, text, out, out)
    {
      EventIgnores(key, text, out);
    }
  }

  // ---- checkpoints ----

  const CHECKPOINT_KEYS := {"committed_upto", "event_count", "history_hash", "buffer"}

  ghost predicate BufferLaid(es: seq<Elem>, bs: seq<BufferedResponse>) {
    && |es| == |bs|
    && forall i :: 0 <= i < |es| ==>
         AllWs(es[i].pre) && AllWs(es[i].post) && Lays(BufferedShape(bs[i]), es[i].items, {})
  }

  /** The text of an array that says what is buffered, laid out in any way. */
  ghost predicate IsBuffer(text: string, bs: seq<BufferedResponse>) {
    exists es, pad :: BufferLaid(es, bs) && AllWs(pad) && text == ArrayLayout(es, pad)
  }

  ghost function CheckpointRight(cp: Checkpoint): (string, string) -> bool {
    (key: string, text: string) =>
      && (key == "committed_upto" ==> text == ToString(cp.committedUpto))
      && (key == "event_count" ==> text == ToString(cp.eventCount))
      && (key == "history_hash" ==> text == ToString(cp.historyHash))
      && (key == "buffer" ==> IsBuffer(text, cp.buffer))
  }

  ghost function CheckpointPart(cp: Checkpoint): set<string> -> Checkpoint {
    (seen: set<string>) =>
      Checkpoint(if "committed_upto" in seen then cp.committedUpto else 0,
                 if "event_count" in seen then cp.eventCount else 0,
                 if "history_hash" in seen then cp.historyHash else 0,
                 if "buffer" in seen then cp.buffer else [])
  }

  ghost function CheckpointShape(cp: Checkpoint): Shape<Checkpoint> {
    Shape(CHECKPOINT_KEYS, CHECKPOINT_KEYS, CheckpointRight(cp), CheckpointPart(cp))
  }

  ghost predicate BufferFits(bs: seq<BufferedResponse>) {
    forall i :: 0 <= i < |bs| ==> Fits(bs[i].id) && Fits(bs[i].hash)
  }

  ghost predicate CheckpointFits(cp: Checkpoint) {
    Fits(cp.committedUpto) && Fits(cp.eventCount) && Fits(cp.historyHash) && BufferFits(cp.buffer)
  }

  lemma BufferedYields(b: BufferedResponse, items: seq<Item>)
    requires Advances(BufferedField) && Fits(b.id) && Fits(b.hash) && Lays(BufferedShape(b), items, {})
    ensures Yields(BufferedField, BLANK_BUFFERED, items, b)
  {
    hide Lays, Handles, Yields, Advances;
    BufferedHandled(b);
    LaidYields(BufferedField, BufferedShape(b), items);
  }

  lemma BufferReads(text: string, bs: seq<BufferedResponse>, lead: string, rest: string)
    requires Advances(BufferedField) && IsBuffer(text, bs) && BufferFits(bs) && AllWs(lead)
    ensures ReadArray(BufferedField, BLANK_BUFFERED, Cursor(lead + text + rest, true), []) ==
      Loop(bs, Cursor(rest, true), false)
  {
    hide Lays, Yields, ReadArray, Advances, AllWs, ArrayLayout, BufferedShape;
    var es: seq<Elem>, pad: string :| BufferLaid(es, bs) && AllWs(pad) && text == ArrayLayout(es, pad);
    forall i | 0 <= i < |es| ensures Yields(BufferedField, BLANK_BUFFERED, es[i].items, bs[i]) {
      BufferedYields(bs[i], es[i].items);
    }
    ArrayReads(BufferedField, BLANK_BUFFERED, es, pad, bs, lead, rest, []);
    assert [] + bs == bs;
  }

  lemma CheckpointTakesBuffer(cp: Checkpoint, text: string, before: Checkpoint)
    requires BufferFits(cp.buffer) && IsBuffer(text, cp.buffer) && before.buffer == []
    ensures Takes(CheckpointField, "buffer", text, before, before.(buffer := cp.buffer))
  {
    hide ReadArray, Advances, DropWs, AllWs, Follows, IsBuffer, BufferFits, BufferedField;
    FieldsAdvance();
    forall lead, follow | AllWs(lead) && Follows(follow)
      ensures Took(CheckpointField("buffer", Cursor(lead + text + follow, true), before),
                   before.(buffer := cp.buffer), follow)
    {
      BufferReads(text, cp.buffer, lead, follow);
    }
  }

  lemma CheckpointTakes(cp: Checkpoint, key: string, text: string, seen: set<string>)
    requires CheckpointFits(cp) && key in CHECKPOINT_KEYS && key !in seen && CheckpointRight(cp)(key, text)
    ensures Takes(CheckpointField, key, text, CheckpointPart(cp)(seen), CheckpointPart(cp)(seen + {key}))
  {
    hide ReadArray, Json.ReadU64, SkipValue, ToString, DropWs, AllWs, Follows, IsBuffer, BufferFits;
    if key == "buffer" {
      CheckpointTakesBuffer(cp, text, CheckpointPart(cp)(seen));
    } else {
      NumberTakes(if key == "committed_upto" then cp.committedUpto
                  else if key == "event_count" then cp.eventCount else cp.historyHash);
    }
  }

  lemma CheckpointIgnores(key: string, text: string, out: Checkpoint)
    requires key !in CHECKPOINT_KEYS && IsJson(text)
    ensures Takes(CheckpointField, key, text, out, out)
  {
    hide ReadArray, Json.ReadU64, SkipValue, DropWs, AllWs, Follows, IsJson;
    SkipsJson(text);
  }

  lemma CheckpointHandled(cp: Checkpoint)
    requires CheckpointFits(cp)
    ensures Handles(CheckpointField, CheckpointShape(cp))
  {
    hide Takes, CheckpointRight, CheckpointPart, IsJson, CheckpointFits;
    var sh := CheckpointShape(cp);
    forall key, text, seen | key in sh.own && key !in seen && seen <= sh.own && sh.right(key, text)
      ensures Takes(CheckpointField, key, text, sh.part(seen), sh.part(seen + {key}))
    {
      CheckpointTakes(cp, key, text, seen);
    }
    forall key, text, out | key !in sh.known && IsJson(text)
      ensures Takes(CheckpointField, key, text, out, out)
    {
      CheckpointIgnores(key, text, out);
    }
  }

  /** However a checkpoint is laid out - white space between tokens, its members and those of its
      buffer in any order, members with unrecognised keys and well-formed values anywhere among
      them, anything after it - it is read as that checkpoint. */
  lemma CheckpointTolerant(cp: Checkpoint, pre: string, items: seq<Item>, tail: string)
    requires CheckpointFits(cp) && AllWs(pre) && Lays(CheckpointShape(cp), items, {})
    ensures ParseCheckpoint(pre + ObjectLayout(items) + tail) == Json.Outcome(true, cp)
  {
    hide Lays, Handles, Yields, Advances, ReadObject, CheckpointField, CheckpointFits, ObjectLayout;
    DocumentsAdvance();
    CheckpointHandled(cp);
    LaidYields(CheckpointField, CheckpointShape(cp), items);
    ObjectReads(CheckpointField, Checkpoint(0, 0, 0, []), pre, items, cp, tail);
  }

  // ---- what is printed is such a layout ----

  ghost function Keys(ms: seq<Member>): set<string> {
    set i | 0 <= i < |ms| :: ms[i].key
  }

  /** Own members, each once and rightly said, printed one after another. */
  lemma {:induction false} LaysOwn<T>(sh: Shape<T>, ms: seq<Member>, seen: set<string>)
    requires sh.own <= sh.known && sh.own == seen + Keys(ms)
    requires forall i :: 0 <= i < |ms| ==> ms[i].key !in seen && sh.right(ms[i].key, ms[i].text)
    requires forall i, j :: 0 <= i < j < |ms| ==> ms[i].key != ms[j].key
    ensures Lays(sh, Plainly(ms), seen)
    decreases |ms|
  {
    hide IsJson, Escape, BodyOk, Decode;
    if ms != [] {
      var m, rest := ms[0], ms[1..];
      assert Plainly(ms)[1..] == Plainly(rest);
      assert m.key in Keys(ms);
      assert forall i :: 0 <= i < |rest| ==> rest[i] == ms[i + 1];
      forall k ensures k in seen + Keys(ms) <==> k in seen + {m.key} + Keys(rest) {
        if i :| 0 <= i < |ms| && ms[i].key == k && i > 0 {
          assert rest[i - 1].key == k;
        }
        if i :| 0 <= i < |rest| && rest[i].key == k {
          assert ms[i + 1].key == k;
        }
      }
      LaysOwn(sh, rest, seen + {m.key});
      EscapeDecodes(m.key);
    } else {
      assert seen == sh.own;
    }
  }

  lemma BufferedLaid(b: BufferedResponse)
    ensures Lays(BufferedShape(b), Plainly(BufferedMembers(b)), {})
  {
    hide Lays, ToString, Quoted, Spells, Plainly;
    var sh, ms := BufferedShape(b), BufferedMembers(b);
    QuotedSpells(b.payload);
    assert Keys(ms) == {ms[0].key, ms[1].key, ms[2].key};
    LaysOwn(sh, ms, {});
  }

  lemma PrintedBuffer(bs: seq<BufferedResponse>)
    ensures IsBuffer(ArrayText(BufferItems(bs)), bs)
  {
    hide Lays, BufferedMembers, BufferedShape, ArrayText, ArrayLayout;
    var items := BufferItems(bs);
    var es := PlainElems(items);
    NoPad();
    forall i | 0 <= i < |es| ensures Lays(BufferedShape(bs[i]), es[i].items, {}) {
      BufferedLaid(bs[i]);
    }
    PrintedArray(items);
    assert BufferLaid(es, bs);
  }

  lemma CheckpointOwn(cp: Checkpoint)
    ensures Lays(CheckpointShape(cp), Plainly(CheckpointMembers(cp, BufferItems(cp.buffer))), {})
  {
    hide Lays, ToString, IsBuffer, ArrayText, BufferItems, Plainly;
    var sh, ms := CheckpointShape(cp), CheckpointMembers(cp, BufferItems(cp.buffer));
    PrintedBuffer(cp.buffer);
    assert Keys(ms) == {ms[0].key, ms[1].key, ms[2].key, ms[3].key};
    LaysOwn(sh, ms, {});
  }

  lemma CheckpointLaid(cp: Checkpoint)
    ensures
      var ms := [Member("version", "1")] + CheckpointMembers(cp, BufferItems(cp.buffer));
      Lays(CheckpointShape(cp), Plainly(ms), {})
  {
    hide CheckpointMembers, Escape, BodyOk, Decode, IsJson;
    var own := CheckpointMembers(cp, BufferItems(cp.buffer));
    CheckpointOwn(cp);
    OneIsJson();
    EscapeDecodes("version");
    assert Plainly([Member("version", "1")] + own)[1..] == Plainly(own);
  }

  lemma OneIsJson()
    ensures IsJson("1")
  {
    assert Text(Token("1")) == "1" && ValueOk(Token("1"));
  }

  /** Every checkpoint of 64-bit values survives printing and parsing, whatever its payloads. */
  lemma CheckpointRoundTrip(cp: Checkpoint)
    requires CheckpointFits(cp)
    ensures ParseCheckpoint(CheckpointText(cp)) == Json.Outcome(true, cp)
  {
    hide ParseCheckpoint, CheckpointMembers, ObjectText, ObjectLayout, Lays, CheckpointFits, CheckpointShape;
    var ms := [Member("version", "1")] + CheckpointMembers(cp, BufferItems(cp.buffer));
    CheckpointLaid(cp);
    PrintedObject(ms);
    NoPad();
    CheckpointTolerant(cp, "", Plainly(ms), "");
    assert "" + ObjectLayout(Plainly(ms)) + "" == CheckpointText(cp);
  }

  // ---- replays ----

  const REPLAY_KEYS := {"from", "events"}

  function PrintedEvents(es: seq<ReplayEvent>): (out: seq<ReplayEvent>)
    ensures |out| == |es| && forall i :: 0 <= i < |es| ==> out[i] == Printed(es[i])
  {
    seq(|es|, i requires 0 <= i < |es| => Printed(es[i]))
  }

  ghost predicate EventsLaid(elems: seq<Elem>, es: seq<ReplayEvent>) {
    && |elems| == |es|
    && forall i :: 0 <= i < |elems| ==>
         AllWs(elems[i].pre) && AllWs(elems[i].post) && Lays(EventShape(es[i]), elems[i].items, {})
  }

  ghost predicate IsEvents(text: string, es: seq<ReplayEvent>) {
    exists elems, pad :: EventsLaid(elems, es) && AllWs(pad) && text == ArrayLayout(elems, pad)
  }

  ghost function ReplayRight(rp: Replay): (string, string) -> bool {
    (key: string, text: string) =>
      (key == "from" ==> text == ToString(rp.from)) && (key == "events" ==> IsEvents(text, rp.events))
  }

  ghost function ReplayPart(rp: Replay): set<string> -> Replay {
    (seen: set<string>) =>
      Replay(if "from" in seen then rp.from else 0, if "events" in seen then PrintedEvents(rp.events) else [])
  }

  ghost function ReplayShape(rp: Replay): Shape<Replay> {
    Shape(REPLAY_KEYS, REPLAY_KEYS, ReplayRight(rp), ReplayPart(rp))
  }

  ghost predicate EventsFit(es: seq<ReplayEvent>) {
    forall i :: 0 <= i < |es| ==> Fits(es[i].id) && (es[i].isResponse ==> Fits(es[i].hash))
  }

  ghost predicate ReplayFits(rp: Replay) {
    Fits(rp.from) && EventsFit(rp.events)
  }

  lemma EventYields(e: ReplayEvent, items: seq<Item>)
    requires Advances(EventField) && Fits(e.id) && (e.isResponse ==> Fits(e.hash)) && Lays(EventShape(e), items, {})
    ensures Yields(EventField, BLANK_EVENT, items, Printed(e))
  {
    hide Lays, Handles, Yields, Advances;
    EventHandled(e);
    LaidYields(EventField, EventShape(e), items);
  }

  lemma EventsRead(text: string, es: seq<ReplayEvent>, lead: string, rest: string)
    requires Advances(EventField) && IsEvents(text, es) && EventsFit(es) && AllWs(lead)
    ensures ReadArray(EventField, BLANK_EVENT, Cursor(lead + text + rest, true), []) ==
      Loop(PrintedEvents(es), Cursor(rest, true), false)
  {
    hide Lays, Yields, ReadArray, Advances, AllWs, ArrayLayout, EventShape, Printed;
    var elems: seq<Elem>, pad: string :| EventsLaid(elems, es) && AllWs(pad) && text == ArrayLayout(elems, pad);
    forall i | 0 <= i < |elems| ensures Yields(EventField, BLANK_EVENT, elems[i].items, Printed(es[i])) {
      EventYields(es[i], elems[i].items);
    }
    ArrayReads(EventField, BLANK_EVENT, elems, pad, PrintedEvents(es), lead, rest, []);
    assert [] + PrintedEvents(es) == PrintedEvents(es);
  }

  lemma ReplayTakesEvents(rp: Replay, text: string, before: Replay)
    requires EventsFit(rp.events) && IsEvents(text, rp.events) && before.events == []
    ensures Takes(ReplayField, "events", text, before, before.(events := PrintedEvents(rp.events)))
  {
    hide ReadArray, Advances, DropWs, AllWs, Follows, IsEvents, EventsFit, EventField, PrintedEvents;
    FieldsAdvance();
    forall lead, follow | AllWs(lead) && Follows(follow)
      ensures Took(ReplayField("events", Cursor(lead + text + follow, true), before),
                   before.(events := PrintedEvents(rp.events)), follow)
    {
      EventsRead(text, rp.events, lead, follow);
    }
  }

  lemma ReplayTakes(rp: Replay, key: string, text: string, seen: set<string>)
    requires ReplayFits(rp) && key in REPLAY_KEYS && key !in seen && ReplayRight(rp)(key, text)
    ensures Takes(ReplayField, key, text, ReplayPart(rp)(seen), ReplayPart(rp)(seen + {key}))
  {
    hide ReadArray, Json.ReadU64, SkipValue, ToString, DropWs, AllWs, Follows, IsEvents, EventsFit, PrintedEvents;
    if key == "events" {
      ReplayTakesEvents(rp, text, ReplayPart(rp)(seen));
    } else {
      NumberTakes(rp.from);
    }
  }

  lemma ReplayIgnores(key: string, text: string, out: Replay)
    requires key !in REPLAY_KEYS && IsJson(text)
    ensures Takes(ReplayField, key, text, out, out)
  {
    hide ReadArray, Json.ReadU64, SkipValue, DropWs, AllWs, Follows, IsJson;
    SkipsJson(text);
  }

  lemma ReplayHandled(rp: Replay)
    requires ReplayFits(rp)
    ensures Handles(ReplayField, ReplayShape(rp))
  {
    hide Takes, ReplayRight, ReplayPart, IsJson, ReplayFits;
    var sh := ReplayShape(rp);
    forall key, text, seen | key in sh.own && key !in seen && seen <= sh.own && sh.right(key, text)
      ensures Takes(ReplayField, key, text, sh.part(seen), sh.part(seen + {key}))
    {
      ReplayTakes(rp, key, text, seen);
    }
    forall key, text, out | key !in sh.known && IsJson(text)
      ensures Takes(ReplayField, key, text, out, out)
    {
      ReplayIgnores(key, text, out);
    }
  }

  /** The same for replays, laid out in any way. */
  lemma ReplayTolerant(rp: Replay, pre: string, items: seq<Item>, tail: string)
    requires ReplayFits(rp) && AllWs(pre) && Lays(ReplayShape(rp), items, {})
    ensures ParseReplay(pre + ObjectLayout(items) + tail) ==
      Json.Outcome(true, Replay(rp.from, PrintedEvents(rp.events)))
  {
    hide Lays, Handles, Yields, Advances, ReadObject, ReplayField, ReplayFits, ObjectLayout, PrintedEvents;
    DocumentsAdvance();
    ReplayHandled(rp);
    LaidYields(ReplayField, ReplayShape(rp), items);
    ObjectReads(ReplayField, Replay(0, []), pre, items, Replay(rp.from, PrintedEvents(rp.events)), tail);
  }

  lemma TypesQuoted()
    ensures Quoted("r") == "\"r\"" && Quoted("R") == "\"R\""
  {
    assert "r"[1..] == "" && "R"[1..] == "";
    assert Escape("r") == "r" && Escape("R") == "R";
  }

  lemma EventLaid(e: ReplayEvent)
    ensures Lays(EventShape(e), Plainly(EventMembers(e)), {})
  {
    hide Lays, ToString, Quoted, Spells, Plainly;
    var sh, ms := EventShape(e), EventMembers(e);
    TypesQuoted();
    QuotedSpells(Kind(e));
    QuotedSpells(e.payload);
    assert Keys(ms) == if e.isResponse then {ms[0].key, ms[1].key, ms[2].key, ms[3].key} else {ms[0].key, ms[1].key};
    LaysOwn(sh, ms, {});
  }

  lemma PrintedEventList(es: seq<ReplayEvent>)
    ensures IsEvents(ArrayText(EventItems(es)), es)
  {
    hide Lays, EventMembers, EventShape, ArrayText, ArrayLayout;
    var items := EventItems(es);
    var elems := PlainElems(items);
    NoPad();
    forall i | 0 <= i < |elems| ensures Lays(EventShape(es[i]), elems[i].items, {}) {
      EventLaid(es[i]);
    }
    PrintedArray(items);
    assert EventsLaid(elems, es);
  }

  lemma ReplayLaid(rp: Replay)
    ensures Lays(ReplayShape(rp), Plainly(ReplayMembers(rp, EventItems(rp.events))), {})
  {
    hide Lays, ToString, IsEvents, ArrayText, EventItems, Plainly;
    var sh, ms := ReplayShape(rp), ReplayMembers(rp, EventItems(rp.events));
    PrintedEventList(rp.events);
    assert Keys(ms) == {ms[0].key, ms[1].key};
    LaysOwn(sh, ms, {});
  }

  /** A replay survives printing and parsing exactly when its request events carry nothing. */
  lemma ReplayRoundTripsExactly(rp: Replay)
    requires ReplayFits(rp)
    ensures ParseReplay(ReplayText(rp)).ok
    ensures ParseReplay(ReplayText(rp)) == Json.Outcome(true, rp) <==>
      forall i :: 0 <= i < |rp.events| && !rp.events[i].isResponse ==>
        rp.events[i].payload == "" && rp.events[i].hash == 0
  {
    hide ParseReplay, ReplayMembers, ObjectText, ObjectLayout, Lays, ReplayFits, ReplayShape;
    var ms := ReplayMembers(rp, EventItems(rp.events));
    ReplayLaid(rp);
    PrintedObject(ms);
    NoPad();
    ReplayTolerant(rp, "", Plainly(ms), "");
    assert "" + ObjectLayout(Plainly(ms)) + "" == ReplayText(rp);
    var printed := PrintedEvents(rp.events);
    if printed == rp.events {
      forall i | 0 <= i < |rp.events| && !rp.events[i].isResponse
        ensures rp.events[i].payload == "" && rp.events[i].hash == 0
      {
        assert printed[i] == Printed(rp.events[i]);
      }
    }
  }

  /** So every replay a client can build survives. */
  lemma BuiltReplayRoundTrip(c: ClientState, from: nat)
    requires ReplayFits(BuildReplay(c, from))
    ensures ParseReplay(ReplayText(BuildReplay(c, from))) == Json.Outcome(true, BuildReplay(c, from))
  {
    hide ParseReplay, ReplayText;
    ReplayRoundTripsExactly(BuildReplay(c, from));
    var rp := BuildReplay(c, from);
    forall i | 0 <= i < |rp.events| && !rp.events[i].isResponse
      ensures rp.events[i].payload == "" && rp.events[i].hash == 0
    {
      assert rp.events[i] == ReplayEventAt(c, c.history.events[from + i]);
    }
  }
}
