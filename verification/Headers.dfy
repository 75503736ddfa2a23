/** The request headers: the client prints them, the server parses them back. */
module Headers {
  import opened Messages
  import opened Decimal
  import Json

  // ---- the acknowledgement list ----

  function JoinCsv(acks: seq<SeqNum>): string {
    if acks == [] then ""
    else if |acks| == 1 then ToString(acks[0])
    else ToString(acks[0]) + "," + JoinCsv(acks[1..])
  }

  function FindComma(s: string): (j: nat)
    ensures j <= |s| && (j < |s| ==> s[j] == ',')
    ensures forall i :: 0 <= i < j ==> s[i] != ','
  {
    if s == "" || s[0] == ',' then 0 else 1 + FindComma(s[1..])
  }

  /** Comma-separated fields; empty ones are skipped. */
  function ParseCsv(s: string): seq<SeqNum>
    decreases |s|
  {
    if s == "" then [] else
      var j := FindComma(s);
      (if j > 0 then [StrToULL(s[..j])] else []) + (if j < |s| then ParseCsv(s[j + 1..]) else [])
  }

  ghost predicate NoComma(s: string) {
    forall i :: 0 <= i < |s| ==> s[i] != ','
  }

  lemma {:induction false} FindCommaAt(a: string, rest: string)
    requires NoComma(a) && (rest == "" || rest[0] == ',')
    ensures FindComma(a + rest) == |a|
    decreases |a|
  {
    if a == "" {
      assert a + rest == rest;
    } else {
      assert (a + rest)[1..] == a[1..] + rest;
      FindCommaAt(a[1..], rest);
    }
  }

  /** Any list of 64-bit ids, the empty one included, survives in order. */
  lemma {:induction false} CsvRoundTrip(acks: seq<SeqNum>)
    requires forall k :: 0 <= k < |acks| ==> acks[k] < TWO_TO_THE_64
    ensures ParseCsv(JoinCsv(acks)) == acks
    decreases |acks|
  {
    hide ParseCsv, StrToULL, ToString, FindComma;
    CsvEmpty();
    if acks != [] {
      var a := ToString(acks[0]);
      var rest := if |acks| == 1 then "" else "," + JoinCsv(acks[1..]);
      var s := JoinCsv(acks);
      assert s == a + rest;
      FindCommaAt(a, rest);
      CsvField(s);
      assert s[..|a|] == a;
      ReadsBack(acks[0], "");
      assert a + "" == a;
      if |acks| > 1 {
        assert s[|a| + 1..] == JoinCsv(acks[1..]);
        CsvRoundTrip(acks[1..]);
      }
    }
  }

  lemma CsvField(s: string)
    requires s != ""
    ensures
      var j := FindComma(s);
      ParseCsv(s) == (if j > 0 then [StrToULL(s[..j])] else []) + (if j < |s| then ParseCsv(s[j + 1..]) else [])
  {
    hide StrToULL, FindComma;
  }

  /** The numbers of the fields that are not empty. */
  function Numbers(fields: seq<string>): seq<SeqNum> {
    if fields == [] then []
    else (if fields[0] == "" then [] else [StrToULL(fields[0])]) + Numbers(fields[1..])
  }

  /** Any fields, however many of them empty, joined by commas: the others are read in order. */
  lemma {:induction false} CsvReadsFields(fields: seq<string>)
    requires forall k :: 0 <= k < |fields| ==> NoComma(fields[k])
    ensures ParseCsv(Json.Joined(fields)) == Numbers(fields)
    decreases |fields|
  {
    hide ParseCsv, StrToULL, FindComma, NoComma;
    CsvEmpty();
    if fields != [] {
      var a := fields[0];
      var rest := if |fields| == 1 then "" else "," + Json.Joined(fields[1..]);
      var s := a + rest;
      assert Json.Joined(fields) == s;
      FindCommaAt(a, rest);
      if s != "" {
        CsvField(s);
      }
      assert s[..|a|] == a;
      if |fields| > 1 {
        assert s[|a| + 1..] == Json.Joined(fields[1..]);
        CsvReadsFields(fields[1..]);
      } else {
        assert Numbers(fields[1..]) == [];
      }
    }
  }

  method ReadCsv(s: string) returns (out: seq<SeqNum>)
    ensures out == ParseCsv(s)
  {
    hide ParseCsv, StrToULL;
    out := [];
    var i := 0;
    ghost var left := s;
    CsvEmpty();
    while i < |s|
      invariant i <= |s| + 1 && left == if i <= |s| then s[i..] else ""
      invariant out + ParseCsv(left) == ParseCsv(s)
    {
      var j := i + FindComma(s[i..]);
      CsvField(left);
      assert left[..j - i] == s[i..j];
      if j < |s| { assert left[j - i + 1..] == s[j + 1..]; }
      if j > i { out := out + [StrToULL(s[i..j])]; }
      i := j + 1;
      left := if i <= |s| then s[i..] else "";
    }
  }

  lemma CsvEmpty()
    ensures ParseCsv("") == []
  {
  }

  // ---- the whole set of lines ----

  const SEQ := "Color-Seq: "
  const BASE := "Color-Ack-Base: "
  const NEW := "Color-Ack-New: "
  const HASH := "Color-Hash: "
  const CONTENT := "Content-Type: application/json"

  function Lines(r: Request): seq<string> {
    [SEQ + ToString(r.id), BASE + ToString(r.ackBase), NEW + JoinCsv(r.ackNew)]
    + (if r.hash.Some? then [HASH + ToString(r.hash.value)] else []) + [CONTENT]
  }

  method HeaderLines(r: Request) returns (h: seq<string>)
    ensures h == Lines(r)
  {
    h := [SEQ + ToString(r.id), BASE + ToString(r.ackBase)];
    var acks := "";
    for i := 0 to |r.ackNew|
      invariant acks == JoinCsv(r.ackNew[..i])
    {
      JoinCsvLast(r.ackNew[..i + 1]);
      assert r.ackNew[..i + 1][..i] == r.ackNew[..i];
      if i > 0 { acks := acks + ","; }
      acks := acks + ToString(r.ackNew[i]);
    }
    assert r.ackNew[..|r.ackNew|] == r.ackNew;
    h := h + [NEW + acks];
    if r.hash.Some? { h := h + [HASH + ToString(r.hash.value)]; }
    h := h + [CONTENT];
  }

  lemma {:induction false} JoinCsvLast(acks: seq<SeqNum>)
    requires acks != []
    ensures
      var n := |acks| - 1;
      JoinCsv(acks) == JoinCsv(acks[..n]) + (if n > 0 then "," else "") + ToString(acks[n])
    decreases |acks|
  {
    var n := |acks| - 1;
    if n > 0 {
      JoinCsvLast(acks[1..]);
      assert acks[1..][..n - 1] == acks[..n][1..];
    }
  }

  /** The text after `name` on the first line that begins with it; empty if there is none. */
  function Header(lines: seq<string>, name: string): string
    decreases |lines|
  {
    if lines == [] then ""
    else if name <= lines[0] then lines[0][|name|..]
    else Header(lines[1..], name)
  }

  function ReadU64(s: string, default: nat): nat {
    if s == "" then default else StrToULL(s)
  }

  function ParseRequest(lines: seq<string>, body: string): Request {
    var h := Header(lines, HASH);
    Request(ReadU64(Header(lines, SEQ), 0), ReadU64(Header(lines, BASE), 1), ParseCsv(Header(lines, NEW)),
            if h == "" then None else Some(ReadU64(h, 0)), body)
  }

  ghost predicate Missing(lines: seq<string>, name: string) {
    forall k :: 0 <= k < |lines| ==> !(name <= lines[k])
  }

  lemma {:induction false} MissingIsEmpty(lines: seq<string>, name: string)
    requires Missing(lines, name)
    ensures Header(lines, name) == ""
    decreases |lines|
  {
    if lines != [] {
      MissingIsEmpty(lines[1..], name);
    }
  }

  /** What stands for each header that is not there. */
  lemma MissingDefaults(lines: seq<string>, body: string)
    ensures
      var r := ParseRequest(lines, body);
      && (Missing(lines, SEQ) ==> r.id == 0)
      && (Missing(lines, BASE) ==> r.ackBase == 1)
      && (Missing(lines, NEW) ==> r.ackNew == [])
      && (Missing(lines, HASH) ==> r.hash == None)
      && r.payload == body
  {
    hide Missing, Header, ParseCsv, StrToULL;
    CsvEmpty();
    if Missing(lines, SEQ) { MissingIsEmpty(lines, SEQ); }
    if Missing(lines, BASE) { MissingIsEmpty(lines, BASE); }
    if Missing(lines, NEW) { MissingIsEmpty(lines, NEW); }
    if Missing(lines, HASH) { MissingIsEmpty(lines, HASH); }
  }

  lemma NamesDiffer(v: string)
    ensures !(BASE <= SEQ + v) && !(NEW <= SEQ + v) && !(HASH <= SEQ + v)
    ensures !(NEW <= BASE + v) && !(HASH <= BASE + v) && !(HASH <= NEW + v)
    ensures !(HASH <= CONTENT)
  {
    assert (SEQ + v)[6] == 'S' && (BASE + v)[6] == 'A' && (NEW + v)[6] == 'A';
    assert (BASE + v)[10] == 'B' && NEW[10] == 'N' && HASH[6] == 'H' && BASE[6] == 'A';
    assert HASH[1] == 'o' && CONTENT[6] == 't';
  }

  lemma AfterName(name: string, v: string)
    ensures name <= name + v && (name + v)[|name|..] == v
  {
  }

  /** Every request with 64-bit fields survives the headers: id, base, acknowledgements in
      order, and the hash, present or absent. */
  lemma HeaderRoundTrip(r: Request)
    requires r.id < TWO_TO_THE_64 && r.ackBase < TWO_TO_THE_64
    requires forall k :: 0 <= k < |r.ackNew| ==> r.ackNew[k] < TWO_TO_THE_64
    requires r.hash.Some? ==> r.hash.value < TWO_TO_THE_64
    ensures ParseRequest(Lines(r), r.payload) == r
  {
    hide ToString, StrToULL, JoinCsv, ParseCsv;
    var lines := Lines(r);
    var a, b, c := ToString(r.id), ToString(r.ackBase), JoinCsv(r.ackNew);
    NamesDiffer(a);
    NamesDiffer(b);
    NamesDiffer(c);
    AfterName(SEQ, a);
    AfterName(BASE, b);
    AfterName(NEW, c);
    var l1, l2, l3 := lines[1..], lines[1..][1..], lines[1..][1..][1..];
    assert Header(lines, SEQ) == a;
    assert Header(lines, BASE) == Header(l1, BASE) == b;
    assert Header(lines, NEW) == Header(l1, NEW) == Header(l2, NEW) == c;
    assert Header(lines, HASH) == Header(l1, HASH) == Header(l2, HASH) == Header(l3, HASH);
    if r.hash.Some? {
      AfterName(HASH, ToString(r.hash.value));
      assert Header(l3, HASH) == ToString(r.hash.value);
      ReadsBack(r.hash.value, "");
      assert ToString(r.hash.value) + "" == ToString(r.hash.value);
    } else {
      assert l3 == [CONTENT];
      assert Header(l3, HASH) == Header(l3[1..], HASH) == "";
    }
    ReadsBack(r.id, "");
    ReadsBack(r.ackBase, "");
    assert a + "" == a && b + "" == b;
    CsvRoundTrip(r.ackNew);
  }
}
