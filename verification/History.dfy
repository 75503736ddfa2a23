/** The committed history and its rolling hash. The hash is an arbitrary seed and
    step function, so nothing proved about agreement depends on which one is used. */
module History {
  import opened Messages

  datatype HashFn = HashFn(seed: Hash, step: (Hash, Event) -> Hash)

  /** `baseCount` events are folded into `curHash` and not retained. */
  datatype HistoryState = HistoryState(events: seq<Event>, curHash: Hash, baseCount: nat) {
    function EventCount(): nat {
      baseCount + |events|
    }
  }

  function Fresh(hf: HashFn): HistoryState {
    HistoryState([], hf.seed, 0)
  }

  function Resumed(hash: Hash, baseCount: nat): HistoryState {
    HistoryState([], hash, baseCount)
  }

  function Append(hf: HashFn, h: HistoryState, e: Event): HistoryState {
    HistoryState(h.events + [e], hf.step(h.curHash, e), h.baseCount)
  }

  function AppendAll(hf: HashFn, h: HistoryState, es: seq<Event>): HistoryState
    decreases |es|
  {
    if es == [] then h else AppendAll(hf, Append(hf, h, es[0]), es[1..])
  }

  function AckEvents(acks: seq<SeqNum>): (es: seq<Event>)
    ensures |es| == |acks|
    ensures forall i :: 0 <= i < |acks| ==> es[i] == Event(true, acks[i])
  {
    seq(|acks|, i requires 0 <= i < |acks| => Event(true, acks[i]))
  }

  /** The hash of a whole event sequence, from the seed. */
  ghost function Chain(hf: HashFn, es: seq<Event>): Hash {
    if es == [] then hf.seed else hf.step(Chain(hf, es[..|es| - 1]), es[|es| - 1])
  }

  /** `h` stands for the logical history `log`, of which it may retain only a suffix. */
  ghost predicate Represents(hf: HashFn, h: HistoryState, log: seq<Event>) {
    && h.baseCount <= |log|
    && h.events == log[h.baseCount..]
    && h.curHash == Chain(hf, log)
  }

  lemma AppendRepresents(hf: HashFn, h: HistoryState, log: seq<Event>, e: Event)
    requires Represents(hf, h, log)
    ensures Represents(hf, Append(hf, h, e), log + [e])
  {
    assert (log + [e])[..|log|] == log;
    assert (log + [e])[h.baseCount..] == log[h.baseCount..] + [e];
  }

  /** Appending event by event represents the concatenation, whatever was forgotten. */
  lemma {:induction false} AppendAllRepresents(hf: HashFn, h: HistoryState, log: seq<Event>, es: seq<Event>)
    requires Represents(hf, h, log)
    ensures Represents(hf, AppendAll(hf, h, es), log + es)
    decreases |es|
  {
    if es == [] {
      assert log + es == log;
    } else {
      AppendRepresents(hf, h, log, es[0]);
      AppendAllRepresents(hf, Append(hf, h, es[0]), log + [es[0]], es[1..]);
      assert log + [es[0]] + es[1..] == log + es;
    }
  }

  lemma {:induction false} AppendAllRetains(hf: HashFn, h: HistoryState, es: seq<Event>)
    ensures AppendAll(hf, h, es).events == h.events + es
    ensures AppendAll(hf, h, es).EventCount() == h.EventCount() + |es|
    decreases |es|
  {
    if es != [] {
      AppendAllRetains(hf, Append(hf, h, es[0]), es[1..]);
      assert h.events + [es[0]] + es[1..] == h.events + es;
    }
  }

  lemma {:induction false} AppendAllConcat(hf: HashFn, h: HistoryState, a: seq<Event>, b: seq<Event>)
    ensures AppendAll(hf, h, a + b) == AppendAll(hf, AppendAll(hf, h, a), b)
    decreases |a|
  {
    if a == [] {
      assert a + b == b;
    } else {
      assert (a + b)[1..] == a[1..] + b;
      AppendAllConcat(hf, Append(hf, h, a[0]), a[1..], b);
    }
  }

  lemma AppendAllLast(hf: HashFn, h: HistoryState, a: seq<Event>, e: Event)
    ensures AppendAll(hf, h, a + [e]) == Append(hf, AppendAll(hf, h, a), e)
  {
    AppendAllConcat(hf, h, a, [e]);
    assert AppendAll(hf, AppendAll(hf, h, a), [e]) == Append(hf, AppendAll(hf, h, a), e);
  }

  class History {
    const hf: HashFn
    var events: seq<Event>
    var curHash: Hash
    var baseCount: nat

    ghost function State(): HistoryState
      reads this
    {
      HistoryState(events, curHash, baseCount)
    }

    constructor (hf: HashFn)
      ensures this.hf == hf && State() == Fresh(hf)
    {
      this.hf := hf;
      events, curHash, baseCount := [], hf.seed, 0;
    }

    constructor Resume(hf: HashFn, resumedHash: Hash, baseCount: nat)
      ensures this.hf == hf && State() == Resumed(resumedHash, baseCount)
    {
      this.hf := hf;
      this.events, this.curHash, this.baseCount := [], resumedHash, baseCount;
    }

    method AppendEvent(e: Event) returns (hash: Hash)
      modifies this
      ensures State() == Append(hf, old(State()), e) && hash == curHash
    {
      events := events + [e];
      curHash := hf.step(curHash, e);
      hash := curHash;
    }

    /** What both sides do to commit one request: its acknowledgements in order,
        then the request itself. Returns the hash after the request. */
    method AppendBlock(acks: seq<SeqNum>, id: SeqNum) returns (hash: Hash)
      modifies this
      ensures State() == AppendAll(hf, old(State()), AckEvents(acks) + [Event(false, id)])
      ensures hash == curHash
    {
      assert AckEvents(acks[..0]) == [];
      for i := 0 to |acks|
        invariant State() == AppendAll(hf, old(State()), AckEvents(acks[..i]))
      {
        AppendAllLast(hf, old(State()), AckEvents(acks[..i]), Event(true, acks[i]));
        assert AckEvents(acks[..i + 1]) == AckEvents(acks[..i]) + [Event(true, acks[i])];
        var _ := AppendEvent(Event(true, acks[i]));
      }
      assert acks[..|acks|] == acks;
      AppendAllLast(hf, old(State()), AckEvents(acks), Event(false, id));
      hash := AppendEvent(Event(false, id));
    }

    function Count(): (n: nat)
      reads this
      ensures n == State().EventCount()
    {
      baseCount + |events|
    }
  }
}
