/** The cache outcome aggregator (libs/cache/aggregator.go): counters bounded in number, evicted oldest first,
    flushed on a tick and on Stop.  Every method runs under the mutex, so a step is one call.

    Counts are uint32: `wraps` records how often a key's counter wrapped to zero between two flushes. */
module CacheAggregator {
  import opened Optional

  datatype Key = Key(keyClass: string, result: string, operation: string)

  const UINT32 := 0x1_0000_0000

  datatype Tally = Tally(requests: nat, firstSeen: int, lastSeen: int)

  /** One row handed to the sink. */
  datatype Row = Row(key: Key, requests: nat)

  datatype State = State(counters: map<Key, Tally>, emitted: seq<Row>, observed: multiset<Key>, wraps: multiset<Key>)

  // ----- steps -----

  /** recordLocked: nothing is emitted for a zero count. */
  function Emit(s: State, key: Key): State
    requires key in s.counters
  {
    var rows := if s.counters[key].requests == 0 then [] else [Row(key, s.counters[key].requests)];
    s.(emitted := s.emitted + rows, counters := s.counters - {key})
  }

  predicate Oldest(counters: map<Key, Tally>, key: Key) {
    key in counters && forall k | k in counters.Keys :: counters[key].lastSeen <= counters[k].lastSeen
  }

  /** uint32 increment. */
  function Next(n: nat): nat { (n + 1) % UINT32 }

  function Count(s: State, key: Key, now: int): State {
    var t := if key in s.counters then s.counters[key] else Tally(0, now, now);
    var next := Next(t.requests);
    s.(counters := s.counters[key := t.(requests := next, lastSeen := now)],
       observed := s.observed + multiset{key},
       wraps := if next == 0 then s.wraps + multiset{key} else s.wraps)
  }

  /** `victim` is the entry evictIfFullLocked picks: some oldest one, when a new key meets a full map. */
  predicate EvictionFor(s: State, key: Key, maxEntries: nat, victim: Option<Key>) {
    if key !in s.counters && |s.counters| >= maxEntries && |s.counters| > 0
    then victim.Some? && Oldest(s.counters, victim.value)
    else victim.None?
  }

  function Observed(s: State, key: Key, now: int, victim: Option<Key>): State
    requires victim.Some? ==> victim.value in s.counters
  {
    Count(if victim.Some? then Emit(s, victim.value) else s, key, now)
  }

  /** flushAll in some iteration order. */
  function Flushed(s: State, order: seq<Key>): State
    decreases |order|
  {
    if order == [] then s
    else Flushed(if order[0] in s.counters then Emit(s, order[0]) else s, order[1..])
  }

  // ----- the books -----

  function EmittedFor(rows: seq<Row>, key: Key): nat {
    if rows == [] then 0 else (if rows[0].key == key then rows[0].requests else 0) + EmittedFor(rows[1..], key)
  }

  function Outstanding(s: State, key: Key): nat { if key in s.counters then s.counters[key].requests else 0 }

  /** Emitted plus outstanding is the number of observations, less 2^32 for every wrap. */
  ghost predicate Balanced(s: State, key: Key) {
    EmittedFor(s.emitted, key) + Outstanding(s, key) + UINT32 * s.wraps[key] == s.observed[key]
  }

  ghost predicate Books(s: State, maxEntries: nat) {
    && |s.counters| <= maxEntries
    && (forall key :: Balanced(s, key))
    && (forall key :: key in s.counters ==> s.counters[key].requests < UINT32)
  }

  lemma {:induction false} EmittedSnoc(rows: seq<Row>, row: Row, key: Key)
    ensures EmittedFor(rows + [row], key) == EmittedFor(rows, key) + if row.key == key then row.requests else 0
    decreases |rows|
  {
    if rows == [] {
      assert rows + [row] == [row];
    } else {
      EmittedSnoc(rows[1..], row, key);
      assert (rows + [row])[1..] == rows[1..] + [row];
    }
  }

  lemma EmitBalances(s: State, victim: Key, maxEntries: nat)
    requires Books(s, maxEntries) && victim in s.counters
    ensures Books(Emit(s, victim), maxEntries) && |Emit(s, victim).counters| == |s.counters| - 1
  {
    var t := s.counters[victim];
    var s' := Emit(s, victim);
    assert s'.counters.Keys == s.counters.Keys - {victim};
    assert |s'.counters.Keys| == |s.counters.Keys| - 1;
    forall key ensures Balanced(s', key) {
      assert Balanced(s, key);
      if t.requests != 0 {
        EmittedSnoc(s.emitted, Row(victim, t.requests), key);
      } else {
        assert s.emitted + [] == s.emitted;
      }
    }
  }

  lemma CountBalances(s: State, key: Key, now: int, maxEntries: nat)
    requires Books(s, maxEntries) && (key in s.counters || |s.counters| < maxEntries)
    ensures Books(Count(s, key, now), maxEntries)
  {
    var s' := Count(s, key, now);
    assert s'.counters.Keys == s.counters.Keys + {key};
    assert |s'.counters.Keys| <= |s.counters.Keys| + if key in s.counters then 0 else 1;
    forall k ensures Balanced(s', k) {
      assert Balanced(s, k);
      var before, after := Outstanding(s, k), Outstanding(s', k);
      if k == key {
        assert after == if before + 1 == UINT32 then 0 else before + 1;
      }
    }
  }

  /** An observation keeps the books and the bound; an eviction emits the count it drops. */
  lemma ObserveBalances(s: State, key: Key, now: int, victim: Option<Key>, maxEntries: nat)
    requires Books(s, maxEntries) && 0 < maxEntries && EvictionFor(s, key, maxEntries, victim)
    ensures Books(Observed(s, key, now, victim), maxEntries)
  {
    if victim.Some? {
      EmitBalances(s, victim.value, maxEntries);
      CountBalances(Emit(s, victim.value), key, now, maxEntries);
    } else {
      CountBalances(s, key, now, maxEntries);
    }
  }

  lemma ObserveKeepsBooks(s: State, key: Key, now: int, maxEntries: nat)
    requires Books(s, maxEntries) && 0 < maxEntries
    ensures forall victim :: EvictionFor(s, key, maxEntries, victim) ==> Books(Observed(s, key, now, victim), maxEntries)
  {
    forall victim | EvictionFor(s, key, maxEntries, victim) ensures Books(Observed(s, key, now, victim), maxEntries) {
      ObserveBalances(s, key, now, victim, maxEntries);
    }
  }

  lemma {:induction false} FlushBalances(s: State, order: seq<Key>, maxEntries: nat)
    requires Books(s, maxEntries)
    ensures Books(Flushed(s, order), maxEntries)
    ensures Flushed(s, order).observed == s.observed && Flushed(s, order).wraps == s.wraps
    ensures forall key :: key in Flushed(s, order).counters <==> key in s.counters && key !in order
    decreases |order|
  {
    if order != [] {
      if order[0] in s.counters {
        EmitBalances(s, order[0], maxEntries);
        FlushBalances(Emit(s, order[0]), order[1..], maxEntries);
      } else {
        FlushBalances(s, order[1..], maxEntries);
      }
    }
  }

  /** A complete flush emits what is outstanding. */
  lemma FlushEmits(s: State, order: seq<Key>, key: Key, maxEntries: nat)
    requires Books(s, maxEntries) && forall k :: k in s.counters ==> k in order
    ensures EmittedFor(Flushed(s, order).emitted, key) == EmittedFor(s.emitted, key) + Outstanding(s, key)
  {
    hide Flushed;
    FlushBalances(s, order, maxEntries);
    var end := Flushed(s, order);
    assert Balanced(s, key) && Balanced(end, key);
    assert key !in end.counters;
  }

  /** One observation in the entries themselves: the key's count goes up by one, around 2^32; only a new key meeting a
      full map makes an entry leave, an oldest one, whose count is emitted. */
  lemma ObservedReads(s: State, key: Key, now: int, victim: Option<Key>, maxEntries: nat)
    requires EvictionFor(s, key, maxEntries, victim)
    ensures var s' := Observed(s, key, now, victim);
            && key in s'.counters && s'.counters[key].lastSeen == now
            && s'.counters[key].firstSeen == (if key in s.counters then s.counters[key].firstSeen else now)
            && s'.counters[key].requests == ((if key in s.counters then s.counters[key].requests else 0) + 1) % 4294967296
            && (forall k :: k in s'.counters && k != key ==> k in s.counters && s'.counters[k] == s.counters[k])
            && (forall k :: k in s.counters && k !in s'.counters ==>
                  && key !in s.counters && |s.counters| >= maxEntries
                  && (forall j :: j in s.counters ==> s.counters[k].lastSeen <= s.counters[j].lastSeen)
                  && s'.emitted == s.emitted + if s.counters[k].requests == 0 then [] else [Row(k, s.counters[k].requests)])
            && (s.counters.Keys <= s'.counters.Keys ==> s'.emitted == s.emitted)
  {
    if victim.Some? {
      var v := victim.value;
      var s' := Observed(s, key, now, victim);
      assert v != key && v in s.counters.Keys && v !in s'.counters.Keys;
    }
  }

  // ----- whole histories -----

  datatype Call = Observe(key: Key, now: int, victim: Option<Key>) | Flush(order: seq<Key>)

  ghost predicate Covers(s: State, order: seq<Key>) { forall key :: key in s.counters ==> key in order }

  ghost predicate Legal(s: State, call: Call, maxEntries: nat) {
    match call
    case Observe(key, _, victim) => EvictionFor(s, key, maxEntries, victim)
    case Flush(order) => Covers(s, order)
  }

  function Apply(s: State, call: Call): State
    requires call.Observe? && call.victim.Some? ==> call.victim.value in s.counters
  {
    match call
    case Observe(key, now, victim) => Observed(s, key, now, victim)
    case Flush(order) => Flushed(s, order)
  }

  ghost predicate History(s: State, calls: seq<Call>, maxEntries: nat)
    decreases |calls|
  {
    calls == [] || (Legal(s, calls[0], maxEntries) && History(Apply(s, calls[0]), calls[1..], maxEntries))
  }

  ghost function After(s: State, calls: seq<Call>, maxEntries: nat): State
    requires History(s, calls, maxEntries)
    decreases |calls|
  {
    if calls == [] then s else After(Apply(s, calls[0]), calls[1..], maxEntries)
  }

  /** Over every sequence of observations, evictions and flushes the books balance and the map stays bounded. */
  lemma {:induction false} HistoryBalances(s: State, calls: seq<Call>, maxEntries: nat)
    requires 0 < maxEntries && Books(s, maxEntries) && History(s, calls, maxEntries)
    ensures Books(After(s, calls, maxEntries), maxEntries)
    decreases |calls|
  {
    hide Books, Observed, Flushed;
    if calls != [] {
      match calls[0] {
        case Observe(key, now, victim) => ObserveBalances(s, key, now, victim, maxEntries);
        case Flush(order) => FlushBalances(s, order, maxEntries);
      }
      HistoryBalances(Apply(s, calls[0]), calls[1..], maxEntries);
    }
  }

  // ----- when a count is lost -----

  const START := State(map[], [], multiset{}, multiset{})

  /** The call emits `key`'s count and drops its entry. */
  predicate Removes(call: Call, key: Key) {
    match call
    case Observe(_, _, victim) => victim == Some(key)
    case Flush(order) => key in order
  }

  predicate Sees(call: Call, key: Key) { call.Observe? && call.key == key }

  function Seen(calls: seq<Call>, key: Key): nat {
    if calls == [] then 0 else (if Sees(calls[0], key) then 1 else 0) + Seen(calls[1..], key)
  }

  predicate Unremoved(calls: seq<Call>, key: Key) { forall k :: 0 <= k < |calls| ==> !Removes(calls[k], key) }

  /** With `n` counted already, no stretch from the start on that leaves the entry in place fills the counter. */
  predicate Fits(calls: seq<Call>, key: Key, n: nat) {
    forall j :: 0 <= j <= |calls| && Unremoved(calls[..j], key) ==> n + Seen(calls[..j], key) < UINT32
  }

  /** The key is nowhere observed 2^32 times without its entry being removed in between. */
  predicate NoBurst(calls: seq<Call>, key: Key) {
    forall i, j :: 0 <= i <= j <= |calls| && Unremoved(calls[i..j], key) ==> Seen(calls[i..j], key) < UINT32
  }

  lemma {:induction false} FitsStep(calls: seq<Call>, key: Key, n: nat)
    requires calls != [] && n < UINT32
    ensures Removes(calls[0], key) ==> Fits(calls, key, n)
    ensures !Removes(calls[0], key) ==>
              (Fits(calls, key, n) <==> Fits(calls[1..], key, n + if Sees(calls[0], key) then 1 else 0))
  {
    hide Removes;
    var rest, m := calls[1..], n + if Sees(calls[0], key) then 1 else 0;
    assert Seen(calls[..0], key) == 0;
    forall j | 0 < j <= |calls|
      ensures Unremoved(calls[..j], key) <==> !Removes(calls[0], key) && Unremoved(rest[..j - 1], key)
      ensures n + Seen(calls[..j], key) == m + Seen(rest[..j - 1], key)
    {
      assert calls[..j][0] == calls[0] && calls[..j][1..] == rest[..j - 1];
      assert forall k :: 0 < k < j ==> calls[..j][k] == rest[..j - 1][k - 1];
    }
    if !Removes(calls[0], key) && Fits(calls, key, n) {
      forall j | 0 <= j <= |rest| && Unremoved(rest[..j], key) ensures m + Seen(rest[..j], key) < UINT32 {
        assert Unremoved(calls[..j + 1], key);
      }
    }
  }

  lemma SliceOfRest<T>(s: seq<T>, i: nat, j: nat)
    requires 0 < i <= j <= |s|
    ensures s[i..j] == s[1..][i - 1..j - 1]
  {
    var a, b := s[i..j], s[1..][i - 1..j - 1];
    assert |a| == |b| && forall k :: 0 <= k < |a| ==> a[k] == s[i + k] && b[k] == s[1..][i - 1 + k];
    assert a == b;
  }

  lemma {:induction false} NoBurstStep(calls: seq<Call>, key: Key)
    requires calls != []
    ensures NoBurst(calls, key) <==> Fits(calls, key, 0) && NoBurst(calls[1..], key)
  {
    hide Unremoved, Seen;
    var rest := calls[1..];
    if NoBurst(calls, key) {
      forall i, j | 0 <= i <= j <= |rest| && Unremoved(rest[i..j], key) ensures Seen(rest[i..j], key) < UINT32 {
        SliceOfRest(calls, i + 1, j + 1);
        assert Seen(calls[i + 1..j + 1], key) < UINT32;
      }
      forall j | 0 <= j <= |calls| && Unremoved(calls[..j], key) ensures Seen(calls[..j], key) < UINT32 {
        assert calls[0..j] == calls[..j];
      }
    }
    if Fits(calls, key, 0) && NoBurst(rest, key) {
      forall i, j | 0 <= i <= j <= |calls| && Unremoved(calls[i..j], key) ensures Seen(calls[i..j], key) < UINT32 {
        if i == 0 {
          assert calls[0..j] == calls[..j];
        } else {
          SliceOfRest(calls, i, j);
          assert Unremoved(rest[i - 1..j - 1], key);
        }
      }
    }
  }

  lemma {:induction false} FlushedTally(s: State, order: seq<Key>, key: Key)
    ensures Flushed(s, order).wraps == s.wraps
    ensures Outstanding(Flushed(s, order), key) == if key in order then 0 else Outstanding(s, key)
    decreases |order|
  {
    if order != [] {
      FlushedTally(if order[0] in s.counters then Emit(s, order[0]) else s, order[1..], key);
    }
  }

  /** What one call does to the count of a key. */
  lemma StepTally(s: State, call: Call, key: Key, maxEntries: nat)
    requires Legal(s, call, maxEntries)
    ensures var s' := Apply(s, call); var n, n' := Outstanding(s, key), Outstanding(s', key);
            && (Removes(call, key) ==> n' == 0 && !Sees(call, key))
            && (!Removes(call, key) ==> n' == if Sees(call, key) then Next(n) else n)
            && s'.wraps[key] == s.wraps[key] + if Sees(call, key) && Next(n) == 0 then 1 else 0
  {
    match call
    case Observe(k, now, victim) => hide Next;
    case Flush(order) => FlushedTally(s, order, key);
  }

  lemma {:induction false} WrapsIff(s: State, calls: seq<Call>, key: Key, maxEntries: nat)
    requires History(s, calls, maxEntries) && Outstanding(s, key) < UINT32
    ensures var end := After(s, calls, maxEntries);
            && end.wraps[key] >= s.wraps[key]
            && (end.wraps[key] == s.wraps[key] <==> Fits(calls, key, Outstanding(s, key)) && NoBurst(calls, key))
    decreases |calls|
  {
    hide Apply, Removes, Sees, NoBurst, Fits, Outstanding;
    var n := Outstanding(s, key);
    if calls == [] {
      assert Fits([], key, n) && NoBurst([], key) by { NothingSeen(key, n); }
    } else {
      StepTally(s, calls[0], key, maxEntries);
      FitsStep(calls, key, n);
      FitsStep(calls, key, 0);
      NoBurstStep(calls, key);
      var s', rest := Apply(s, calls[0]), calls[1..];
      WrapsIff(s', rest, key, maxEntries);
      FitsLess(calls, key, 0, n);
      FitsOnlyBelow(rest, key, n + 1);
      NoBurstFits(rest, key);
    }
  }

  lemma NothingSeen(key: Key, n: nat)
    requires n < UINT32
    ensures Fits([], key, n) && NoBurst([], key)
  {
  }

  lemma FitsOnlyBelow(calls: seq<Call>, key: Key, n: nat)
    ensures Fits(calls, key, n) ==> n < UINT32
  {
    assert Unremoved(calls[..0], key);
  }

  lemma FitsLess(calls: seq<Call>, key: Key, n: nat, m: nat)
    requires n <= m
    ensures Fits(calls, key, m) ==> Fits(calls, key, n)
  {
  }

  lemma NoBurstFits(calls: seq<Call>, key: Key)
    ensures NoBurst(calls, key) ==> Fits(calls, key, 0)
  {
    assert forall j :: 0 <= j <= |calls| ==> calls[0..j] == calls[..j];
  }

  /** A key's observations are all emitted or outstanding exactly when it was never observed 2^32 times between two
      removals of its entry; modulo 2^32 they always are. */
  lemma ConservedIffNoBurst(calls: seq<Call>, key: Key, maxEntries: nat)
    requires 0 < maxEntries && History(START, calls, maxEntries)
    ensures var end := After(START, calls, maxEntries);
            var have := EmittedFor(end.emitted, key) + Outstanding(end, key);
            && (have == end.observed[key] <==> NoBurst(calls, key))
            && have % UINT32 == end.observed[key] % UINT32
  {
    hide NoBurst, Fits, History, After;
    HistoryBalances(START, calls, maxEntries);
    WrapsIff(START, calls, key, maxEntries);
    NoBurstFits(calls, key);
    var end := After(START, calls, maxEntries);
    assert Balanced(end, key);
    var have, wraps := EmittedFor(end.emitted, key) + Outstanding(end, key), end.wraps[key];
    assert (UINT32 * wraps + have) % UINT32 == have % UINT32;
  }

  /** After the final flush of Stop nothing is outstanding, and every observation of a key has been emitted exactly
      when there was no such burst. */
  lemma StopEmitsAll(calls: seq<Call>, order: seq<Key>, key: Key, maxEntries: nat)
    requires 0 < maxEntries && History(START, calls, maxEntries) && Covers(After(START, calls, maxEntries), order)
    ensures var end := Flushed(After(START, calls, maxEntries), order);
            end.counters == map[] && (EmittedFor(end.emitted, key) == end.observed[key] <==> NoBurst(calls, key))
  {
    hide NoBurst, History, After, Flushed;
    var s := After(START, calls, maxEntries);
    HistoryBalances(START, calls, maxEntries);
    ConservedIffNoBurst(calls, key, maxEntries);
    FlushBalances(s, order, maxEntries);
    var end := Flushed(s, order);
    assert end.counters.Keys == {};
    assert Balanced(s, key) && Balanced(end, key);
  }

  // ----- the aggregator itself -----

  class Aggregator {
    const hasSink: bool
    const maxEntries: nat
    var counters: map<Key, Tally>
    ghost var emitted: seq<Row>
    ghost var observed: multiset<Key>
    ghost var wraps: multiset<Key>

    constructor (hasSink: bool, maxEntries: int)
      ensures this.hasSink == hasSink && this.maxEntries == (if maxEntries <= 0 then 10000 else maxEntries)
      ensures Log() == State(map[], [], multiset{}, multiset{}) && Books(Log(), this.maxEntries)
    {
      this.hasSink := hasSink;
      this.maxEntries := if maxEntries <= 0 then 10000 else maxEntries;
      counters, emitted, observed, wraps := map[], [], multiset{}, multiset{};
    }

    ghost function Log(): State
      reads this
    {
      State(counters, emitted, observed, wraps)
    }

    /** The oldest entry in the map's iteration order, flushed before it is dropped. */
    method EvictIfFull(order: seq<Key>) returns (victim: Option<Key>)
      requires forall key :: key in counters <==> key in order
      modifies this`counters, this`emitted
      ensures victim.Some? <==> old(|counters| >= maxEntries && |counters| > 0)
      ensures victim.Some? ==> Oldest(old(counters), victim.value) && Log() == Emit(old(Log()), victim.value)
      ensures victim.None? ==> Log() == old(Log())
    {
      victim := None;
      if |counters| < maxEntries {
        return;
      }
      for i := 0 to |order|
        modifies {}
        invariant victim.Some? ==> victim.value in counters
        invariant i > 0 ==> victim.Some?
        invariant forall k :: 0 <= k < i ==> counters[victim.value].lastSeen <= counters[order[k]].lastSeen
      {
        if victim.None? || counters[order[i]].lastSeen < counters[victim.value].lastSeen {
          victim := Some(order[i]);
        }
      }
      if victim.Some? {
        Record(victim.value);
        counters := counters - {victim.value};
      } else {
        assert counters.Keys == {};
      }
    }

    method Record(key: Key)
      requires key in counters
      modifies this`emitted
      ensures emitted == old(emitted) + if counters[key].requests == 0 then [] else [Row(key, counters[key].requests)]
    {
      if counters[key].requests != 0 {
        emitted := emitted + [Row(key, counters[key].requests)];
      }
    }

    method Observe(key: Key, now: int, order: seq<Key>) returns (victim: Option<Key>)
      requires Books(Log(), maxEntries) && 0 < maxEntries && forall k :: k in counters <==> k in order
      modifies this
      ensures Books(Log(), maxEntries)
      ensures !hasSink ==> Log() == old(Log())
      ensures hasSink ==> EvictionFor(old(Log()), key, maxEntries, victim)
                          && Log() == Observed(old(Log()), key, now, victim)
      ensures hasSink ==>
                && key in counters && counters[key].lastSeen == now
                && counters[key].firstSeen == (if key in old(counters) then old(counters)[key].firstSeen else now)
                && counters[key].requests == ((if key in old(counters) then old(counters)[key].requests else 0) + 1) % 4294967296
                && (forall k :: k in counters && k != key ==> k in old(counters) && counters[k] == old(counters)[k])
                && (forall k :: k in old(counters) && k !in counters ==>
                      && key !in old(counters) && |old(counters)| >= maxEntries
                      && (forall j :: j in old(counters) ==> old(counters)[k].lastSeen <= old(counters)[j].lastSeen)
                      && emitted == old(emitted) + if old(counters)[k].requests == 0 then [] else [Row(k, old(counters)[k].requests)])
                && (old(counters.Keys) <= counters.Keys ==> emitted == old(emitted))
    {
      hide Books, Emit, Count;
      victim := None;
      if !hasSink {
        return;
      }
      ghost var start := Log();
      ObserveKeepsBooks(start, key, now, maxEntries);
      if key !in counters {
        victim := EvictIfFull(order);
      }
      assert EvictionFor(start, key, maxEntries, victim);
      CountOne(key, now);
      assert Log() == Observed(start, key, now, victim);
      ObservedReads(start, key, now, victim, maxEntries);
    }

    method CountOne(key: Key, now: int)
      modifies this`counters, this`observed, this`wraps
      ensures Log() == Count(old(Log()), key, now)
    {
      hide Next;
      var t := if key in counters then counters[key] else Tally(0, now, now);
      var next := Next(t.requests);
      counters := counters[key := t.(requests := next, lastSeen := now)];
      observed := observed + multiset{key};
      if next == 0 {
        wraps := wraps + multiset{key};
      }
    }

    /** The tick's flush, and the last act of Stop. */
    method FlushAll(order: seq<Key>)
      requires Books(Log(), maxEntries) && forall k :: k in counters ==> k in order
      modifies this`counters, this`emitted
      ensures Log() == Flushed(old(Log()), order)
      ensures Books(Log(), maxEntries) && counters == map[]
      ensures forall key :: EmittedFor(emitted, key)
                            == EmittedFor(old(emitted), key) + if key in old(counters) then old(counters)[key].requests else 0
    {
      ghost var start := Log();
      FlushBalances(start, order, maxEntries);
      ghost var end := Flushed(start, order);
      forall key ensures EmittedFor(end.emitted, key) == EmittedFor(start.emitted, key) + Outstanding(start, key) {
        FlushEmits(start, order, key, maxEntries);
      }
      hide Books, EmittedFor;
      for i := 0 to |order|
        invariant Flushed(Log(), order[i..]) == Flushed(start, order)
      {
        if order[i] in counters {
          Record(order[i]);
          counters := counters - {order[i]};
        }
      }
      assert Log() == Flushed(start, order);
      assert counters.Keys == {};
    }
  }
}
