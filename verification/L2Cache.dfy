/**
 The L2 cache of gateway/l2_cache.go over the Redis state it uses: string keys with deadlines, which
 expire by themselves, and one sorted set of last-touch times, which does not.
 */
module L2Cache {
  import opened Basics

  /** The stored form of a value: whole milliseconds, both times rounded towards the past. */
  datatype Payload = Payload(value: Bytes, recomputeDurationMs: int, expiresAtUnixMs: int)

  datatype Raw = Encoded(payload: Payload) | Undecodable

  /** A string key. Without a deadline it stays until it is deleted. */
  datatype Item = Item(raw: Raw, deadline: Option<Time>)

  const ZERO_TIME: Time := -62_135_596_800 * SECOND

  function ToMilliseconds(d: Time): int {
    if d >= 0 then d / MILLISECOND else -((-d) / MILLISECOND)
  }

  function UnixMilli(t: Option<Time>): int {
    (if t.Some? then t.value else ZERO_TIME) / MILLISECOND
  }

  function Encode(v: KeyValue): Payload {
    Payload(v.value, ToMilliseconds(v.recomputeDuration), UnixMilli(v.l2Expiration))
  }

  function Decode(p: Payload): KeyValue {
    KeyValue(p.value, ZERO_TIME, Some(p.expiresAtUnixMs * MILLISECOND), p.recomputeDurationMs * MILLISECOND)
  }

  /** Storing a value and reading it back keeps its bytes and never lengthens its life. */
  lemma RoundTrip(v: KeyValue)
    requires v.l2Expiration.Some?
    ensures Decode(Encode(v)).value == v.value
    ensures Decode(Encode(v)).l2Expiration.Some?
    ensures v.l2Expiration.value - MILLISECOND < Decode(Encode(v)).l2Expiration.value <= v.l2Expiration.value
    ensures Encode(Decode(Encode(v))) == Encode(v)
    ensures v.recomputeDuration >= 0 ==>
              v.recomputeDuration - MILLISECOND < Decode(Encode(v)).recomputeDuration <= v.recomputeDuration
  {
  }

  predicate Live(data: map<Key, Item>, key: Key, now: Time) {
    key in data && (data[key].deadline.Some? ==> now < data[key].deadline.value)
  }

  /** Redis SET with a time to live; go-redis sends no expiry for a zero duration. */
  function NewItem(v: KeyValue, now: Time, ttl: Time): Item {
    Item(Encoded(Encode(v)), if ttl > 0 then Some(now + ttl) else None)
  }

  /** Every key that a lookup could still find is in the index. */
  ghost predicate Covers(lru: map<Key, Time>, data: map<Key, Item>, now: Time) {
    forall k :: Live(data, k, now) ==> k in lru
  }

  /** Data expires by itself while nobody calls: that never uncovers a key. */
  lemma CoversLater(lru: map<Key, Time>, data: map<Key, Item>, now: Time, later: Time)
    requires Covers(lru, data, now) && now <= later
    ensures Covers(lru, data, later)
  {
    forall k | Live(data, k, later) ensures k in lru {
      assert Live(data, k, now);
    }
  }

  /** Taking `count` members of least score out of the index. */
  ghost predicate Oldest(victims: set<Key>, lru: map<Key, Time>, count: nat) {
    && victims <= lru.Keys && |victims| == count
    && forall v, k :: v in victims && k in lru && k !in victims ==> lru[v] <= lru[k]
  }

  lemma {:induction false} MinimumExists(lru: map<Key, Time>, keys: set<Key>) returns (m: Key)
    requires keys != {} && keys <= lru.Keys
    ensures m in keys && forall k :: k in keys ==> lru[m] <= lru[k]
    decreases |keys|
  {
    m :| m in keys;
    if keys != {m} {
      var n := MinimumExists(lru, keys - {m});
      if lru[n] < lru[m] {
        m := n;
      }
    }
  }

  lemma PopOneMore(popped: set<Key>, lru: map<Key, Time>, count: nat, m: Key)
    requires Oldest(popped, lru, count) && m in lru && m !in popped
    requires forall k :: k in lru && k !in popped ==> lru[m] <= lru[k]
    ensures Oldest(popped + {m}, lru, count + 1)
    ensures lru - popped - {m} == lru - (popped + {m})
  {
  }

  datatype Store = Store(data: map<Key, Item>, lru: map<Key, Time>)

  function Excess(s: Store, maxEntries: int): nat
    requires maxEntries > 0
  {
    if |s.lru| > maxEntries then |s.lru| - maxEntries else 0
  }

  /** `count` of the oldest members leave the index, and their data goes with them. */
  ghost predicate Evicts(s: Store, victims: set<Key>, count: nat, s': Store) {
    Oldest(victims, s.lru, count) && s' == Store(s.data - victims, s.lru - victims)
  }

  lemma EvictNone(s: Store)
    ensures Evicts(s, {}, 0, s)
  {
    assert s.data == s.data - {} && s.lru == s.lru - {};
  }

  /** What one whole operation may do; only a store chooses, among equally old keys. */
  datatype Op = GetOp(key: Key) | SetOp(key: Key, value: KeyValue, ttl: Time, maxEntries: int) | ClearOp

  ghost predicate Next(s: Store, op: Op, now: Time, s': Store) {
    match op
    case GetOp(key) =>
      if !Live(s.data, key, now) then s' == Store(s.data, s.lru - {key})
      else if s.data[key].raw == Undecodable then s' == Store(s.data - {key}, s.lru - {key})
      else s' == Store(s.data, s.lru[key := now])
    case SetOp(key, value, ttl, maxEntries) =>
      if maxEntries <= 0 then s' == s
      else
        var stored := Store(s.data[key := NewItem(value, now, ttl)], s.lru[key := now]);
        exists victims :: Evicts(stored, victims, Excess(stored, maxEntries), s')
    case ClearOp => s' == Store(s.data - s.lru.Keys, map[])
  }

  class L2Cache {
    var data: map<Key, Item>
    var lru: map<Key, Time>

    constructor ()
      ensures data == map[] && lru == map[]
    {
      data, lru := map[], map[];
    }

    function Value(): Store
      reads this
    {
      Store(data, lru)
    }

    /** A lookup; on a hit the key becomes the most recently touched one. */
    method GetL2(key: Key, now: Time) returns (value: KeyValue, found: bool)
      modifies this
      ensures Next(old(Value()), GetOp(key), now, Value())
      ensures found <==> Live(old(data), key, now) && old(data)[key].raw.Encoded?
      ensures found ==> value == Decode(old(data)[key].raw.payload)
    {
      value := KeyValue([], ZERO_TIME, None, 0);
      if !Live(data, key, now) {
        lru := lru - {key};
        return value, false;
      }
      if data[key].raw == Undecodable {
        data := data - {key};
        lru := lru - {key};
        return value, false;
      }
      lru := lru[key := now];
      return Decode(data[key].raw.payload), true;
    }

    /**
     A store. It leaves the index within the bound by taking out least recently touched keys with
     their data, and when the clock has moved on since the last touch, never the key just stored.
     */
    method SetL2(key: Key, value: KeyValue, ttl: Time, maxEntries: int, now: Time)
      modifies this
      ensures Next(old(Value()), SetOp(key, value, ttl, maxEntries), now, Value())
      ensures maxEntries > 0 ==> |lru| <= maxEntries
      ensures maxEntries > 0 ==> |lru| == Min(|old(lru)[key := now]|, maxEntries)
      ensures maxEntries > 0 && (forall k :: k in old(lru) ==> old(lru)[k] < now) ==>
                key in lru && key in data && data[key] == NewItem(value, now, ttl)
    {
      if maxEntries <= 0 {
        return;
      }
      data := data[key := NewItem(value, now, ttl)];
      lru := lru[key := now];
      ghost var stored, victims := Value(), {};
      EvictNone(stored);
      var count := |lru|;
      if count > maxEntries {
        victims := RemoveL2LRU(count - maxEntries);
        NewestStays(victims, stored.lru, count - maxEntries, key);
      }
      assert Evicts(stored, victims, Excess(stored, maxEntries), Value());
    }

    /** ZPOPMIN, then the data of the popped members is deleted. */
    method RemoveL2LRU(count: nat) returns (ghost victims: set<Key>)
      requires count <= |lru|
      modifies this
      ensures Evicts(old(Value()), victims, count, Value())
    {
      var elements := ZPopMin(count);
      victims := set e | e in elements;
      ghost var before := data;
      for i := 0 to |elements|
        invariant lru == old(lru) - victims
        invariant data == before - (set j | 0 <= j < i :: elements[j])
      {
        data := data - {elements[i]};
      }
      assert (set j | 0 <= j < |elements| :: elements[j]) == victims;
    }

    method ZPopMin(count: nat) returns (elements: seq<Key>)
      requires count <= |lru|
      modifies this`lru
      ensures Oldest(set e | e in elements, old(lru), count)
      ensures lru == old(lru) - (set e | e in elements)
    {
      elements := [];
      ghost var popped := {};
      ghost var all := lru;
      for i := 0 to count
        invariant popped == set e | e in elements
        invariant Oldest(popped, all, i) && lru == all - popped
      {
        SubsetSize(popped, all);
        assert lru.Keys != {};
        ghost var least := MinimumExists(lru, lru.Keys);
        var m :| m in lru && forall k :: k in lru ==> lru[m] <= lru[k];
        assert forall k :: k in all && k !in popped ==> k in lru && lru[k] == all[k];
        PopOneMore(popped, all, i, m);
        elements, popped, lru := elements + [m], popped + {m}, lru - {m};
      }
    }

    /** Deletes every indexed key, then the index. */
    method ClearL2()
      modifies this
      ensures forall now :: Next(old(Value()), ClearOp, now, Value())
    {
      var keys := lru.Keys;
      if keys != {} {
        data := data - keys;
      }
      lru := map[];
    }
  }

  lemma SubsetSize(victims: set<Key>, lru: map<Key, Time>)
    requires victims <= lru.Keys
    ensures |lru - victims| == |lru| - |victims|
  {
    assert (lru - victims).Keys == lru.Keys - victims;
  }

  /** If the freshest key were taken, every key would have been. */
  lemma AllVictims(victims: set<Key>, lru: map<Key, Time>, key: Key)
    requires Oldest(victims, lru, |victims|) && key in victims
    requires forall k :: k in lru && k != key ==> lru[k] < lru[key]
    ensures victims == lru.Keys
  {
  }

  /** Taking the oldest but not all of them never takes the one touched last. */
  lemma NewestStays(victims: set<Key>, lru: map<Key, Time>, count: nat, key: Key)
    requires Oldest(victims, lru, count) && count < |lru| && key in lru
    ensures |lru - victims| == |lru| - count
    ensures (forall k :: k in lru && k != key ==> lru[k] < lru[key]) ==> key !in victims
  {
    SubsetSize(victims, lru);
    if key in victims && (forall k :: k in lru && k != key ==> lru[k] < lru[key]) {
      AllVictims(victims, lru, key);
    }
  }

  // ---------------------------------------------------------------------------------------------
  // Runs of whole operations, and of an operation cut in two

  datatype Event = Event(op: Op, at: Time)

  ghost predicate Moves(events: seq<Event>, states: seq<Store>, i: nat)
    requires i < |events| < |states|
  {
    Next(states[i], events[i].op, events[i].at, states[i + 1])
  }

  predicate NotLater(events: seq<Event>, i: nat, j: nat)
    requires i < |events| && j < |events|
  {
    events[i].at <= events[j].at
  }

  /** Any number of gateways taking turns, each operation whole, with any time between them. */
  ghost predicate Execution(events: seq<Event>, states: seq<Store>) {
    && |states| == |events| + 1 && states[0] == Store(map[], map[])
    && (forall i, j {:trigger NotLater(events, i, j)} :: 0 <= i < j < |events| ==> NotLater(events, i, j))
    && (forall i {:trigger Moves(events, states, i)} :: 0 <= i < |events| ==> Moves(events, states, i))
  }

  /** An execution that ends with one more event. */
  lemma LastEvent(events: seq<Event>, states: seq<Store>) returns (before: seq<Event>, earlier: seq<Store>)
    requires Execution(events, states) && events != []
    ensures before == events[..|events| - 1] && earlier == states[..|events|] && Execution(before, earlier)
    ensures earlier[|before|] == states[|events| - 1]
    ensures forall i :: 0 <= i < |before| ==> before[i].at <= events[|events| - 1].at
    ensures
      var n := |events|;
      Next(states[n - 1], events[n - 1].op, events[n - 1].at, states[n])
  {
    var n := |events|;
    before, earlier := events[..n - 1], states[..n];
    forall i, j | 0 <= i < j < n - 1 ensures NotLater(before, i, j) {
      assert NotLater(events, i, j);
    }
    forall i | 0 <= i < n - 1 ensures before[i].at <= events[n - 1].at {
      assert NotLater(events, i, n - 1);
    }
    forall i | 0 <= i < n - 1 ensures Moves(before, earlier, i) {
      assert Moves(events, states, i);
      assert before[i] == events[i] && earlier[i] == states[i] && earlier[i + 1] == states[i + 1];
    }
    assert Moves(events, states, n - 1);
  }

  lemma NextCovers(s: Store, op: Op, now: Time, s': Store)
    requires Covers(s.lru, s.data, now) && Next(s, op, now, s')
    ensures Covers(s'.lru, s'.data, now)
  {
    forall k | Live(s'.data, k, now) ensures k in s'.lru {
      assert Live(s.data, k, now) || op.SetOp?;
      if op.SetOp? && op.maxEntries > 0 && k != op.key {
        assert Live(s.data, k, now);
      }
    }
  }

  /** With whole operations the index covers the store in every reachable state and ever after. */
  lemma {:induction false} IndexCoversStore(events: seq<Event>, states: seq<Store>, now: Time)
    requires Execution(events, states)
    requires forall i :: 0 <= i < |events| ==> events[i].at <= now
    ensures Covers(states[|events|].lru, states[|events|].data, now)
    decreases |events|
  {
    var n := |events|;
    if n > 0 {
      var last := events[n - 1].at;
      var before, earlier := LastEvent(events, states);
      IndexCoversStore(before, earlier, last);
      NextCovers(states[n - 1], events[n - 1].op, last, states[n]);
      CoversLater(states[n].lru, states[n].data, last, now);
    }
  }

  predicate Stores(e: Event, key: Key) {
    e.op.SetOp? && e.op.key == key && e.op.maxEntries > 0
  }

  predicate Asks(e: Event, key: Key) {
    (e.op.GetOp? && e.op.key == key) || Stores(e, key)
  }

  /** Event i is the last one that stored `key`, and `item` is what it stored. */
  ghost predicate LastStored(events: seq<Event>, i: nat, key: Key, item: Item)
    requires i < |events|
  {
    && Stores(events[i], key) && item == NewItem(events[i].op.value, events[i].at, events[i].op.ttl)
    && forall j :: i < j < |events| ==> !Stores(events[j], key)
  }

  /** Event i is the last one that asked for `key` or stored it, at the given time. */
  ghost predicate LastAsked(events: seq<Event>, i: nat, key: Key, at: Time)
    requires i < |events|
  {
    Asks(events[i], key) && events[i].at == at && forall j :: i < j < |events| ==> !Asks(events[j], key)
  }

  lemma NextKeeps(s: Store, e: Event, s': Store, key: Key)
    requires Next(s, e.op, e.at, s')
    ensures key in s'.data ==>
              if Stores(e, key) then s'.data[key] == NewItem(e.op.value, e.at, e.op.ttl)
              else key in s.data && s'.data[key] == s.data[key]
    ensures key in s'.lru ==>
              if Asks(e, key) then s'.lru[key] == e.at else key in s.lru && s'.lru[key] == s.lru[key]
  {
    if e.op.SetOp? && e.op.maxEntries > 0 {
      var stored := Store(s.data[e.op.key := NewItem(e.op.value, e.at, e.op.ttl)], s.lru[e.op.key := e.at]);
      var victims :| Evicts(stored, victims, Excess(stored, e.op.maxEntries), s');
    }
  }

  lemma StoredStep(events: seq<Event>, i: nat, key: Key, item: Item)
    requires i < |events| - 1 && !Stores(events[|events| - 1], key)
    requires LastStored(events[..|events| - 1], i, key, item)
    ensures LastStored(events, i, key, item)
  {
  }

  /** Whatever is in the store is what the last store of its key put there. */
  lemma {:induction false} ItemIsLastStored(events: seq<Event>, states: seq<Store>, key: Key) returns (i: nat)
    requires Execution(events, states) && key in states[|events|].data
    ensures i < |events| && LastStored(events, i, key, states[|events|].data[key])
    decreases |events|
  {
    var n := |events|;
    var before, earlier := LastEvent(events, states);
    NextKeeps(states[n - 1], events[n - 1], states[n], key);
    i := n - 1;
    if !Stores(events[i], key) {
      i := ItemIsLastStored(before, earlier, key);
      StoredStep(events, i, key, states[n].data[key]);
    }
  }

  lemma AskedStep(events: seq<Event>, i: nat, key: Key, at: Time)
    requires i < |events| - 1 && !Asks(events[|events| - 1], key)
    requires LastAsked(events[..|events| - 1], i, key, at)
    ensures LastAsked(events, i, key, at)
  {
  }

  /** A score is the time of the last request that asked for its key, so the victims are the oldest. */
  lemma {:induction false} ScoreIsLastAsked(events: seq<Event>, states: seq<Store>, key: Key) returns (i: nat)
    requires Execution(events, states) && key in states[|events|].lru
    ensures i < |events| && LastAsked(events, i, key, states[|events|].lru[key])
    decreases |events|
  {
    var n := |events|;
    var before, earlier := LastEvent(events, states);
    NextKeeps(states[n - 1], events[n - 1], states[n], key);
    i := n - 1;
    if !Asks(events[i], key) {
      var score := states[n - 1].lru[key];
      i := ScoreIsLastAsked(before, earlier, key);
      AskedStep(events, i, key, score);
    }
  }

  /** So after a store no more than `maxEntries` keys can be found in the cache. */
  lemma LiveKeysBounded(events: seq<Event>, states: seq<Store>, e: Event, s': Store)
    requires Execution(events, states)
    requires forall i :: 0 <= i < |events| ==> events[i].at <= e.at
    requires e.op.SetOp? && e.op.maxEntries > 0 && Next(states[|events|], e.op, e.at, s')
    ensures forall live: set<Key> :: (forall k :: k in live ==> Live(s'.data, k, e.at)) ==> |live| <= e.op.maxEntries
  {
    var s := states[|events|];
    IndexCoversStore(events, states, e.at);
    NextCovers(s, e.op, e.at, s');
    var stored := Store(s.data[e.op.key := NewItem(e.op.value, e.at, e.op.ttl)], s.lru[e.op.key := e.at]);
    var victims :| Evicts(stored, victims, Excess(stored, e.op.maxEntries), s');
    SubsetSize(victims, stored.lru);
    forall live: set<Key> | forall k :: k in live ==> Live(s'.data, k, e.at) ensures |live| <= e.op.maxEntries {
      assert live <= s'.lru.Keys;
      SizeMonotone(live, s'.lru.Keys);
    }
  }

  /** With a strictly increasing clock a store never evicts the very key it has just put there. */
  lemma StoredKeyStays(events: seq<Event>, states: seq<Store>, e: Event, s': Store)
    requires Execution(events, states)
    requires forall i :: 0 <= i < |events| ==> events[i].at < e.at
    requires e.op.SetOp? && e.op.maxEntries > 0 && Next(states[|events|], e.op, e.at, s')
    ensures e.op.key in s'.lru && e.op.key in s'.data
    ensures s'.data[e.op.key] == NewItem(e.op.value, e.at, e.op.ttl)
    ensures e.op.ttl >= 0 ==> Live(s'.data, e.op.key, e.at)
  {
    var s := states[|events|];
    forall k | k in s.lru ensures s.lru[k] < e.at {
      var i := ScoreIsLastAsked(events, states, k);
    }
    var stored := Store(s.data[e.op.key := NewItem(e.op.value, e.at, e.op.ttl)], s.lru[e.op.key := e.at]);
    var victims :| Evicts(stored, victims, Excess(stored, e.op.maxEntries), s');
    NewestStays(victims, stored.lru, Excess(stored, e.op.maxEntries), e.op.key);
  }

  /**
   A store evicts no key while fewer keys than the bound, the stored one among them, have been asked
   for no earlier than it.
   */
  lemma RecentKeysStay(s: Store, e: Event, s': Store, k: Key)
    requires e.op.SetOp? && e.op.maxEntries > 0 && Next(s, e.op, e.at, s') && k in s.lru && k != e.op.key
    requires |AtLeastAsRecent(s.lru[e.op.key := e.at], k)| < e.op.maxEntries
    ensures k in s'.lru && s'.lru[k] == s.lru[k] && (k in s.data ==> k in s'.data && s'.data[k] == s.data[k])
  {
    var stored := Store(s.data[e.op.key := NewItem(e.op.value, e.at, e.op.ttl)], s.lru[e.op.key := e.at]);
    var victims :| Evicts(stored, victims, Excess(stored, e.op.maxEntries), s');
    RecentIsNoVictim(victims, stored.lru, e.op.maxEntries, k);
  }

  function AtLeastAsRecent(lru: map<Key, Time>, k: Key): set<Key>
    requires k in lru
  {
    set j | j in lru && j != k && lru[j] >= lru[k]
  }

  lemma RecentIsNoVictim(victims: set<Key>, lru: map<Key, Time>, maxEntries: int, k: Key)
    requires k in lru && maxEntries > 0
    requires Oldest(victims, lru, if |lru| > maxEntries then |lru| - maxEntries else 0)
    requires |AtLeastAsRecent(lru, k)| < maxEntries
    ensures k !in victims
  {
    if k in victims {
      SubsetSize(victims, lru);
      assert (lru - victims).Keys <= AtLeastAsRecent(lru, k);
      SizeMonotone((lru - victims).Keys, AtLeastAsRecent(lru, k));
    }
  }

  /** What is in the store stays unless it is replaced, evicted, cleared, or found not to decode. */
  lemma NextRetains(s: Store, e: Event, s': Store, k: Key)
    requires Next(s, e.op, e.at, s') && k in s.data && !Stores(e, k)
    ensures || (k in s'.data && s'.data[k] == s.data[k])
            || (!e.op.GetOp? && k in s.lru && k !in s'.lru)
            || (e.op == GetOp(k) && s.data[k].raw == Undecodable)
  {
    if e.op.SetOp? && e.op.maxEntries > 0 {
      var stored := Store(s.data[e.op.key := NewItem(e.op.value, e.at, e.op.ttl)], s.lru[e.op.key := e.at]);
      var victims :| Evicts(stored, victims, Excess(stored, e.op.maxEntries), s');
    }
  }

  lemma {:induction false} SizeMonotone(a: set<Key>, b: set<Key>)
    requires a <= b
    ensures |a| <= |b|
    decreases |a|
  {
    if a != {} {
      var x :| x in a;
      SizeMonotone(a - {x}, b - {x});
    }
  }

  /** Clearing the cache while the index covers the store leaves nothing that a lookup could find. */
  lemma ClearLeavesNothingLive(events: seq<Event>, states: seq<Store>, now: Time, s': Store)
    requires Execution(events, states)
    requires forall i :: 0 <= i < |events| ==> events[i].at <= now
    requires Next(states[|events|], ClearOp, now, s')
    ensures forall k :: !Live(s'.data, k, now)
  {
    IndexCoversStore(events, states, now);
    forall k ensures !Live(s'.data, k, now) {
      assert Live(s'.data, k, now) ==> Live(states[|events|].data, k, now);
    }
  }

  /**
   A lookup that misses sends GET and then ZREM, and other gateways may act in between. Whatever
   they do, the late ZREM leaves the index covering the store exactly when they have not brought
   the key to life.
   */
  lemma LateRemovalUncovers(s: Store, key: Key, now: Time)
    requires Covers(s.lru, s.data, now)
    ensures Covers(s.lru - {key}, s.data, now) <==> !Live(s.data, key, now)
  {
    if !Live(s.data, key, now) {
      forall k | Live(s.data, k, now) ensures k in s.lru - {key} {
      }
    }
  }

  /** It happens: another gateway stores the key between the GET and the ZREM of a miss. */
  lemma InterleavedMissUncovers(key: Key, value: KeyValue, ttl: Time, now: Time) returns (s: Store)
    ensures !Live(map[], key, now)
    ensures Next(Store(map[], map[]), SetOp(key, value, ttl, 1), now, s)
    ensures !Covers(s.lru - {key}, s.data, now)
  {
    s := Store(map[key := NewItem(value, now, ttl)], map[key := now]);
    EvictNone(s);
    assert Evicts(s, {}, Excess(s, 1), s);
    assert Live(s.data, key, now);
  }

  /** A key left alive outside the index in that way outlives a clear, and no eviction reaches it. */
  lemma LateRemovalSurvivesClear(s: Store, key: Key, now: Time, s': Store)
    requires Live(s.data, key, now) && Next(Store(s.data, s.lru - {key}), ClearOp, now, s')
    ensures Live(s'.data, key, now)
  {
  }

  /** The next lookup of such a key brings it back into the index, or deletes it if it does not decode. */
  lemma HitRestoresCover(s: Store, key: Key, now: Time, s': Store)
    requires forall k :: Live(s.data, k, now) && k != key ==> k in s.lru
    requires Live(s.data, key, now) && Next(s, GetOp(key), now, s')
    ensures Covers(s'.lru, s'.data, now)
  {
  }
}
