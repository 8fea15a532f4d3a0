/**
 What the L1 cache keeps: a key stays as long as fewer other keys than the bound have been brought
 to the front since it was, and none of its own lookups came too late.
 */
module L1Retention {
  import opened Basics
  import opened L1Order

  /** A lookup within both deadlines, which are still open at the deadline itself. */
  predicate InTime(v: KeyValue, now: Time) {
    now <= v.l1Expiration && (v.l2Expiration.Some? ==> now <= v.l2Expiration.value)
  }

  /** The operation ends with its key in front: a store, or a lookup that is answered. */
  predicate BringsToFront(o: Order, op: Op) {
    match op
    case GetOp(_, _) => Answer(o, op).Some?
    case SetOp(_, _, maxEntries) => maxEntries > 0
    case ClearOp => false
  }

  /** The other keys that operations after position i have brought to the front. */
  function OthersSince(ops: seq<Op>, i: nat, key: Key): set<Key> {
    if |ops| <= i + 1 then {}
    else
      var before, op := ops[..|ops| - 1], ops[|ops| - 1];
      OthersSince(before, i, key)
      + (if BringsToFront(Run(before), op) && op.key != key then {op.key} else {})
  }

  /** No clear, a store bounded by `maxEntries`, or a lookup that for `key` itself comes in time. */
  predicate SparesKey(ops: seq<Op>, j: nat, key: Key, maxEntries: int)
    requires j < |ops|
  {
    match ops[j]
    case GetOp(k, now) =>
      k == key ==> LastStored(ops[..j], key).Some? && InTime(LastStored(ops[..j], key).value, now)
    case SetOp(_, _, bound) => bound == maxEntries
    case ClearOp => false
  }

  ghost predicate Undisturbed(ops: seq<Op>, i: nat, key: Key, maxEntries: int) {
    forall j {:trigger SparesKey(ops, j, key, maxEntries)} :: i < j < |ops| ==> SparesKey(ops, j, key, maxEntries)
  }

  /** The entry of `key` stands behind entries of `others` only. */
  ghost predicate StandsBehind(o: Order, key: Key, others: set<Key>) {
    exists at: nat :: Behind(o, at, key, others)
  }

  ghost predicate Behind(o: Order, at: nat, key: Key, others: set<Key>) {
    at < |o| && o[at].key == key && forall j :: 0 <= j < at ==> o[j].key in others
  }

  // ---------------------------------------------------------------------------------------------
  // One step

  lemma {:induction false} KeysAhead(o: Order, at: nat, others: set<Key>)
    requires UniqueKeys(o) && at <= |o| && forall j :: 0 <= j < at ==> o[j].key in others
    ensures at <= |others|
    decreases at
  {
    if at > 0 {
      forall j | 0 <= j < at - 1 ensures o[j].key in others - {o[at - 1].key} {
        assert o[j].key != o[at - 1].key;
      }
      KeysAhead(o, at - 1, others - {o[at - 1].key});
    }
  }

  /** Dropping another key leaves the entry behind what it was behind. */
  lemma {:induction false} BehindWithout(o: Order, at: nat, key: Key, others: set<Key>, drop: Key)
    requires Behind(o, at, key, others) && drop != key
    ensures StandsBehind(Without(o, drop), key, others)
  {
    if at == 0 {
      assert Behind(Without(o, drop), 0, key, others);
    } else {
      BehindWithout(o[1..], at - 1, key, others, drop);
      var k: nat :| Behind(Without(o[1..], drop), k, key, others);
      var to := if o[0].key == drop then k else k + 1;
      assert Behind(Without(o, drop), to, key, others);
    }
  }

  lemma BehindFront(o: Order, key: Key, others: set<Key>, e: Entry)
    requires StandsBehind(o, key, others)
    ensures StandsBehind([e] + o, key, others + {e.key})
  {
    var at: nat :| Behind(o, at, key, others);
    assert Behind([e] + o, at + 1, key, others + {e.key});
  }

  lemma FrontStands(e: Entry, rest: Order, others: set<Key>)
    ensures StandsBehind([e] + rest, e.key, others)
  {
    assert Behind([e] + rest, 0, e.key, others);
  }

  /** A new key in front pushes out only the last entry, which `key` is not while others are few. */
  lemma BehindNewKey(o: Order, key: Key, others: set<Key>, added: Entry, maxEntries: int)
    requires UniqueKeys(o) && StandsBehind(o, key, others)
    requires Find(o, added.key).None? && |others + {added.key}| < maxEntries
    ensures StandsBehind(Set(o, added.key, added.value, maxEntries), key, others + {added.key})
  {
    var at: nat :| Behind(o, at, key, others);
    NotFound(o, added.key);
    var kept := if |o| >= maxEntries then AllButLast(o) else o;
    if |o| >= maxEntries {
      forall j | 0 <= j < at ensures o[j].key in others - {added.key} {
        assert o[j] in o;
      }
      KeysAhead(o, at, others - {added.key});
      assert others + {added.key} == (others - {added.key}) + {added.key};
    }
    assert Behind(kept, at, key, others);
    BehindFront(kept, key, others, added);
  }

  lemma StepKeeps(o: Order, op: Op, key: Key, others: set<Key>, maxEntries: int)
    requires UniqueKeys(o) && StandsBehind(o, key, others) && op != ClearOp
    requires op.SetOp? ==> op.maxEntries == maxEntries
    requires op.GetOp? && op.key == key ==> Find(o, key).Some? && InTime(Find(o, key).value, op.now)
    requires
      var more := others + if BringsToFront(o, op) && op.key != key then {op.key} else {};
      |more| < maxEntries
    ensures
      var more := others + if BringsToFront(o, op) && op.key != key then {op.key} else {};
      StandsBehind(Apply(o, op), key, more)
  {
    var at: nat :| Behind(o, at, key, others);
    if op.key == key {
      FindAbsent(o, key);
      FrontStands(Apply(o, op)[0], Apply(o, op)[1..], others);
      assert Apply(o, op) == [Apply(o, op)[0]] + Apply(o, op)[1..];
      assert others + {} == others;
    } else if op.SetOp? && Find(o, op.key).None? {
      BehindNewKey(o, key, others, Entry(op.key, op.value), maxEntries);
    } else if Find(o, op.key).Some? {
      BehindWithout(o, at, key, others, op.key);
      if BringsToFront(o, op) {
        BehindFront(Without(o, op.key), key, others, Apply(o, op)[0]);
      } else {
        assert others + {} == others;
      }
    } else {
      assert others + {} == others;
    }
  }

  // ---------------------------------------------------------------------------------------------
  // Runs

  lemma {:induction false} KeyStays(ops: seq<Op>, i: nat, key: Key, maxEntries: int)
    requires i < |ops| && ops[i] != ClearOp && ops[i].key == key && BringsToFront(Run(ops[..i]), ops[i])
    requires Undisturbed(ops, i, key, maxEntries) && |OthersSince(ops, i, key)| < maxEntries
    ensures StandsBehind(Run(ops), key, OthersSince(ops, i, key))
    decreases |ops|
  {
    var before, op := ops[..|ops| - 1], ops[|ops| - 1];
    if i == |ops| - 1 {
      assert before == ops[..i];
      FrontStands(Run(ops)[0], Run(ops)[1..], {});
      assert Run(ops) == [Run(ops)[0]] + Run(ops)[1..];
    } else {
      assert before[..i] == ops[..i] && before[i] == ops[i];
      ShorterUndisturbed(ops, i, key, maxEntries);
      assert SparesKey(ops, |ops| - 1, key, maxEntries);
      FewerBefore(ops, i, key);
      KeyStays(before, i, key, maxEntries);
      RunIsRecencyOrder(before);
      if op.GetOp? && op.key == key {
        LookupFinds(before, key, OthersSince(before, i, key));
      }
      StepKeeps(Run(before), op, key, OthersSince(before, i, key), maxEntries);
    }
  }

  lemma ShorterUndisturbed(ops: seq<Op>, i: nat, key: Key, maxEntries: int)
    requires ops != [] && Undisturbed(ops, i, key, maxEntries)
    ensures Undisturbed(ops[..|ops| - 1], i, key, maxEntries)
  {
    var before := ops[..|ops| - 1];
    forall j | i < j < |before| ensures SparesKey(before, j, key, maxEntries) {
      assert SparesKey(ops, j, key, maxEntries);
      assert before[j] == ops[j] && before[..j] == ops[..j];
    }
  }

  lemma FewerBefore(ops: seq<Op>, i: nat, key: Key)
    requires i < |ops| - 1
    ensures |OthersSince(ops[..|ops| - 1], i, key)| <= |OthersSince(ops, i, key)|
  {
    var fewer, more := OthersSince(ops[..|ops| - 1], i, key), OthersSince(ops, i, key);
    assert more == fewer + (more - fewer);
  }

  lemma LookupFinds(ops: seq<Op>, key: Key, others: set<Key>)
    requires StandsBehind(Run(ops), key, others)
    ensures Find(Run(ops), key).Some? && Find(Run(ops), key) == LastStored(ops, key)
  {
    var at: nat :| Behind(Run(ops), at, key, others);
    FindAbsent(Run(ops), key);
    RunIsRecencyOrder(ops);
    FindIn(Run(ops), key);
  }

  /**
   Retention: a key that was stored or answered at position i is answered again, with the value last
   stored for it, if there has been no clear since, all stores had one bound, fewer other keys than
   that bound were stored or answered since, and this lookup, as every one of the key since, comes
   within both deadlines of the value it asks for.
   */
  lemma KeptKeyHits(ops: seq<Op>, i: nat, key: Key, maxEntries: int, now: Time)
    requires i < |ops| && ops[i] != ClearOp && ops[i].key == key && BringsToFront(Run(ops[..i]), ops[i])
    requires Undisturbed(ops, i, key, maxEntries) && |OthersSince(ops, i, key)| < maxEntries
    requires LastStored(ops, key).Some? ==> InTime(LastStored(ops, key).value, now)
    ensures LastStored(ops, key).Some?
    ensures Get(Run(ops), key, now).1 == LastStored(ops, key)
  {
    KeyStays(ops, i, key, maxEntries);
    LookupFinds(ops, key, OthersSince(ops, i, key));
  }

  /** So a store that finds room keeps every other entry, and one that finds none drops only the last. */
  lemma RoomKeepsAll(o: Order, key: Key, value: KeyValue, maxEntries: int, e: Entry)
    requires e in o && e.key != key
    requires |o| < maxEntries || Find(o, key).Some? || e in AllButLast(o)
    ensures e in Set(o, key, value, maxEntries)
  {
    WithoutKeeps(o, key);
  }

  /** A lookup that is not answered leaves the key out of the cache, an expired entry included. */
  lemma MissLeavesNothing(o: Order, key: Key, now: Time)
    ensures Get(o, key, now).1.None? ==> Find(Get(o, key, now).0, key).None?
    ensures Get(o, key, now).1.Some? <==> Find(o, key).Some? && InTime(Find(o, key).value, now)
  {
    FindWithout(o, key, key);
  }
}
