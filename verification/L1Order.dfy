/**
 The L1 cache seen as a value: the list of entries, most recently touched first, and what each
 operation of gateway/l1_cache.go does to it.
 */
module L1Order {
  import opened Basics

  datatype Entry = Entry(key: Key, value: KeyValue)

  type Order = seq<Entry>

  ghost predicate UniqueKeys(o: Order) {
    forall i, j :: 0 <= i < j < |o| ==> o[i].key != o[j].key
  }

  function Find(o: Order, key: Key): Option<KeyValue> {
    if o == [] then None
    else if o[0].key == key then Some(o[0].value)
    else Find(o[1..], key)
  }

  function Without(o: Order, key: Key): Order {
    if o == [] then []
    else if o[0].key == key then Without(o[1..], key)
    else [o[0]] + Without(o[1..], key)
  }

  /** Both clocks count: the entry's own L1 deadline and the deadline of the L2 value it copies. */
  predicate Expired(v: KeyValue, now: Time) {
    now > v.l1Expiration || (v.l2Expiration.Some? && now > v.l2Expiration.value)
  }

  function Get(o: Order, key: Key, now: Time): (Order, Option<KeyValue>) {
    match Find(o, key)
    case None => (o, None)
    case Some(v) =>
      if Expired(v, now) then (Without(o, key), None)
      else ([Entry(key, v)] + Without(o, key), Some(v))
  }

  function AllButLast(o: Order): Order {
    if o == [] then [] else o[..|o| - 1]
  }

  function Set(o: Order, key: Key, value: KeyValue, maxEntries: int): Order {
    if maxEntries <= 0 then o
    else if Find(o, key).Some? then [Entry(key, value)] + Without(o, key)
    else [Entry(key, value)] + (if |o| >= maxEntries then AllButLast(o) else o)
  }

  // ---------------------------------------------------------------------------------------------
  // Find and Without

  lemma {:induction false} FindAt(o: Order, k: nat)
    requires UniqueKeys(o) && k < |o|
    ensures Find(o, o[k].key) == Some(o[k].value)
    ensures Without(o, o[k].key) == o[..k] + o[k + 1..]
  {
    if k == 0 {
      FindAbsent(o[1..], o[0].key);
    } else {
      FindAt(o[1..], k - 1);
      assert o[..k] == [o[0]] + o[1..][..k - 1];
    }
  }

  lemma {:induction false} FindAbsent(o: Order, key: Key)
    ensures Find(o, key).None? <==> (forall i :: 0 <= i < |o| ==> o[i].key != key)
    ensures Find(o, key).None? ==> Without(o, key) == o
  {
    if o != [] {
      FindAbsent(o[1..], key);
      assert forall i :: 0 < i < |o| ==> o[i] == o[1..][i - 1];
    }
  }

  lemma NotFound(o: Order, key: Key)
    requires Find(o, key).None?
    ensures forall e :: e in o ==> e.key != key
    ensures Without(o, key) == o
  {
    FindAbsent(o, key);
  }

  function Value(o: Order, key: Key): KeyValue {
    if Find(o, key).Some? then Find(o, key).value else KeyValue([], 0, None, 0)
  }

  /** `Without` keeps exactly the entries of other keys, so it keeps keys unique. */
  lemma {:induction false} WithoutKeeps(o: Order, key: Key)
    ensures |Without(o, key)| <= |o|
    ensures forall e :: e in Without(o, key) <==> e in o && e.key != key
    ensures UniqueKeys(o) ==> UniqueKeys(Without(o, key))
  {
    if o != [] {
      WithoutKeeps(o[1..], key);
      assert forall e :: e in o <==> e == o[0] || e in o[1..];
      assert UniqueKeys(o) ==> UniqueKeys(o[1..]);
      if UniqueKeys(o) && o[0].key != key {
        var rest := Without(o[1..], key);
        forall j | 0 <= j < |rest| ensures rest[j].key != o[0].key {
          assert rest[j] in o[1..];
        }
      }
    }
  }

  lemma {:induction false} FindWithout(o: Order, key: Key, other: Key)
    ensures Find(Without(o, key), other) == if other == key then None else Find(o, other)
  {
    if o != [] {
      FindWithout(o[1..], key, other);
    }
  }

  // ---------------------------------------------------------------------------------------------
  // What a run leaves behind

  datatype Op = GetOp(key: Key, now: Time) | SetOp(key: Key, value: KeyValue, maxEntries: int) | ClearOp

  function Apply(o: Order, op: Op): Order {
    match op
    case GetOp(key, now) => Get(o, key, now).0
    case SetOp(key, value, maxEntries) => Set(o, key, value, maxEntries)
    case ClearOp => []
  }

  function Run(ops: seq<Op>): Order {
    if ops == [] then [] else Apply(Run(ops[..|ops| - 1]), ops[|ops| - 1])
  }

  /** What the caller of an operation gets back. */
  function Answer(o: Order, op: Op): Option<KeyValue> {
    if op.GetOp? then Get(o, op.key, op.now).1 else None
  }

  function Answers(ops: seq<Op>): seq<Option<KeyValue>> {
    if ops == [] then []
    else
      var before := ops[..|ops| - 1];
      Answers(before) + [Answer(Run(before), ops[|ops| - 1])]
  }

  lemma PrefixRun(ops: seq<Op>, i: nat)
    requires i < |ops|
    ensures Run(ops[..i + 1]) == Apply(Run(ops[..i]), ops[i])
    ensures Answers(ops[..i + 1]) == Answers(ops[..i]) + [Answer(Run(ops[..i]), ops[i])]
  {
    assert ops[..i + 1][..i] == ops[..i];
  }

  predicate Touches(op: Op, key: Key) {
    match op
    case GetOp(k, _) => k == key
    case SetOp(k, _, maxEntries) => k == key && maxEntries > 0
    case ClearOp => false
  }

  /** The position of the last operation that asked for `key` or stored it; -1 when there is none. */
  function LastTouch(ops: seq<Op>, key: Key): int {
    if ops == [] then -1
    else if Touches(ops[|ops| - 1], key) then |ops| - 1
    else LastTouch(ops[..|ops| - 1], key)
  }

  /** The value of the last storing operation on `key` since the last clear. */
  function LastStored(ops: seq<Op>, key: Key): Option<KeyValue> {
    if ops == [] then None
    else
      match ops[|ops| - 1]
      case ClearOp => None
      case GetOp(_, _) => LastStored(ops[..|ops| - 1], key)
      case SetOp(k, v, maxEntries) =>
        if k == key && maxEntries > 0 then Some(v) else LastStored(ops[..|ops| - 1], key)
  }

  ghost predicate ByLastTouch(ops: seq<Op>, o: Order) {
    forall i, j :: 0 <= i < j < |o| ==> LastTouch(ops, o[i].key) > LastTouch(ops, o[j].key)
  }

  lemma {:induction false} LastTouchBound(ops: seq<Op>, key: Key)
    ensures -1 <= LastTouch(ops, key) < |ops|
  {
    if ops != [] {
      LastTouchBound(ops[..|ops| - 1], key);
    }
  }

  lemma AheadByLastTouch(ops: seq<Op>, e: Entry, rest: Order)
    requires ByLastTouch(ops, rest)
    requires forall r :: r in rest ==> LastTouch(ops, e.key) > LastTouch(ops, r.key)
    ensures ByLastTouch(ops, [e] + rest)
  {
    assert forall j :: 0 <= j < |rest| ==> rest[j] in rest;
  }

  lemma TailByLastTouch(ops: seq<Op>, o: Order)
    requires o != [] && ByLastTouch(ops, o)
    ensures ByLastTouch(ops, o[1..])
    ensures forall r :: r in o[1..] ==> LastTouch(ops, o[0].key) > LastTouch(ops, r.key)
  {
    assert forall i :: 0 <= i < |o[1..]| ==> o[1..][i] == o[i + 1];
  }

  /** Dropping one key from a list keeps the relative order of the others. */
  lemma {:induction false} WithoutByLastTouch(ops: seq<Op>, o: Order, key: Key)
    requires ByLastTouch(ops, o)
    ensures ByLastTouch(ops, Without(o, key))
  {
    if o != [] {
      TailByLastTouch(ops, o);
      WithoutByLastTouch(ops, o[1..], key);
      WithoutKeeps(o[1..], key);
      AheadByLastTouch(ops, o[0], Without(o[1..], key));
    }
  }

  /** One more operation that touches none of the keys of `o` leaves its order by last touch alone. */
  lemma UntouchedByLastTouch(ops: seq<Op>, op: Op, o: Order)
    requires ByLastTouch(ops, o)
    requires forall e :: e in o ==> !Touches(op, e.key)
    ensures ByLastTouch(ops + [op], o)
  {
    forall e | e in o ensures LastTouch(ops + [op], e.key) == LastTouch(ops, e.key) {
      assert (ops + [op])[..|ops|] == ops;
    }
    assert forall i :: 0 <= i < |o| ==> o[i] in o;
  }

  /** Putting the touched key in front of others that were not touched is again an order by last touch. */
  lemma FrontByLastTouch(ops: seq<Op>, op: Op, e: Entry, rest: Order)
    requires ByLastTouch(ops, rest)
    requires Touches(op, e.key)
    requires forall r :: r in rest ==> !Touches(op, r.key)
    ensures ByLastTouch(ops + [op], [e] + rest)
  {
    UntouchedByLastTouch(ops, op, rest);
    assert (ops + [op])[..|ops|] == ops;
    forall r | r in rest ensures LastTouch(ops + [op], r.key) < |ops| {
      LastTouchBound(ops, r.key);
    }
    AheadByLastTouch(ops + [op], e, rest);
  }

  /** Keys stay unique, and every resident value is the last one stored since the last clear. */
  ghost predicate Faithful(ops: seq<Op>, o: Order) {
    && UniqueKeys(o)
    && forall e :: e in o ==> LastStored(ops, e.key) == Some(e.value)
  }

  lemma FindIn(o: Order, key: Key)
    requires Find(o, key).Some?
    ensures Entry(key, Find(o, key).value) in o
  {
    if o[0].key != key {
      FindIn(o[1..], key);
    }
  }

  lemma FrontUnique(e: Entry, rest: Order)
    requires UniqueKeys(rest)
    requires forall r :: r in rest ==> r.key != e.key
    ensures UniqueKeys([e] + rest)
  {
    forall j | 0 <= j < |rest| ensures rest[j].key != e.key {
      assert rest[j] in rest;
    }
  }

  lemma UniqueAfter(o: Order, op: Op)
    requires UniqueKeys(o)
    ensures UniqueKeys(Apply(o, op))
  {
    if op.GetOp? || (op.SetOp? && Find(o, op.key).Some?) {
      WithoutKeeps(o, op.key);
      FrontUnique(Entry(op.key, if op.SetOp? then op.value else Value(o, op.key)), Without(o, op.key));
    } else if op.SetOp? && op.maxEntries > 0 {
      NotFound(o, op.key);
      FrontUnique(Entry(op.key, op.value), o);
      FrontUnique(Entry(op.key, op.value), AllButLast(o));
    }
  }

  /** Where the entries come from: a `Set` brings one in, every other one was there before. */
  lemma EntryOrigin(o: Order, op: Op, e: Entry)
    requires e in Apply(o, op)
    ensures e in o || (op.SetOp? && op.maxEntries > 0 && e == Entry(op.key, op.value))
    ensures op.SetOp? && op.maxEntries > 0 && e.key == op.key ==> e.value == op.value
  {
    if op != ClearOp && e !in o {
      WithoutKeeps(o, op.key);
      if op.GetOp? {
        FindIn(o, op.key);
      }
    } else if op.SetOp? && e.key == op.key {
      WithoutKeeps(o, op.key);
      FindAbsent(o, op.key);
    }
  }

  lemma StepFaithful(ops: seq<Op>, op: Op, o: Order)
    requires Faithful(ops, o)
    ensures Faithful(ops + [op], Apply(o, op))
  {
    UniqueAfter(o, op);
    assert (ops + [op])[..|ops|] == ops;
    forall e | e in Apply(o, op) ensures LastStored(ops + [op], e.key) == Some(e.value) {
      EntryOrigin(o, op, e);
    }
  }

  lemma StepByLastTouch(ops: seq<Op>, op: Op, o: Order)
    requires ByLastTouch(ops, o)
    ensures ByLastTouch(ops + [op], Apply(o, op))
  {
    match op
    case GetOp(key, now) =>
      if Find(o, key).None? {
        NotFound(o, key);
        UntouchedByLastTouch(ops, op, o);
      } else {
        WithoutKeeps(o, key);
        WithoutByLastTouch(ops, o, key);
        UntouchedByLastTouch(ops, op, Without(o, key));
        FrontByLastTouch(ops, op, Entry(key, Value(o, key)), Without(o, key));
      }
    case SetOp(key, value, maxEntries) =>
      if maxEntries <= 0 {
        UntouchedByLastTouch(ops, op, o);
      } else if Find(o, key).Some? {
        WithoutKeeps(o, key);
        WithoutByLastTouch(ops, o, key);
        FrontByLastTouch(ops, op, Entry(key, value), Without(o, key));
      } else {
        NotFound(o, key);
        FrontByLastTouch(ops, op, Entry(key, value), o);
        FrontByLastTouch(ops, op, Entry(key, value), AllButLast(o));
      }
    case ClearOp =>
  }

  /**
   After any run from an empty cache, the list is ordered by last touch, most recent first; every
   entry carries the last value stored for its key since the last clear.
   */
  lemma {:induction false} RunIsRecencyOrder(ops: seq<Op>)
    ensures ByLastTouch(ops, Run(ops))
    ensures UniqueKeys(Run(ops))
    ensures forall e :: e in Run(ops) ==> LastStored(ops, e.key) == Some(e.value)
  {
    if ops != [] {
      var before, op := ops[..|ops| - 1], ops[|ops| - 1];
      RunIsRecencyOrder(before);
      assert before + [op] == ops;
      StepFaithful(before, op, Run(before));
      StepByLastTouch(before, op, Run(before));
    }
  }

  /**
   A hit after any run returns the last value stored for that key since the last clear, and never
   after either of its two deadlines.
   */
  lemma HitReturnsLastStored(ops: seq<Op>, key: Key, now: Time)
    requires Get(Run(ops), key, now).1.Some?
    ensures Get(Run(ops), key, now).1 == LastStored(ops, key)
    ensures !Expired(Get(Run(ops), key, now).1.value, now)
  {
    RunIsRecencyOrder(ops);
    FindIn(Run(ops), key);
  }

  /** The same of the answers of a whole run: a lookup that is answered gets the last stored value. */
  lemma {:induction false} AnswersAreLastStored(ops: seq<Op>, i: nat)
    requires i < |ops|
    ensures |Answers(ops)| == |ops|
    ensures Answers(ops)[i].Some? ==>
              ops[i].GetOp? && Answers(ops)[i] == LastStored(ops[..i], ops[i].key)
              && !Expired(Answers(ops)[i].value, ops[i].now)
    decreases |ops|
  {
    var before := ops[..|ops| - 1];
    AnswersLength(before);
    if i < |ops| - 1 {
      AnswersAreLastStored(before, i);
      assert before[..i] == ops[..i];
    } else if Answers(ops)[i].Some? {
      HitReturnsLastStored(before, ops[i].key, ops[i].now);
    }
  }

  lemma {:induction false} AnswersLength(ops: seq<Op>)
    ensures |Answers(ops)| == |ops|
  {
    if ops != [] {
      AnswersLength(ops[..|ops| - 1]);
    }
  }

  lemma {:induction false} WithoutShrinks(o: Order, key: Key)
    requires Find(o, key).Some?
    ensures |Without(o, key)| < |o|
  {
    if o[0].key == key {
      WithoutKeeps(o[1..], key);
    } else {
      WithoutShrinks(o[1..], key);
    }
  }

  /** The cache never grows past the larger of its old size and the bound. */
  lemma SetSize(o: Order, key: Key, value: KeyValue, maxEntries: int)
    ensures |Set(o, key, value, maxEntries)| <= Max(|o|, maxEntries)
  {
    if Find(o, key).Some? {
      WithoutShrinks(o, key);
    }
  }

  /**
   When storing a new key evicts, exactly one entry goes: the one whose key was touched before
   every other resident key.
   */
  lemma VictimIsLeastRecentlyTouched(ops: seq<Op>, key: Key, value: KeyValue, maxEntries: int)
    returns (victim: Entry)
    requires 0 < maxEntries <= |Run(ops)| && Find(Run(ops), key).None?
    ensures victim in Run(ops)
    ensures forall e :: e in Run(ops) && e != victim ==>
                          LastTouch(ops, victim.key) < LastTouch(ops, e.key)
    ensures forall e :: e in Set(Run(ops), key, value, maxEntries) <==>
                          e == Entry(key, value) || (e in Run(ops) && e != victim)
  {
    var o := Run(ops);
    RunIsRecencyOrder(ops);
    victim := LastIsOldest(ops, o);
    assert Set(o, key, value, maxEntries) == [Entry(key, value)] + o[..|o| - 1];
  }

  lemma LastIsOldest(ops: seq<Op>, o: Order) returns (last: Entry)
    requires o != [] && ByLastTouch(ops, o)
    ensures last in o
    ensures forall e :: e in o && e != last ==> LastTouch(ops, last.key) < LastTouch(ops, e.key)
    ensures forall e :: e in o[..|o| - 1] <==> e in o && e != last
  {
    last := o[|o| - 1];
    forall e | e in o && e != last
      ensures LastTouch(ops, last.key) < LastTouch(ops, e.key) && e in o[..|o| - 1]
    {
      var i :| 0 <= i < |o| && o[i] == e;
      assert o[..|o| - 1][i] == e;
    }
  }
}
