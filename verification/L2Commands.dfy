/**
 The L2 cache one Redis command at a time: the operations of gateway/l2_cache.go cut into their
 commands, those of any number of requests interleaved in any order, and each operation left off at
 any point, because a command failed or the request it ran under was canceled.
 */
module L2Commands {
  import opened Basics
  import opened L2Cache

  type Pid = nat

  /** The command an operation sends next. */
  datatype Pc =
    | Touching(key: Key)                  // ZADD after a hit
    | Discarding(key: Key)                // DEL of a value that does not decode
    | Removing(key: Key)                  // ZREM after a miss
    | Adding(key: Key, maxEntries: nat)   // ZADD after a SET
    | Counting(maxEntries: nat)           // ZCARD
    | Popping(count: nat)                 // ZPOPMIN
    | Evicting(keys: set<Key>)            // DEL of every popped key
    | Clearing(keys: set<Key>)            // DEL of the listed keys
    | DroppingIndex                       // DEL of the index

  datatype State = State(
    now: Time,
    data: map<Key, Item>,
    lru: map<Key, Time>,
    ops: map<Pid, Pc>,
    strayed: set<Key>)  // history: the keys that a step left live outside the index, not indexed since

  datatype Step =
    | Get(p: Pid, key: Key)
    | ZAddHit(p: Pid)
    | DelUndecodable(p: Pid)
    | DelUndecodableFails(p: Pid)
    | ZRem(p: Pid)
    | Set(p: Pid, key: Key, value: KeyValue, ttl: Time, maxEntries: int)
    | ZAddStored(p: Pid)
    | ZCard(p: Pid)
    | ZPopMin(p: Pid, victims: set<Key>)
    | DelVictim(p: Pid, key: Key)
    | DelVictimFails(p: Pid, key: Key)
    | ZRange(p: Pid)
    | DelListed(p: Pid)
    | DelIndex(p: Pid)
    | LeaveOff(p: Pid)
    | Tick(until: Time)

  const Init := State(0, map[], map[], map[], {})

  ghost predicate Enabled(s: State, step: Step) {
    match step
    case Get(p, _) => p !in s.ops
    case ZAddHit(p) => p in s.ops && s.ops[p].Touching?
    case DelUndecodable(p) => p in s.ops && s.ops[p].Discarding?
    case DelUndecodableFails(p) => p in s.ops && s.ops[p].Discarding?
    case ZRem(p) => p in s.ops && s.ops[p].Removing?
    case Set(p, _, _, _, maxEntries) => p !in s.ops && maxEntries > 0
    case ZAddStored(p) => p in s.ops && s.ops[p].Adding?
    case ZCard(p) => p in s.ops && s.ops[p].Counting?
    case ZPopMin(p, victims) =>
      p in s.ops && s.ops[p].Popping?
      && Oldest(victims, s.lru, if s.ops[p].count <= |s.lru| then s.ops[p].count else |s.lru|)
    case DelVictim(p, key) => p in s.ops && s.ops[p].Evicting? && key in s.ops[p].keys
    case DelVictimFails(p, key) => p in s.ops && s.ops[p].Evicting? && key in s.ops[p].keys
    case ZRange(p) => p !in s.ops
    case DelListed(p) => p in s.ops && s.ops[p].Clearing?
    case DelIndex(p) => p in s.ops && s.ops[p].DroppingIndex?
    case LeaveOff(p) => p in s.ops
    case Tick(until) => s.now <= until
  }

  function Goto(s: State, p: Pid, pc: Pc): State {
    s.(ops := s.ops[p := pc])
  }

  function Finish(s: State, p: Pid): State {
    s.(ops := s.ops - {p})
  }

  /** The keys that the rest of the operation is still to index or to delete. */
  function Pending(pc: Pc): set<Key> {
    match pc
    case Adding(key, _) => {key}
    case Evicting(keys) => keys
    case _ => {}
  }

  /** Those of `keys` that are live and not in the index have strayed. */
  function Stray(s: State, keys: set<Key>): State {
    s.(strayed := s.strayed + set k | k in keys && Live(s.data, k, s.now) && k !in s.lru)
  }

  function Index(s: State, key: Key): State {
    s.(lru := s.lru[key := s.now], strayed := s.strayed - {key})
  }

  function EvictNext(s: State, p: Pid, keys: set<Key>): State {
    if keys == {} then Finish(s, p) else Goto(s, p, Evicting(keys))
  }

  function Do(s: State, step: Step): State
    requires Enabled(s, step)
  {
    match step
    case Get(p, key) =>
      if !Live(s.data, key, s.now) then Goto(s, p, Removing(key))
      else if s.data[key].raw == Undecodable then Goto(s, p, Discarding(key))
      else Goto(s, p, Touching(key))
    case ZAddHit(p) => Finish(Index(s, s.ops[p].key), p)
    case DelUndecodable(p) => Goto(s.(data := s.data - {s.ops[p].key}), p, Removing(s.ops[p].key))
    case DelUndecodableFails(p) => Goto(s, p, Removing(s.ops[p].key))
    case ZRem(p) => Finish(Stray(s.(lru := s.lru - {s.ops[p].key}), {s.ops[p].key}), p)
    case Set(p, key, value, ttl, maxEntries) =>
      Goto(s.(data := s.data[key := NewItem(value, s.now, ttl)]), p, Adding(key, maxEntries))
    case ZAddStored(p) => Goto(Index(s, s.ops[p].key), p, Counting(s.ops[p].maxEntries))
    case ZCard(p) =>
      var max := s.ops[p].maxEntries;
      if |s.lru| > max then Goto(s, p, Popping(|s.lru| - max)) else Finish(s, p)
    case ZPopMin(p, victims) => EvictNext(s.(lru := s.lru - victims), p, victims)
    case DelVictim(p, key) => EvictNext(s.(data := s.data - {key}), p, s.ops[p].keys - {key})
    case DelVictimFails(p, key) => EvictNext(Stray(s, {key}), p, s.ops[p].keys - {key})
    case ZRange(p) => Goto(s, p, if s.lru == map[] then DroppingIndex else Clearing(s.lru.Keys))
    case DelListed(p) => Goto(s.(data := s.data - s.ops[p].keys), p, DroppingIndex)
    case DelIndex(p) => Finish(Stray(s.(lru := map[]), s.lru.Keys), p)
    case LeaveOff(p) => Finish(Stray(s, Pending(s.ops[p])), p)
    case Tick(until) => s.(now := until)
  }

  ghost predicate CanRun(s: State, steps: seq<Step>)
    decreases |steps|
  {
    steps != [] ==> Enabled(s, steps[0]) && CanRun(Do(s, steps[0]), steps[1..])
  }

  ghost function RunTo(s: State, steps: seq<Step>): State
    requires CanRun(s, steps)
    decreases |steps|
  {
    if steps == [] then s else RunTo(Do(s, steps[0]), steps[1..])
  }

  lemma FirstThen(s: State, step: Step, rest: seq<Step>)
    requires Enabled(s, step) && CanRun(Do(s, step), rest)
    ensures CanRun(s, [step] + rest) && RunTo(s, [step] + rest) == RunTo(Do(s, step), rest)
  {
    var steps := [step] + rest;
    assert steps[0] == step && steps[1..] == rest;
  }

  lemma TwoSteps(s: State, a: Step, b: Step)
    requires Enabled(s, a) && Enabled(Do(s, a), b)
    ensures CanRun(s, [a, b]) && RunTo(s, [a, b]) == Do(Do(s, a), b)
  {
    FirstThen(Do(s, a), b, []);
    FirstThen(s, a, [b] + []);
    assert [a] + ([b] + []) == [a, b];
  }

  // ---------------------------------------------------------------------------------------------
  // Why a live key can be outside the index

  ghost predicate Awaited(s: State, key: Key) {
    exists p :: p in s.ops && key in Pending(s.ops[p])
  }

  ghost predicate Accounted(s: State, key: Key) {
    Live(s.data, key, s.now) && key !in s.lru ==> key in s.strayed || Awaited(s, key)
  }

  ghost predicate Inv(s: State) {
    && s.strayed !! s.lru.Keys
    && forall key :: Accounted(s, key)
  }

  /** Another operation than the one that takes the step is still to see to the key. */
  ghost predicate OthersAwaited(s: State, step: Step, key: Key) {
    exists p :: p in s.ops && key in Pending(s.ops[p]) && (step.Tick? || p != step.p)
  }

  lemma OthersKept(s: State, step: Step, key: Key)
    requires Enabled(s, step) && OthersAwaited(s, step, key)
    ensures Awaited(Do(s, step), key)
  {
    var p :| p in s.ops && key in Pending(s.ops[p]) && (step.Tick? || p != step.p);
    assert p in Do(s, step).ops && Do(s, step).ops[p] == s.ops[p];
  }

  predicate IsStore(step: Step) {
    step.Set? || step.ZAddStored? || step.ZCard?
  }

  predicate IsEviction(step: Step) {
    step.ZPopMin? || step.DelVictim? || step.DelVictimFails?
  }

  /** A store makes its key live and is then to index it. */
  lemma StoreAccounted(s: State, step: Step, key: Key)
    requires Accounted(s, key) && !OthersAwaited(s, step, key) && Enabled(s, step) && IsStore(step)
    ensures Accounted(Do(s, step), key)
  {
    var s' := Do(s, step);
    if step.Set? && key == step.key {
      assert step.p in s'.ops && key in Pending(s'.ops[step.p]);
    }
  }

  /** An eviction takes keys out of the index and is then to delete them. */
  lemma PopAccounted(s: State, p: Pid, victims: set<Key>, key: Key)
    requires Accounted(s, key) && !OthersAwaited(s, ZPopMin(p, victims), key) && Enabled(s, ZPopMin(p, victims))
    ensures Accounted(Do(s, ZPopMin(p, victims)), key)
  {
    var s' := Do(s, ZPopMin(p, victims));
    if key in victims {
      assert p in s'.ops && key in Pending(s'.ops[p]);
    }
  }

  /** The key is covered, has strayed, or is one that `p` is still to delete. */
  ghost predicate LeftTo(s: State, p: Pid, key: Key) {
    Live(s.data, key, s.now) && key !in s.lru ==> key in s.strayed || (p in s.ops && key in Pending(s.ops[p]))
  }

  lemma OnlyOwnLeft(s: State, step: Step, key: Key)
    requires Accounted(s, key) && !OthersAwaited(s, step, key) && !step.Tick?
    ensures LeftTo(s, step.p, key)
  {
  }

  lemma DeletedAccounted(s: State, p: Pid, deleted: Key, key: Key)
    requires LeftTo(s, p, key) && Enabled(s, DelVictim(p, deleted))
    ensures LeftTo(Do(s, DelVictim(p, deleted)), p, key)
  {
  }

  lemma KeptAccounted(s: State, p: Pid, kept: Key, key: Key)
    requires LeftTo(s, p, key) && Enabled(s, DelVictimFails(p, kept))
    ensures LeftTo(Do(s, DelVictimFails(p, kept)), p, key)
  {
  }

  lemma DeletionAccounted(s: State, step: Step, key: Key)
    requires step.DelVictim? || step.DelVictimFails?
    requires LeftTo(s, step.p, key) && Enabled(s, step)
    ensures Accounted(Do(s, step), key)
  {
    if step.DelVictim? {
      DeletedAccounted(s, step.p, step.key, key);
    } else {
      KeptAccounted(s, step.p, step.key, key);
    }
  }

  /** The other steps leave no key live outside the index without its having strayed. */
  lemma OtherStepAccounted(s: State, step: Step, key: Key)
    requires Accounted(s, key) && !OthersAwaited(s, step, key) && Enabled(s, step)
    requires !IsStore(step) && !IsEviction(step)
    ensures Accounted(Do(s, step), key)
  {
    if Awaited(s, key) {
      assert step.LeaveOff?;
    }
  }

  lemma AccountedStep(s: State, step: Step, key: Key)
    requires Accounted(s, key) && Enabled(s, step)
    ensures Accounted(Do(s, step), key)
  {
    if OthersAwaited(s, step, key) {
      OthersKept(s, step, key);
    } else if IsStore(step) {
      StoreAccounted(s, step, key);
    } else if IsEviction(step) {
      if step.ZPopMin? {
        PopAccounted(s, step.p, step.victims, key);
      } else {
        OnlyOwnLeft(s, step, key);
        DeletionAccounted(s, step, key);
      }
    } else {
      OtherStepAccounted(s, step, key);
    }
  }

  lemma StrayedStep(s: State, step: Step)
    requires s.strayed !! s.lru.Keys && Enabled(s, step)
    ensures Do(s, step).strayed !! Do(s, step).lru.Keys
  {
  }

  lemma {:induction false} InvRun(s: State, steps: seq<Step>)
    requires Inv(s) && CanRun(s, steps)
    ensures Inv(RunTo(s, steps))
    decreases |steps|
  {
    if steps != [] {
      forall key ensures Accounted(Do(s, steps[0]), key) {
        assert Accounted(s, key);
        AccountedStep(s, steps[0], key);
      }
      StrayedStep(s, steps[0]);
      InvRun(Do(s, steps[0]), steps[1..]);
    }
  }

  /**
   Whatever any number of requests do, one command at a time and left off anywhere: a live key that
   is not in the index is one that a running operation has just stored and is still to index, or has
   just popped and is still to delete, or one that has strayed.
   */
  lemma UncoveredKeyAccounted(steps: seq<Step>, key: Key)
    requires CanRun(Init, steps)
    requires
      var s := RunTo(Init, steps);
      Live(s.data, key, s.now) && key !in s.lru
    ensures key in RunTo(Init, steps).strayed || Awaited(RunTo(Init, steps), key)
  {
    InvRun(Init, steps);
    assert Accounted(RunTo(Init, steps), key);
  }

  /** The steps after which a key can have strayed, each with the key it concerns. */
  ghost predicate Strays(s: State, step: Step, key: Key) {
    match step
    case ZRem(p) => p in s.ops && s.ops[p].Removing? && s.ops[p].key == key     // stored since the miss
    case DelVictimFails(_, k) => k == key                                        // popped, not deleted
    case LeaveOff(p) => p in s.ops && key in Pending(s.ops[p])                   // cut before ZADD or DEL
    case DelIndex(p) => key in s.lru                                             // indexed since the clear listed
    case _ => false
  }

  /** Nothing else makes a key stray. */
  lemma OnlyTheseStray(s: State, step: Step, key: Key)
    requires Enabled(s, step) && key in Do(s, step).strayed && key !in s.strayed
    ensures Strays(s, step, key) && Live(s.data, key, s.now) && key !in Do(s, step).lru
  {
  }

  /** No step on the way made a key stray. */
  ghost predicate Clean(s: State, steps: seq<Step>)
    requires CanRun(s, steps)
    decreases |steps|
  {
    steps != [] ==>
      && (forall key :: Live(s.data, key, s.now) ==> !Strays(s, steps[0], key))
      && Clean(Do(s, steps[0]), steps[1..])
  }

  lemma {:induction false} CleanNeverStrays(s: State, steps: seq<Step>)
    requires CanRun(s, steps) && Clean(s, steps) && s.strayed == {}
    ensures RunTo(s, steps).strayed == {}
    decreases |steps|
  {
    if steps != [] {
      forall key ensures key !in Do(s, steps[0]).strayed {
        if key in Do(s, steps[0]).strayed {
          OnlyTheseStray(s, steps[0], key);
        }
      }
      CleanNeverStrays(Do(s, steps[0]), steps[1..]);
    }
  }

  /** So when no operation is running and none of those four things has happened, the index covers the store. */
  lemma IdleIndexCovers(steps: seq<Step>)
    requires CanRun(Init, steps) && Clean(Init, steps)
    requires RunTo(Init, steps).ops == map[]
    ensures
      var s := RunTo(Init, steps);
      Covers(s.lru, s.data, s.now)
  {
    var s := RunTo(Init, steps);
    CleanNeverStrays(Init, steps);
    forall key | Live(s.data, key, s.now) ensures key in s.lru {
      if key !in s.lru {
        UncoveredKeyAccounted(steps, key);
      }
    }
  }

  // ---------------------------------------------------------------------------------------------
  // Each of the four does happen

  ghost predicate Uncovered(s: State, key: Key) {
    Live(s.data, key, s.now) && key !in s.lru
  }

  /** A client that leaves between the SET and the ZADD leaves its key live outside the index. */
  lemma CutStoreUncovers(s: State, p: Pid, key: Key, value: KeyValue, ttl: Time)
    requires p !in s.ops && key !in s.lru
    ensures
      var steps := [Set(p, key, value, ttl, 1), LeaveOff(p)];
      CanRun(s, steps) && Uncovered(RunTo(s, steps), key) && p !in RunTo(s, steps).ops
  {
    TwoSteps(s, Set(p, key, value, ttl, 1), LeaveOff(p));
  }

  /** Likewise one that leaves between the ZPOPMIN and the DEL, for every live key it has popped. */
  lemma CutEvictionUncovers(s: State, p: Pid, victims: set<Key>, key: Key)
    requires Enabled(s, ZPopMin(p, victims)) && key in victims && Live(s.data, key, s.now)
    ensures
      var steps := [ZPopMin(p, victims), LeaveOff(p)];
      CanRun(s, steps) && Uncovered(RunTo(s, steps), key) && p !in RunTo(s, steps).ops
  {
    TwoSteps(s, ZPopMin(p, victims), LeaveOff(p));
  }

  /** A value that does not decode leaves the index also when it cannot be deleted, and so strays. */
  lemma FailedDiscardStrays(s: State, p: Pid)
    requires Enabled(s, DelUndecodableFails(p)) && Live(s.data, s.ops[p].key, s.now)
    ensures
      var next := Do(s, DelUndecodableFails(p));
      && Enabled(next, ZRem(p)) && Uncovered(Do(next, ZRem(p)), s.ops[p].key)
      && s.ops[p].key in Do(next, ZRem(p)).strayed
  {
  }

  /** An eviction that fails to delete one key goes on with the others, and leaves that one as it is. */
  lemma FailedDeletionMovesOn(s: State, p: Pid, key: Key)
    requires Enabled(s, DelVictimFails(p, key))
    ensures
      var next := Do(s, DelVictimFails(p, key));
      && next.data == s.data && next.lru == s.lru
      && (p in next.ops <==> s.ops[p].keys != {key})
      && (p in next.ops ==> next.ops[p] == Evicting(s.ops[p].keys - {key}))
      && (Uncovered(s, key) ==> Uncovered(next, key) && key in next.strayed)
  {
  }

  /** A late ZREM or the end of a clear uncovers whatever live key it takes out of the index. */
  lemma LateCommandUncovers(s: State, step: Step, key: Key)
    requires Enabled(s, step) && (step.ZRem? || step.DelIndex?) && Strays(s, step, key)
    ensures Uncovered(Do(s, step), key) <==> Live(s.data, key, s.now)
  {
  }

  // ---------------------------------------------------------------------------------------------
  // Without interleaving the commands make up the whole operations

  ghost predicate Taken(states: seq<State>, i: nat)
    requires i + 1 < |states|
  {
    exists step :: Enabled(states[i], step) && Do(states[i], step) == states[i + 1]
  }

  /** The states of a run, one command apart. */
  ghost predicate Path(states: seq<State>) {
    states != [] && forall i {:trigger Taken(states, i)} :: 0 <= i < |states| - 1 ==> Taken(states, i)
  }

  function Last(states: seq<State>): State
    requires states != []
  {
    states[|states| - 1]
  }

  lemma Then(states: seq<State>, step: Step) returns (longer: seq<State>)
    requires Path(states) && Enabled(Last(states), step)
    ensures Path(longer) && longer[0] == states[0] && Last(longer) == Do(Last(states), step)
  {
    longer := states + [Do(Last(states), step)];
    forall i | 0 <= i < |longer| - 1 ensures Taken(longer, i) {
      if i < |states| - 1 {
        assert Taken(states, i);
        var taken :| Enabled(states[i], taken) && Do(states[i], taken) == states[i + 1];
        assert Enabled(longer[i], taken);
      } else {
        assert Enabled(longer[i], step);
      }
    }
  }

  /** Every path is a run. */
  lemma {:induction false} PathIsRun(states: seq<State>) returns (steps: seq<Step>)
    requires Path(states)
    ensures CanRun(states[0], steps) && RunTo(states[0], steps) == Last(states)
    decreases |states|
  {
    if |states| == 1 {
      steps := [];
    } else {
      assert Taken(states, 0);
      var step :| Enabled(states[0], step) && Do(states[0], step) == states[1];
      TailPath(states);
      var rest := PathIsRun(states[1..]);
      FirstThen(states[0], step, rest);
      steps := [step] + rest;
    }
  }

  lemma TailPath(states: seq<State>)
    requires Path(states) && |states| > 1
    ensures Path(states[1..]) && Last(states[1..]) == Last(states)
  {
    forall i | 0 <= i < |states| - 2 ensures Taken(states[1..], i) {
      assert Taken(states, i + 1);
    }
  }

  /** A clear drops the index also under a key that was stored and indexed since it listed the members. */
  lemma ClearCanRaceStore(key: Key, value: KeyValue, ttl: Time) returns (states: seq<State>)
    ensures Path(states) && states[0] == Init && Uncovered(Last(states), key)
  {
    states := Then([Init], ZRange(0));
    states := Then(states, Set(1, key, value, ttl, 1));
    states := Then(states, ZAddStored(1));
    states := Then(states, DelIndex(0));
  }

  function Whole(s: State): Store {
    Store(s.data, s.lru)
  }

  /** The commands of one operation with nothing in between do what the whole operation does. */
  ghost predicate Alone(states: seq<State>, op: Op) {
    && Path(states)
    && Last(states).ops == states[0].ops && Last(states).now == states[0].now
    && Next(Whole(states[0]), op, states[0].now, Whole(Last(states)))
  }

  lemma Overwritten(ops: map<Pid, Pc>, p: Pid, a: Pc, b: Pc)
    ensures ops[p := a][p := b] == ops[p := b]
  {
  }

  lemma Continued(ops: map<Pid, Pc>, p: Pid, a: Pc)
    ensures ops[p := a] - {p} == ops - {p}
  {
  }

  lemma Started(ops: map<Pid, Pc>, p: Pid, a: Pc)
    requires p !in ops
    ensures ops[p := a] - {p} == ops
  {
  }

  lemma GetAlone(s: State, p: Pid, key: Key) returns (states: seq<State>)
    requires p !in s.ops
    ensures states != [] && states[0] == s && Alone(states, GetOp(key))
  {
    states := Then([s], Get(p, key));
    if !Live(s.data, key, s.now) {
      Started(s.ops, p, Removing(key));
      states := Then(states, ZRem(p));
    } else if s.data[key].raw == Undecodable {
      states := Then(states, DelUndecodable(p));
      Overwritten(s.ops, p, Discarding(key), Removing(key));
      Started(s.ops, p, Removing(key));
      states := Then(states, ZRem(p));
    } else {
      Started(s.ops, p, Touching(key));
      states := Then(states, ZAddHit(p));
    }
  }

  lemma ClearAlone(s: State, p: Pid) returns (states: seq<State>)
    requires p !in s.ops
    ensures states != [] && states[0] == s && Alone(states, ClearOp)
  {
    states := Then([s], ZRange(p));
    if s.lru == map[] {
      assert s.data == s.data - s.lru.Keys;
    } else {
      states := Then(states, DelListed(p));
      Overwritten(s.ops, p, Clearing(s.lru.Keys), DroppingIndex);
    }
    Started(s.ops, p, DroppingIndex);
    states := Then(states, DelIndex(p));
  }

  /** SET and ZADD. */
  lemma PutAlone(s: State, p: Pid, key: Key, value: KeyValue, ttl: Time, maxEntries: int)
    returns (states: seq<State>)
    requires p !in s.ops && maxEntries > 0
    ensures Path(states) && states[0] == s && Last(states).now == s.now
    ensures Whole(Last(states)) == Store(s.data[key := NewItem(value, s.now, ttl)], s.lru[key := s.now])
    ensures Last(states).ops == s.ops[p := Counting(maxEntries)]
  {
    states := Then([s], Set(p, key, value, ttl, maxEntries));
    states := Then(states, ZAddStored(p));
    Overwritten(s.ops, p, Adding(key, maxEntries), Counting(maxEntries));
  }

  /** SET, ZADD and ZCARD. */
  lemma StoreAlone(s: State, p: Pid, key: Key, value: KeyValue, ttl: Time, maxEntries: int)
    returns (states: seq<State>)
    requires p !in s.ops && maxEntries > 0
    ensures Path(states) && states[0] == s && Last(states).now == s.now
    ensures
      var stored := Store(s.data[key := NewItem(value, s.now, ttl)], s.lru[key := s.now]);
      var excess := Excess(stored, maxEntries);
      Whole(Last(states)) == stored
      && Last(states).ops == if excess > 0 then s.ops[p := Popping(excess)] else s.ops
  {
    states := PutAlone(s, p, key, value, ttl, maxEntries);
    var excess := Excess(Whole(Last(states)), maxEntries);
    Overwritten(s.ops, p, Counting(maxEntries), Popping(excess));
    Started(s.ops, p, Counting(maxEntries));
    states := Then(states, ZCard(p));
  }

  lemma RemoveRest(m: map<Key, Item>, keys: set<Key>, key: Key)
    requires key in keys
    ensures m - {key} - (keys - {key}) == m - keys
    ensures keys - {key} == {} ==> m - {key} == m - keys
  {
    assert {key} + (keys - {key}) == keys;
  }

  /** The DELs of an eviction, one after the other. */
  lemma {:induction false} EvictAlone(before: seq<State>, p: Pid, keys: set<Key>) returns (states: seq<State>)
    requires Path(before) && keys != {}
    requires p in Last(before).ops && Last(before).ops[p] == Evicting(keys)
    ensures Path(states) && states[0] == before[0] && Last(states).now == Last(before).now
    ensures Whole(Last(states)) == Store(Last(before).data - keys, Last(before).lru)
    ensures Last(states).ops == Last(before).ops - {p}
    decreases |keys|
  {
    var s := Last(before);
    var key :| key in keys;
    RemoveRest(s.data, keys, key);
    Continued(s.ops, p, Evicting(keys - {key}));
    states := Then(before, DelVictim(p, key));
    if keys - {key} != {} {
      states := EvictAlone(states, p, keys - {key});
    }
  }

  /** A store alone, evicting whatever oldest keys ZPOPMIN picks. */
  lemma SetAlone(s: State, p: Pid, key: Key, value: KeyValue, ttl: Time, maxEntries: int, victims: set<Key>)
    returns (states: seq<State>)
    requires p !in s.ops && maxEntries > 0
    requires
      var stored := Store(s.data[key := NewItem(value, s.now, ttl)], s.lru[key := s.now]);
      Oldest(victims, stored.lru, Excess(stored, maxEntries))
    ensures states != [] && states[0] == s && Alone(states, SetOp(key, value, ttl, maxEntries))
    ensures Last(states).lru == s.lru[key := s.now] - victims
  {
    var stored := Store(s.data[key := NewItem(value, s.now, ttl)], s.lru[key := s.now]);
    states := StoreAlone(s, p, key, value, ttl, maxEntries);
    if Excess(stored, maxEntries) > 0 {
      states := Then(states, ZPopMin(p, victims));
      Overwritten(s.ops, p, Popping(Excess(stored, maxEntries)), Evicting(victims));
      Started(s.ops, p, Evicting(victims));
      states := EvictAlone(states, p, victims);
    } else {
      EvictNone(stored);
      assert victims == {};
    }
    assert Evicts(stored, victims, Excess(stored, maxEntries), Whole(Last(states)));
  }
}
