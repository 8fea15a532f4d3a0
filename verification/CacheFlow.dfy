/**
 How values move: requests on any number of gateways look in their own L1, then in the shared L2,
 then at the backend, and copy what they find upwards, with early refreshes, evictions, clears and
 failed writes in between. One cache access or one local step at a time.
 */
module CacheFlow {
  import opened Basics
  import L1 = L1Order
  import L2 = L2Cache

  type Pid = nat

  /** A 2xx backend reply and the L2 deadline it was given: `at + ttl`. */
  datatype Stamp = Stamp(key: Key, body: Bytes, status: int, at: Time, ttl: Time)
  {
    function Expiry(): Time { at + ttl }
  }

  /** A stamped reply that was written to L2, and with which time to live. */
  datatype Put = Put(stamp: Stamp, at: Time, ttl: Time)

  /** A value that a gateway took over into its L1, and for how long. */
  datatype Copied = Copied(gateway: nat, key: Key, at: Time, ttl: Time)

  datatype Pc =
    | LookingL1
    | LookingL2
    | FoundL2(value: KeyValue)
    | Refreshing(cached: KeyValue)
    | Refreshed(value: KeyValue, stamp: Stamp)
    | Fetching
    | PuttingL2(value: KeyValue, stamp: Stamp, ttl: Time)
    | Copying(value: KeyValue)
    | StoringL1(value: KeyValue)
    | Answered(body: Bytes)
    | Refused

  datatype Flow = Flow(gateway: nat, key: Key, ttlL1: Time, ttlL2: Time, l1MaxEntries: int, pc: Pc)

  datatype State = State(
    now: Time,
    l1: map<nat, L1.Order>,
    l2: map<Key, L2.Item>,
    flows: map<Pid, Flow>,
    stamps: set<Stamp>,  // history
    puts: set<Put>,      // history
    copies: set<Copied>) // history

  datatype Step =
    | Begin(p: Pid, gateway: nat, key: Key, ttlL1: Time, ttlL2: Time, l1MaxEntries: int)
    | LookL1(p: Pid)
    | LookL2(p: Pid)
    | LookL2Fails(p: Pid)  // a failed read counts as a miss
    | LookL2Again(p: Pid)  // a lock waiter, or a lock owner before its call
    | KeepCached(p: Pid)
    | StartRefresh(p: Pid)
    | RefreshReply(p: Pid, ok: bool, status: int, body: Bytes, duration: Time)
    | MeasureTtl(p: Pid)
    | FetchReply(p: Pid, ok: bool, status: int, body: Bytes, duration: Time)
    | PutL2(p: Pid)
    | PutL2Fails(p: Pid)
    | StampL1(p: Pid)
    | StoreL1(p: Pid)
    | DropL2(key: Key)     // evicted or cleared
    | ClearL1(gateway: nat)
    | Tick(until: Time)

  const Init := State(0, map[], map[], map[], {}, {}, {})

  function PcOf(s: State, p: Pid): Pc {
    if p in s.flows then s.flows[p].pc else Refused
  }

  function L1Of(s: State, g: nat): L1.Order {
    if g in s.l1 then s.l1[g] else []
  }

  predicate Enabled(s: State, step: Step) {
    match step
    case Begin(p, _, _, ttlL1, ttlL2, _) => p !in s.flows && 0 <= ttlL1 && 0 <= ttlL2
    case LookL1(p) => PcOf(s, p).LookingL1?
    case LookL2(p) => PcOf(s, p).LookingL2?
    case LookL2Fails(p) => PcOf(s, p).LookingL2?
    case LookL2Again(p) => PcOf(s, p).Fetching?
    case KeepCached(p) => PcOf(s, p).FoundL2?
    case StartRefresh(p) => PcOf(s, p).FoundL2?
    case RefreshReply(p, _, _, _, duration) => PcOf(s, p).Refreshing? && duration >= 0
    case MeasureTtl(p) => PcOf(s, p).Refreshed?
    case FetchReply(p, _, _, _, duration) => PcOf(s, p).Fetching? && duration >= 0
    case PutL2(p) => PcOf(s, p).PuttingL2?
    case PutL2Fails(p) => PcOf(s, p).PuttingL2?
    case StampL1(p) => PcOf(s, p).Copying?
    case StoreL1(p) => PcOf(s, p).StoringL1?
    case DropL2(_) => true
    case ClearL1(_) => true
    case Tick(until) => s.now <= until
  }

  function Goto(s: State, p: Pid, pc: Pc): map<Pid, Flow>
    requires p in s.flows
  {
    s.flows[p := s.flows[p].(pc := pc)]
  }

  /** What a lookup in L2 yields; only a decodable live value is a hit. */
  function L2Hit(s: State, key: Key): Option<KeyValue> {
    if L2.Live(s.l2, key, s.now) && s.l2[key].raw.Encoded? then Some(L2.Decode(s.l2[key].raw.payload)) else None
  }

  function NewStamp(s: State, f: Flow, status: int, body: Bytes): Stamp {
    Stamp(f.key, body, status, s.now, f.ttlL2)
  }

  function Stamped(stamp: Stamp, duration: Time): KeyValue {
    KeyValue(stamp.body, L2.ZERO_TIME, Some(stamp.Expiry()), duration)
  }

  predicate Success(ok: bool, status: int) {
    ok && 200 <= status < 300
  }

  function Do(s: State, step: Step): State
    requires Enabled(s, step)
  {
    match step
    case Begin(p, g, key, ttlL1, ttlL2, max) =>
      s.(flows := s.flows[p := Flow(g, key, ttlL1, ttlL2, max, LookingL1)])
    case LookL1(p) =>
      var f := s.flows[p];
      var (order, hit) := L1.Get(L1Of(s, f.gateway), f.key, s.now);
      s.(l1 := s.l1[f.gateway := order],
         flows := Goto(s, p, if hit.Some? then Answered(hit.value.value) else LookingL2))
    case LookL2(p) =>
      var hit := L2Hit(s, s.flows[p].key);
      s.(flows := Goto(s, p, if hit.Some? then FoundL2(hit.value) else Fetching))
    case LookL2Fails(p) => s.(flows := Goto(s, p, Fetching))
    case LookL2Again(p) =>
      var hit := L2Hit(s, s.flows[p].key);
      s.(flows := Goto(s, p, if hit.Some? then Copying(hit.value) else Fetching))
    case KeepCached(p) => s.(flows := Goto(s, p, Copying(PcOf(s, p).value)))
    case StartRefresh(p) => s.(flows := Goto(s, p, Refreshing(PcOf(s, p).value)))
    case RefreshReply(p, ok, status, body, duration) =>
      var stamp := NewStamp(s, s.flows[p], status, body);
      if Success(ok, status) then
        s.(stamps := s.stamps + {stamp}, flows := Goto(s, p, Refreshed(Stamped(stamp, duration), stamp)))
      else s.(flows := Goto(s, p, Copying(PcOf(s, p).cached)))
    case MeasureTtl(p) =>
      var f := s.flows[p];
      var remaining := f.pc.stamp.Expiry() - s.now;
      if remaining > 0 then s.(flows := Goto(s, p, PuttingL2(f.pc.value, f.pc.stamp, remaining)))
      else
        var again := NewStamp(s, f, f.pc.stamp.status, f.pc.stamp.body);
        s.(stamps := s.stamps + {again},
           flows := Goto(s, p, PuttingL2(Stamped(again, f.pc.value.recomputeDuration), again, f.ttlL2)))
    case FetchReply(p, ok, status, body, duration) =>
      var stamp := NewStamp(s, s.flows[p], status, body);
      if Success(ok, status) then
        s.(stamps := s.stamps + {stamp},
           flows := Goto(s, p, PuttingL2(Stamped(stamp, duration), stamp, s.flows[p].ttlL2)))
      else s.(flows := Goto(s, p, Refused))
    case PutL2(p) =>
      var f := s.flows[p];
      s.(l2 := s.l2[f.key := L2.NewItem(f.pc.value, s.now, f.pc.ttl)],
         puts := s.puts + {Put(f.pc.stamp, s.now, f.pc.ttl)},
         flows := Goto(s, p, Copying(f.pc.value)))
    case PutL2Fails(p) => s.(flows := Goto(s, p, Copying(PcOf(s, p).value)))
    case StampL1(p) =>
      var f := s.flows[p];
      s.(copies := s.copies + {Copied(f.gateway, f.key, s.now, f.ttlL1)},
         flows := Goto(s, p, StoringL1(f.pc.value.(l1Expiration := s.now + f.ttlL1))))
    case StoreL1(p) =>
      var f := s.flows[p];
      s.(l1 := s.l1[f.gateway := L1.Set(L1Of(s, f.gateway), f.key, f.pc.value, f.l1MaxEntries)],
         flows := Goto(s, p, Answered(f.pc.value.value)))
    case DropL2(key) => s.(l2 := s.l2 - {key})
    case ClearL1(g) => s.(l1 := s.l1[g := []])
    case Tick(until) => s.(now := until)
  }

  ghost predicate IsRun(steps: seq<Step>)
    decreases |steps|, 0
  {
    steps != [] ==>
      IsRun(steps[..|steps| - 1]) && Enabled(After(steps[..|steps| - 1]), steps[|steps| - 1])
  }

  ghost function After(steps: seq<Step>): State
    requires IsRun(steps)
    decreases |steps|, 1
  {
    if steps == [] then Init else Do(After(steps[..|steps| - 1]), steps[|steps| - 1])
  }

  // ---------------------------------------------------------------------------------------------
  // Where every value comes from

  /** `v` is what the reply of `stamp` became: same bytes, and never a later L2 deadline. */
  predicate Carries(stamp: Stamp, key: Key, v: KeyValue) {
    && stamp.key == key && stamp.body == v.value
    && v.l2Expiration.Some? && v.l2Expiration.value <= stamp.Expiry()
  }

  ghost predicate Backed(stamps: set<Stamp>, key: Key, v: KeyValue) {
    exists stamp :: stamp in stamps && Carries(stamp, key, v)
  }

  ghost predicate CopiedAs(copies: set<Copied>, g: nat, key: Key, v: KeyValue) {
    exists c :: c in copies && c.gateway == g && c.key == key && v.l1Expiration == c.at + c.ttl
  }

  ghost predicate ItemBacked(s: State, key: Key, item: L2.Item) {
    exists put :: put in s.puts && ItemOf(s, put, key, item)
  }

  predicate ItemOf(s: State, put: Put, key: Key, item: L2.Item) {
    && put.stamp in s.stamps && put.at <= s.now && put.ttl <= put.stamp.ttl
    && item.raw.Encoded? && Carries(put.stamp, key, L2.Decode(item.raw.payload))
    && item.deadline == if put.ttl > 0 then Some(put.at + put.ttl) else None
  }

  ghost predicate PcBacked(s: State, f: Flow) {
    match f.pc
    case FoundL2(v) => Backed(s.stamps, f.key, v)
    case Refreshing(v) => Backed(s.stamps, f.key, v)
    case Copying(v) => Backed(s.stamps, f.key, v)
    case StoringL1(v) => Backed(s.stamps, f.key, v) && CopiedAs(s.copies, f.gateway, f.key, v)
    case Refreshed(v, stamp) => stamp in s.stamps && Fresh(s, f, v, stamp)
    case PuttingL2(v, stamp, ttl) => stamp in s.stamps && Fresh(s, f, v, stamp) && ttl <= stamp.ttl
    case Answered(body) => exists stamp :: stamp in s.stamps && stamp.key == f.key && stamp.body == body
    case _ => true
  }

  predicate Fresh(s: State, f: Flow, v: KeyValue, stamp: Stamp) {
    stamp.key == f.key && stamp.body == v.value && v.l2Expiration == Some(stamp.Expiry()) && stamp.at <= s.now
  }

  ghost predicate L1Backed(s: State, g: nat) {
    forall e :: e in L1Of(s, g) ==> Backed(s.stamps, e.key, e.value) && CopiedAs(s.copies, g, e.key, e.value)
  }

  ghost predicate Inv(s: State) {
    && (forall stamp :: stamp in s.stamps ==> 200 <= stamp.status < 300)
    && (forall g :: L1Backed(s, g))
    && (forall k :: k in s.l2 ==> ItemBacked(s, k, s.l2[k]))
    && (forall p :: p in s.flows ==> PcBacked(s, s.flows[p]))
  }

  lemma HistoryGrows(s: State, step: Step)
    requires Enabled(s, step)
    ensures s.stamps <= Do(s, step).stamps && s.puts <= Do(s, step).puts
    ensures s.copies <= Do(s, step).copies && s.now <= Do(s, step).now
  {
  }

  /** L1 operations only rearrange, drop, or add the value they are given. */
  lemma L1Entries(o: L1.Order, key: Key, now: Time, value: KeyValue, maxEntries: int)
    ensures forall e :: e in L1.Get(o, key, now).0 ==> e in o
    ensures L1.Get(o, key, now).1.Some? ==> L1.Entry(key, L1.Get(o, key, now).1.value) in o
    ensures forall e :: e in L1.Set(o, key, value, maxEntries) ==> e in o || e == L1.Entry(key, value)
  {
    L1.WithoutKeeps(o, key);
    if L1.Find(o, key).Some? {
      L1.FindIn(o, key);
    }
  }

  lemma StampsStep(s: State, step: Step)
    requires Inv(s) && Enabled(s, step)
    ensures forall stamp :: stamp in Do(s, step).stamps ==> 200 <= stamp.status < 300
  {
    if step.MeasureTtl? {
      assert PcBacked(s, s.flows[step.p]);
    }
  }

  lemma L1Step(s: State, step: Step, g: nat)
    requires Inv(s) && Enabled(s, step)
    ensures L1Backed(Do(s, step), g)
  {
    HistoryGrows(s, step);
    assert L1Backed(s, g);
    if step.LookL1? || step.StoreL1? {
      var f := s.flows[step.p];
      assert PcBacked(s, f);
      var value := if step.StoreL1? then f.pc.value else KeyValue([], 0, None, 0);
      L1Entries(L1Of(s, f.gateway), f.key, s.now, value, f.l1MaxEntries);
    }
  }

  lemma ItemKept(s: State, step: Step, key: Key, item: L2.Item)
    requires Enabled(s, step) && ItemBacked(s, key, item)
    ensures ItemBacked(Do(s, step), key, item)
  {
    HistoryGrows(s, step);
    var put :| put in s.puts && ItemOf(s, put, key, item);
    assert ItemOf(Do(s, step), put, key, item);
  }

  lemma L2Step(s: State, step: Step, key: Key)
    requires Inv(s) && Enabled(s, step) && key in Do(s, step).l2
    ensures ItemBacked(Do(s, step), key, Do(s, step).l2[key])
  {
    var s' := Do(s, step);
    if step.PutL2? && key == s.flows[step.p].key {
      var f := s.flows[step.p];
      assert PcBacked(s, f);
      var put := Put(f.pc.stamp, s.now, f.pc.ttl);
      L2.RoundTrip(f.pc.value);
      assert put in s'.puts && ItemOf(s', put, key, s'.l2[key]);
    } else {
      ItemKept(s, step, key, s.l2[key]);
    }
  }

  lemma PcKept(s: State, step: Step, f: Flow)
    requires Enabled(s, step) && PcBacked(s, f)
    ensures PcBacked(Do(s, step), f)
  {
    HistoryGrows(s, step);
  }

  lemma HitBacked(s: State, key: Key)
    requires Inv(s) && L2Hit(s, key).Some?
    ensures Backed(s.stamps, key, L2Hit(s, key).value)
  {
    var put :| put in s.puts && ItemOf(s, put, key, s.l2[key]);
  }

  lemma LookStep(s: State, step: Step)
    requires Inv(s) && Enabled(s, step) && (step.LookL1? || step.LookL2? || step.LookL2Again?)
    ensures PcBacked(Do(s, step), Do(s, step).flows[step.p])
  {
    var f := s.flows[step.p];
    if step.LookL1? {
      assert L1Backed(s, f.gateway);
      L1Entries(L1Of(s, f.gateway), f.key, s.now, KeyValue([], 0, None, 0), 0);
    } else if L2Hit(s, f.key).Some? {
      HitBacked(s, f.key);
    }
  }

  lemma OwnPcStep(s: State, step: Step)
    requires Inv(s) && Enabled(s, step)
    requires !step.DropL2? && !step.ClearL1? && !step.Tick? && !step.Begin?
    ensures PcBacked(Do(s, step), Do(s, step).flows[step.p])
  {
    if step.LookL1? || step.LookL2? || step.LookL2Again? {
      LookStep(s, step);
    } else {
      assert PcBacked(s, s.flows[step.p]);
      WorkStep(s, step);
    }
  }

  lemma WorkStep(s: State, step: Step)
    requires Enabled(s, step) && !step.LookL1? && !step.LookL2? && !step.LookL2Again?
    requires !step.DropL2? && !step.ClearL1? && !step.Tick? && !step.Begin?
    requires PcBacked(s, s.flows[step.p])
    ensures PcBacked(Do(s, step), Do(s, step).flows[step.p])
  {
    if step.StampL1? {
      var f := s.flows[step.p];
      assert Copied(f.gateway, f.key, s.now, f.ttlL1) in Do(s, step).copies;
    }
  }

  lemma PcStep(s: State, step: Step, p: Pid)
    requires Inv(s) && Enabled(s, step) && p in Do(s, step).flows
    ensures PcBacked(Do(s, step), Do(s, step).flows[p])
  {
    if p in s.flows && Do(s, step).flows[p] == s.flows[p] {
      PcKept(s, step, s.flows[p]);
    } else if !step.Begin? {
      OwnPcStep(s, step);
    }
  }

  lemma {:induction false} InvRun(steps: seq<Step>)
    requires IsRun(steps)
    ensures Inv(After(steps))
  {
    if steps != [] {
      var s, step := After(steps[..|steps| - 1]), steps[|steps| - 1];
      InvRun(steps[..|steps| - 1]);
      StampsStep(s, step);
      forall g ensures L1Backed(Do(s, step), g) {
        L1Step(s, step, g);
      }
      forall k | k in Do(s, step).l2 ensures ItemBacked(Do(s, step), k, Do(s, step).l2[k]) {
        L2Step(s, step, k);
      }
      forall p | p in Do(s, step).flows ensures PcBacked(Do(s, step), Do(s, step).flows[p]) {
        PcStep(s, step, p);
      }
    }
  }

  // ---------------------------------------------------------------------------------------------
  // The histories record what happened

  /** The flow is that of a request as it began. */
  ghost predicate BeganAs(steps: seq<Step>, p: Pid, f: Flow) {
    exists i :: 0 <= i < |steps| && steps[i] == Begin(p, f.gateway, f.key, f.ttlL1, f.ttlL2, f.l1MaxEntries)
  }

  /** A step that ended a call of `p` with a 2xx reply. */
  predicate Replies(step: Step, p: Pid, status: int, body: Bytes) {
    && (step.FetchReply? || step.RefreshReply?)
    && step.p == p && step.ok && step.status == status && step.body == body && 200 <= status < 300
  }

  /** A request for the stamp's key got the reply, and a request for it, perhaps another, gave it its TTL. */
  ghost predicate Replied(steps: seq<Step>, s: State, stamp: Stamp) {
    exists p, i ::
      0 <= i < |steps| && p in s.flows && s.flows[p].key == stamp.key && Replies(steps[i], p, stamp.status, stamp.body)
  }

  ghost predicate StampGenuine(steps: seq<Step>, s: State, stamp: Stamp) {
    && stamp.at <= s.now && Replied(steps, s, stamp)
    && exists p :: p in s.flows && s.flows[p].key == stamp.key && s.flows[p].ttlL2 == stamp.ttl
  }

  ghost predicate CopyGenuine(s: State, c: Copied) {
    && c.at <= s.now
    && exists p :: p in s.flows
         && s.flows[p].gateway == c.gateway && s.flows[p].key == c.key && s.flows[p].ttlL1 == c.ttl
  }

  ghost predicate Genuine(steps: seq<Step>, s: State) {
    && (forall p :: p in s.flows ==> BeganAs(steps, p, s.flows[p]))
    && (forall stamp :: stamp in s.stamps ==> StampGenuine(steps, s, stamp))
    && (forall c :: c in s.copies ==> CopyGenuine(s, c))
  }

  lemma FlowKept(s: State, step: Step, p: Pid)
    requires Enabled(s, step) && p in s.flows
    ensures p in Do(s, step).flows && Do(s, step).flows[p] == s.flows[p].(pc := Do(s, step).flows[p].pc)
  {
  }

  lemma StampKept(steps: seq<Step>, s: State, step: Step, stamp: Stamp)
    requires Enabled(s, step) && StampGenuine(steps, s, stamp)
    ensures StampGenuine(steps + [step], Do(s, step), stamp)
  {
    HistoryGrows(s, step);
    var p, i :|
      0 <= i < |steps| && p in s.flows && s.flows[p].key == stamp.key && Replies(steps[i], p, stamp.status, stamp.body);
    FlowKept(s, step, p);
    assert Replies((steps + [step])[i], p, stamp.status, stamp.body);
    var q :| q in s.flows && s.flows[q].key == stamp.key && s.flows[q].ttlL2 == stamp.ttl;
    FlowKept(s, step, q);
  }

  lemma CopyKept(s: State, step: Step, c: Copied)
    requires Enabled(s, step) && CopyGenuine(s, c)
    ensures CopyGenuine(Do(s, step), c)
  {
    HistoryGrows(s, step);
    var p :| p in s.flows && s.flows[p].gateway == c.gateway && s.flows[p].key == c.key && s.flows[p].ttlL1 == c.ttl;
    FlowKept(s, step, p);
  }

  lemma FlowBegan(steps: seq<Step>, s: State, step: Step, p: Pid)
    requires Enabled(s, step) && p in Do(s, step).flows
    requires p in s.flows ==> BeganAs(steps, p, s.flows[p])
    ensures BeganAs(steps + [step], p, Do(s, step).flows[p])
  {
    var longer := steps + [step];
    if p in s.flows {
      FlowKept(s, step, p);
      var f := s.flows[p];
      var i :| 0 <= i < |steps| && steps[i] == Begin(p, f.gateway, f.key, f.ttlL1, f.ttlL2, f.l1MaxEntries);
      assert longer[i] == steps[i];
    } else {
      assert longer[|steps|] == step;
    }
  }

  /** The stamp that this step adds, if it adds one. */
  lemma NewStampGenuine(steps: seq<Step>, s: State, step: Step, stamp: Stamp)
    requires Inv(s) && Genuine(steps, s) && Enabled(s, step)
    requires stamp in Do(s, step).stamps && stamp !in s.stamps
    ensures StampGenuine(steps + [step], Do(s, step), stamp)
  {
    if step.MeasureTtl? {
      assert PcBacked(s, s.flows[step.p]);
      assert StampGenuine(steps, s, s.flows[step.p].pc.stamp);
      RestampGenuine(steps, s, step.p, stamp);
    } else {
      FlowKept(s, step, step.p);
      assert Replies((steps + [step])[|steps|], step.p, stamp.status, stamp.body);
    }
  }

  lemma SameReply(steps: seq<Step>, s: State, a: Stamp, b: Stamp)
    requires Replied(steps, s, a) && a.key == b.key && a.status == b.status && a.body == b.body
    ensures Replied(steps, s, b)
  {
  }

  /** A refreshed reply whose first deadline has passed keeps its bytes and its status. */
  lemma RestampGenuine(steps: seq<Step>, s: State, p: Pid, stamp: Stamp)
    requires Enabled(s, MeasureTtl(p)) && PcBacked(s, s.flows[p])
    requires StampGenuine(steps, s, s.flows[p].pc.stamp)
    requires stamp in Do(s, MeasureTtl(p)).stamps && stamp !in s.stamps
    ensures StampGenuine(steps + [MeasureTtl(p)], Do(s, MeasureTtl(p)), stamp)
  {
    var first, s' := s.flows[p].pc.stamp, Do(s, MeasureTtl(p));
    StampKept(steps, s, MeasureTtl(p), first);
    assert stamp == Stamp(first.key, first.body, first.status, s.now, s.flows[p].ttlL2);
    SameReply(steps + [MeasureTtl(p)], s', first, stamp);
    FlowKept(s, MeasureTtl(p), p);
  }

  lemma GenuineStep(steps: seq<Step>, s: State, step: Step)
    requires Inv(s) && Genuine(steps, s) && Enabled(s, step)
    ensures Genuine(steps + [step], Do(s, step))
  {
    forall p | p in Do(s, step).flows ensures BeganAs(steps + [step], p, Do(s, step).flows[p]) {
      FlowBegan(steps, s, step, p);
    }
    forall stamp | stamp in Do(s, step).stamps ensures StampGenuine(steps + [step], Do(s, step), stamp) {
      if stamp in s.stamps {
        StampKept(steps, s, step, stamp);
      } else {
        NewStampGenuine(steps, s, step, stamp);
      }
    }
    forall c | c in Do(s, step).copies ensures CopyGenuine(Do(s, step), c) {
      if c in s.copies {
        CopyKept(s, step, c);
      } else {
        FlowKept(s, step, step.p);
      }
    }
  }

  lemma {:induction false} GenuineRun(steps: seq<Step>)
    requires IsRun(steps)
    ensures Genuine(steps, After(steps))
  {
    if steps != [] {
      var before := steps[..|steps| - 1];
      GenuineRun(before);
      InvRun(before);
      GenuineStep(before, After(before), steps[|steps| - 1]);
      assert before + [steps[|steps| - 1]] == steps;
    }
  }

  /** A request for that key on that gateway began with this L1 TTL. */
  ghost predicate AskedWithL1Ttl(steps: seq<Step>, g: nat, key: Key, ttl: Time) {
    exists i :: 0 <= i < |steps| && steps[i].Begin?
      && steps[i].gateway == g && steps[i].key == key && steps[i].ttlL1 == ttl
  }

  /** A request for that key began with this L2 TTL. */
  ghost predicate AskedWithL2Ttl(steps: seq<Step>, key: Key, ttl: Time) {
    exists i :: 0 <= i < |steps| && steps[i].Begin? && steps[i].key == key && steps[i].ttlL2 == ttl
  }

  /** A call for that key ended with this 2xx reply: its request began for the key. */
  ghost predicate BackendReplied(steps: seq<Step>, key: Key, status: int, body: Bytes) {
    exists p, i, j :: 0 <= i < |steps| && 0 <= j < |steps|
      && Replies(steps[i], p, status, body) && BeginsFor(steps[j], p, key)
  }

  predicate BeginsFor(step: Step, p: Pid, key: Key) {
    step.Begin? && step.p == p && step.key == key
  }

  lemma StampFromRun(steps: seq<Step>, stamp: Stamp)
    requires IsRun(steps) && stamp in After(steps).stamps
    ensures stamp.at <= After(steps).now
    ensures BackendReplied(steps, stamp.key, stamp.status, stamp.body) && AskedWithL2Ttl(steps, stamp.key, stamp.ttl)
  {
    GenuineRun(steps);
    var s := After(steps);
    assert StampGenuine(steps, s, stamp);
    var p, i :|
      0 <= i < |steps| && p in s.flows && s.flows[p].key == stamp.key && Replies(steps[i], p, stamp.status, stamp.body);
    assert BeganAs(steps, p, s.flows[p]);
    var j :| 0 <= j < |steps| && BeginsFor(steps[j], p, stamp.key);
    var q :| q in s.flows && s.flows[q].key == stamp.key && s.flows[q].ttlL2 == stamp.ttl;
    assert BeganAs(steps, q, s.flows[q]);
  }

  lemma CopyFromRun(steps: seq<Step>, c: Copied)
    requires IsRun(steps) && c in After(steps).copies
    ensures c.at <= After(steps).now && AskedWithL1Ttl(steps, c.gateway, c.key, c.ttl)
  {
    GenuineRun(steps);
    var s := After(steps);
    assert CopyGenuine(s, c);
    var p :| p in s.flows && s.flows[p].gateway == c.gateway && s.flows[p].key == c.key && s.flows[p].ttlL1 == c.ttl;
    assert BeganAs(steps, p, s.flows[p]);
  }

  /**
   An L1 hit on any gateway returns the bytes of a 2xx reply to a request for that very key, before
   the L2 deadline that reply was stamped with, by the L2 TTL of a request for it, however often and
   through whatever gateways it was copied, and within the L1 TTL of the request that copied it to
   this gateway.
   */
  lemma L1HitWithinStampedLife(steps: seq<Step>, g: nat, key: Key)
    requires IsRun(steps)
    requires L1.Get(L1Of(After(steps), g), key, After(steps).now).1.Some?
    ensures
      var s := After(steps);
      exists stamp :: stamp in s.stamps && stamp.key == key && 200 <= stamp.status < 300
        && stamp.body == L1.Get(L1Of(s, g), key, s.now).1.value.value
        && stamp.at <= s.now <= stamp.at + stamp.ttl
        && BackendReplied(steps, key, stamp.status, stamp.body) && AskedWithL2Ttl(steps, key, stamp.ttl)
    ensures
      var s := After(steps);
      exists c :: c in s.copies && c.gateway == g && c.key == key && c.at <= s.now <= c.at + c.ttl
        && AskedWithL1Ttl(steps, g, key, c.ttl)
  {
    InvRun(steps);
    var s := After(steps);
    var v := L1.Get(L1Of(s, g), key, s.now).1.value;
    assert L1Backed(s, g);
    L1Entries(L1Of(s, g), key, s.now, v, 0);
    var stamp :| stamp in s.stamps && Carries(stamp, key, v);
    StampFromRun(steps, stamp);
    var c :| c in s.copies && c.gateway == g && c.key == key && v.l1Expiration == c.at + c.ttl;
    CopyFromRun(steps, c);
  }

  /**
   An L2 hit returns the bytes of a 2xx reply for that very key, within the time to live of the SET
   that stored it, which is at most the TTL of the request that filled it. The one exception is a
   TTL of zero, for which Redis keeps the value without a deadline.
   */
  lemma L2HitWithinSetLife(steps: seq<Step>, key: Key)
    requires IsRun(steps) && L2Hit(After(steps), key).Some?
    ensures
      var s := After(steps);
      exists put :: put in s.puts && put.stamp in s.stamps && put.stamp.key == key
        && 200 <= put.stamp.status < 300
        && put.stamp.body == L2Hit(s, key).value.value
        && BackendReplied(steps, key, put.stamp.status, put.stamp.body)
        && put.ttl <= put.stamp.ttl && AskedWithL2Ttl(steps, key, put.stamp.ttl)
        && put.at <= s.now
        && (put.ttl > 0 ==> s.now < put.at + put.ttl)
        && (put.ttl <= 0 <==> s.l2[key].deadline.None?)
  {
    InvRun(steps);
    var s := After(steps);
    var put :| put in s.puts && ItemOf(s, put, key, s.l2[key]);
    StampFromRun(steps, put.stamp);
  }

  /** Every answer served from a cache, or filled into one, is a 2xx reply for the key asked for. */
  lemma AnswersAreReplies(steps: seq<Step>, p: Pid)
    requires IsRun(steps) && PcOf(After(steps), p).Answered?
    ensures
      var s := After(steps);
      exists status :: BackendReplied(steps, s.flows[p].key, status, s.flows[p].pc.body)
  {
    InvRun(steps);
    var s := After(steps);
    assert PcBacked(s, s.flows[p]);
    var stamp :| stamp in s.stamps && stamp.key == s.flows[p].key && stamp.body == s.flows[p].pc.body;
    StampFromRun(steps, stamp);
  }

  // ---------------------------------------------------------------------------------------------
  // What is filled is found

  /**
   A 2xx reply is answered and found again by any lookup of its key, in L2 exactly while the request's
   L2 TTL lasts, in the L1 of its gateway exactly while both its TTLs last, and it is put nowhere else.
   */
  lemma ReplyFillsCaches(s: State, p: Pid, status: int, body: Bytes, duration: Time, at: Time)
    requires Enabled(s, FetchReply(p, true, status, body, duration)) && 200 <= status < 300 && at >= s.now
    ensures
      var f := s.flows[p];
      var s' := Do(Do(Do(Do(s, FetchReply(p, true, status, body, duration)), PutL2(p)), StampL1(p)), StoreL1(p));
      var l2 := L2Hit(s'.(now := at), f.key);
      var l1 := L1.Get(L1Of(s', f.gateway), f.key, at).1;
      && PcOf(s', p) == Answered(body)
      && (l2.Some? <==> f.ttlL2 <= 0 || at < s.now + f.ttlL2)
      && (l2.Some? ==> l2.value.value == body)
      && (f.l1MaxEntries > 0 ==> (l1.Some? <==> at <= s.now + f.ttlL1 && at <= s.now + f.ttlL2))
      && (f.l1MaxEntries > 0 && l1.Some? ==> l1.value.value == body)
      && (forall key :: key != f.key && key in s.l2 ==> key in s'.l2 && s'.l2[key] == s.l2[key])
      && (forall g :: g != f.gateway ==> L1Of(s', g) == L1Of(s, g))
  {
  }

  /** So a later request for the key on that gateway is answered with the reply without asking L2. */
  lemma LaterRequestHitsL1(s: State, p: Pid, status: int, body: Bytes, duration: Time, q: Pid, at: Time)
    requires Enabled(s, FetchReply(p, true, status, body, duration)) && 200 <= status < 300
    requires s.flows[p].l1MaxEntries > 0 && at >= s.now && q != p
    requires PcOf(s, q).LookingL1? && s.flows[q].key == s.flows[p].key && s.flows[q].gateway == s.flows[p].gateway
    ensures
      var f := s.flows[p];
      var s' := Do(Do(Do(Do(s, FetchReply(p, true, status, body, duration)), PutL2(p)), StampL1(p)), StoreL1(p));
      var looked := Do(s'.(now := at), LookL1(q));
      && (PcOf(looked, q) == Answered(body) <==> at <= s.now + f.ttlL1 && at <= s.now + f.ttlL2)
      && (PcOf(looked, q).Answered? || PcOf(looked, q).LookingL2?)
  {
    ReplyFillsCaches(s, p, status, body, duration, at);
  }

  /** Any other reply is refused and leaves both caches alone. */
  lemma OtherRepliesFillNothing(s: State, p: Pid, ok: bool, status: int, body: Bytes, duration: Time)
    requires Enabled(s, FetchReply(p, ok, status, body, duration)) && !(ok && 200 <= status < 300)
    ensures
      var s' := Do(s, FetchReply(p, ok, status, body, duration));
      PcOf(s', p) == Refused && s'.l1 == s.l1 && s'.l2 == s.l2
  {
  }

  /** A value found in L1 is answered at once, and only then is L2 not asked. */
  lemma L1Answers(s: State, p: Pid)
    requires Enabled(s, LookL1(p))
    ensures
      var hit := L1.Get(L1Of(s, s.flows[p].gateway), s.flows[p].key, s.now).1;
      PcOf(Do(s, LookL1(p)), p) == if hit.Some? then Answered(hit.value.value) else LookingL2
  {
  }

  /** A value found in L2 is answered and found again in L1, while its own L2 deadline and the L1 TTL last. */
  lemma L2ValueIsCopied(s: State, p: Pid, at: Time)
    requires Enabled(s, LookL2(p)) && L2Hit(s, s.flows[p].key).Some? && s.flows[p].l1MaxEntries > 0
    ensures
      var f, v := s.flows[p], L2Hit(s, s.flows[p].key).value;
      var s' := Do(Do(Do(Do(s, LookL2(p)), KeepCached(p)), StampL1(p)), StoreL1(p));
      var l1 := L1.Get(L1Of(s', f.gateway), f.key, at).1;
      && PcOf(s', p) == Answered(v.value) && s'.l2 == s.l2
      && (l1.Some? <==> at <= s.now + f.ttlL1 && (v.l2Expiration.Some? ==> at <= v.l2Expiration.value))
      && (l1.Some? ==> l1.value.value == v.value)
  {
  }

  /** A waiter for the lock, or its owner before the call, that finds the value in L2 copies and answers it. */
  lemma L2AgainAnswers(s: State, p: Pid)
    requires Enabled(s, LookL2Again(p))
    ensures
      var hit := L2Hit(s, s.flows[p].key);
      && PcOf(Do(s, LookL2Again(p)), p) == (if hit.Some? then Copying(hit.value) else Fetching)
      && (hit.Some? ==>
            PcOf(Do(Do(Do(s, LookL2Again(p)), StampL1(p)), StoreL1(p)), p) == Answered(hit.value.value))
  {
  }

  /** A write to L2 that fails keeps nobody from the answer, nor from the copy in L1. */
  lemma FailedPutStillAnswers(s: State, p: Pid, at: Time)
    requires Enabled(s, PutL2Fails(p)) && s.flows[p].l1MaxEntries > 0
    ensures
      var f := s.flows[p];
      var s' := Do(Do(Do(s, PutL2Fails(p)), StampL1(p)), StoreL1(p));
      var l1 := L1.Get(L1Of(s', f.gateway), f.key, at).1;
      var expiry := f.pc.value.l2Expiration;
      && PcOf(s', p) == Answered(f.pc.value.value) && s'.l2 == s.l2
      && (l1.Some? <==> at <= s.now + f.ttlL1 && (expiry.Some? ==> at <= expiry.value))
  {
  }

  /** What is dropped from L2, or cleared from an L1, is not found there any more; the rest stays. */
  lemma DroppedIsGone(s: State, key: Key, g: nat, at: Time)
    ensures L2Hit(Do(s, DropL2(key)), key).None?
    ensures forall k :: k != key ==> L2Hit(Do(s, DropL2(key)), k) == L2Hit(s, k)
    ensures forall k :: L1.Get(L1Of(Do(s, ClearL1(g)), g), k, at).1.None?
    ensures forall h :: h != g ==> L1Of(Do(s, ClearL1(g)), h) == L1Of(s, h)
  {
  }

  /** An early refresh that fails answers with the value it found. */
  lemma FailedRefreshKeepsValue(s: State, p: Pid, ok: bool, status: int, body: Bytes, duration: Time)
    requires Enabled(s, StartRefresh(p)) && duration >= 0 && !(ok && 200 <= status < 300)
    ensures
      var s' := Do(Do(s, StartRefresh(p)), RefreshReply(p, ok, status, body, duration));
      PcOf(s', p) == Copying(PcOf(s, p).value) && s'.l2 == s.l2
  {
  }

  /**
   One that succeeds stores its reply until the deadline it was stamped with, or, when that has passed
   before the store, for the full L2 TTL from then on.
   */
  lemma RefreshReplacesValue(s: State, p: Pid, status: int, body: Bytes, duration: Time, later: Time, at: Time)
    requires Enabled(s, StartRefresh(p)) && duration >= 0 && 200 <= status < 300 && s.now <= later <= at
    ensures
      var f := s.flows[p];
      var replied := Do(Do(s, StartRefresh(p)), RefreshReply(p, true, status, body, duration)).(now := later);
      var s' := Do(Do(replied, MeasureTtl(p)), PutL2(p));
      var hit := L2Hit(s'.(now := at), f.key);
      && PcOf(s', p).Copying? && PcOf(s', p).value.value == body
      && (hit.Some? <==>
            if later < s.now + f.ttlL2 then at < s.now + f.ttlL2 else f.ttlL2 <= 0 || at < later + f.ttlL2)
      && (hit.Some? ==> hit.value.value == body)
  {
  }

  // ---------------------------------------------------------------------------------------------
  // A TTL of zero

  lemma Extend(steps: seq<Step>, step: Step) returns (longer: seq<Step>)
    requires IsRun(steps) && Enabled(After(steps), step)
    ensures longer == steps + [step] && IsRun(longer) && After(longer) == Do(After(steps), step)
  {
    longer := steps + [step];
    assert longer[..|longer| - 1] == steps;
  }

  lemma MissThenReply(key: Key, body: Bytes) returns (steps: seq<Step>)
    ensures IsRun(steps)
    ensures
      var s, stamp := After(steps), Stamp(key, body, 200, 0, 0);
      && s.now == 0 && s.l2 == map[] && 0 in s.flows && s.flows[0].key == key
      && s.flows[0].pc == PuttingL2(Stamped(stamp, 0), stamp, 0)
  {
    steps := Extend([], Begin(0, 0, key, 0, 0, 1));
    steps := Extend(steps, LookL1(0));
    steps := Extend(steps, LookL2(0));
    steps := Extend(steps, FetchReply(0, true, 200, body, 0));
  }

  /** A reply stored for a TTL of zero is still found in L2 at any later time, however late. */
  lemma ZeroTtlNeverExpires(key: Key, body: Bytes, until: Time) returns (steps: seq<Step>)
    requires until >= 0
    ensures IsRun(steps) && After(steps).now == until
    ensures L2Hit(After(steps), key).Some? && L2Hit(After(steps), key).value.value == body
    ensures L2Hit(After(steps), key).value.l2Expiration == Some(0)
  {
    steps := MissThenReply(key, body);
    steps := Extend(steps, PutL2(0));
    steps := Extend(steps, Tick(until));
  }
}
