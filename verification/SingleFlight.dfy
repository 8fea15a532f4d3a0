/**
 Request coalescing on one gateway, gateway/singleflight.go: the table of in-flight calls as an
 object, and the protocol of leaders and followers over it.
 */
module SingleFlight {
  import opened Basics

  /** What a leader publishes. When `failed`, the other two fields are not shown to anybody. */
  datatype Result = Result(body: Bytes, statusCode: int, failed: bool)

  class InFlightCall {
    var done: bool
    var result: Result

    constructor ()
      ensures !done
    {
      done, result := false, Result([], 0, false);
    }
  }

  /** The table under its mutex; both methods are critical sections. */
  class InFlightTable {
    var inFlight: map<Key, InFlightCall>

    constructor ()
      ensures Valid() && inFlight == map[]
    {
      inFlight := map[];
    }

    /** The calls in the table are open, and no call is listed for two keys. */
    ghost predicate Valid()
      reads this, inFlight.Values
    {
      && (forall k :: k in inFlight ==> !inFlight[k].done)
      && (forall j, k :: j in inFlight && k in inFlight && j != k ==> inFlight[j] != inFlight[k])
    }

    method GetOrCreateInFlight(key: Key) returns (call: InFlightCall, isLeader: bool)
      requires Valid()
      modifies this
      ensures Valid() && !call.done
      ensures isLeader <==> key !in old(inFlight)
      ensures isLeader ==> fresh(call)
      ensures inFlight == old(inFlight)[key := call]
      ensures !isLeader ==> inFlight == old(inFlight)
    {
      if key in inFlight {
        assert inFlight == inFlight[key := inFlight[key]];
        return inFlight[key], false;
      }
      call := new InFlightCall();
      inFlight := inFlight[key := call];
      return call, true;
    }

    /** Publishes the result and closes the call; it is the leader's call, so it is still listed. */
    method FinishInFlight(key: Key, call: InFlightCall, result: Result)
      requires Valid() && key in inFlight && inFlight[key] == call
      modifies this, call
      ensures Valid() && inFlight == old(inFlight) - {key}
      ensures call.done && call.result == result
    {
      call.result := result;
      inFlight := inFlight - {key};
      call.done := true;
    }
  }

  // ---------------------------------------------------------------------------------------------
  // The protocol

  type Pid = nat
  type CallId = nat

  /** The reply a client gets. */
  datatype Response = Response(status: int, body: Bytes) | BadGateway

  function Respond(r: Result): Response {
    if r.failed then BadGateway else Response(r.statusCode, r.body)
  }

  datatype Pc =
    | Arrived
    | Fetching(call: CallId)
    | Responding(call: CallId, result: Result)
    | Finishing(call: CallId, result: Result, response: Response)
    | Waiting(call: CallId)
    | Led(call: CallId, response: Response)
    | Followed(call: CallId, response: Response)
    | TimedOut(call: CallId)

  datatype Request = Request(key: Key, pc: Pc)
  {
    predicate Leads(c: CallId) {
      (pc.Fetching? || pc.Responding? || pc.Finishing?) && pc.call == c
    }
  }

  /** A call: its key and, once closed, its result. */
  datatype Call = Call(key: Key, result: Option<Result>)

  datatype State = State(inFlight: map<Key, CallId>, calls: map<CallId, Call>, requests: map<Pid, Request>)

  datatype Step =
    | Arrive(p: Pid, key: Key)
    | Join(p: Pid, newCall: CallId)
    | EndFetch(p: Pid, result: Result)
    | LeaderResponds(p: Pid)
    | Finish(p: Pid)
    | WakeUp(p: Pid)
    | GiveUp(p: Pid)

  const Init := State(map[], map[], map[])

  function PcOf(s: State, p: Pid): Pc {
    if p in s.requests then s.requests[p].pc else TimedOut(0)
  }

  predicate Enabled(s: State, step: Step) {
    match step
    case Arrive(p, _) => p !in s.requests
    case Join(p, newCall) => PcOf(s, p).Arrived? && newCall !in s.calls
    case EndFetch(p, _) => PcOf(s, p).Fetching?
    case LeaderResponds(p) => PcOf(s, p).Responding?
    case Finish(p) => PcOf(s, p).Finishing?
    case WakeUp(p) => PcOf(s, p).Waiting? && PcOf(s, p).call in s.calls && s.calls[PcOf(s, p).call].result.Some?
    case GiveUp(p) => PcOf(s, p).Waiting?
  }

  function Goto(s: State, p: Pid, pc: Pc): map<Pid, Request>
    requires p in s.requests
  {
    s.requests[p := s.requests[p].(pc := pc)]
  }

  function Do(s: State, step: Step): State
    requires Enabled(s, step)
  {
    match step
    case Arrive(p, key) => s.(requests := s.requests[p := Request(key, Arrived)])
    case Join(p, newCall) =>
      var key := s.requests[p].key;
      if key in s.inFlight then s.(requests := Goto(s, p, Waiting(s.inFlight[key])))
      else State(s.inFlight[key := newCall], s.calls[newCall := Call(key, None)], Goto(s, p, Fetching(newCall)))
    case EndFetch(p, result) => s.(requests := Goto(s, p, Responding(PcOf(s, p).call, result)))
    case LeaderResponds(p) =>
      var pc := PcOf(s, p);
      s.(requests := Goto(s, p, Finishing(pc.call, pc.result, Respond(pc.result))))
    case Finish(p) =>
      var f := s.requests[p];
      State(s.inFlight - {f.key},
            s.calls[f.pc.call := Call(f.key, Some(f.pc.result))],
            Goto(s, p, Led(f.pc.call, f.pc.response)))
    case WakeUp(p) =>
      var c := PcOf(s, p).call;
      s.(requests := Goto(s, p, Followed(c, Respond(s.calls[c].result.value))))
    case GiveUp(p) => s.(requests := Goto(s, p, TimedOut(PcOf(s, p).call)))
  }

  ghost predicate IsRun(steps: seq<Step>)
    decreases |steps|, 0
  {
    steps != [] ==>
      IsRun(steps[..|steps| - 1]) && Enabled(After(steps[..|steps| - 1]), steps[|steps| - 1])
  }

  ghost function After(steps: seq<Step>): State
    requires IsRun(steps)
    decreases |steps|, 1
  {
    if steps == [] then Init else Do(After(steps[..|steps| - 1]), steps[|steps| - 1])
  }

  /** An open call is listed under its key and led by exactly one request; a closed one by none. */
  ghost predicate CallOk(s: State, c: CallId)
    requires c in s.calls
  {
    var call := s.calls[c];
    && (call.result.None? <==> call.key in s.inFlight && s.inFlight[call.key] == c)
    && (call.result.None? ==> exists p :: Leader(s, p, c))
  }

  predicate Leader(s: State, p: Pid, c: CallId) {
    p in s.requests && s.requests[p].Leads(c)
  }

  ghost predicate RequestOk(s: State, p: Pid)
    requires p in s.requests
  {
    var r := s.requests[p];
    && (!r.pc.Arrived? ==> r.pc.call in s.calls && s.calls[r.pc.call].key == r.key)
    && (r.pc.Fetching? || r.pc.Responding? || r.pc.Finishing? ==> s.calls[r.pc.call].result.None?)
    && (r.pc.Finishing? ==> r.pc.response == Respond(r.pc.result))
    && (r.pc.Led? || r.pc.Followed? ==>
          s.calls[r.pc.call].result.Some? && r.pc.response == Respond(s.calls[r.pc.call].result.value))
  }

  ghost predicate OneLeader(s: State) {
    forall p, q, c :: Leader(s, p, c) && Leader(s, q, c) ==> p == q
  }

  ghost predicate Inv(s: State) {
    && (forall k :: k in s.inFlight ==> s.inFlight[k] in s.calls && s.calls[s.inFlight[k]].key == k)
    && (forall c :: c in s.calls ==> CallOk(s, c))
    && (forall p :: p in s.requests ==> RequestOk(s, p))
    && OneLeader(s)
  }

  lemma RequestsStep(s: State, step: Step)
    requires Inv(s) && Enabled(s, step)
    ensures forall p :: p in Do(s, step).requests ==> RequestOk(Do(s, step), p)
  {
    var s' := Do(s, step);
    forall p | p in s'.requests ensures RequestOk(s', p) {
      assert p in s.requests ==> RequestOk(s, p);
      if step.Finish? {
        assert RequestOk(s, step.p);
        if p in s.requests && p != step.p && s.requests[p].Leads(s.requests[step.p].pc.call) {
          assert Leader(s, p, s.requests[step.p].pc.call) && Leader(s, step.p, s.requests[step.p].pc.call);
        }
      }
    }
  }

  lemma OneLeaderStep(s: State, step: Step)
    requires Inv(s) && Enabled(s, step)
    ensures OneLeader(Do(s, step))
  {
    var s' := Do(s, step);
    forall p, q, c | Leader(s', p, c) && Leader(s', q, c) ensures p == q {
      assert Leader(s, p, c) || (step.Join? && p == step.p && c == step.newCall);
      assert Leader(s, q, c) || (step.Join? && q == step.p && c == step.newCall);
      assert p in s.requests && q in s.requests && RequestOk(s, p) && RequestOk(s, q);
    }
  }

  lemma CallStep(s: State, step: Step, c: CallId)
    requires Inv(s) && Enabled(s, step) && c in Do(s, step).calls
    ensures CallOk(Do(s, step), c)
  {
    var s' := Do(s, step);
    if c in s.calls {
      assert CallOk(s, c);
      if step.Finish? {
        assert RequestOk(s, step.p) && CallOk(s, s.requests[step.p].pc.call);
      }
      if s'.calls[c].result.None? {
        var p :| Leader(s, p, c);
        assert Leader(s', p, c);
      }
    } else {
      assert Leader(s', step.p, c);
    }
  }

  lemma {:induction false} InvRun(steps: seq<Step>)
    requires IsRun(steps)
    ensures Inv(After(steps))
  {
    if steps != [] {
      var s, step := After(steps[..|steps| - 1]), steps[|steps| - 1];
      InvRun(steps[..|steps| - 1]);
      RequestsStep(s, step);
      OneLeaderStep(s, step);
      forall c | c in Do(s, step).calls ensures CallOk(Do(s, step), c) {
        CallStep(s, step, c);
      }
      if step.Join? || step.Finish? {
        assert RequestOk(s, step.p);
      }
    }
  }

  /**
   In every interleaving each entry of the in-flight table is an open call for its own key, and it
   has exactly one leader, which is still at work on it.
   */
  lemma EntriesAreOpenAndLed(steps: seq<Step>, key: Key)
    requires IsRun(steps) && key in After(steps).inFlight
    ensures
      var s := After(steps);
      var c := s.inFlight[key];
      && c in s.calls && s.calls[c] == Call(key, None)
      && exists p :: Leader(s, p, c) && s.requests[p].key == key && forall q :: Leader(s, q, c) ==> q == p
  {
    InvRun(steps);
    var s := After(steps);
    var c := s.inFlight[key];
    assert CallOk(s, c);
    var p :| Leader(s, p, c);
    assert RequestOk(s, p);
  }

  /** No waiter is forgotten: its call is closed, or somebody is still leading it. */
  lemma WaitersAreServed(steps: seq<Step>, p: Pid)
    requires IsRun(steps) && PcOf(After(steps), p).Waiting?
    ensures
      var s := After(steps);
      Enabled(s, WakeUp(p)) || exists q :: Leader(s, q, PcOf(s, p).call)
  {
    InvRun(steps);
    assert RequestOk(After(steps), p) && CallOk(After(steps), PcOf(After(steps), p).call);
  }

  /** Fetches for one key never overlap on one gateway: at most one request is leading it. */
  lemma FetchesNeverOverlap(steps: seq<Step>, p: Pid, q: Pid, c: CallId, d: CallId)
    requires IsRun(steps) && Leader(After(steps), p, c) && Leader(After(steps), q, d)
    requires After(steps).requests[p].key == After(steps).requests[q].key
    ensures p == q
  {
    InvRun(steps);
    var s := After(steps);
    assert RequestOk(s, p) && RequestOk(s, q) && CallOk(s, c) && CallOk(s, d);
  }

  /** Everybody who was answered through one call, its leader included, got the same response. */
  lemma FollowersAnswerAsLeader(steps: seq<Step>, p: Pid, q: Pid)
    requires IsRun(steps)
    requires PcOf(After(steps), p).Led? || PcOf(After(steps), p).Followed?
    requires PcOf(After(steps), q).Led? || PcOf(After(steps), q).Followed?
    requires PcOf(After(steps), p).call == PcOf(After(steps), q).call
    ensures PcOf(After(steps), p).response == PcOf(After(steps), q).response
  {
    InvRun(steps);
    assert RequestOk(After(steps), p) && RequestOk(After(steps), q);
  }

  /** The fetch of `p` ended with this result. */
  ghost predicate Fetched(steps: seq<Step>, p: Pid, result: Result) {
    exists i :: 0 <= i < |steps| && steps[i] == EndFetch(p, result)
  }

  /** The call has been closed by its leader `p` with what its own fetch ended with. */
  ghost predicate ClosedBy(steps: seq<Step>, s: State, p: Pid, c: CallId) {
    && p in s.requests && s.requests[p].pc.Led? && s.requests[p].pc.call == c
    && c in s.calls && s.calls[c].result.Some? && Fetched(steps, p, s.calls[c].result.value)
  }

  ghost predicate ResultsFetched(steps: seq<Step>, s: State) {
    && (forall p :: p in s.requests && (s.requests[p].pc.Responding? || s.requests[p].pc.Finishing?) ==>
          Fetched(steps, p, s.requests[p].pc.result))
    && (forall c :: c in s.calls && s.calls[c].result.Some? ==> exists p :: ClosedBy(steps, s, p, c))
  }

  lemma FetchedKept(steps: seq<Step>, step: Step, p: Pid, result: Result)
    requires Fetched(steps, p, result)
    ensures Fetched(steps + [step], p, result)
  {
    var i :| 0 <= i < |steps| && steps[i] == EndFetch(p, result);
    assert (steps + [step])[i] == EndFetch(p, result);
  }

  lemma CallFetched(steps: seq<Step>, s: State, step: Step, c: CallId)
    requires Inv(s) && ResultsFetched(steps, s) && Enabled(s, step)
    requires c in Do(s, step).calls && Do(s, step).calls[c].result.Some?
    ensures exists p :: ClosedBy(steps + [step], Do(s, step), p, c)
  {
    var s' := Do(s, step);
    if c in s.calls && s.calls[c].result.Some? {
      var p :| ClosedBy(steps, s, p, c);
      FetchedKept(steps, step, p, s.calls[c].result.value);
      if step.Finish? {
        assert RequestOk(s, step.p);
      }
      assert ClosedBy(steps + [step], s', p, c);
    } else {
      FetchedKept(steps, step, step.p, s.requests[step.p].pc.result);
      assert ClosedBy(steps + [step], s', step.p, c);
    }
  }

  lemma RequestFetched(steps: seq<Step>, s: State, step: Step, p: Pid)
    requires ResultsFetched(steps, s) && Enabled(s, step) && p in Do(s, step).requests
    requires Do(s, step).requests[p].pc.Responding? || Do(s, step).requests[p].pc.Finishing?
    ensures Fetched(steps + [step], p, Do(s, step).requests[p].pc.result)
  {
    if step == EndFetch(p, Do(s, step).requests[p].pc.result) {
      assert (steps + [step])[|steps|] == step;
    } else {
      FetchedKept(steps, step, p, Do(s, step).requests[p].pc.result);
    }
  }

  lemma {:induction false} FetchedRun(steps: seq<Step>)
    requires IsRun(steps)
    ensures ResultsFetched(steps, After(steps))
  {
    if steps != [] {
      var before, step := steps[..|steps| - 1], steps[|steps| - 1];
      var s, s' := After(before), After(steps);
      FetchedRun(before);
      InvRun(before);
      assert before + [step] == steps;
      forall c | c in s'.calls && s'.calls[c].result.Some? ensures exists p :: ClosedBy(steps, s', p, c) {
        CallFetched(before, s, step, c);
      }
      forall p | p in s'.requests && (s'.requests[p].pc.Responding? || s'.requests[p].pc.Finishing?)
        ensures Fetched(steps, p, s'.requests[p].pc.result)
      {
        RequestFetched(before, s, step, p);
      }
    }
  }

  /**
   What everybody is answered with: the status and the bytes that the fetch of the call's leader ended
   with, or a bad gateway exactly when that fetch failed.
   */
  lemma AnswersAreFetched(steps: seq<Step>, p: Pid)
    requires IsRun(steps) && (PcOf(After(steps), p).Led? || PcOf(After(steps), p).Followed?)
    ensures exists leader, r ::
              && PcOf(After(steps), leader).Led? && PcOf(After(steps), leader).call == PcOf(After(steps), p).call
              && Fetched(steps, leader, r) && Shows(PcOf(After(steps), p).response, r)
  {
    InvRun(steps);
    FetchedRun(steps);
    var s := After(steps);
    assert RequestOk(s, p);
    var c := PcOf(s, p).call;
    var leader :| ClosedBy(steps, s, leader, c);
    assert Shows(PcOf(s, p).response, s.calls[c].result.value);
  }

  predicate Shows(response: Response, r: Result) {
    && (response == BadGateway <==> r.failed)
    && (!r.failed ==> response.Response? && response.status == r.statusCode && response.body == r.body)
  }

  /** From the end of the leader's fetch four steps answer it and a waiter with the result, and delist the call. */
  lemma LeaderServesWaiter(s: State, p: Pid, q: Pid, result: Result)
    requires Enabled(s, EndFetch(p, result)) && PcOf(s, q) == Waiting(PcOf(s, p).call) && p != q
    ensures
      var closed := Do(Do(Do(s, EndFetch(p, result)), LeaderResponds(p)), Finish(p));
      && Enabled(closed, WakeUp(q)) && PcOf(closed, p).Led? && Shows(PcOf(closed, p).response, result)
      && PcOf(Do(closed, WakeUp(q)), q).Followed? && Shows(PcOf(Do(closed, WakeUp(q)), q).response, result)
      && s.requests[p].key !in closed.inFlight
  {
  }

  /** A waiter whose client goes away is done, and leaves the call and everybody else as they were. */
  lemma GivingUpChangesNothingElse(s: State, p: Pid)
    requires Enabled(s, GiveUp(p))
    ensures
      var s' := Do(s, GiveUp(p));
      && PcOf(s', p) == TimedOut(PcOf(s, p).call) && s'.inFlight == s.inFlight && s'.calls == s.calls
      && forall q :: q != p ==> PcOf(s', q) == PcOf(s, q)
  {
  }

  /** A call is closed once: whoever finishes finds it open, and a closed call never changes. */
  lemma ClosedOnceAndForever(steps: seq<Step>, step: Step, c: CallId)
    requires IsRun(steps) && Enabled(After(steps), step) && c in After(steps).calls
    ensures
      var s, s' := After(steps), Do(After(steps), step);
      && c in s'.calls
      && (s.calls[c].result.Some? ==> s'.calls[c] == s.calls[c])
      && (s'.calls[c] != s.calls[c] ==>
            && step.Finish?
            && s.calls[c].key in s.inFlight && s.inFlight[s.calls[c].key] == c
            && s.calls[c].key !in s'.inFlight)
  {
    InvRun(steps);
    var s := After(steps);
    if step.Finish? {
      assert RequestOk(s, step.p) && CallOk(s, s.requests[step.p].pc.call);
    }
  }
}
