/**
 Admission in the backend simulator, backend/handler/handler.go: every request counts as active,
 takes a token of the semaphore it found, and gives both back on every way out, while updates of
 the configuration replace the semaphore under the requests that still use the old one.
 */
module Semaphore {
  type Pid = nat

  /** One semaphore channel: its capacity, and the tokens in it now. */
  datatype Generation = Generation(capacity: int, tokens: int)

  datatype Pc =
    | Refused                       // backend unavailable, never counted
    | Admitted                      // counted as active
    | Captured(generation: nat)     // waiting for a token of the semaphore it read
    | Holding(generation: nat)
    | Leaving                       // token given back or never taken
    | Finished

  datatype State = State(
    unavailable: bool, active: int, generations: seq<Generation>, requests: map<Pid, Pc>)

  datatype Step =
    | Arrive(p: Pid)
    | Capture(p: Pid)
    | Enter(p: Pid)
    | CancelWait(p: Pid)
    | GiveBack(p: Pid)  // the same on every way out: canceled, not found or served
    | Leave(p: Pid)
    | UpdateConfig(semaphoreSize: int, concurrentDelayMs: int, baseLatencyMs: int)
    | SetUnavailable(unavailable: bool)

  function Init(size: nat): State {
    State(false, 0, [Generation(size, 0)], map[])
  }

  function PcOf(s: State, p: Pid): Pc {
    if p in s.requests then s.requests[p] else Finished
  }

  predicate AcceptableConfig(semaphoreSize: int, concurrentDelayMs: int, baseLatencyMs: int) {
    semaphoreSize > 0 && concurrentDelayMs >= 0 && baseLatencyMs >= 0
  }

  /** A send blocks while the channel is full, a receive while it is empty. */
  predicate Enabled(s: State, step: Step) {
    match step
    case Arrive(p) => p !in s.requests
    case Capture(p) => PcOf(s, p).Admitted? && s.generations != []
    case Enter(p) =>
      PcOf(s, p).Captured?
      && PcOf(s, p).generation < |s.generations|
      && s.generations[PcOf(s, p).generation].tokens < s.generations[PcOf(s, p).generation].capacity
    case CancelWait(p) => PcOf(s, p).Captured?
    case GiveBack(p) =>
      PcOf(s, p).Holding?
      && PcOf(s, p).generation < |s.generations|
      && s.generations[PcOf(s, p).generation].tokens > 0
    case Leave(p) => PcOf(s, p).Leaving?
    case UpdateConfig(_, _, _) => true
    case SetUnavailable(_) => true
  }

  function AddTokens(generations: seq<Generation>, g: nat, n: int): seq<Generation>
    requires g < |generations|
  {
    generations[g := generations[g].(tokens := generations[g].tokens + n)]
  }

  function Do(s: State, step: Step): State
    requires Enabled(s, step)
  {
    match step
    case Arrive(p) =>
      if s.unavailable then s.(requests := s.requests[p := Refused])
      else s.(active := s.active + 1, requests := s.requests[p := Admitted])
    case Capture(p) => s.(requests := s.requests[p := Captured(|s.generations| - 1)])
    case Enter(p) =>
      var g := PcOf(s, p).generation;
      s.(generations := AddTokens(s.generations, g, 1), requests := s.requests[p := Holding(g)])
    case CancelWait(p) => s.(requests := s.requests[p := Leaving])
    case GiveBack(p) =>
      s.(generations := AddTokens(s.generations, PcOf(s, p).generation, -1), requests := s.requests[p := Leaving])
    case Leave(p) => s.(active := s.active - 1, requests := s.requests[p := Finished])
    case UpdateConfig(size, delayMs, latencyMs) =>
      if AcceptableConfig(size, delayMs, latencyMs) then s.(generations := s.generations + [Generation(size, 0)]) else s
    case SetUnavailable(u) => s.(unavailable := u)
  }

  ghost predicate IsRun(size: nat, steps: seq<Step>)
    decreases |steps|, 0
  {
    steps != [] ==>
      IsRun(size, steps[..|steps| - 1]) && Enabled(After(size, steps[..|steps| - 1]), steps[|steps| - 1])
  }

  ghost function After(size: nat, steps: seq<Step>): State
    requires IsRun(size, steps)
    decreases |steps|, 1
  {
    if steps == [] then Init(size) else Do(After(size, steps[..|steps| - 1]), steps[|steps| - 1])
  }

  // ---------------------------------------------------------------------------------------------
  // The configuration in force

  /** The size in the last update whose size is positive and whose delays are not negative. */
  function LastSize(size: nat, steps: seq<Step>): int {
    if steps == [] then size
    else
      var before := LastSize(size, steps[..|steps| - 1]);
      match steps[|steps| - 1]
      case UpdateConfig(newSize, delayMs, latencyMs) =>
        if newSize <= 0 || delayMs < 0 || latencyMs < 0 then before else newSize
      case _ => before
  }

  function LastUnavailable(steps: seq<Step>): bool {
    if steps == [] then false
    else if steps[|steps| - 1].SetUnavailable? then steps[|steps| - 1].unavailable
    else LastUnavailable(steps[..|steps| - 1])
  }

  lemma {:induction false} ConfigurationRun(size: nat, steps: seq<Step>)
    requires IsRun(size, steps)
    ensures
      var s := After(size, steps);
      && s.generations != [] && s.generations[|s.generations| - 1].capacity == LastSize(size, steps)
      && s.unavailable == LastUnavailable(steps)
  {
    if steps != [] {
      ConfigurationRun(size, steps[..|steps| - 1]);
    }
  }

  /**
   A request is admitted unless the backend was last set unavailable. It then waits for a token of the
   semaphore of the last accepted update, and gets one exactly while fewer than its size are out.
   */
  lemma RequestsUseLatestSemaphore(size: nat, steps: seq<Step>, p: Pid)
    requires IsRun(size, steps)
    ensures After(size, steps).generations != []
    ensures p !in After(size, steps).requests ==>
              PcOf(Do(After(size, steps), Arrive(p)), p) == if LastUnavailable(steps) then Refused else Admitted
    ensures
      var s := After(size, steps);
      PcOf(s, p).Admitted? ==>
        var s' := Do(s, Capture(p));
        && PcOf(s', p) == Captured(|s.generations| - 1)
        && (Enabled(s', Enter(p)) <==> s.generations[|s.generations| - 1].tokens < LastSize(size, steps))
        && (Enabled(s', Enter(p)) ==> PcOf(Do(s', Enter(p)), p) == Holding(|s.generations| - 1))
  {
    ConfigurationRun(size, steps);
  }

  // ---------------------------------------------------------------------------------------------
  // Conservation

  /** The requests between the increment and the decrement of the active counter. */
  function Inside(requests: map<Pid, Pc>): set<Pid> {
    set p | p in requests && !requests[p].Refused? && !requests[p].Finished?
  }

  function HoldersOf(requests: map<Pid, Pc>, g: nat): set<Pid> {
    set p | p in requests && requests[p] == Holding(g)
  }

  /** The requests holding a token of one of the first n generations. */
  function HoldersBelow(requests: map<Pid, Pc>, n: nat): set<Pid> {
    set p | p in requests && requests[p].Holding? && requests[p].generation < n
  }

  function TotalTokens(generations: seq<Generation>): int {
    if generations == [] then 0
    else TotalTokens(generations[..|generations| - 1]) + generations[|generations| - 1].tokens
  }

  ghost predicate TokensCounted(s: State, g: nat)
    requires g < |s.generations|
  {
    s.generations[g].tokens == |HoldersOf(s.requests, g)| <= s.generations[g].capacity
  }

  ghost predicate Inv(s: State) {
    && s.generations != []
    && s.active == |Inside(s.requests)|
    && (forall p :: p in s.requests && (s.requests[p].Captured? || s.requests[p].Holding?) ==>
          s.requests[p].generation < |s.generations|)
    && (forall g :: 0 <= g < |s.generations| ==> TokensCounted(s, g))
  }

  /** What one request's move does to a set it may join or leave. */
  lemma MemberMoves(before: set<Pid>, after: set<Pid>, p: Pid)
    requires forall q :: q != p ==> (q in before <==> q in after)
    ensures |after| == |before| + (if p in after then 1 else 0) - (if p in before then 1 else 0)
  {
    if p in before && p !in after {
      assert before == after + {p};
    } else if p in after && p !in before {
      assert after == before + {p};
    } else {
      assert before == after;
    }
  }

  lemma ActiveStep(s: State, step: Step)
    requires Inv(s) && Enabled(s, step)
    ensures Do(s, step).active == |Inside(Do(s, step).requests)|
  {
    if !step.UpdateConfig? && !step.SetUnavailable? {
      MemberMoves(Inside(s.requests), Inside(Do(s, step).requests), step.p);
    }
  }

  lemma TokensStep(s: State, step: Step, g: nat)
    requires Inv(s) && Enabled(s, step) && g < |Do(s, step).generations|
    ensures TokensCounted(Do(s, step), g)
  {
    if g < |s.generations| {
      assert TokensCounted(s, g);
      if !step.UpdateConfig? && !step.SetUnavailable? {
        MemberMoves(HoldersOf(s.requests, g), HoldersOf(Do(s, step).requests, g), step.p);
      }
    } else {
      assert HoldersOf(s.requests, g) == {};
    }
  }

  lemma {:induction false} InvRun(size: nat, steps: seq<Step>)
    requires IsRun(size, steps)
    ensures Inv(After(size, steps))
  {
    if steps == [] {
      assert TokensCounted(Init(size), 0) by {
        assert HoldersOf(map[], 0) == {};
      }
      assert Inside(map[]) == {};
    } else {
      var s, step := After(size, steps[..|steps| - 1]), steps[|steps| - 1];
      InvRun(size, steps[..|steps| - 1]);
      ActiveStep(s, step);
      forall g | 0 <= g < |Do(s, step).generations| ensures TokensCounted(Do(s, step), g) {
        TokensStep(s, step, g);
      }
    }
  }

  lemma HoldersSplit(requests: map<Pid, Pc>, n: nat)
    ensures |HoldersBelow(requests, n + 1)| == |HoldersBelow(requests, n)| + |HoldersOf(requests, n)|
  {
    assert HoldersBelow(requests, n + 1) == HoldersBelow(requests, n) + HoldersOf(requests, n);
    assert HoldersBelow(requests, n) !! HoldersOf(requests, n);
  }

  lemma {:induction false} TokensAreHolders(s: State, n: nat)
    requires n <= |s.generations|
    requires forall g :: 0 <= g < n ==> TokensCounted(s, g)
    ensures TotalTokens(s.generations[..n]) == |HoldersBelow(s.requests, n)|
  {
    if n == 0 {
      assert HoldersBelow(s.requests, 0) == {};
    } else {
      TokensAreHolders(s, n - 1);
      assert s.generations[..n][..n - 1] == s.generations[..n - 1];
      assert TokensCounted(s, n - 1);
      HoldersSplit(s.requests, n - 1);
    }
  }

  lemma {:induction false} SubsetSize(a: set<Pid>, b: set<Pid>)
    requires a <= b
    ensures |a| <= |b|
  {
    assert b == a + (b - a);
  }

  /**
   Conservation across reconfigurations: in every run each semaphore, old or new, holds exactly one
   token for every request that captured and entered it and never more than its capacity; the
   active counter is the number of requests inside, and at least the sum of all tokens.
   */
  lemma TokensConserved(size: nat, steps: seq<Step>)
    requires IsRun(size, steps)
    ensures
      var s := After(size, steps);
      && (forall g :: 0 <= g < |s.generations| ==>
            s.generations[g].tokens == |HoldersOf(s.requests, g)| <= s.generations[g].capacity)
      && s.active == |Inside(s.requests)|
      && TotalTokens(s.generations) <= s.active
  {
    InvRun(size, steps);
    var s := After(size, steps);
    forall g | 0 <= g < |s.generations|
      ensures s.generations[g].tokens == |HoldersOf(s.requests, g)| <= s.generations[g].capacity
    {
      assert TokensCounted(s, g);
    }
    TokensAreHolders(s, |s.generations|);
    assert s.generations[..|s.generations|] == s.generations;
    SubsetSize(HoldersBelow(s.requests, |s.generations|), Inside(s.requests));
  }

  /**
   Giving a token back never blocks, whatever replaced the semaphore meanwhile, and the load that a
   request sees in its own semaphore is between one and the capacity.
   */
  lemma ReleaseNeverBlocks(size: nat, steps: seq<Step>, p: Pid)
    requires IsRun(size, steps) && PcOf(After(size, steps), p).Holding?
    ensures Enabled(After(size, steps), GiveBack(p))
    ensures
      var s := After(size, steps);
      var g := s.requests[p].generation;
      1 <= s.generations[g].tokens <= s.generations[g].capacity
  {
    InvRun(size, steps);
    var s := After(size, steps);
    var g := s.requests[p].generation;
    assert TokensCounted(s, g);
    SubsetSize({p}, HoldersOf(s.requests, g));
  }

  /** A request leaves by giving up its wait or giving back its token; either way it stops being active. */
  lemma WaysOut(s: State, p: Pid)
    ensures PcOf(s, p).Captured? ==>
              var s' := Do(Do(s, CancelWait(p)), Leave(p));
              s'.active == s.active - 1 && s'.generations == s.generations && PcOf(s', p).Finished?
    ensures Enabled(s, GiveBack(p)) ==>
              var g := PcOf(s, p).generation;
              var s' := Do(Do(s, GiveBack(p)), Leave(p));
              && s'.active == s.active - 1 && PcOf(s', p).Finished?
              && s'.generations[g].tokens == s.generations[g].tokens - 1
  {
  }

  /** When nobody is inside, every semaphore is empty and the counter is back at zero. */
  lemma IdleMeansEmpty(size: nat, steps: seq<Step>)
    requires IsRun(size, steps) && Inside(After(size, steps).requests) == {}
    ensures After(size, steps).active == 0
    ensures forall g :: 0 <= g < |After(size, steps).generations| ==> After(size, steps).generations[g].tokens == 0
  {
    InvRun(size, steps);
    var s := After(size, steps);
    forall g | 0 <= g < |s.generations| ensures s.generations[g].tokens == 0 {
      assert TokensCounted(s, g);
      SubsetSize(HoldersOf(s.requests, g), Inside(s.requests));
    }
  }
}
