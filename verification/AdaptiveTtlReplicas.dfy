/**
 The adaptive TTL controller as it runs: one update loop on every gateway and any number of resets,
 sharing one snapshot key and one controller lock in Redis, one command or local step at a time.
 */
module AdaptiveTtlReplicas {
  import opened Basics
  import opened RedisLock
  import opened GatewayConfig
  import opened AdaptiveTtl

  const CONTROLLER_LOCK_TTL: Time := 5 * SECOND

  /** The update loop of a gateway, or one reset request that the gateway serves. */
  datatype Pid = Updater(gateway: nat) | Resetter(gateway: nat, id: nat)

  /** What a write to the shared snapshot does to the value before it. */
  datatype Move = Initialise | Reading(config: Config, signals: Signals) | Disable | Reset(enabled: bool)

  datatype Pc =
    | Idle
    | Getting(config: Config, holder: bool)
    | Initialising(config: Config, holder: bool)
    | GettingAgain(config: Config, holder: bool)
    | Loaded(config: Config, holder: bool, snapshot: Snapshot)
    | Applied(config: Config)
    | Processed(move: Move)
    | Saving(move: Move, snapshot: Snapshot)
    | ResetTrying(enabled: bool)
    | ResetSaving(enabled: bool)
    | ResetApplying(enabled: bool)
    | Releasing

  predicate Holds(pc: Pc) {
    || ((pc.Getting? || pc.Initialising? || pc.GettingAgain? || pc.Loaded?) && pc.holder)
    || pc.Applied? || pc.Processed? || pc.Saving? || pc.ResetSaving? || pc.ResetApplying? || pc.Releasing?
  }

  /** It holds the lock and may still write the shared snapshot or its gateway's controller. */
  predicate Works(pc: Pc) {
    Holds(pc) && !pc.Releasing?
  }

  /** `token` and `expiresAt` are those of the lock the actor acquired last. */
  datatype Actor = Actor(pc: Pc, token: Token, expiresAt: Time)

  const IDLE := Actor(Idle, 0, 0)

  datatype Write = Write(move: Move, snapshot: Snapshot)

  datatype State = State(
    now: Time,
    lock: Lock,
    shared: Option<Snapshot>,
    locals: map<nat, Snapshot>,   // the controller object of each gateway, once it has changed
    actors: map<Pid, Actor>,
    minted: map<Token, Pid>,      // history: who drew each lock token
    log: seq<Write>)              // history: the writes to the shared key

  datatype Step =
    | StartUpdate(g: nat, config: Config, t: Token)
    | StartUpdateLost(g: nat, t: Token)  // the SETNX may have run, its reply was an error
    | Get(p: Pid)
    | SetInitial(p: Pid)
    | GetAgain(p: Pid)
    | ApplyLoaded(p: Pid)
    | DisableLocal(p: Pid)
    | ReadSignals(p: Pid, signals: Signals)
    | TakeSnapshot(p: Pid)
    | Save(p: Pid)
    | StartReset(p: Pid, enabled: bool)
    | TryReset(p: Pid, t: Token)
    | TryResetLost(p: Pid, t: Token)     // likewise, and the reset ends with the error
    | ResetSave(p: Pid)
    | ResetApply(p: Pid)
    | Fail(p: Pid)
    | Release(p: Pid)
    | ReleaseFails(p: Pid)
    | Tick(until: Time)

  const Init := State(0, Free, None, map[], map[], map[], [])

  function ActorOf(s: State, p: Pid): Actor {
    if p in s.actors then s.actors[p] else IDLE
  }

  function PcOf(s: State, p: Pid): Pc {
    ActorOf(s, p).pc
  }

  function Local(s: State, g: nat): Snapshot {
    if g in s.locals then s.locals[g] else INITIAL_SNAPSHOT
  }

  predicate Enabled(s: State, step: Step) {
    match step
    case StartUpdate(g, config, t) => PcOf(s, Updater(g)).Idle? && t !in s.minted && Sound(config)
    case StartUpdateLost(g, t) => PcOf(s, Updater(g)).Idle? && t !in s.minted
    case Get(p) => PcOf(s, p).Getting?
    case SetInitial(p) => PcOf(s, p).Initialising?
    case GetAgain(p) => PcOf(s, p).GettingAgain?
    case ApplyLoaded(p) => PcOf(s, p).Loaded?
    case DisableLocal(p) => PcOf(s, p).Applied? && !PcOf(s, p).config.adaptiveTtlEnabled
    case ReadSignals(p, _) => PcOf(s, p).Applied? && PcOf(s, p).config.adaptiveTtlEnabled
    case TakeSnapshot(p) => PcOf(s, p).Processed?
    case Save(p) => PcOf(s, p).Saving?
    case StartReset(p, _) => p.Resetter? && p !in s.actors
    case TryReset(p, t) => PcOf(s, p).ResetTrying? && t !in s.minted
    case TryResetLost(p, t) => PcOf(s, p).ResetTrying? && t !in s.minted
    case ResetSave(p) => PcOf(s, p).ResetSaving?
    case ResetApply(p) => PcOf(s, p).ResetApplying?
    case Fail(p) => !PcOf(s, p).Idle?
    case Release(p) => PcOf(s, p).Releasing?
    case ReleaseFails(p) => PcOf(s, p).Releasing?
    case Tick(until) => s.now <= until
  }

  function Goto(s: State, p: Pid, pc: Pc): map<Pid, Actor> {
    s.actors[p := ActorOf(s, p).(pc := pc)]
  }

  /** SETNX on the lock key; the actor goes to one place with the lock and to another without it. */
  function TryLock(s: State, p: Pid, t: Token, got: Pc, missed: Pc): State {
    s.(lock := SetNx(s.lock, s.now, t, CONTROLLER_LOCK_TTL),
       minted := s.minted[t := p],
       actors := if Live(s.lock, s.now) then Goto(s, p, missed)
                 else s.actors[p := Actor(got, t, s.now + CONTROLLER_LOCK_TTL)])
  }

  function WriteShared(s: State, move: Move, snapshot: Snapshot): State {
    s.(shared := Some(snapshot), log := s.log + [Write(move, snapshot)])
  }

  /** Where a failure leads: a holder still releases through its deferred call. */
  function AfterFailure(pc: Pc): Pc {
    if Holds(pc) then Releasing else Idle
  }

  /** Decoding a snapshot rejects a factor that is not positive. */
  function Decoded(pc: Pc, config: Config, holder: bool, n: Snapshot): Pc {
    if n.factor <= 0.0 then AfterFailure(pc) else Loaded(config, holder, n)
  }

  function Do(s: State, step: Step): State
    requires Enabled(s, step)
  {
    match step
    case StartUpdate(g, config, t) =>
      TryLock(s, Updater(g), t, Getting(config, true), Getting(config, false))
    case StartUpdateLost(g, t) =>
      s.(lock := SetNx(s.lock, s.now, t, CONTROLLER_LOCK_TTL), minted := s.minted[t := Updater(g)])
    case Get(p) =>
      var pc := PcOf(s, p);
      s.(actors := Goto(s, p, if s.shared.None? then Initialising(pc.config, pc.holder)
                              else Decoded(pc, pc.config, pc.holder, s.shared.value)))
    case SetInitial(p) =>
      var pc := PcOf(s, p);
      if s.shared.None? then
        WriteShared(s, Initialise, INITIAL_SNAPSHOT).(
          actors := Goto(s, p, Loaded(pc.config, pc.holder, INITIAL_SNAPSHOT)))
      else s.(actors := Goto(s, p, GettingAgain(pc.config, pc.holder)))
    case GetAgain(p) =>
      var pc := PcOf(s, p);
      s.(actors := Goto(s, p, if s.shared.None? then AfterFailure(pc)
                              else Decoded(pc, pc.config, pc.holder, s.shared.value)))
    case ApplyLoaded(p) =>
      var pc := PcOf(s, p);
      s.(locals := s.locals[p.gateway := pc.snapshot],
         actors := Goto(s, p, if pc.holder then Applied(pc.config) else Idle))
    case DisableLocal(p) =>
      s.(locals := s.locals[p.gateway := INITIAL_SNAPSHOT], actors := Goto(s, p, Processed(Disable)))
    case ReadSignals(p, signals) =>
      var config := PcOf(s, p).config;
      s.(locals := s.locals[p.gateway := Process(config, Local(s, p.gateway), signals)],
         actors := Goto(s, p, Processed(Reading(config, signals))))
    case TakeSnapshot(p) => s.(actors := Goto(s, p, Saving(PcOf(s, p).move, Local(s, p.gateway))))
    case Save(p) =>
      WriteShared(s, PcOf(s, p).move, PcOf(s, p).snapshot).(actors := Goto(s, p, Releasing))
    case StartReset(p, enabled) => s.(actors := Goto(s, p, ResetTrying(enabled)))
    case TryReset(p, t) =>
      TryLock(s, p, t, ResetSaving(PcOf(s, p).enabled), ResetTrying(PcOf(s, p).enabled))
    case TryResetLost(p, t) =>
      s.(lock := SetNx(s.lock, s.now, t, CONTROLLER_LOCK_TTL), minted := s.minted[t := p],
         actors := Goto(s, p, Idle))
    case ResetSave(p) =>
      var enabled := PcOf(s, p).enabled;
      WriteShared(s, Reset(enabled), ResetSnapshot(enabled)).(actors := Goto(s, p, ResetApplying(enabled)))
    case ResetApply(p) =>
      s.(locals := s.locals[p.gateway := ResetSnapshot(PcOf(s, p).enabled)], actors := Goto(s, p, Releasing))
    case Fail(p) => s.(actors := Goto(s, p, AfterFailure(PcOf(s, p))))
    case Release(p) =>
      s.(lock := CompareAndDelete(s.lock, s.now, ActorOf(s, p).token), actors := Goto(s, p, Idle))
    case ReleaseFails(p) => s.(actors := Goto(s, p, Idle))
    case Tick(until) => s.(now := until)
  }

  ghost predicate IsRun(steps: seq<Step>)
    decreases |steps|, 0
  {
    steps != [] ==>
      IsRun(steps[..|steps| - 1]) && Enabled(After(steps[..|steps| - 1]), steps[|steps| - 1])
  }

  ghost function After(steps: seq<Step>): State
    requires IsRun(steps)
    decreases |steps|, 1
  {
    if steps == [] then Init else Do(After(steps[..|steps| - 1]), steps[|steps| - 1])
  }

  // ---------------------------------------------------------------------------------------------
  // The lock, with no assumption on timing

  /** A holder's token is its own, and it keeps the lock until the lock's own deadline. */
  ghost predicate Tenure(s: State, p: Pid) {
    var a := ActorOf(s, p);
    Holds(a.pc) ==>
      && a.token in s.minted && s.minted[a.token] == p
      && (s.lock == Held(a.token, a.expiresAt) || s.now >= a.expiresAt)
  }

  ghost predicate Tenures(s: State) {
    && (s.lock.Held? ==> s.lock.token in s.minted)
    && forall p :: Tenure(s, p)
  }

  predicate Acts(step: Step, p: Pid) {
    match step
    case StartUpdate(g, _, _) => p == Updater(g)
    case StartUpdateLost(g, _) => p == Updater(g)
    case Tick(_) => false
    case _ => p == step.p
  }

  lemma OthersUnmoved(s: State, step: Step, p: Pid)
    requires Enabled(s, step) && !Acts(step, p)
    ensures ActorOf(Do(s, step), p) == ActorOf(s, p)
  {
  }

  lemma OwnTenureStep(s: State, step: Step, p: Pid)
    requires Tenures(s) && Enabled(s, step) && Acts(step, p)
    ensures Tenure(Do(s, step), p)
  {
    assert Tenure(s, p);
  }

  lemma OtherTenureStep(s: State, step: Step, p: Pid)
    requires Tenures(s) && Enabled(s, step) && !Acts(step, p)
    ensures Tenure(Do(s, step), p)
  {
    OthersUnmoved(s, step, p);
    assert Tenure(s, p);
    if step.Release? {
      assert Tenure(s, step.p);
    }
  }

  lemma LockStep(s: State, step: Step)
    requires Tenures(s) && Enabled(s, step)
    ensures Tenures(Do(s, step))
  {
    forall p ensures Tenure(Do(s, step), p) {
      if Acts(step, p) {
        OwnTenureStep(s, step, p);
      } else {
        OtherTenureStep(s, step, p);
      }
    }
  }

  lemma {:induction false} LockRun(steps: seq<Step>)
    requires IsRun(steps)
    ensures Tenures(After(steps))
  {
    if steps != [] {
      LockRun(steps[..|steps| - 1]);
      LockStep(After(steps[..|steps| - 1]), steps[|steps| - 1]);
    }
  }

  /** As for the backend lock: exactly the acquirer's release and its own deadline free a live lock. */
  lemma ControllerLockLeavesByOwnerOrExpiry(steps: seq<Step>, step: Step)
    requires IsRun(steps) && Enabled(After(steps), step)
    requires var s := After(steps); Live(s.lock, s.now)
    ensures
      var s, s' := After(steps), Do(After(steps), step);
      Lost(s'.lock, s'.now, s.lock.token) <==>
        || (step.Tick? && step.until >= s.lock.expiresAt)
        || (step.Release? && ActorOf(s, step.p).token == s.lock.token)
    ensures
      var s := After(steps);
      step.Release? && ActorOf(s, step.p).token == s.lock.token ==>
        s.lock.token in s.minted && s.minted[s.lock.token] == step.p
  {
    LockRun(steps);
    if step.Release? {
      assert Tenure(After(steps), step.p);
    }
  }

  /** In particular a holder that releases within its five seconds frees the lock at once. */
  lemma ReleaseFrees(steps: seq<Step>, p: Pid)
    requires IsRun(steps) && Enabled(After(steps), Release(p))
    requires After(steps).now < ActorOf(After(steps), p).expiresAt
    ensures Do(After(steps), Release(p)).lock == Free
  {
    LockRun(steps);
    assert Tenure(After(steps), p);
  }

  // ---------------------------------------------------------------------------------------------
  // Refinement of one sequential controller

  predicate Legal(move: Move) {
    match move
    case Reading(config, _) => Sound(config) && config.adaptiveTtlEnabled
    case _ => true
  }

  function Advance(n: Snapshot, move: Move): Snapshot {
    match move
    case Initialise => INITIAL_SNAPSHOT
    case Reading(config, signals) => Process(config, n, signals)
    case Disable => INITIAL_SNAPSHOT
    case Reset(enabled) => ResetSnapshot(enabled)
  }

  /**
   The writes are one run of one controller: the first initialises or resets it, and each later one
   is one legal move from exactly the value written before it.
   */
  ghost predicate OneController(log: seq<Write>) {
    && (log != [] ==>
          (log[0].move.Initialise? || log[0].move.Reset?)
          && log[0].snapshot == Advance(INITIAL_SNAPSHOT, log[0].move))
    && (forall i :: 0 < i < |log| ==>
          && !log[i].move.Initialise? && Legal(log[i].move)
          && log[i].snapshot == Advance(log[i - 1].snapshot, log[i].move))
  }

  ghost predicate SharedIsLast(s: State) {
    s.shared == if s.log == [] then None else Some(s.log[|s.log| - 1].snapshot)
  }

  ghost predicate Published(log: seq<Write>, n: Snapshot) {
    exists i :: 0 <= i < |log| && log[i].snapshot == n
  }

  // ---------------------------------------------------------------------------------------------
  // What holds in every run, whatever slow holders do

  ghost predicate Carefully(s: State, p: Pid) {
    match PcOf(s, p)
    case Getting(config, _) => Sound(config)
    case Initialising(config, _) => Sound(config)
    case GettingAgain(config, _) => Sound(config)
    case Loaded(config, _, n) => Sound(config) && WellFormed(n) && Published(s.log, n)
    case Applied(config) => Sound(config)
    case Saving(_, n) => WellFormed(n)
    case _ => true
  }

  ghost predicate AllWellFormed(s: State) {
    && SharedIsLast(s)
    && (forall i :: 0 <= i < |s.log| ==> WellFormed(s.log[i].snapshot))
    && (forall g :: WellFormed(Local(s, g)))
    && (forall p :: Carefully(s, p))
  }

  lemma PublishedKept(s: State, step: Step, n: Snapshot)
    requires Enabled(s, step) && Published(s.log, n)
    ensures Published(Do(s, step).log, n)
  {
    var i :| 0 <= i < |s.log| && s.log[i].snapshot == n;
    assert Do(s, step).log[i] == s.log[i];
  }

  lemma WellFormedValues(s: State, step: Step)
    requires AllWellFormed(s) && Enabled(s, step)
    ensures SharedIsLast(Do(s, step))
    ensures forall i :: 0 <= i < |Do(s, step).log| ==> WellFormed(Do(s, step).log[i].snapshot)
    ensures forall g :: WellFormed(Local(Do(s, step), g))
  {
    if step.ApplyLoaded? || step.ReadSignals? || step.Save? {
      assert Carefully(s, step.p);
    }
    if step.ReadSignals? {
      ProcessKeepsWellFormed(PcOf(s, step.p).config, Local(s, step.p.gateway), step.signals);
    }
    forall g ensures WellFormed(Local(Do(s, step), g)) {
      assert WellFormed(Local(s, g));
    }
  }

  lemma OwnCareful(s: State, step: Step, p: Pid)
    requires AllWellFormed(s) && Enabled(s, step) && Acts(step, p)
    ensures Carefully(Do(s, step), p)
  {
    assert Carefully(s, p);
    var log := Do(s, step).log;
    if PcOf(Do(s, step), p).Loaded? {
      assert log[|log| - 1].snapshot == PcOf(Do(s, step), p).snapshot;
    }
  }

  lemma OtherCareful(s: State, step: Step, p: Pid)
    requires Carefully(s, p) && Enabled(s, step) && !Acts(step, p)
    ensures Carefully(Do(s, step), p)
  {
    OthersUnmoved(s, step, p);
    if PcOf(s, p).Loaded? {
      PublishedKept(s, step, PcOf(s, p).snapshot);
    }
  }

  lemma {:induction false} WellFormedRun(steps: seq<Step>)
    requires IsRun(steps)
    ensures AllWellFormed(After(steps))
  {
    if steps != [] {
      var s, step := After(steps[..|steps| - 1]), steps[|steps| - 1];
      WellFormedRun(steps[..|steps| - 1]);
      WellFormedValues(s, step);
      forall p ensures Carefully(Do(s, step), p) {
        assert Carefully(s, p);
        if Acts(step, p) {
          OwnCareful(s, step, p);
        } else {
          OtherCareful(s, step, p);
        }
      }
    }
  }

  /**
   In every run, slow holders or not, every snapshot is well formed: the shared one, every one ever
   written, the controller of every gateway, and whatever is about to be saved. No load ever finds a
   shared snapshot that it must reject.
   */
  lemma SnapshotsWellFormed(steps: seq<Step>)
    requires IsRun(steps)
    ensures
      var s := After(steps);
      && (s.shared.Some? ==>
            WellFormed(s.shared.value)
            && forall pc, config, holder ::
                 Decoded(pc, config, holder, s.shared.value) == Loaded(config, holder, s.shared.value))
      && (forall i :: 0 <= i < |s.log| ==> WellFormed(s.log[i].snapshot))
      && (forall g :: WellFormed(Local(s, g)))
      && (forall p :: PcOf(s, p).Saving? ==> WellFormed(PcOf(s, p).snapshot))
  {
    WellFormedRun(steps);
    var s := After(steps);
    forall p | PcOf(s, p).Saving? ensures WellFormed(PcOf(s, p).snapshot) {
      assert Carefully(s, p);
    }
  }

  /** Whatever a gateway copies, holder or not, is a value that was written to the shared key. */
  lemma CopiesArePublished(steps: seq<Step>, p: Pid)
    requires IsRun(steps) && Enabled(After(steps), ApplyLoaded(p))
    ensures Published(After(steps).log, Local(Do(After(steps), ApplyLoaded(p)), p.gateway))
  {
    WellFormedRun(steps);
    assert Carefully(After(steps), p);
  }

  // ---------------------------------------------------------------------------------------------
  // Refinement while no holder is disturbed

  /** The holder works with the value it has loaded. */
  predicate Carries(pc: Pc) {
    (pc.Loaded? && pc.holder) || pc.Applied? || pc.Processed? || pc.Saving?
  }

  /**
   Another actor writes the shared snapshot, or the controller of the same gateway, under a holder
   that works with what it has loaded.
   */
  ghost predicate Disturbs(s: State, step: Step) {
    exists p :: Carries(PcOf(s, p)) && !Acts(step, p)
      && (step.Save? || step.ResetSave? || (step.ResetApply? && step.p.gateway == p.gateway))
  }

  ghost predicate Undisturbed(steps: seq<Step>)
    requires IsRun(steps)
  {
    steps != [] ==>
      !Disturbs(After(steps[..|steps| - 1]), steps[|steps| - 1]) && Undisturbed(steps[..|steps| - 1])
  }

  /** What a holder knows about the shared value at each point of its work. */
  ghost predicate HolderView(s: State, p: Pid) {
    match PcOf(s, p)
    case Loaded(_, holder, n) => holder ==> s.shared == Some(n)
    case Applied(_) => s.shared == Some(Local(s, p.gateway))
    case Processed(move) =>
      && s.shared.Some? && Legal(move) && !move.Initialise?
      && Local(s, p.gateway) == Advance(s.shared.value, move)
    case Saving(move, n) =>
      s.shared.Some? && Legal(move) && !move.Initialise? && n == Advance(s.shared.value, move)
    case _ => true
  }

  /** Update loops and resets keep to their own program. */
  ghost predicate Roles(s: State) {
    forall p: Pid :: p.Resetter? ==>
      PcOf(s, p).Idle? || PcOf(s, p).ResetTrying? || PcOf(s, p).ResetSaving?
      || PcOf(s, p).ResetApplying? || PcOf(s, p).Releasing?
  }

  ghost predicate Inv(s: State) {
    Roles(s) && OneController(s.log) && forall p :: HolderView(s, p)
  }

  lemma RolesStep(s: State, step: Step)
    requires Roles(s) && Enabled(s, step)
    ensures Roles(Do(s, step))
  {
  }

  lemma LogStep(s: State, step: Step)
    requires Inv(s) && SharedIsLast(s) && Enabled(s, step)
    ensures OneController(Do(s, step).log)
  {
    if step.Save? {
      assert HolderView(s, step.p);
    }
  }

  lemma LoadView(s: State, step: Step, p: Pid)
    requires Enabled(s, step) && (step.Get? || step.GetAgain? || step.SetInitial?) && p == step.p
    ensures HolderView(Do(s, step), p)
  {
  }

  /** The actor that takes the step knows what it must know next. */
  lemma OwnViewStep(s: State, step: Step, p: Pid)
    requires HolderView(s, p) && Carefully(s, p) && Enabled(s, step) && Acts(step, p)
    ensures HolderView(Do(s, step), p)
  {
    if step.Get? || step.GetAgain? || step.SetInitial? {
      LoadView(s, step, p);
    }
  }

  /** Another actor's step leaves a holder that carries a value alone. */
  lemma CarrierKept(s: State, step: Step, p: Pid)
    requires Roles(s) && Enabled(s, step) && !Disturbs(s, step)
    requires !Acts(step, p) && Carries(PcOf(s, p)) && s.shared.Some?
    ensures Do(s, step).shared == s.shared
    ensures Local(Do(s, step), p.gateway) == Local(s, p.gateway)
  {
  }

  lemma OtherViewStep(s: State, step: Step, p: Pid)
    requires Inv(s) && Enabled(s, step) && !Disturbs(s, step) && !Acts(step, p)
    ensures HolderView(Do(s, step), p)
  {
    OthersUnmoved(s, step, p);
    assert HolderView(s, p);
    if Carries(PcOf(s, p)) {
      CarrierKept(s, step, p);
    }
  }

  lemma InvStep(s: State, step: Step)
    requires Inv(s) && AllWellFormed(s) && Enabled(s, step) && !Disturbs(s, step)
    ensures Inv(Do(s, step))
  {
    RolesStep(s, step);
    LogStep(s, step);
    forall p ensures HolderView(Do(s, step), p) {
      assert HolderView(s, p) && Carefully(s, p);
      if Acts(step, p) {
        OwnViewStep(s, step, p);
      } else {
        OtherViewStep(s, step, p);
      }
    }
  }

  lemma {:induction false} InvRun(steps: seq<Step>)
    requires IsRun(steps) && Undisturbed(steps)
    ensures Inv(After(steps))
  {
    if steps != [] {
      InvRun(steps[..|steps| - 1]);
      WellFormedRun(steps[..|steps| - 1]);
      InvStep(After(steps[..|steps| - 1]), steps[|steps| - 1]);
    }
  }

  /**
   In every run of any number of gateways and resets in which no holder is disturbed, however long
   it takes, the values written to the shared snapshot are exactly a run of one sequential
   controller, and the key holds the last of them: no update is lost, none is applied to a stale value.
   */
  lemma ReplicasActAsOneController(steps: seq<Step>)
    requires IsRun(steps) && Undisturbed(steps)
    ensures OneController(After(steps).log)
    ensures After(steps).shared == if After(steps).log == [] then None
                                   else Some(After(steps).log[|After(steps).log| - 1].snapshot)
  {
    InvRun(steps);
    WellFormedRun(steps);
  }

  // ---------------------------------------------------------------------------------------------
  // What keeps holders undisturbed

  ghost predicate OneWorker(s: State) {
    forall p, q :: Works(PcOf(s, p)) && Works(PcOf(s, q)) ==> p == q
  }

  /** In every state before the last, at most one actor is at work. */
  ghost predicate OneWorkerAtATime(steps: seq<Step>)
    requires IsRun(steps)
  {
    steps != [] ==> OneWorker(After(steps[..|steps| - 1])) && OneWorkerAtATime(steps[..|steps| - 1])
  }

  lemma OneWorkerDisturbsNobody(s: State, step: Step)
    requires OneWorker(s) && Enabled(s, step)
    ensures !Disturbs(s, step)
  {
    if step.Save? || step.ResetSave? || step.ResetApply? {
      assert Works(PcOf(s, step.p));
    }
  }

  lemma {:induction false} OneWorkerIsUndisturbed(steps: seq<Step>)
    requires IsRun(steps) && OneWorkerAtATime(steps)
    ensures Undisturbed(steps)
  {
    if steps != [] {
      OneWorkerIsUndisturbed(steps[..|steps| - 1]);
      OneWorkerDisturbsNobody(After(steps[..|steps| - 1]), steps[|steps| - 1]);
    }
  }

  /** No holder is still at work when its five seconds are up; its release may come later. */
  ghost predicate HoldersInTime(s: State) {
    forall p :: Works(PcOf(s, p)) ==> s.now < ActorOf(s, p).expiresAt
  }

  ghost predicate Timely(steps: seq<Step>)
    requires IsRun(steps)
  {
    steps != [] ==> HoldersInTime(After(steps[..|steps| - 1])) && Timely(steps[..|steps| - 1])
  }

  lemma InTimeMeansOneWorker(s: State)
    requires Tenures(s) && HoldersInTime(s)
    ensures OneWorker(s)
  {
    forall p, q | Works(PcOf(s, p)) && Works(PcOf(s, q)) ensures p == q {
      assert Tenure(s, p) && Tenure(s, q);
    }
  }

  lemma {:induction false} TimelyMeansOneWorker(steps: seq<Step>)
    requires IsRun(steps) && Timely(steps)
    ensures OneWorkerAtATime(steps)
  {
    if steps != [] {
      TimelyMeansOneWorker(steps[..|steps| - 1]);
      LockRun(steps[..|steps| - 1]);
      InTimeMeansOneWorker(After(steps[..|steps| - 1]));
    }
  }

  /** So five seconds are enough to refine one controller, if every holder finishes its work in them. */
  lemma TimelyReplicasActAsOneController(steps: seq<Step>)
    requires IsRun(steps) && Timely(steps)
    ensures OneController(After(steps).log)
  {
    TimelyMeansOneWorker(steps);
    OneWorkerIsUndisturbed(steps);
    ReplicasActAsOneController(steps);
  }

  // ---------------------------------------------------------------------------------------------
  // What a disturbance does

  lemma Extend(steps: seq<Step>, step: Step) returns (longer: seq<Step>)
    requires IsRun(steps) && Enabled(After(steps), step)
    ensures longer == steps + [step] && IsRun(longer) && After(longer) == Do(After(steps), step)
  {
    longer := steps + [step];
    assert longer[..|longer| - 1] == steps;
  }

  /** An update loop that holds the lock, has loaded, and is about to process a reading. */
  predicate AboutToUpdate(s: State, p: Pid) {
    PcOf(s, p).Loaded? && PcOf(s, p).holder && PcOf(s, p).config.adaptiveTtlEnabled
  }

  /** The rest of its work. */
  function UpdateSteps(p: Pid, signals: Signals): seq<Step> {
    [ApplyLoaded(p), ReadSignals(p, signals), TakeSnapshot(p), Save(p)]
  }

  lemma UpdateUpToSave(steps: seq<Step>, p: Pid, signals: Signals) returns (longer: seq<Step>)
    requires IsRun(steps) && AboutToUpdate(After(steps), p)
    ensures longer == steps + UpdateSteps(p, signals)[..3] && IsRun(longer)
    ensures
      var s, s' := After(steps), After(longer);
      var pc := PcOf(s, p);
      && PcOf(s', p) == Saving(Reading(pc.config, signals), Process(pc.config, pc.snapshot, signals))
      && s'.log == s.log
      && forall q :: q != p ==> ActorOf(s', q) == ActorOf(s, q)
  {
    longer := Extend(steps, ApplyLoaded(p));
    longer := Extend(longer, ReadSignals(p, signals));
    longer := Extend(longer, TakeSnapshot(p));
  }

  lemma UpdateFrom(steps: seq<Step>, p: Pid, signals: Signals)
    requires IsRun(steps) && AboutToUpdate(After(steps), p)
    ensures IsRun(steps + UpdateSteps(p, signals))
    ensures
      var s, s' := After(steps), After(steps + UpdateSteps(p, signals));
      var pc := PcOf(s, p);
      && s'.log == s.log + [Write(Reading(pc.config, signals), Process(pc.config, pc.snapshot, signals))]
      && s'.shared == Some(Process(pc.config, pc.snapshot, signals))
      && forall q :: q != p ==> ActorOf(s', q) == ActorOf(s, q)
  {
    var longer := UpdateUpToSave(steps, p, signals);
    longer := Extend(longer, Save(p));
    assert longer == steps + UpdateSteps(p, signals);
  }

  const DISABLED := Snapshot(1.0, Disabled, 0, 0, 0.0)
  const RESTARTED := Snapshot(1.0, Warning, 0, 0, 0.0)

  /** A holder whose configuration disables the controller puts everything back to factor one. */
  lemma DisabledUpdate(steps: seq<Step>, p: Pid) returns (longer: seq<Step>)
    requires IsRun(steps) && PcOf(After(steps), p).Loaded? && PcOf(After(steps), p).holder
    requires !PcOf(After(steps), p).config.adaptiveTtlEnabled
    ensures longer == steps + [ApplyLoaded(p), DisableLocal(p), TakeSnapshot(p), Save(p)] && IsRun(longer)
    ensures
      var s := After(longer);
      s.shared == Some(DISABLED) && Local(s, p.gateway) == DISABLED && PcOf(s, p).Releasing?
  {
    longer := Extend(steps, ApplyLoaded(p));
    longer := Extend(longer, DisableLocal(p));
    longer := Extend(longer, TakeSnapshot(p));
    longer := Extend(longer, Save(p));
  }

  /** A reset that gets the lock restarts the shared snapshot and its gateway's controller, and frees the lock. */
  lemma ResetTakesEffect(steps: seq<Step>, p: Pid, enabled: bool, t: Token) returns (longer: seq<Step>)
    requires IsRun(steps) && p.Resetter? && p !in After(steps).actors
    requires !Live(After(steps).lock, After(steps).now) && t !in After(steps).minted
    ensures
      longer == steps + [StartReset(p, enabled), TryReset(p, t), ResetSave(p), ResetApply(p), Release(p)]
      && IsRun(longer)
    ensures
      var s := After(longer);
      && s.shared == Some(if enabled then RESTARTED else DISABLED)
      && Local(s, p.gateway) == s.shared.value && s.lock == Free && PcOf(s, p).Idle?
  {
    longer := ResetHolds(steps, p, enabled, t);
    longer := ResetFinishes(longer, p);
    assert longer == steps + [StartReset(p, enabled), TryReset(p, t), ResetSave(p), ResetApply(p), Release(p)];
  }

  lemma ResetHolds(steps: seq<Step>, p: Pid, enabled: bool, t: Token) returns (longer: seq<Step>)
    requires IsRun(steps) && p.Resetter? && p !in After(steps).actors
    requires !Live(After(steps).lock, After(steps).now) && t !in After(steps).minted
    ensures longer == steps + [StartReset(p, enabled), TryReset(p, t)] && IsRun(longer)
    ensures PcOf(After(longer), p) == ResetSaving(enabled)
    ensures After(longer).lock == Held(ActorOf(After(longer), p).token, After(longer).now + 5 * SECOND)
  {
    longer := Extend(steps, StartReset(p, enabled));
    longer := Extend(longer, TryReset(p, t));
  }

  lemma ResetFinishes(steps: seq<Step>, p: Pid) returns (longer: seq<Step>)
    requires IsRun(steps) && PcOf(After(steps), p).ResetSaving?
    requires After(steps).lock == Held(ActorOf(After(steps), p).token, After(steps).now + 5 * SECOND)
    ensures longer == steps + [ResetSave(p), ResetApply(p), Release(p)] && IsRun(longer)
    ensures
      var s := After(longer);
      && s.shared == Some(if PcOf(After(steps), p).enabled then RESTARTED else DISABLED)
      && Local(s, p.gateway) == s.shared.value && s.lock == Free && PcOf(s, p).Idle?
  {
    longer := Extend(steps, ResetSave(p));
    longer := Extend(longer, ResetApply(p));
    longer := Extend(longer, Release(p));
  }

  /** A reset that finds the lock taken tries again, and changes nothing but having drawn a token. */
  lemma BusyLockMeansRetry(s: State, p: Pid, t: Token)
    requires Enabled(s, TryReset(p, t)) && Live(s.lock, s.now)
    ensures
      var s' := Do(s, TryReset(p, t));
      PcOf(s', p) == PcOf(s, p) && s' == s.(minted := s'.minted, actors := s'.actors)
  {
  }

  /** A failure ends the work: a holder goes on to its release, anyone else is done, and no value changes. */
  lemma FailureEndsWork(s: State, p: Pid)
    requires Enabled(s, Fail(p))
    ensures
      var s' := Do(s, Fail(p));
      && s' == s.(actors := s'.actors)
      && if Holds(PcOf(s, p)) then Enabled(s', Release(p)) && Enabled(s', ReleaseFails(p)) else PcOf(s', p).Idle?
    ensures Enabled(s, ReleaseFails(p)) ==>
              PcOf(Do(s, ReleaseFails(p)), p).Idle? && Do(s, ReleaseFails(p)).lock == s.lock
  {
  }

  /** A gateway that finds the lock taken copies the shared snapshot, and changes nothing else. */
  lemma BusyLockMeansCopy(steps: seq<Step>, g: nat, config: Config, t: Token) returns (longer: seq<Step>)
    requires IsRun(steps) && Enabled(After(steps), StartUpdate(g, config, t))
    requires Live(After(steps).lock, After(steps).now) && After(steps).shared.Some?
    ensures longer == steps + [StartUpdate(g, config, t), Get(Updater(g)), ApplyLoaded(Updater(g))] && IsRun(longer)
    ensures
      var s, s' := After(steps), After(longer);
      && Local(s', g) == s.shared.value && PcOf(s', Updater(g)).Idle?
      && s'.lock == s.lock && s'.shared == s.shared && s'.log == s.log
  {
    WellFormedRun(steps);
    longer := Extend(steps, StartUpdate(g, config, t));
    longer := Extend(longer, Get(Updater(g)));
    longer := Extend(longer, ApplyLoaded(Updater(g)));
  }

  /** The processing of a reading cannot tell these two snapshots apart. */
  predicate Alike(c: Config, n: Snapshot, m: Snapshot) {
    && Clamp(n.factor, c.minFactor, c.maxFactor) == Clamp(m.factor, c.minFactor, c.maxFactor)
    && n.congestedReadings == m.congestedReadings && n.stableReadings == m.stableReadings
  }

  function BusyFor(c: Config): Signals {
    Signals(0.0, c.concurrencyThreshold, 1, 0)
  }

  function WarningFor(c: Config): Signals {
    Signals(c.latencyThresholdMs as real * 0.95, 0, 1, MINIMUM_SAMPLE_COUNT)
  }

  const QUIET_SIGNALS := Signals(0.0, 0, 1, 0)

  lemma AlikeExactly(c: Config, n: Snapshot, m: Snapshot)
    requires Sound(c) && WellFormed(n) && WellFormed(m)
    ensures (forall signals :: Process(c, n, signals) == Process(c, m, signals)) <==> Alike(c, n, m)
  {
    if forall signals :: Process(c, n, signals) == Process(c, m, signals) {
      assert Process(c, n, WarningFor(c)) == Process(c, m, WarningFor(c));
      assert Process(c, n, BusyFor(c)) == Process(c, m, BusyFor(c));
      assert Process(c, n, QUIET_SIGNALS) == Process(c, m, QUIET_SIGNALS);
    }
  }

  lemma LongerController(log: seq<Write>, w: Write)
    requires OneController(log) && log != [] && w.move.Reading? && Legal(w.move)
    ensures OneController(log + [w]) <==> w.snapshot == Advance(log[|log| - 1].snapshot, w.move)
  {
    var longer := log + [w];
    assert longer[|log|] == w && longer[|log| - 1] == log[|log| - 1];
    if w.snapshot == Advance(log[|log| - 1].snapshot, w.move) {
      forall i | 0 < i < |longer|
        ensures !longer[i].move.Initialise? && Legal(longer[i].move)
        ensures longer[i].snapshot == Advance(longer[i - 1].snapshot, longer[i].move)
      {
        assert i < |log| ==> longer[i] == log[i] && longer[i - 1] == log[i - 1];
      }
    }
  }

  /** One more update continues the sequential run exactly when it is applied as to the value last written. */
  lemma UpdateContinues(steps: seq<Step>, p: Pid, signals: Signals)
    requires IsRun(steps) && AboutToUpdate(After(steps), p) && OneController(After(steps).log)
    ensures IsRun(steps + UpdateSteps(p, signals)) && After(steps).shared.Some?
    ensures
      var s := After(steps);
      var pc := PcOf(s, p);
      OneController(After(steps + UpdateSteps(p, signals)).log) <==>
        Process(pc.config, pc.snapshot, signals) == Process(pc.config, s.shared.value, signals)
  {
    var s := After(steps);
    var pc := PcOf(s, p);
    WellFormedRun(steps);
    assert Carefully(s, p);
    UpdateFrom(steps, p, signals);
    LongerController(s.log, Write(Reading(pc.config, signals), Process(pc.config, pc.snapshot, signals)));
  }

  /**
   The exact price of a disturbance, and with it of outliving the lock: whatever was written since a
   holder loaded, its update continues the sequential run for every reading exactly when processing
   cannot tell the value it loaded from the one that is shared now.
   */
  lemma StaleUpdateExactly(steps: seq<Step>, p: Pid)
    requires IsRun(steps) && AboutToUpdate(After(steps), p) && OneController(After(steps).log)
    ensures After(steps).shared.Some?
    ensures
      var s := After(steps);
      (forall signals ::
         IsRun(steps + UpdateSteps(p, signals)) && OneController(After(steps + UpdateSteps(p, signals)).log))
      <==> Alike(PcOf(s, p).config, PcOf(s, p).snapshot, s.shared.value)
  {
    var s := After(steps);
    var pc := PcOf(s, p);
    WellFormedRun(steps);
    assert Carefully(s, p);
    forall signals
      ensures IsRun(steps + UpdateSteps(p, signals)) && s.shared.Some?
      ensures OneController(After(steps + UpdateSteps(p, signals)).log) <==>
                Process(pc.config, pc.snapshot, signals) == Process(pc.config, s.shared.value, signals)
    {
      UpdateContinues(steps, p, signals);
    }
    AlikeExactly(pc.config, pc.snapshot, s.shared.value);
  }

  ghost predicate TakenBy(steps: seq<Step>, p: Pid, q: Pid) {
    forall i :: 0 <= i < |steps| ==> Acts(steps[i], p) || Acts(steps[i], q)
  }

  /** A busy reading turns the congested counter over, so it shows which value it was applied to. */
  lemma BusyShowsCounter(c: Config, n: Snapshot, m: Snapshot)
    requires Sound(c) && WellFormed(n) && WellFormed(m) && n.congestedReadings != m.congestedReadings
    ensures Process(c, n, BusyFor(c)) != Process(c, m, BusyFor(c))
    ensures Process(c, n, BusyFor(c)).congestedReadings == 1 - n.congestedReadings
  {
  }

  /**
   Two holders that have both loaded can always lose an update between them, from any state and
   without any further lock, time or failure: some order of finishing breaks the sequential run.
   */
  lemma TwoHoldersCanLoseUpdate(steps: seq<Step>, p: Pid, q: Pid) returns (more: seq<Step>)
    requires IsRun(steps) && OneController(After(steps).log)
    requires p != q && AboutToUpdate(After(steps), p) && AboutToUpdate(After(steps), q)
    ensures IsRun(steps + more) && !OneController(After(steps + more).log)
    ensures TakenBy(more, p, q)
  {
    var s := After(steps);
    UpdateContinues(steps, p, BusyFor(PcOf(s, p).config));
    if s.shared.value.congestedReadings != PcOf(s, p).snapshot.congestedReadings {
      CounterMismatchBreaks(steps, p);
      more := UpdateSteps(p, BusyFor(PcOf(s, p).config));
    } else if s.shared.value.congestedReadings != PcOf(s, q).snapshot.congestedReadings {
      CounterMismatchBreaks(steps, q);
      more := UpdateSteps(q, BusyFor(PcOf(s, q).config));
    } else {
      more := SameLoadLosesUpdate(steps, p, q);
    }
  }

  /** Both have loaded the same congested counter, so the second to save saves a stale one. */
  lemma SameLoadLosesUpdate(steps: seq<Step>, p: Pid, q: Pid) returns (more: seq<Step>)
    requires IsRun(steps) && p != q && AboutToUpdate(After(steps), p) && AboutToUpdate(After(steps), q)
    requires PcOf(After(steps), p).snapshot.congestedReadings == PcOf(After(steps), q).snapshot.congestedReadings
    ensures IsRun(steps + more) && !OneController(After(steps + more).log)
    ensures TakenBy(more, p, q)
  {
    FirstSaveTurnsCounter(steps, p);
    var first := UpdateSteps(p, BusyFor(PcOf(After(steps), p).config));
    var now := steps + first;
    assert ActorOf(After(now), q) == ActorOf(After(steps), q);
    more := first;
    if OneController(After(now).log) {
      CounterMismatchBreaks(now, q);
      var second := UpdateSteps(q, BusyFor(PcOf(After(now), q).config));
      more := first + second;
      assert steps + more == now + second;
    }
  }

  /** A save after a busy reading turns the shared counter over and leaves the other holder as it was. */
  lemma FirstSaveTurnsCounter(steps: seq<Step>, p: Pid)
    requires IsRun(steps) && AboutToUpdate(After(steps), p)
    ensures
      var pc := PcOf(After(steps), p);
      var busy := BusyFor(pc.config);
      && IsRun(steps + UpdateSteps(p, busy)) && After(steps + UpdateSteps(p, busy)).shared.Some?
      && After(steps + UpdateSteps(p, busy)).shared.value.congestedReadings == 1 - pc.snapshot.congestedReadings
      && forall q :: q != p ==> ActorOf(After(steps + UpdateSteps(p, busy)), q) == ActorOf(After(steps), q)
  {
    WellFormedRun(steps);
    assert Carefully(After(steps), p);
    UpdateFrom(steps, p, BusyFor(PcOf(After(steps), p).config));
  }

  lemma CounterMismatchBreaks(steps: seq<Step>, q: Pid)
    requires IsRun(steps) && AboutToUpdate(After(steps), q) && OneController(After(steps).log)
    requires
      var s := After(steps);
      s.shared.Some? && s.shared.value.congestedReadings != PcOf(s, q).snapshot.congestedReadings
    ensures
      var more := UpdateSteps(q, BusyFor(PcOf(After(steps), q).config));
      IsRun(steps + more) && !OneController(After(steps + more).log)
  {
    var s := After(steps);
    var pc := PcOf(s, q);
    WellFormedRun(steps);
    assert Carefully(s, q);
    UpdateContinues(steps, q, BusyFor(pc.config));
    BusyShowsCounter(pc.config, pc.snapshot, s.shared.value);
  }

  /**
   In particular whenever a holder that has loaded outlives its lock, by however little or much: any
   idle gateway can then acquire the lock, load, and one of the two updates is lost.
   */
  lemma OverrunCanLoseUpdate(steps: seq<Step>, p: Pid, until: Time, h: nat, config: Config, t: Token)
    returns (more: seq<Step>)
    requires IsRun(steps) && OneController(After(steps).log) && AboutToUpdate(After(steps), p)
    requires After(steps).now <= until && !Live(After(steps).lock, until)
    requires PcOf(After(steps), Updater(h)).Idle? && t !in After(steps).minted
    requires Sound(config) && config.adaptiveTtlEnabled
    ensures IsRun(steps + more) && !OneController(After(steps + more).log)
    ensures more != [] && more[0] == Tick(until) && TakenBy(more[1..], p, Updater(h))
  {
    var now := SecondHolderJoins(steps, p, until, h, config, t);
    var rest := TwoHoldersCanLoseUpdate(now, p, Updater(h));
    more := JoinThen(steps, p, until, h, config, t, rest);
  }

  /** The steps of the second holder's start and those that follow, put together. */
  lemma JoinThen(steps: seq<Step>, p: Pid, until: Time, h: nat, config: Config, t: Token, rest: seq<Step>)
    returns (more: seq<Step>)
    requires TakenBy(rest, p, Updater(h))
    ensures steps + more == steps + [Tick(until), StartUpdate(h, config, t), Get(Updater(h))] + rest
    ensures more != [] && more[0] == Tick(until) && TakenBy(more[1..], p, Updater(h))
  {
    var join := [StartUpdate(h, config, t), Get(Updater(h))];
    more := [Tick(until)] + (join + rest);
    assert more[1..] == join + rest;
  }

  lemma SecondHolderJoins(steps: seq<Step>, p: Pid, until: Time, h: nat, config: Config, t: Token)
    returns (longer: seq<Step>)
    requires IsRun(steps) && AboutToUpdate(After(steps), p)
    requires After(steps).now <= until && !Live(After(steps).lock, until)
    requires PcOf(After(steps), Updater(h)).Idle? && t !in After(steps).minted
    requires p != Updater(h) && Sound(config) && config.adaptiveTtlEnabled
    ensures longer == steps + [Tick(until), StartUpdate(h, config, t), Get(Updater(h))]
    ensures
      && IsRun(longer) && After(longer).log == After(steps).log
      && AboutToUpdate(After(longer), p) && AboutToUpdate(After(longer), Updater(h))
  {
    WellFormedRun(steps);
    assert Carefully(After(steps), p);
    longer := Extend(steps, Tick(until));
    longer := StartsHolding(longer, h, config, t);
    longer := LoadsShared(longer, Updater(h));
  }

  lemma StartsHolding(steps: seq<Step>, h: nat, config: Config, t: Token) returns (longer: seq<Step>)
    requires IsRun(steps) && Enabled(After(steps), StartUpdate(h, config, t))
    requires !Live(After(steps).lock, After(steps).now)
    ensures longer == steps + [StartUpdate(h, config, t)] && IsRun(longer)
    ensures
      var s, s' := After(steps), After(longer);
      && s'.log == s.log && s'.shared == s.shared && PcOf(s', Updater(h)) == Getting(config, true)
      && forall q :: q != Updater(h) ==> ActorOf(s', q) == ActorOf(s, q)
  {
    longer := Extend(steps, StartUpdate(h, config, t));
  }

  lemma LoadsShared(steps: seq<Step>, p: Pid) returns (longer: seq<Step>)
    requires IsRun(steps) && PcOf(After(steps), p).Getting?
    requires After(steps).shared.Some? && After(steps).shared.value.factor > 0.0
    ensures longer == steps + [Get(p)] && IsRun(longer)
    ensures
      var s, s' := After(steps), After(longer);
      && s'.log == s.log
      && PcOf(s', p) == Loaded(PcOf(s, p).config, PcOf(s, p).holder, s.shared.value)
      && forall q :: q != p ==> ActorOf(s', q) == ActorOf(s, q)
  {
    longer := Extend(steps, Get(p));
  }

  const ADAPTIVE_CONFIG := DEFAULT_CONFIG.(adaptiveTtlEnabled := true)
  const BUSY := Signals(0.0, 12, 12, 0)
  const ONE_BUSY_READING := Snapshot(1.0, Congested, 0, 1, 0.0)
  const BUSY_MOVE := Reading(ADAPTIVE_CONFIG, BUSY)

  lemma FirstHolderLoads() returns (steps: seq<Step>)
    ensures IsRun(steps)
    ensures After(steps) == State(
      0, Held(0, CONTROLLER_LOCK_TTL), Some(INITIAL_SNAPSHOT), map[],
      map[Updater(0) := Actor(Loaded(ADAPTIVE_CONFIG, true, INITIAL_SNAPSHOT), 0, CONTROLLER_LOCK_TTL)],
      map[0 := Updater(0)],
      [Write(Initialise, INITIAL_SNAPSHOT)])
  {
    steps := Extend([], StartUpdate(0, ADAPTIVE_CONFIG, 0));
    steps := Extend(steps, Get(Updater(0)));
    steps := Extend(steps, SetInitial(Updater(0)));
  }

  /** The first holder has loaded when its lock runs out; the second has loaded meanwhile. */
  lemma SecondHolderLoads() returns (steps: seq<Step>)
    ensures IsRun(steps)
    ensures
      var s := After(steps);
      && PcOf(s, Updater(0)) == PcOf(s, Updater(1)) == Loaded(ADAPTIVE_CONFIG, true, INITIAL_SNAPSHOT)
      && s.log == [Write(Initialise, INITIAL_SNAPSHOT)]
  {
    steps := FirstHolderLoads();
    steps := Extend(steps, Tick(CONTROLLER_LOCK_TTL));
    steps := Extend(steps, StartUpdate(1, ADAPTIVE_CONFIG, 1));
    steps := Extend(steps, Get(Updater(1)));
  }

  /** What it comes to: two congested readings count as one, and the factor that was due is not raised. */
  lemma SlowHolderLosesUpdate() returns (steps: seq<Step>)
    ensures IsRun(steps)
    ensures After(steps).log == [
      Write(Initialise, INITIAL_SNAPSHOT), Write(BUSY_MOVE, ONE_BUSY_READING), Write(BUSY_MOVE, ONE_BUSY_READING)]
    ensures !OneController(After(steps).log)
    ensures Advance(ONE_BUSY_READING, BUSY_MOVE).factor == 1.15
  {
    steps := SecondHolderLoads();
    UpdateFrom(steps, Updater(1), BUSY);
    steps := steps + UpdateSteps(Updater(1), BUSY);
    UpdateFrom(steps, Updater(0), BUSY);
    steps := steps + UpdateSteps(Updater(0), BUSY);
    var log := After(steps).log;
    assert log[2].snapshot != Advance(log[1].snapshot, log[2].move);
  }
}
