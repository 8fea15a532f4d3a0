/**
 How gateways agree on the configuration: the Redis store that keeps it with a version, the copy in
 each gateway, and the protocol between them.
 */
module ConfigVersions {
  import opened Basics
  import opened GatewayConfig
  import L1Cache

  /** The two Redis keys of the store. */
  datatype Store = Store(data: Option<Config>, version: Option<int>)

  function Initialized(store: Store, default: Config): Store {
    if store.data.None? then Store(Some(default), Some(1))
    else if store.version.None? then store.(version := Some(1))
    else store
  }

  function Read(store: Store): Option<(Config, int)> {
    if store.data.Some? && store.version.Some? then
      Some((ApplyAdaptiveTtlDefaults(store.data.value), store.version.value))
    else None
  }

  /** SET of the data and INCR of the version in one transaction; INCR counts a missing key as 0. */
  function Updated(store: Store, config: Config): Store {
    Store(Some(config), Some((if store.version.Some? then store.version.value else 0) + 1))
  }

  class GatewayConfigStore {
    var data: Option<Config>
    var version: Option<int>

    function Value(): Store
      reads this
    {
      Store(data, version)
    }

    method Initialize(defaultConfig: Config)
      modifies this
      ensures Value() == Initialized(old(Value()), defaultConfig)
      ensures old(data).None? || old(version).None? ==> version == Some(1)
      ensures old(data).Some? ==> data == old(data)
      ensures Read(Value()).Some? && (Read(old(Value())).Some? ==> Value() == old(Value()))
      ensures old(data).None? && Validate(defaultConfig) == Accepted ==> Read(Value()) == Some((defaultConfig, 1))
    {
      if data.None? {
        data, version := Some(defaultConfig), Some(1);
      } else if version.None? {
        version := Some(1);
      }
    }

    method Get() returns (r: Option<(Config, int)>)
      ensures r == Read(Value())
      ensures r.None? <==> data.None? || version.None?
      ensures r.Some? ==> r.value.1 == version.value && ApplyAdaptiveTtlDefaults(r.value.0) == r.value.0
    {
      if data.None? || version.None? {
        return None;
      }
      return Some((ApplyAdaptiveTtlDefaults(data.value), version.value));
    }

    method Update(config: Config) returns (newVersion: int)
      modifies this
      ensures Value() == Updated(old(Value()), config) && version == Some(newVersion)
      ensures Validate(config) == Accepted ==> Read(Value()) == Some((config, newVersion))
      ensures Read(old(Value())).Some? ==> newVersion > Read(old(Value())).value.1
      ensures newVersion == (if old(version).Some? then old(version).value else 0) + 1
    {
      newVersion := (if version.Some? then version.value else 0) + 1;
      data, version := Some(config), Some(newVersion);
    }
  }

  /** The copy a gateway works with. */
  datatype Copy = Copy(config: Config, version: int)

  function Adopted(copy: Copy, config: Config, version: int): Copy {
    if version != copy.version then Copy(config, version) else copy
  }

  /** The gateway's copy, with the L1 cache that is emptied whenever the copy is replaced. */
  class ConfigHolder {
    var gatewayConfig: Config
    var configVersion: int
    const l1: L1Cache.L1Cache

    constructor (config: Config, version: int)
      ensures Value() == Copy(config, version) && l1.Valid() && l1.contents == []
    {
      gatewayConfig, configVersion := config, version;
      l1 := new L1Cache.L1Cache();
    }

    function Value(): Copy
      reads this
    {
      Copy(gatewayConfig, configVersion)
    }

    /** The second half of currentGatewayConfig, under the configuration mutex. */
    method Adopt(config: Config, version: int) returns (current: Config)
      requires l1.Valid()
      modifies this, l1, l1.cacheOrder, l1.cacheOrder.root`next, l1.cacheOrder.root`prev
      ensures Value() == Adopted(old(Value()), config, version) && current == gatewayConfig
      ensures l1.Valid()
      ensures l1.contents == if version == old(configVersion) then old(l1.contents) else []
    {
      if version != configVersion {
        l1.ClearL1();
        gatewayConfig, configVersion := config, version;
      }
      return gatewayConfig;
    }

    /** What an accepted update does on the gateway that serves it. */
    method Install(config: Config, version: int)
      requires l1.Valid()
      modifies this, l1, l1.cacheOrder, l1.cacheOrder.root`next, l1.cacheOrder.root`prev
      ensures Value() == Copy(config, version) && l1.Valid() && l1.contents == []
    {
      gatewayConfig, configVersion := config, version;
      l1.ClearL1();
    }
  }

  // ---------------------------------------------------------------------------------------------
  // The protocol

  type Pid = nat
  type Gid = nat

  datatype Pc =
    | Loaded(config: Config, version: int)            // MGET done, mutex not yet taken
    | Returned(config: Config, version: int)          // what currentGatewayConfig gave, and the version it read
    | Published(config: Config, version: int)          // an update that Redis has taken
    | Finished

  datatype Request = Request(gateway: Gid, pc: Pc)

  datatype State = State(
    store: Store,
    copies: map<Gid, Copy>,
    requests: map<Pid, Request>,
    published: map<int, Config>)  // history: the configuration each version stands for

  datatype Step =
    | Boot(g: Gid)                                 // Initialize, then the first Get
    | Load(p: Pid, g: Gid)
    | Adopt(p: Pid)
    | Update(p: Pid, g: Gid, config: Config)
    | Install(p: Pid)

  /** Redis may hold anything when the first gateway starts. */
  ghost predicate IsInit(s: State) {
    s.copies == map[] && s.requests == map[] && s.published == map[]
  }

  predicate Enabled(s: State, step: Step) {
    match step
    case Boot(g) => g !in s.copies
    case Load(p, g) => p !in s.requests && g in s.copies && Read(s.store).Some?
    case Adopt(p) => p in s.requests && s.requests[p].pc.Loaded? && s.requests[p].gateway in s.copies
    case Update(p, g, config) => p !in s.requests && g in s.copies && Validate(config) == Accepted
    case Install(p) => p in s.requests && s.requests[p].pc.Published?
  }

  function Publish(s: State): State {
    match Read(s.store)
    case None => s
    case Some((config, version)) => s.(published := s.published[version := config])
  }

  function Do(s: State, step: Step): State
    requires Enabled(s, step)
  {
    match step
    case Boot(g) =>
      var s' := Publish(s.(store := Initialized(s.store, DEFAULT_CONFIG)));
      (match Read(s'.store)
       case None => s'
       case Some((config, version)) => s'.(copies := s.copies[g := Copy(config, version)]))
    case Load(p, g) =>
      var (config, version) := Read(s.store).value;
      s.(requests := s.requests[p := Request(g, Loaded(config, version))])
    case Adopt(p) =>
      var r := s.requests[p];
      var copy := Adopted(s.copies[r.gateway], r.pc.config, r.pc.version);
      s.(copies := s.copies[r.gateway := copy],
         requests := s.requests[p := r.(pc := Returned(copy.config, r.pc.version))])
    case Update(p, g, config) =>
      var s' := s.(store := Updated(s.store, config));
      Publish(s'.(requests := s.requests[p := Request(g, Published(config, s'.store.version.value))]))
    case Install(p) =>
      var r := s.requests[p];
      s.(copies := s.copies[r.gateway := Copy(r.pc.config, r.pc.version)],
         requests := s.requests[p := r.(pc := Finished)])
  }

  ghost predicate IsRun(start: State, steps: seq<Step>)
    decreases |steps|, 0
  {
    steps != [] ==>
      IsRun(start, steps[..|steps| - 1]) && Enabled(After(start, steps[..|steps| - 1]), steps[|steps| - 1])
  }

  ghost function After(start: State, steps: seq<Step>): State
    requires IsRun(start, steps)
    decreases |steps|, 1
  {
    if steps == [] then start else Do(After(start, steps[..|steps| - 1]), steps[|steps| - 1])
  }

  ghost predicate Stands(s: State, config: Config, version: int) {
    version in s.published && s.published[version] == config
  }

  ghost predicate Inv(s: State) {
    && (s.copies == map[] ==> s.published == map[] && s.requests == map[])
    && (s.copies != map[] ==> Read(s.store).Some? && Stands(s, Read(s.store).value.0, Read(s.store).value.1))
    && (forall v :: v in s.published ==> s.store.version.Some? && v <= s.store.version.value)
    && (forall g :: g in s.copies ==> Stands(s, s.copies[g].config, s.copies[g].version))
    && (forall p :: p in s.requests && !s.requests[p].pc.Finished? ==>
          Stands(s, s.requests[p].pc.config, s.requests[p].pc.version))
  }

  lemma InvStep(s: State, step: Step)
    requires Inv(s) && Enabled(s, step)
    ensures Inv(Do(s, step))
    ensures forall v :: v in s.published ==> Stands(Do(s, step), s.published[v], v)
  {
    if step.Update? {
      AcceptedIsSound(step.config);
      assert step.g in s.copies;
    } else if step.Adopt? || step.Install? {
      assert step.p in s.requests;
    } else {
      assert step.g in Do(s, step).copies;
    }
  }

  lemma {:induction false} InvRun(start: State, steps: seq<Step>)
    requires IsInit(start) && IsRun(start, steps)
    ensures Inv(After(start, steps))
  {
    if steps != [] {
      InvRun(start, steps[..|steps| - 1]);
      InvStep(After(start, steps[..|steps| - 1]), steps[|steps| - 1]);
    }
  }

  /**
   In every run, from whatever Redis held at first, each gateway's configuration and version were
   published together, so two gateways at one version work with one configuration.
   */
  lemma EqualVersionsMeanEqualConfigs(start: State, steps: seq<Step>, g: Gid, h: Gid)
    requires IsInit(start) && IsRun(start, steps)
    requires g in After(start, steps).copies && h in After(start, steps).copies
    ensures
      var s := After(start, steps);
      && Stands(s, s.copies[g].config, s.copies[g].version)
      && (s.copies[g].version == s.copies[h].version ==> s.copies[g].config == s.copies[h].config)
  {
    InvRun(start, steps);
  }

  /** The configuration a request is given is always the one of the version it read. */
  lemma ReturnedConfigIsOfVersionRead(start: State, steps: seq<Step>, p: Pid)
    requires IsInit(start) && IsRun(start, steps)
    requires p in After(start, steps).requests && After(start, steps).requests[p].pc.Returned?
    ensures
      var s := After(start, steps);
      Stands(s, s.requests[p].pc.config, s.requests[p].pc.version)
  {
    InvRun(start, steps);
  }

  /** A version, once published, stands for the same configuration for ever. */
  lemma {:induction false} PublishedForEver(start: State, steps: seq<Step>, n: nat, v: int)
    requires IsInit(start) && IsRun(start, steps) && n <= |steps| && IsRun(start, steps[..n])
    requires v in After(start, steps[..n]).published
    ensures Stands(After(start, steps), After(start, steps[..n]).published[v], v)
    decreases |steps|
  {
    if n == |steps| {
      assert steps[..n] == steps;
    } else {
      var before := steps[..|steps| - 1];
      assert before[..n] == steps[..n];
      PublishedForEver(start, before, n, v);
      InvRun(start, before);
      InvStep(After(start, before), steps[|steps| - 1]);
    }
  }

  // ---------------------------------------------------------------------------------------------
  // Versions are not monotone

  lemma Extend(start: State, steps: seq<Step>, step: Step) returns (longer: seq<Step>)
    requires IsRun(start, steps) && Enabled(After(start, steps), step)
    ensures longer == steps + [step] && IsRun(start, longer)
    ensures After(start, longer) == Do(After(start, steps), step)
  {
    longer := steps + [step];
    assert longer[..|longer| - 1] == steps;
  }

  /**
   A gateway's version can go back: a request that read version 1 adopts it after an update has
   installed version 2, since the test is for a different version and not for a newer one.
   */
  lemma VersionCanGoBack(config: Config) returns (start: State, steps: seq<Step>)
    requires Validate(config) == Accepted
    ensures IsInit(start) && IsRun(start, steps) && steps != [] && IsRun(start, steps[..|steps| - 1])
    ensures
      var s, s' := After(start, steps[..|steps| - 1]), After(start, steps);
      && 0 in s.copies && s.copies[0] == Copy(config, 2)
      && 0 in s'.copies && s'.copies[0] == Copy(DEFAULT_CONFIG, 1)
  {
    start := State(Store(None, None), map[], map[], map[]);
    AcceptedIsSound(config);
    steps := Extend(start, [], Boot(0));
    steps := Extend(start, steps, Load(1, 0));
    steps := Extend(start, steps, Update(2, 0, config));
    steps := Extend(start, steps, Install(2));
    var before := steps;
    steps := Extend(start, steps, Adopt(1));
    assert steps[..|steps| - 1] == before;
  }

  /** That is the only way: a step takes a gateway back exactly when it brings an older version. */
  lemma VersionGoesBackExactly(start: State, steps: seq<Step>, step: Step, g: Gid)
    requires IsInit(start) && IsRun(start, steps) && Enabled(After(start, steps), step)
    requires g in After(start, steps).copies
    ensures
      var s, s' := After(start, steps), Do(After(start, steps), step);
      g in s'.copies
      && (s'.copies[g].version < s.copies[g].version <==>
            && (step.Adopt? || step.Install?)
            && s.requests[step.p].gateway == g
            && s.requests[step.p].pc.version < s.copies[g].version)
  {
    InvRun(start, steps);
  }
}
