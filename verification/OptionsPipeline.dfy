/**
 How the two open paths turn a configuration into engine options: RocksDbCFStore::open
 (src/cf_store.rs) and the transactional stores (src/tx/internal.rs), without custom callbacks.
 */
module OptionsPipeline {
  import opened Wrappers
  import opened ByteStrings
  import opened MergeHistory
  import opened Tuning

  type Name = string

  datatype Comparator = Bytewise | NaturalLexicographical(ignoreCase: bool) | Natural(ignoreCase: bool)

  datatype MergeOperatorConfig = MergeOperatorConfig(name: string, full: Option<MergeFn>, partial: Option<MergeFn>)

  datatype CfConfig = CfConfig(
    profile: Option<Profile>,
    merge: Option<MergeOperatorConfig>,
    comparator: Option<Comparator>,
    filterRouter: Option<string>)

  datatype TxCfConfig = TxCfConfig(base: CfConfig)

  /** Raw engine options of one column family; unset parts keep the engine's default. */
  datatype CfOptions = CfOptions(
    settings: map<Opt, Setting>,
    merge: Option<(string, MergeFns)>,
    comparator: Option<Comparator>,
    filter: Option<string>)

  const BARE := CfOptions(map[], None, None, None)

  function Attach(o: CfOptions, c: CfConfig): CfOptions {
    o.(merge := match c.merge
                case Some(m) => Some((m.name, MergeFns(if m.full.Some? then m.full.value else Concatenation,
                                                       if m.partial.Some? then m.partial.value else DefaultPartial)))
                case None => o.merge,
       comparator := if c.comparator.Some? && c.comparator.value != Bytewise then c.comparator else o.comparator,
       filter := if c.filterRouter.Some? then c.filterRouter else o.filter)
  }

  /** The profile of the column family, else that of the database. */
  function EffectiveProfile(configs: map<Name, CfConfig>, dbProfile: Option<Profile>, name: Name): Option<Profile> {
    if name in configs && configs[name].profile.Some? then configs[name].profile else dbProfile
  }

  function TunedState(configs: map<Name, CfConfig>, dbProfile: Option<Profile>, name: Name): OptState {
    match EffectiveProfile(configs, dbProfile, name)
    case Some(p) => ApplyAll(FRESH, CfCalls(p))
    case None => FRESH
  }

  /** The options a configured column family is meant to get. */
  function FinalOptions(configs: map<Name, CfConfig>, dbProfile: Option<Profile>, name: Name): CfOptions {
    var tuned := BARE.(settings := TunedState(configs, dbProfile, name).inner);
    if name in configs then Attach(tuned, configs[name]) else tuned
  }

  function TunedStates(names: seq<Name>, configs: map<Name, CfConfig>, dbProfile: Option<Profile>)
    : map<Name, OptState>
  {
    map n | n in names :: TunedState(configs, dbProfile, n)
  }

  lemma {:induction false} TunedStatesSnoc(names: seq<Name>, name: Name, configs: map<Name, CfConfig>,
                                           dbProfile: Option<Profile>)
    ensures TunedStates(names + [name], configs, dbProfile)
            == TunedStates(names, configs, dbProfile)[name := TunedState(configs, dbProfile, name)]
  {
    assert forall n :: n in names + [name] <==> n in names || n == name;
  }

  /** Profiles first: one tuned options object per listed name. */
  method TuneColumnFamilies(names: seq<Name>, configs: map<Name, CfConfig>, dbProfile: Option<Profile>)
    returns (tunables: map<Name, OptState>)
    ensures tunables == TunedStates(names, configs, dbProfile)
  {
    tunables := map[];
    for i := 0 to |names|
      invariant tunables == TunedStates(names[..i], configs, dbProfile)
    {
      var current := new Tunable();
      var profile := if names[i] in configs then configs[names[i]].profile else None;
      if profile.None? { profile := dbProfile; }
      if profile.Some? { current.Perform(CfCalls(profile.value)); }
      TunedStatesSnoc(names[..i], names[i], configs, dbProfile);
      assert names[..i + 1] == names[..i] + [names[i]];
      tunables := tunables[names[i] := current.State()];
    }
    assert names[..|names|] == names;
  }

  /** Then merge operators, comparators and filters, in the order in which the config map happens to iterate. */
  method AttachConfigured(tuned: map<Name, CfOptions>, configs: map<Name, CfConfig>, order: seq<Name>)
    returns (raw: map<Name, CfOptions>)
    requires Enumerates(order, configs)
    ensures raw == map n | n in tuned :: if n in configs then Attach(tuned[n], configs[n]) else tuned[n]
  {
    raw := tuned;
    for i := 0 to |order|
      invariant raw == map n | n in tuned :: if n in order[..i] then Attach(tuned[n], configs[n]) else tuned[n]
    {
      assert order[..i + 1] == order[..i] + [order[i]];
      var name := order[i];
      if name in raw {
        raw := raw[name := Attach(raw[name], configs[name])];
      }
    }
    assert order[..|order|] == order;
  }

  /** Finally one descriptor per listed name; taking the options out leaves none for a repeated name. */
  method DrainDescriptors(names: seq<Name>, options: map<Name, CfOptions>) returns (descriptors: seq<(Name, CfOptions)>)
    requires forall n | n in names :: n in options
    ensures |descriptors| == |names|
    ensures forall i | 0 <= i < |names| ::
              descriptors[i] == (names[i], if names[i] in names[..i] then BARE else options[names[i]])
  {
    var raw := options;
    descriptors := [];
    for i := 0 to |names|
      invariant |descriptors| == i
      invariant raw == map n | n in options && n !in names[..i] :: options[n]
      invariant forall j | 0 <= j < i ::
                  descriptors[j] == (names[j], if names[j] in names[..j] then BARE else options[names[j]])
    {
      var taken := BARE;
      if names[i] in raw {
        taken := raw[names[i]];
        raw := raw - {names[i]};
      }
      descriptors := descriptors + [(names[i], taken)];
      assert names[..i + 1] == names[..i] + [names[i]];
    }
  }

  /**
   The column-family part of both paths. Whatever the iteration order, a name gets its final
   options the first time it is listed, and engine defaults if it is listed again.
   */
  method BuildCfDescriptors(names: seq<Name>, configs: map<Name, CfConfig>, order: seq<Name>,
                            dbProfile: Option<Profile>)
    returns (descriptors: seq<(Name, CfOptions)>)
    requires Enumerates(order, configs)
    ensures DescribesConfig(descriptors, names, configs, dbProfile)
  {
    var tunables := TuneColumnFamilies(names, configs, dbProfile);
    var tuned := map n | n in tunables :: BARE.(settings := tunables[n].inner);
    var raw := AttachConfigured(tuned, configs, order);
    assert forall n | n in names :: n in raw && raw[n] == FinalOptions(configs, dbProfile, n);
    descriptors := DrainDescriptors(names, raw);
  }

  ghost predicate DescribesConfig(descriptors: seq<(Name, CfOptions)>, names: seq<Name>, configs: map<Name, CfConfig>,
                                  dbProfile: Option<Profile>) {
    && |descriptors| == |names|
    && forall i | 0 <= i < |names| ::
         descriptors[i] == (names[i], if names[i] in names[..i] then BARE
                            else FinalOptions(configs, dbProfile, names[i]))
  }

  /** `order` is one iteration over the map: every key once. */
  ghost predicate Enumerates<T>(order: seq<Name>, configs: map<Name, T>) {
    && (forall n :: n in order <==> n in configs)
    && forall i, j | 0 <= i < j < |order| :: order[i] != order[j]
  }

  // --- Database-wide options ---

  datatype DbConfig = DbConfig(
    createIfMissing: bool,
    parallelism: Option<int>,
    recoveryMode: Option<int>,
    enableStatistics: Option<bool>,
    profile: Option<Profile>)

  /** The settings of the config that no profile ever touches. */
  ghost predicate KeepsPlainSettings(cfg: DbConfig, inner: map<Opt, Setting>) {
    var s := OptState(inner, {});
    && Held(s, CreateIfMissing) == Some(Flag(cfg.createIfMissing))
    && Held(s, CreateMissingCfs) == Some(Flag(cfg.createIfMissing))
    && Held(s, WalRecoveryMode) == (if cfg.recoveryMode.Some? then Some(Num(cfg.recoveryMode.value)) else None)
    && Held(s, Statistics) == (if cfg.enableStatistics == Some(true) then Some(Flag(true)) else None)
  }

  lemma {:induction false} ProfileLeavesPlainSettings(cfg: DbConfig, s: OptState, p: Profile, cores: nat,
                                                      ioRate: Option<Setting>)
    requires KeepsPlainSettings(cfg, s.inner)
    ensures KeepsPlainSettings(cfg, ApplyAll(s, DbCalls(p, cores, ioRate)).inner)
  {
    ProfileLeaves(s, p, cores, ioRate, CreateIfMissing);
    ProfileLeaves(s, p, cores, ioRate, CreateMissingCfs);
    ProfileLeaves(s, p, cores, ioRate, WalRecoveryMode);
    ProfileLeaves(s, p, cores, ioRate, Statistics);
  }

  lemma {:induction false} ProfileLeaves(s: OptState, p: Profile, cores: nat, ioRate: Option<Setting>, k: Opt)
    requires k in {CreateIfMissing, CreateMissingCfs, WalRecoveryMode, Statistics}
    ensures Held(ApplyAll(s, DbCalls(p, cores, ioRate)), k) == Held(s, k)
  {
    var calls := DbCalls(p, cores, ioRate);
    assert forall i | 0 <= i < |calls| :: calls[i].key != k;
    NoCallNoChange(calls, k);
    HardWinsOverTune(s, calls, k);
  }

  lemma {:induction false} NoCallNoChange(calls: seq<OptCall>, k: Opt)
    requires forall i | 0 <= i < |calls| :: calls[i].key != k
    ensures LastHard(calls, k).None? && LastTune(calls, k).None?
    decreases |calls|
  {
    if calls != [] { NoCallNoChange(calls[..|calls| - 1], k); }
  }

  /** RocksDbCFStore::open: parallelism is a locking setting, so it survives every profile. */
  method BuildStoreDbOptions(cfg: DbConfig, cores: nat, ioRate: Option<Setting>) returns (inner: map<Opt, Setting>)
    ensures KeepsPlainSettings(cfg, inner)
    ensures cfg.parallelism.Some? ==>
            IncreaseParallelism in inner && inner[IncreaseParallelism] == Num(cfg.parallelism.value)
    ensures cfg.parallelism.None? && cfg.profile.Some? ==>
              IncreaseParallelism in inner
                && inner[IncreaseParallelism] == Num(ProfileParallelism(cfg.profile.value, cores))
  {
    var options := new Tunable();
    options.SetInner(CreateIfMissing, Flag(cfg.createIfMissing));
    options.SetInner(CreateMissingCfs, Flag(cfg.createIfMissing));
    if cfg.parallelism.Some? { options.Set(IncreaseParallelism, Num(cfg.parallelism.value)); }
    if cfg.recoveryMode.Some? { options.SetInner(WalRecoveryMode, Num(cfg.recoveryMode.value)); }
    if cfg.enableStatistics == Some(true) { options.SetInner(Statistics, Flag(true)); }
    ghost var hard := options.State();
    if cfg.profile.Some? {
      ProfileLeavesPlainSettings(cfg, hard, cfg.profile.value, cores, ioRate);
      DbProfileRespectsLocks(hard, cfg.profile.value, cores, ioRate, IncreaseParallelism);
      if cfg.parallelism.None? { ProfileSetsParallelism(hard, cfg.profile.value, cores, ioRate); }
      options.Perform(DbCalls(cfg.profile.value, cores, ioRate));
    }
    return options.inner;
  }

  /** _build_db_wide_options: parallelism is written without a lock, so any profile overrides it. */
  method BuildTxDbOptions(cfg: DbConfig, cores: nat, ioRate: Option<Setting>) returns (inner: map<Opt, Setting>)
    ensures KeepsPlainSettings(cfg, inner)
    ensures cfg.profile.Some? ==>
              IncreaseParallelism in inner
                && inner[IncreaseParallelism] == Num(ProfileParallelism(cfg.profile.value, cores))
    ensures cfg.profile.None? && cfg.parallelism.Some? ==>
              IncreaseParallelism in inner && inner[IncreaseParallelism] == Num(cfg.parallelism.value)
  {
    var options := new Tunable();
    options.SetInner(CreateIfMissing, Flag(cfg.createIfMissing));
    options.SetInner(CreateMissingCfs, Flag(cfg.createIfMissing));
    if cfg.parallelism.Some? { options.SetInner(IncreaseParallelism, Num(cfg.parallelism.value)); }
    if cfg.recoveryMode.Some? { options.SetInner(WalRecoveryMode, Num(cfg.recoveryMode.value)); }
    if cfg.enableStatistics == Some(true) { options.SetInner(Statistics, Flag(true)); }
    ghost var hard := options.State();
    if cfg.profile.Some? {
      ProfileLeavesPlainSettings(cfg, hard, cfg.profile.value, cores, ioRate);
      ProfileSetsParallelism(hard, cfg.profile.value, cores, ioRate);
      options.Perform(DbCalls(cfg.profile.value, cores, ioRate));
    }
    return options.inner;
  }

  // --- The two open paths ---

  method OpenCfStore(cfg: DbConfig, names: seq<Name>, configs: map<Name, CfConfig>, order: seq<Name>,
                     cores: nat, ioRate: Option<Setting>)
    returns (inner: map<Opt, Setting>, descriptors: seq<(Name, CfOptions)>)
    requires Enumerates(order, configs)
    ensures DescribesConfig(descriptors, names, configs, cfg.profile)
    ensures KeepsPlainSettings(cfg, inner)
    ensures cfg.parallelism.Some? ==>
            IncreaseParallelism in inner && inner[IncreaseParallelism] == Num(cfg.parallelism.value)
    ensures cfg.parallelism.None? && cfg.profile.Some? ==>
              IncreaseParallelism in inner
                && inner[IncreaseParallelism] == Num(ProfileParallelism(cfg.profile.value, cores))
  {
    inner := BuildStoreDbOptions(cfg, cores, ioRate);
    descriptors := BuildCfDescriptors(names, configs, order, cfg.profile);
  }

  method OpenTransactional(cfg: DbConfig, names: seq<Name>, configs: map<Name, TxCfConfig>, order: seq<Name>,
                           cores: nat, ioRate: Option<Setting>)
    returns (inner: map<Opt, Setting>, descriptors: seq<(Name, CfOptions)>)
    requires Enumerates(order, configs)
    ensures DescribesConfig(descriptors, names, Bases(configs), cfg.profile)
    ensures KeepsPlainSettings(cfg, inner)
    ensures cfg.profile.Some? ==>
              IncreaseParallelism in inner
                && inner[IncreaseParallelism] == Num(ProfileParallelism(cfg.profile.value, cores))
    ensures cfg.profile.None? && cfg.parallelism.Some? ==>
              IncreaseParallelism in inner && inner[IncreaseParallelism] == Num(cfg.parallelism.value)
  {
    inner := BuildTxDbOptions(cfg, cores, ioRate);
    descriptors := BuildCfDescriptors(names, Bases(configs), order, cfg.profile);
  }

  function Bases(configs: map<Name, TxCfConfig>): map<Name, CfConfig> {
    map n | n in configs :: configs[n].base
  }

  ghost predicate Distinct(names: seq<Name>) {
    forall i, j | 0 <= i < j < |names| :: names[i] != names[j]
  }

  /**
   Two openings of one configuration, by either path, in any iteration order of the config map and
   with the families listed in any order: each family gets the same options if no name is repeated,
   and the whole list is the same if the names are listed alike.
   */
  lemma {:induction false} OpeningsAgree(d: seq<(Name, CfOptions)>, names: seq<Name>, d': seq<(Name, CfOptions)>,
                                         names': seq<Name>,
                                         configs: map<Name, CfConfig>, dbProfile: Option<Profile>)
    requires DescribesConfig(d, names, configs, dbProfile) && DescribesConfig(d', names', configs, dbProfile)
    ensures Distinct(names) && Distinct(names') ==>
              forall i, j | 0 <= i < |d| && 0 <= j < |d'| && d[i].0 == d'[j].0 :: d[i] == d'[j]
    ensures names == names' ==> d == d'
  {
    if Distinct(names) && Distinct(names') {
      forall i, j | 0 <= i < |d| && 0 <= j < |d'| && d[i].0 == d'[j].0 ensures d[i] == d'[j] {
        assert names[i] !in names[..i] && names'[j] !in names'[..j];
      }
    }
  }

  /** What the two functions of an operator are: the configured ones, else concatenation and declining. */
  ghost predicate OperatorOf(fns: MergeFns, full: Option<MergeFn>, partial: Option<MergeFn>) {
    && (full.Some? ==> fns.full == full.value)
    && (partial.Some? ==> fns.partial == partial.value)
    && (full.None? ==> forall b: Bytes, ops :: fns.full(Some(b), ops) == Some(b + Flatten(ops)))
    && (full.None? ==> forall ops :: fns.full(None, ops) == if ops == [] then None else Some(Flatten(ops)))
    && (partial.None? ==> forall b, ops :: fns.partial(b, ops) == None)
  }

  /**
   At its first listing a family gets what its own entry asks for: merge operator with the configured
   functions, comparator unless bytewise, filter, and the settings of its own profile or else the
   database's; without an entry nothing but the latter.
   */
  lemma {:induction false} FirstListingFollowsConfig(d: seq<(Name, CfOptions)>, names: seq<Name>,
                                                     configs: map<Name, CfConfig>,
                                                     dbProfile: Option<Profile>, i: nat)
    requires DescribesConfig(d, names, configs, dbProfile) && i < |names| && names[i] !in names[..i]
    ensures d[i].0 == names[i]
    ensures names[i] in configs ==>
              var c, o := configs[names[i]], d[i].1;
              && (c.merge.None? ==> o.merge == None)
              && (c.merge.Some? ==> o.merge.Some? && o.merge.value.0 == c.merge.value.name
                                    && OperatorOf(o.merge.value.1, c.merge.value.full, c.merge.value.partial))
              && o.comparator == (if c.comparator == Some(Bytewise) then None else c.comparator)
              && o.filter == c.filterRouter
              && forall k :: Held(OptState(o.settings, {}), k) == ProfileSetting(if c.profile.Some? then c.profile
                 else dbProfile, k)
    ensures names[i] !in configs ==>
              var o := d[i].1;
              && o.merge == None && o.comparator == None && o.filter == None
              && forall k :: Held(OptState(o.settings, {}), k) == ProfileSetting(dbProfile, k)
  {
    var n := names[i];
    var o := d[i].1;
    var profile := if n in configs && configs[n].profile.Some? then configs[n].profile else dbProfile;
    forall k ensures Held(OptState(o.settings, {}), k) == ProfileSetting(profile, k) {
      if profile.Some? { CfProfileValues(profile.value, k); }
    }
    if n in configs && configs[n].merge.Some? && configs[n].merge.value.full.None? {
      forall ops: seq<Bytes> ensures [] + Flatten(ops) == Flatten(ops) {
      }
    }
  }

  /** What a column family tuned by a profile, if any, holds at one option. */
  function ProfileSetting(profile: Option<Profile>, k: Opt): Option<Setting> {
    if profile.Some? then CfSetting(profile.value, k) else None
  }

  /** A column family whose operator names no functions of its own is schedule independent. */
  lemma {:induction false} DefaultOperatorIsLawful(configs: map<Name, CfConfig>, dbProfile: Option<Profile>, name: Name)
    requires name in configs && configs[name].merge.Some?
    requires configs[name].merge.value.full.None? && configs[name].merge.value.partial.None?
    ensures FinalOptions(configs, dbProfile, name).merge == Some((configs[name].merge.value.name, DEFAULTS))
            && Lawful(DEFAULTS)
  {
    DefaultsAreLawful();
  }
}
