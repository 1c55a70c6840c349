/** Lock-or-tune options (src/tuner/tunable.rs) and the tuning profiles (src/tuner/profiles.rs). */
module Tuning {
  import opened Wrappers
  import opened MachineWords

  datatype Style = LevelStyle | UniversalStyle | FifoStyle

  datatype Compression = NoCompression | Snappy | Lz4 | Zstd

  datatype Setting =
    | Num(n: int)
    | Flag(b: bool)
    | Rate(bytesPerSec: int, refillUs: int, fairness: int)
    | Compaction(style: Style)
    | Compressed(kind: Compression)
    | BlockTable(bloom: bool, cacheIndex: bool, pinL0: bool)
    | FifoSize(bytes: nat)
    | UniversalRatios(size: int, minWidth: int, maxWidth: int)

  /** The options of an inner RocksDB object that this code writes; the last two have no setter of their own. */
  datatype Opt =
    | CreateIfMissing
    | CreateMissingCfs
    | IncreaseParallelism
    | MaxOpenFiles
    | AllowConcurrentMemtableWrite
    | WriteThreadAdaptiveYield
    | RateLimiter
    | MaxBackgroundJobs
    | BytesPerSync
    | RowCache
    | WriteBufferManager
    | CompressionType
    | BottommostCompressionType
    | Level0CompactionTrigger
    | Level0SlowdownTrigger
    | Level0StopTrigger
    | WriteBufferSize
    | MaxWriteBufferNumber
    | CompactionStyle
    | BlockBasedTableFactory
    | OptimizeLevelStyle
    | OptimizeFiltersForHits
    | CompactionOptionsFifo
    | UniversalCompactionOptions
    | OptimizeUniversalStyle
    | WalRecoveryMode
    | Statistics

  /** The options an inner RocksDB object holds, by the key under which their setters lock, and the locked keys. */
  datatype OptState = OptState(inner: map<Opt, Setting>, locked: set<Opt>)

  const FRESH := OptState(map[], {})

  datatype OptCall = Hard(key: Opt, value: Setting) | Tune(key: Opt, value: Setting)

  function Apply(s: OptState, c: OptCall): OptState {
    match c
    case Hard(k, v) => OptState(s.inner[k := v], s.locked + {k})
    case Tune(k, v) => if k in s.locked then s else s.(inner := s.inner[k := v])
  }

  function ApplyAll(s: OptState, calls: seq<OptCall>): OptState
    decreases |calls|
  {
    if calls == [] then s else Apply(ApplyAll(s, calls[..|calls| - 1]), calls[|calls| - 1])
  }

  class Tunable {
    var inner: map<Opt, Setting>
    var locked: set<Opt>

    constructor ()
      ensures State() == FRESH
    {
      inner, locked := map[], {};
    }

    function State(): OptState
      reads this
    {
      OptState(inner, locked)
    }

    /** Writing through the public `inner` field bypasses the lock in both directions. */
    method SetInner(key: Opt, value: Setting)
      modifies this`inner
      ensures inner == old(inner)[key := value]
    {
      inner := inner[key := value];
    }

    /** Every `set_…`: always writes, and locks. */
    method Set(key: Opt, value: Setting)
      modifies this
      ensures State() == Apply(old(State()), Hard(key, value))
    {
      inner := inner[key := value];
      locked := locked + {key};
    }

    /** Every `tune_set_…`: writes unless locked. */
    method TuneSet(key: Opt, value: Setting)
      modifies this`inner
      ensures State() == Apply(old(State()), Tune(key, value))
    {
      if key !in locked {
        inner := inner[key := value];
      }
    }

    method Perform(calls: seq<OptCall>)
      modifies this
      ensures State() == ApplyAll(old(State()), calls)
    {
      for i := 0 to |calls|
        invariant State() == ApplyAll(old(State()), calls[..i])
      {
        assert calls[..i + 1][..i] == calls[..i];
        match calls[i]
        case Hard(k, v) => Set(k, v);
        case Tune(k, v) => TuneSet(k, v);
      }
      assert calls[..|calls|] == calls;
    }
  }

  // --- What a sequence of calls leaves behind ---

  /** The value of the last hard call on key k, if any. */
  function LastHard(calls: seq<OptCall>, k: Opt): Option<Setting>
    decreases |calls|
  {
    if calls == [] then None
    else if calls[|calls| - 1].Hard? && calls[|calls| - 1].key == k then Some(calls[|calls| - 1].value)
    else LastHard(calls[..|calls| - 1], k)
  }

  function LastTune(calls: seq<OptCall>, k: Opt): Option<Setting>
    decreases |calls|
  {
    if calls == [] then None
    else if calls[|calls| - 1].Tune? && calls[|calls| - 1].key == k then Some(calls[|calls| - 1].value)
    else LastTune(calls[..|calls| - 1], k)
  }

  function Held(s: OptState, k: Opt): Option<Setting> {
    if k in s.inner then Some(s.inner[k]) else None
  }

  /**
   After any sequence of calls an option holds its last hard value if there is one, wherever in the
   sequence it came, else its last tuned value if it was not locked before, else what it held before.
   */
  lemma {:induction false} HardWinsOverTune(s: OptState, calls: seq<OptCall>, k: Opt)
    ensures var s' := ApplyAll(s, calls);
            && Held(s', k) == (if LastHard(calls, k).Some? then LastHard(calls, k)
                               else if LastTune(calls, k).Some? && k !in s.locked then LastTune(calls, k)
                               else Held(s, k))
            && (k in s'.locked <==> k in s.locked || LastHard(calls, k).Some?)
    decreases |calls|
  {
    if calls != [] { HardWinsOverTune(s, calls[..|calls| - 1], k); }
  }

  // --- Profiles ---

  datatype Profile =
    | LatestValue(memBudgetMb: u64, bloom: bool, compression: bool)
    | MemorySaver(rowCacheMb: u64, writeBufferMb: u64, lightCompression: bool)
    | RealTime(rowCacheMb: u64, writeBufferMb: u64, backgroundThreads: int, fastCompression: bool, bloom: bool)
    | TimeSeries(memBudgetMb: u64, useFifo: bool, fifoSizeMb: Option<u64>, zstd: bool)
    | SparseBitmap(memBudgetMb: u64, useUniversal: bool, fastCompression: bool)

  const MIB: u64 := 1048576

  function Max(a: int, b: int): (m: int)
    ensures m >= a && m >= b && (m == a || m == b)
  {
    if a < b then b else a
  }

  /** What tune_db_opts calls, in order, with `cores` processors; `ioRate` is the auto I/O cap if enabled. */
  function DbCalls(p: Profile, cores: nat, ioRate: Option<Setting>): seq<OptCall> {
    DbCommonCalls(cores, ioRate) + DbOwnCalls(p, cores)
  }

  function DbCommonCalls(cores: nat, ioRate: Option<Setting>): seq<OptCall> {
    [Tune(IncreaseParallelism, Num(Max(Max(cores, 1), 2))),
     Tune(MaxOpenFiles, Num(-1)),
     Tune(AllowConcurrentMemtableWrite, Flag(true)),
     Tune(WriteThreadAdaptiveYield, Flag(true))]
    + if ioRate.Some? then [Tune(RateLimiter, ioRate.value)] else []
  }

  function DbOwnCalls(p: Profile, cores: nat): seq<OptCall> {
    match p
    case MemorySaver(cache, wbm, _) =>
      CacheCalls(cache, wbm)
      + [Tune(MaxOpenFiles, Num(512)), Tune(IncreaseParallelism, Num(Max(Max(cores, 1) / 2, 1)))]
    case RealTime(cache, wbm, threads, _, _) =>
      CacheCalls(cache, wbm)
      + [Tune(IncreaseParallelism, Num(Max(threads, 1))), Tune(MaxBackgroundJobs, Num(Max(threads, 1))),
         Tune(BytesPerSync, Num(MIB))]
    case _ => []
  }

  function CacheCalls(rowCacheMb: u64, writeBufferMb: u64): seq<OptCall> {
    (if rowCacheMb > 0 then [Tune(RowCache, Num(SaturatingMul(rowCacheMb, MIB)))] else [])
    + (if writeBufferMb > 0 then [Tune(WriteBufferManager, Num(SaturatingMul(writeBufferMb, MIB)))] else [])
  }

  function CompressionCalls(kind: Compression, bottommost: bool): seq<OptCall> {
    [Tune(CompressionType, Compressed(kind))]
    + if bottommost then [Tune(BottommostCompressionType, Compressed(kind))] else []
  }

  function Level0Calls(trigger: int, slowdown: int, stop: int): seq<OptCall> {
    [Tune(Level0CompactionTrigger, Num(trigger)),
     Tune(Level0SlowdownTrigger, Num(slowdown)),
     Tune(Level0StopTrigger, Num(stop))]
  }

  predicate UsesFifo(p: Profile) {
    p.TimeSeries? && p.useFifo
  }

  /** What tune_cf_opts calls, in order. Only the FIFO branch of TimeSeries ends in a locking setter. */
  function CfCalls(p: Profile): seq<OptCall> {
    CfTunes(p) + if UsesFifo(p) then [Hard(MaxOpenFiles, Num(-1))] else []
  }

  function CfTunes(p: Profile): seq<OptCall> {
    match p
    case LatestValue(budget, bloom, compression) =>
      [Tune(WriteBufferSize, Num(Max(SaturatingMul(budget, MIB) / 2, 64 * MIB))),
       Tune(MaxWriteBufferNumber, Num(4)),
       Tune(CompactionStyle, Compaction(LevelStyle))]
      + Level0Calls(4, 20, 36)
      + CompressionCalls(if compression then Zstd else NoCompression, compression)
      + [Tune(BlockBasedTableFactory, BlockTable(bloom, true, true))]
    case MemorySaver(_, _, light) =>
      [Tune(WriteBufferSize, Num(4 * MIB)),
       Tune(MaxWriteBufferNumber, Num(2))]
      + CompressionCalls(if light then Lz4 else NoCompression, false)
      + [Tune(BlockBasedTableFactory, BlockTable(false, false, false)),
         Tune(OptimizeLevelStyle, Num(0))]
    case RealTime(_, _, _, fast, bloom) =>
      [Tune(WriteBufferSize, Num(64 * MIB)),
       Tune(MaxWriteBufferNumber, Num(3)),
       Tune(CompactionStyle, Compaction(LevelStyle))]
      + Level0Calls(2, 8, 12)
      + CompressionCalls(if fast then Snappy else NoCompression, false)
      + [Tune(BlockBasedTableFactory, BlockTable(bloom, true, false)),
         Tune(OptimizeFiltersForHits, Flag(true))]
    case TimeSeries(budget, fifo, size, zstd) =>
      [Tune(WriteBufferSize, Num(Max(SaturatingMul(budget, MIB), 64 * MIB)))]
      + CompressionCalls(if zstd then Zstd else NoCompression, zstd)
      + (if fifo then
           [Tune(CompactionStyle, Compaction(FifoStyle))]
           + (if size.Some? then [Tune(CompactionOptionsFifo, FifoSize(SaturatingMul(size.value, MIB)))] else [])
         else [])
    case SparseBitmap(budget, universal, fast) =>
      [Tune(WriteBufferSize, Num(Max(SaturatingMul(budget, MIB), 128 * MIB))),
       Tune(MaxWriteBufferNumber, Num(4))]
      + CompressionCalls(if fast then Snappy else NoCompression, false)
      + (if universal then
           [Tune(CompactionStyle, Compaction(UniversalStyle)),
            Tune(UniversalCompactionOptions, UniversalRatios(10, 2, 10)),
            Tune(OptimizeUniversalStyle, Num(0))]
         else [Tune(CompactionStyle, Compaction(LevelStyle))])
  }

  ghost predicate OnlyTunes(calls: seq<OptCall>) {
    forall i | 0 <= i < |calls| :: calls[i].Tune?
  }

  lemma {:induction false} OnlyTunesHaveNoHard(calls: seq<OptCall>, k: Opt)
    requires OnlyTunes(calls)
    ensures LastHard(calls, k).None?
    decreases |calls|
  {
    if calls != [] { OnlyTunesHaveNoHard(calls[..|calls| - 1], k); }
  }

  /** A hard option survives the database profile; a profile never locks anything at database level. */
  lemma {:induction false} DbProfileRespectsLocks(s: OptState, p: Profile, cores: nat, ioRate: Option<Setting>, k: Opt)
    ensures var s' := ApplyAll(s, DbCalls(p, cores, ioRate));
            && (k in s.locked ==> Held(s', k) == Held(s, k))
            && (k in s'.locked <==> k in s.locked)
  {
    var calls := DbCalls(p, cores, ioRate);
    assert OnlyTunes(calls);
    OnlyTunesHaveNoHard(calls, k);
    HardWinsOverTune(s, calls, k);
  }

  lemma {:induction false} CfTunesOnlyTune(p: Profile)
    ensures OnlyTunes(CfTunes(p))
  {
  }

  /** The column-family profile locks exactly the open-file limit, and only for FIFO time series. */
  lemma {:induction false} CfProfileLocks(p: Profile, k: Opt)
    ensures k in ApplyAll(FRESH, CfCalls(p)).locked <==> k == MaxOpenFiles && UsesFifo(p)
  {
    var tunes := CfTunes(p);
    CfTunesOnlyTune(p);
    OnlyTunesHaveNoHard(tunes, k);
    if UsesFifo(p) {
      assert CfCalls(p)[..|tunes|] == tunes;
    } else {
      assert CfCalls(p) == tunes;
    }
    HardWinsOverTune(FRESH, CfCalls(p), k);
  }

  /** The parallelism a profile asks for: the last of its calls on that key. */
  function ProfileParallelism(p: Profile, cores: nat): int {
    match p
    case MemorySaver(_, _, _) => Max(Max(cores, 1) / 2, 1)
    case RealTime(_, _, threads, _, _) => Max(threads, 1)
    case _ => Max(Max(cores, 1), 2)
  }

  lemma {:induction false} ProfileSetsParallelism(s: OptState, p: Profile, cores: nat, ioRate: Option<Setting>)
    requires IncreaseParallelism !in s.locked
    ensures Held(ApplyAll(s, DbCalls(p, cores, ioRate)), IncreaseParallelism) == Some(Num(ProfileParallelism(p, cores)))
  {
    DbProfileValues(s, p, cores, ioRate, IncreaseParallelism);
  }

  // --- What each profile leaves behind, option by option ---

  /** If all calls on a key agree, the last one is any of them. */
  lemma {:induction false} AgreedTune(calls: seq<OptCall>, k: Opt, v: Option<Setting>)
    requires AllAgree(calls, k, v)
    ensures LastTune(calls, k) == v
    decreases |calls|
  {
    if calls != [] {
      var n := |calls| - 1;
      assert calls == calls[..n] + [calls[n]];
      if calls[n].key != k { AgreedTune(calls[..n], k, v); }
    }
  }

  /** Megabytes as bytes, capped at the largest u64. */
  function Bytes64(mb: u64): int {
    if mb * 1048576 < TWO_64 then mb * 1048576 else TWO_64 - 1
  }

  /** The setting of each option in a column family tuned by a profile. */
  function CfSetting(p: Profile, k: Opt): Option<Setting> {
    if k == MaxOpenFiles then (if UsesFifo(p) then Some(Num(-1)) else None)
    else match p
      case LatestValue(mb, bloom, compression) => LatestValueSetting(mb, bloom, compression, k)
      case MemorySaver(_, _, light) => MemorySaverSetting(light, k)
      case RealTime(_, _, _, fast, bloom) => RealTimeSetting(fast, bloom, k)
      case TimeSeries(mb, fifo, size, zstd) => TimeSeriesSetting(mb, fifo, size, zstd, k)
      case SparseBitmap(mb, universal, fast) => SparseBitmapSetting(mb, universal, fast, k)
  }

  function LatestValueSetting(mb: u64, bloom: bool, compression: bool, k: Opt): Option<Setting> {
    match k
    case WriteBufferSize => Some(Num(Max(Bytes64(mb) / 2, 67108864)))
    case MaxWriteBufferNumber => Some(Num(4))
    case CompactionStyle => Some(Compaction(LevelStyle))
    case Level0CompactionTrigger => Some(Num(4))
    case Level0SlowdownTrigger => Some(Num(20))
    case Level0StopTrigger => Some(Num(36))
    case CompressionType => Some(Compressed(if compression then Zstd else NoCompression))
    case BottommostCompressionType => if compression then Some(Compressed(Zstd)) else None
    case BlockBasedTableFactory => Some(BlockTable(bloom, true, true))
    case _ => None
  }

  function MemorySaverSetting(light: bool, k: Opt): Option<Setting> {
    match k
    case WriteBufferSize => Some(Num(4194304))
    case MaxWriteBufferNumber => Some(Num(2))
    case CompressionType => Some(Compressed(if light then Lz4 else NoCompression))
    case BlockBasedTableFactory => Some(BlockTable(false, false, false))
    case OptimizeLevelStyle => Some(Num(0))
    case _ => None
  }

  function RealTimeSetting(fast: bool, bloom: bool, k: Opt): Option<Setting> {
    match k
    case WriteBufferSize => Some(Num(67108864))
    case MaxWriteBufferNumber => Some(Num(3))
    case CompactionStyle => Some(Compaction(LevelStyle))
    case Level0CompactionTrigger => Some(Num(2))
    case Level0SlowdownTrigger => Some(Num(8))
    case Level0StopTrigger => Some(Num(12))
    case CompressionType => Some(Compressed(if fast then Snappy else NoCompression))
    case BlockBasedTableFactory => Some(BlockTable(bloom, true, false))
    case OptimizeFiltersForHits => Some(Flag(true))
    case _ => None
  }

  function TimeSeriesSetting(mb: u64, fifo: bool, size: Option<u64>, zstd: bool, k: Opt): Option<Setting> {
    match k
    case WriteBufferSize => Some(Num(Max(Bytes64(mb), 67108864)))
    case CompressionType => Some(Compressed(if zstd then Zstd else NoCompression))
    case BottommostCompressionType => if zstd then Some(Compressed(Zstd)) else None
    case CompactionStyle => if fifo then Some(Compaction(FifoStyle)) else None
    case CompactionOptionsFifo => if fifo && size.Some? then Some(FifoSize(Bytes64(size.value))) else None
    case _ => None
  }

  function SparseBitmapSetting(mb: u64, universal: bool, fast: bool, k: Opt): Option<Setting> {
    match k
    case WriteBufferSize => Some(Num(Max(Bytes64(mb), 134217728)))
    case MaxWriteBufferNumber => Some(Num(4))
    case CompressionType => Some(Compressed(if fast then Snappy else NoCompression))
    case CompactionStyle => Some(Compaction(if universal then UniversalStyle else LevelStyle))
    case UniversalCompactionOptions => if universal then Some(UniversalRatios(10, 2, 10)) else None
    case OptimizeUniversalStyle => if universal then Some(Num(0)) else None
    case _ => None
  }

  lemma {:induction false} CfProfileValues(p: Profile, k: Opt)
    ensures Held(ApplyAll(FRESH, CfCalls(p)), k) == CfSetting(p, k)
  {
    var calls := CfCalls(p);
    CfTunesSettle(p, k);
    CfTunesOnlyTune(p);
    OnlyTunesHaveNoHard(CfTunes(p), k);
    HardWinsOverTune(FRESH, calls, k);
    if UsesFifo(p) {
      assert calls[..|calls| - 1] == CfTunes(p);
    } else {
      assert calls == CfTunes(p);
    }
  }

  /** Every call on k is the tuning call with this value, and there is one if there is a value. */
  ghost predicate AllAgree(calls: seq<OptCall>, k: Opt, v: Option<Setting>) {
    OnlyValue(calls, k, v) && HasValue(calls, k, v)
  }

  ghost predicate OnlyValue(calls: seq<OptCall>, k: Opt, v: Option<Setting>) {
    forall c | c in calls && c.key == k :: v.Some? && c == Tune(k, v.value)
  }

  ghost predicate HasValue(calls: seq<OptCall>, k: Opt, v: Option<Setting>) {
    v.Some? ==> Tune(k, v.value) in calls
  }

  lemma {:induction false} CfTunesSettle(p: Profile, k: Opt)
    ensures !(UsesFifo(p) && k == MaxOpenFiles) ==> LastTune(CfTunes(p), k) == CfSetting(p, k)
  {
    if !(UsesFifo(p) && k == MaxOpenFiles) {
      CfTunesAgree(p, k);
      AgreedTune(CfTunes(p), k, CfSetting(p, k));
    }
  }

  lemma {:induction false} CfTunesAgree(p: Profile, k: Opt)
    requires !(UsesFifo(p) && k == MaxOpenFiles)
    ensures AllAgree(CfTunes(p), k, CfSetting(p, k))
  {
    match p
    case LatestValue(mb, bloom, compression) => LatestValueAgrees(mb, bloom, compression, k);
    case MemorySaver(cache, wbm, light) => MemorySaverAgrees(cache, wbm, light, k);
    case RealTime(cache, wbm, threads, fast, bloom) => RealTimeAgrees(cache, wbm, threads, fast, bloom, k);
    case TimeSeries(mb, fifo, size, zstd) => TimeSeriesAgrees(mb, fifo, size, zstd, k);
    case SparseBitmap(mb, universal, fast) => SparseBitmapAgrees(mb, universal, fast, k);
  }

  lemma {:induction false} LatestValueAgrees(mb: u64, bloom: bool, compression: bool, k: Opt)
    ensures AllAgree(CfTunes(LatestValue(mb, bloom, compression)), k, LatestValueSetting(mb, bloom, compression, k))
  {
    LatestValueOnly(mb, bloom, compression, k);
    LatestValueHas(mb, bloom, compression, k);
  }

  lemma {:induction false} LatestValueOnly(mb: u64, bloom: bool, compression: bool, k: Opt)
    ensures OnlyValue(CfTunes(LatestValue(mb, bloom, compression)), k, LatestValueSetting(mb, bloom, compression, k))
  {
  }

  lemma {:induction false} LatestValueHas(mb: u64, bloom: bool, compression: bool, k: Opt)
    ensures HasValue(CfTunes(LatestValue(mb, bloom, compression)), k, LatestValueSetting(mb, bloom, compression, k))
  {
  }

  lemma {:induction false} MemorySaverAgrees(cache: u64, wbm: u64, light: bool, k: Opt)
    ensures AllAgree(CfTunes(MemorySaver(cache, wbm, light)), k, MemorySaverSetting(light, k))
  {
  }

  lemma {:induction false} RealTimeAgrees(cache: u64, wbm: u64, threads: int, fast: bool, bloom: bool, k: Opt)
    ensures AllAgree(CfTunes(RealTime(cache, wbm, threads, fast, bloom)), k, RealTimeSetting(fast, bloom, k))
  {
    RealTimeOnly(cache, wbm, threads, fast, bloom, k);
    RealTimeHas(cache, wbm, threads, fast, bloom, k);
  }

  lemma {:induction false} RealTimeOnly(cache: u64, wbm: u64, threads: int, fast: bool, bloom: bool, k: Opt)
    ensures OnlyValue(CfTunes(RealTime(cache, wbm, threads, fast, bloom)), k, RealTimeSetting(fast, bloom, k))
  {
  }

  lemma {:induction false} RealTimeHas(cache: u64, wbm: u64, threads: int, fast: bool, bloom: bool, k: Opt)
    ensures HasValue(CfTunes(RealTime(cache, wbm, threads, fast, bloom)), k, RealTimeSetting(fast, bloom, k))
  {
  }

  lemma {:induction false} TimeSeriesAgrees(mb: u64, fifo: bool, size: Option<u64>, zstd: bool, k: Opt)
    ensures AllAgree(CfTunes(TimeSeries(mb, fifo, size, zstd)), k, TimeSeriesSetting(mb, fifo, size, zstd, k))
  {
  }

  lemma {:induction false} SparseBitmapAgrees(mb: u64, universal: bool, fast: bool, k: Opt)
    ensures AllAgree(CfTunes(SparseBitmap(mb, universal, fast)), k, SparseBitmapSetting(mb, universal, fast, k))
  {
  }

  /** The setting of each option that a profile tunes at database level; `ioRate` is the auto I/O cap if enabled. */
  function DbSetting(p: Profile, cores: nat, ioRate: Option<Setting>, k: Opt): Option<Setting> {
    match k
    case IncreaseParallelism => Some(Num(match p
      case MemorySaver(_, _, _) => Max(Max(cores, 1) / 2, 1)
      case RealTime(_, _, threads, _, _) => Max(threads, 1)
      case _ => Max(cores, 2)))
    case MaxOpenFiles => Some(Num(if p.MemorySaver? then 512 else -1))
    case AllowConcurrentMemtableWrite => Some(Flag(true))
    case WriteThreadAdaptiveYield => Some(Flag(true))
    case RateLimiter => ioRate
    case RowCache =>
      if (p.MemorySaver? || p.RealTime?) && p.rowCacheMb > 0 then Some(Num(Bytes64(p.rowCacheMb))) else None
    case WriteBufferManager =>
      if (p.MemorySaver? || p.RealTime?) && p.writeBufferMb > 0 then Some(Num(Bytes64(p.writeBufferMb))) else None
    case MaxBackgroundJobs => if p.RealTime? then Some(Num(Max(p.backgroundThreads, 1))) else None
    case BytesPerSync => if p.RealTime? then Some(Num(1048576)) else None
    case _ => None
  }

  /** A profile gives every unlocked option its setting and leaves all others as they were. */
  lemma {:induction false} DbProfileValues(s: OptState, p: Profile, cores: nat, ioRate: Option<Setting>, k: Opt)
    ensures Held(ApplyAll(s, DbCalls(p, cores, ioRate)), k)
            == if k in s.locked || DbSetting(p, cores, ioRate, k).None? then Held(s, k)
              else DbSetting(p, cores, ioRate, k)
  {
    var calls := DbCalls(p, cores, ioRate);
    assert OnlyTunes(calls);
    OnlyTunesHaveNoHard(calls, k);
    HardWinsOverTune(s, calls, k);
    DbTunesSettle(p, cores, ioRate, k);
  }

  lemma {:induction false} LastTuneAppend(a: seq<OptCall>, b: seq<OptCall>, k: Opt)
    ensures LastTune(a + b, k) == if LastTune(b, k).Some? then LastTune(b, k) else LastTune(a, k)
    decreases |b|
  {
    if b == [] {
      assert a + b == a;
    } else {
      var n := |b| - 1;
      assert (a + b)[..|a + b| - 1] == a + b[..n];
      LastTuneAppend(a, b[..n], k);
    }
  }

  /** What all profiles tune. */
  function DbCommonSetting(cores: nat, ioRate: Option<Setting>, k: Opt): Option<Setting> {
    match k
    case IncreaseParallelism => Some(Num(Max(cores, 2)))
    case MaxOpenFiles => Some(Num(-1))
    case AllowConcurrentMemtableWrite => Some(Flag(true))
    case WriteThreadAdaptiveYield => Some(Flag(true))
    case RateLimiter => ioRate
    case _ => None
  }

  lemma {:induction false} DbCommonSettles(cores: nat, ioRate: Option<Setting>, k: Opt)
    ensures LastTune(DbCommonCalls(cores, ioRate), k) == DbCommonSetting(cores, ioRate, k)
  {
    AgreedTune(DbCommonCalls(cores, ioRate), k, DbCommonSetting(cores, ioRate, k));
  }

  /** What a profile tunes in addition, possibly again. */
  function DbOwnSetting(p: Profile, cores: nat, k: Opt): Option<Setting> {
    if !(p.MemorySaver? || p.RealTime?) then None
    else match k
      case RowCache => if p.rowCacheMb > 0 then Some(Num(Bytes64(p.rowCacheMb))) else None
      case WriteBufferManager => if p.writeBufferMb > 0 then Some(Num(Bytes64(p.writeBufferMb))) else None
      case IncreaseParallelism =>
        Some(Num(if p.MemorySaver? then Max(Max(cores, 1) / 2, 1) else Max(p.backgroundThreads, 1)))
      case MaxOpenFiles => if p.MemorySaver? then Some(Num(512)) else None
      case MaxBackgroundJobs => if p.RealTime? then Some(Num(Max(p.backgroundThreads, 1))) else None
      case BytesPerSync => if p.RealTime? then Some(Num(1048576)) else None
      case _ => None
  }

  lemma {:induction false} DbOwnSettles(p: Profile, cores: nat, k: Opt)
    ensures LastTune(DbOwnCalls(p, cores), k) == DbOwnSetting(p, cores, k)
  {
    AgreedTune(DbOwnCalls(p, cores), k, DbOwnSetting(p, cores, k));
  }

  lemma {:induction false} DbTunesSettle(p: Profile, cores: nat, ioRate: Option<Setting>, k: Opt)
    ensures LastTune(DbCalls(p, cores, ioRate), k) == DbSetting(p, cores, ioRate, k)
  {
    LastTuneAppend(DbCommonCalls(cores, ioRate), DbOwnCalls(p, cores), k);
    DbCommonSettles(cores, ioRate, k);
    DbOwnSettles(p, cores, k);
  }
}
