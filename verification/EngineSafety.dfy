/** What the invariant gives over whole runs: reads return what a plain map would, and reopening
    after a crash at any point rebuilds exactly that map. */
module EngineSafety {
  import opened Ops
  import opened Codec
  import opened Pairs
  import opened Wal
  import opened SSTable
  import opened Manifest
  import opened Directory
  import opened MemTable
  import opened History
  import opened Tables
  import opened Merge
  import opened Compaction
  import opened Engine
  import opened EngineDisk
  import opened EngineInv
  import opened EngineSteps

  // ------------------------------------------------------------------ all runs

  lemma StartOK()
    ensures DiskOK(Start().disk, Ghost([], 0, [], 0, 0), [])
  {
    BlankStart();
  }

  lemma BootStepKeeps(s: State, step: Step, g: Ghost, c: Cut, ops: seq<Rec>) returns (g': Ghost, c': Cut)
    requires Inv(s, g, c, ops) && Enabled(s, step) && s.Booting? && !step.Crash?
    ensures Inv(Do(s, step), g', c', ops)
  {
    hide Enabled, BootingOK, RunningOK, AllFitting;
    g', c' := g, c;
    match step
    case WriteRecovered => g' := WriteRecoveredKeeps(s.disk, s.boot, g, ops);
    case ListRecovered => g' := ListRecoveredKeeps(s.disk, s.boot, g, ops);
    case RemoveWal => g' := RemoveWalKeeps(s.disk, s.boot, g, ops);
    case Activate => g', c' := ActivateKeeps(s.disk, s.boot, g, ops);
    case _ => NotBooting(s, step);
  }

  lemma NotBooting(s: State, step: Step)
    requires Enabled(s, step) && s.Booting?
    ensures step.WriteRecovered? || step.ListRecovered? || step.RemoveWal? || step.Activate? || step.Crash?
  {
  }

  lemma NotRunning(s: State, step: Step)
    requires Enabled(s, step) && s.Running?
    ensures !step.Open? && !step.WriteRecovered? && !step.ListRecovered? && !step.RemoveWal? && !step.Activate?
  {
  }

  predicate Quiet(step: Step) { !step.Log? && !step.Compact? && !step.Crash? && !step.CrashTorn? }

  lemma FlushStepKeeps(s: State, step: Step, g: Ghost, c: Cut, ops: seq<Rec>) returns (g': Ghost, c': Cut)
    requires Inv(s, g, c, ops) && Enabled(s, step) && s.Running? && Quiet(step)
    ensures Inv(Do(s, step), g', c', ops)
  {
    hide Enabled, BootingOK, RunningOK, AllFitting;
    g', c' := g, c;
    match step
    case PreAllocate => g' := PreAllocateKeeps(s.disk, s.m, g, c, ops);
    case Reserve => ReserveKeeps(s.disk, s.m, g, c, ops);
    case WriteTable => g' := WriteTableKeeps(s.disk, s.m, g, c, ops);
    case Install => c' := InstallKeeps(s.disk, s.m, g, c, ops);
    case AppendManifest => g' := AppendManifestKeeps(s.disk, s.m, g, c, ops);
    case RemoveOldWal => g' := RemoveOldWalKeeps(s.disk, s.m, g, c, ops);
    case _ => NotRunning(s, step);
  }

  lemma OtherStepKeeps(s: State, step: Step, g: Ghost, c: Cut, ops: seq<Rec>) returns (g': Ghost, c': Cut)
    requires Inv(s, g, c, ops) && Enabled(s, step) && (s.Down? || !Quiet(step)) && HarmlessAt(s, step)
    ensures Inv(Do(s, step), g', c', ops + if step.Log? then [step.rec] else [])
  {
    hide BootingOK, RunningOK, DiskOK, Fitting, Harmless, IsMerge, Writable, TablesOf;
    g', c' := g, c;
    AlwaysDiskOK(s, g, c, ops);
    assert ops + [] == ops;
    match step
    case Open => OpenKeeps(s.disk, g, ops);
    case Log(r) => g', c' := LogKeeps(s.disk, s.m, g, c, ops, r);
    case Compact(merged) => g' := CompactKeeps(s.disk, s.m, g, c, ops, merged);
    case CrashTorn(r, n) => TornKeeps(s.disk, s.m, g, c, ops, r, n);
    case _ =>
  }

  lemma StepKeeps(s: State, step: Step, g: Ghost, c: Cut, ops: seq<Rec>) returns (g': Ghost, c': Cut)
    requires Inv(s, g, c, ops) && Enabled(s, step) && HarmlessAt(s, step)
    ensures Inv(Do(s, step), g', c', ops + if step.Log? then [step.rec] else [])
  {
    hide Inv, Enabled, HarmlessAt;
    if s.Down? || !Quiet(step) {
      g', c' := OtherStepKeeps(s, step, g, c, ops);
    } else {
      assert ops + [] == ops;
      if s.Booting? {
        g', c' := BootStepKeeps(s, step, g, c, ops);
      } else {
        g', c' := FlushStepKeeps(s, step, g, c, ops);
      }
    }
  }

  /** A run goes on by one step. */
  lemma RunMore(run: seq<Step>, step: Step)
    requires After(run).Some? && CompactionsHarmless(run)
    requires Enabled(After(run).value, step) && HarmlessAt(After(run).value, step)
    ensures After(run + [step]) == Some(Do(After(run).value, step)) && CompactionsHarmless(run + [step])
    ensures LoggedOps(run + [step]) == LoggedOps(run) + if step.Log? then [step.rec] else []
  {
    hide Enabled, Do, HarmlessAt, CompactionsHarmless, LoggedOps;
    assert (run + [step])[..|run|] == run;
    HarmlessMore(run, step);
    LoggedMore(run, step);
  }

  lemma HarmlessMore(run: seq<Step>, step: Step)
    requires CompactionsHarmless(run) && After(run).Some? && HarmlessAt(After(run).value, step)
    ensures CompactionsHarmless(run + [step])
  {
    hide HarmlessAt, After;
    assert (run + [step])[..|run|] == run;
  }

  /** In every run whose compactions are harmless, after every step. */
  lemma {:induction false} RunKeeps(steps: seq<Step>) returns (g: Ghost, c: Cut)
    requires After(steps).Some? && CompactionsHarmless(steps)
    ensures Inv(After(steps).value, g, c, LoggedOps(steps))
  {
    hide DiskOK, BootingOK, RunningOK, Enabled, Do, HarmlessAt;
    if steps == [] {
      StartOK();
      g, c := Ghost([], 0, [], 0, 0), Cut(0, 0);
    } else {
      var n := |steps| - 1;
      g, c := RunKeeps(steps[..n]);
      g, c := StepKeeps(After(steps[..n]).value, steps[n], g, c, LoggedOps(steps[..n]));
    }
  }

  // ------------------------------------------------------------------ reading

  /** The loop over the tables finds what the newest table that mentions the key says. */
  lemma {:induction false} FromTablesIs(ssts: map<nat, Bytes>, ts: seq<Table>, key: Bytes)
    requires AllGood(ts) && forall i :: 0 <= i < |ts| ==> ts[i].id in ssts && ssts[ts[i].id] == FileOf(ts[i].pairs)
    ensures FromTables(ssts, Metas(ts), key) == if key in Overlay(ts) then Some(Overlay(ts)[key]) else None
  {
    hide Less, FileOf, IndexOf, ReadVal, ToMap, Sorted, SSTable.AllFit, Writable;
    if ts != [] {
      var n := |ts| - 1;
      FromTablesIs(ssts, ts[..n], key);
      assert Metas(ts)[..n] == Metas(ts[..n]);
      var t := ts[n];
      assert GoodTable(t);
      if Less(key, MetaOf(t.pairs).minKey) || Less(MetaOf(t.pairs).maxKey, key) {
        RangeIsSound(t.pairs, key);
      } else {
        LookupIsExact(t.pairs, key);
      }
    }
  }

  lemma GetIsLayered(disk: Disk, m: Mem, g: Ghost, c: Cut, ops: seq<Rec>, key: Bytes)
    requires RunningOK(disk, m, g, c, ops)
    ensures Get(disk, m, key) == Visible(OpsMap(ops), key)
  {
    hide LogsOK, FilesOK, ToMap, Sorted, OpsMap, Overlay, FromTables, Find, ManifestLists, GoodTable;
    FindIs(m.mem, key);
    if m.imm.Some? {
      FindIs(m.imm.value.pairs, key);
    }
    var ts := g.ts[..|m.tables|];
    assert Metas(ts) == m.tables;
    ListedOnDisk(disk.ssts, g.ts, |m.tables|);
    FromTablesIs(disk.ssts, ts, key);
    OpsSplit(ops[..c.q], ops[c.q..c.r]);
    assert ops[..c.q] + ops[c.q..c.r] == ops[..c.r];
    OpsSplit(ops[..c.r], ops[c.r..]);
    assert ops[..c.r] + ops[c.r..] == ops;
    if m.imm.None? {
      assert ops[c.q..c.r] == [];
      NoOps([]);
    }
  }

  lemma ListedOnDisk(ssts: map<nat, Bytes>, ts: seq<Table>, n: nat)
    requires TablesOnDisk(ssts, ts) && n <= |ts|
    ensures AllGood(ts[..n]) && forall i :: 0 <= i < n ==> ts[i].id in ssts && ssts[ts[i].id] == FileOf(ts[i].pairs)
  {
    hide GoodTable, FileOf;
  }

  /** Refinement: over every run of puts, deletes, freezes, blocked freezes, flush steps, harmless
      compactions, crashes and reopenings, a read returns exactly what a plain map of the logged
      operations holds. */
  lemma GetRefinesPlainMap(steps: seq<Step>, key: Bytes)
    requires After(steps).Some? && After(steps).value.Running? && CompactionsHarmless(steps)
    ensures var s, plain := After(steps).value, PlainMap(LoggedOps(steps));
            Get(s.disk, s.m, key) == if key in plain then Some(plain[key]) else None
  {
    hide After, LoggedOps, Get, RunningOK, OpsMap, PlainMap, AllFitting;
    var s := After(steps).value;
    var g, c := RunKeeps(steps);
    GetIsLayered(s.disk, s.m, g, c, LoggedOps(steps), key);
    LayerIsPlain(LoggedOps(steps), key);
  }

  // ------------------------------------------------------------------ recovery

  /** The step that opening takes next. */
  function BootStep(b: Boot, wals: map<nat, Bytes>): Step {
    match b.stage
    case ToWrite => WriteRecovered
    case ToList => ListRecovered
    case Clearing => if wals == map[] then Activate else RemoveWal
  }

  function Rank(stage: Stage): nat {
    match stage case ToWrite => 2 case ToList => 1 case Clearing => 0
  }

  lemma OneLogLess(wals: map<nat, Bytes>)
    requires wals != map[]
    ensures SortedIds(wals.Keys) != [] && |wals - {SortedIds(wals.Keys)[0]}| < |wals|
  {
    var ids := SortedIds(wals.Keys);
    var k: nat :| k in wals.Keys;
    assert k in ids;
    assert ids[0] in wals.Keys;
    assert (wals - {ids[0]}).Keys == wals.Keys - {ids[0]};
    assert |(wals - {ids[0]}).Keys| == |wals - {ids[0]}| && |wals.Keys| == |wals|;
  }

  /** Opening, undisturbed, to its end. */
  ghost function BootUp(s: State): State
    decreases if s.Booting? then Rank(s.boot.stage) else 0, |s.disk.wals|
  {
    if !s.Booting? || !Enabled(s, BootStep(s.boot, s.disk.wals)) then s
    else
      var step := BootStep(s.boot, s.disk.wals);
      if step == Activate then Do(s, step)
      else
        assert step == RemoveWal ==> |Do(s, step).disk.wals| < |s.disk.wals| by {
          if step == RemoveWal { OneLogLess(s.disk.wals); }
        }
        BootUp(Do(s, step))
  }

  /** Room to open: file numbers are left, and the replayed table is a possible file. */
  predicate Room(b: Boot) {
    b.walFileID < MaxID && (b.stage == ToWrite ==> b.mem != [] && b.nextFileID < MaxID && Writable(b.mem))
  }

  lemma {:induction false} BootUpKeeps(s: State, g: Ghost, c: Cut, ops: seq<Rec>) returns (g': Ghost, c': Cut)
    requires Inv(s, g, c, ops) && s.Booting? && Room(s.boot)
    ensures BootUp(s).Running? && Inv(BootUp(s), g', c', ops)
    decreases Rank(s.boot.stage), |s.disk.wals|
  {
    hide Inv, FileOf, MetaFor, SortedIds, Writable, Line;
    var step := BootStep(s.boot, s.disk.wals);
    assert Enabled(s, step);
    g', c' := BootStepKeeps(s, step, g, c, ops);
    if step != Activate {
      if step == RemoveWal {
        OneLogLess(s.disk.wals);
      }
      g', c' := BootUpKeeps(Do(s, step), g', c', ops);
    }
  }

  /** From any disk that holds the operations, opening ends running and shows their plain map. */
  lemma ReopenShows(disk: Disk, g: Ghost, ops: seq<Rec>, key: Bytes)
    requires DiskOK(disk, g, ops) && AllFitting(ops) && Room(Opened(disk))
    ensures var s, plain := BootUp(Booting(disk, Opened(disk))), PlainMap(ops);
            s.Running? && Get(s.disk, s.m, key) == if key in plain then Some(plain[key]) else None
  {
    hide DiskOK, BootingOK, RunningOK, AllFitting, Room, Opened, BootUp, Get, OpsMap, PlainMap;
    OpenKeeps(disk, g, ops);
    var g', c' := BootUpKeeps(Booting(disk, Opened(disk)), g, Cut(0, 0), ops);
    var s := BootUp(Booting(disk, Opened(disk)));
    GetIsLayered(s.disk, s.m, g', c', ops, key);
    LayerIsPlain(ops, key);
  }

  /** Crash recovery: whatever step the engine last took (an operation, a rotation, any stage of
      a flush, a harmless compaction, any stage of an earlier opening), reopening its disk shows
      exactly the operations logged in full. */
  lemma CrashRecovery(steps: seq<Step>, key: Bytes)
    requires After(steps).Some? && CompactionsHarmless(steps) && Room(Opened(After(steps).value.disk))
    ensures var disk, plain := After(steps).value.disk, PlainMap(LoggedOps(steps));
            var s := BootUp(Booting(disk, Opened(disk)));
            s.Running? && Get(s.disk, s.m, key) == if key in plain then Some(plain[key]) else None
  {
    hide After, LoggedOps, Get, RunningOK, BootingOK, DiskOK, OpsMap, PlainMap, AllFitting, Room, Opened, BootUp;
    var g, c := RunKeeps(steps);
    AlwaysDiskOK(After(steps).value, g, c, LoggedOps(steps));
    ReopenShows(After(steps).value.disk, g, LoggedOps(steps), key);
  }

  /** The same when the crash cuts an append to the active log short: the torn record is not
      there, everything before it is. */
  lemma TornRecovery(steps: seq<Step>, r: Rec, n: nat, key: Bytes)
    requires After(steps).Some? && After(steps).value.Running? && CompactionsHarmless(steps)
    requires Fitting(r) && n < |Encode(r)|
    ensures Enabled(After(steps).value, CrashTorn(r, n))
    ensures var disk, plain := Do(After(steps).value, CrashTorn(r, n)).disk, PlainMap(LoggedOps(steps));
            var s := BootUp(Booting(disk, Opened(disk)));
            Room(Opened(disk)) ==> s.Running? && Get(s.disk, s.m, key) == if key in plain then Some(plain[key]) else None
  {
    hide LoggedOps, Get, OpsMap, PlainMap, Room, Opened, BootUp, Encode, Fitting, CompactionsHarmless;
    CanTear(steps, r, n);
    RunMore(steps, CrashTorn(r, n));
    var more := steps + [CrashTorn(r, n)];
    assert LoggedOps(steps) + [] == LoggedOps(steps);
    if Room(Opened(After(more).value.disk)) {
      CrashRecovery(more, key);
    }
  }

  lemma CanTear(steps: seq<Step>, r: Rec, n: nat)
    requires After(steps).Some? && After(steps).value.Running? && CompactionsHarmless(steps)
    requires Fitting(r) && n < |Encode(r)|
    ensures Enabled(After(steps).value, CrashTorn(r, n))
  {
    hide After, LoggedOps, CompactionsHarmless, AllFitting, RunningOK, Encode, Fitting, TablesOf, IsMerge, Writable;
    var g, c := RunKeeps(steps);
    WalIsThere(After(steps).value.disk, After(steps).value.m, g, c, LoggedOps(steps));
  }

  lemma WalIsThere(disk: Disk, m: Mem, g: Ghost, c: Cut, ops: seq<Rec>)
    requires RunningOK(disk, m, g, c, ops)
    ensures m.wal in disk.wals
  {
    hide WalsOnDisk, ListOK, MemOK, FilesOK, TablesOnDisk, ManifestLists, Recs, EncodeAll, OpsMap, Overlay;
  }

  lemma LoggedMore(steps: seq<Step>, step: Step)
    ensures LoggedOps(steps + [step]) == LoggedOps(steps) + if step.Log? then [step.rec] else []
  {
    assert (steps + [step])[..|steps|] == steps;
  }

  /** The hypotheses can be met: a new disk opens, takes any operation, crashes, and opens again
      with that operation in its log. */
  lemma FirstLives(r: Rec)
    requires Fitting(r)
    ensures var steps := [Open, Activate, Log(r), Crash];
            After(steps).Some? && LoggedOps(steps) == [r] && Room(Opened(Start().disk))
  {
    hide Encode, CheckAndFlush, Fitting, Stored;
    NothingToOpen();
    var a, b, c, d := [Open], [Open, Activate], [Open, Activate, Log(r)], [Open, Activate, Log(r), Crash];
    assert a[..0] == [] && b[..1] == a && c[..2] == b && d[..3] == c;
    assert After([]) == Some(Start()) && LoggedOps([]) == [];
    assert After(a) == Some(Booting(Start().disk, Opened(Start().disk)));
    assert After(b).Some? && After(b).value.Running?;
    assert LoggedOps(a) == [] && LoggedOps(b) == [];
  }

  lemma NothingToOpen()
    ensures Opened(Start().disk) == Boot([], [], 1, 1, Clearing)
  {
    BlankStart();
    NoSize();
    var none: map<nat, Bytes> := map[];
    assert SortedIds(none.Keys) == [];
  }

  // ----------------------------------------------- why keys must not be empty

  /** Opening writes a recovered table only if some key or value in it has a byte. */
  lemma {:induction false} SizeCounts(ps: seq<Pair>)
    ensures Size(ps) > 0 <==> exists i :: 0 <= i < |ps| && (ps[i].key != [] || ValueLen(ps[i].value) > 0)
  {
    if ps != [] {
      var n := |ps| - 1;
      SizeCounts(ps[..n]);
      if i :| 0 <= i < |ps| && (ps[i].key != [] || ValueLen(ps[i].value) > 0) {
        assert i < n ==> ps[..n][i] == ps[i];
      }
    }
  }
}
