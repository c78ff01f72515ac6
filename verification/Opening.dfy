/** Opening and flushing a database, step by step in the step model: what the loops of `Database`
    have to compute. */
module Opening {
  import opened Ops
  import opened Pairs
  import opened Wal
  import opened SSTable
  import opened Manifest
  import opened Directory
  import opened History
  import opened Engine
  import opened EngineDisk
  import opened EngineSafety
  import MT = MemTable

  // ------------------------------------------------------------ opening, step by step

  lemma {:induction false} ScanStops(ssts: map<nat, Bytes>, ids: seq<nat>, n: nat)
    requires n <= |ids| && forall i :: 0 <= i < |ids| ==> ids[i] in ssts
    requires !ScanTables(ssts, ids[..n]).ok
    ensures ScanTables(ssts, ids) == ScanTables(ssts, ids[..n])
  {
    hide Load;
    if n < |ids| {
      var m := |ids| - 1;
      assert ids[..m][..n] == ids[..n];
      ScanStops(ssts, ids[..m], n);
    } else {
      assert ids[..n] == ids;
    }
  }

  /** The scan succeeds exactly when no file is corrupt, and then finds exactly the files that load. */
  lemma {:induction false} ScanFinds(ssts: map<nat, Bytes>, ids: seq<nat>)
    requires forall i :: 0 <= i < |ids| ==> ids[i] in ssts
    ensures ScanTables(ssts, ids).ok <==> forall i :: 0 <= i < |ids| ==> !Load(ssts[ids[i]]).Corrupt?
    ensures ScanTables(ssts, ids).ok ==>
              forall m :: m in ScanTables(ssts, ids).metas <==> m.fileID in ids && Load(ssts[m.fileID]) == Loaded(m.meta)
  {
    hide Load;
    if ids != [] {
      var n := |ids| - 1;
      ScanFinds(ssts, ids[..n]);
      assert ids == ids[..n] + [ids[n]];
      if ScanTables(ssts, ids).ok {
        forall i | 0 <= i < |ids|
          ensures !Load(ssts[ids[i]]).Corrupt?
        {
          assert i < n ==> ids[..n][i] == ids[i];
        }
      }
    }
  }

  /** One corrupt file, and no table is loaded. */
  lemma CorruptEndsLoading(disk: Disk)
    ensures (exists id :: id in disk.ssts && Load(disk.ssts[id]).Corrupt?) ==> LoadTables(disk) == []
  {
    hide Load, ScanTables, SortedIds, Manifest.Ordered;
    var ids := SortedIds(disk.ssts.Keys);
    ScanFinds(disk.ssts, ids);
    if id :| id in disk.ssts && Load(disk.ssts[id]).Corrupt? {
      assert id in ids;
    }
  }

  /** Opening writes what it replayed exactly when a key or value in it has a byte. */
  lemma WritesWhatHasBytes(disk: Disk)
    ensures var b := Opened(disk);
            b.stage == (if exists i :: 0 <= i < |b.mem| && (b.mem[i].key != [] || MT.ValueLen(b.mem[i].value) > 0)
                        then ToWrite else Clearing)
  {
    hide ReplayAll, StoredAll, LoadTables, FirstFreeID, NextWal, MT.Size, MT.ValueLen;
    SizeCounts(Opened(disk).mem);
  }

  /** The next log number is the least beyond all logs, or 1. */
  lemma NextWalIsFresh(wals: map<nat, Bytes>)
    ensures forall id :: id in wals ==> id < NextWal(wals)
    ensures if wals == map[] then NextWal(wals) == 1 else NextWal(wals) >= 1 && NextWal(wals) - 1 in wals
  {
    hide SortedIds;
    var ids := SortedIds(wals.Keys);
    if id :| id in wals {
      assert id in ids;
    }
    if ids != [] {
      assert ids[|ids| - 1] in wals.Keys;
    }
    forall id | id in wals
      ensures id < NextWal(wals)
    {
      assert id in ids;
      var i :| 0 <= i < |ids| && ids[i] == id;
    }
  }

  /** Removing the logs one by one, oldest first, ends without logs. */
  lemma {:induction false} ClearingClears(disk: Disk, b: Boot)
    requires b.stage == Clearing
    ensures BootUp(Booting(disk, b)) == BootUp(Booting(disk.(wals := map[]), b))
    decreases |disk.wals|
  {
    hide SortedIds;
    if disk.wals == map[] {
      assert disk.(wals := map[]) == disk;
    } else {
      OneLogLess(disk.wals);
      ClearingClears(Do(Booting(disk, b), RemoveWal).disk, b);
    }
  }

  lemma Activates(disk: Disk, b: Boot)
    requires b.stage == Clearing && b.walFileID < MaxID
    ensures BootUp(Booting(disk, b)) == Activated(disk, b)
  {
    hide SortedIds;
    ClearingClears(disk, b);
  }

  lemma WritesAndLists(disk: Disk, b: Boot)
    requires b.stage == ToWrite && Room(b)
    ensures var t := MetaFor(b.nextFileID, b.mem);
            BootUp(Booting(disk, b)) ==
            BootUp(Booting(Disk(disk.ssts[b.nextFileID := FileOf(b.mem)], disk.manifest + Line(b.tables + [t]), disk.wals),
                           Boot([], b.tables + [t], b.nextFileID + 1, b.walFileID, Clearing)))
  {
    hide MetaFor, FileOf, Line, Writable, BootUp;
    var s := Booting(disk, b);
    OneStep(s);
    OneStep(Do(s, WriteRecovered));
  }

  lemma OneStep(s: State)
    requires s.Booting? && s.boot.stage != Clearing && Enabled(s, BootStep(s.boot, s.disk.wals))
    ensures BootUp(s) == BootUp(Do(s, BootStep(s.boot, s.disk.wals)))
  {
    hide MetaFor, FileOf, Line, Writable;
  }

  lemma OpenedIs(disk: Disk, mem: seq<Pair>)
    requires mem == StoredAll([], ReplayAll(disk.wals, SortedIds(disk.wals.Keys)))
    ensures Opened(disk) == Boot(mem, LoadTables(disk), FirstFreeID(disk), NextWal(disk.wals),
                                 if MT.Size(mem) > 0 then ToWrite else Clearing)
  {
  }

  /** The state in which opening a disk ends, all steps taken. */
  ghost function FullyOpened(disk: Disk): State { Finished(disk, Opened(disk)) }

  ghost function Finished(disk: Disk, b: Boot): State {
    if b.stage == ToWrite && b.mem != [] then
      var tables := b.tables + [MetaFor(b.nextFileID, b.mem)];
      Activated(Disk(disk.ssts[b.nextFileID := FileOf(b.mem)], disk.manifest + Line(tables), disk.wals),
                Boot([], tables, b.nextFileID + 1, b.walFileID, Clearing))
    else Activated(disk, b)
  }

  /** No old logs, a new active one. */
  ghost function Activated(disk: Disk, b: Boot): State {
    Running(disk.(wals := map[b.walFileID := []]),
            Mem(b.mem, None, None, b.tables, b.nextFileID, b.walFileID, None, b.walFileID + 1))
  }

  /** The opening steps end there. */
  lemma OpensFully(disk: Disk)
    requires Room(Opened(disk))
    ensures BootUp(Booting(disk, Opened(disk))) == FullyOpened(disk)
  {
    hide Opened, BootUp, MetaFor, FileOf, Line, Writable;
    var b := Opened(disk);
    NeverListing(disk);
    if b.stage == ToWrite {
      var t := MetaFor(b.nextFileID, b.mem);
      WritesAndLists(disk, b);
      Activates(Disk(disk.ssts[b.nextFileID := FileOf(b.mem)], disk.manifest + Line(b.tables + [t]), disk.wals),
                Boot([], b.tables + [t], b.nextFileID + 1, b.walFileID, Clearing));
    } else {
      Activates(disk, b);
    }
  }

  lemma NeverListing(disk: Disk)
    ensures Opened(disk).stage != ToList
  {
  }

  /** What opening does not write is lost by the next crash: if everything that the logs replay to
      has the empty key and no value bytes, opening removes the logs, keeps it in memory alone, and
      the opening after shows the tables as they were before. */
  lemma UnwrittenIsLost(disk: Disk)
    requires Opened(disk).stage == Clearing && Room(Opened(disk))
    ensures forall i :: 0 <= i < |Opened(disk).mem| ==>
              Opened(disk).mem[i].key == [] && MT.ValueLen(Opened(disk).mem[i].value) == 0
    ensures var s := BootUp(Booting(disk, Opened(disk)));
            s.Running? && s.m.mem == Opened(disk).mem && s.m.tables == LoadTables(disk) &&
            Opened(s.disk).mem == [] && Opened(s.disk).tables == LoadTables(disk)
  {
    OpensFully(disk);
    SizeCounts(Opened(disk).mem);
    hide LoadTables, FirstFreeID, BootUp, ReplayAll, SortedIds;
    var wals: map<nat, Bytes> := map[Opened(disk).walFileID := []];
    NothingReplayed(Opened(disk).walFileID);
  }

  lemma NothingReplayed(id: nat)
    ensures var wals: map<nat, Bytes> := map[id := []];
            ReplayAll(wals, SortedIds(wals.Keys)) == []
  {
    var wals: map<nat, Bytes> := map[id := []];
    ListingIsUnique([id], wals.Keys);
    EmptyLog();
    hide Replay;
    assert [id][..0] == [];
  }

  lemma ScanMore(ssts: map<nat, Bytes>, ids: seq<nat>, i: nat)
    requires i < |ids| && forall j :: 0 <= j < |ids| ==> ids[j] in ssts
    ensures var before, r := ScanTables(ssts, ids[..i]), Load(ssts[ids[i]]);
            ScanTables(ssts, ids[..i + 1]) ==
              if !before.ok || r.Skip? then before
              else if r.Corrupt? then Scan(before.metas, false)
              else Scan(before.metas + [TableMeta(ids[i], r.meta)], true)
  {
    hide Load;
    assert ids[..i + 1][..i] == ids[..i];
  }

  lemma NothingScanned(ssts: map<nat, Bytes>)
    ensures ScanTables(ssts, []) == Scan([], true) && NextID(1, []) == 1
  {
  }

  lemma NextMore(metas: seq<TableMeta>, t: TableMeta)
    ensures NextID(1, metas + [t]) == if t.fileID >= NextID(1, metas) then t.fileID + 1 else NextID(1, metas)
  {
    assert (metas + [t])[..|metas|] == metas;
  }

  lemma StartsEmpty()
    ensures StoredAll([], []) == []
  {
  }

  /** What a whole flush does to the disk and to memory. */
  ghost function Flushed(disk: Disk, m: Mem): State
    requires m.imm.Some? && m.imm.value.pairs != []
  {
    var imm := m.imm.value;
    var tables := m.tables + [MetaFor(m.nextFileID, imm.pairs)];
    Running(Disk(disk.ssts[m.nextFileID := FileOf(imm.pairs)], disk.manifest + Line(tables), disk.wals - {imm.wal}),
            m.(imm := None, tables := tables, nextFileID := m.nextFileID + 1))
  }

  /** No stage of the flush that is under way has been taken. */
  predicate NotBegun(m: Mem) {
    m.imm.Some? && m.imm.value.file.None? && !m.imm.value.written && m.tail.None?
  }

  const FlushStages := [Reserve, WriteTable, Install, AppendManifest, RemoveOldWal]

  lemma FirstStages(run: seq<Step>, disk: Disk, m: Mem) returns (m': Mem)
    requires After(run) == Some(Running(disk, m)) && CompactionsHarmless(run)
    requires NotBegun(m) && m.imm.value.pairs != [] && Writable(m.imm.value.pairs) && m.nextFileID < MaxID
    ensures m' == m.(imm := Some(m.imm.value.(file := Some(m.nextFileID), written := true)), nextFileID := m.nextFileID + 1)
    ensures After(run + [Reserve] + [WriteTable]) ==
            Some(Running(disk.(ssts := disk.ssts[m.nextFileID := FileOf(m.imm.value.pairs)]), m'))
    ensures CompactionsHarmless(run + [Reserve] + [WriteTable])
    ensures LoggedOps(run + [Reserve] + [WriteTable]) == LoggedOps(run)
  {
    hide After, CompactionsHarmless, LoggedOps, FileOf, Writable;
    RunMore(run, Reserve);
    RunMore(run + [Reserve], WriteTable);
    m' := m.(imm := Some(m.imm.value.(file := Some(m.nextFileID), written := true)), nextFileID := m.nextFileID + 1);
  }

  lemma LastStages(run: seq<Step>, disk: Disk, m: Mem)
    requires After(run) == Some(Running(disk, m)) && CompactionsHarmless(run) && m.tail.None?
    requires m.imm.Some? && m.imm.value.pairs != [] && m.imm.value.file.Some? && m.imm.value.written
    ensures var imm := m.imm.value;
            var tables := m.tables + [MetaFor(imm.file.value, imm.pairs)];
            After(run + [Install] + [AppendManifest] + [RemoveOldWal]) ==
            Some(Running(disk.(manifest := disk.manifest + Line(tables), wals := disk.wals - {imm.wal}),
                         m.(imm := None, tables := tables)))
    ensures CompactionsHarmless(run + [Install] + [AppendManifest] + [RemoveOldWal])
    ensures LoggedOps(run + [Install] + [AppendManifest] + [RemoveOldWal]) == LoggedOps(run)
  {
    hide After, CompactionsHarmless, LoggedOps, MetaFor, Line;
    RunMore(run, Install);
    RunMore(run + [Install], AppendManifest);
    RunMore(run + [Install] + [AppendManifest], RemoveOldWal);
  }

  /** A whole flush is its five stages, one after the other. */
  lemma FlushRuns(run: seq<Step>, disk: Disk, m: Mem)
    requires After(run) == Some(Running(disk, m)) && CompactionsHarmless(run)
    requires NotBegun(m) && m.imm.value.pairs != [] && Writable(m.imm.value.pairs) && m.nextFileID < MaxID
    ensures After(run + FlushStages) == Some(Flushed(disk, m)) && CompactionsHarmless(run + FlushStages)
    ensures LoggedOps(run + FlushStages) == LoggedOps(run)
  {
    hide After, CompactionsHarmless, LoggedOps, MetaFor, Line, FileOf, Writable;
    var m' := FirstStages(run, disk, m);
    var half := run + [Reserve] + [WriteTable];
    LastStages(half, disk.(ssts := disk.ssts[m.nextFileID := FileOf(m.imm.value.pairs)]), m');
    assert half + [Install] + [AppendManifest] + [RemoveOldWal] == run + FlushStages;
  }
}
