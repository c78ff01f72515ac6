/** Compaction of the tables in their files. */
module CompactedFiles {
  import opened Ops
  import opened Pairs
  import opened SSTable
  import opened SSTableIO
  import opened Manifest
  import Directory
  import opened Engine
  import opened EngineDisk
  import opened EngineInv
  import opened EngineSteps
  import opened EngineSafety
  import opened Tables
  import opened Merge
  import opened Compaction

  /** What a read of the tables shows. */
  ghost function Read(ssts: map<nat, Bytes>, tables: seq<TableMeta>, key: Bytes): Option<Bytes> {
    var hit := FromTables(ssts, tables, key);
    if hit.Some? then hit.value else None
  }

  lemma ReadsOverlay(ssts: map<nat, Bytes>, ts: seq<Table>, n: nat, key: Bytes)
    requires TablesOnDisk(ssts, ts) && n <= |ts| && AllGood(ts[..n])
    ensures Read(ssts, Metas(ts[..n]), key) == Visible(Overlay(ts[..n]), key)
  {
    hide FromTables, Overlay, FileOf, GoodTable;
    ListedOnDisk(ssts, ts, n);
    FromTablesIs(ssts, ts[..n], key);
  }

  /** The reads of a database before and after a compaction agree on all keys exactly when the
      compaction is harmless. `ts` are the tables on disk, the first `n` of them listed. */
  lemma CompactionKeepsReads(disk: Disk, m: Mem, ts: seq<Table>, n: nat, merged: seq<Pair>)
    requires TablesOnDisk(disk.ssts, ts) && Threshold <= n <= |ts| && AllGood(ts[..n]) && m.tables == Metas(ts[..n])
    requires m.nextFileID !in TableIds(ts) && m.nextFileID < Directory.MaxID
    requires merged != [] && Writable(merged) && IsMerge(PairsOf(ts[..Threshold]), merged)
    ensures var s := Compacted(disk, m, merged);
            (forall key :: Read(disk.ssts, m.tables, key) == Read(s.disk.ssts, s.m.tables, key)) <==>
            Harmless(ts[..n], Threshold)
  {
    hide FileOf, MetaFor, GoodTable, IdSet, Kept, IsMerge, Harmless, Read, Overlay, AllGood, DistinctIds, TablesOnDisk,
      Metas, Writable, Visible;
    var list, t := ts[..n], Table(m.nextFileID, merged);
    assert list[..Threshold] == ts[..Threshold];
    MergedIsGood(list, t);
    var us := FilesAfter(disk.ssts, ts, n, t);
    var s := Compacted(disk, m, merged);
    var after := AfterCompaction(list, t);
    forall key
      ensures Read(disk.ssts, m.tables, key) == Visible(Overlay(list), key)
      ensures Read(s.disk.ssts, s.m.tables, key) == Visible(Overlay(after), key)
    {
      ReadsOverlay(disk.ssts, ts, n, key);
      ReadsOverlay(s.disk.ssts, us, |after|, key);
    }
    LastPlacement(list, Threshold, t);
    SeenIs(disk, m, s, list, after);
  }

  lemma SeenIs(disk: Disk, m: Mem, s: State, a: seq<Table>, b: seq<Table>)
    requires s.Running?
    requires forall key :: Read(disk.ssts, m.tables, key) == Visible(Overlay(a), key)
    requires forall key :: Read(s.disk.ssts, s.m.tables, key) == Visible(Overlay(b), key)
    ensures (forall key :: Read(disk.ssts, m.tables, key) == Read(s.disk.ssts, s.m.tables, key)) <==> SameLookups(a, b)
  {
    hide Read, Overlay, Visible;
    if forall key :: Read(disk.ssts, m.tables, key) == Read(s.disk.ssts, s.m.tables, key) {
      forall key
        ensures Visible(Overlay(a), key) == Visible(Overlay(b), key)
      {
        assert Read(disk.ssts, m.tables, key) == Read(s.disk.ssts, s.m.tables, key);
      }
    }
    if SameLookups(a, b) {
      forall key
        ensures Read(disk.ssts, m.tables, key) == Read(s.disk.ssts, s.m.tables, key)
      {
        assert Visible(Overlay(a), key) == Visible(Overlay(b), key);
      }
    }
  }

  /** The files after a compaction hold the tables after it, and the list describes them. */
  lemma FilesAfter(ssts: map<nat, Bytes>, ts: seq<Table>, n: nat, t: Table) returns (us: seq<Table>)
    requires TablesOnDisk(ssts, ts) && Threshold <= n <= |ts| && GoodTable(t) && t.id !in TableIds(ts)
    ensures AllGood(ts[..n])
    ensures TablesOnDisk(ssts[t.id := FileOf(t.pairs)] - IdSet(Metas(ts[..n])[..Threshold]), us)
    ensures var after := AfterCompaction(ts[..n], t);
            |after| <= |us| && us[..|after|] == after && AllGood(after) &&
            Kept(Metas(ts[..n]), IdSet(Metas(ts[..n])[..Threshold])) + [MetaFor(t.id, t.pairs)] == Metas(after)
  {
    hide FileOf, MetaOf, GoodTable, IdSet, Kept, MetaFor;
    DistinctPart(ts, n);
    TablesSwapped(ssts, ts, Threshold, n, t);
    assert Metas(ts)[..Threshold] == Metas(ts[..n])[..Threshold];
    us := ts[Threshold..n] + [t] + ts[n..];
    assert us[..|AfterCompaction(ts[..n], t)|] == AfterCompaction(ts[..n], t);
    KeptMetas(ts[..n], t);
  }

  /** In a run, what a compaction picks can be opened and is in order, and its merge is not empty. */
  lemma CompactionOpens(steps: seq<Step>)
    requires After(steps).Some? && After(steps).value.Running? && CompactionsHarmless(steps)
    requires |After(steps).value.m.tables| >= Threshold
    ensures var s := After(steps).value; CanOpen(s.disk.ssts, s.m.tables[..Threshold])
  {
    hide After, CompactionsHarmless, LoggedOps, LogsOK, MemOK, ManifestLists, FilesOK, AllFitting, ListOK, TablesOnDisk,
      CanOpen, DiskOK, BootingOK;
    var s := After(steps).value;
    var g, c := RunKeeps(steps);
    ListParts(s.m.tables, g.ts, g.b, FlushedTable(s.m), Snapshot(s.m), c, LoggedOps(steps));
    ListedOpen(s.disk.ssts, g.ts, |s.m.tables|);
  }

  ghost predicate CanOpen(ssts: map<nat, Bytes>, picked: seq<TableMeta>) {
    (forall i :: 0 <= i < |picked| ==> picked[i].fileID in ssts && Sorted(TableOf(ssts, picked[i]).pairs)) &&
    forall merged :: IsMerge(PairsOf(TablesOf(ssts, picked)), merged) ==> merged != []
  }

  lemma ListedOpen(ssts: map<nat, Bytes>, ts: seq<Table>, n: nat)
    requires TablesOnDisk(ssts, ts) && Threshold <= n <= |ts| && AllGood(ts[..n])
    ensures CanOpen(ssts, Metas(ts[..n])[..Threshold])
  {
    hide IsMerge, Sorted, FileOf, MetaOf, TableOf, SSTable.AllFit, Writable, TablesOnDisk;
    ListedTables(ssts, ts, n);
    ListedOnDisk(ssts, ts, n);
    var picked := Metas(ts[..n])[..Threshold];
    var us := ts[..n][..Threshold];
    forall i | 0 <= i < Threshold
      ensures picked[i].fileID in ssts && TableOf(ssts, picked[i]) == us[i] && GoodTable(us[i])
    {
      assert TablesOf(ssts, picked)[i] == us[i] && us[i] == ts[..n][i];
    }
    forall merged | IsMerge(PairsOf(TablesOf(ssts, picked)), merged)
      ensures merged != []
    {
      MergeFits(us, merged);
      assert us[0].pairs != [];
    }
  }

  /** One iterator per picked table, each at its first pair, unless a file cannot be opened. */
  method OpenIterators(ssts: map<nat, Bytes>, picked: seq<TableMeta>) returns (iters: seq<SSTableIterator>, ok: bool)
    ensures ok <==> forall j :: 0 <= j < |picked| ==> picked[j].fileID in ssts
    ensures ok ==> |iters| == |picked| && Merge.Distinct(iters) && fresh(iters)
    ensures ok ==> forall j :: 0 <= j < |iters| ==> iters[j].Remaining() == TableOf(ssts, picked[j]).pairs
  {
    hide ReadAll, DataEnd;
    iters := [];
    for i := 0 to |picked|
      invariant |iters| == i && Merge.Distinct(iters) && fresh(iters)
      invariant forall j :: 0 <= j < i ==> picked[j].fileID in ssts
      invariant forall j :: 0 <= j < i ==> iters[j].Remaining() == TableOf(ssts, picked[j]).pairs
    {
      if picked[i].fileID !in ssts {
        return [], false;
      }
      var iter := new SSTableIterator(picked[i].meta, ssts[picked[i].fileID]);
      iters := iters + [iter];
    }
    ok := true;
  }

  /** Opens the picked tables and merges them. */
  method MergeTables(ssts: map<nat, Bytes>, picked: seq<TableMeta>) returns (pairs: seq<Pair>, ok: bool)
    requires forall j :: 0 <= j < |picked| ==> Sorted(TableOf(ssts, picked[j]).pairs)
    ensures ok <==> forall j :: 0 <= j < |picked| ==> picked[j].fileID in ssts
    ensures ok ==> IsMerge(PairsOf(TablesOf(ssts, picked)), pairs)
  {
    hide IsMerge, Sorted, TableOf;
    var iters;
    iters, ok := OpenIterators(ssts, picked);
    pairs := [];
    if ok {
      var builder := DoMerge(iters, PairsOf(TablesOf(ssts, picked)));
      pairs := builder.pairs;
    }
  }
}
