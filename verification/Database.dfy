/** The database object: its fields, and the methods that update them, each proved to take the
    steps of `Engine`. A flush runs to its end here; `Engine` interleaves its stages freely. */
module Database {
  import opened Ops
  import opened Codec
  import opened Pairs
  import opened Wal
  import opened SSTable
  import opened SSTableIO
  import opened Manifest
  import opened Directory
  import opened History
  import opened Engine
  import opened EngineSafety
  import opened Tables
  import opened Merge
  import opened Compaction
  import opened Opening
  import opened CompactedFiles
  import EngineSteps
  import MT = MemTable

  class DB {
    var disk: Disk              // the files under the root directory
    var memTable: MT.MemTable
    var immTable: MT.MemTable?
    var immWal: nat             // the log that the flush of immTable will delete
    var sstables: seq<TableMeta>
    var nextFileID: nat
    var wal: nat                // the active log, by file number
    var nextwal: Option<nat>
    var walFileID: nat

    ghost predicate Valid()
      reads this, memTable, immTable
    {
      memTable.Valid() && (immTable != null ==> immTable.Valid() && immTable != memTable) &&
      wal in disk.wals && (nextwal.Some? ==> nextwal.value in disk.wals) &&
      wal < walFileID && (nextwal.Some? ==> wal < nextwal.value < walFileID) &&
      (immTable != null ==> immTable.pairs != [] && immWal < wal)
    }

    ghost function InMemory(): Mem
      reads this, memTable, immTable
    {
      Mem(memTable.pairs, if immTable == null then None else Some(Imm(immTable.pairs, immWal, None, false)), None,
          sstables, nextFileID, wal, nextwal, walFileID)
    }

    // ---------------------------------------------------------------- opening

    /** `NewDBWithOptions`: load, replay, flush what was replayed, clear the logs, start a new one.
        These are the step model's opening steps when file numbers are left and the replayed table
        is a possible file. */
    constructor (root: Disk)
      ensures Valid() && Running(disk, InMemory()) == FullyOpened(root)
      ensures Room(Opened(root)) ==> Running(disk, InMemory()) == BootUp(Booting(root, Opened(root)))
      ensures fresh(memTable) && immTable == null
    {
      hide Opened, BootUp, LoadTables, FirstFreeID, NextWal, ReplayAll, StoredAll, SortedIds, MT.Size, Room, Finished;
      disk, immTable, immWal := root, null, 0;
      memTable := new MT.MemTable();
      sstables, nextFileID, wal, nextwal, walFileID := [], 1, 0, None, 1;
      new;
      LoadSSTables();
      RecoverFromWAL();
      OpenedIs(root, memTable.pairs);
      FlushRecovered();
      Activate();
      if Room(Opened(root)) {
        OpensFully(root);
      }
    }

    /** What opening makes durable before it clears the logs. */
    method FlushRecovered()
      requires memTable.Valid() && immTable == null
      modifies this
      ensures memTable.Valid() && immTable == null && walFileID == old(walFileID)
      ensures memTable == old(memTable) || fresh(memTable)
      ensures Activated(disk, Recovered(Clearing)) ==
              old(Finished(disk, Recovered(if MT.Size(memTable.pairs) > 0 then ToWrite else Clearing)))
    {
      hide FileOf, MetaOf, Line, MT.Size;
      EngineSteps.NoSize();
      if memTable.size > 0 {
        immTable := memTable;
        memTable := new MT.MemTable();
        Flush(immTable, None);
      }
    }

    /** The state of opening that the fields stand for. */
    ghost function Recovered(stage: Stage): Boot
      reads this, memTable
    {
      Boot(memTable.pairs, sstables, nextFileID, walFileID, stage)
    }

    /** The end of opening: no old logs, a new active one. */
    method Activate()
      requires memTable.Valid() && immTable == null
      modifies this
      ensures memTable == old(memTable) && immTable == null && Valid()
      ensures Running(disk, InMemory()) == old(Activated(disk, Recovered(Clearing)))
    {
      RemoveAllOldWalFiles();
      disk := disk.(wals := disk.wals[walFileID := []]);
      nextwal := None;
      wal := walFileID;
      walFileID := walFileID + 1;
    }

    method LoadSSTables()
      requires sstables == [] && nextFileID == 1
      modifies this`sstables, this`nextFileID
      ensures sstables == LoadTables(disk) && nextFileID == FirstFreeID(disk)
      ensures (exists id :: id in disk.ssts && Load(disk.ssts[id]).Corrupt?) ==> sstables == []
    {
      hide Load, SortedIds, Manifest.Ordered, ScanTables, NextID;
      CorruptEndsLoading(disk);
      var ids, loadedMetas := SortedIds(disk.ssts.Keys), [];
      NothingScanned(disk.ssts);
      assert ids[..0] == [];
      for i := 0 to |ids|
        invariant sstables == [] && ScanTables(disk.ssts, ids[..i]) == Scan(loadedMetas, true)
        invariant nextFileID == NextID(1, loadedMetas)
      {
        var r := LoadTable(disk.ssts[ids[i]]);
        ScanMore(disk.ssts, ids, i);
        if r.Corrupt? {
          ScanStops(disk.ssts, ids, i + 1);
          return;
        }
        if r.Loaded? {
          NextMore(loadedMetas, TableMeta(ids[i], r.meta));
          loadedMetas := loadedMetas + [TableMeta(ids[i], r.meta)];
          if ids[i] >= nextFileID {
            nextFileID := ids[i] + 1;
          }
        }
      }
      assert ids[..|ids|] == ids;
      sstables := ApplyManifestOrder(disk.manifest, loadedMetas);
    }

    method RecoverFromWAL()
      requires memTable.Valid() && memTable.pairs == []
      modifies this`walFileID, memTable
      ensures memTable.Valid() && walFileID == NextWal(disk.wals)
      ensures memTable.pairs == StoredAll([], ReplayAll(disk.wals, SortedIds(disk.wals.Keys)))
    {
      hide Replay, SortedIds, MT.Stored, StoredAll;
      StartsEmpty();
      var walIDs := SortedIds(disk.wals.Keys);
      for i := 0 to |walIDs|
        invariant memTable.Valid() && memTable.pairs == StoredAll([], ReplayAll(disk.wals, walIDs[..i]))
      {
        var curwal := new WAL(disk.wals[walIDs[i]]);
        var recs, ok := curwal.ReplayFile();
        ghost var before := ReplayAll(disk.wals, walIDs[..i]);
        ReplayRecords(recs);
        assert walIDs[..i + 1][..i] == walIDs[..i];
        StoredAllSplit([], before, recs);
      }
      assert walIDs[..|walIDs|] == walIDs;
      walFileID := if |walIDs| > 0 then walIDs[|walIDs| - 1] + 1 else 1;
    }

    /** The callbacks of one replay. */
    method ReplayRecords(recs: seq<Rec>)
      requires memTable.Valid()
      modifies memTable
      ensures memTable.Valid() && memTable.pairs == StoredAll(old(memTable.pairs), recs)
    {
      hide MT.Stored;
      for k := 0 to |recs|
        invariant memTable.Valid() && memTable.pairs == StoredAll(old(memTable.pairs), recs[..k])
      {
        assert recs[..k + 1][..k] == recs[..k];
        memTable.Put(recs[k].key, History.Value(recs[k]));
      }
      assert recs[..|recs|] == recs;
    }

    method RemoveAllOldWalFiles()
      modifies this`disk
      ensures disk == old(disk).(wals := map[])
    {
      hide SortedIds;
      var files := SortedIds(disk.wals.Keys);
      for i := 0 to |files|
        invariant disk == old(disk).(wals := disk.wals)
        invariant forall id :: id in disk.wals ==> id in files[i..]
      {
        disk := disk.(wals := disk.wals - {files[i]});
      }
      assert disk.wals.Keys == {};
    }

    // ---------------------------------------------------------------- flushing

    /** `flush` and `installFlushedTable`: write the table, list it, append the manifest, delete
        the log it came from. */
    method Flush(imm: MT.MemTable, oldWal: Option<nat>)
      requires imm.Valid() && imm.pairs != []
      modifies this`disk, this`sstables, this`nextFileID, this`immTable
      ensures sstables == old(sstables) + [MetaFor(old(nextFileID), imm.pairs)] && nextFileID == old(nextFileID) + 1
      ensures disk.ssts == old(disk.ssts)[old(nextFileID) := FileOf(imm.pairs)]
      ensures disk.manifest == old(disk.manifest) + Line(sstables)
      ensures disk.wals == if oldWal.Some? then old(disk.wals) - {oldWal.value} else old(disk.wals)
      ensures immTable == null
    {
      hide IndexOf, Line, FileOf;
      var fileID := nextFileID;
      nextFileID := nextFileID + 1;
      var file, size, index := WriteSSTable(imm.pairs);
      disk := disk.(ssts := disk.ssts[fileID := file]);
      var minKey, maxKey := imm.pairs[0].key, imm.pairs[|imm.pairs| - 1].key;
      sstables := sstables + [TableMeta(fileID, Meta(minKey, maxKey, size, index))];
      immTable := null;
      var manifest := PersistManifest(disk.manifest, sstables);
      disk := disk.(manifest := manifest);
      if oldWal.Some? {
        disk := disk.(wals := disk.wals - {oldWal.value});
      }
    }

    /** The background flush of the immutable table, to its end. */
    method FlushImmutable()
      requires Valid() && immTable != null
      modifies this
      ensures Valid() && memTable == old(memTable) && immTable == null
      ensures Running(disk, InMemory()) == Flushed(old(disk), old(InMemory()))
    {
      hide FileOf, Line, MetaFor;
      Flush(immTable, Some(immWal));
    }

    /** A full table, and nothing in its way. */
    ghost predicate CouldFreeze()
      reads this, memTable
    {
      MT.Size(memTable.pairs) >= 4096 && immTable == null && nextwal.Some?
    }

    method CheckAndFlush()
      requires Valid()
      modifies this
      ensures Valid() && InMemory() == Engine.CheckAndFlush(old(InMemory())) && disk == old(disk)
      ensures if MT.Size(old(memTable.pairs)) >= 4096 && old(immTable) == null && old(nextwal).Some? then
                immTable == old(memTable) && immTable.pairs == old(memTable.pairs) && immWal == old(wal) &&
                memTable.pairs == [] && wal == old(nextwal).value && nextwal == None
              else
                memTable == old(memTable) && immTable == old(immTable) && wal == old(wal) && nextwal == old(nextwal)
      ensures !CouldFreeze()
      ensures memTable == old(memTable) || fresh(memTable)
      ensures immTable == old(immTable) || immTable == old(memTable)
    {
      if memTable.size >= FlushSize {
        if immTable != null {
          return;
        }
        if nextwal.None? {
          return;
        }
        EngineSteps.NoSize();
        immTable, immWal := memTable, wal;
        memTable := new MT.MemTable();
        wal, nextwal := nextwal.value, None;
      }
    }

    /** `walPreAllocator`, one turn. */
    method PreAllocateWal()
      requires Valid() && nextwal.None? && walFileID < MaxID
      modifies this
      ensures Valid() && memTable == old(memTable) && immTable == old(immTable)
      ensures Running(disk, InMemory()) == Do(Running(old(disk), old(InMemory())), PreAllocate)
      ensures nextwal == Some(old(walFileID)) && walFileID == old(walFileID) + 1
      ensures disk == old(disk).(wals := old(disk).wals[old(walFileID) := []])
    {
      disk := disk.(wals := disk.wals[walFileID := []]);
      nextwal := Some(walFileID);
      walFileID := walFileID + 1;
    }

    // -------------------------------------------------------------- compaction

    /** The input of the next compaction, as iterators over its files yield it. */
    ghost function PickedTables(): seq<Table>
      reads this
    {
      TablesOf(disk.ssts, Picked(sstables))
    }

    /** `doCompaction`: merge the oldest four tables, write the result, install it last, append the
        manifest, remove the merged files. A file that cannot be opened ends it at once; an empty
        merge is not written. */
    method DoCompaction() returns (ok: bool, ghost merged: seq<Pair>)
      requires Valid() && forall i :: 0 <= i < |PickedTables()| ==> Sorted(PickedTables()[i].pairs)
      modifies this`disk, this`sstables, this`nextFileID
      ensures Valid()
      ensures ok <==> forall i :: 0 <= i < |old(Picked(sstables))| ==> old(Picked(sstables))[i].fileID in old(disk.ssts)
      ensures !ok || |old(sstables)| < Threshold ==>
                disk == old(disk) && sstables == old(sstables) && nextFileID == old(nextFileID)
      ensures ok && |old(sstables)| >= Threshold ==>
                IsMerge(PairsOf(old(PickedTables())), merged) &&
                Running(disk, InMemory()) == Compacted(old(disk), old(InMemory()), merged)
    {
      hide FileOf, IsMerge, Line, Kept, IdSet, Sorted, TableOf, IndexOf;
      var oldSSTs := Picked(sstables);
      if |oldSSTs| == 0 {
        return true, [];
      }
      forall j | 0 <= j < |oldSSTs|
        ensures Sorted(TableOf(disk.ssts, oldSSTs[j]).pairs)
      {
        assert PickedTables()[j] == TableOf(disk.ssts, oldSSTs[j]);
      }
      var pairs;
      pairs, ok := MergeTables(disk.ssts, oldSSTs);
      merged := pairs;
      if !ok {
        return;
      }
      var newSST := None;
      if |pairs| > 0 {
        var newFileID := nextFileID;
        nextFileID := nextFileID + 1;
        var file, size, index := WriteSSTable(pairs);
        disk := disk.(ssts := disk.ssts[newFileID := file]);
        newSST := Some(TableMeta(newFileID, Meta(pairs[0].key, pairs[|pairs| - 1].key, size, index)));
      }
      sstables := InstallCompacted(sstables, newSST, oldSSTs);
      var manifest := PersistManifest(disk.manifest, sstables);
      disk := disk.(manifest := manifest, ssts := disk.ssts - IdSet(oldSSTs));
      ghost var kept := Kept(old(sstables), IdSet(oldSSTs));
      assert kept + [] == kept;
    }

    // ------------------------------------------------------------ reading, writing

    method Put(key: Bytes, val: Bytes)
      requires Valid()
      modifies this, memTable
      ensures Valid() && Running(disk, InMemory()) == Logged(old(disk), old(InMemory()), Rec.Put(key, val))
      ensures !CouldFreeze()
      ensures memTable == old(memTable) || fresh(memTable)
      ensures immTable == old(immTable) || immTable == old(memTable)
    {
      var log := new WAL(disk.wals[wal]);
      log.AppendPut(key, val);
      disk := disk.(wals := disk.wals[wal := log.file]);
      memTable.Put(key, Some(val));
      CheckAndFlush();
    }

    method Delete(key: Bytes)
      requires Valid()
      modifies this, memTable
      ensures Valid() && Running(disk, InMemory()) == Logged(old(disk), old(InMemory()), Rec.Del(key))
      ensures !CouldFreeze()
      ensures memTable == old(memTable) || fresh(memTable)
      ensures immTable == old(immTable) || immTable == old(memTable)
    {
      var log := new WAL(disk.wals[wal]);
      log.AppendDelete(key);
      disk := disk.(wals := disk.wals[wal := log.file]);
      memTable.Put(key, None);
      CheckAndFlush();
    }

    method Get(key: Bytes) returns (val: Option<Bytes>)
      requires Valid()
      ensures val == Engine.Get(disk, InMemory(), key)
    {
      hide FromTables, MT.Find;
      var v, ok := memTable.Get(key);
      if ok {
        return v;
      }
      if immTable != null {
        v, ok := immTable.Get(key);
        if ok {
          return v;
        }
      }
      val := GetFromTables(key);
    }

    /** The reverse loop of `Get`. */
    method GetFromTables(key: Bytes) returns (val: Option<Bytes>)
      ensures val == Read(disk.ssts, sstables, key)
    {
      hide ReadVal, Less;
      var i := |sstables|;
      assert sstables[..i] == sstables;
      while i > 0
        invariant 0 <= i <= |sstables|
        invariant FromTables(disk.ssts, sstables, key) == FromTables(disk.ssts, sstables[..i], key)
      {
        i := i - 1;
        var t := sstables[i];
        assert sstables[..i + 1][..i] == sstables[..i];
        if !Less(key, t.meta.minKey) && !Less(t.meta.maxKey, key) && t.fileID in disk.ssts {
          var v, ok := ReadValFromSSTable(t.meta, disk.ssts[t.fileID], key);
          if ok {
            return v;
          }
        }
      }
      val := None;
    }
  }
}
