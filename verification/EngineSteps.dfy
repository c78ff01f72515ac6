/** Every step of the running engine, and every crash, keeps the invariant. */
module EngineSteps {
  import opened Ops
  import opened Pairs
  import opened Wal
  import opened SSTable
  import opened Manifest
  import opened Directory
  import opened MemTable
  import opened History
  import opened Tables
  import opened Merge
  import opened Compaction
  import opened Engine
  import opened EngineDisk
  import opened EngineInv

  // ------------------------------------------------------------------ logging

  lemma ReplayFull(rs: seq<Rec>)
    requires AllFitting(rs)
    ensures Wal.AllFit(rs) && Replay(EncodeAll(rs)).recs == rs
  {
    assert EncodeAll(rs)[..|EncodeAll(rs)|] == EncodeAll(rs);
    TornTail(rs, |EncodeAll(rs)|);
  }

  lemma {:induction false} RecsSplit(a: seq<Seg>, b: seq<Seg>)
    ensures Recs(a + b) == Recs(a) + Recs(b)
  {
    if b == [] {
      assert a + b == a;
    } else {
      var n := |b| - 1;
      RecsSplit(a, b[..n]);
      RecsMore(a + b[..n], b[n]);
      RecsMore(b[..n], b[n]);
      assert b == b[..n] + [b[n]] && a + b == (a + b[..n]) + [b[n]];
    }
  }

  lemma SpareIsEmpty(spare: Option<nat>)
    ensures Recs(SegFor(spare, [])) == []
  {
    if spare.Some? {
      RecsMore([], Seg(spare.value, []));
      assert [] + [Seg(spare.value, [])] == [Seg(spare.value, [])];
    }
  }

  lemma RecsActive(pre: seq<Seg>, id: nat, recs: seq<Rec>, r: Rec, spare: Option<nat>)
    ensures Recs(pre + [Seg(id, recs + [r])] + SegFor(spare, [])) ==
            Recs(pre + [Seg(id, recs)] + SegFor(spare, [])) + [r]
  {
    hide SegFor, Recs;
    var post := SegFor(spare, []);
    RecsSplit(pre + [Seg(id, recs)], post);
    RecsSplit(pre + [Seg(id, recs + [r])], post);
    RecsMore(pre, Seg(id, recs));
    RecsMore(pre, Seg(id, recs + [r]));
    SpareIsEmpty(spare);
    assert Recs(pre) + (recs + [r]) == Recs(pre) + recs + [r];
  }

  lemma LoggedBytes(recs: seq<Rec>, r: Rec)
    requires AllFitting(recs) && Fitting(r)
    ensures EncodeAll(recs) + Encode(r) == EncodeAll(recs + [r])
    ensures Replay(EncodeAll(recs) + Encode(r)).recs == recs + [r]
  {
    hide Replay, Encode, Fitting;
    EncodeAllAppend(recs, r);
    ReplayFull(recs + [r]);
  }

  /** In the list of logs every id is below the next, so no log is another. */
  lemma LogsApart(wals: map<nat, Bytes>, ws: seq<Seg>, i: nat, j: nat)
    requires WalsOnDisk(wals, ws) && i < j < |ws|
    ensures ws[i].id < ws[j].id
  {
    assert SegIds(ws)[i] < SegIds(ws)[j];
  }

  /** Appending a record to the active log. */
  lemma LogsAppend(wals: map<nat, Bytes>, ws: seq<Seg>, tail: Option<nat>, imm: Option<nat>, wal: nat,
                   spare: Option<nat>, walFileID: nat, a: nat, c: Cut, ops: seq<Rec>, r: Rec) returns (ws': seq<Seg>)
    requires LogsOK(wals, ws, tail, imm, wal, spare, walFileID, a, c, ops) && AllFitting(ops) && Fitting(r)
    ensures LogsOK(wals[wal := wals[wal] + Encode(r)], ws', tail, imm, wal, spare, walFileID, a, c, ops + [r])
  {
    hide WalsOnDisk, Replay, Encode, EncodeAll, Recs, AllFitting, Fitting, SegFor;
    var all, recs := ops + [r], ops[c.r..];
    var pre := SegFor(tail, ops[a..c.q]) + SegFor(imm, ops[c.q..c.r]);
    var k := |pre|;
    ws' := ws[k := Seg(wal, recs + [r])];
    FittingFrom(ops, c.r);
    LoggedBytes(recs, r);
    WalWritten(wals, ws, k, wals[wal] + Encode(r), recs + [r]);
    assert all[c.r..] == recs + [r] && all[a..] == ops[a..] + [r];
    assert all[a..c.q] == ops[a..c.q] && all[c.q..c.r] == ops[c.q..c.r];
    assert ws' == pre + [Seg(wal, recs + [r])] + SegFor(spare, []);
    RecsActive(pre, wal, recs, r, spare);
    SpareApart(wals, ws, k, spare);
  }

  lemma SpareApart(wals: map<nat, Bytes>, ws: seq<Seg>, k: nat, spare: Option<nat>)
    requires WalsOnDisk(wals, ws) && k < |ws| && ws[k + 1..] == SegFor(spare, [])
    ensures spare.Some? ==> spare.value != ws[k].id
  {
    if spare.Some? {
      assert ws[k + 1] == ws[k + 1..][0];
      LogsApart(wals, ws, k, k + 1);
    }
  }

  lemma MemAppend(mem: seq<Pair>, imm: Option<seq<Pair>>, c: Cut, ops: seq<Rec>, r: Rec)
    requires MemOK(mem, imm, c, ops)
    ensures MemOK(Stored(mem, r.key, Value(r)), imm, c, ops + [r])
  {
    hide OpsMap, ToMap, Sorted, Stored;
    assert (ops + [r])[c.r..] == ops[c.r..] + [r] && (ops + [r])[c.q..c.r] == ops[c.q..c.r];
    StoredIs(mem, r.key, Value(r));
    OpsMore(ops[c.r..], r);
  }

  lemma TablesAppend(disk: Disk, g: Ghost, tables: seq<TableMeta>, flushed: seq<Table>,
                     snapshot: Option<seq<TableMeta>>, c: Cut, ops: seq<Rec>, r: Rec)
    requires TablesOK(disk, g.ts, g.listed, g.b, ops) && ListOK(tables, g.ts, g.b, flushed, snapshot, c, ops)
    ensures TablesOK(disk, g.ts, g.listed, g.b, ops + [r]) && ListOK(tables, g.ts, g.b, flushed, snapshot, c, ops + [r])
  {
    hide TablesOnDisk, ManifestLists, Overlay, OpsMap, AllGood, Metas;
    assert (ops + [r])[..g.b] == ops[..g.b] && (ops + [r])[..c.q] == ops[..c.q];
  }

  /** The record in the log and in the memory table. */
  lemma LoggedKeeps(disk: Disk, m: Mem, g: Ghost, c: Cut, ops: seq<Rec>, r: Rec) returns (g': Ghost)
    requires RunningOK(disk, m, g, c, ops) && AllFitting(ops) && Fitting(r) && m.wal in disk.wals
    ensures RunningOK(Append(disk, m.wal, Encode(r)), m.(mem := Stored(m.mem, r.key, Value(r))), g', c, ops + [r])
  {
    hide LogsOK, MemOK, TablesOK, ListOK, FilesOK, Stored, Encode, Fitting, AllFitting;
    var ws' := LogsAppend(disk.wals, g.ws, TailWal(m), ImmWal(m), m.wal, m.nextwal, m.walFileID, g.a, c, ops, r);
    MemAppend(m.mem, ImmPairs(m), c, ops, r);
    TablesAppend(disk, g, m.tables, FlushedTable(m), Snapshot(m), c, ops, r);
    g' := g.(ws := ws');
    SameTables(disk, Append(disk, m.wal, Encode(r)), g.ts, g.listed, g.b, ops + [r]);
  }

  lemma SameTables(disk: Disk, disk': Disk, ts: seq<Table>, listed: nat, b: nat, ops: seq<Rec>)
    requires TablesOK(disk, ts, listed, b, ops) && disk'.ssts == disk.ssts && disk'.manifest == disk.manifest
    ensures TablesOK(disk', ts, listed, b, ops)
  {
    hide TablesOnDisk, ManifestLists, Overlay, OpsMap;
  }

  /** The active log becomes that of the immutable table, the spare one takes over. */
  lemma LogsFreeze(wals: map<nat, Bytes>, ws: seq<Seg>, tail: Option<nat>, wal: nat, spare: nat, walFileID: nat,
                   a: nat, c: Cut, ops: seq<Rec>)
    requires LogsOK(wals, ws, tail, None, wal, Some(spare), walFileID, a, c, ops) && c.q == c.r
    ensures LogsOK(wals, ws, tail, Some(wal), spare, None, walFileID, a, Cut(c.q, |ops|), ops)
  {
    hide WalsOnDisk, Recs;
    NoRecs();
    assert ops[|ops|..] == [] && ops[c.q..|ops|] == ops[c.r..];
  }

  lemma MemFreeze(mem: seq<Pair>, c: Cut, ops: seq<Rec>)
    requires MemOK(mem, None, c, ops) && mem != [] && c.q == c.r
    ensures MemOK([], Some(mem), Cut(c.q, |ops|), ops)
  {
    hide ToMap, OpsMap, Sorted, HoldsOps;
    HoldsNothing();
    assert ops[|ops|..] == [] && ops[c.q..|ops|] == ops[c.r..];
  }

  lemma ListFreeze(tables: seq<TableMeta>, ts: seq<Table>, b: nat, snapshot: Option<seq<TableMeta>>, c: Cut, ops: seq<Rec>)
    requires ListOK(tables, ts, b, [], snapshot, c, ops)
    ensures ListOK(tables, ts, b, [], snapshot, Cut(c.q, |ops|), ops)
  {
    hide Overlay, OpsMap, AllGood, Metas;
  }

  lemma NoSize()
    ensures Size([]) == 0
  {
  }

  /** The full table becomes immutable. */
  lemma FreezeKeeps(disk: Disk, m: Mem, g: Ghost, c: Cut, ops: seq<Rec>) returns (c': Cut)
    requires RunningOK(disk, m, g, c, ops)
    ensures RunningOK(disk, CheckAndFlush(m), g, c', ops)
  {
    hide LogsOK, MemOK, TablesOK, ListOK, FilesOK, Size;
    c' := c;
    if Size(m.mem) >= FlushSize && m.imm.None? && m.nextwal.Some? {
      NoSize();
      LogsFreeze(disk.wals, g.ws, TailWal(m), m.wal, m.nextwal.value, m.walFileID, g.a, c, ops);
      MemFreeze(m.mem, c, ops);
      ListFreeze(m.tables, g.ts, g.b, Snapshot(m), c, ops);
      c' := Cut(c.q, |ops|);
    }
  }

  lemma LogKeeps(disk: Disk, m: Mem, g: Ghost, c: Cut, ops: seq<Rec>, r: Rec) returns (g': Ghost, c': Cut)
    requires RunningOK(disk, m, g, c, ops) && AllFitting(ops) && Enabled(Running(disk, m), Log(r))
    ensures Runs(Do(Running(disk, m), Log(r)), g', c', ops + [r])
  {
    hide RunningOK, CheckAndFlush, Stored, Encode, Fitting, AllFitting;
    g' := LoggedKeeps(disk, m, g, c, ops, r);
    c' := FreezeKeeps(Append(disk, m.wal, Encode(r)), m.(mem := Stored(m.mem, r.key, Value(r))), g', c, ops + [r]);
  }

  // --------------------------------------------------------- logs and flushing

  lemma LogsSpare(wals: map<nat, Bytes>, ws: seq<Seg>, tail: Option<nat>, imm: Option<nat>, wal: nat, walFileID: nat,
                  a: nat, c: Cut, ops: seq<Rec>) returns (ws': seq<Seg>)
    requires LogsOK(wals, ws, tail, imm, wal, None, walFileID, a, c, ops)
    ensures LogsOK(wals[walFileID := []], ws', tail, imm, wal, Some(walFileID), walFileID + 1, a, c, ops)
  {
    hide WalsOnDisk, Recs, EncodeAll;
    WalAdded(wals, ws, walFileID);
    ws' := ws + [Seg(walFileID, [])];
    assert ws[|SegFor(tail, ops[a..c.q]) + SegFor(imm, ops[c.q..c.r])|].id == wal;
  }

  lemma PreAllocateKeeps(disk: Disk, m: Mem, g: Ghost, c: Cut, ops: seq<Rec>) returns (g': Ghost)
    requires RunningOK(disk, m, g, c, ops) && Enabled(Running(disk, m), PreAllocate)
    ensures Runs(Do(Running(disk, m), PreAllocate), g', c, ops)
  {
    hide LogsOK, MemOK, TablesOK, ListOK, FilesOK;
    var ws' := LogsSpare(disk.wals, g.ws, TailWal(m), ImmWal(m), m.wal, m.walFileID, g.a, c, ops);
    g' := g.(ws := ws');
    SameTables(disk, Do(Running(disk, m), PreAllocate).disk, g.ts, g.listed, g.b, ops);
  }

  lemma FilesReserve(ts: seq<Table>, listed: nat, next: nat)
    requires FilesOK(ts, listed, next, None, false) && next < MaxID
    ensures FilesOK(ts, listed, next + 1, Some(next), false)
  {
  }

  lemma ReserveKeeps(disk: Disk, m: Mem, g: Ghost, c: Cut, ops: seq<Rec>)
    requires RunningOK(disk, m, g, c, ops) && Enabled(Running(disk, m), Reserve)
    ensures Runs(Do(Running(disk, m), Reserve), g, c, ops)
  {
    hide LogsOK, MemOK, TablesOK, ListOK, FilesOK, Opened, CheckAndFlush, SortedIds, Line, MetaFor, Stored, Encode, FileOf;
    WrittenHasFile(g.ts, g.listed, m.nextFileID, ImmFile(m), ImmWritten(m));
    FilesReserve(g.ts, g.listed, m.nextFileID);
  }

  lemma WrittenHasFile(ts: seq<Table>, listed: nat, next: nat, file: Option<nat>, written: bool)
    requires FilesOK(ts, listed, next, file, written)
    ensures written ==> file.Some?
  {
  }

  /** Writing the flushed table. */
  lemma TablesFlush(disk: Disk, g: Ghost, tables: seq<TableMeta>, t: Table,
                    snapshot: Option<seq<TableMeta>>, c: Cut, ops: seq<Rec>, next: nat)
    requires TablesOK(disk, g.ts, g.listed, g.b, ops) && ListOK(tables, g.ts, g.b, [], snapshot, c, ops)
    requires FilesOK(g.ts, g.listed, next, Some(t.id), false) && AllFitting(ops)
    requires HoldsOps(t.pairs, ops[c.q..c.r]) && t.pairs != [] && Writable(t.pairs)
    ensures var disk' := disk.(ssts := disk.ssts[t.id := FileOf(t.pairs)]);
            TablesOK(disk', g.ts + [t], g.listed, c.r, ops) &&
            ListOK(tables, g.ts + [t], c.r, [t], snapshot, c, ops) && FilesOK(g.ts + [t], g.listed, next, Some(t.id), true)
  {
    hide TablesOnDisk, ManifestLists, Overlay, OpsMap, ToMap, Sorted, MetaOf, FileOf, SSTable.AllFit, AllFitting, Writable;
    FittingPart(ops, c.q, c.r);
    HeldFits(t.pairs, ops[c.q..c.r]);
    TableAdded(disk.ssts, g.ts, t);
    StillListed(disk.manifest, g.ts, g.listed, t);
    OverlaySplit(g.ts, [t]);
    OverlayOne(t);
    OpsSplit(ops[..c.q], ops[c.q..c.r]);
    assert ops[..c.q] + ops[c.q..c.r] == ops[..c.r];
    assert g.ts[..|tables|] == g.ts && (g.ts + [t])[..|tables|] == g.ts;
    assert Metas(g.ts + [t])[..|tables|] == Metas(g.ts)[..|tables|];
  }

  lemma FittingPart(ops: seq<Rec>, a: nat, b: nat)
    requires AllFitting(ops) && a <= b <= |ops|
    ensures AllFitting(ops[a..b])
  {
    hide Fitting;
  }

  lemma WriteTableKeeps(disk: Disk, m: Mem, g: Ghost, c: Cut, ops: seq<Rec>) returns (g': Ghost)
    requires RunningOK(disk, m, g, c, ops) && AllFitting(ops) && Enabled(Running(disk, m), WriteTable)
    ensures Runs(Do(Running(disk, m), WriteTable), g', c, ops)
  {
    hide LogsOK, TablesOK, ListOK, FilesOK, HoldsOps, Writable, AllFitting, FileOf,
      Opened, CheckAndFlush, SortedIds, Line, MetaFor, Stored, Encode;
    var t := Table(m.imm.value.file.value, m.imm.value.pairs);
    TablesFlush(disk, g, m.tables, t, Snapshot(m), c, ops, m.nextFileID);
    g' := g.(ts := g.ts + [t], b := c.r);
  }

  lemma ListInstall(tables: seq<TableMeta>, ts: seq<Table>, b: nat, t: Table, c: Cut, ops: seq<Rec>)
    requires ListOK(tables, ts, b, [t], None, c, ops) && t.pairs != [] && Overlay(ts) == OpsMap(ops[..b])
    ensures var after := tables + [MetaFor(t.id, t.pairs)];
            ListOK(after, ts, b, [], Some(after), Cut(c.r, c.r), ops)
  {
    hide Overlay, OpsMap, MetaOf, GoodTable;
    var n := |tables|;
    assert ts[n] == t && ts[..n + 1] == ts;
    assert tables + [MetaFor(t.id, t.pairs)] == Metas(ts)[..n + 1];
  }

  lemma FilesInstall(ts: seq<Table>, listed: nat, next: nat, file: Option<nat>)
    requires FilesOK(ts, listed, next, file, true)
    ensures FilesOK(ts, listed, next, None, false)
  {
  }

  lemma LogsInstall(wals: map<nat, Bytes>, ws: seq<Seg>, imm: nat, wal: nat, spare: Option<nat>, walFileID: nat,
                    a: nat, c: Cut, ops: seq<Rec>)
    requires LogsOK(wals, ws, None, Some(imm), wal, spare, walFileID, a, c, ops) && a == c.q
    ensures LogsOK(wals, ws, Some(imm), None, wal, spare, walFileID, a, Cut(c.r, c.r), ops)
  {
    hide WalsOnDisk, Recs, EncodeAll;
  }

  lemma MemInstall(mem: seq<Pair>, imm: Option<seq<Pair>>, c: Cut, ops: seq<Rec>)
    requires MemOK(mem, imm, c, ops)
    ensures MemOK(mem, None, Cut(c.r, c.r), ops)
  {
    hide HoldsOps;
  }

  lemma InstallKeeps(disk: Disk, m: Mem, g: Ghost, c: Cut, ops: seq<Rec>) returns (c': Cut)
    requires RunningOK(disk, m, g, c, ops) && Enabled(Running(disk, m), Install)
    ensures Runs(Do(Running(disk, m), Install), g, c', ops)
  {
    hide LogsOK, MemOK, ListOK, FilesOK, MetaFor, TablesOnDisk, ManifestLists, Overlay, OpsMap;
    var imm := m.imm.value;
    var t := Table(imm.file.value, imm.pairs);
    c' := Cut(c.r, c.r);
    ListInstall(m.tables, g.ts, g.b, t, c, ops);
    FilesInstall(g.ts, g.listed, m.nextFileID, ImmFile(m));
    LogsInstall(disk.wals, g.ws, imm.wal, m.wal, m.nextwal, m.walFileID, g.a, c, ops);
    MemInstall(m.mem, ImmPairs(m), c, ops);
  }

  lemma TablesListed(disk: Disk, g: Ghost, tables: seq<TableMeta>, flushed: seq<Table>, c: Cut, ops: seq<Rec>)
    requires TablesOK(disk, g.ts, g.listed, g.b, ops) && ListOK(tables, g.ts, g.b, flushed, Some(tables), c, ops)
    requires |flushed| <= 1
    ensures TablesOK(disk.(manifest := disk.manifest + Line(tables)), g.ts, |tables|, g.b, ops)
  {
    hide TablesOnDisk, Overlay, OpsMap, Metas, AllGood, Line;
    assert g.ts[|tables|..] == flushed;
    NowListed(disk.manifest, g.ts, |tables|);
  }

  /** Listing more tables leaves a reserved id new. */
  lemma FilesListed(ts: seq<Table>, listed: nat, n: nat, next: nat, file: Option<nat>, written: bool, flushed: seq<Table>)
    requires FilesOK(ts, listed, next, file, written) && n <= |ts| && ts[n..] == flushed && (flushed == [] || written)
    ensures FilesOK(ts, n, next, file, written)
  {
    assert |ts| - n == |flushed|;
  }

  lemma AppendManifestKeeps(disk: Disk, m: Mem, g: Ghost, c: Cut, ops: seq<Rec>) returns (g': Ghost)
    requires RunningOK(disk, m, g, c, ops) && Enabled(Running(disk, m), AppendManifest)
    ensures Runs(Do(Running(disk, m), AppendManifest), g', c, ops)
  {
    hide LogsOK, MemOK, TablesOK, FilesOK, Line, Overlay, OpsMap, AllGood, Metas;
    TablesListed(disk, g, m.tables, FlushedTable(m), c, ops);
    assert g.ts[|m.tables|..] == FlushedTable(m);
    FilesListed(g.ts, g.listed, |m.tables|, m.nextFileID, ImmFile(m), ImmWritten(m), FlushedTable(m));
    g' := g.(listed := |m.tables|);
  }

  /** The log of a finished flush is the oldest one. */
  lemma LogsDrop(wals: map<nat, Bytes>, ws: seq<Seg>, tail: nat, imm: Option<nat>, wal: nat, spare: Option<nat>,
                 walFileID: nat, a: nat, c: Cut, ops: seq<Rec>)
    requires LogsOK(wals, ws, Some(tail), imm, wal, spare, walFileID, a, c, ops)
    ensures ws != [] && LogsOK(wals - {tail}, ws[1..], None, imm, wal, spare, walFileID, c.q, c, ops)
  {
    hide WalsOnDisk, Recs, EncodeAll;
    WalDropped(wals, ws);
    var k := 1 + |SegFor(imm, ops[c.q..c.r])|;
    assert ws[0] == Seg(tail, ops[a..c.q]) && ws[k].id == wal;
    assert Recs(ws[1..]) == ops[a..][c.q - a..] == ops[c.q..];
    LogsApart(wals, ws, 0, k);
    if spare.Some? {
      assert ws[k + 1].id == spare.value;
      LogsApart(wals, ws, 0, k + 1);
    }
    assert ws[1..] == SegFor(imm, ops[c.q..c.r]) + [Seg(wal, ops[c.r..])] + SegFor(spare, []);
    assert ops[c.q..c.q] == [];
  }

  lemma RemoveOldWalKeeps(disk: Disk, m: Mem, g: Ghost, c: Cut, ops: seq<Rec>) returns (g': Ghost)
    requires RunningOK(disk, m, g, c, ops) && Enabled(Running(disk, m), RemoveOldWal)
    ensures Runs(Do(Running(disk, m), RemoveOldWal), g', c, ops)
  {
    hide LogsOK, MemOK, TablesOK, FilesOK, Overlay, OpsMap, AllGood, Metas;
    LogsDrop(disk.wals, g.ws, m.tail.value.wal, ImmWal(m), m.wal, m.nextwal, m.walFileID, g.a, c, ops);
    g' := g.(ws := g.ws[1..], a := c.q);
    SameTables(disk, Do(Running(disk, m), RemoveOldWal).disk, g.ts, g.listed, g.b, ops);
  }

  // --------------------------------------------------------------- compaction

  /** The tables of the list after a compaction. */
  ghost function AfterCompaction(list: seq<Table>, t: Table): seq<Table>
    requires |list| >= Threshold
  {
    list[Threshold..] + [t]
  }

  lemma MergedIsGood(list: seq<Table>, t: Table)
    requires AllGood(list) && |list| >= Threshold && t.id < MaxID && t.pairs != [] && Writable(t.pairs)
    requires IsMerge(PairsOf(list[..Threshold]), t.pairs)
    ensures GoodTable(t)
  {
    hide IsMerge, Sorted, SSTable.AllFit, Writable;
    forall i | 0 <= i < Threshold
      ensures Sorted(list[..Threshold][i].pairs) && SSTable.AllFit(list[..Threshold][i].pairs)
    {
      assert GoodTable(list[i]);
    }
    MergeFits(list[..Threshold], t.pairs);
  }

  /** A harmless compaction leaves what the tables say as it was. */
  lemma OverlayStays(list: seq<Table>, flushed: seq<Table>, t: Table)
    requires |list| >= Threshold && IsMerge(PairsOf(list[..Threshold]), t.pairs) && Harmless(list, Threshold)
    ensures Overlay(AfterCompaction(list, t)) == Overlay(list)
    ensures Overlay(AfterCompaction(list, t) + flushed) == Overlay(list + flushed)
  {
    hide Overlay, IsMerge, Harmless, SameLookups;
    LastPlacement(list, Threshold, t);
    OverlaySplit(list, flushed);
    OverlaySplit(AfterCompaction(list, t), flushed);
  }

  /** The list of descriptions after a compaction describes the tables after it. */
  lemma KeptMetas(list: seq<Table>, t: Table)
    requires AllGood(list) && DistinctIds(list) && |list| >= Threshold && GoodTable(t)
    ensures AllGood(AfterCompaction(list, t))
    ensures Kept(Metas(list), IdSet(Metas(list)[..Threshold])) + [MetaFor(t.id, t.pairs)] == Metas(AfterCompaction(list, t))
  {
    DistinctMetas(list);
    hide Kept, IdSet, MetaOf, GoodTable, Manifest.Distinct, DistinctIds;
    KeptIsRest(Metas(list), Threshold);
    RestMetas(list, t);
  }

  lemma RestMetas(list: seq<Table>, t: Table)
    requires AllGood(list) && |list| >= Threshold && GoodTable(t) && t.pairs != []
    ensures AllGood(AfterCompaction(list, t))
    ensures Metas(list)[Threshold..] + [MetaFor(t.id, t.pairs)] == Metas(AfterCompaction(list, t))
  {
    hide MetaOf, GoodTable;
  }

  /** The files and the manifest after a compaction, whether or not a flushed table waits to be
      installed. */
  lemma TablesCompact(disk: Disk, list: seq<Table>, flushed: seq<Table>, listed: nat, t: Table)
    requires TablesOnDisk(disk.ssts, list + flushed) && ManifestLists(disk.manifest, list + flushed, listed)
    requires |list| >= Threshold && |flushed| <= 1 && GoodTable(t) && t.id !in TableIds(list + flushed)
    ensures AllGood(list) && DistinctIds(list)
    ensures var us := AfterCompaction(list, t);
            AllGood(us) &&
            TablesOnDisk(disk.ssts[t.id := FileOf(t.pairs)] - IdSet(Metas(list)[..Threshold]), us + flushed) &&
            ManifestLists(disk.manifest + Line(Metas(us)), us + flushed, |us|)
  {
    hide FileOf, GoodTable, IdSet, Line, LastLine, Decimals, MetaOf;
    var ts, n, us := list + flushed, |list|, AfterCompaction(list, t);
    assert list == ts[..n];
    DistinctPart(ts, n);
    TablesSwapped(disk.ssts, ts, Threshold, n, t);
    assert ts[Threshold..n] + [t] + ts[n..] == us + flushed;
    assert Metas(ts)[..Threshold] == Metas(list)[..Threshold];
    assert (us + flushed)[|us|..] == flushed;
    NowListed(disk.manifest, us + flushed, |us|);
    assert Metas(us + flushed)[..|us|] == Metas(us);
  }

  lemma DistinctPart(ts: seq<Table>, n: nat)
    requires AllGood(ts) && DistinctIds(ts) && n <= |ts|
    ensures AllGood(ts[..n]) && DistinctIds(ts[..n])
  {
    hide GoodTable;
  }

  lemma FilesCompact(list: seq<Table>, flushed: seq<Table>, listed: nat, next: nat, file: Option<nat>, t: Table)
    requires FilesOK(list + flushed, listed, next, file, flushed != []) && |list| >= Threshold && t.id == next
    requires |flushed| <= 1
    ensures var us := AfterCompaction(list, t); FilesOK(us + flushed, |us|, next + 1, file, flushed != [])
    ensures t.id !in TableIds(list + flushed)
  {
    var ts, us := list + flushed, AfterCompaction(list, t);
    forall i | 0 <= i < |us + flushed|
      ensures (us + flushed)[i] == if i < |us| - 1 then ts[i + Threshold]
                                   else if i == |us| - 1 then t else ts[|list| + (i - |us|)]
    {
    }
    if file.Some? && flushed == [] {
      NewAmong(ts, file.value);
    }
  }

  lemma ListCompact(list: seq<Table>, flushed: seq<Table>, us: seq<Table>, b: nat, c: Cut, ops: seq<Rec>)
    requires AllGood(list) && AllGood(us) && AllGood(us + flushed) && AllGood(list + flushed)
    requires ListOK(Metas(list), list + flushed, b, flushed, None, c, ops) && Overlay(us) == Overlay(list)
    ensures ListOK(Metas(us), us + flushed, b, flushed, None, c, ops)
  {
    hide Overlay, OpsMap, GoodTable, MetaOf;
    assert (list + flushed)[..|list|] == list && (us + flushed)[..|us|] == us;
    assert Metas(us + flushed)[..|us|] == Metas(us);
  }

  /** The list of the running engine, taken apart. */
  lemma ListParts(tables: seq<TableMeta>, ts: seq<Table>, b: nat, flushed: seq<Table>,
                  snapshot: Option<seq<TableMeta>>, c: Cut, ops: seq<Rec>)
    requires ListOK(tables, ts, b, flushed, snapshot, c, ops)
    ensures AllGood(ts) && |tables| <= |ts| && AllGood(ts[..|tables|])
    ensures tables == Metas(ts[..|tables|]) && ts == ts[..|tables|] + flushed
  {
    hide Overlay, OpsMap, GoodTable, MetaOf;
  }

  lemma CompactKeeps(disk: Disk, m: Mem, g: Ghost, c: Cut, ops: seq<Rec>, merged: seq<Pair>) returns (g': Ghost)
    requires |m.tables| >= Threshold && Harmless(TablesOf(disk.ssts, m.tables), Threshold)
    requires RunningOK(disk, m, g, c, ops) && Enabled(Running(disk, m), Compact(merged))
    ensures Runs(Do(Running(disk, m), Compact(merged)), g', c, ops)
  {
    hide LogsOK, MemOK, TablesOnDisk, ManifestLists, FilesOK, ListOK, Overlay, OpsMap, IsMerge, Harmless, GoodTable,
      Writable, FileOf, Line, Kept, IdSet, MetaFor, Metas, AllGood, DistinctIds, TablesOf, AfterCompaction;
    ListParts(m.tables, g.ts, g.b, FlushedTable(m), Snapshot(m), c, ops);
    WrittenHasFile(g.ts, g.listed, m.nextFileID, ImmFile(m), ImmWritten(m));
    ListedTables(disk.ssts, g.ts, |m.tables|);
    g' := CompactedOK(disk, m, g, c, ops, g.ts[..|m.tables|], FlushedTable(m), Table(m.nextFileID, merged));
  }

  lemma CompactedOK(disk: Disk, m: Mem, g: Ghost, c: Cut, ops: seq<Rec>, list: seq<Table>, flushed: seq<Table>, t: Table)
    returns (g': Ghost)
    requires RunningOK(disk, m, g, c, ops) && m.tail.None? && |list| >= Threshold && Harmless(list, Threshold)
    requires AllGood(list) && m.tables == Metas(list) && flushed == FlushedTable(m) && g.ts == list + flushed
    requires ImmWritten(m) <==> flushed != []
    requires t.id == m.nextFileID < MaxID && t.pairs != [] && Writable(t.pairs)
    requires IsMerge(PairsOf(list[..Threshold]), t.pairs)
    ensures Runs(Compacted(disk, m, t.pairs), g', c, ops)
  {
    hide LogsOK, MemOK, TablesOnDisk, ManifestLists, FilesOK, ListOK, Overlay, OpsMap, IsMerge, Harmless, GoodTable,
      Writable, FileOf, Line, Kept, IdSet, MetaFor, Metas, AllGood, DistinctIds, AfterCompaction;
    var us := AfterCompaction(list, t);
    MergedIsGood(list, t);
    FilesCompact(list, flushed, g.listed, m.nextFileID, ImmFile(m), t);
    TablesCompact(disk, list, flushed, g.listed, t);
    OverlayStays(list, flushed, t);
    KeptMetas(list, t);
    AllGoodOnDisk(disk.ssts, g.ts);
    AllGoodOnDisk(disk.ssts[t.id := FileOf(t.pairs)] - IdSet(Metas(list)[..Threshold]), us + flushed);
    ListCompact(list, flushed, us, g.b, c, ops);
    g' := g.(ts := us + flushed, listed := |us|);
  }

  lemma AllGoodOnDisk(ssts: map<nat, Bytes>, ts: seq<Table>)
    requires TablesOnDisk(ssts, ts)
    ensures AllGood(ts)
  {
  }

  /** What a merge of listed tables reads is the listed tables. */
  lemma ListedTables(ssts: map<nat, Bytes>, ts: seq<Table>, n: nat)
    requires TablesOnDisk(ssts, ts) && n <= |ts| && AllGood(ts[..n])
    ensures TablesOf(ssts, Metas(ts[..n])) == ts[..n]
    ensures n >= Threshold ==> TablesOf(ssts, Metas(ts[..n])[..Threshold]) == ts[..n][..Threshold]
  {
    hide FileOf, MetaOf, GoodTable;
    assert Metas(ts)[..n] == Metas(ts[..n]);
    TablesOfGood(ssts, ts, n);
    if n >= Threshold {
      TablesOfGood(ssts, ts, Threshold);
      assert Metas(ts)[..Threshold] == Metas(ts[..n])[..Threshold];
      assert ts[..Threshold] == ts[..n][..Threshold];
    }
  }

  // ------------------------------------------------------------------ crashes

  /** A record torn off in the active log is passed over by replay. */
  lemma LogsTorn(wals: map<nat, Bytes>, ws: seq<Seg>, tail: Option<nat>, imm: Option<nat>, wal: nat,
                 spare: Option<nat>, walFileID: nat, a: nat, c: Cut, ops: seq<Rec>, r: Rec, n: nat)
    requires LogsOK(wals, ws, tail, imm, wal, spare, walFileID, a, c, ops) && AllFitting(ops) && Fitting(r)
    requires n < |Encode(r)|
    ensures wal in wals && WalsOnDisk(wals[wal := wals[wal] + Encode(r)[..n]], ws) && Recs(ws) == ops[a..]
  {
    hide WalsOnDisk, Replay, Encode, EncodeAll, Recs, AllFitting, Fitting, SegFor;
    var recs, k := ops[c.r..], |SegFor(tail, ops[a..c.q]) + SegFor(imm, ops[c.q..c.r])|;
    FittingFrom(ops, c.r);
    ReplayFull(recs);
    FitsFormat(r);
    TornAppend(recs, r, n);
    WalWritten(wals, ws, k, wals[wal] + Encode(r)[..n], recs);
    assert ws[k := Seg(wal, recs)] == ws;
  }

  lemma FitsFormat(r: Rec)
    requires Fitting(r)
    ensures Wal.Fits(r)
  {
  }

  lemma TornKeeps(disk: Disk, m: Mem, g: Ghost, c: Cut, ops: seq<Rec>, r: Rec, n: nat)
    requires RunningOK(disk, m, g, c, ops) && AllFitting(ops) && Enabled(Running(disk, m), CrashTorn(r, n))
    ensures DiskOK(Do(Running(disk, m), CrashTorn(r, n)).disk, g, ops)
  {
    hide LogsOK, MemOK, FilesOK, ListOK, TablesOnDisk, ManifestLists, WalsOnDisk, Overlay, OpsMap, Recs, Encode, Fitting, AllFitting;
    LogsTorn(disk.wals, g.ws, TailWal(m), ImmWal(m), m.wal, m.nextwal, m.walFileID, g.a, c, ops, r, n);
  }
}
