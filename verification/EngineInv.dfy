/** The invariant of the storage engine: between any two disk operations the tables and the logs
    on disk together hold exactly the effect of the operations logged so far. */
module EngineInv {
  import opened Ops
  import opened Pairs
  import opened Wal
  import opened SSTable
  import opened Manifest
  import opened Directory
  import opened MemTable
  import opened History
  import opened Tables
  import opened Engine
  import opened EngineDisk

  /** The operations from `q` to `r` are in the immutable table, those from `r` on in the memory
      table, those before `q` in the listed tables. */
  datatype Cut = Cut(q: nat, r: nat)

  ghost predicate CutOK(hasTail: bool, hasImm: bool, a: nat, c: Cut, n: nat) {
    a <= c.q <= c.r <= n && (!hasTail ==> a == c.q) && (!hasImm ==> c.q == c.r)
  }

  ghost predicate MemOK(mem: seq<Pair>, imm: Option<seq<Pair>>, c: Cut, ops: seq<Rec>) {
    c.q <= c.r <= |ops| && HoldsOps(mem, ops[c.r..]) &&
    (imm.Some? ==> HoldsOps(imm.value, ops[c.q..c.r]) && imm.value != [])
  }

  ghost function SegFor(wal: Option<nat>, recs: seq<Rec>): seq<Seg> {
    if wal.Some? then [Seg(wal.value, recs)] else []
  }

  /** The logs, oldest first: of the finishing flush, of the immutable table, the active one, the
      spare one. */
  ghost predicate LogsOK(wals: map<nat, Bytes>, ws: seq<Seg>, tail: Option<nat>, imm: Option<nat>,
                         wal: nat, spare: Option<nat>, walFileID: nat, a: nat, c: Cut, ops: seq<Rec>) {
    a <= c.q <= c.r <= |ops| && WalsOnDisk(wals, ws) && Recs(ws) == ops[a..] &&
    ws == SegFor(tail, ops[a..c.q]) + SegFor(imm, ops[c.q..c.r]) + [Seg(wal, ops[c.r..])] + SegFor(spare, []) &&
    (forall i :: 0 <= i < |ws| ==> ws[i].id < walFileID) &&
    wal in wals && wals[wal] == EncodeAll(ops[c.r..]) &&
    (spare.Some? ==> spare.value in wals && wals[spare.value] == [])
  }

  /** Ids are handed out ascending; `file` is the one reserved for the immutable table, new and
      greater than those of tables that the manifest does not list. */
  ghost predicate FilesOK(ts: seq<Table>, listed: nat, next: nat, file: Option<nat>, written: bool) {
    (forall i :: 0 <= i < |ts| ==> ts[i].id < next) && (written ==> file.Some?) &&
    (file.Some? ==> file.value < next && file.value < MaxID && (written || IsNewFile(ts, listed, file.value)))
  }

  ghost predicate IsNewFile(ts: seq<Table>, listed: nat, id: nat) {
    id !in TableIds(ts) && forall i :: listed <= i < |ts| ==> ts[i].id < id
  }

  /** The tables on disk are those in the list, and the flushed one if it is written already. */
  ghost predicate ListOK(tables: seq<TableMeta>, ts: seq<Table>, b: nat, flushed: seq<Table>,
                         snapshot: Option<seq<TableMeta>>, c: Cut, ops: seq<Rec>) {
    AllGood(ts) && c.q <= c.r <= |ops| && |tables| <= |ts| && tables == Metas(ts)[..|tables|] &&
    Overlay(ts[..|tables|]) == OpsMap(ops[..c.q]) && ts == ts[..|tables|] + flushed &&
    b == (if flushed == [] then c.q else c.r) && (snapshot.Some? ==> snapshot.value == tables && tables != [])
  }

  ghost predicate TablesOK(disk: Disk, ts: seq<Table>, listed: nat, b: nat, ops: seq<Rec>) {
    TablesOnDisk(disk.ssts, ts) && ManifestLists(disk.manifest, ts, listed) && b <= |ops| && Overlay(ts) == OpsMap(ops[..b])
  }

  ghost function TailWal(m: Mem): Option<nat> { if m.tail.Some? then Some(m.tail.value.wal) else None }
  ghost function Snapshot(m: Mem): Option<seq<TableMeta>> { if m.tail.Some? then Some(m.tail.value.snapshot) else None }
  ghost function ImmWal(m: Mem): Option<nat> { if m.imm.Some? then Some(m.imm.value.wal) else None }
  ghost function ImmPairs(m: Mem): Option<seq<Pair>> { if m.imm.Some? then Some(m.imm.value.pairs) else None }
  ghost function ImmFile(m: Mem): Option<nat> { if m.imm.Some? then m.imm.value.file else None }
  ghost predicate ImmWritten(m: Mem) { m.imm.Some? && m.imm.value.written }

  ghost function FlushedTable(m: Mem): seq<Table> {
    if ImmWritten(m) && m.imm.value.file.Some? then [Table(m.imm.value.file.value, m.imm.value.pairs)] else []
  }

  ghost predicate RunningOK(disk: Disk, m: Mem, g: Ghost, c: Cut, ops: seq<Rec>) {
    CutOK(m.tail.Some?, m.imm.Some?, g.a, c, |ops|) && g.a <= g.b &&
    TablesOK(disk, g.ts, g.listed, g.b, ops) &&
    MemOK(m.mem, ImmPairs(m), c, ops) &&
    LogsOK(disk.wals, g.ws, TailWal(m), ImmWal(m), m.wal, m.nextwal, m.walFileID, g.a, c, ops) &&
    FilesOK(g.ts, g.listed, m.nextFileID, ImmFile(m), ImmWritten(m)) &&
    ListOK(m.tables, g.ts, g.b, FlushedTable(m), Snapshot(m), c, ops)
  }

  ghost predicate BootingOK(disk: Disk, b: Boot, g: Ghost, ops: seq<Rec>) {
    DiskOK(disk, g, ops) && b.tables == Metas(g.ts) &&
    (forall i :: 0 <= i < |g.ts| ==> g.ts[i].id < b.nextFileID) &&
    (forall i :: 0 <= i < |g.ws| ==> g.ws[i].id < b.walFileID) &&
    (if b.stage == ToWrite then HoldsOps(b.mem, ops[g.a..]) else g.b == |ops| && b.mem == []) &&
    (b.stage == ToList ==> g.ts != [])
  }

  ghost predicate Boots(s: State, g: Ghost, ops: seq<Rec>) { s.Booting? && BootingOK(s.disk, s.boot, g, ops) }

  ghost predicate Runs(s: State, g: Ghost, c: Cut, ops: seq<Rec>) { s.Running? && RunningOK(s.disk, s.m, g, c, ops) }

  ghost predicate Inv(s: State, g: Ghost, c: Cut, ops: seq<Rec>) {
    AllFitting(ops) &&
    match s
    case Down(disk) => DiskOK(disk, g, ops)
    case Booting(disk, b) => BootingOK(disk, b, g, ops)
    case Running(disk, m) => RunningOK(disk, m, g, c, ops)
  }

  /** In every state the tables and logs on disk together hold exactly the operations logged. */
  lemma AlwaysDiskOK(s: State, g: Ghost, c: Cut, ops: seq<Rec>)
    requires Inv(s, g, c, ops)
    ensures DiskOK(s.disk, g, ops)
  {
    hide CutOK, MemOK, FilesOK, ListOK, AllFitting, TablesOnDisk, ManifestLists, Overlay, OpsMap, WalsOnDisk, Recs,
      HoldsOps;
  }

  // ------------------------------------------------------------------ opening

  lemma OpenKeeps(disk: Disk, g: Ghost, ops: seq<Rec>)
    requires DiskOK(disk, g, ops) && AllFitting(ops)
    ensures BootingOK(disk, Opened(disk), g, ops)
  {
    hide TablesOnDisk, ManifestLists, WalsOnDisk, LoadTables, FirstFreeID, NextWal, OpsMap, Overlay, StoredAll,
      ReplayAll, ToMap, Sorted, Size, AllFitting, Recs, SortedIds, SSTable.AllFit;
    TablesAreGood(disk, g, ops);
    LoadsBack(disk, g.ts, g.listed);
    ReplaysBack(disk.wals, g.ws);
    ReplayBuilds(ops[g.a..]);
    FittingFrom(ops, g.a);
    var mem := Opened(disk).mem;
    HeldFits(mem, ops[g.a..]);
    if Size(mem) == 0 {
      assert ops[g.a..] == [];
    }
  }

  lemma TablesAreGood(disk: Disk, g: Ghost, ops: seq<Rec>)
    requires DiskOK(disk, g, ops)
    ensures AllGood(g.ts)
  {
  }

  lemma IsWhole(disk: Disk, g: Ghost, ops: seq<Rec>)
    requires DiskOK(disk, g, ops)
    ensures Whole(disk.manifest)
  {
  }

  lemma FittingFrom(ops: seq<Rec>, a: nat)
    requires AllFitting(ops) && a <= |ops|
    ensures AllFitting(ops[a..])
  {
  }

  lemma WriteRecoveredKeeps(disk: Disk, b: Boot, g: Ghost, ops: seq<Rec>) returns (g': Ghost)
    requires BootingOK(disk, b, g, ops) && AllFitting(ops) && Enabled(Booting(disk, b), WriteRecovered)
    ensures Boots(Do(Booting(disk, b), WriteRecovered), g', ops)
  {
    hide WalsOnDisk, FileOf, MetaOf, OpsMap, Overlay, ToMap, Sorted, Size, Recs, SSTable.AllFit, TablesOnDisk,
      ManifestLists, AllFitting;
    TablesAreGood(disk, g, ops);
    var t := Table(b.nextFileID, b.mem);
    FittingFrom(ops, g.a);
    HeldFits(b.mem, ops[g.a..]);
    TableAdded(disk.ssts, g.ts, t);
    StillListed(disk.manifest, g.ts, g.listed, t);
    OverlaySplit(g.ts, [t]);
    OverlayOne(t);
    ReplayIsIdempotent(ops, g.a, g.b);
    assert ops[..|ops|] == ops;
    g' := g.(ts := g.ts + [t], b := |ops|);
  }

  lemma ListRecoveredKeeps(disk: Disk, b: Boot, g: Ghost, ops: seq<Rec>) returns (g': Ghost)
    requires BootingOK(disk, b, g, ops) && Enabled(Booting(disk, b), ListRecovered)
    ensures Boots(Do(Booting(disk, b), ListRecovered), g', ops)
  {
    hide WalsOnDisk, OpsMap, Overlay, ToMap, Sorted, Recs, TablesOnDisk, ManifestLists, Line, HoldsOps;
    TablesAreGood(disk, g, ops);
    assert Metas(g.ts)[..|g.ts|] == Metas(g.ts) && g.ts[|g.ts|..] == [];
    IsWhole(disk, g, ops);
    NowListed(disk.manifest, g.ts, |g.ts|);
    g' := g.(listed := |g.ts|);
  }

  lemma RemoveWalKeeps(disk: Disk, b: Boot, g: Ghost, ops: seq<Rec>) returns (g': Ghost)
    requires BootingOK(disk, b, g, ops) && Enabled(Booting(disk, b), RemoveWal)
    ensures Boots(Do(Booting(disk, b), RemoveWal), g', ops)
  {
    hide WalsOnDisk, OpsMap, Overlay, ToMap, Sorted, Recs, TablesOnDisk, ManifestLists, SortedIds, HoldsOps;
    TablesAreGood(disk, g, ops);
    ReplaysBack(disk.wals, g.ws);
    SomeLog(disk.wals, g.ws);
    WalDropped(disk.wals, g.ws);
    var n := |g.ws[0].recs|;
    assert |ops[g.a..]| == n + |Recs(g.ws[1..])|;
    assert ops[g.a + n..] == ops[g.a..][n..];
    g' := g.(ws := g.ws[1..], a := g.a + n);
  }

  lemma SomeLog(wals: map<nat, Bytes>, ws: seq<Seg>)
    requires WalsOnDisk(wals, ws)
    ensures wals == map[] <==> ws == []
  {
    hide Replay;
    if ws != [] {
      assert ws[0].id in SegIds(ws);
    }
  }

  lemma ActivateKeeps(disk: Disk, b: Boot, g: Ghost, ops: seq<Rec>) returns (g': Ghost, c: Cut)
    requires BootingOK(disk, b, g, ops) && Enabled(Booting(disk, b), Activate)
    ensures Runs(Do(Booting(disk, b), Activate), g', c, ops)
  {
    hide WalsOnDisk, Overlay, OpsMap, Sorted, TablesOnDisk, ManifestLists, MetaOf, ToMap, HoldsOps, Recs;
    TablesAreGood(disk, g, ops);
    SomeLog(disk.wals, g.ws);
    NoRecs();
    assert |ops[g.a..]| == 0;
    var none := ops[|ops|..];
    assert none == [] && ops[..|ops|] == ops;
    WalAdded(disk.wals, g.ws, b.walFileID);
    g' := g.(ws := g.ws + [Seg(b.walFileID, [])]);
    c := Cut(|ops|, |ops|);
    assert g.ts[..|g.ts|] == g.ts && Metas(g.ts)[..|g.ts|] == Metas(g.ts);
    HoldsNothing();
    assert g'.ws == [] + [Seg(b.walFileID, none)] + [];
  }

  lemma NoRecs()
    ensures Recs([]) == [] && EncodeAll([]) == []
  {
  }

  lemma HoldsNothing()
    ensures HoldsOps([], [])
  {
  }
}
