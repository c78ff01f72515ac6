/** What a disk of the storage engine holds, and what opening makes of it. */
module EngineDisk {
  import opened Ops
  import opened Codec
  import opened Pairs
  import opened Wal
  import opened SSTable
  import opened SSTableIO
  import opened Manifest
  import opened Directory
  import opened MemTable
  import opened History
  import opened Tables
  import opened Compaction
  import opened Engine
  import opened Text

  // ------------------------------------------------------------------ tables

  ghost predicate GoodTable(t: Table) {
    Sorted(t.pairs) && SSTable.AllFit(t.pairs) && t.pairs != [] && Writable(t.pairs) && t.id < MaxID
  }

  ghost predicate AllGood(ts: seq<Table>) {
    forall i :: 0 <= i < |ts| ==> GoodTable(ts[i])
  }

  function TableIds(ts: seq<Table>): (ids: seq<nat>)
    ensures |ids| == |ts| && forall i :: 0 <= i < |ts| ==> ids[i] == ts[i].id
  {
    seq(|ts|, i requires 0 <= i < |ts| => ts[i].id)
  }

  ghost function Metas(ts: seq<Table>): (ms: seq<TableMeta>)
    requires AllGood(ts)
    ensures |ms| == |ts| && forall i :: 0 <= i < |ts| ==> ms[i] == MetaFor(ts[i].id, ts[i].pairs)
  {
    seq(|ts|, i requires 0 <= i < |ts| => MetaFor(ts[i].id, ts[i].pairs))
  }

  /** The table files are exactly those of `ts`. */
  ghost predicate TablesOnDisk(ssts: map<nat, Bytes>, ts: seq<Table>) {
    AllGood(ts) && DistinctIds(ts) && (forall id :: id in ssts <==> id in TableIds(ts)) &&
    forall i :: 0 <= i < |ts| ==> ts[i].id in ssts && ssts[ts[i].id] == FileOf(ts[i].pairs)
  }

  /** The line in force names the first `listed` tables; the others are in the order of their ids. */
  ghost predicate ManifestLists(manifest: string, ts: seq<Table>, listed: nat) {
    AllGood(ts) && Whole(manifest) && listed <= |ts| &&
    LastLine(manifest) == Join(Decimals(Metas(ts)[..listed]), ',') && Ascending(TableIds(ts[listed..]))
  }

  /** The table with an id. */
  ghost function Named(ts: seq<Table>, id: nat): Table
    requires id in TableIds(ts)
    ensures Named(ts, id) in ts && Named(ts, id).id == id
  {
    var i :| 0 <= i < |ts| && ts[i].id == id;
    ts[i]
  }

  ghost function MetaNamed(ts: seq<Table>, id: nat): TableMeta
    requires AllGood(ts) && id in TableIds(ts)
  {
    MetaFor(Named(ts, id).id, Named(ts, id).pairs)
  }

  ghost function MetasNamed(ts: seq<Table>, ids: seq<nat>): (ms: seq<TableMeta>)
    requires AllGood(ts) && forall i :: 0 <= i < |ids| ==> ids[i] in TableIds(ts)
    ensures |ms| == |ids| && forall i :: 0 <= i < |ids| ==> ms[i] == MetaNamed(ts, ids[i])
  {
    seq(|ids|, i requires 0 <= i < |ids| => MetaNamed(ts, ids[i]))
  }

  /** The directory scan, in whatever order, finds the description of every file. */
  lemma {:induction false} ScanIs(ssts: map<nat, Bytes>, ts: seq<Table>, ids: seq<nat>)
    requires TablesOnDisk(ssts, ts) && forall i :: 0 <= i < |ids| ==> ids[i] in TableIds(ts) && ids[i] in ssts
    ensures ScanTables(ssts, ids) == Scan(MetasNamed(ts, ids), true)
  {
    hide Load, FileOf, MetaOf, Sorted, SSTable.AllFit;
    if ids != [] {
      var n := |ids| - 1;
      ScanIs(ssts, ts, ids[..n]);
      var t := Named(ts, ids[n]);
      assert GoodTable(t) && ssts[t.id] == FileOf(t.pairs);
      LoadBack(t.pairs);
    }
  }

  lemma ScanSorted(ssts: map<nat, Bytes>, ts: seq<Table>) returns (loaded: seq<TableMeta>)
    requires TablesOnDisk(ssts, ts)
    ensures ScanTables(ssts, SortedIds(ssts.Keys)) == Scan(loaded, true)
    ensures Rises(loaded) && forall m :: m in Metas(ts) <==> m in loaded
  {
    hide ScanTables, FileOf, MetaOf, GoodTable, Named, MetasNamed, Metas, Rises;
    var ids := SortedIds(ssts.Keys);
    ScanIs(ssts, ts, ids);
    loaded := MetasNamed(ts, ids);
    MetasAreNamed(ts, ids);
    RisingNamed(ts, ids);
  }

  lemma MetasAreNamed(ts: seq<Table>, ids: seq<nat>)
    requires AllGood(ts) && DistinctIds(ts) && forall id :: id in ids <==> id in TableIds(ts)
    ensures forall m :: m in Metas(ts) <==> m in MetasNamed(ts, ids)
  {
    hide GoodTable, MetaOf, Named;
    var loaded := MetasNamed(ts, ids);
    forall m
      ensures m in Metas(ts) <==> m in loaded
    {
      if m in Metas(ts) {
        var i :| 0 <= i < |ts| && Metas(ts)[i] == m;
        SameNamed(ts, i);
        var j :| 0 <= j < |ids| && ids[j] == ts[i].id;
        assert loaded[j] == m;
      }
      if m in loaded {
        var j :| 0 <= j < |loaded| && loaded[j] == m;
        var i := IndexNamed(ts, ids[j]);
        assert Metas(ts)[i] == m;
      }
    }
  }

  lemma RisingNamed(ts: seq<Table>, ids: seq<nat>)
    requires AllGood(ts) && Ascending(ids) && forall i :: 0 <= i < |ids| ==> ids[i] in TableIds(ts)
    ensures Rises(MetasNamed(ts, ids))
  {
    hide MetaOf, GoodTable;
  }

  lemma IndexNamed(ts: seq<Table>, id: nat) returns (i: nat)
    requires id in TableIds(ts)
    ensures i < |ts| && ts[i] == Named(ts, id) && ts[i].id == id
  {
    i :| 0 <= i < |ts| && ts[i] == Named(ts, id);
  }

  lemma SameNamed(ts: seq<Table>, i: nat)
    requires DistinctIds(ts) && i < |ts|
    ensures ts[i].id in TableIds(ts) && Named(ts, ts[i].id) == ts[i]
  {
    assert TableIds(ts)[i] == ts[i].id;
  }

  /** Opening restores the tables in their order, and the next file id exceeds every table's. */
  lemma LoadsBack(disk: Disk, ts: seq<Table>, listed: nat)
    requires TablesOnDisk(disk.ssts, ts) && ManifestLists(disk.manifest, ts, listed)
    ensures LoadTables(disk) == Metas(ts)
    ensures forall i :: 0 <= i < |ts| ==> ts[i].id < FirstFreeID(disk)
  {
    hide ScanTables, FileOf, MetaOf, LastLine, Manifest.Ordered, Decimals, NextID, SortedIds;
    var loaded := ScanSorted(disk.ssts, ts);
    DistinctMetas(ts);
    RisingMetas(ts, listed);
    PartlyListed(disk.manifest, Metas(ts), loaded, listed);
    NextIsFresh(1, loaded);
    forall i | 0 <= i < |ts|
      ensures ts[i].id < NextID(1, loaded)
    {
      assert Metas(ts)[i] in loaded && Metas(ts)[i].fileID == ts[i].id;
    }
  }

  lemma DistinctMetas(ts: seq<Table>)
    requires AllGood(ts) && DistinctIds(ts)
    ensures Distinct(Metas(ts)) && forall i :: 0 <= i < |ts| ==> Metas(ts)[i].fileID < U64
  {
    hide MetaOf;
  }

  lemma RisingMetas(ts: seq<Table>, n: nat)
    requires AllGood(ts) && n <= |ts| && Ascending(TableIds(ts[n..]))
    ensures Rises(Metas(ts)[n..])
  {
    hide MetaOf;
    forall i, j | 0 <= i < j < |ts| - n
      ensures Metas(ts)[n..][i].fileID < Metas(ts)[n..][j].fileID
    {
      assert TableIds(ts[n..])[i] < TableIds(ts[n..])[j];
    }
  }

  /** A new table with a new id. */
  lemma TableAdded(ssts: map<nat, Bytes>, ts: seq<Table>, t: Table)
    requires TablesOnDisk(ssts, ts) && GoodTable(t) && t.id !in TableIds(ts)
    ensures TablesOnDisk(ssts[t.id := FileOf(t.pairs)], ts + [t])
    ensures Metas(ts + [t]) == Metas(ts) + [MetaFor(t.id, t.pairs)]
  {
    hide FileOf, MetaOf, GoodTable;
    assert TableIds(ts + [t]) == TableIds(ts) + [t.id];
    forall i | 0 <= i < |ts|
      ensures ts[i].id != t.id
    {
      assert TableIds(ts)[i] in TableIds(ts);
    }
  }

  /** The iterators over the files of listed tables yield the tables. */
  lemma TablesOfGood(ssts: map<nat, Bytes>, ts: seq<Table>, n: nat)
    requires n <= |ts| && AllGood(ts)
    requires forall i :: 0 <= i < n ==> ts[i].id in ssts && ssts[ts[i].id] == FileOf(ts[i].pairs)
    ensures TablesOf(ssts, Metas(ts)[..n]) == ts[..n]
  {
    hide FileOf, MetaOf, ReadAll, DataEnd, Sorted, SSTable.AllFit, Writable;
    forall i | 0 <= i < n
      ensures TableOf(ssts, Metas(ts)[i]) == ts[i]
    {
      assert GoodTable(ts[i]);
      IteratorSeesAll(ts[i].pairs);
    }
  }

  /** The first `n` tables go, a new one comes in at place `k`. */
  lemma TablesSwapped(ssts: map<nat, Bytes>, ts: seq<Table>, n: nat, k: nat, t: Table)
    requires TablesOnDisk(ssts, ts) && n <= k <= |ts| && GoodTable(t) && t.id !in TableIds(ts)
    ensures TablesOnDisk(ssts[t.id := FileOf(t.pairs)] - IdSet(Metas(ts)[..n]), ts[n..k] + [t] + ts[k..])
  {
    hide FileOf, MetaOf, GoodTable, IdSet;
    var gone, us := IdSet(Metas(ts)[..n]), ts[n..k] + [t] + ts[k..];
    GoneIds(ts, n);
    NewAmong(ts, t.id);
    SwappedAt(ts, n, k, t, us);
    SwappedIds(ts, n, k, t, us, gone);
  }

  lemma SwappedAt(ts: seq<Table>, n: nat, k: nat, t: Table, us: seq<Table>)
    requires n <= k <= |ts| && us == ts[n..k] + [t] + ts[k..]
    ensures |us| == |ts| - n + 1
    ensures forall i :: 0 <= i < |us| ==> us[i] == if i < k - n then ts[n + i] else if i == k - n then t else ts[n + i - 1]
  {
  }

  lemma SwappedIds(ts: seq<Table>, n: nat, k: nat, t: Table, us: seq<Table>, gone: set<nat>)
    requires n <= k <= |ts| && us == ts[n..k] + [t] + ts[k..] && t.id !in TableIds(ts)
    requires (forall i :: 0 <= i < n ==> ts[i].id in gone) && (forall i :: n <= i < |ts| ==> ts[i].id !in gone)
    ensures forall id :: id in TableIds(us) <==> id == t.id || (id in TableIds(ts) && id !in gone)
  {
    SwappedAt(ts, n, k, t, us);
    forall id
      ensures id in TableIds(us) <==> id == t.id || (id in TableIds(ts) && id !in gone)
    {
      if id == t.id {
        assert TableIds(us)[k - n] == id;
      } else if id in TableIds(ts) && id !in gone {
        var i := IndexNamed(ts, id);
        assert TableIds(us)[if i < k then i - n else i - n + 1] == id;
      }
      if id in TableIds(us) && id != t.id {
        var j := IndexNamed(us, id);
        var i := if j < k - n then n + j else n + j - 1;
        assert us[j] == ts[i] && TableIds(ts)[i] == id;
      }
    }
  }

  lemma NewAmong(ts: seq<Table>, id: nat)
    requires id !in TableIds(ts)
    ensures forall i :: 0 <= i < |ts| ==> ts[i].id != id
  {
    forall i | 0 <= i < |ts|
      ensures ts[i].id != id
    {
      assert TableIds(ts)[i] in TableIds(ts);
    }
  }

  lemma GoneIds(ts: seq<Table>, n: nat)
    requires AllGood(ts) && DistinctIds(ts) && n <= |ts|
    ensures forall i :: 0 <= i < n ==> ts[i].id in IdSet(Metas(ts)[..n])
    ensures forall i :: n <= i < |ts| ==> ts[i].id !in IdSet(Metas(ts)[..n])
    ensures forall id :: id in IdSet(Metas(ts)[..n]) ==> id in TableIds(ts)
  {
    hide MetaOf, GoodTable;
    var ms := Metas(ts)[..n];
    forall i | 0 <= i < n
      ensures ts[i].id in IdSet(ms)
    {
      assert ms[i] in ms && ms[i].fileID == ts[i].id;
    }
    forall id | id in IdSet(ms)
      ensures exists i :: 0 <= i < n && ts[i].id == id
    {
      var m :| m in ms && m.fileID == id;
      var i :| 0 <= i < n && ms[i] == m;
      assert ts[i].id == id;
    }
    forall id | id in IdSet(ms)
      ensures id in TableIds(ts)
    {
      var i :| 0 <= i < n && ts[i].id == id;
      assert TableIds(ts)[i] == id;
    }
  }

  /** A new table whose id exceeds those not yet listed leaves the manifest's line a prefix. */
  lemma StillListed(manifest: string, ts: seq<Table>, listed: nat, t: Table)
    requires ManifestLists(manifest, ts, listed) && GoodTable(t)
    requires forall i :: listed <= i < |ts| ==> ts[i].id < t.id
    ensures ManifestLists(manifest, ts + [t], listed)
  {
    hide GoodTable, LastLine, Join, Decimals, MetaOf;
    assert Metas(ts + [t])[..listed] == Metas(ts)[..listed];
    assert (ts + [t])[listed..] == ts[listed..] + [t];
    assert TableIds((ts + [t])[listed..]) == TableIds(ts[listed..]) + [t.id];
  }

  /** Appending a snapshot of the first `n` tables, the others being in the order of their ids. */
  lemma NowListed(manifest: string, ts: seq<Table>, n: nat)
    requires AllGood(ts) && Whole(manifest) && n <= |ts| && n > 0 && Ascending(TableIds(ts[n..]))
    ensures ManifestLists(manifest + Line(Metas(ts)[..n]), ts, n)
  {
    hide LastLine, Join, Decimals, Line, GoodTable;
    AppendedLine(manifest, Metas(ts)[..n]);
  }

  // -------------------------------------------------------------------- logs

  /** A log file and the records that it replays to. */
  datatype Seg = Seg(id: nat, recs: seq<Rec>)

  function SegIds(ws: seq<Seg>): (ids: seq<nat>)
    ensures |ids| == |ws| && forall i :: 0 <= i < |ws| ==> ids[i] == ws[i].id
  {
    seq(|ws|, i requires 0 <= i < |ws| => ws[i].id)
  }

  ghost function Recs(ws: seq<Seg>): seq<Rec> {
    if ws == [] then [] else ws[0].recs + Recs(ws[1..])
  }

  ghost predicate WalsOnDisk(wals: map<nat, Bytes>, ws: seq<Seg>) {
    Lists(SegIds(ws), wals.Keys) &&
    forall i :: 0 <= i < |ws| ==> Replay(wals[ws[i].id]).recs == ws[i].recs
  }

  lemma {:induction false} RecsMore(ws: seq<Seg>, w: Seg)
    ensures Recs(ws + [w]) == Recs(ws) + w.recs
  {
    if ws == [] {
      assert [w][1..] == [] && Recs([]) == [];
    } else {
      RecsMore(ws[1..], w);
      assert (ws + [w])[1..] == ws[1..] + [w];
    }
  }

  lemma {:induction false} ReplayAllIs(wals: map<nat, Bytes>, ws: seq<Seg>)
    requires forall i :: 0 <= i < |ws| ==> ws[i].id in wals && Replay(wals[ws[i].id]).recs == ws[i].recs
    ensures ReplayAll(wals, SegIds(ws)) == Recs(ws)
  {
    hide Replay;
    if ws != [] {
      var n := |ws| - 1;
      ReplayAllIs(wals, ws[..n]);
      assert SegIds(ws)[..n] == SegIds(ws[..n]);
      RecsMore(ws[..n], ws[n]);
      assert ws == ws[..n] + [ws[n]];
    }
  }

  lemma ReplaysBack(wals: map<nat, Bytes>, ws: seq<Seg>)
    requires WalsOnDisk(wals, ws)
    ensures SortedIds(wals.Keys) == SegIds(ws) && ReplayAll(wals, SortedIds(wals.Keys)) == Recs(ws)
    ensures forall i :: 0 <= i < |ws| ==> ws[i].id < NextWal(wals)
  {
    hide Replay, ReplayAll, EncodeAll, AllFitting, SortedIds;
    ListingIsUnique(SegIds(ws), wals.Keys);
    ReplayAllIs(wals, ws);
    LastIsGreatest(ws);
  }

  lemma LastIsGreatest(ws: seq<Seg>)
    requires Ascending(SegIds(ws))
    ensures forall i :: 0 <= i < |ws| ==> ws[i].id <= ws[|ws| - 1].id
  {
    forall i | 0 <= i < |ws|
      ensures ws[i].id <= ws[|ws| - 1].id
    {
      assert i < |ws| - 1 ==> SegIds(ws)[i] < SegIds(ws)[|ws| - 1];
    }
  }

  lemma EmptyLog()
    ensures Replay([]).recs == []
  {
  }

  /** A new log with a greater id. */
  lemma WalAdded(wals: map<nat, Bytes>, ws: seq<Seg>, id: nat)
    requires WalsOnDisk(wals, ws) && forall i :: 0 <= i < |ws| ==> ws[i].id < id
    ensures WalsOnDisk(wals[id := []], ws + [Seg(id, [])])
    ensures Recs(ws + [Seg(id, [])]) == Recs(ws)
  {
    hide Recs, Replay, Lists, SegIds;
    RecsMore(ws, Seg(id, []));
    ListsMore(SegIds(ws), wals.Keys, id);
    SegIdsMore(ws, Seg(id, []));
    assert wals[id := []].Keys == wals.Keys + {id};
    NewLogContent(wals, ws, id);
  }

  lemma SegIdsMore(ws: seq<Seg>, w: Seg)
    ensures SegIds(ws + [w]) == SegIds(ws) + [w.id]
  {
  }

  lemma NewLogContent(wals: map<nat, Bytes>, ws: seq<Seg>, id: nat)
    requires WalsOnDisk(wals, ws) && id !in wals
    ensures var wals', ws' := wals[id := []], ws + [Seg(id, [])];
            forall i :: 0 <= i < |ws'| ==> ws'[i].id in wals' && Replay(wals'[ws'[i].id]).recs == ws'[i].recs
  {
    hide Replay, Lists;
    EmptyLog();
    forall i | 0 <= i < |ws|
      ensures ws[i].id in wals
    {
      AllListed(SegIds(ws), wals.Keys, i);
    }
  }

  lemma AllListed(ids: seq<nat>, s: set<nat>, i: nat)
    requires Lists(ids, s) && i < |ids|
    ensures ids[i] in s
  {
  }

  /** The oldest log goes. */
  lemma WalDropped(wals: map<nat, Bytes>, ws: seq<Seg>)
    requires WalsOnDisk(wals, ws) && ws != []
    ensures WalsOnDisk(wals - {ws[0].id}, ws[1..])
    ensures Recs(ws) == ws[0].recs + Recs(ws[1..])
  {
    hide Replay;
    ListsTail(SegIds(ws), wals.Keys);
    assert SegIds(ws)[1..] == SegIds(ws[1..]);
    assert (wals - {ws[0].id}).Keys == wals.Keys - {ws[0].id};
  }

  /** One log is written to. */
  lemma WalWritten(wals: map<nat, Bytes>, ws: seq<Seg>, i: nat, bytes: Bytes, recs: seq<Rec>)
    requires WalsOnDisk(wals, ws) && i < |ws| && Replay(bytes).recs == recs
    ensures WalsOnDisk(wals[ws[i].id := bytes], ws[i := Seg(ws[i].id, recs)])
  {
    hide Replay;
    var after := ws[i := Seg(ws[i].id, recs)];
    assert SegIds(after) == SegIds(ws);
    assert ws[i].id in SegIds(ws);
    assert wals[ws[i].id := bytes].Keys == wals.Keys;
    forall j | 0 <= j < |ws| && j != i
      ensures ws[j].id != ws[i].id
    {
      assert if j < i then SegIds(ws)[j] < SegIds(ws)[i] else SegIds(ws)[i] < SegIds(ws)[j];
    }
  }

  // ------------------------------------------------- what a disk amounts to

  /** The tables hold the effect of the first `b` operations, the logs replay to those from `a`
      on, and no operation falls between. */
  datatype Ghost = Ghost(ts: seq<Table>, listed: nat, ws: seq<Seg>, a: nat, b: nat)

  ghost predicate DiskOK(disk: Disk, g: Ghost, ops: seq<Rec>) {
    TablesOnDisk(disk.ssts, g.ts) && ManifestLists(disk.manifest, g.ts, g.listed) && WalsOnDisk(disk.wals, g.ws) &&
    g.a <= g.b <= |ops| && Overlay(g.ts) == OpsMap(ops[..g.b]) && Recs(g.ws) == ops[g.a..]
  }

  ghost predicate AllFitting(ops: seq<Rec>) {
    forall i :: 0 <= i < |ops| ==> Fitting(ops[i])
  }

  /** A memory table that holds the effect of `ops`. */
  ghost predicate HoldsOps(ps: seq<Pair>, ops: seq<Rec>) {
    Sorted(ps) && ToMap(ps) == OpsMap(ops)
  }

  lemma {:induction false} HeldFrom(ops: seq<Rec>, key: Bytes)
    requires AllFitting(ops) && key in OpsMap(ops)
    ensures key != [] && |key| < U32 && (OpsMap(ops)[key].Some? ==> |OpsMap(ops)[key].value| < Tombstone)
  {
    var n := |ops| - 1;
    if key != ops[n].key {
      HeldFrom(ops[..n], key);
    }
  }

  /** Tables made of fitting operations fit the table format, and have a positive size unless
      they are empty. */
  lemma HeldFits(ps: seq<Pair>, ops: seq<Rec>)
    requires HoldsOps(ps, ops) && AllFitting(ops)
    ensures SSTable.AllFit(ps) && (Size(ps) > 0 <==> ps != []) && (ps == [] <==> ops == [])
  {
    hide ToMap, OpsMap, Sorted;
    forall i | 0 <= i < |ps|
      ensures SSTable.Fits(ps[i]) && ps[i].key != []
    {
      MapAt(ps, i);
      HeldFrom(ops, ps[i].key);
    }
    SizeZero(ps);
    NoOps(ops);
    EmptyMap(ps);
  }

  lemma EmptyMap(ps: seq<Pair>)
    ensures ToMap(ps) == map[] <==> ps == []
  {
    if ps != [] {
      assert ps[|ps| - 1].key in ToMap(ps);
    }
  }
}
