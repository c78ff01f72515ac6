/** The storage engine as a state machine over its disk: every change of the disk is a step of
    its own, so a crash between any two steps is a crash between any two disk operations. */
module Engine {
  import opened Ops
  import opened Codec
  import opened Pairs
  import opened Wal
  import opened SSTable
  import opened Manifest
  import opened Directory
  import opened MemTable
  import opened History
  import opened Tables
  import opened Merge
  import opened Compaction

  const FlushSize := 4096

  datatype Disk = Disk(ssts: map<nat, Bytes>, manifest: string, wals: map<nat, Bytes>)

  /** An immutable memory table on its way to disk, with the log that covers it. */
  datatype Imm = Imm(pairs: seq<Pair>, wal: nat, file: Option<nat>, written: bool)

  /** A flush after installing its table: the manifest append, then the log's deletion. */
  datatype Tail = Tail(snapshot: seq<TableMeta>, wal: nat, listed: bool)

  datatype Mem = Mem(
    mem: seq<Pair>,
    imm: Option<Imm>,
    tail: Option<Tail>,
    tables: seq<TableMeta>,
    nextFileID: nat,
    wal: nat,
    nextwal: Option<nat>,
    walFileID: nat)

  /** How far opening has got: the replayed table is to be written, then listed, then the old
      logs go. */
  datatype Stage = ToWrite | ToList | Clearing

  datatype Boot = Boot(mem: seq<Pair>, tables: seq<TableMeta>, nextFileID: nat, walFileID: nat, stage: Stage)

  datatype State = Down(disk: Disk) | Booting(disk: Disk, boot: Boot) | Running(disk: Disk, m: Mem)

  // ------------------------------------------------------------------ opening

  datatype Scan = Scan(metas: seq<TableMeta>, ok: bool)

  /** `loadSSTables` over the files in name order; a corrupt file stops it. */
  function ScanTables(ssts: map<nat, Bytes>, ids: seq<nat>): Scan
    requires forall i :: 0 <= i < |ids| ==> ids[i] in ssts
  {
    if ids == [] then Scan([], true)
    else
      var n := |ids| - 1;
      var before := ScanTables(ssts, ids[..n]);
      if !before.ok then before
      else
        match Load(ssts[ids[n]])
        case Skip => before
        case Corrupt => Scan(before.metas, false)
        case Loaded(meta) => Scan(before.metas + [TableMeta(ids[n], meta)], true)
  }

  function LoadTables(disk: Disk): seq<TableMeta> {
    var scan := ScanTables(disk.ssts, SortedIds(disk.ssts.Keys));
    if scan.ok then Manifest.Ordered(disk.manifest, scan.metas) else []
  }

  function FirstFreeID(disk: Disk): nat {
    NextID(1, ScanTables(disk.ssts, SortedIds(disk.ssts.Keys)).metas)
  }

  /** The records of all logs, oldest log first. */
  function ReplayAll(wals: map<nat, Bytes>, ids: seq<nat>): seq<Rec>
    requires forall i :: 0 <= i < |ids| ==> ids[i] in wals
  {
    if ids == [] then []
    else ReplayAll(wals, ids[..|ids| - 1]) + Replay(wals[ids[|ids| - 1]]).recs
  }

  function NextWal(wals: map<nat, Bytes>): nat {
    var ids := SortedIds(wals.Keys);
    if ids == [] then 1 else ids[|ids| - 1] + 1
  }

  /** Load the tables, replay the logs into a fresh memory table. */
  function Opened(disk: Disk): Boot {
    var mem := StoredAll([], ReplayAll(disk.wals, SortedIds(disk.wals.Keys)));
    Boot(mem, LoadTables(disk), FirstFreeID(disk), NextWal(disk.wals), if Size(mem) > 0 then ToWrite else Clearing)
  }

  // -------------------------------------------------------------------- steps

  datatype Step =
    | Open | WriteRecovered | ListRecovered | RemoveWal | Activate
    | Log(rec: Rec) | PreAllocate
    | Reserve | WriteTable | Install | AppendManifest | RemoveOldWal
    | Compact(merged: seq<Pair>)
    | Crash | CrashTorn(torn: Rec, kept: nat)

  /** What clients may send, and what fits the formats: a non-empty key, lengths below the
      32-bit fields, no value as long as the tombstone mark. */
  predicate Fitting(r: Rec) {
    r.key != [] && |r.key| < U32 && (r.Put? ==> |r.val| < Tombstone)
  }

  predicate Writable(ps: seq<Pair>) { |FileOf(ps)| < U64 }

  /** A listed table as an iterator over its file would yield it. */
  function TableOf(ssts: map<nat, Bytes>, t: TableMeta): Table {
    Table(t.fileID, if t.fileID in ssts then ReadAll(ssts[t.fileID][..DataEnd(t.meta, ssts[t.fileID])]) else [])
  }

  function TablesOf(ssts: map<nat, Bytes>, tables: seq<TableMeta>): (ts: seq<Table>)
    ensures |ts| == |tables| && forall i :: 0 <= i < |tables| ==> ts[i] == TableOf(ssts, tables[i])
  {
    seq(|tables|, i requires 0 <= i < |tables| => TableOf(ssts, tables[i]))
  }

  ghost predicate Enabled(s: State, step: Step) {
    match step
    case Open => s.Down?
    case WriteRecovered => s.Booting? && s.boot.stage == ToWrite && s.boot.mem != [] && s.boot.nextFileID < MaxID && Writable(s.boot.mem)
    case ListRecovered => s.Booting? && s.boot.stage == ToList
    case RemoveWal => s.Booting? && s.boot.stage == Clearing && s.disk.wals != map[]
    case Activate => s.Booting? && s.boot.stage == Clearing && s.disk.wals == map[] && s.boot.walFileID < MaxID
    case Log(r) => s.Running? && s.m.wal in s.disk.wals && Fitting(r)
    case PreAllocate => s.Running? && s.m.nextwal.None? && s.m.walFileID < MaxID
    case Reserve => s.Running? && s.m.imm.Some? && s.m.imm.value.file.None? && s.m.nextFileID < MaxID
    case WriteTable => s.Running? && s.m.imm.Some? && s.m.imm.value.file.Some? && !s.m.imm.value.written &&
      s.m.imm.value.pairs != [] && Writable(s.m.imm.value.pairs)
    case Install => s.Running? && s.m.imm.Some? && s.m.imm.value.file.Some? && s.m.imm.value.written &&
      s.m.imm.value.pairs != [] && s.m.tail.None?
    case AppendManifest => s.Running? && s.m.tail.Some? && !s.m.tail.value.listed
    case RemoveOldWal => s.Running? && s.m.tail.Some? && s.m.tail.value.listed
    case Compact(merged) => s.Running? && s.m.tail.None? && |s.m.tables| >= Threshold && s.m.nextFileID < MaxID &&
      merged != [] && Writable(merged) &&
      IsMerge(PairsOf(TablesOf(s.disk.ssts, s.m.tables[..Threshold])), merged)
    case Crash => !s.Down?
    case CrashTorn(r, n) => s.Running? && s.m.wal in s.disk.wals && Fitting(r) && n < |Encode(r)|
  }

  /** `checkAndFlush`: the full table becomes immutable, unless the previous flush is still
      under way or no log is ready to take over. */
  function CheckAndFlush(m: Mem): Mem {
    if Size(m.mem) >= FlushSize && m.imm.None? && m.nextwal.Some? then
      m.(imm := Some(Imm(m.mem, m.wal, None, false)), mem := [], wal := m.nextwal.value, nextwal := None)
    else m
  }

  function Append(disk: Disk, wal: nat, bytes: Bytes): Disk
    requires wal in disk.wals
  {
    disk.(wals := disk.wals[wal := disk.wals[wal] + bytes])
  }

  /** One `Put` or `Delete`: the log first, then the memory table, then the threshold. */
  function Logged(disk: Disk, m: Mem, r: Rec): State
    requires m.wal in disk.wals
  {
    Running(Append(disk, m.wal, Encode(r)), CheckAndFlush(m.(mem := Stored(m.mem, r.key, Value(r)))))
  }

  function MetaFor(id: nat, ps: seq<Pair>): TableMeta
    requires ps != []
  {
    TableMeta(id, MetaOf(ps))
  }

  ghost function Do(s: State, step: Step): State
    requires Enabled(s, step)
  {
    match step
    case Open => Booting(s.disk, Opened(s.disk))
    case WriteRecovered =>
      var b := s.boot;
      Booting(s.disk.(ssts := s.disk.ssts[b.nextFileID := FileOf(b.mem)]),
              b.(mem := [], nextFileID := b.nextFileID + 1, tables := b.tables + [MetaFor(b.nextFileID, b.mem)], stage := ToList))
    case ListRecovered =>
      Booting(s.disk.(manifest := s.disk.manifest + Line(s.boot.tables)), s.boot.(stage := Clearing))
    case RemoveWal =>
      Booting(s.disk.(wals := s.disk.wals - {SortedIds(s.disk.wals.Keys)[0]}), s.boot)
    case Activate =>
      Running(s.disk.(wals := s.disk.wals[s.boot.walFileID := []]),
              Mem(s.boot.mem, None, None, s.boot.tables, s.boot.nextFileID, s.boot.walFileID, None, s.boot.walFileID + 1))
    case Log(r) =>
      Logged(s.disk, s.m, r)
    case PreAllocate =>
      Running(s.disk.(wals := s.disk.wals[s.m.walFileID := []]),
              s.m.(nextwal := Some(s.m.walFileID), walFileID := s.m.walFileID + 1))
    case Reserve =>
      Running(s.disk, s.m.(imm := Some(s.m.imm.value.(file := Some(s.m.nextFileID))), nextFileID := s.m.nextFileID + 1))
    case WriteTable =>
      var imm := s.m.imm.value;
      Running(s.disk.(ssts := s.disk.ssts[imm.file.value := FileOf(imm.pairs)]), s.m.(imm := Some(imm.(written := true))))
    case Install =>
      var imm := s.m.imm.value;
      var tables := s.m.tables + [MetaFor(imm.file.value, imm.pairs)];
      Running(s.disk, s.m.(tables := tables, imm := None, tail := Some(Tail(tables, imm.wal, false))))
    case AppendManifest =>
      var tail := s.m.tail.value;
      Running(s.disk.(manifest := s.disk.manifest + Line(tail.snapshot)), s.m.(tail := Some(tail.(listed := true))))
    case RemoveOldWal =>
      Running(s.disk.(wals := s.disk.wals - {s.m.tail.value.wal}), s.m.(tail := None))
    case Compact(merged) => Compacted(s.disk, s.m, merged)
    case Crash => Down(s.disk)
    case CrashTorn(r, n) => Down(Append(s.disk, s.m.wal, Encode(r)[..n]))
  }

  /** A compaction from beginning to end: the merge of the oldest four tables gets a file of its
      own and the newest place, the manifest is appended, the four files go. An empty merge gets
      no file. */
  function Compacted(disk: Disk, m: Mem, merged: seq<Pair>): State
    requires |m.tables| >= Threshold
  {
    var picked, id := m.tables[..Threshold], m.nextFileID;
    var kept := Kept(m.tables, IdSet(picked));
    if merged == [] then
      Running(Disk(disk.ssts - IdSet(picked), disk.manifest + Line(kept), disk.wals), m.(tables := kept))
    else
      var tables := kept + [MetaFor(id, merged)];
      Running(Disk(disk.ssts[id := FileOf(merged)] - IdSet(picked), disk.manifest + Line(tables), disk.wals),
              m.(tables := tables, nextFileID := id + 1))
  }

  function Start(): State { Down(Disk(map[], "", map[])) }

  /** The state that a run from an empty disk reaches, if every step was possible. */
  ghost function After(steps: seq<Step>): Option<State> {
    if steps == [] then Some(Start())
    else
      var n := |steps| - 1;
      var before := After(steps[..n]);
      if before.Some? && Enabled(before.value, steps[n]) then Some(Do(before.value, steps[n])) else None
  }

  /** The operations that were logged in full. */
  ghost function LoggedOps(steps: seq<Step>): seq<Rec> {
    if steps == [] then []
    else
      var n := |steps| - 1;
      LoggedOps(steps[..n]) + if steps[n].Log? then [steps[n].rec] else []
  }

  /** If the step is a compaction, what the merged table says of a key is what the whole list says. */
  ghost predicate HarmlessAt(s: State, step: Step) {
    step.Compact? && s.Running? && |s.m.tables| >= Threshold ==> Harmless(TablesOf(s.disk.ssts, s.m.tables), Threshold)
  }

  /** Every compaction of the run was harmless. Without compactions this holds of every run. */
  ghost predicate CompactionsHarmless(steps: seq<Step>) {
    steps == [] ||
    var n := |steps| - 1;
    CompactionsHarmless(steps[..n]) && (After(steps[..n]).Some? ==> HarmlessAt(After(steps[..n]).value, steps[n]))
  }

  /** The run has no compaction, as with `EnableCompaction` off. */
  predicate NoCompaction(steps: seq<Step>) {
    forall i :: 0 <= i < |steps| ==> !steps[i].Compact?
  }

  lemma {:induction false} NoneIsHarmless(steps: seq<Step>)
    requires NoCompaction(steps)
    ensures CompactionsHarmless(steps)
  {
    if steps != [] {
      NoneIsHarmless(steps[..|steps| - 1]);
    }
  }

  // ------------------------------------------------------------------ reading

  /** The reverse loop over the tables: newest first, skipping those whose range excludes the
      key and those that do not hold it. */
  function FromTables(ssts: map<nat, Bytes>, tables: seq<TableMeta>, key: Bytes): Option<Option<Bytes>> {
    if tables == [] then None
    else
      var n := |tables| - 1;
      var t := tables[n];
      if Less(key, t.meta.minKey) || Less(t.meta.maxKey, key) then FromTables(ssts, tables[..n], key)
      else
        var hit := if t.fileID in ssts then ReadVal(t.meta.index, ssts[t.fileID], key) else None;
        if hit.Some? then hit else FromTables(ssts, tables[..n], key)
  }

  /** `Get`: the memory table, the immutable one, the tables; a tombstone is absence. */
  function Get(disk: Disk, m: Mem, key: Bytes): Option<Bytes> {
    var inMem := Find(m.mem, key);
    var inImm := if m.imm.Some? then Find(m.imm.value.pairs, key) else None;
    var hit := if inMem.Some? then inMem else if inImm.Some? then inImm else FromTables(disk.ssts, m.tables, key);
    if hit.Some? then hit.value else None
  }
}
