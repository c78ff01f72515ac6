/** The manifest: one line of table ids per change of the table list, the last one in force. */
module Manifest {
  import opened Ops
  import opened Codec
  import opened SSTable
  import opened Text

  datatype TableMeta = TableMeta(fileID: nat, meta: Meta)

  function Decimals(ms: seq<TableMeta>): (parts: seq<string>)
    ensures |parts| == |ms|
  {
    if ms == [] then [] else Decimals(ms[..|ms| - 1]) + [Decimal(ms[|ms| - 1].fileID)]
  }

  /** The line that `persistManifest` appends for a snapshot of the list. */
  function Line(snapshot: seq<TableMeta>): string { Join(Decimals(snapshot), ',') + "\n" }

  /** The last line that is not blank, trimmed; empty if there is none. */
  function LastOf(lines: seq<string>): string {
    if lines == [] then ""
    else
      var line := TrimSpace(lines[|lines| - 1]);
      if line != "" then line else LastOf(lines[..|lines| - 1])
  }

  function LastLine(data: string): string { LastOf(Split(data, '\n')) }

  /** The ids that parse, in order; other entries of the line are passed over. */
  function Parsed(parts: seq<string>): seq<nat> {
    if parts == [] then []
    else
      var id := ParseUint(TrimSpace(parts[|parts| - 1]));
      Parsed(parts[..|parts| - 1]) + if id.Some? then [id.value] else []
  }

  /** `metaByID`: for a repeated id the later table counts. */
  function ByID(loaded: seq<TableMeta>): map<nat, TableMeta> {
    if loaded == [] then map[]
    else ByID(loaded[..|loaded| - 1])[loaded[|loaded| - 1].fileID := loaded[|loaded| - 1]]
  }

  function Listed(ids: seq<nat>, byID: map<nat, TableMeta>): seq<TableMeta> {
    if ids == [] then []
    else
      var id := ids[|ids| - 1];
      Listed(ids[..|ids| - 1], byID) + if id in byID then [byID[id]] else []
  }

  function Unlisted(loaded: seq<TableMeta>, ids: seq<nat>): seq<TableMeta> {
    if loaded == [] then []
    else
      var m := loaded[|loaded| - 1];
      Unlisted(loaded[..|loaded| - 1], ids) + if m.fileID in ids then [] else [m]
  }

  /** `applyManifestOrder`; a manifest that does not exist reads as an empty one. */
  function Ordered(data: string, loaded: seq<TableMeta>): seq<TableMeta> {
    var last := LastLine(data);
    if last == "" then loaded
    else
      var ids := Parsed(Split(last, ','));
      Listed(ids, ByID(loaded)) + Unlisted(loaded, ids)
  }

  ghost predicate Distinct(ms: seq<TableMeta>) {
    forall i, j :: 0 <= i < j < |ms| ==> ms[i].fileID != ms[j].fileID
  }

  function IdsOf(ms: seq<TableMeta>): (ids: seq<nat>)
    ensures |ids| == |ms| && forall i :: 0 <= i < |ms| ==> ids[i] == ms[i].fileID
  {
    seq(|ms|, i requires 0 <= i < |ms| => ms[i].fileID)
  }

  // --------------------------------------------------------- reading a line back

  predicate Plain(s: string) {
    forall i :: 0 <= i < |s| ==> IsDigit(s[i])
  }

  lemma {:induction false} DecimalsPlain(ms: seq<TableMeta>)
    ensures forall i :: 0 <= i < |ms| ==> Decimals(ms)[i] == Decimal(ms[i].fileID) && Plain(Decimals(ms)[i])
  {
    hide Decimal;
    if ms != [] {
      DecimalsPlain(ms[..|ms| - 1]);
      NumberBack(ms[|ms| - 1].fileID);
    }
  }

  predicate Tidy(s: string) {
    forall i :: 0 <= i < |s| ==> IsDigit(s[i]) || s[i] == ','
  }

  lemma {:induction false} JoinTidy(parts: seq<string>)
    requires forall i :: 0 <= i < |parts| ==> Plain(parts[i])
    ensures Tidy(Join(parts, ','))
    ensures parts != [] && parts[0] != "" ==> Join(parts, ',') != ""
  {
    if |parts| > 1 {
      JoinTidy(parts[1..]);
    }
  }

  lemma {:induction false} ParsedBack(ms: seq<TableMeta>)
    requires forall i :: 0 <= i < |ms| ==> ms[i].fileID < U64
    ensures Parsed(Decimals(ms)) == IdsOf(ms)
  {
    hide ParseUint, Decimal, TrimSpace;
    if ms != [] {
      var m := |ms| - 1;
      ParsedBack(ms[..m]);
      assert Decimals(ms)[..m] == Decimals(ms[..m]);
      DecimalBack(ms[m].fileID);
      assert IdsOf(ms) == IdsOf(ms[..m]) + [ms[m].fileID];
    }
  }

  /** Every entry of a line counts by itself: a number for its table, anything else for nothing. */
  lemma {:induction false} ParsedSplit(a: seq<string>, x: string, b: seq<string>)
    ensures Parsed(a + [x] + b) ==
              Parsed(a) + (match ParseUint(TrimSpace(x)) case Some(id) => [id] case None => []) + Parsed(b)
  {
    hide ParseUint, TrimSpace;
    if b == [] {
      assert a + [x] + b == a + [x] && (a + [x])[..|a|] == a;
    } else {
      var n := |b| - 1;
      ParsedSplit(a, x, b[..n]);
      assert (a + [x] + b)[..|a| + 1 + n] == a + [x] + b[..n];
    }
  }

  lemma DecimalBack(n: nat)
    requires n < U64
    ensures ParseUint(TrimSpace(Decimal(n))) == Some(n)
  {
    ParseBack(n);
    NumberBack(n);
    TrimNothing(Decimal(n));
  }

  /** Whole lines only, as every append leaves the file. */
  predicate Whole(data: string) { data == "" || data[|data| - 1] == '\n' }

  /** The line just appended is the line in force, unless it is blank: then the one before
      stays in force. */
  lemma AppendedLine(data: string, snapshot: seq<TableMeta>)
    requires Whole(data)
    ensures Whole(data + Line(snapshot))
    ensures LastLine(data + Line(snapshot)) ==
              if snapshot == [] then LastLine(data) else Join(Decimals(snapshot), ',')
  {
    hide Split, Join, LastOf, TrimSpace, Decimals;
    var line := LineParts(snapshot);
    if data == "" {
      assert data + Line(snapshot) == Line(snapshot);
      LastOfTwo([], line);
      assert [] + [line, ""] == [line, ""];
      BlankStart();
    } else {
      var a := data[..|data| - 1];
      assert data + Line(snapshot) == a + ['\n'] + Line(snapshot);
      SplitAt(a, Line(snapshot), '\n');
      assert data == a + ['\n'] + "";
      SplitAt(a, "", '\n');
      SplitPlain("", '\n');
      LastOfTwo(Split(a, '\n'), line);
      LastOfBlank(Split(a, '\n'));
    }
  }

  lemma LineParts(snapshot: seq<TableMeta>) returns (line: string)
    ensures line == Join(Decimals(snapshot), ',') && Line(snapshot) == line + "\n"
    ensures Split(Line(snapshot), '\n') == [line, ""] && TrimSpace(line) == line
    ensures line == "" <==> snapshot == []
  {
    line := Join(Decimals(snapshot), ',');
    DecimalsPlain(snapshot);
    JoinTidy(Decimals(snapshot));
    TrimNothing(line);
    SplitPlain(line, '\n');
    SplitPlain("", '\n');
    assert line + ['\n'] + "" == Line(snapshot);
    SplitAt(line, "", '\n');
  }

  lemma BlankStart()
    ensures LastLine("") == "" && LastOf([]) == ""
  {
    assert [""][..0] == [];
  }

  lemma LastOfBlank(lines: seq<string>)
    ensures LastOf(lines + [""]) == LastOf(lines)
  {
    assert (lines + [""])[..|lines|] == lines;
  }

  lemma LastOfTwo(lines: seq<string>, line: string)
    requires TrimSpace(line) == line
    ensures LastOf(lines + [line, ""]) == if line == "" then LastOf(lines) else line
  {
    assert lines + [line, ""] == (lines + [line]) + [""];
    LastOfBlank(lines + [line]);
    assert (lines + [line])[..|lines|] == lines;
  }

  /** After an append, the order is: the snapshot's tables that were loaded, in the snapshot's
      order, then the other loaded tables in the order they came. */
  lemma AppendedOrder(data: string, snapshot: seq<TableMeta>, loaded: seq<TableMeta>)
    requires Whole(data) && snapshot != [] && forall i :: 0 <= i < |snapshot| ==> snapshot[i].fileID < U64
    ensures Ordered(data + Line(snapshot), loaded) ==
              Listed(IdsOf(snapshot), ByID(loaded)) + Unlisted(loaded, IdsOf(snapshot))
  {
    hide Line, ByID, Listed, Unlisted;
    AppendedLine(data, snapshot);
    DecimalsPlain(snapshot);
    JoinTidy(Decimals(snapshot));
    SplitJoin(Decimals(snapshot), ',');
    ParsedBack(snapshot);
  }

  // --------------------------------------------------------- the order restored

  lemma {:induction false} ByIDFinds(loaded: seq<TableMeta>, i: nat)
    requires Distinct(loaded) && i < |loaded|
    ensures loaded[i].fileID in ByID(loaded) && ByID(loaded)[loaded[i].fileID] == loaded[i]
  {
    if i < |loaded| - 1 {
      ByIDFinds(loaded[..|loaded| - 1], i);
    }
  }

  lemma {:induction false} ByIDKeys(loaded: seq<TableMeta>, id: nat)
    ensures id in ByID(loaded) <==> exists i :: 0 <= i < |loaded| && loaded[i].fileID == id
    ensures id in ByID(loaded) ==> ByID(loaded)[id] in loaded && ByID(loaded)[id].fileID == id
  {
    if loaded != [] {
      ByIDKeys(loaded[..|loaded| - 1], id);
      if i :| 0 <= i < |loaded| && loaded[i].fileID == id {
        assert i < |loaded| - 1 ==> loaded[..|loaded| - 1][i] == loaded[i];
      }
    }
  }

  lemma {:induction false} ListedAll(ms: seq<TableMeta>, byID: map<nat, TableMeta>)
    requires forall i :: 0 <= i < |ms| ==> ms[i].fileID in byID && byID[ms[i].fileID] == ms[i]
    ensures Listed(IdsOf(ms), byID) == ms
  {
    if ms != [] {
      var m := |ms| - 1;
      ListedAll(ms[..m], byID);
      assert IdsOf(ms)[..m] == IdsOf(ms[..m]);
    }
  }

  lemma {:induction false} UnlistedNone(loaded: seq<TableMeta>, ids: seq<nat>)
    requires forall i :: 0 <= i < |loaded| ==> loaded[i].fileID in ids
    ensures Unlisted(loaded, ids) == []
  {
    if loaded != [] {
      UnlistedNone(loaded[..|loaded| - 1], ids);
    }
  }

  /** Round trip: reopening restores exactly the order of the snapshot that was written last,
      in whatever order the directory lists the tables. */
  lemma RoundTrip(data: string, snapshot: seq<TableMeta>, loaded: seq<TableMeta>)
    requires Whole(data) && Distinct(snapshot) && Distinct(loaded)
    requires forall i :: 0 <= i < |snapshot| ==> snapshot[i].fileID < U64
    requires multiset(snapshot) == multiset(loaded)
    ensures Ordered(data + Line(snapshot), loaded) == snapshot
  {
    if snapshot == [] {
      assert |loaded| == |multiset(loaded)| == 0;
      NothingLoaded(data + Line(snapshot));
    } else {
      hide ByID, Listed, Unlisted, Ordered, Line;
      AppendedOrder(data, snapshot, loaded);
      FoundAgain(snapshot, loaded);
      ListedAll(snapshot, ByID(loaded));
      NoneBesides(snapshot, loaded);
      UnlistedNone(loaded, IdsOf(snapshot));
    }
  }

  lemma FoundAgain(snapshot: seq<TableMeta>, loaded: seq<TableMeta>)
    requires Distinct(loaded) && multiset(snapshot) == multiset(loaded)
    ensures forall i :: 0 <= i < |snapshot| ==>
              snapshot[i].fileID in ByID(loaded) && ByID(loaded)[snapshot[i].fileID] == snapshot[i]
  {
    hide ByID;
    forall i | 0 <= i < |snapshot|
      ensures snapshot[i].fileID in ByID(loaded) && ByID(loaded)[snapshot[i].fileID] == snapshot[i]
    {
      assert snapshot[i] in multiset(snapshot);
      var j :| 0 <= j < |loaded| && loaded[j] == snapshot[i];
      ByIDFinds(loaded, j);
    }
  }

  lemma NoneBesides(snapshot: seq<TableMeta>, loaded: seq<TableMeta>)
    requires multiset(snapshot) == multiset(loaded)
    ensures forall i :: 0 <= i < |loaded| ==> loaded[i].fileID in IdsOf(snapshot)
  {
    forall i | 0 <= i < |loaded|
      ensures loaded[i].fileID in IdsOf(snapshot)
    {
      assert loaded[i] in multiset(loaded);
      var j :| 0 <= j < |snapshot| && snapshot[j] == loaded[i];
      assert IdsOf(snapshot)[j] == loaded[i].fileID;
    }
  }

  lemma NothingLoaded(data: string)
    ensures Ordered(data, []) == []
  {
    ListedNone(Parsed(Split(LastLine(data), ',')));
  }

  lemma {:induction false} ListedNone(ids: seq<nat>)
    ensures Listed(ids, map[]) == []
  {
    if ids != [] {
      ListedNone(ids[..|ids| - 1]);
    }
  }

  /** File ids ascend along the list. */
  ghost predicate Rises(ms: seq<TableMeta>) {
    forall i, j :: 0 <= i < j < |ms| ==> ms[i].fileID < ms[j].fileID
  }

  lemma {:induction false} UnlistedRises(loaded: seq<TableMeta>, ids: seq<nat>)
    requires Rises(loaded)
    ensures Rises(Unlisted(loaded, ids))
    ensures forall m :: m in Unlisted(loaded, ids) <==> m in loaded && m.fileID !in ids
  {
    if loaded != [] {
      var n := |loaded| - 1;
      UnlistedRises(loaded[..n], ids);
      assert loaded == loaded[..n] + [loaded[n]];
      var before := Unlisted(loaded[..n], ids);
      forall i | 0 <= i < |before|
        ensures before[i].fileID < loaded[n].fileID
      {
        assert before[i] in loaded[..n];
      }
    }
  }

  /** There is one rising list of a set of tables. */
  lemma {:induction false} RisesUnique(a: seq<TableMeta>, b: seq<TableMeta>)
    requires Rises(a) && Rises(b) && forall m :: m in a <==> m in b
    ensures a == b
  {
    if a != [] && b != [] {
      var k, l := |a| - 1, |b| - 1;
      assert a[k] in b && b[l] in a;
      assert a[k] == b[l];
      forall m
        ensures m in a[..k] <==> m in b[..l]
      {
        WithoutLast(a, m);
        WithoutLast(b, m);
      }
      RisesUnique(a[..k], b[..l]);
      assert a == a[..k] + [a[k]] && b == b[..l] + [b[l]];
    } else {
      HasFirst(a);
      HasFirst(b);
    }
  }

  lemma HasFirst(a: seq<TableMeta>)
    ensures a != [] ==> exists m :: m in a && m == a[0]
  {
    assert a != [] ==> a[0] in a;
  }

  lemma WithoutLast(a: seq<TableMeta>, m: TableMeta)
    requires Rises(a) && a != []
    ensures m in a[..|a| - 1] <==> m in a && m != a[|a| - 1]
  {
    assert a == a[..|a| - 1] + [a[|a| - 1]];
  }

  /** A manifest whose line in force lists the first `n` tables of an order, the others being in
      the order of their ids, restores that order from a directory listing. */
  lemma PartlyListed(data: string, order: seq<TableMeta>, loaded: seq<TableMeta>, n: nat)
    requires Distinct(order) && Rises(loaded) && n <= |order| && Rises(order[n..])
    requires forall m :: m in order <==> m in loaded
    requires forall i :: 0 <= i < |order| ==> order[i].fileID < U64
    requires LastLine(data) == Join(Decimals(order[..n]), ',')
    ensures Ordered(data, loaded) == order
  {
    hide ParseUint, Split, LastLine, ByID, Listed, Unlisted;
    var pre := order[..n];
    if n > 0 {
      DecimalsPlain(pre);
      JoinTidy(Decimals(pre));
      SplitJoin(Decimals(pre), ',');
      ParsedBack(pre);
      ListedFirst(order, loaded, n);
      UnlistedLast(order, loaded, n);
      assert pre + order[n..] == order;
    } else {
      assert order[0..] == order;
      RisesUnique(order, loaded);
    }
  }

  lemma ListedFirst(order: seq<TableMeta>, loaded: seq<TableMeta>, n: nat)
    requires n <= |order| && Rises(loaded) && forall m :: m in order <==> m in loaded
    ensures Listed(IdsOf(order[..n]), ByID(loaded)) == order[..n]
  {
    hide ByID, Listed;
    forall i | 0 <= i < n
      ensures order[i].fileID in ByID(loaded) && ByID(loaded)[order[i].fileID] == order[i]
    {
      assert order[i] in loaded;
      var j :| 0 <= j < |loaded| && loaded[j] == order[i];
      ByIDFinds(loaded, j);
    }
    ListedAll(order[..n], ByID(loaded));
  }

  lemma UnlistedLast(order: seq<TableMeta>, loaded: seq<TableMeta>, n: nat)
    requires n <= |order| && Distinct(order) && Rises(loaded) && Rises(order[n..])
    requires forall m :: m in order <==> m in loaded
    ensures Unlisted(loaded, IdsOf(order[..n])) == order[n..]
  {
    hide Unlisted;
    var ids := IdsOf(order[..n]);
    UnlistedRises(loaded, ids);
    forall m
      ensures m in Unlisted(loaded, ids) <==> m in order[n..]
    {
      if m in order[n..] {
        var i :| 0 <= i < |order[n..]| && order[n..][i] == m;
        assert order[n + i] == m;
      }
      if m in order {
        var i :| 0 <= i < |order| && order[i] == m;
        if i < n {
          assert ids[i] == m.fileID;
        } else {
          assert order[n..][i - n] == m;
        }
      }
    }
    RisesUnique(Unlisted(loaded, ids), order[n..]);
  }

  // --------------------------------------------- when the order is a permutation

  lemma {:induction false} ListedCount(ids: seq<nat>, byID: map<nat, TableMeta>, m: TableMeta)
    requires forall id :: id in byID ==> byID[id].fileID == id
    ensures multiset(Listed(ids, byID))[m] == if m in byID.Values then multiset(ids)[m.fileID] else 0
  {
    if ids != [] {
      var n := |ids| - 1;
      ListedCount(ids[..n], byID, m);
      assert ids == ids[..n] + [ids[n]];
      assert m in byID.Values ==> byID[m.fileID] == m;
    }
  }

  lemma {:induction false} UnlistedCount(loaded: seq<TableMeta>, ids: seq<nat>, m: TableMeta)
    ensures multiset(Unlisted(loaded, ids))[m] == if m.fileID in ids then 0 else multiset(loaded)[m]
  {
    if loaded != [] {
      hide Unlisted;
      var n := |loaded| - 1;
      UnlistedCount(loaded[..n], ids, m);
      CountLast(loaded, m);
      CountMore(Unlisted(loaded[..n], ids), loaded[n], m);
      UnlistedMore(loaded, ids);
    }
  }

  lemma UnlistedMore(loaded: seq<TableMeta>, ids: seq<nat>)
    requires loaded != []
    ensures var n := |loaded| - 1;
            Unlisted(loaded, ids) ==
            if loaded[n].fileID in ids then Unlisted(loaded[..n], ids) else Unlisted(loaded[..n], ids) + [loaded[n]]
  {
    var n := |loaded| - 1;
    assert Unlisted(loaded[..n], ids) + [] == Unlisted(loaded[..n], ids);
  }

  lemma CountLast(s: seq<TableMeta>, m: TableMeta)
    requires s != []
    ensures var n := |s| - 1; multiset(s)[m] == multiset(s[..n])[m] + if s[n] == m then 1 else 0
  {
    CountMore(s[..|s| - 1], s[|s| - 1], m);
    assert s == s[..|s| - 1] + [s[|s| - 1]];
  }

  lemma CountMore(s: seq<TableMeta>, t: TableMeta, m: TableMeta)
    ensures multiset(s + [t])[m] == multiset(s)[m] + if t == m then 1 else 0
  {
  }

  lemma {:induction false} DistinctCount(loaded: seq<TableMeta>, m: TableMeta)
    requires Distinct(loaded)
    ensures multiset(loaded)[m] == if m in loaded then 1 else 0
    ensures m in ByID(loaded).Values <==> m in loaded
  {
    if loaded != [] {
      var n := |loaded| - 1;
      DistinctCount(loaded[..n], m);
      assert loaded == loaded[..n] + [loaded[n]];
      ByIDKeys(loaded[..n], loaded[n].fileID);
      NewValue(ByID(loaded[..n]), loaded[n].fileID, loaded[n], m);
    }
  }

  lemma NewValue(byID: map<nat, TableMeta>, id: nat, x: TableMeta, m: TableMeta)
    requires id !in byID
    ensures m in byID[id := x].Values <==> m == x || m in byID.Values
  {
    var after := byID[id := x];
    if m in byID.Values {
      var k :| k in byID && byID[k] == m;
      assert after[k] == m;
    }
    assert after[id] == x;
  }

  /** Whatever ids a line holds, the order is a permutation of the loaded tables exactly when
      the line repeats no id of a loaded table. */
  lemma OrderIsPermutation(ids: seq<nat>, loaded: seq<TableMeta>)
    requires Distinct(loaded)
    ensures multiset(Listed(ids, ByID(loaded)) + Unlisted(loaded, ids)) == multiset(loaded) <==>
            forall m :: m in loaded ==> multiset(ids)[m.fileID] <= 1
  {
    hide ByID, Listed, Unlisted;
    var byID, order := ByID(loaded), Listed(ids, ByID(loaded)) + Unlisted(loaded, ids);
    forall id | id in byID
      ensures byID[id].fileID == id
    {
      ByIDKeys(loaded, id);
    }
    forall m
      ensures multiset(order)[m] ==
                if m !in loaded then 0 else if m.fileID in ids then multiset(ids)[m.fileID] else 1
    {
      ListedCount(ids, byID, m);
      UnlistedCount(loaded, ids, m);
      DistinctCount(loaded, m);
    }
    forall m
      ensures multiset(loaded)[m] == if m in loaded then 1 else 0
    {
      DistinctCount(loaded, m);
    }
    if multiset(order) == multiset(loaded) {
      forall m | m in loaded
        ensures multiset(ids)[m.fileID] <= 1
      {
        assert multiset(order)[m] == multiset(loaded)[m];
      }
    }
  }

  // ------------------------------------------------------------------- file ids

  /** `bumpNextFileID` over the loaded tables. */
  function NextID(start: nat, loaded: seq<TableMeta>): nat {
    if loaded == [] then start
    else
      var next, id := NextID(start, loaded[..|loaded| - 1]), loaded[|loaded| - 1].fileID;
      if id >= next then id + 1 else next
  }

  /** The next id exceeds every loaded id and is the least such that is not below the start. */
  lemma {:induction false} NextIsFresh(start: nat, loaded: seq<TableMeta>)
    ensures NextID(start, loaded) >= start
    ensures forall i :: 0 <= i < |loaded| ==> loaded[i].fileID < NextID(start, loaded)
    ensures NextID(start, loaded) == start || exists i :: 0 <= i < |loaded| && NextID(start, loaded) == loaded[i].fileID + 1
  {
    if loaded != [] {
      var n := |loaded| - 1;
      NextIsFresh(start, loaded[..n]);
      if NextID(start, loaded[..n]) != start && NextID(start, loaded) == NextID(start, loaded[..n]) {
        var i :| 0 <= i < n && NextID(start, loaded[..n]) == loaded[..n][i].fileID + 1;
        assert loaded[i] == loaded[..n][i];
      }
    }
  }

  // ------------------------------------------------------------------ the loops

  /** `persistManifest`: the file after the append. */
  method PersistManifest(data: string, snapshot: seq<TableMeta>) returns (after: string)
    ensures after == data + Line(snapshot)
  {
    var ids: seq<string> := [];
    for i := 0 to |snapshot|
      invariant ids == Decimals(snapshot[..i])
    {
      assert snapshot[..i + 1][..i] == snapshot[..i];
      ids := ids + [Decimal(snapshot[i].fileID)];
    }
    assert snapshot[..|snapshot|] == snapshot;
    after := data + (Join(ids, ',') + "\n");
  }

  method ApplyManifestOrder(data: string, loadedMetas: seq<TableMeta>) returns (ordered: seq<TableMeta>)
    ensures ordered == Ordered(data, loadedMetas)
  {
    hide ParseUint, Split, LastLine, TrimSpace, Listed, Parsed;
    var last := FindLastLine(data);
    if last == "" {
      return loadedMetas;
    }
    var metaByID: map<nat, TableMeta> := map[];
    for i := 0 to |loadedMetas|
      invariant metaByID == ByID(loadedMetas[..i])
    {
      assert loadedMetas[..i + 1][..i] == loadedMetas[..i];
      metaByID := metaByID[loadedMetas[i].fileID := loadedMetas[i]];
    }
    assert loadedMetas[..|loadedMetas|] == loadedMetas;
    ordered := [];
    var seen: set<nat>, parts := {}, Split(last, ',');
    NothingParsed(parts, metaByID);
    for i := 0 to |parts|
      invariant ordered == Listed(Parsed(parts[..i]), metaByID)
      invariant forall id :: id in seen <==> id in Parsed(parts[..i]) && id in metaByID
    {
      var id := ParseUint(TrimSpace(parts[i]));
      ParsedMore(parts, i);
      if id.Some? {
        ListedMore(Parsed(parts[..i]), id.value, metaByID);
        if id.value in metaByID {
          ordered := ordered + [metaByID[id.value]];
          seen := seen + {id.value};
        }
      }
    }
    assert parts[..|parts|] == parts;
    ghost var listed := ordered;
    for i := 0 to |loadedMetas|
      invariant ordered == listed + Unlisted(loadedMetas[..i], Parsed(parts))
    {
      assert loadedMetas[..i + 1][..i] == loadedMetas[..i];
      ByIDKeys(loadedMetas, loadedMetas[i].fileID);
      if loadedMetas[i].fileID !in seen {
        ordered := ordered + [loadedMetas[i]];
      }
    }
  }

  lemma NothingParsed(parts: seq<string>, byID: map<nat, TableMeta>)
    ensures Parsed(parts[..0]) == [] && Listed([], byID) == []
  {
  }

  lemma ParsedMore(parts: seq<string>, i: nat)
    requires i < |parts|
    ensures var id := ParseUint(TrimSpace(parts[i]));
            Parsed(parts[..i + 1]) == if id.Some? then Parsed(parts[..i]) + [id.value] else Parsed(parts[..i])
  {
    assert parts[..i + 1][..i] == parts[..i];
  }

  lemma ListedMore(ids: seq<nat>, id: nat, byID: map<nat, TableMeta>)
    ensures Listed(ids + [id], byID) == Listed(ids, byID) + if id in byID then [byID[id]] else []
  {
    assert (ids + [id])[..|ids|] == ids;
  }

  method FindLastLine(data: string) returns (last: string)
    ensures last == LastLine(data)
  {
    var lines := Split(data, '\n');
    var i := |lines|;
    assert lines[..i] == lines;
    while i > 0
      invariant 0 <= i <= |lines| && LastOf(lines) == LastOf(lines[..i])
    {
      i := i - 1;
      assert lines[..i + 1][..i] == lines[..i];
      var line := TrimSpace(lines[i]);
      if line != "" {
        return line;
      }
    }
    last := "";
  }
}
