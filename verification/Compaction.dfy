/** Compaction: which tables are merged, where the merged table goes, and which lookups that
    preserves. */
module Compaction {
  import opened Ops
  import opened Pairs
  import opened Tables
  import opened Merge
  import opened Manifest
  import SSTable

  const Threshold := 4

  function PairsOf(ts: seq<Table>): (ps: seq<seq<Pair>>)
    ensures |ps| == |ts| && forall i :: 0 <= i < |ts| ==> ps[i] == ts[i].pairs
  {
    seq(|ts|, i requires 0 <= i < |ts| => ts[i].pairs)
  }

  /** `pickCompactionFiles`: the oldest four tables, once there are four. */
  function Picked(tables: seq<TableMeta>): seq<TableMeta> {
    if |tables| < Threshold then [] else tables[..Threshold]
  }

  /** The tables that stay: those whose id is not among the obsolete. */
  function Kept(tables: seq<TableMeta>, obsolete: set<nat>): seq<TableMeta> {
    if tables == [] then []
    else
      var n := |tables| - 1;
      Kept(tables[..n], obsolete) + if tables[n].fileID in obsolete then [] else [tables[n]]
  }

  function IdSet(tables: seq<TableMeta>): set<nat> {
    set t | t in tables :: t.fileID
  }

  /** `installCompactedTable`: the kept tables in their order, then the merged one, last. */
  method InstallCompacted(sstables: seq<TableMeta>, newSST: Option<TableMeta>, oldSSTs: seq<TableMeta>)
    returns (after: seq<TableMeta>)
    ensures after == Kept(sstables, IdSet(oldSSTs)) + if newSST.Some? then [newSST.value] else []
  {
    var obsolete: set<nat> := {};
    for i := 0 to |oldSSTs|
      invariant obsolete == IdSet(oldSSTs[..i])
    {
      obsolete := obsolete + {oldSSTs[i].fileID};
      assert oldSSTs[..i + 1] == oldSSTs[..i] + [oldSSTs[i]];
    }
    assert oldSSTs[..|oldSSTs|] == oldSSTs;
    after := [];
    for i := 0 to |sstables|
      invariant after == Kept(sstables[..i], obsolete)
    {
      assert sstables[..i + 1][..i] == sstables[..i];
      if sstables[i].fileID !in obsolete {
        after := after + [sstables[i]];
      }
    }
    assert sstables[..|sstables|] == sstables;
    if newSST.Some? {
      after := after + [newSST.value];
    }
  }

  /** With distinct ids, dropping a prefix by id leaves exactly the rest, in order; tables that
      were flushed meanwhile are part of the rest. */
  lemma {:induction false} KeptIsRest(tables: seq<TableMeta>, n: nat)
    requires n <= |tables| && Manifest.Distinct(tables)
    ensures Kept(tables, IdSet(tables[..n])) == tables[n..]
  {
    if n == |tables| {
      KeptNone(tables, IdSet(tables[..n]));
    } else {
      var m := |tables| - 1;
      KeptIsRest(tables[..m], n);
      assert tables[..m][..n] == tables[..n];
      assert tables[n..] == tables[..m][n..] + [tables[m]];
      LastIsKept(tables, n);
    }
  }

  lemma LastIsKept(tables: seq<TableMeta>, n: nat)
    requires n < |tables| && Manifest.Distinct(tables)
    ensures tables[|tables| - 1].fileID !in IdSet(tables[..n])
  {
  }

  lemma {:induction false} KeptNone(tables: seq<TableMeta>, obsolete: set<nat>)
    requires forall i :: 0 <= i < |tables| ==> tables[i].fileID in obsolete
    ensures Kept(tables, obsolete) == []
  {
    if tables != [] {
      KeptNone(tables[..|tables| - 1], obsolete);
    }
  }

  // ------------------------------------------------- merging is overlaying, almost

  /** What the merge of tables says of a key that they mention: what the newest of them says (of
      the empty key, what the oldest says), except that an empty value becomes a tombstone. */
  ghost function MergeValue(ts: seq<Table>, key: Bytes): Option<Bytes> {
    Copied(if key == [] then Visible(Eldest(ts), key) else Visible(Overlay(ts), key))
  }

  lemma MergeMentions(ts: seq<Table>, out: seq<Pair>, key: Bytes)
    requires IsMerge(PairsOf(ts), out)
    ensures key in ToMap(out) <==> key in Overlay(ts)
  {
    hide Sorted, ToMap, Overlay, Decides;
    if key in ToMap(out) {
      var j :| 0 <= j < |ts| && key in ToMap(PairsOf(ts)[j]);
      MentionedIsThere(ts, j, key);
    }
    if key in Overlay(ts) {
      var j := NewestDecides(ts, key);
      assert key in ToMap(PairsOf(ts)[j]);
    }
  }

  /** Some table decides every key that is mentioned: the oldest or the newest. */
  lemma DeciderExists(ts: seq<Table>, key: Bytes) returns (j: nat)
    requires key in Overlay(ts)
    ensures Decides(PairsOf(ts), key, j) && MergeValue(ts, key) == Copied(ToMap(ts[j].pairs)[key])
  {
    hide ToMap, Overlay, Eldest;
    if key == [] {
      j := OldestDecides(ts, key);
      forall i | 0 <= i < |ts| && key in ToMap(PairsOf(ts)[i])
        ensures j <= i
      {
      }
    } else {
      j := NewestDecides(ts, key);
      forall i | 0 <= i < |ts| && key in ToMap(PairsOf(ts)[i])
        ensures i <= j
      {
      }
    }
  }

  /** The merged table says of every key that its inputs mention what `MergeValue` says. */
  lemma MergeSays(ts: seq<Table>, out: seq<Pair>, key: Bytes)
    requires IsMerge(PairsOf(ts), out) && key in Overlay(ts)
    ensures key in ToMap(out) && ToMap(out)[key] == MergeValue(ts, key)
  {
    hide Sorted, ToMap, Overlay, MergeValue;
    MergeMentions(ts, out, key);
    var j := DeciderExists(ts, key);
  }

  lemma MergeMap(ts: seq<Table>, out: seq<Pair>)
    requires IsMerge(PairsOf(ts), out)
    ensures ToMap(out).Keys == Overlay(ts).Keys
    ensures forall key :: key in Overlay(ts) ==> ToMap(out)[key] == MergeValue(ts, key)
  {
    hide Sorted, ToMap, Overlay, IsMerge, MergeValue;
    forall key
      ensures key in ToMap(out) <==> key in Overlay(ts)
      ensures key in Overlay(ts) ==> ToMap(out)[key] == MergeValue(ts, key)
    {
      MergeMentions(ts, out, key);
      if key in Overlay(ts) {
        MergeSays(ts, out, key);
      }
    }
  }

  /** Spelt out: the newest input decides (the oldest, for the empty key), and an empty value becomes
      a tombstone. */
  lemma MergeKeeps(ts: seq<Table>, out: seq<Pair>, key: Bytes)
    requires IsMerge(PairsOf(ts), out) && key in Overlay(ts)
    ensures key in ToMap(out)
    ensures key != [] ==> ToMap(out)[key] == if Overlay(ts)[key] == Some([]) then None else Overlay(ts)[key]
    ensures key == [] && key in Eldest(ts) ==>
              ToMap(out)[key] == if Eldest(ts)[key] == Some([]) then None else Eldest(ts)[key]
  {
    hide Sorted, ToMap, Overlay, IsMerge, Eldest;
    MergeMap(ts, out);
  }

  /** A compaction takes the first four tables of the list, once there are four. */
  lemma PicksOldestFour(tables: seq<TableMeta>)
    ensures Picked(tables) == if |tables| >= 4 then tables[..4] else []
  {
  }

  /** Non-empty keys and values, as the client interface demands. */
  ghost predicate NoEmpties(ts: seq<Table>) {
    forall key :: key in Overlay(ts) ==> key != [] && Overlay(ts)[key] != Some([])
  }

  /** With them the merge is exactly what its inputs together said. */
  lemma MergeIsOverlay(ts: seq<Table>, out: seq<Pair>)
    requires IsMerge(PairsOf(ts), out) && NoEmpties(ts)
    ensures ToMap(out) == Overlay(ts)
  {
    hide Sorted, ToMap, Overlay, IsMerge, Eldest;
    MergeMap(ts, out);
  }

  /** The merge of tables that fit the format fits it too, and is not empty unless they all are. */
  lemma MergeFits(ts: seq<Table>, out: seq<Pair>)
    requires IsMerge(PairsOf(ts), out)
    requires forall i :: 0 <= i < |ts| ==> Sorted(ts[i].pairs) && SSTable.AllFit(ts[i].pairs)
    ensures Sorted(out) && SSTable.AllFit(out)
    ensures out == [] ==> forall i :: 0 <= i < |ts| ==> ts[i].pairs == []
  {
    hide ToMap, Overlay, Sorted;
    forall i | 0 <= i < |out|
      ensures SSTable.Fits(out[i])
    {
      MapAt(out, i);
      MergeMentions(ts, out, out[i].key);
      var j := DeciderExists(ts, out[i].key);
      MapKeys(ts[j].pairs, out[i].key);
      var k :| 0 <= k < |ts[j].pairs| && ts[j].pairs[k].key == out[i].key;
      MapAt(ts[j].pairs, k);
      assert out[i] == Pair(out[i].key, Copied(ts[j].pairs[k].value));
    }
    if out == [] {
      forall i | 0 <= i < |ts|
        ensures ts[i].pairs == []
      {
        if ts[i].pairs != [] {
          MapAt(ts[i].pairs, 0);
          assert ts[i].pairs[0].key in ToMap(PairsOf(ts)[i]);
          EmptySays(ts[i].pairs[0].key);
        }
      }
    }
  }

  lemma EmptySays(key: Bytes)
    ensures key !in ToMap([])
  {
  }

  // ------------------------------------------------- which lookups survive

  ghost predicate SeenSame(a: Layer, b: Layer) {
    forall key :: Visible(a, key) == Visible(b, key)
  }

  ghost predicate SameLookups(a: seq<Table>, b: seq<Table>) { SeenSame(Overlay(a), Overlay(b)) }

  lemma Halves(ts: seq<Table>, n: nat)
    requires n <= |ts|
    ensures Overlay(ts) == Overlay(ts[..n]) + Overlay(ts[n..])
  {
    hide Overlay;
    OverlaySplit(ts[..n], ts[n..]);
    assert ts[..n] + ts[n..] == ts;
  }

  /** Replacing layer `p` by `m`, which mentions the same keys. */
  lemma FrontHides(p: Layer, m: Layer, rest: Layer)
    requires m.Keys == p.Keys
    ensures (forall key :: Visible(p + rest, key) == Visible(m + rest, key)) <==>
            forall key :: key in p && key !in rest ==> m[key] == p[key]
  {
    if forall key :: Visible(p + rest, key) == Visible(m + rest, key) {
      forall key | key in p && key !in rest
        ensures m[key] == p[key]
      {
        assert Visible(p + rest, key) == Visible(m + rest, key);
      }
    }
  }

  /** The intended placement: the merged table where its inputs were, at the old end. Lookups
      survive exactly when the merge keeps what its inputs say of every key that only they
      mention. */
  lemma FrontPlacement(ts: seq<Table>, n: nat, merged: Table)
    requires n <= |ts| && IsMerge(PairsOf(ts[..n]), merged.pairs)
    ensures SameLookups(ts, [merged] + ts[n..]) <==>
            forall key :: key in Overlay(ts[..n]) && key !in Overlay(ts[n..]) ==>
              MergeValue(ts[..n], key) == Overlay(ts[..n])[key]
  {
    hide Sorted, ToMap, Overlay, IsMerge, MergeValue;
    MergeMap(ts[..n], merged.pairs);
    OverlaySplit([merged], ts[n..]);
    OverlayOne(merged);
    Halves(ts, n);
    FrontHides(Overlay(ts[..n]), ToMap(merged.pairs), Overlay(ts[n..]));
  }

  /** With the keys and values that clients can send, the intended placement changes nothing. */
  lemma FrontPreserves(ts: seq<Table>, n: nat, merged: Table)
    requires n <= |ts| && IsMerge(PairsOf(ts[..n]), merged.pairs) && NoEmpties(ts[..n])
    ensures Overlay([merged] + ts[n..]) == Overlay(ts)
  {
    hide *;
    MergeIsOverlay(ts[..n], merged.pairs);
    OverlaySplit([merged], ts[n..]);
    OverlayOne(merged);
    Halves(ts, n);
  }

  /** What the merge of the first `n` tables says of every key is what the whole list says. */
  ghost predicate Harmless(ts: seq<Table>, n: nat)
    requires n <= |ts|
  {
    forall key :: key in Overlay(ts[..n]) ==> key in Overlay(ts) && MergeValue(ts[..n], key) == Overlay(ts)[key]
  }

  /** On the keys of `p`, `m` says what `l` says. */
  ghost predicate SaysAs(m: Layer, l: Layer, p: Layer) {
    forall key :: key in p ==> key in m && key in l && m[key] == l[key]
  }

  lemma LastWins(p: Layer, m: Layer, rest: Layer, before: Layer, after: Layer)
    requires m.Keys == p.Keys && before == p + rest && after == rest + m
    ensures SeenSame(before, after) <==> SaysAs(m, before, p)
    ensures SaysAs(m, before, p) ==> after == before
  {
    if SeenSame(before, after) {
      forall key | key in p
        ensures m[key] == before[key]
      {
        assert Visible(before, key) == Visible(after, key);
      }
    }
  }

  lemma HarmlessIs(ts: seq<Table>, n: nat, m: Layer)
    requires n <= |ts| && m.Keys == Overlay(ts[..n]).Keys
    requires forall key :: key in Overlay(ts[..n]) ==> m[key] == MergeValue(ts[..n], key)
    ensures Harmless(ts, n) <==> SaysAs(m, Overlay(ts), Overlay(ts[..n]))
  {
    hide Overlay, MergeValue;
  }

  /** The placement of the code: at the new end. Lookups survive exactly when what the merge says
      of every key is what the whole list says; then the list says the same as before. */
  lemma LastPlacement(ts: seq<Table>, n: nat, merged: Table)
    requires n <= |ts| && IsMerge(PairsOf(ts[..n]), merged.pairs)
    ensures SameLookups(ts, ts[n..] + [merged]) <==> Harmless(ts, n)
    ensures Harmless(ts, n) ==> Overlay(ts[n..] + [merged]) == Overlay(ts)
  {
    hide *;
    SameIs(ts, ts[n..] + [merged]);
    HarmlessMerge(ts, n, merged.pairs);
    LastLayers(ts, n, merged);
  }

  lemma HarmlessMerge(ts: seq<Table>, n: nat, out: seq<Pair>)
    requires n <= |ts| && IsMerge(PairsOf(ts[..n]), out)
    ensures ToMap(out).Keys == Overlay(ts[..n]).Keys
    ensures Harmless(ts, n) <==> SaysAs(ToMap(out), Overlay(ts), Overlay(ts[..n]))
  {
    hide *;
    MergeMap(ts[..n], out);
    HarmlessIs(ts, n, ToMap(out));
  }

  lemma LastLayers(ts: seq<Table>, n: nat, merged: Table)
    requires n <= |ts| && ToMap(merged.pairs).Keys == Overlay(ts[..n]).Keys
    ensures SeenSame(Overlay(ts), Overlay(ts[n..] + [merged])) <==> SaysAs(ToMap(merged.pairs), Overlay(ts), Overlay(ts[..n]))
    ensures SaysAs(ToMap(merged.pairs), Overlay(ts), Overlay(ts[..n])) ==> Overlay(ts[n..] + [merged]) == Overlay(ts)
  {
    hide *;
    OverlaySplit(ts[n..], [merged]);
    OverlayOne(merged);
    Halves(ts, n);
    LastWins(Overlay(ts[..n]), ToMap(merged.pairs), Overlay(ts[n..]), Overlay(ts), Overlay(ts[n..] + [merged]));
  }

  lemma SameIs(a: seq<Table>, b: seq<Table>)
    ensures SameLookups(a, b) <==> SeenSame(Overlay(a), Overlay(b))
  {
  }

  /** With the keys and values that clients can send, a compaction is harmless exactly when every
      key that both a merged and a kept table mention is said to be the same by both. */
  lemma HarmlessForClients(ts: seq<Table>, n: nat)
    requires n <= |ts| && NoEmpties(ts[..n])
    ensures Harmless(ts, n) <==>
            forall key :: key in Overlay(ts[..n]) && key in Overlay(ts[n..]) ==>
              Overlay(ts[..n])[key] == Overlay(ts[n..])[key]
  {
    hide Overlay, Eldest;
    Halves(ts, n);
    var p, rest := Overlay(ts[..n]), Overlay(ts[n..]);
    forall key | key in p
      ensures MergeValue(ts[..n], key) == p[key]
    {
    }
    if Harmless(ts, n) {
      forall key | key in p && key in rest
        ensures p[key] == rest[key]
      {
        assert MergeValue(ts[..n], key) == Overlay(ts)[key];
      }
    }
  }

  /** When the kept tables share no key with the merged ones, lookups survive exactly when the
      merge itself loses nothing; with client data it never does. */
  lemma DisjointIsSafe(ts: seq<Table>, n: nat, merged: Table)
    requires n <= |ts| && IsMerge(PairsOf(ts[..n]), merged.pairs)
    requires forall key :: key in ToMap(merged.pairs) ==> key !in Overlay(ts[n..])
    ensures SameLookups(ts, ts[n..] + [merged]) <==>
            forall key :: key in Overlay(ts[..n]) ==> MergeValue(ts[..n], key) == Overlay(ts[..n])[key]
    ensures NoEmpties(ts[..n]) ==> SameLookups(ts, ts[n..] + [merged])
  {
    hide Sorted, ToMap, Overlay, IsMerge, SameLookups, Eldest;
    MergeMap(ts[..n], merged.pairs);
    Halves(ts, n);
    LastPlacement(ts, n, merged);
  }

  // ------------------------------------------------- a compaction that loses a write

  const K: Bytes := [107]

  function OneKey(id: nat, value: Option<Bytes>): Table { Table(id, [Pair(K, value)]) }

  /** Four tables that set a key, then a fifth that deletes it. */
  function FiveTables(): seq<Table> {
    [OneKey(1, Some([1])), OneKey(2, Some([1])), OneKey(3, Some([1])), OneKey(4, Some([1])), OneKey(5, None)]
  }

  /** The compaction of the code brings the deleted value back: the first four tables are
      merged into a new table, which then hides the tombstone of the fifth. */
  lemma DeletedKeyReturns(merged: Table)
    requires IsMerge(PairsOf(FiveTables()[..Threshold]), merged.pairs)
    ensures Visible(Overlay(FiveTables()), K) == None
    ensures Visible(Overlay(FiveTables()[Threshold..] + [merged]), K) == Some([1])
  {
    hide Sorted, IsMerge, Overlay;
    var ts := FiveTables();
    forall i | 0 <= i < 5
      ensures ToMap(ts[i].pairs) == map[K := ts[i].pairs[0].value]
    {
      MapOne(ts[i].pairs[0]);
    }
    hide ToMap;
    assert ts[4..] == [ts[4]];
    OverlayOne(ts[4]);
    OverlayOne(merged);
    OverlaySplit([ts[4]], [merged]);
    OverlayOne(ts[3]);
    Halves(ts, 4);
    Halves(ts[..4], 3);
    assert ts[..4][3..] == [ts[3]];
    MergeMentions(ts[..4], merged.pairs, K);
    MergeSays(ts[..4], merged.pairs, K);
  }
}
