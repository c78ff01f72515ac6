/** What a list of logged operations amounts to: as a plain map, as layers that may hold
    tombstones, and as the memory table that replaying it builds. */
module History {
  import opened Ops
  import opened Pairs
  import opened Wal
  import opened MemTable

  function Value(r: Rec): Option<Bytes> {
    match r
    case Put(_, v) => Some(v)
    case Del(_) => None
  }

  /** The plain map that clients see: puts set, deletes remove. */
  ghost function PlainMap(rs: seq<Rec>): map<Bytes, Bytes> {
    if rs == [] then map[]
    else
      var before, r := PlainMap(rs[..|rs| - 1]), rs[|rs| - 1];
      match r
      case Put(k, v) => before[k := v]
      case Del(k) => before - {k}
  }

  /** The same operations as a layer, which remembers deletions. */
  ghost function OpsMap(rs: seq<Rec>): Layer {
    if rs == [] then map[] else OpsMap(rs[..|rs| - 1])[rs[|rs| - 1].key := Value(rs[|rs| - 1])]
  }

  /** Reading a layer with tombstones as absent gives the plain map. */
  lemma {:induction false} LayerIsPlain(rs: seq<Rec>, key: Bytes)
    ensures (if key in OpsMap(rs) then OpsMap(rs)[key] else None) ==
            (if key in PlainMap(rs) then Some(PlainMap(rs)[key]) else None)
  {
    if rs != [] {
      LayerIsPlain(rs[..|rs| - 1], key);
    }
  }

  lemma OpsMore(rs: seq<Rec>, r: Rec)
    ensures OpsMap(rs + [r]) == OpsMap(rs)[r.key := Value(r)]
  {
    assert (rs + [r])[..|rs|] == rs;
  }

  lemma AddLast(a: Layer, b: Layer, key: Bytes, v: Option<Bytes>)
    ensures a + b[key := v] == (a + b)[key := v]
  {
  }

  lemma {:induction false} OpsSplit(a: seq<Rec>, b: seq<Rec>)
    ensures OpsMap(a + b) == OpsMap(a) + OpsMap(b)
  {
    if b == [] {
      assert a + b == a;
    } else {
      var m := |b| - 1;
      OpsSplit(a, b[..m]);
      assert (a + b)[..|a + b| - 1] == a + b[..m];
      AddLast(OpsMap(a), OpsMap(b[..m]), b[m].key, Value(b[m]));
    }
  }

  lemma AddTwice(a: Layer, b: Layer, c: Layer)
    ensures (a + b) + (b + c) == (a + b) + c
  {
  }

  /** Replaying operations again, from any point up to where they were already applied, ends in
      the same state as applying all of them once. */
  lemma ReplayIsIdempotent(ops: seq<Rec>, a: nat, b: nat)
    requires a <= b <= |ops|
    ensures OpsMap(ops[..b]) + OpsMap(ops[a..]) == OpsMap(ops)
  {
    hide OpsMap;
    OpsSplit(ops[..a], ops[a..b]);
    assert ops[..a] + ops[a..b] == ops[..b];
    OpsSplit(ops[a..b], ops[b..]);
    assert ops[a..b] + ops[b..] == ops[a..];
    OpsSplit(ops[..b], ops[b..]);
    assert ops[..b] + ops[b..] == ops;
    AddTwice(OpsMap(ops[..a]), OpsMap(ops[a..b]), OpsMap(ops[b..]));
  }

  lemma {:induction false} NoOps(rs: seq<Rec>)
    ensures OpsMap(rs) == map[] <==> rs == []
  {
    if rs != [] {
      assert rs[|rs| - 1].key in OpsMap(rs);
    }
  }

  // --------------------------------------------------------- the memory table

  /** The table that replaying `rs` into `ps` builds. */
  function StoredAll(ps: seq<Pair>, rs: seq<Rec>): seq<Pair> {
    if rs == [] then ps
    else Stored(StoredAll(ps, rs[..|rs| - 1]), rs[|rs| - 1].key, Value(rs[|rs| - 1]))
  }

  lemma {:induction false} ReplayBuilds(rs: seq<Rec>)
    ensures Sorted(StoredAll([], rs)) && ToMap(StoredAll([], rs)) == OpsMap(rs)
  {
    hide Stored, ToMap;
    if rs == [] {
      EmptyTable();
    } else {
      var m := |rs| - 1;
      ReplayBuilds(rs[..m]);
      StoredIs(StoredAll([], rs[..m]), rs[m].key, Value(rs[m]));
    }
  }

  lemma EmptyTable()
    ensures ToMap([]) == map[]
  {
  }

  lemma {:induction false} StoredAllSplit(ps: seq<Pair>, a: seq<Rec>, b: seq<Rec>)
    ensures StoredAll(ps, a + b) == StoredAll(StoredAll(ps, a), b)
  {
    if b == [] {
      assert a + b == a;
    } else {
      StoredAllSplit(ps, a, b[..|b| - 1]);
      assert (a + b)[..|a + b| - 1] == a + b[..|b| - 1];
    }
  }
}
