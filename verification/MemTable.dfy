/** The memory table of memtable.go: a sorted slice with binary search and size accounting. */
module MemTable {
  import opened Ops
  import opened Codec
  import opened Pairs

  function ValueLen(v: Option<Bytes>): nat { if v.Some? then |v.value| else 0 }

  /** The bytes that the flush threshold counts. */
  function Size(ps: seq<Pair>): nat {
    if ps == [] then 0
    else Size(ps[..|ps| - 1]) + |ps[|ps| - 1].key| + ValueLen(ps[|ps| - 1].value)
  }

  lemma SizeMore(ps: seq<Pair>, p: Pair)
    ensures Size(ps + [p]) == Size(ps) + |p.key| + ValueLen(p.value)
  {
    assert (ps + [p])[..|ps|] == ps;
  }

  lemma {:induction false} SizeSplit(a: seq<Pair>, b: seq<Pair>)
    ensures Size(a + b) == Size(a) + Size(b)
  {
    if b == [] {
      assert a + b == a;
    } else {
      hide Size, ValueLen;
      var n := |b| - 1;
      SizeSplit(a, b[..n]);
      SizeMore(a + b[..n], b[n]);
      SizeMore(b[..n], b[n]);
      assert a + b == (a + b[..n]) + [b[n]] && b == b[..n] + [b[n]];
    }
  }

  lemma SizeOne(p: Pair)
    ensures Size([p]) == |p.key| + ValueLen(p.value)
  {
    assert [p][..0] == [];
    assert Size([]) == 0;
  }

  /** A sorted table is determined by its map. */
  lemma {:induction false} SortedUnique(a: seq<Pair>, b: seq<Pair>)
    requires Sorted(a) && Sorted(b) && ToMap(a) == ToMap(b)
    ensures a == b
    decreases |a| + |b|
  {
    if a == [] || b == [] {
      if a != [] { MapAt(a, 0); }
      if b != [] { MapAt(b, 0); }
    } else {
      var p, q := a[|a| - 1], b[|b| - 1];
      MapAt(a, |a| - 1);
      MapAt(b, |b| - 1);
      LastIsGreatest(a, q.key);
      LastIsGreatest(b, p.key);
      Trichotomy(p.key, q.key);
      var a', b' := a[..|a| - 1], b[..|b| - 1];
      ButLast(a);
      ButLast(b);
      SortedUnique(a', b');
      assert a == a' + [p] && b == b' + [q];
    }
  }

  lemma LastIsGreatest(ps: seq<Pair>, key: Bytes)
    requires Sorted(ps) && ps != [] && key in ToMap(ps)
    ensures !Less(ps[|ps| - 1].key, key)
  {
    MapKeys(ps, key);
    var i :| 0 <= i < |ps| && ps[i].key == key;
    Trichotomy(ps[i].key, ps[|ps| - 1].key);
  }

  lemma ButLast(ps: seq<Pair>)
    requires Sorted(ps) && ps != []
    ensures ToMap(ps[..|ps| - 1]) == ToMap(ps) - {ps[|ps| - 1].key}
  {
    hide Compare;
    var k := ps[|ps| - 1].key;
    MapGap(ps[..|ps| - 1], |ps| - 1, k);
    AddRemove(ToMap(ps[..|ps| - 1]), k, ps[|ps| - 1].value);
  }

  lemma AddRemove(m: Layer, k: Bytes, v: Option<Bytes>)
    requires k !in m
    ensures m[k := v] - {k} == m
  {
  }

  /** The pairs after `Put`: overwrite at the lower bound, or insert there. */
  function PutAt(ps: seq<Pair>, i: nat, key: Bytes, val: Option<Bytes>): seq<Pair>
    requires i <= |ps|
  {
    if i < |ps| && ps[i].key == key then ps[i := Pair(key, val)]
    else ps[..i] + [Pair(key, val)] + ps[i..]
  }

  lemma PutSorted(ps: seq<Pair>, i: nat, key: Bytes, val: Option<Bytes>)
    requires Sorted(ps) && IsLowerBound(ps, key, i)
    ensures Sorted(PutAt(ps, i, key, val))
  {
    if !(i < |ps| && ps[i].key == key) {
      forall j | i <= j < |ps|
        ensures Less(key, ps[j].key)
      {
        if j > i { assert Less(ps[i].key, ps[j].key); }
        Trichotomy(key, ps[j].key);
        Trichotomy(ps[j].key, key);
      }
    }
  }

  lemma PutMap(ps: seq<Pair>, i: nat, key: Bytes, val: Option<Bytes>)
    requires Sorted(ps) && IsLowerBound(ps, key, i)
    ensures ToMap(PutAt(ps, i, key, val)) == ToMap(ps)[key := val]
  {
    hide ToMap, Less, Sorted;
    PutSorted(ps, i, key, val);
    if i < |ps| && ps[i].key == key {
      PutOver(ps, i, key, val);
    } else {
      PutBetween(ps, i, key, val);
    }
  }

  lemma PutOver(ps: seq<Pair>, i: nat, key: Bytes, val: Option<Bytes>)
    requires Sorted(ps) && i < |ps| && ps[i].key == key && Sorted(PutAt(ps, i, key, val))
    ensures ToMap(PutAt(ps, i, key, val)) == ToMap(ps)[key := val]
  {
    hide ToMap, Less, Sorted;
    var p, tail := Pair(key, val), ps[i + 1..];
    assert PutAt(ps, i, key, val) == ps[..i] + ([p] + tail) && ps == ps[..i] + ([ps[i]] + tail);
    Splice(ps[..i], p, tail);
    Splice(ps[..i], ps[i], tail);
    TailLacks(ps, i + 1, i, key, val);
    Overwrite(ToMap(ps[..i]), ToMap(tail), key, ps[i].value, val);
  }

  lemma PutBetween(ps: seq<Pair>, i: nat, key: Bytes, val: Option<Bytes>)
    requires Sorted(ps) && i <= |ps| && (i < |ps| ==> ps[i].key != key) && Sorted(PutAt(ps, i, key, val))
    ensures ToMap(PutAt(ps, i, key, val)) == ToMap(ps)[key := val]
  {
    hide ToMap, Less, Sorted;
    var p, tail := Pair(key, val), ps[i..];
    assert PutAt(ps, i, key, val) == ps[..i] + ([p] + tail) && ps == ps[..i] + tail;
    Splice(ps[..i], p, tail);
    MapSplit(ps[..i], tail);
    TailLacks(ps, i, i, key, val);
    Insert(ToMap(ps[..i]), ToMap(tail), key, val);
  }

  lemma Splice(head: seq<Pair>, p: Pair, tail: seq<Pair>)
    ensures ToMap(head + ([p] + tail)) == ToMap(head) + (map[p.key := p.value] + ToMap(tail))
  {
    MapOne(p);
    MapSplit(head, [p] + tail);
    MapSplit([p], tail);
  }

  lemma Insert(a: Layer, b: Layer, key: Bytes, val: Option<Bytes>)
    requires key !in b
    ensures a + (map[key := val] + b) == (a + b)[key := val]
  {
  }

  lemma Overwrite(a: Layer, b: Layer, key: Bytes, prior: Option<Bytes>, val: Option<Bytes>)
    requires key !in b
    ensures a + (map[key := val] + b) == (a + (map[key := prior] + b))[key := val]
  {
  }

  /** Nothing beyond the place of `key` mentions it. */
  lemma TailLacks(ps: seq<Pair>, from: nat, i: nat, key: Bytes, val: Option<Bytes>)
    requires i <= from <= |ps| && Sorted(PutAt(ps, i, key, val))
    requires from == if i < |ps| && ps[i].key == key then i + 1 else i
    requires Sorted(ps)
    ensures key !in ToMap(ps[from..])
  {
    hide Compare;
    var q := PutAt(ps, i, key, val);
    if from < |ps| {
      assert q[i].key == key && q[i + 1] == ps[from];
    }
    MapGap(ps[from..], 0, key);
  }

  /** The index that binary search finds. */
  function LowerIndex(ps: seq<Pair>, key: Bytes): (i: nat)
    ensures i <= |ps|
  {
    if ps == [] || !Less(ps[0].key, key) then 0 else 1 + LowerIndex(ps[1..], key)
  }

  lemma {:induction false} LowerIndexIs(ps: seq<Pair>, key: Bytes, i: nat)
    requires IsLowerBound(ps, key, i)
    ensures LowerIndex(ps, key) == i
  {
    if i > 0 {
      LowerIndexIs(ps[1..], key, i - 1);
    }
  }

  lemma {:induction false} LowerIndexBounds(ps: seq<Pair>, key: Bytes)
    requires Sorted(ps)
    ensures IsLowerBound(ps, key, LowerIndex(ps, key))
  {
    if ps != [] {
      if Less(ps[0].key, key) {
        LowerIndexBounds(ps[1..], key);
        forall j | 1 <= j < LowerIndex(ps, key)
          ensures Less(ps[j].key, key)
        {
          assert ps[j] == ps[1..][j - 1];
        }
        forall j | LowerIndex(ps, key) <= j < |ps|
          ensures !Less(ps[j].key, key)
        {
          assert ps[j] == ps[1..][j - 1];
        }
      } else {
        forall j | 0 < j < |ps|
          ensures !Less(ps[j].key, key)
        {
          if Less(ps[j].key, key) {
            LessTrans(ps[0].key, ps[j].key, key);
          }
        }
      }
    }
  }

  /** `MemTable.Put`. */
  function Stored(ps: seq<Pair>, key: Bytes, val: Option<Bytes>): seq<Pair> {
    PutAt(ps, LowerIndex(ps, key), key, val)
  }

  lemma StoredIs(ps: seq<Pair>, key: Bytes, val: Option<Bytes>)
    requires Sorted(ps)
    ensures Sorted(Stored(ps, key, val)) && ToMap(Stored(ps, key, val)) == ToMap(ps)[key := val]
  {
    LowerIndexBounds(ps, key);
    PutSorted(ps, LowerIndex(ps, key), key, val);
    PutMap(ps, LowerIndex(ps, key), key, val);
  }

  /** `MemTable.Get`. */
  function Find(ps: seq<Pair>, key: Bytes): Option<Option<Bytes>> {
    var i := LowerIndex(ps, key);
    if i < |ps| && ps[i].key == key then Some(ps[i].value) else None
  }

  lemma FindIs(ps: seq<Pair>, key: Bytes)
    requires Sorted(ps)
    ensures Find(ps, key) == if key in ToMap(ps) then Some(ToMap(ps)[key]) else None
  {
    LowerIndexBounds(ps, key);
    LowerBoundFinds(ps, key, LowerIndex(ps, key));
  }

  lemma PutSize(ps: seq<Pair>, i: nat, key: Bytes, val: Option<Bytes>)
    requires i <= |ps|
    ensures Size(PutAt(ps, i, key, val)) == Size(ps) +
              if i < |ps| && ps[i].key == key then ValueLen(val) - ValueLen(ps[i].value)
              else |key| + ValueLen(val)
  {
    hide Size, ValueLen;
    if i < |ps| && ps[i].key == key {
      SizeAt(ps[..i], Pair(key, val), ps[i + 1..]);
      SizeAt(ps[..i], ps[i], ps[i + 1..]);
      assert PutAt(ps, i, key, val) == ps[..i] + ([Pair(key, val)] + ps[i + 1..]);
      assert ps == ps[..i] + ([ps[i]] + ps[i + 1..]);
    } else {
      SizeAt(ps[..i], Pair(key, val), ps[i..]);
      SizeSplit(ps[..i], ps[i..]);
      assert PutAt(ps, i, key, val) == ps[..i] + ([Pair(key, val)] + ps[i..]);
      assert ps == ps[..i] + ps[i..];
    }
  }

  lemma SizeAt(head: seq<Pair>, p: Pair, tail: seq<Pair>)
    ensures Size(head + ([p] + tail)) == Size(head) + |p.key| + ValueLen(p.value) + Size(tail)
  {
    hide Size, ValueLen;
    SizeSplit(head, [p] + tail);
    SizeSplit([p], tail);
    SizeOne(p);
  }

  /** With non-empty keys the size is zero exactly when the table is empty. */
  lemma {:induction false} SizeZero(ps: seq<Pair>)
    requires forall i :: 0 <= i < |ps| ==> ps[i].key != []
    ensures Size(ps) == 0 <==> ps == []
  {
  }

  class MemTable {
    var pairs: seq<Pair>
    var size: int

    ghost predicate Valid()
      reads this
    {
      Sorted(pairs) && size == Size(pairs)
    }

    constructor ()
      ensures Valid() && pairs == []
    {
      pairs := [];
      size := 0;
    }

    method Put(key: Bytes, val: Option<Bytes>)
      requires Valid()
      modifies this
      ensures Valid() && pairs == Stored(old(pairs), key, val)
      ensures ToMap(pairs) == ToMap(old(pairs))[key := val]
    {
      var idx := LowerBound(pairs, key);
      LowerIndexIs(pairs, key, idx);
      PutSorted(pairs, idx, key, val);
      PutMap(pairs, idx, key, val);
      PutSize(pairs, idx, key, val);
      if idx < |pairs| && pairs[idx].key == key {
        size := size + (ValueLen(val) - ValueLen(pairs[idx].value));
        pairs := pairs[idx := Pair(key, val)];
        return;
      }
      pairs := pairs[..idx] + [Pair(key, val)] + pairs[idx..];
      size := size + |key| + ValueLen(val);
    }

    /** The value or tombstone for the key, and whether the table mentions it. */
    method Get(key: Bytes) returns (val: Option<Bytes>, ok: bool)
      requires Valid()
      ensures ok <==> key in ToMap(pairs)
      ensures ok ==> val == ToMap(pairs)[key]
      ensures Find(pairs, key) == if ok then Some(val) else None
    {
      var idx := LowerBound(pairs, key);
      LowerIndexIs(pairs, key, idx);
      LowerBoundFinds(pairs, key, idx);
      if idx < |pairs| && pairs[idx].key == key {
        return pairs[idx].value, true;
      }
      return None, false;
    }
  }
}
