/** Key-value pairs in strict key order: the contents of a memory table and of a table file.
    A missing value (`None`) is a tombstone. */
module Pairs {
  import opened Ops
  import opened Codec

  datatype Pair = Pair(key: Bytes, value: Option<Bytes>)

  /** What a table says: keys it mentions, with a value or a tombstone. */
  type Layer = map<Bytes, Option<Bytes>>

  predicate Sorted(ps: seq<Pair>) {
    forall i, j :: 0 <= i < j < |ps| ==> Less(ps[i].key, ps[j].key)
  }

  function ToMap(ps: seq<Pair>): Layer {
    if ps == [] then map[] else ToMap(ps[..|ps| - 1])[ps[|ps| - 1].key := ps[|ps| - 1].value]
  }

  /** The keys of the table are the keys of its pairs. */
  lemma {:induction false} MapKeys(ps: seq<Pair>, key: Bytes)
    ensures key in ToMap(ps) <==> exists i :: 0 <= i < |ps| && ps[i].key == key
  {
    if ps != [] {
      MapKeys(ps[..|ps| - 1], key);
      if i :| 0 <= i < |ps| && ps[i].key == key {
        assert i < |ps| - 1 ==> ps[..|ps| - 1][i] == ps[i];
      }
    }
  }

  /** In a sorted table the pair at any index is what the map holds for its key. */
  lemma {:induction false} MapAt(ps: seq<Pair>, i: nat)
    requires Sorted(ps) && i < |ps|
    ensures ps[i].key in ToMap(ps) && ToMap(ps)[ps[i].key] == ps[i].value
  {
    var m := |ps| - 1;
    if i < m {
      MapAt(ps[..m], i);
      Trichotomy(ps[i].key, ps[m].key);
    }
  }

  /** A key between two neighbours, or beyond either end, is not in a sorted table. */
  lemma MapGap(ps: seq<Pair>, i: nat, key: Bytes)
    requires Sorted(ps) && i <= |ps|
    requires i > 0 ==> Less(ps[i - 1].key, key)
    requires i < |ps| ==> Less(key, ps[i].key)
    ensures key !in ToMap(ps)
  {
    MapKeys(ps, key);
    forall j | 0 <= j < |ps|
      ensures ps[j].key != key
    {
      if j < i {
        if j < i - 1 { LessTrans(ps[j].key, ps[i - 1].key, key); }
        Trichotomy(ps[j].key, key);
      } else {
        if j > i { LessTrans(key, ps[i].key, ps[j].key); }
        Trichotomy(key, ps[j].key);
      }
    }
  }

  /** A greater key extends a sorted table at the end. */
  lemma PushSorted(ps: seq<Pair>, p: Pair)
    requires Sorted(ps) && (ps != [] ==> Less(ps[|ps| - 1].key, p.key))
    ensures Sorted(ps + [p]) && p.key !in ToMap(ps)
  {
    hide Compare, ToMap;
    forall i | 0 <= i < |ps|
      ensures Less(ps[i].key, p.key)
    {
      if i < |ps| - 1 {
        LessTrans(ps[i].key, ps[|ps| - 1].key, p.key);
      }
    }
    MapGap(ps, |ps|, p.key);
  }

  lemma PushMap(ps: seq<Pair>, p: Pair)
    ensures ToMap(ps + [p]) == ToMap(ps)[p.key := p.value]
  {
    assert (ps + [p])[..|ps|] == ps;
  }

  lemma MapOne(p: Pair)
    ensures ToMap([p]) == map[p.key := p.value]
  {
    assert [p][..0] == [] && ToMap([]) == map[];
  }

  /** Later pairs win. */
  lemma {:induction false} MapSplit(a: seq<Pair>, b: seq<Pair>)
    ensures ToMap(a + b) == ToMap(a) + ToMap(b)
  {
    if b == [] {
      assert a + b == a;
    } else {
      var m := |b| - 1;
      MapSplit(a, b[..m]);
      assert (a + b)[..|a + b| - 1] == a + b[..m];
    }
  }

  /** The index that `sort.Search` finds: the first key not below `key`. */
  ghost predicate IsLowerBound(ps: seq<Pair>, key: Bytes, i: nat) {
    i <= |ps| &&
    (forall j :: 0 <= j < i ==> Less(ps[j].key, key)) &&
    (forall j :: i <= j < |ps| ==> !Less(ps[j].key, key))
  }

  /** `sort.Search` over sorted pairs. */
  method LowerBound(ps: seq<Pair>, key: Bytes) returns (i: nat)
    requires Sorted(ps)
    ensures IsLowerBound(ps, key, i)
  {
    var hi := |ps|;
    i := 0;
    while i < hi
      invariant 0 <= i <= hi <= |ps|
      invariant forall j :: 0 <= j < i ==> Less(ps[j].key, key)
      invariant forall j :: hi <= j < |ps| ==> !Less(ps[j].key, key)
    {
      var mid := (i + hi) / 2;
      if Less(ps[mid].key, key) {
        forall j | 0 <= j < mid
          ensures Less(ps[j].key, key)
        {
          LessTrans(ps[j].key, ps[mid].key, key);
        }
        i := mid + 1;
      } else {
        forall j | mid < j < |ps|
          ensures !Less(ps[j].key, key)
        {
          if Less(ps[j].key, key) {
            LessTrans(ps[mid].key, ps[j].key, key);
          }
        }
        hi := mid;
      }
    }
  }

  /** At the lower bound sits the key itself, or the key is absent. */
  lemma LowerBoundFinds(ps: seq<Pair>, key: Bytes, i: nat)
    requires Sorted(ps) && IsLowerBound(ps, key, i)
    ensures key in ToMap(ps) <==> i < |ps| && ps[i].key == key
    ensures i < |ps| && ps[i].key == key ==> ToMap(ps)[key] == ps[i].value
  {
    if i < |ps| && ps[i].key == key {
      MapAt(ps, i);
    } else {
      if i < |ps| {
        Trichotomy(key, ps[i].key);
        Trichotomy(ps[i].key, key);
      }
      MapGap(ps, i, key);
    }
  }
}
