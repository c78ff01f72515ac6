/** Directory listings: numbered files in the order of their names, which for six-digit names is
    the order of their numbers. */
module Directory {

  /** File names have six digits; above that they would no longer sort or parse back. */
  const MaxID := 1_000_000

  ghost predicate Ascending(ids: seq<nat>) {
    forall i, j :: 0 <= i < j < |ids| ==> ids[i] < ids[j]
  }

  predicate IsLeast(m: nat, s: set<nat>) {
    m in s && forall x: nat :: x in s ==> m <= x
  }

  lemma LeastOfTwo(y: nat, m: nat, s: set<nat>)
    requires y in s && IsLeast(m, s - {y})
    ensures IsLeast(if y < m then y else m, s)
  {
    forall x: nat | x in s
      ensures (if y < m then y else m) <= x
    {
      assert x == y || x in s - {y};
    }
  }

  lemma {:induction false} LeastExists(s: set<nat>)
    requires s != {}
    ensures exists m: nat :: IsLeast(m, s)
    decreases |s|
  {
    var y: nat :| y in s;
    if s == {y} {
      assert IsLeast(y, s);
    } else {
      hide IsLeast;
      LeastExists(s - {y});
      var m: nat :| IsLeast(m, s - {y});
      LeastOfTwo(y, m, s);
    }
  }

  lemma PutFirst(m: nat, rest: seq<nat>, s: set<nat>)
    requires IsLeast(m, s)
    requires Ascending(rest) && forall x :: x in rest <==> x in s - {m}
    ensures Ascending([m] + rest) && forall x :: x in [m] + rest <==> x in s
  {
    forall i | 0 <= i < |rest|
      ensures m < rest[i]
    {
      assert rest[i] in rest;
    }
  }

  /** `os.ReadDir`: the numbers of the files, ascending. */
  function SortedIds(s: set<nat>): (ids: seq<nat>)
    ensures Ascending(ids) && forall x :: x in ids <==> x in s
    decreases |s|
  {
    if s == {} then []
    else
      LeastExists(s);
      var m: nat :| IsLeast(m, s);
      var rest := SortedIds(s - {m});
      PutFirst(m, rest, s);
      [m] + rest
  }

  ghost predicate Lists(ids: seq<nat>, s: set<nat>) {
    Ascending(ids) && forall x :: x in ids <==> x in s
  }

  lemma ListsTail(ids: seq<nat>, s: set<nat>)
    requires Lists(ids, s) && ids != []
    ensures ids[0] in s && Lists(ids[1..], s - {ids[0]}) && forall x :: x in s ==> ids[0] <= x
  {
    assert ids[0] in ids;
    forall x
      ensures x in ids[1..] <==> x in s - {ids[0]}
    {
      if x in ids[1..] {
        var k :| 0 <= k < |ids[1..]| && ids[1..][k] == x;
        assert ids[k + 1] == x;
      }
      if x in s - {ids[0]} {
        var k :| 0 <= k < |ids| && ids[k] == x;
        assert ids[1..][k - 1] == x;
      }
    }
    forall x | x in s
      ensures ids[0] <= x
    {
      assert x in ids;
    }
  }

  lemma ListsNothing(ids: seq<nat>, s: set<nat>)
    requires Lists(ids, s)
    ensures ids == [] <==> s == {}
  {
    if ids != [] {
      assert ids[0] in ids;
    }
    if x :| x in s {
      assert x in ids;
    }
  }

  lemma {:induction false} SameListing(a: seq<nat>, b: seq<nat>, s: set<nat>)
    requires Lists(a, s) && Lists(b, s)
    ensures a == b
    decreases |a|
  {
    hide Lists;
    ListsNothing(a, s);
    ListsNothing(b, s);
    if a != [] {
      ListsTail(a, s);
      ListsTail(b, s);
      assert a[0] == b[0];
      SameListing(a[1..], b[1..], s - {a[0]});
      assert a == [a[0]] + a[1..] && b == [b[0]] + b[1..];
    }
  }

  /** A set has one ascending listing. */
  lemma ListingIsUnique(ids: seq<nat>, s: set<nat>)
    requires Lists(ids, s)
    ensures ids == SortedIds(s)
  {
    SameListing(ids, SortedIds(s), s);
  }

  lemma ListsMore(ids: seq<nat>, s: set<nat>, id: nat)
    requires Lists(ids, s) && forall i :: 0 <= i < |ids| ==> ids[i] < id
    ensures Lists(ids + [id], s + {id}) && id !in s
  {
    assert id !in ids;
  }
}
