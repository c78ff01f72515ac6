/** The ordered list of table files of a database, oldest first, and what a lookup through it
    sees. */
module Tables {
  import opened Ops
  import opened Pairs

  datatype Table = Table(id: nat, pairs: seq<Pair>)

  /** What the list says: newer tables hide older ones. */
  ghost function Overlay(ts: seq<Table>): Layer {
    if ts == [] then map[] else Overlay(ts[..|ts| - 1]) + ToMap(ts[|ts| - 1].pairs)
  }

  /** What a reader sees of a key: a tombstone and a missing key look the same. */
  ghost function Visible(l: Layer, key: Bytes): Option<Bytes> {
    if key in l then l[key] else None
  }

  lemma PlusAssoc(a: Layer, b: Layer, c: Layer)
    ensures (a + b) + c == a + (b + c)
  {
  }

  lemma {:induction false} OverlaySplit(a: seq<Table>, b: seq<Table>)
    ensures Overlay(a + b) == Overlay(a) + Overlay(b)
  {
    hide ToMap;
    if b == [] {
      assert a + b == a;
    } else {
      var m := |b| - 1;
      OverlaySplit(a, b[..m]);
      assert (a + b)[..|a + b| - 1] == a + b[..m];
      PlusAssoc(Overlay(a), Overlay(b[..m]), ToMap(b[m].pairs));
    }
  }

  lemma OverlayOne(t: Table)
    ensures Overlay([t]) == ToMap(t.pairs)
  {
    assert [t][..0] == [] && Overlay([]) == map[];
  }

  /** The table that decides a key is the newest that mentions it. */
  lemma {:induction false} NewestDecides(ts: seq<Table>, key: Bytes) returns (j: nat)
    requires key in Overlay(ts)
    ensures j < |ts| && key in ToMap(ts[j].pairs) && Overlay(ts)[key] == ToMap(ts[j].pairs)[key]
    ensures forall i :: j < i < |ts| ==> key !in ToMap(ts[i].pairs)
  {
    j := |ts| - 1;
    if key !in ToMap(ts[j].pairs) {
      j := NewestDecides(ts[..j], key);
    }
  }

  /** The other way round: older tables hide newer ones. */
  ghost function Eldest(ts: seq<Table>): Layer {
    if ts == [] then map[] else ToMap(ts[|ts| - 1].pairs) + Eldest(ts[..|ts| - 1])
  }

  lemma {:induction false} OldestDecides(ts: seq<Table>, key: Bytes) returns (j: nat)
    requires key in Overlay(ts)
    ensures j < |ts| && key in ToMap(ts[j].pairs) && key in Eldest(ts) && Eldest(ts)[key] == ToMap(ts[j].pairs)[key]
    ensures forall i :: 0 <= i < j ==> key !in ToMap(ts[i].pairs)
  {
    hide ToMap;
    var n := |ts| - 1;
    if key in Overlay(ts[..n]) {
      j := OldestDecides(ts[..n], key);
    } else {
      NotMentioned(ts[..n], key);
      j := n;
    }
  }

  lemma {:induction false} NotMentioned(ts: seq<Table>, key: Bytes)
    requires key !in Overlay(ts)
    ensures key !in Eldest(ts) && forall i :: 0 <= i < |ts| ==> key !in ToMap(ts[i].pairs)
  {
    hide ToMap;
    if ts != [] {
      NotMentioned(ts[..|ts| - 1], key);
    }
  }

  lemma {:induction false} MentionedIsThere(ts: seq<Table>, j: nat, key: Bytes)
    requires j < |ts| && key in ToMap(ts[j].pairs)
    ensures key in Overlay(ts)
  {
    if j < |ts| - 1 {
      MentionedIsThere(ts[..|ts| - 1], j, key);
    }
  }

  ghost predicate DistinctIds(ts: seq<Table>) {
    forall i, j :: 0 <= i < j < |ts| ==> ts[i].id != ts[j].id
  }
}
