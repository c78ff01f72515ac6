/** K-way merge of sorted tables: the order of the heap, the output builder and `doMerge`.
    `container/heap` is represented by what it guarantees: popping yields a least item. */
module Merge {
  import opened Ops
  import opened Codec
  import opened Pairs
  import opened SSTable
  import opened SSTableIO

  /** `append([]byte(nil), v...)`: a copy, except that an empty value comes out as nil, which
      is a tombstone. */
  function Copied(v: Option<Bytes>): Option<Bytes> {
    if v == Some([]) then None else v
  }

  // ------------------------------------------------------- what a merge means

  /** The table that decides a key: the newest that mentions it. The empty key is decided by
      the oldest one, because `doMerge` does not recognise it as already written. */
  ghost predicate Decides(inputs: seq<seq<Pair>>, key: Bytes, j: nat) {
    j < |inputs| && key in ToMap(inputs[j]) &&
    forall i :: 0 <= i < |inputs| && key in ToMap(inputs[i]) ==> if key == [] then j <= i else i <= j
  }

  /** The output says of every key what the deciding table says, copied, and nothing else. */
  ghost predicate IsMerge(inputs: seq<seq<Pair>>, out: seq<Pair>) {
    Sorted(out) &&
    (forall k :: k in ToMap(out) <==> exists j :: 0 <= j < |inputs| && k in ToMap(inputs[j])) &&
    forall k: Bytes, j: nat :: Decides(inputs, k, j) && k in ToMap(out) ==>
      ToMap(out)[k] == Copied(ToMap(inputs[j])[k])
  }

  // ---------------------------------------------------------------- the builder

  class SSTableBuilder {
    var pairs: seq<Pair>

    constructor ()
      ensures pairs == []
    {
      pairs := [];
    }

    method Append(key: Bytes, value: Option<Bytes>)
      modifies this
      ensures pairs == Appended(old(pairs), key, value)
    {
      if |pairs| > 0 && pairs[|pairs| - 1].key == key {
        pairs := pairs[|pairs| - 1 := Pair(key, Copied(value))];
        return;
      }
      pairs := pairs + [Pair(key, Copied(value))];
    }
  }

  /** Overwrites the last pair when the key repeats, extends otherwise. */
  function Appended(out: seq<Pair>, key: Bytes, value: Option<Bytes>): seq<Pair> {
    if |out| > 0 && out[|out| - 1].key == key then out[|out| - 1 := Pair(key, Copied(value))]
    else out + [Pair(key, Copied(value))]
  }

  /** Spelt out: the pair with the value as `append` copies it takes the place of a last pair with
      the same key, or comes after the last. */
  lemma AppendedIs(out: seq<Pair>, key: Bytes, value: Option<Bytes>)
    ensures Appended(out, key, value) ==
              (if |out| > 0 && out[|out| - 1].key == key then out[..|out| - 1] else out) +
              [Pair(key, if value == Some([]) then None else value)]
  {
  }

  /** Appending keys that do not fall keeps the output sorted, and it says of the key what was
      appended last. */
  lemma AppendedSays(out: seq<Pair>, key: Bytes, value: Option<Bytes>)
    requires Sorted(out) && (out != [] ==> !Less(key, out[|out| - 1].key))
    ensures Sorted(Appended(out, key, value)) && ToMap(Appended(out, key, value)) == ToMap(out)[key := Copied(value)]
  {
    hide ToMap, Less;
    var p := Pair(key, Copied(value));
    if out != [] && out[|out| - 1].key == key {
      var n := |out| - 1;
      assert Appended(out, key, value) == out[..n] + [p] && out == out[..n] + [out[n]];
      PushMap(out[..n], p);
      PushMap(out[..n], out[n]);
    } else {
      if out != [] {
        Trichotomy(out[|out| - 1].key, key);
      }
      PushSorted(out, p);
      PushMap(out, p);
    }
  }

  // ------------------------------------------------------ the order of popping

  /** A pair on its way out, with the position of the table it comes from. */
  datatype Item = Item(key: Bytes, rank: nat, value: Option<Bytes>)

  /** `mergeHeap.Less`: by key, and for equal keys the newer table first. */
  predicate Before(a: Item, b: Item) {
    var cmp := Compare(a.key, b.key);
    if cmp != 0 then cmp < 0 else a.rank > b.rank
  }

  lemma BeforeTrans(a: Item, b: Item, c: Item)
    requires Before(a, b) && Before(b, c)
    ensures Before(a, c)
  {
    CompareEq(a.key, b.key);
    CompareEq(b.key, c.key);
    CompareEq(a.key, c.key);
    if Less(a.key, b.key) && Less(b.key, c.key) {
      LessTrans(a.key, b.key, c.key);
    }
  }

  lemma BeforeTotal(a: Item, b: Item)
    requires a.key != b.key || a.rank != b.rank
    ensures Before(a, b) <==> !Before(b, a)
  {
    CompareEq(a.key, b.key);
    CompareFlip(a.key, b.key);
  }

  predicate Ordered(l: seq<Item>) {
    forall i, j :: 0 <= i < j < |l| ==> Before(l[i], l[j])
  }

  // ------------------------------------------- what the loop writes for what it pops

  /** One popped item: written unless it repeats the last key, which an empty last key hides. */
  function Write(out: seq<Pair>, x: Item): seq<Pair> {
    var lastKey := if out == [] then [] else out[|out| - 1].key;
    if |lastKey| == 0 || lastKey != x.key then Appended(out, x.key, Copied(x.value)) else out
  }

  function Written(l: seq<Item>): seq<Pair> {
    if l == [] then [] else Write(Written(l[..|l| - 1]), l[|l| - 1])
  }

  /** Among the popped items: first for its key, or last if the key is empty. */
  ghost predicate Winner(l: seq<Item>, x: Item) {
    x in l && forall y :: y in l && y.key == x.key ==> if x.key == [] then x.rank <= y.rank else y.rank <= x.rank
  }

  ghost predicate WrittenOK(l: seq<Item>, out: seq<Pair>) {
    Sorted(out) && (out == [] <==> l == []) &&
    (l != [] ==> out[|out| - 1].key == l[|l| - 1].key) &&
    (forall x :: x in l ==> x.key in ToMap(out)) &&
    (forall k :: k in ToMap(out) ==> exists x :: x in l && x.key == k) &&
    forall x :: Winner(l, x) && x.key in ToMap(out) ==> ToMap(out)[x.key] == Copied(x.value)
  }

  lemma CopiedTwice(v: Option<Bytes>)
    ensures Copied(Copied(v)) == Copied(v)
  {
  }

  lemma WriteNew(out: seq<Pair>, x: Item)
    requires out == [] || out[|out| - 1].key != x.key
    ensures Write(out, x) == out + [Pair(x.key, Copied(x.value))]
  {
    CopiedTwice(x.value);
  }

  lemma WriteAgain(out: seq<Pair>, x: Item)
    requires out != [] && out[|out| - 1].key == x.key != []
    ensures Write(out, x) == out
  {
  }

  /** A key that is new: it is written after everything else. */
  lemma WriteFresh(l: seq<Item>, x: Item, out: seq<Pair>)
    requires Ordered(l + [x]) && WrittenOK(l, out) && (l == [] || l[|l| - 1].key != x.key)
    ensures WrittenOK(l + [x], Write(out, x))
  {
    hide Compare, ToMap, Sorted, Write, Copied;
    var m, p := l + [x], Pair(x.key, Copied(x.value));
    if l != [] {
      assert Before(m[|l| - 1], m[|l|]);
      CompareEq(l[|l| - 1].key, x.key);
    }
    WriteNew(out, x);
    PushSorted(out, p);
    PushMap(out, p);
    forall y | Winner(m, y) && y.key in ToMap(out + [p])
      ensures ToMap(out + [p])[y.key] == Copied(y.value)
    {
      if y.key != x.key {
        assert y in l && Winner(l, y);
      } else {
        assert y == x;
      }
    }
  }

  /** A repeated non-empty key is skipped: the newer table has already written it. */
  lemma WriteRepeat(l: seq<Item>, x: Item, out: seq<Pair>)
    requires Ordered(l + [x]) && WrittenOK(l, out) && l != [] && l[|l| - 1].key == x.key != []
    ensures WrittenOK(l + [x], Write(out, x))
  {
    hide Less, ToMap, Sorted, Before, Write, Ordered;
    var m := l + [x];
    RepeatIsOlder(l, x);
    WriteAgain(out, x);
    forall y | Winner(m, y) && y.key in ToMap(out)
      ensures ToMap(out)[y.key] == Copied(y.value)
    {
      if y.key == x.key {
        assert l[|l| - 1] in l;
        assert y != x;
      }
      assert Winner(l, y);
    }
  }

  /** A repeated empty key is overwritten: the older table wins. */
  lemma WriteRepeatEmpty(l: seq<Item>, x: Item, out: seq<Pair>)
    requires Ordered(l + [x]) && WrittenOK(l, out) && l != [] && l[|l| - 1].key == x.key == []
    ensures WrittenOK(l + [x], Write(out, x))
  {
    hide Before;
    var m, p := l + [x], Pair([], Copied(x.value));
    RepeatIsOlder(l, x);
    if |out| > 1 {
      EmptyLeast(out[0].key);
      assert false;
    }
    assert out == [out[0]];
    CopiedTwice(x.value);
    assert Write(out, x) == [p];
    MapOne(p);
    MapOne(out[0]);
  }

  lemma EmptyLeast(k: Bytes)
    ensures !Less(k, [])
  {
  }

  /** Items of one key are popped from newer tables first. */
  lemma RepeatIsOlder(l: seq<Item>, x: Item)
    requires Ordered(l + [x])
    ensures forall y :: y in l && y.key == x.key ==> x.rank < y.rank
  {
    var m := l + [x];
    forall y | y in l && y.key == x.key
      ensures x.rank < y.rank
    {
      var i :| 0 <= i < |l| && l[i] == y;
      assert Before(m[i], m[|l|]);
      CompareEq(y.key, x.key);
    }
  }

  lemma NothingWritten()
    ensures WrittenOK([], []) && Written([]) == []
  {
  }

  lemma {:induction false} WrittenIsOK(l: seq<Item>)
    requires Ordered(l)
    ensures WrittenOK(l, Written(l))
  {
    hide Write, WrittenOK, Before;
    if l == [] {
      NothingWritten();
    } else {
      var m := |l| - 1;
      WrittenIsOK(l[..m]);
      assert l == l[..m] + [l[m]];
      if m == 0 || l[m - 1].key != l[m].key {
        WriteFresh(l[..m], l[m], Written(l[..m]));
      } else if l[m].key == [] {
        WriteRepeatEmpty(l[..m], l[m], Written(l[..m]));
      } else {
        WriteRepeat(l[..m], l[m], Written(l[..m]));
      }
    }
  }

  // ------------------------------------------------------------------ the loop

  /** How much of every input has been popped. */
  ghost predicate Progress(inputs: seq<seq<Pair>>, c: seq<nat>) {
    |c| == |inputs| && forall j :: 0 <= j < |c| ==> c[j] <= |inputs[j]|
  }

  ghost predicate HasHead(inputs: seq<seq<Pair>>, c: seq<nat>, j: nat)
    requires Progress(inputs, c)
  {
    j < |inputs| && c[j] < |inputs[j]|
  }

  ghost function ItemAt(inputs: seq<seq<Pair>>, j: nat, i: nat): Item
    requires j < |inputs| && i < |inputs[j]|
  {
    Item(inputs[j][i].key, j, inputs[j][i].value)
  }

  ghost predicate AllSorted(inputs: seq<seq<Pair>>) {
    forall j :: 0 <= j < |inputs| ==> Sorted(inputs[j])
  }

  ghost predicate FromInputs(inputs: seq<seq<Pair>>, c: seq<nat>, x: Item)
    requires Progress(inputs, c)
  {
    x.rank < |inputs| && exists i :: 0 <= i < c[x.rank] && x == ItemAt(inputs, x.rank, i)
  }

  ghost predicate OnlyTaken(inputs: seq<seq<Pair>>, c: seq<nat>, l: seq<Item>)
    requires Progress(inputs, c)
  {
    forall x :: x in l ==> FromInputs(inputs, c, x)
  }

  ghost predicate AllTaken(inputs: seq<seq<Pair>>, c: seq<nat>, l: seq<Item>)
    requires Progress(inputs, c)
  {
    forall j: nat, i: nat {:trigger ItemAt(inputs, j, i)} :: j < |inputs| && i < c[j] ==> ItemAt(inputs, j, i) in l
  }

  ghost predicate BeforeHeads(inputs: seq<seq<Pair>>, c: seq<nat>, l: seq<Item>)
    requires Progress(inputs, c)
  {
    forall x, j: nat :: x in l && HasHead(inputs, c, j) ==> Before(x, ItemAt(inputs, j, c[j]))
  }

  /** `l` is what has been popped: exactly the taken pairs, in heap order, before every head. */
  ghost predicate Popped(inputs: seq<seq<Pair>>, c: seq<nat>, l: seq<Item>) {
    Progress(inputs, c) && Ordered(l) && OnlyTaken(inputs, c, l) && AllTaken(inputs, c, l) && BeforeHeads(inputs, c, l)
  }

  ghost predicate LeastHead(inputs: seq<seq<Pair>>, c: seq<nat>, j: nat)
    requires Progress(inputs, c)
  {
    HasHead(inputs, c, j) &&
    forall i: nat :: HasHead(inputs, c, i) && i != j ==> Before(ItemAt(inputs, j, c[j]), ItemAt(inputs, i, c[i]))
  }

  lemma PopStep(inputs: seq<seq<Pair>>, c: seq<nat>, l: seq<Item>, j: nat)
    requires AllSorted(inputs) && Popped(inputs, c, l) && LeastHead(inputs, c, j)
    ensures Popped(inputs, c[j := c[j] + 1], l + [ItemAt(inputs, j, c[j])])
  {
    hide Before, Sorted, OnlyTaken, AllTaken, AllSorted, FromInputs;
    TakenOnly(inputs, c, l, j);
    TakenAll(inputs, c, l, j);
    HeadsStay(inputs, c, l, j);
    var x := ItemAt(inputs, j, c[j]);
    forall y | y in l
      ensures Before(y, x)
    {
      assert HasHead(inputs, c, j);
    }
    OrderedMore(l, x);
  }

  lemma OrderedMore(l: seq<Item>, x: Item)
    requires Ordered(l) && forall y :: y in l ==> Before(y, x)
    ensures Ordered(l + [x])
  {
    hide Before;
  }

  lemma TakenOnly(inputs: seq<seq<Pair>>, c: seq<nat>, l: seq<Item>, j: nat)
    requires Progress(inputs, c) && OnlyTaken(inputs, c, l) && HasHead(inputs, c, j)
    ensures OnlyTaken(inputs, c[j := c[j] + 1], l + [ItemAt(inputs, j, c[j])])
  {
    var x, d := ItemAt(inputs, j, c[j]), c[j := c[j] + 1];
    forall y | y in l + [x]
      ensures FromInputs(inputs, d, y)
    {
      if y in l {
        assert FromInputs(inputs, c, y);
        var i :| 0 <= i < c[y.rank] && y == ItemAt(inputs, y.rank, i);
        assert 0 <= i < d[y.rank];
      } else {
        assert 0 <= c[j] < d[j] && y == ItemAt(inputs, j, c[j]);
      }
    }
  }

  lemma TakenAll(inputs: seq<seq<Pair>>, c: seq<nat>, l: seq<Item>, j: nat)
    requires Progress(inputs, c) && AllTaken(inputs, c, l) && HasHead(inputs, c, j)
    ensures AllTaken(inputs, c[j := c[j] + 1], l + [ItemAt(inputs, j, c[j])])
  {
    var x, d := ItemAt(inputs, j, c[j]), c[j := c[j] + 1];
    forall m: nat, i: nat {:trigger ItemAt(inputs, m, i)} | m < |inputs| && i < d[m]
      ensures ItemAt(inputs, m, i) in l + [x]
    {
      if !(m == j && i == c[j]) {
        assert i < c[m];
        assert ItemAt(inputs, m, i) in l;
      }
    }
  }

  lemma HeadsStay(inputs: seq<seq<Pair>>, c: seq<nat>, l: seq<Item>, j: nat)
    requires Progress(inputs, c) && AllSorted(inputs) && BeforeHeads(inputs, c, l) && LeastHead(inputs, c, j)
    ensures Progress(inputs, c[j := c[j] + 1])
    ensures BeforeHeads(inputs, c[j := c[j] + 1], l + [ItemAt(inputs, j, c[j])])
  {
    hide Before, Sorted;
    var x, d := ItemAt(inputs, j, c[j]), c[j := c[j] + 1];
    forall y, i: nat | y in l + [x] && HasHead(inputs, d, i)
      ensures Before(y, ItemAt(inputs, i, d[i]))
    {
      if i == j {
        HeadFollows(inputs, j, c[j]);
        if y in l {
          assert HasHead(inputs, c, j);
          BeforeTrans(y, x, ItemAt(inputs, j, d[j]));
        }
      } else {
        assert HasHead(inputs, c, i);
      }
    }
  }

  lemma HeadFollows(inputs: seq<seq<Pair>>, j: nat, i: nat)
    requires AllSorted(inputs) && j < |inputs| && i + 1 < |inputs[j]|
    ensures Before(ItemAt(inputs, j, i), ItemAt(inputs, j, i + 1))
  {
    assert Less(inputs[j][i].key, inputs[j][i + 1].key);
  }

  lemma NothingPopped(inputs: seq<seq<Pair>>)
    ensures Popped(inputs, seq(|inputs|, _ => 0), [])
  {
  }

  lemma InLayer(inputs: seq<seq<Pair>>, j: nat, k: Bytes) returns (i: nat)
    requires AllSorted(inputs) && j < |inputs| && k in ToMap(inputs[j])
    ensures i < |inputs[j]| && inputs[j][i] == Pair(k, ToMap(inputs[j])[k])
  {
    hide Compare;
    MapKeys(inputs[j], k);
    i :| 0 <= i < |inputs[j]| && inputs[j][i].key == k;
    MapAt(inputs[j], i);
  }

  lemma AtLayer(inputs: seq<seq<Pair>>, j: nat, i: nat)
    requires AllSorted(inputs) && j < |inputs| && i < |inputs[j]|
    ensures inputs[j][i].key in ToMap(inputs[j]) && ToMap(inputs[j])[inputs[j][i].key] == inputs[j][i].value
  {
    hide Compare;
    MapAt(inputs[j], i);
  }

  ghost predicate Exhausted(inputs: seq<seq<Pair>>, c: seq<nat>) {
    Progress(inputs, c) && forall j: nat :: j < |inputs| ==> c[j] == |inputs[j]|
  }

  /** With nothing left, what was written is the merge. */
  lemma MergeDone(inputs: seq<seq<Pair>>, c: seq<nat>, l: seq<Item>)
    requires AllSorted(inputs) && Popped(inputs, c, l) && Exhausted(inputs, c)
    ensures IsMerge(inputs, Written(l))
  {
    hide Before, ToMap, Sorted, Written, OnlyTaken, AllTaken, BeforeHeads, AllSorted, FromInputs, Exhausted;
    WrittenIsOK(l);
    forall k
      ensures k in ToMap(Written(l)) <==> exists j :: 0 <= j < |inputs| && k in ToMap(inputs[j])
    {
      if k in ToMap(Written(l)) {
        var j := WrittenComesFrom(inputs, c, l, k);
      }
      if j :| 0 <= j < |inputs| && k in ToMap(inputs[j]) {
        MentionedIsWritten(inputs, c, l, k, j);
      }
    }
    forall k: Bytes, j: nat | Decides(inputs, k, j) && k in ToMap(Written(l))
      ensures ToMap(Written(l))[k] == Copied(ToMap(inputs[j])[k])
    {
      DecidedWins(inputs, c, l, k, j);
    }
  }

  lemma WrittenComesFrom(inputs: seq<seq<Pair>>, c: seq<nat>, l: seq<Item>, k: Bytes) returns (j: nat)
    requires AllSorted(inputs) && Popped(inputs, c, l) && WrittenOK(l, Written(l)) && k in ToMap(Written(l))
    ensures j < |inputs| && k in ToMap(inputs[j])
  {
    hide Before, ToMap, Sorted, Written, AllTaken, BeforeHeads;
    var x :| x in l && x.key == k;
    assert FromInputs(inputs, c, x);
    var i :| 0 <= i < c[x.rank] && x == ItemAt(inputs, x.rank, i);
    AtLayer(inputs, x.rank, i);
    j := x.rank;
  }

  lemma MentionedIsWritten(inputs: seq<seq<Pair>>, c: seq<nat>, l: seq<Item>, k: Bytes, j: nat)
    requires AllSorted(inputs) && Popped(inputs, c, l) && Exhausted(inputs, c) && WrittenOK(l, Written(l))
    requires j < |inputs| && k in ToMap(inputs[j])
    ensures k in ToMap(Written(l))
  {
    hide Before, ToMap, Sorted, Written, OnlyTaken, BeforeHeads;
    var i := InLayer(inputs, j, k);
    assert i < c[j];
    assert ItemAt(inputs, j, i) in l;
  }

  lemma DecidedWins(inputs: seq<seq<Pair>>, c: seq<nat>, l: seq<Item>, k: Bytes, j: nat)
    requires AllSorted(inputs) && Popped(inputs, c, l) && Exhausted(inputs, c)
    requires Decides(inputs, k, j) && WrittenOK(l, Written(l)) && k in ToMap(Written(l))
    ensures ToMap(Written(l))[k] == Copied(ToMap(inputs[j])[k])
  {
    hide Before, ToMap, Sorted, Written, BeforeHeads;
    var i := InLayer(inputs, j, k);
    assert i < c[j];
    var x := ItemAt(inputs, j, i);
    assert x in l;
    forall y | y in l && y.key == k
      ensures if k == [] then x.rank <= y.rank else y.rank <= x.rank
    {
      assert FromInputs(inputs, c, y);
      var m :| 0 <= m < c[y.rank] && y == ItemAt(inputs, y.rank, m);
      AtLayer(inputs, y.rank, m);
    }
    assert Winner(l, x);
  }

  // ------------------------------------------------------------ the code's loop

  datatype MergeItem = MergeItem(iter: SSTableIterator, fileID: nat)

  predicate HeapLess(a: MergeItem, b: MergeItem)
    reads a.iter, b.iter
  {
    var cmp := Compare(a.iter.key, b.iter.key);
    if cmp != 0 then cmp < 0 else a.fileID > b.fileID
  }

  /** `heap.Pop`: removes an item that no other item precedes. */
  method PopLeast(h: seq<MergeItem>) returns (item: MergeItem, rest: seq<MergeItem>, at: nat)
    requires |h| > 0
    requires forall i :: 0 <= i < |h| ==> h[i].fileID > 0
    requires OneEach(h)
    ensures at < |h| && item == h[at] && rest == h[..at] + h[at + 1..]
    ensures forall i :: 0 <= i < |h| && i != at ==> HeapLess(item, h[i])
  {
    var best := 0;
    for i := 1 to |h|
      invariant best < i
      invariant forall j :: 0 <= j < i && j != best ==> HeapLess(h[best], h[j])
    {
      if HeapLess(h[i], h[best]) {
        forall j | 0 <= j < i && j != best
          ensures HeapLess(h[i], h[j])
        {
          BeforeTrans(AsItem(h[i]), AsItem(h[best]), AsItem(h[j]));
        }
        best := i;
      } else {
        BeforeTotal(AsItem(h[best]), AsItem(h[i]));
      }
    }
    item, rest, at := h[best], h[..best] + h[best + 1..], best;
  }

  ghost function AsItem(m: MergeItem): Item
    reads m.iter
    requires m.fileID > 0
  {
    Item(m.iter.key, m.fileID - 1, m.iter.value)
  }

  /** The pairs left over all inputs. */
  ghost function Left(inputs: seq<seq<Pair>>, c: seq<nat>): nat
    requires Progress(inputs, c)
  {
    if inputs == [] then 0
    else |inputs[|inputs| - 1]| - c[|c| - 1] + Left(inputs[..|inputs| - 1], c[..|c| - 1])
  }

  lemma {:induction false} LeftDrops(inputs: seq<seq<Pair>>, c: seq<nat>, j: nat)
    requires Progress(inputs, c) && HasHead(inputs, c, j)
    ensures Progress(inputs, c[j := c[j] + 1]) && Left(inputs, c[j := c[j] + 1]) < Left(inputs, c)
  {
    var m, d := |inputs| - 1, c[j := c[j] + 1];
    if j < m {
      LeftDrops(inputs[..m], c[..m], j);
      assert d[..m] == c[..m][j := c[j] + 1];
    } else {
      assert d[..m] == c[..m];
    }
  }

  /** Every iterator stands where `c` says. */
  ghost predicate AtCursor(iters: seq<SSTableIterator>, inputs: seq<seq<Pair>>, c: seq<nat>)
    reads iters
  {
    Progress(inputs, c) && |iters| == |inputs| &&
    forall j :: 0 <= j < |iters| ==> iters[j].Remaining() == inputs[j][c[j]..]
  }

  /** The heap holds exactly the iterators below `n` that are not exhausted, each once. */
  ghost predicate HeapOf(h: seq<MergeItem>, iters: seq<SSTableIterator>, inputs: seq<seq<Pair>>, c: seq<nat>, n: nat)
    requires Progress(inputs, c) && |iters| == |inputs|
  {
    HeapItems(h, iters, inputs, c, n) && OneEach(h) &&
    forall j: nat :: j < n && HasHead(inputs, c, j) ==> InHeap(h, j + 1)
  }

  ghost predicate HeapItems(h: seq<MergeItem>, iters: seq<SSTableIterator>, inputs: seq<seq<Pair>>, c: seq<nat>, n: nat)
    requires Progress(inputs, c) && |iters| == |inputs|
  {
    forall i :: 0 <= i < |h| ==>
      1 <= h[i].fileID <= n && HasHead(inputs, c, h[i].fileID - 1) && h[i].iter == iters[h[i].fileID - 1]
  }

  predicate OneEach(h: seq<MergeItem>) {
    forall i, j :: 0 <= i < j < |h| ==> h[i].fileID != h[j].fileID
  }

  predicate InHeap(h: seq<MergeItem>, id: nat) {
    exists i :: 0 <= i < |h| && h[i].fileID == id
  }

  predicate Distinct(iters: seq<SSTableIterator>) {
    forall i, j :: 0 <= i < j < |iters| ==> iters[i] != iters[j]
  }

  /** The popped item is the least head. */
  lemma PoppedIsLeast(iters: seq<SSTableIterator>, inputs: seq<seq<Pair>>, c: seq<nat>, h: seq<MergeItem>, at: nat)
    requires Progress(inputs, c) && |iters| == |inputs| && AtCursor(iters, inputs, c)
    requires HeapOf(h, iters, inputs, c, |inputs|) && at < |h|
    requires forall i :: 0 <= i < |h| && i != at ==> HeapLess(h[at], h[i])
    ensures LeastHead(inputs, c, h[at].fileID - 1)
    ensures AsItem(h[at]) == ItemAt(inputs, h[at].fileID - 1, c[h[at].fileID - 1])
  {
    hide Before, HeapLess, AtCursor, InHeap;
    var j: nat := h[at].fileID - 1;
    HeapItem(iters, inputs, c, h, at);
    forall i: nat | HasHead(inputs, c, i) && i != j
      ensures Before(ItemAt(inputs, j, c[j]), ItemAt(inputs, i, c[i]))
    {
      var m := FindInHeap(h, i + 1);
      HeapItem(iters, inputs, c, h, m);
      LessIsBefore(h[at], h[m]);
    }
  }

  lemma HeapItem(iters: seq<SSTableIterator>, inputs: seq<seq<Pair>>, c: seq<nat>, h: seq<MergeItem>, at: nat)
    requires Progress(inputs, c) && |iters| == |inputs| && AtCursor(iters, inputs, c)
    requires HeapOf(h, iters, inputs, c, |inputs|) && at < |h|
    ensures 1 <= h[at].fileID <= |iters| && HasHead(inputs, c, h[at].fileID - 1)
    ensures AsItem(h[at]) == ItemAt(inputs, h[at].fileID - 1, c[h[at].fileID - 1])
  {
    hide AtCursor, InHeap;
    HeadIs(iters, inputs, c, h[at].fileID - 1);
  }

  lemma FindInHeap(h: seq<MergeItem>, id: nat) returns (m: nat)
    requires InHeap(h, id)
    ensures m < |h| && h[m].fileID == id
  {
    m :| 0 <= m < |h| && h[m].fileID == id;
  }

  lemma LessIsBefore(a: MergeItem, b: MergeItem)
    requires a.fileID > 0 && b.fileID > 0
    ensures HeapLess(a, b) <==> Before(AsItem(a), AsItem(b))
  {
  }

  lemma HeadIs(iters: seq<SSTableIterator>, inputs: seq<seq<Pair>>, c: seq<nat>, j: nat)
    requires Progress(inputs, c) && AtCursor(iters, inputs, c) && j < |inputs|
    ensures iters[j].valid <==> HasHead(inputs, c, j)
    ensures HasHead(inputs, c, j) ==> iters[j].key == inputs[j][c[j]].key && iters[j].value == inputs[j][c[j]].value
    ensures HasHead(inputs, c, j) ==> ReadAll(iters[j].reader) == inputs[j][c[j] + 1..]
  {
    hide ReadAll;
    var r := inputs[j][c[j]..];
    assert iters[j].Remaining() == r;
    if HasHead(inputs, c, j) {
      assert r[0] == inputs[j][c[j]] && r[1..] == inputs[j][c[j] + 1..];
    }
  }

  lemma HeapSkip(h: seq<MergeItem>, iters: seq<SSTableIterator>, inputs: seq<seq<Pair>>, c: seq<nat>, n: nat)
    requires Progress(inputs, c) && |iters| == |inputs| && HeapOf(h, iters, inputs, c, n) && !HasHead(inputs, c, n)
    ensures HeapOf(h, iters, inputs, c, n + 1)
  {
  }

  lemma HeapAdd(h: seq<MergeItem>, iters: seq<SSTableIterator>, inputs: seq<seq<Pair>>, c: seq<nat>, n: nat)
    requires Progress(inputs, c) && |iters| == |inputs| && HeapOf(h, iters, inputs, c, n) && HasHead(inputs, c, n)
    ensures HeapOf(h + [MergeItem(iters[n], n + 1)], iters, inputs, c, n + 1)
  {
    hide InHeap;
    forall j: nat | j < n + 1 && HasHead(inputs, c, j)
      ensures InHeap(h + [MergeItem(iters[n], n + 1)], j + 1)
    {
      InHeapMore(h, MergeItem(iters[n], n + 1), j + 1);
    }
  }

  lemma InHeapMore(h: seq<MergeItem>, x: MergeItem, id: nat)
    ensures InHeap(h + [x], id) <==> InHeap(h, id) || x.fileID == id
  {
    var g := h + [x];
    assert g[|h|] == x;
    if i :| 0 <= i < |h| && h[i].fileID == id {
      assert g[i] == h[i];
    }
  }

  lemma InHeapLess(h: seq<MergeItem>, at: nat, id: nat)
    requires at < |h| && InHeap(h, id) && h[at].fileID != id
    ensures InHeap(h[..at] + h[at + 1..], id)
  {
    var g := h[..at] + h[at + 1..];
    var i :| 0 <= i < |h| && h[i].fileID == id;
    assert g[if i < at then i else i - 1] == h[i];
  }

  /** Popping an item, moving its iterator on, and pushing it back unless it is exhausted. */
  lemma HeapStep(h: seq<MergeItem>, iters: seq<SSTableIterator>, inputs: seq<seq<Pair>>, c: seq<nat>, at: nat)
    requires Progress(inputs, c) && |iters| == |inputs| && HeapOf(h, iters, inputs, c, |inputs|) && at < |h|
    ensures var j: nat, rest := h[at].fileID - 1, h[..at] + h[at + 1..];
            var d := c[j := c[j] + 1];
            Progress(inputs, d) &&
            HeapOf(if HasHead(inputs, d, j) then rest + [h[at]] else rest, iters, inputs, d, |inputs|)
  {
    hide InHeap;
    var j: nat, rest := h[at].fileID - 1, h[..at] + h[at + 1..];
    var d := c[j := c[j] + 1];
    assert forall i :: 0 <= i < |rest| ==> rest[i] == h[if i < at then i else i + 1];
    assert HeapItems(rest, iters, inputs, d, |inputs|) && OneEach(rest);
    forall m: nat | m != j && HasHead(inputs, d, m)
      ensures InHeap(rest, m + 1)
    {
      assert HasHead(inputs, c, m);
      InHeapLess(h, at, m + 1);
    }
    if HasHead(inputs, d, j) {
      forall m: nat | HasHead(inputs, d, m)
        ensures InHeap(rest + [h[at]], m + 1)
      {
        InHeapMore(rest, h[at], m + 1);
      }
    }
  }

  lemma HeapFacts(h: seq<MergeItem>, iters: seq<SSTableIterator>, inputs: seq<seq<Pair>>, c: seq<nat>)
    requires Progress(inputs, c) && |iters| == |inputs| && HeapOf(h, iters, inputs, c, |inputs|)
    ensures OneEach(h)
    ensures forall i :: 0 <= i < |h| ==> 1 <= h[i].fileID <= |iters| && h[i].iter == iters[h[i].fileID - 1]
    ensures forall i :: 0 <= i < |h| ==> HasHead(inputs, c, h[i].fileID - 1)
  {
  }

  lemma HeapEmpty(iters: seq<SSTableIterator>, inputs: seq<seq<Pair>>, c: seq<nat>)
    requires Progress(inputs, c) && |iters| == |inputs| && HeapOf([], iters, inputs, c, |inputs|)
    ensures Exhausted(inputs, c)
  {
    forall j: nat | j < |inputs|
      ensures c[j] == |inputs[j]|
    {
      assert !InHeap([], j + 1);
      assert !HasHead(inputs, c, j);
    }
  }

  /** `item.iter.Next()`. */
  method NextOf(iter: SSTableIterator, iters: seq<SSTableIterator>,
                ghost inputs: seq<seq<Pair>>, ghost c: seq<nat>, ghost j: nat)
    requires AtCursor(iters, inputs, c) && HasHead(inputs, c, j) && iter == iters[j] && Distinct(iters)
    modifies iter
    ensures Progress(inputs, c[j := c[j] + 1]) && AtCursor(iters, inputs, c[j := c[j] + 1])
    ensures iter.valid <==> HasHead(inputs, c[j := c[j] + 1], j)
  {
    HeadIs(iters, inputs, c, j);
    iter.Next();
    ghost var d := c[j := c[j] + 1];
    forall i | 0 <= i < |iters|
      ensures iters[i].Remaining() == inputs[i][d[i]..]
    {
      if i != j {
        assert iters[i] != iter;
      }
    }
    HeadIs(iters, inputs, d, j);
  }

  /** `doMerge`: for tables in logical order, oldest first. */
  method DoMerge(iters: seq<SSTableIterator>, ghost inputs: seq<seq<Pair>>) returns (builder: SSTableBuilder)
    requires Distinct(iters) && |iters| == |inputs| && AllSorted(inputs)
    requires forall j :: 0 <= j < |iters| ==> iters[j].Remaining() == inputs[j]
    modifies iters
    ensures fresh(builder) && IsMerge(inputs, builder.pairs)
    ensures forall j :: 0 <= j < |iters| ==> !iters[j].valid
  {
    hide *;
    builder := new SSTableBuilder();
    ghost var c: seq<nat>, l: seq<Item> := seq(|inputs|, _ => 0), [];
    NothingPopped(inputs);
    AllAtStart(iters, inputs, c);
    var h := PushValid(iters, inputs, c);
    c, l := MergeLoop(iters, h, builder, inputs, c);
    MergeDone(inputs, c, l);
    for idx := 0 to |iters|
      invariant builder.pairs == Written(l) && forall j :: 0 <= j < idx ==> !iters[j].valid
    {
      iters[idx].Close();
    }
  }

  lemma AllAtStart(iters: seq<SSTableIterator>, inputs: seq<seq<Pair>>, c: seq<nat>)
    requires |iters| == |inputs| && c == seq(|inputs|, _ => 0)
    requires forall j :: 0 <= j < |iters| ==> iters[j].Remaining() == inputs[j]
    ensures Progress(inputs, c) && AtCursor(iters, inputs, c)
  {
    hide ReadAll;
  }

  /** The first loop of `doMerge`: every iterator that has a pair enters the heap. */
  method PushValid(iters: seq<SSTableIterator>, ghost inputs: seq<seq<Pair>>, ghost c: seq<nat>)
    returns (h: seq<MergeItem>)
    requires |iters| == |inputs| && Progress(inputs, c) && AtCursor(iters, inputs, c)
    ensures HeapOf(h, iters, inputs, c, |inputs|)
  {
    hide ReadAll, AtCursor, InHeap;
    h := [];
    for idx := 0 to |iters|
      invariant HeapOf(h, iters, inputs, c, idx)
    {
      HeadIs(iters, inputs, c, idx);
      if iters[idx].valid {
        HeapAdd(h, iters, inputs, c, idx);
        h := h + [MergeItem(iters[idx], idx + 1)];
      } else {
        HeapSkip(h, iters, inputs, c, idx);
      }
    }
  }

  /** The main loop of `doMerge`. */
  method MergeLoop(iters: seq<SSTableIterator>, start: seq<MergeItem>, builder: SSTableBuilder,
                   ghost inputs: seq<seq<Pair>>, ghost c0: seq<nat>)
    returns (ghost c: seq<nat>, ghost l: seq<Item>)
    requires Distinct(iters) && AllSorted(inputs)
    requires |iters| == |inputs| && Progress(inputs, c0) && AtCursor(iters, inputs, c0) && HeapOf(start, iters, inputs, c0, |inputs|)
    requires Popped(inputs, c0, []) && builder.pairs == []
    modifies iters, builder
    ensures Popped(inputs, c, l) && Exhausted(inputs, c) && builder.pairs == Written(l)
  {
    hide Sorted, Compare, ReadAll, Popped, LeastHead, Left, AtCursor, HeapOf, Exhausted, Distinct, AllSorted, HasHead,
      Before, HeapLess, OneEach, InHeap, SSTableIterator.Remaining, Written;
    c, l := c0, [];
    NothingWritten();
    var h := start;
    var lastKey: Bytes := [];
    while |h| > 0
      invariant Progress(inputs, c) && AtCursor(iters, inputs, c) && HeapOf(h, iters, inputs, c, |inputs|)
      invariant Popped(inputs, c, l) && builder.pairs == Written(l)
      invariant lastKey == if builder.pairs == [] then [] else builder.pairs[|builder.pairs| - 1].key
      decreases Left(inputs, c)
    {
      HeapFacts(h, iters, inputs, c);
      var item, rest, at := PopLeast(h);
      var k, v := item.iter.key, Copied(item.iter.value);
      ghost var j, x := item.fileID - 1, AsItem(item);
      PoppedIsLeast(iters, inputs, c, h, at);
      PopStep(inputs, c, l, j);
      if |lastKey| == 0 || lastKey != k {
        builder.Append(k, v);
        lastKey := k;
      }
      WrittenMore(l, x);
      l := l + [x];
      LeftDrops(inputs, c, j);
      HeapStep(h, iters, inputs, c, at);
      NextOf(item.iter, iters, inputs, c, j);
      c := c[j := c[j] + 1];
      h := rest;
      if item.iter.valid {
        h := h + [item];
      }
    }
    HeapEmpty(iters, inputs, c);
  }

  lemma WrittenMore(l: seq<Item>, x: Item)
    ensures Written(l + [x]) == Write(Written(l), x)
  {
    assert (l + [x])[..|l|] == l;
  }
}
