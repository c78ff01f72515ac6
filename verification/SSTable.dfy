/** The table file format: data blocks, an index of the greatest key of each block, a footer.
    What a file says is defined by the reader's own decoding of its bytes. */
module SSTable {
  import opened Ops
  import opened Codec
  import opened Pairs

  const Tombstone := 0xFFFF_FFFF
  const BlockSize := 4096
  const FooterSize := 24
  const Magic := 0x1234_5678_ABCD_EF00

  datatype IndexEntry = IndexEntry(maxKey: Bytes, offset: nat, size: nat)

  /** The in-memory description of a table file (its id is kept beside it). */
  datatype Meta = Meta(minKey: Bytes, maxKey: Bytes, size: nat, index: seq<IndexEntry>)

  // ---------------------------------------------------------------- encoding

  function EncodeValue(v: Option<Bytes>): Bytes {
    if v.None? then LE(Tombstone, 4) else LE(|v.value| % U32, 4) + v.value
  }

  function EncodePair(p: Pair): Bytes { LE(|p.key| % U32, 4) + p.key + EncodeValue(p.value) }

  function EncodePairs(ps: seq<Pair>): Bytes {
    if ps == [] then [] else EncodePair(ps[0]) + EncodePairs(ps[1..])
  }

  /** Lengths survive the 32-bit fields, and no value is as long as the tombstone mark. */
  predicate Fits(p: Pair) { |p.key| < U32 && (p.value.Some? ==> |p.value.value| < Tombstone) }

  predicate AllFit(ps: seq<Pair>) { forall i :: 0 <= i < |ps| ==> Fits(ps[i]) }

  function EncodeEntry(e: IndexEntry): Bytes {
    LE(|e.maxKey| % U32, 4) + e.maxKey + LE(e.offset % U64, 8) + LE(e.size % U64, 8)
  }

  function EncodeIndex(es: seq<IndexEntry>): Bytes {
    if es == [] then [] else EncodeEntry(es[0]) + EncodeIndex(es[1..])
  }

  /** How many pairs the first block takes, at least `k`: it closes on reaching 4096 bytes or
      on the last pair. */
  function BlockEnd(ps: seq<Pair>, k: nat): (e: nat)
    requires 1 <= k <= |ps|
    ensures k <= e <= |ps|
    decreases |ps| - k
  {
    if |EncodePairs(ps[..k])| >= BlockSize || k == |ps| then k else BlockEnd(ps, k + 1)
  }

  /** The index of the blocks that start at file offset `at`. */
  function IndexOf(ps: seq<Pair>, at: nat): (es: seq<IndexEntry>)
    ensures es == [] <==> ps == []
    decreases |ps|
  {
    if ps == [] then []
    else
      var e := BlockEnd(ps, 1);
      var size := |EncodePairs(ps[..e])|;
      [IndexEntry(ps[e - 1].key, at, size)] + IndexOf(ps[e..], at + size)
  }

  function Footer(indexOffset: nat, indexSize: nat): (f: Bytes)
    ensures |f| == FooterSize
  {
    LE(indexOffset % U64, 8) + LE(indexSize % U64, 8) + LE(Magic, 8)
  }

  /** The whole file that `writeSSTable` produces. */
  function FileOf(ps: seq<Pair>): Bytes {
    var data, index := EncodePairs(ps), EncodeIndex(IndexOf(ps, 0));
    data + index + Footer(|data|, |index|)
  }

  function MetaOf(ps: seq<Pair>): Meta
    requires ps != []
  {
    Meta(ps[0].key, ps[|ps| - 1].key, |FileOf(ps)|, IndexOf(ps, 0))
  }

  // ---------------------------------------------------------------- decoding

  datatype Turn<+T> = Got(item: T, rest: Bytes) | Stop

  /** A length-prefixed key: `io.ReadFull` of the length, then of the key. */
  function ReadKey(s: Bytes): (t: Turn<Bytes>)
    ensures t.Got? ==> |t.rest| < |s| && t.rest == s[|s| - |t.rest|..]
  {
    if |s| < 4 then Stop
    else
      var n := FromLE(s[..4]);
      if |s| - 4 < n then Stop else Got(s[4..4 + n], s[4 + n..])
  }

  function ReadValue(s: Bytes): (t: Turn<Option<Bytes>>)
    ensures t.Got? ==> |t.rest| < |s| && t.rest == s[|s| - |t.rest|..]
  {
    if |s| < 4 then Stop
    else
      var n := FromLE(s[..4]);
      if n == Tombstone then Got(None, s[4..])
      else if |s| - 4 < n then Stop
      else Got(Some(s[4..4 + n]), s[4 + n..])
  }

  function ReadPair(s: Bytes): (t: Turn<Pair>)
    ensures t.Got? ==> |t.rest| < |s| && t.rest == s[|s| - |t.rest|..]
  {
    match ReadKey(s)
    case Stop => Stop
    case Got(key, s1) =>
      match ReadValue(s1)
      case Stop => Stop
      case Got(value, s2) => Got(Pair(key, value), s2)
  }

  function ReadAll(s: Bytes): seq<Pair>
    decreases |s|
  {
    match ReadPair(s)
    case Stop => []
    case Got(p, rest) => [p] + ReadAll(rest)
  }

  /** Where the data region ends: the end of the last block, or 0 without blocks. */
  function DataEnd(meta: Meta, file: Bytes): (e: nat)
    ensures e <= |file|
  {
    var n := |meta.index|;
    var end := if n > 0 then meta.index[n - 1].offset + meta.index[n - 1].size else 0;
    if end < |file| then end else |file|
  }

  /** The first pair with the key: its value or tombstone. */
  function First(ps: seq<Pair>, key: Bytes): Option<Option<Bytes>> {
    if ps == [] then None
    else if ps[0].key == key then Some(ps[0].value)
    else First(ps[1..], key)
  }

  function ReadEntry(s: Bytes): (t: Turn<IndexEntry>)
    ensures t.Got? ==> |t.rest| < |s| && t.rest == s[|s| - |t.rest|..]
  {
    match ReadKey(s)
    case Stop => Stop
    case Got(key, s1) =>
      if |s1| < 16 then Stop
      else Got(IndexEntry(key, FromLE(s1[..8]), FromLE(s1[8..16])), s1[16..])
  }

  function ReadIndex(s: Bytes): seq<IndexEntry>
    decreases |s|
  {
    match ReadEntry(s)
    case Stop => []
    case Got(e, rest) => [e] + ReadIndex(rest)
  }

  /** `sort.Search` over the index, from `lo` to `hi`. */
  function Search(es: seq<IndexEntry>, key: Bytes, lo: nat, hi: nat): (i: nat)
    requires lo <= hi <= |es|
    ensures lo <= i <= hi
    decreases hi - lo
  {
    if lo == hi then lo
    else
      var mid := (lo + hi) / 2;
      if Less(es[mid].maxKey, key) then Search(es, key, mid + 1, hi) else Search(es, key, lo, mid)
  }

  /** Block `i` read whole and scanned, if there is one and the file holds it. */
  function ReadBlock(es: seq<IndexEntry>, file: Bytes, key: Bytes, i: nat): Option<Option<Bytes>>
    requires i <= |es|
  {
    if i == |es| then None
    else if es[i].offset + es[i].size > |file| then None
    else First(ReadAll(file[es[i].offset..es[i].offset + es[i].size]), key)
  }

  /** `readValFromSSTable`. */
  function ReadVal(es: seq<IndexEntry>, file: Bytes, key: Bytes): Option<Option<Bytes>> {
    ReadBlock(es, file, key, Search(es, key, 0, |es|))
  }

  datatype Loaded = Skip | Corrupt | Loaded(meta: Meta)

  /** What `loadSSTables` makes of one file. */
  function Load(file: Bytes): Loaded {
    if |file| < FooterSize then Skip
    else
      var footer := file[|file| - FooterSize..];
      if FromLE(footer[16..24]) != Magic then Corrupt
      else
        var at, size := FromLE(footer[0..8]), FromLE(footer[8..16]);
        if (if size == 0 then at >= U64 / 2 else at + size > |file|) then Corrupt   // an empty read fails only
        else                                                                       // at a negative offset
          var index := if size == 0 then [] else ReadIndex(file[at..at + size]);
          if index == [] then Skip
          else
            match ReadKey(file)
            case Stop => Corrupt
            case Got(minKey, _) => Loaded(Meta(minKey, index[|index| - 1].maxKey, |file|, index))
  }

  // ------------------------------------------------------------- round trips

  lemma ReadKeyBack(key: Bytes, tail: Bytes)
    requires |key| < U32
    ensures ReadKey(LE(|key| % U32, 4) + key + tail) == Got(key, tail)
  {
    hide LE, FromLE;
    var s := LE(|key| % U32, 4) + key + tail;
    assert |s| == 4 + |key| + |tail|;
    U32LE(|key|);
    assert s[..4] == LE(|key| % U32, 4);
    assert s[4..4 + |key|] == key;
    assert s[4 + |key|..] == tail;
  }

  lemma ReadValueBack(v: Option<Bytes>, tail: Bytes)
    requires v.Some? ==> |v.value| < Tombstone
    ensures ReadValue(EncodeValue(v) + tail) == Got(v, tail)
  {
    hide LE, FromLE;
    var s := EncodeValue(v) + tail;
    if v.None? {
      U32LE(Tombstone);
      assert Tombstone % U32 == Tombstone;
      assert s[..4] == LE(Tombstone, 4) && s[4..] == tail;
    } else {
      U32LE(|v.value|);
      assert s[..4] == LE(|v.value| % U32, 4);
      assert s[4..4 + |v.value|] == v.value;
      assert s[4 + |v.value|..] == tail;
    }
  }

  lemma ReadPairBack(p: Pair, tail: Bytes)
    requires Fits(p)
    ensures ReadPair(EncodePair(p) + tail) == Got(p, tail)
  {
    hide ReadKey, ReadValue, EncodeValue, LE;
    assert EncodePair(p) + tail == LE(|p.key| % U32, 4) + p.key + (EncodeValue(p.value) + tail);
    ReadKeyBack(p.key, EncodeValue(p.value) + tail);
    ReadValueBack(p.value, tail);
  }

  /** The data region of a file decodes to exactly the pairs written. */
  lemma {:induction false} ReadAllBack(ps: seq<Pair>)
    requires AllFit(ps)
    ensures ReadAll(EncodePairs(ps)) == ps
  {
    hide ReadPair, EncodePair;
    if ps == [] {
      ReadNothing();
    } else {
      ReadPairBack(ps[0], EncodePairs(ps[1..]));
      ReadAllBack(ps[1..]);
    }
  }

  lemma ReadNothing()
    ensures ReadPair([]).Stop? && ReadEntry([]).Stop?
  {
  }

  lemma ReadEntryBack(e: IndexEntry, tail: Bytes)
    requires |e.maxKey| < U32 && e.offset < U64 && e.size < U64
    ensures ReadEntry(EncodeEntry(e) + tail) == Got(e, tail)
  {
    hide ReadKey, LE, FromLE;
    var at, size := LE(e.offset % U64, 8), LE(e.size % U64, 8);
    assert EncodeEntry(e) + tail == LE(|e.maxKey| % U32, 4) + e.maxKey + (at + size + tail);
    ReadKeyBack(e.maxKey, at + size + tail);
    U64LE(e.offset);
    U64LE(e.size);
    assert (at + size + tail)[..8] == at && (at + size + tail)[8..16] == size && (at + size + tail)[16..] == tail;
  }

  predicate EntriesFit(es: seq<IndexEntry>) {
    forall i :: 0 <= i < |es| ==> |es[i].maxKey| < U32 && es[i].offset < U64 && es[i].size < U64
  }

  lemma {:induction false} ReadIndexBack(es: seq<IndexEntry>)
    requires EntriesFit(es)
    ensures ReadIndex(EncodeIndex(es)) == es
  {
    hide ReadEntry, EncodeEntry;
    if es == [] {
      ReadNothing();
    } else {
      ReadEntryBack(es[0], EncodeIndex(es[1..]));
      ReadIndexBack(es[1..]);
    }
  }

  lemma EncodeCons(p: Pair, ps: seq<Pair>)
    ensures EncodePairs([p] + ps) == EncodePair(p) + EncodePairs(ps)
  {
    assert ([p] + ps)[1..] == ps;
  }

  lemma {:induction false} EncodeSplit(a: seq<Pair>, b: seq<Pair>)
    ensures EncodePairs(a + b) == EncodePairs(a) + EncodePairs(b)
  {
    hide EncodePair, EncodePairs;
    if a == [] {
      NothingEncoded();
      assert a + b == b;
    } else {
      var t := a[1..];
      EncodeSplit(t, b);
      assert a == [a[0]] + t && a + b == [a[0]] + (t + b);
      EncodeCons(a[0], t);
      EncodeCons(a[0], t + b);
    }
  }

  /** The handles cover `at..end` without gap or overlap, and none is empty. */
  predicate Tiles(es: seq<IndexEntry>, at: nat, end: nat) {
    if es == [] then at == end
    else es[0].offset == at && es[0].size > 0 && Tiles(es[1..], at + es[0].size, end)
  }

  lemma BlockNotEmpty(ps: seq<Pair>)
    requires ps != []
    ensures |EncodePairs(ps)| > 0
  {
  }

  /** The handles of a table tile its data region. */
  lemma {:induction false} HandlesTile(ps: seq<Pair>, at: nat)
    ensures Tiles(IndexOf(ps, at), at, at + |EncodePairs(ps)|)
    decreases |ps|
  {
    hide EncodePair;
    if ps != [] {
      var e := BlockEnd(ps, 1);
      var size := |EncodePairs(ps[..e])|;
      HandlesTile(ps[e..], at + size);
      EncodeSplit(ps[..e], ps[e..]);
      assert ps[..e] + ps[e..] == ps;
      BlockNotEmpty(ps[..e]);
      assert IndexOf(ps, at)[1..] == IndexOf(ps[e..], at + size);
    }
  }

  /** The last handle of a tiling ends where the region does. */
  lemma {:induction false} LastEnds(es: seq<IndexEntry>, at: nat, end: nat)
    requires Tiles(es, at, end) && es != []
    ensures es[|es| - 1].offset + es[|es| - 1].size == end
  {
    if |es| > 1 {
      LastEnds(es[1..], at + es[0].size, end);
    }
  }

  /** Every handle of the index is within the data region, and every key fits. */
  lemma {:induction false} IndexFits(ps: seq<Pair>, at: nat)
    requires AllFit(ps) && at + |EncodePairs(ps)| < U64
    ensures EntriesFit(IndexOf(ps, at))
    decreases |ps|
  {
    hide EncodePair, EncodePairs;
    if ps != [] {
      var e := BlockEnd(ps, 1);
      EncodeSplit(ps[..e], ps[e..]);
      assert ps[..e] + ps[e..] == ps;
      IndexFits(ps[e..], at + |EncodePairs(ps[..e])|);
    }
  }

  lemma {:induction false} IndexLastKey(ps: seq<Pair>, at: nat)
    requires ps != []
    ensures var es := IndexOf(ps, at); es[|es| - 1].maxKey == ps[|ps| - 1].key
    decreases |ps|
  {
    hide EncodePairs, BlockEnd;
    var e := BlockEnd(ps, 1);
    if e < |ps| {
      IndexLastKey(ps[e..], at + |EncodePairs(ps[..e])|);
    }
  }

  lemma FooterBack(at: nat, size: nat)
    requires at < U64 && size < U64
    ensures var f := Footer(at, size);
            FromLE(f[0..8]) == at && FromLE(f[8..16]) == size && FromLE(f[16..24]) == Magic
  {
    hide LE, FromLE;
    var f := Footer(at, size);
    U64LE(at);
    U64LE(size);
    U64LE(Magic);
    assert Magic % U64 == Magic;
    assert f[0..8] == LE(at % U64, 8) && f[8..16] == LE(size % U64, 8) && f[16..24] == LE(Magic, 8);
  }

  lemma NothingEncoded()
    ensures EncodePairs([]) == []
  {
  }

  lemma NoIndex(es: seq<IndexEntry>)
    ensures EncodeIndex(es) == [] <==> es == []
  {
  }

  /** The parts of a file, read by their positions. */
  lemma LoadOf(data: Bytes, es: seq<IndexEntry>, minKey: Bytes)
    requires EntriesFit(es) && |data + EncodeIndex(es)| < U64 && (es == [] ==> data == [])
    requires es != [] ==>
               var k := ReadKey(data + (EncodeIndex(es) + Footer(|data|, |EncodeIndex(es)|)));
               k.Got? && k.item == minKey
    ensures var file := data + EncodeIndex(es) + Footer(|data|, |EncodeIndex(es)|);
            Load(file) == if es == [] then Skip
                          else Loaded(Meta(minKey, es[|es| - 1].maxKey, |file|, es))
  {
    hide LE, FromLE, Footer, EncodeIndex, ReadKey, ReadIndex;
    var index := EncodeIndex(es);
    var file := data + index + Footer(|data|, |index|);
    assert file[|file| - FooterSize..] == Footer(|data|, |index|);
    FooterBack(|data|, |index|);
    NoIndex(es);
    assert file[|data|..|data| + |index|] == index;
    ReadIndexBack(es);
    assert file == data + (index + Footer(|data|, |index|));
  }

  /** Loading a written file recovers its index, size, least and greatest key; a file without
      pairs is skipped. */
  lemma LoadBack(ps: seq<Pair>)
    requires AllFit(ps) && |FileOf(ps)| < U64
    ensures Load(FileOf(ps)) == if ps == [] then Skip else Loaded(MetaOf(ps))
  {
    hide Load, Footer, EncodePairs, EncodeIndex, IndexOf, ReadKey;
    var data, es := EncodePairs(ps), IndexOf(ps, 0);
    IndexFits(ps, 0);
    if ps != [] {
      FirstKeyBack(ps, EncodeIndex(es) + Footer(|data|, |EncodeIndex(es)|));
      IndexLastKey(ps, 0);
      LoadOf(data, es, ps[0].key);
    } else {
      NothingEncoded();
      LoadOf(data, es, []);
    }
  }

  lemma FirstKeyBack(ps: seq<Pair>, tail: Bytes)
    requires ps != [] && AllFit(ps)
    ensures ReadKey(EncodePairs(ps) + tail).Got? && ReadKey(EncodePairs(ps) + tail).item == ps[0].key
  {
    hide ReadKey, LE, EncodeValue;
    var rest := EncodeValue(ps[0].value) + EncodePairs(ps[1..]) + tail;
    assert EncodePairs(ps) + tail == LE(|ps[0].key| % U32, 4) + ps[0].key + rest;
    ReadKeyBack(ps[0].key, rest);
  }

  // ---------------------------------------------------- indexed lookup = linear search

  lemma {:induction false} FirstSplit(a: seq<Pair>, b: seq<Pair>, key: Bytes)
    ensures First(a + b, key) == if First(a, key).Some? then First(a, key) else First(b, key)
  {
    if a == [] {
      assert a + b == b;
    } else {
      FirstSplit(a[1..], b, key);
      assert (a + b)[1..] == a[1..] + b;
    }
  }

  lemma {:induction false} FirstNone(ps: seq<Pair>, key: Bytes)
    requires forall i :: 0 <= i < |ps| ==> ps[i].key != key
    ensures First(ps, key) == None
  {
    if ps != [] {
      FirstNone(ps[1..], key);
    }
  }

  /** Linear search finds exactly what the table's map says. */
  lemma {:induction false} FirstIsMap(ps: seq<Pair>, key: Bytes)
    requires Sorted(ps)
    ensures First(ps, key) == if key in ToMap(ps) then Some(ToMap(ps)[key]) else None
  {
    if i :| 0 <= i < |ps| && ps[i].key == key {
      MapAt(ps, i);
      assert ps == ps[..i] + ps[i..];
      FirstSplit(ps[..i], ps[i..], key);
      forall j | 0 <= j < i
        ensures ps[j].key != key
      {
        Trichotomy(ps[j].key, ps[i].key);
      }
      FirstNone(ps[..i], key);
    } else {
      MapKeys(ps, key);
      FirstNone(ps, key);
    }
  }

  /** The first block whose greatest key is not below `key`. */
  function BlockFor(es: seq<IndexEntry>, key: Bytes): (i: nat)
    ensures i <= |es|
  {
    if es == [] || !Less(es[0].maxKey, key) then 0 else 1 + BlockFor(es[1..], key)
  }

  function ReadFirst(es: seq<IndexEntry>, file: Bytes, key: Bytes): Option<Option<Bytes>> {
    ReadBlock(es, file, key, BlockFor(es, key))
  }

  /** Block keys rise along an index, as they do for a sorted table. */
  predicate Rising(es: seq<IndexEntry>) {
    forall i, j :: 0 <= i < j < |es| ==> Less(es[i].maxKey, es[j].maxKey)
  }

  lemma {:induction false} KeysInside(ps: seq<Pair>, at: nat, i: nat)
    requires i < |IndexOf(ps, at)|
    ensures exists j :: 0 <= j < |ps| && IndexOf(ps, at)[i].maxKey == ps[j].key
    decreases |ps|
  {
    hide EncodePairs;
    var e := BlockEnd(ps, 1);
    if i == 0 {
      assert IndexOf(ps, at)[0].maxKey == ps[e - 1].key;
    } else {
      var size := |EncodePairs(ps[..e])|;
      KeysInside(ps[e..], at + size, i - 1);
      var j :| 0 <= j < |ps[e..]| && IndexOf(ps[e..], at + size)[i - 1].maxKey == ps[e..][j].key;
      assert ps[e..][j] == ps[e + j];
    }
  }

  lemma {:induction false} SortedRises(ps: seq<Pair>, at: nat)
    requires Sorted(ps)
    ensures Rising(IndexOf(ps, at))
    decreases |ps|
  {
    hide EncodePairs, BlockEnd;
    if ps != [] {
      var e := BlockEnd(ps, 1);
      var size := |EncodePairs(ps[..e])|;
      var es, fs := IndexOf(ps, at), IndexOf(ps[e..], at + size);
      assert es == [IndexEntry(ps[e - 1].key, at, size)] + fs;
      SortedRises(ps[e..], at + size);
      forall j | 0 <= j < |fs|
        ensures Less(ps[e - 1].key, fs[j].maxKey)
      {
        KeysInside(ps[e..], at + size, j);
      }
    }
  }

  /** On a rising index the binary search finds the first block whose greatest key is not below
      the key. */
  lemma {:induction false} SearchFinds(es: seq<IndexEntry>, key: Bytes, lo: nat, hi: nat)
    requires Rising(es) && lo <= hi <= |es|
    requires (forall j :: 0 <= j < lo ==> Less(es[j].maxKey, key)) && (hi < |es| ==> !Less(es[hi].maxKey, key))
    ensures Search(es, key, lo, hi) == BlockFor(es, key)
    decreases hi - lo
  {
    hide Less, BlockFor;
    if lo == hi {
      BlockForIs(es, key, lo);
    } else {
      var mid := (lo + hi) / 2;
      if Less(es[mid].maxKey, key) {
        forall j | 0 <= j < mid
          ensures Less(es[j].maxKey, key)
        {
          assert Less(es[j].maxKey, es[mid].maxKey);
          LessTrans(es[j].maxKey, es[mid].maxKey, key);
        }
        SearchFinds(es, key, mid + 1, hi);
      } else {
        SearchFinds(es, key, lo, mid);
      }
    }
  }

  lemma {:induction false} BlockForIs(es: seq<IndexEntry>, key: Bytes, i: nat)
    requires i <= |es|
    requires forall j :: 0 <= j < i ==> Less(es[j].maxKey, key)
    requires i < |es| ==> !Less(es[i].maxKey, key)
    ensures BlockFor(es, key) == i
  {
    if i > 0 {
      BlockForIs(es[1..], key, i - 1);
    }
  }

  /** In the first block whose greatest key is not below `key`, or nowhere. */
  lemma BlockHolds(ps: seq<Pair>, e: nat, key: Bytes)
    requires Sorted(ps) && 1 <= e <= |ps|
    ensures !Less(ps[e - 1].key, key) ==> First(ps, key) == First(ps[..e], key)
    ensures Less(ps[e - 1].key, key) ==> First(ps, key) == First(ps[e..], key)
  {
    hide Compare, First;
    assert ps == ps[..e] + ps[e..];
    FirstSplit(ps[..e], ps[e..], key);
    if Less(ps[e - 1].key, key) {
      forall j | 0 <= j < e
        ensures ps[j].key != key
      {
        if j < e - 1 { LessTrans(ps[j].key, ps[e - 1].key, key); }
        Trichotomy(ps[j].key, key);
      }
      FirstNone(ps[..e], key);
    } else {
      forall j | e <= j < |ps|
        ensures ps[j].key != key
      {
        assert Less(ps[e - 1].key, ps[j].key);
      }
      FirstNone(ps[e..], key);
    }
  }

  lemma {:induction false} LookupFrom(ps: seq<Pair>, pre: Bytes, tail: Bytes, key: Bytes)
    requires Sorted(ps) && AllFit(ps)
    ensures ReadFirst(IndexOf(ps, |pre|), pre + EncodePairs(ps) + tail, key) == First(ps, key)
    decreases |ps|
  {
    hide Compare, EncodePairs, First, ReadFirst, BlockEnd;
    if ps == [] {
      FirstNone(ps, key);
      ReadNone(pre + EncodePairs(ps) + tail, key);
    } else {
      var e := BlockEnd(ps, 1);
      var block := EncodePairs(ps[..e]);
      var file := pre + EncodePairs(ps) + tail;
      EncodeSplit(ps[..e], ps[e..]);
      assert ps[..e] + ps[e..] == ps;
      BlockHolds(ps, e, key);
      if Less(ps[e - 1].key, key) {
        assert file == (pre + block) + EncodePairs(ps[e..]) + tail;
        LookupFrom(ps[e..], pre + block, tail, key);
        assert |pre + block| == |pre| + |block|;
        LookupNext(ps, |pre|, file, key);
      } else {
        assert file == pre + block + (EncodePairs(ps[e..]) + tail);
        LookupHere(ps, pre, EncodePairs(ps[e..]) + tail, key);
      }
    }
  }

  lemma ReadNone(file: Bytes, key: Bytes)
    ensures ReadFirst([], file, key) == None
  {
  }

  lemma LookupHere(ps: seq<Pair>, pre: Bytes, rest: Bytes, key: Bytes)
    requires ps != [] && AllFit(ps) && !Less(ps[BlockEnd(ps, 1) - 1].key, key)
    ensures var e := BlockEnd(ps, 1);
            ReadFirst(IndexOf(ps, |pre|), pre + EncodePairs(ps[..e]) + rest, key) == First(ps[..e], key)
  {
    hide Compare, EncodePairs, ReadAll, First, BlockEnd;
    var e := BlockEnd(ps, 1);
    var block := EncodePairs(ps[..e]);
    assert (pre + block + rest)[|pre|..|pre| + |block|] == block;
    ReadAllBack(ps[..e]);
  }

  /** A first block whose greatest key is below the key is skipped. */
  lemma SkipFirst(es: seq<IndexEntry>, file: Bytes, key: Bytes)
    requires es != [] && Less(es[0].maxKey, key)
    ensures ReadFirst(es, file, key) == ReadFirst(es[1..], file, key)
  {
    hide Compare, ReadAll, First;
    var i := BlockFor(es[1..], key);
    assert i < |es[1..]| ==> es[1..][i] == es[i + 1];
  }

  lemma IndexTail(ps: seq<Pair>, at: nat)
    requires ps != []
    ensures var e, es := BlockEnd(ps, 1), IndexOf(ps, at);
            es[0].maxKey == ps[e - 1].key && es[1..] == IndexOf(ps[e..], at + |EncodePairs(ps[..e])|)
  {
    IndexStep(ps, at);
    hide *;
    var e := BlockEnd(ps, 1);
    var size := |EncodePairs(ps[..e])|;
    AfterFirst(IndexEntry(ps[e - 1].key, at, size), IndexOf(ps[e..], at + size));
  }

  lemma IndexStep(ps: seq<Pair>, at: nat)
    requires ps != []
    ensures var e := BlockEnd(ps, 1);
            var size := |EncodePairs(ps[..e])|;
            IndexOf(ps, at) == [IndexEntry(ps[e - 1].key, at, size)] + IndexOf(ps[e..], at + size)
  {
    hide EncodePairs, BlockEnd;
  }

  lemma AfterFirst(e: IndexEntry, es: seq<IndexEntry>)
    ensures ([e] + es)[0] == e && ([e] + es)[1..] == es
  {
  }

  lemma LookupNext(ps: seq<Pair>, at: nat, file: Bytes, key: Bytes)
    requires ps != [] && Less(ps[BlockEnd(ps, 1) - 1].key, key)
    ensures var e := BlockEnd(ps, 1);
            ReadFirst(IndexOf(ps, at), file, key) == ReadFirst(IndexOf(ps[e..], at + |EncodePairs(ps[..e])|), file, key)
  {
    hide *;
    IndexTail(ps, at);
    SkipFirst(IndexOf(ps, at), file, key);
  }

  /** Indexed lookup on a written file equals linear search of the pairs written: it finds the
      value or tombstone of exactly the keys that are there. */
  lemma LookupIsExact(ps: seq<Pair>, key: Bytes)
    requires Sorted(ps) && AllFit(ps)
    ensures ReadVal(IndexOf(ps, 0), FileOf(ps), key) ==
              if key in ToMap(ps) then Some(ToMap(ps)[key]) else None
  {
    hide *;
    var tail := DataFirst(ps);
    var empty: Bytes := [];
    SearchesRight(ps, FileOf(ps), key);
    LookupFrom(ps, empty, tail, key);
    assert empty + EncodePairs(ps) + tail == EncodePairs(ps) + tail;
    FirstIsMap(ps, key);
  }

  /** On the index of a sorted table the binary search reads the right block. */
  lemma SearchesRight(ps: seq<Pair>, file: Bytes, key: Bytes)
    requires Sorted(ps)
    ensures ReadVal(IndexOf(ps, 0), file, key) == ReadFirst(IndexOf(ps, 0), file, key)
  {
    SortedRises(ps, 0);
    hide Sorted, Rising, IndexOf, ReadBlock, Search, BlockFor, Less;
    SearchFinds(IndexOf(ps, 0), key, 0, |IndexOf(ps, 0)|);
  }

  lemma DataFirst(ps: seq<Pair>) returns (tail: Bytes)
    ensures FileOf(ps) == EncodePairs(ps) + tail
  {
    hide EncodePairs, EncodeIndex, IndexOf;
    var data, index := EncodePairs(ps), EncodeIndex(IndexOf(ps, 0));
    tail := index + Footer(|data|, |index|);
    assert data + index + Footer(|data|, |index|) == data + tail;
  }

  /** A key outside the table's range is not in it, so skipping the table by range is sound. */
  lemma RangeIsSound(ps: seq<Pair>, key: Bytes)
    requires Sorted(ps) && ps != []
    requires Less(key, MetaOf(ps).minKey) || Less(MetaOf(ps).maxKey, key)
    ensures key !in ToMap(ps)
  {
    hide ToMap, FileOf, IndexOf, Compare;
    if Less(key, ps[0].key) {
      MapGap(ps, 0, key);
    } else {
      MapGap(ps, |ps|, key);
    }
  }

  // ------------------------------------------------ the format, byte by byte

  /** A pair: the key's length in four bytes, least significant first, and the key; then four bytes
      255 for a tombstone, or the value's length and the value. Lengths are modulo 2^32. */
  ghost predicate PairBytes(s: Bytes, p: Pair) {
    var k := |p.key|;
    |s| >= 8 + k && Little32(s[..4]) == k % 0x1_0000_0000 && s[4..4 + k] == p.key &&
    match p.value
    case None => s[4 + k..] == [255, 255, 255, 255]
    case Some(v) => Little32(s[4 + k..8 + k]) == |v| % 0x1_0000_0000 && s[8 + k..] == v
  }

  lemma PairLayout(p: Pair)
    ensures PairBytes(EncodePair(p), p)
  {
    hide LE, Little32;
    var s, k := EncodePair(p), |p.key|;
    WritesLittle32(k);
    assert s[..4] == LE(k % U32, 4) && s[4..4 + k] == p.key;
    match p.value
    case None =>
      TombstoneBytes();
      assert s[4 + k..] == LE(Tombstone, 4);
    case Some(v) =>
      WritesLittle32(|v|);
      assert s[4 + k..8 + k] == LE(|v| % U32, 4) && s[8 + k..] == v;
  }

  lemma TombstoneBytes()
    ensures LE(Tombstone, 4) == [255, 255, 255, 255]
  {
    assert LE(0xFF, 1) == [255] + LE(0, 0);
    assert LE(0xFFFF, 2) == [255] + LE(0xFF, 1);
    assert LE(0xFF_FFFF, 3) == [255] + LE(0xFFFF, 2);
    assert LE(0xFFFF_FFFF, 4) == [255] + LE(0xFF_FFFF, 3);
  }

  /** An index entry: the key's length and the key, then offset and size in eight bytes each. */
  ghost predicate EntryBytes(s: Bytes, e: IndexEntry) {
    var k := |e.maxKey|;
    |s| == 20 + k && Little32(s[..4]) == k % 0x1_0000_0000 && s[4..4 + k] == e.maxKey &&
    Little64(s[4 + k..12 + k]) == e.offset % 0x1_0000_0000_0000_0000 &&
    Little64(s[12 + k..20 + k]) == e.size % 0x1_0000_0000_0000_0000
  }

  lemma EntryLayout(e: IndexEntry)
    ensures EntryBytes(EncodeEntry(e), e)
  {
    hide LE, Little32, Little64;
    var s, k := EncodeEntry(e), |e.maxKey|;
    WritesLittle32(k);
    WritesLittle64(e.offset);
    WritesLittle64(e.size);
    assert s[..4] == LE(k % U32, 4) && s[4..4 + k] == e.maxKey;
    assert s[4 + k..12 + k] == LE(e.offset % U64, 8) && s[12 + k..20 + k] == LE(e.size % U64, 8);
  }

  /** A file ends in 24 bytes: offset and size of the index, and the magic number 0x12345678ABCDEF00;
      the index stands right before them and the data region before that. */
  lemma FileLayout(ps: seq<Pair>)
    ensures var file, data, index := FileOf(ps), EncodePairs(ps), EncodeIndex(IndexOf(ps, 0));
            |file| == |data| + |index| + 24 && file[..|data|] == data && file[|data|..|data| + |index|] == index &&
            var foot := file[|data| + |index|..];
            Little64(foot[..8]) == |data| % 0x1_0000_0000_0000_0000 &&
            Little64(foot[8..16]) == |index| % 0x1_0000_0000_0000_0000 &&
            Little64(foot[16..]) == 0x1234_5678_ABCD_EF00
  {
    hide LE, Little64, EncodePairs, EncodeIndex, IndexOf;
    var file, data, index := FileOf(ps), EncodePairs(ps), EncodeIndex(IndexOf(ps, 0));
    WritesLittle64(|data|);
    WritesLittle64(|index|);
    WritesLittle64(Magic);
    var foot := file[|data| + |index|..];
    assert foot == Footer(|data|, |index|);
    assert foot[..8] == LE(|data| % U64, 8) && foot[8..16] == LE(|index| % U64, 8) && foot[16..] == LE(Magic, 8);
  }

  /** A block closes with the first pair that brings it to 4096 bytes, or with the last pair. */
  lemma {:induction false} BlocksAreCut(ps: seq<Pair>, k: nat)
    requires 1 <= k <= |ps|
    ensures var e := BlockEnd(ps, k);
            (forall j :: k <= j < e ==> |EncodePairs(ps[..j])| < 4096) &&
            (e < |ps| ==> |EncodePairs(ps[..e])| >= 4096)
    decreases |ps| - k
  {
    hide EncodePairs;
    if BlockEnd(ps, k) != k {
      BlocksAreCut(ps, k + 1);
    }
  }

  /** What loading makes of a file, by its last 24 bytes: too short, it is skipped; with another magic
      number, or an index beyond its end, it is corrupt; without an index entry it is skipped. */
  lemma LoadCases(file: Bytes)
    ensures if |file| < 24 then Load(file) == Skip
            else
              var foot := file[|file| - 24..];
              var at, size := Little64(foot[..8]), Little64(foot[8..16]);
              if Little64(foot[16..]) != 0x1234_5678_ABCD_EF00 then Load(file) == Corrupt
              else if size == 0 then Load(file) == if at < 0x8000_0000_0000_0000 then Skip else Corrupt
              else if at + size > |file| then Load(file) == Corrupt
              else if ReadIndex(file[at..at + size]) == [] then Load(file) == Skip
              else if Little32(file[..4]) > |file| - 4 then Load(file) == Corrupt
              else
                var index := ReadIndex(file[at..at + size]);
                Load(file) == Loaded(Meta(file[4..4 + Little32(file[..4])], index[|index| - 1].maxKey, |file|, index))
  {
    hide FromLE, ReadIndex, Little64, Little32;
    if |file| >= 24 {
      var foot := file[|file| - 24..];
      FromLE64Is(foot[..8]);
      FromLE64Is(foot[8..16]);
      FromLE64Is(foot[16..24]);
      assert foot[16..24] == foot[16..];
      FromLEIs(file[..4]);
    }
  }
}
