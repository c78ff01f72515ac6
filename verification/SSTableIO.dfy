/** The loops of sstable_writer.go, sstable_reader.go, compaction_iterator.go and the file
    parser of kvstore_compaction.go, proved to compute the format of `SSTable`. */
module SSTableIO {
  import opened Ops
  import opened Codec
  import opened Pairs
  import opened SSTable

  lemma EncodeOneMore(ps: seq<Pair>, b: nat, i: nat)
    requires b <= i < |ps|
    ensures EncodePairs(ps[b..i + 1]) == EncodePairs(ps[b..i]) + EncodePair(ps[i])
  {
    hide EncodePair;
    assert ps[b..i + 1] == ps[b..i] + [ps[i]];
    EncodeSplit(ps[b..i], [ps[i]]);
    assert [ps[i]][1..] == [];
    assert EncodePairs([ps[i]]) == EncodePair(ps[i]) + EncodePairs([]);
  }

  /** Closing a block: what has been written, and the index so far. */
  lemma BlockClosed(ps: seq<Pair>, b: nat, i: nat, at: nat)
    requires b <= i < |ps| && BlockEnd(ps[b..], 1) == i - b + 1
    ensures var size := |EncodePairs(ps[b..i + 1])|;
            IndexOf(ps[b..], at) == [IndexEntry(ps[i].key, at, size)] + IndexOf(ps[i + 1..], at + size)
    ensures EncodePairs(ps[..i + 1]) == EncodePairs(ps[..b]) + EncodePairs(ps[b..i + 1])
  {
    hide EncodePairs, BlockEnd, EncodePair;
    var e := i - b + 1;
    assert ps[b..][..e] == ps[b..i + 1] && ps[b..][e..] == ps[i + 1..] && ps[b..][e - 1] == ps[i];
    assert ps[..i + 1] == ps[..b] + ps[b..i + 1];
    EncodeSplit(ps[..b], ps[b..i + 1]);
  }

  /** The writer's loop before pair `i`: blocks up to pair `b` are in the file and the index,
      the pairs from `b` on are in the buffer, and the block they open is not closed yet. */
  ghost predicate Writing(ps: seq<Pair>, b: nat, i: nat, file: Bytes, buf: Bytes, index: seq<IndexEntry>) {
    b <= i <= |ps| && (i == |ps| ==> b == |ps|) &&
    file == EncodePairs(ps[..b]) && buf == EncodePairs(ps[b..i]) &&
    IndexOf(ps, 0) == index + IndexOf(ps[b..], |file|) &&
    (i < |ps| ==> BlockEnd(ps[b..], 1) == BlockEnd(ps[b..], i - b + 1))
  }

  lemma WriteStart(ps: seq<Pair>)
    ensures Writing(ps, 0, 0, [], [], [])
  {
    hide BlockEnd, IndexOf;
    assert ps[..0] == [] && ps[0..] == ps;
  }

  lemma WriteKeep(ps: seq<Pair>, b: nat, i: nat, file: Bytes, buf: Bytes, index: seq<IndexEntry>)
    requires Writing(ps, b, i, file, buf, index) && i + 1 < |ps|
    requires |buf + EncodePair(ps[i])| < BlockSize
    ensures Writing(ps, b, i + 1, file, buf + EncodePair(ps[i]), index)
  {
    hide EncodePair, EncodePairs, IndexOf;
    EncodeOneMore(ps, b, i);
    assert ps[b..][..i - b + 1] == ps[b..i + 1];
  }

  lemma BlockEndsHere(ps: seq<Pair>, b: nat, i: nat)
    requires b <= i < |ps| && BlockEnd(ps[b..], 1) == BlockEnd(ps[b..], i - b + 1)
    requires |EncodePairs(ps[b..i + 1])| >= BlockSize || i == |ps| - 1
    ensures BlockEnd(ps[b..], 1) == i - b + 1
  {
    hide EncodePairs;
    assert ps[b..][..i - b + 1] == ps[b..i + 1];
  }

  lemma WriteClose(ps: seq<Pair>, b: nat, i: nat, file: Bytes, buf: Bytes, index: seq<IndexEntry>)
    requires Writing(ps, b, i, file, buf, index) && i < |ps|
    requires |buf + EncodePair(ps[i])| >= BlockSize || i == |ps| - 1
    ensures var block := buf + EncodePair(ps[i]);
            Writing(ps, i + 1, i + 1, file + block, [], index + [IndexEntry(ps[i].key, |file|, |block|)])
  {
    hide EncodePair, EncodePairs, IndexOf, BlockEnd;
    var block := buf + EncodePair(ps[i]);
    EncodeOneMore(ps, b, i);
    BlockEndsHere(ps, b, i);
    BlockClosed(ps, b, i, |file|);
    EmptyStart(ps[i + 1..]);
    assert ps[i + 1..i + 1] == ps[i + 1..][..0];
    var e, rest := IndexEntry(ps[i].key, |file|, |block|), IndexOf(ps[i + 1..], |file| + |block|);
    assert |file + block| == |file| + |block|;
    Regroup(index, e, rest);
  }

  lemma Regroup(index: seq<IndexEntry>, e: IndexEntry, rest: seq<IndexEntry>)
    ensures index + ([e] + rest) == (index + [e]) + rest
  {
  }

  lemma WriteDone(ps: seq<Pair>, b: nat, file: Bytes, buf: Bytes, index: seq<IndexEntry>)
    requires Writing(ps, b, |ps|, file, buf, index)
    ensures file == EncodePairs(ps) && index == IndexOf(ps, 0)
  {
    hide EncodePairs, BlockEnd;
    assert ps[..|ps|] == ps && IndexOf(ps[|ps|..], |file|) == [];
  }

  method WriteSSTable(pairs: seq<Pair>) returns (file: Bytes, written: nat, index: seq<IndexEntry>)
    ensures file == FileOf(pairs) && written == |file| && index == IndexOf(pairs, 0)
  {
    hide EncodePair, EncodePairs, Footer, Writing, IndexOf, EncodeIndex;
    file, written, index := [], 0, [];
    var dataBuf: Bytes := [];
    var currentOffset := 0;
    ghost var b := 0;
    WriteStart(pairs);
    for i := 0 to |pairs|
      invariant Writing(pairs, b, i, file, dataBuf, index)
      invariant currentOffset == written == |file|
    {
      ghost var before := dataBuf;
      dataBuf := dataBuf + EncodePair(pairs[i]);
      if |dataBuf| >= BlockSize || i == |pairs| - 1 {
        WriteClose(pairs, b, i, file, before, index);
        file := file + dataBuf;
        written := written + |dataBuf|;
        index := index + [IndexEntry(pairs[i].key, currentOffset, |dataBuf|)];
        currentOffset := currentOffset + |dataBuf|;
        dataBuf := [];
        b := i + 1;
      } else {
        WriteKeep(pairs, b, i, file, before, index);
      }
    }
    WriteDone(pairs, b, file, dataBuf, index);
    var indexBuf := WriteIndex(index);
    var footer := Footer(currentOffset, |indexBuf|);
    file := file + indexBuf + footer;
    written := written + |indexBuf| + |footer|;
  }

  lemma EmptyStart(ps: seq<Pair>)
    ensures EncodePairs(ps[..0]) == [] && EncodePairs([]) == []
  {
    assert ps[..0] == [];
  }

  method WriteIndex(index: seq<IndexEntry>) returns (buf: Bytes)
    ensures buf == EncodeIndex(index)
  {
    buf := [];
    for i := 0 to |index|
      invariant EncodeIndex(index) == buf + EncodeIndex(index[i..])
    {
      assert index[i..][1..] == index[i + 1..];
      buf := buf + EncodeEntry(index[i]);
    }
  }

  // ------------------------------------------------------------------ reading

  /** One record off the reader: key length, key, value length, value or tombstone. */
  method TakePair(reader: Bytes) returns (t: Turn<Pair>)
    ensures t == ReadPair(reader)
  {
    if |reader| < 4 { return Stop; }
    var keyLen := FromLE(reader[..4]);
    if |reader| - 4 < keyLen { return Stop; }
    var key := reader[4..4 + keyLen];
    var rest := reader[4 + keyLen..];
    if |rest| < 4 { return Stop; }
    var valLen := FromLE(rest[..4]);
    if valLen == Tombstone { return Got(Pair(key, None), rest[4..]); }
    if |rest| - 4 < valLen { return Stop; }
    return Got(Pair(key, Some(rest[4..4 + valLen])), rest[4 + valLen..]);
  }

  /** The scan of one block. */
  method ScanBlock(block: Bytes, key: Bytes) returns (val: Option<Bytes>, found: bool)
    ensures First(ReadAll(block), key) == if found then Some(val) else None
  {
    hide ReadPair;
    var reader := block;
    while true
      invariant First(ReadAll(block), key) == First(ReadAll(reader), key)
      decreases |reader|
    {
      var t := TakePair(reader);
      if t.Stop? { return None, false; }
      if t.item.key == key { return t.item.value, true; }
      assert ReadAll(reader)[1..] == ReadAll(t.rest);
      reader := t.rest;
    }
  }

  /** The loop of `sort.Search` over the index. */
  method SearchIndex(es: seq<IndexEntry>, key: Bytes) returns (i: nat)
    ensures i == Search(es, key, 0, |es|) && i <= |es|
  {
    hide Less;
    var hi := |es|;
    i := 0;
    while i < hi
      invariant 0 <= i <= hi <= |es| && Search(es, key, 0, |es|) == Search(es, key, i, hi)
    {
      var mid := (i + hi) / 2;
      if Less(es[mid].maxKey, key) {
        i := mid + 1;
      } else {
        hi := mid;
      }
    }
  }

  method ReadValFromSSTable(meta: Meta, file: Bytes, key: Bytes) returns (val: Option<Bytes>, found: bool)
    ensures ReadVal(meta.index, file, key) == if found then Some(val) else None
  {
    var idx := SearchIndex(meta.index, key);
    if idx == |meta.index| {
      return None, false;
    }
    var handle := meta.index[idx];
    if handle.offset + handle.size > |file| {
      return None, false;
    }
    val, found := ScanBlock(file[handle.offset..handle.offset + handle.size], key);
  }

  /** The parser of one table file. */
  method LoadTable(file: Bytes) returns (r: Loaded)
    ensures r == Load(file)
  {
    hide FromLE, ReadIndex;
    if |file| < FooterSize {
      return Skip;
    }
    var footer := file[|file| - FooterSize..];
    if FromLE(footer[16..24]) != Magic {
      return Corrupt;
    }
    var indexOffset, indexSize := FromLE(footer[0..8]), FromLE(footer[8..16]);
    if indexSize == 0 {
      return if indexOffset >= U64 / 2 then Corrupt else Skip;
    }
    if indexOffset + indexSize > |file| {
      return Corrupt;
    }
    var index := ParseIndex(file[indexOffset..indexOffset + indexSize]);
    if |index| == 0 {
      return Skip;
    }
    if |file| < 4 || |file| - 4 < FromLE(file[..4]) {
      return Corrupt;
    }
    var minKey := file[4..4 + FromLE(file[..4])];
    return Loaded(Meta(minKey, index[|index| - 1].maxKey, |file|, index));
  }

  method ParseIndex(buf: Bytes) returns (index: seq<IndexEntry>)
    ensures index == ReadIndex(buf)
  {
    index := [];
    var reader := buf;
    while |reader| > 0
      invariant ReadIndex(buf) == index + ReadIndex(reader)
      decreases |reader|
    {
      if |reader| < 4 { return; }
      var keyLen := FromLE(reader[..4]);
      if |reader| - 4 < keyLen { return; }
      var rest := reader[4 + keyLen..];
      if |rest| < 16 { return; }
      var entry := IndexEntry(reader[4..4 + keyLen], FromLE(rest[..8]), FromLE(rest[8..16]));
      assert ReadEntry(reader) == Got(entry, rest[16..]);
      index := index + [entry];
      reader := rest[16..];
    }
  }

  // ----------------------------------------------------------------- iterating

  /** A sequential cursor over the data region of one table. */
  class SSTableIterator {
    var key: Bytes
    var value: Option<Bytes>
    var valid: bool
    var reader: Bytes     // what the limited, buffered reader has left

    /** The pairs still to come, the current one included. */
    ghost function Remaining(): seq<Pair>
      reads this
    {
      if valid then [Pair(key, value)] + ReadAll(reader) else []
    }

    /** Opens the file and stands on its first pair. */
    constructor (meta: Meta, file: Bytes)
      ensures Remaining() == ReadAll(file[..DataEnd(meta, file)])
    {
      key, value, valid := [], None, false;
      reader := file[..DataEnd(meta, file)];
      new;
      Next();
    }

    method Next()
      modifies this
      ensures Remaining() == ReadAll(old(reader))
    {
      var t := TakePair(reader);
      if t.Stop? {
        valid := false;
        return;
      }
      key, value := t.item.key, t.item.value;
      reader := t.rest;
      valid := true;
    }

    method Close()
      modifies this
      ensures !valid
    {
      valid := false;
    }
  }

  /** Iterating over a written file yields exactly the pairs written, in order. */
  lemma IteratorSeesAll(ps: seq<Pair>)
    requires AllFit(ps) && ps != []
    ensures ReadAll(FileOf(ps)[..DataEnd(MetaOf(ps), FileOf(ps))]) == ps
  {
    hide EncodePairs, IndexOf, FileOf, ReadAll;
    HandlesTile(ps, 0);
    LastEnds(IndexOf(ps, 0), 0, |EncodePairs(ps)|);
    var tail := DataFirst(ps);
    assert FileOf(ps)[..|EncodePairs(ps)|] == EncodePairs(ps);
    ReadAllBack(ps);
  }
}
