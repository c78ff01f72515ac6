/** The write-ahead log: its record encoding, the appenders and the replay loop. */
module Wal {
  import opened Ops
  import opened Codec

  datatype Rec = Put(key: Bytes, val: Bytes) | Del(key: Bytes)

  const OpPut: byte := 0
  const OpDelete: byte := 1

  /** One record as `AppendPut` and `AppendDelete` write it; lengths are truncated to 32 bits. */
  function Encode(r: Rec): Bytes {
    match r
    case Put(k, v) => [OpPut] + BE(|k| % U32, 4) + k + BE(|v| % U32, 4) + v
    case Del(k) => [OpDelete] + BE(|k| % U32, 4) + k
  }

  function EncodeAll(rs: seq<Rec>): Bytes {
    if rs == [] then [] else Encode(rs[0]) + EncodeAll(rs[1..])
  }

  /** The lengths survive the 32-bit fields. */
  predicate Fits(r: Rec) { |r.key| < U32 && (r.Put? ==> |r.val| < U32) }

  predicate AllFit(rs: seq<Rec>) { forall i :: 0 <= i < |rs| ==> Fits(rs[i]) }

  /** What one turn of the replay loop finds: a record, the end of the log, or an error. */
  datatype Turn = Got(rec: Rec, rest: Bytes) | End | Fail

  function ReadRec(s: Bytes): (t: Turn)
    ensures t.Got? ==> |t.rest| < |s| && s[|s| - |t.rest|..] == t.rest
  {
    if |s| == 0 then End
    else if |s| == 1 then End                          // EOF where the key length starts
    else if |s| < 5 then Fail
    else
      var klen := FromBE(s[1..5]);
      if |s| - 5 < klen then Fail
      else
        var key := s[5..5 + klen];
        var at := 5 + klen;
        if s[0] == OpPut then
          if |s| == at then End                        // EOF where the value length starts
          else if |s| < at + 4 then Fail
          else
            var vlen := FromBE(s[at..at + 4]);
            if |s| - at - 4 < vlen then Fail
            else Got(Put(key, s[at + 4..at + 4 + vlen]), s[at + 4 + vlen..])
        else if s[0] == OpDelete then Got(Del(key), s[at..])
        else Fail
  }

  /** The records that replay hands to its callbacks, and whether it ends without an error. */
  datatype Replayed = Replayed(recs: seq<Rec>, ok: bool)

  function Replay(s: Bytes): Replayed
    decreases |s|
  {
    match ReadRec(s)
    case End => Replayed([], true)
    case Fail => Replayed([], false)
    case Got(r, rest) => var later := Replay(rest); Replayed([r] + later.recs, later.ok)
  }

  // ------------------------------------------------------------- round trips

  lemma ReadWhole(r: Rec, tail: Bytes)
    requires Fits(r)
    ensures ReadRec(Encode(r) + tail) == Got(r, tail)
  {
    hide BE, FromBE;
    var s := Encode(r) + tail;
    var n := |r.key|;
    U32BE(n);
    assert s[1..5] == BE(n % U32, 4);
    assert s[5..5 + n] == r.key;
    if r.Put? {
      U32BE(|r.val|);
      assert s[5 + n..9 + n] == BE(|r.val| % U32, 4);
      assert s[9 + n..9 + n + |r.val|] == r.val;
      assert s[9 + n + |r.val|..] == tail;
    } else {
      assert s[5 + n..] == tail;
    }
  }

  /** A record cut short is never taken for a whole one. */
  lemma ReadTorn(r: Rec, n: nat)
    requires Fits(r) && n < |Encode(r)|
    ensures !ReadRec(Encode(r)[..n]).Got?
  {
    hide BE, FromBE;
    var s, at := Encode(r)[..n], 5 + |r.key|;
    if n >= 5 {
      U32BE(|r.key|);
      assert s[1..5] == Encode(r)[1..5] == BE(|r.key| % U32, 4);
      assert FromBE(s[1..5]) == |r.key|;
      assert s[0] == Encode(r)[0];
      if r.Put? && n >= at + 4 {
        U32BE(|r.val|);
        assert s[at..at + 4] == Encode(r)[at..at + 4] == BE(|r.val| % U32, 4);
        assert FromBE(s[at..at + 4]) == |r.val|;
      }
    }
  }

  lemma ReplayWhole(r: Rec, tail: Bytes)
    requires Fits(r)
    ensures Replay(Encode(r) + tail) == Replayed([r] + Replay(tail).recs, Replay(tail).ok)
  {
    ReadWhole(r, tail);
  }

  lemma ReplayTorn(r: Rec, n: nat)
    requires Fits(r) && n < |Encode(r)|
    ensures Replay(Encode(r)[..n]).recs == []
  {
    ReadTorn(r, n);
  }

  lemma ReplayEmpty(s: Bytes)
    requires |s| == 0
    ensures Replay(s) == Replayed([], true)
  {
  }

  /** How many leading records lie wholly within the first `n` bytes. */
  function Complete(rs: seq<Rec>, n: nat): (k: nat)
    ensures k <= |rs|
    decreases rs
  {
    if rs == [] || |Encode(rs[0])| > n then 0
    else 1 + Complete(rs[1..], n - |Encode(rs[0])|)
  }

  lemma CompleteMore(rs: seq<Rec>, n: nat)
    requires rs != [] && |Encode(rs[0])| <= n
    ensures Complete(rs, n) == 1 + Complete(rs[1..], n - |Encode(rs[0])|)
  {
  }

  /** `Complete` is the greatest such number. */
  lemma {:induction false} CompleteIsGreatest(rs: seq<Rec>, n: nat)
    ensures var k := Complete(rs, n);
            |EncodeAll(rs[..k])| <= n && (k < |rs| ==> |EncodeAll(rs[..k + 1])| > n)
    decreases rs
  {
    if rs != [] {
      assert rs[..1] == [rs[0]] && EncodeAll([rs[0]]) == Encode(rs[0]) + [];
      if |Encode(rs[0])| <= n {
        CompleteIsGreatest(rs[1..], n - |Encode(rs[0])|);
        var k := Complete(rs[1..], n - |Encode(rs[0])|);
        assert rs[..k + 1][1..] == rs[1..][..k];
        if k + 1 < |rs| {
          assert rs[..k + 2][1..] == rs[1..][..k + 1];
        }
      }
    }
  }

  /** Torn tail: whatever prefix of the log survives, replay emits exactly the records that are
      whole in it, in order; the full log replays to the full list without an error. */
  lemma {:induction false} TornTail(rs: seq<Rec>, n: nat)
    requires AllFit(rs) && n <= |EncodeAll(rs)|
    ensures Replay(EncodeAll(rs)[..n]).recs == rs[..Complete(rs, n)]
    ensures n == |EncodeAll(rs)| ==> Replay(EncodeAll(rs)[..n]) == Replayed(rs, true)
    decreases rs
  {
    hide Encode, Replay, Fits;
    if rs == [] {
      ReplayEmpty(EncodeAll(rs)[..n]);
    } else if |Encode(rs[0])| <= n {
      var m := n - |Encode(rs[0])|;
      TornTail(rs[1..], m);
      TornMore(rs[0], rs[1..], m);
      TakeMore(rs, Complete(rs[1..], m));
      TakeMore(rs, |rs| - 1);
    } else {
      assert EncodeAll(rs)[..n] == Encode(rs[0])[..n];
      ReplayTorn(rs[0], n);
    }
  }

  lemma TornMore(r: Rec, rest: seq<Rec>, m: nat)
    requires Fits(r) && m <= |EncodeAll(rest)|
    requires var t := Replay(EncodeAll(rest)[..m]);
             t.recs == rest[..Complete(rest, m)] && (m == |EncodeAll(rest)| ==> t == Replayed(rest, true))
    ensures var t := Replay((Encode(r) + EncodeAll(rest))[..|Encode(r)| + m]);
            t.recs == [r] + rest[..Complete(rest, m)] && (m == |EncodeAll(rest)| ==> t == Replayed([r] + rest, true))
  {
    hide ReadRec, Encode, EncodeAll, Complete, Fits, Replay;
    TakeAcross(Encode(r), EncodeAll(rest), m);
    ReplayWhole(r, EncodeAll(rest)[..m]);
  }

  lemma TakeAcross(a: Bytes, b: Bytes, m: nat)
    requires m <= |b|
    ensures (a + b)[..|a| + m] == a + b[..m]
  {
  }

  lemma TakeMore(rs: seq<Rec>, k: nat)
    requires rs != [] && k <= |rs[1..]|
    ensures rs[..k + 1] == [rs[0]] + rs[1..][..k]
  {
  }

  lemma EncodeCons(r: Rec, rs: seq<Rec>)
    ensures EncodeAll([r] + rs) == Encode(r) + EncodeAll(rs) && EncodeAll([]) == []
  {
    assert ([r] + rs)[1..] == rs;
  }

  lemma {:induction false} EncodeAllAppend(rs: seq<Rec>, r: Rec)
    ensures EncodeAll(rs + [r]) == EncodeAll(rs) + Encode(r)
  {
    hide Encode, EncodeAll;
    EncodeCons(r, []);
    if rs == [] {
      assert rs + [r] == [r] + [];
    } else {
      var t := rs[1..];
      EncodeAllAppend(t, r);
      assert rs == [rs[0]] + t && rs + [r] == [rs[0]] + (t + [r]);
      EncodeCons(rs[0], t);
      EncodeCons(rs[0], t + [r]);
    }
  }

  lemma {:induction false} CompleteAll(rs: seq<Rec>, r: Rec, n: nat)
    requires |EncodeAll(rs)| <= n < |EncodeAll(rs)| + |Encode(r)|
    ensures Complete(rs + [r], n) == |rs|
  {
    hide Encode;
    if rs != [] {
      hide EncodeAll, Complete;
      var rest := rs[1..];
      assert rs == [rs[0]] + rest && (rs + [r])[1..] == rest + [r];
      EncodeCons(rs[0], rest);
      CompleteAll(rest, r, n - |Encode(rs[0])|);
      CompleteMore(rs + [r], n);
    }
  }

  /** A log that a crash cut in the middle of its last append replays to what was there before. */
  lemma TornAppend(rs: seq<Rec>, r: Rec, m: nat)
    requires AllFit(rs) && Fits(r) && m < |Encode(r)|
    ensures Replay(EncodeAll(rs) + Encode(r)[..m]).recs == rs
  {
    hide Encode, EncodeAll, Replay, Complete, Fits;
    var all, n := rs + [r], |EncodeAll(rs)| + m;
    EncodeAllAppend(rs, r);
    TornTail(all, n);
    CompleteAll(rs, r, n);
    TakeAcross(EncodeAll(rs), Encode(r), m);
    assert all[..|rs|] == rs;
  }

  // ------------------------------------------------ the format, byte by byte

  /** A put: the byte 0, the key's length in four bytes, the key, the value's length, the value;
      lengths modulo 2^32. */
  ghost predicate PutBytes(s: Bytes, key: Bytes, val: Bytes, rest: Bytes) {
    var k, v := |key|, |val|;
    |s| == 9 + k + v + |rest| &&
    s[0] == 0 && Big32(s[1..5]) == k % 0x1_0000_0000 && s[5..5 + k] == key &&
    Big32(s[5 + k..9 + k]) == v % 0x1_0000_0000 && s[9 + k..9 + k + v] == val && s[9 + k + v..] == rest
  }

  /** A deletion: the byte 1, the key's length, the key. */
  ghost predicate DelBytes(s: Bytes, key: Bytes, rest: Bytes) {
    var k := |key|;
    |s| == 5 + k + |rest| && s[0] == 1 && Big32(s[1..5]) == k % 0x1_0000_0000 && s[5..5 + k] == key && s[5 + k..] == rest
  }

  ghost predicate RecBytes(s: Bytes, r: Rec, rest: Bytes) {
    match r
    case Put(k, v) => PutBytes(s, k, v, rest)
    case Del(k) => DelBytes(s, k, rest)
  }

  lemma EncodeLayout(r: Rec)
    ensures RecBytes(Encode(r), r, [])
  {
    hide BE, Big32;
    var s, k := Encode(r), |r.key|;
    WritesBig32(k);
    match r
    case Put(_, val) =>
      WritesBig32(|val|);
      var rest := BE(|val| % U32, 4) + val;
      assert s == [OpPut] + BE(k % U32, 4) + r.key + rest;
      Head(OpPut, BE(k % U32, 4), r.key, rest);
      assert s[5 + k..9 + k] == rest[..4] && s[9 + k..] == rest[4..];
    case Del(_) =>
      assert s == [OpDelete] + BE(k % U32, 4) + r.key + [];
      Head(OpDelete, BE(k % U32, 4), r.key, []);
  }

  lemma Head(op: byte, len: Bytes, key: Bytes, rest: Bytes)
    requires |len| == 4
    ensures var s, k := [op] + len + key + rest, |key|;
            s[0] == op && s[1..5] == len && s[5..5 + k] == key && s[5 + k..] == rest
  {
  }

  /** Replay reads a record exactly where its bytes are. */
  lemma ReadsBytes(s: Bytes, r: Rec, rest: Bytes)
    ensures ReadRec(s) == Got(r, rest) <==> Fits(r) && RecBytes(s, r, rest)
  {
    hide ReadRec, PutBytes, DelBytes;
    match r
    case Put(key, val) => ReadsPut(s, key, val, rest);
    case Del(key) => ReadsDel(s, key, rest);
  }

  lemma ReadsDel(s: Bytes, key: Bytes, rest: Bytes)
    ensures ReadRec(s) == Got(Del(key), rest) <==> Fits(Del(key)) && DelBytes(s, key, rest)
  {
    hide FromBE, Big32;
    if |s| >= 5 {
      FromBEIs(s[1..5]);
      BigBelow(s[1..5]);
    }
  }

  lemma ReadsPut(s: Bytes, key: Bytes, val: Bytes, rest: Bytes)
    ensures ReadRec(s) == Got(Put(key, val), rest) <==> Fits(Put(key, val)) && PutBytes(s, key, val, rest)
  {
    hide FromBE, Big32;
    if |s| >= 5 {
      FromBEIs(s[1..5]);
      BigBelow(s[1..5]);
      var at := 5 + FromBE(s[1..5]);
      if |s| >= at + 4 {
        FromBEIs(s[at..at + 4]);
        BigBelow(s[at..at + 4]);
      }
    }
  }

  lemma BigBelow(s: Bytes)
    requires |s| == 4
    ensures Big32(s) < U32
  {
  }

  /** A turn finds a record exactly where its bytes are, and the end, without an error, when no byte
      is left, after a lone operation byte and after a put's key; anything else is an error. */
  ghost predicate TurnIs(s: Bytes, turn: Turn) {
    (forall r, rest :: turn == Got(r, rest) <==> Fits(r) && RecBytes(s, r, rest)) &&
    (turn.End? <==> |s| <= 1 || (s[0] == 0 && |s| >= 5 && |s| == 5 + Big32(s[1..5])))
  }

  lemma ReadsTurn(s: Bytes)
    ensures TurnIs(s, ReadRec(s))
  {
    hide RecBytes, Fits, Big32;
    forall r, rest
      ensures ReadRec(s) == Got(r, rest) <==> Fits(r) && RecBytes(s, r, rest)
    {
      ReadsBytes(s, r, rest);
    }
    if |s| >= 5 {
      FromBEIs(s[1..5]);
    }
  }

  // -------------------------------------------------------------- the file

  /** The first `i` bytes of `data` written over `s` from `at` on. */
  function Overwritten(s: Bytes, at: nat, data: Bytes, i: nat): (r: Bytes)
    requires i <= |data| && at + |data| <= |s|
    ensures |r| == |s|
  {
    s[..at] + data[..i] + s[at + i..]
  }

  lemma OverwriteNext(s: Bytes, at: nat, data: Bytes, i: nat)
    requires i < |data| && at + |data| <= |s|
    ensures Overwritten(s, at, data, i)[at + i := data[i]] == Overwritten(s, at, data, i + 1)
  {
  }

  /** `binary.BigEndian.PutUint32(buf[at:at+4], n)`. */
  method PutUint32(buf: array<byte>, at: nat, n: nat)
    requires at + 4 <= buf.Length
    modifies buf
    ensures buf[..] == old(buf[..at]) + BE(n % U32, 4) + old(buf[at + 4..])
  {
    hide BE;
    var field := BE(n % U32, 4);
    for i := 0 to 4
      invariant buf[..] == Overwritten(old(buf[..]), at, field, i)
    {
      OverwriteNext(old(buf[..]), at, field, i);
      buf[at + i] := field[i];
    }
  }

  /** `copy(buf[at:], data)`. */
  method CopyAt(buf: array<byte>, at: nat, data: Bytes)
    requires at + |data| <= buf.Length
    modifies buf
    ensures buf[..] == old(buf[..at]) + data + old(buf[at + |data|..])
  {
    for i := 0 to |data|
      invariant buf[..] == Overwritten(old(buf[..]), at, data, i)
    {
      OverwriteNext(old(buf[..]), at, data, i);
      buf[at + i] := data[i];
    }
  }

  class WAL {
    var file: Bytes

    constructor (file: Bytes)
      ensures this.file == file
    {
      this.file := file;
    }

    method AppendPut(key: Bytes, val: Bytes)
      modifies this
      ensures file == old(file) + Encode(Put(key, val))
      ensures PutBytes(file[|old(file)|..], key, val, []) && old(file) <= file
    {
      EncodeLayout(Put(key, val));
      hide BE, PutBytes;
      var buf := new byte[9 + |key| + |val|](_ => 0);
      buf[0] := OpPut;
      PutUint32(buf, 1, |key|);
      assert buf[..5] == [OpPut] + BE(|key| % U32, 4);
      CopyAt(buf, 5, key);
      var offset := 5 + |key|;
      ghost var head := [OpPut] + BE(|key| % U32, 4) + key;
      assert buf[..offset] == head;
      PutUint32(buf, offset, |val|);
      assert buf[..offset + 4] == head + BE(|val| % U32, 4);
      CopyAt(buf, offset + 4, val);
      assert buf[..] == head + BE(|val| % U32, 4) + val;
      file := file + buf[..];
      assert file[|old(file)|..] == Encode(Put(key, val));
    }

    method AppendDelete(key: Bytes)
      modifies this
      ensures file == old(file) + Encode(Del(key))
      ensures DelBytes(file[|old(file)|..], key, []) && old(file) <= file
    {
      EncodeLayout(Del(key));
      hide BE, DelBytes;
      var buf := new byte[5 + |key|](_ => 0);
      buf[0] := OpDelete;
      PutUint32(buf, 1, |key|);
      CopyAt(buf, 5, key);
      assert buf[..] == Encode(Del(key));
      file := file + buf[..];
      assert file[|old(file)|..] == Encode(Del(key));
    }

    /** One turn of the replay loop at the cursor. */
    method ReadOne(pos: nat) returns (turn: Turn)
      requires pos <= |file|
      ensures turn == ReadRec(file[pos..])
      ensures TurnIs(file[pos..], turn)
    {
      ReadsTurn(file[pos..]);
      hide TurnIs, FromBE, BE;
      var reader := file[pos..];
      if |reader| == 0 { return End; }
      var op := reader[0];
      if |reader| == 1 { return End; }
      if |reader| < 5 { return Fail; }
      var klen := FromBE(reader[1..5]);
      if |reader| - 5 < klen { return Fail; }
      var at := 5 + klen;
      var key := reader[5..at];
      if op == OpPut {
        if |reader| == at { return End; }
        if |reader| < at + 4 { return Fail; }
        var vlen := FromBE(reader[at..at + 4]);
        if |reader| - at - 4 < vlen { return Fail; }
        turn := Got(Put(key, reader[at + 4..at + 4 + vlen]), reader[at + 4 + vlen..]);
      } else if op == OpDelete {
        turn := Got(Del(key), reader[at..]);
      } else {
        turn := Fail;
      }
    }

    /** The cursor loop; the callbacks' calls are collected in `recs`. */
    method ReplayFile() returns (recs: seq<Rec>, ok: bool)
      ensures Replayed(recs, ok) == Replay(file)
    {
      hide ReadRec;
      recs := [];
      var pos := 0;
      assert file[0..] == file;
      while true
        invariant pos <= |file|
        invariant Replay(file) == Replayed(recs + Replay(file[pos..]).recs, Replay(file[pos..]).ok)
        decreases |file| - pos
      {
        var turn := ReadOne(pos);
        match turn {
          case End => return recs, true;
          case Fail => return recs, false;
          case Got(rec, rest) =>
            assert recs + ([rec] + Replay(rest).recs) == recs + [rec] + Replay(rest).recs;
            recs := recs + [rec];
            pos := |file| - |rest|;
            assert file[pos..] == rest;
        }
      }
    }
  }
}
