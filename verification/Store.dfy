/** The store on one peer: it applies committed commands to the database in order and matches
    results to waiting requests by index and OpId. */
module Store {
  import opened Ops
  import opened Wal
  import opened Pairs
  import opened History
  import opened Database
  import opened Opening
  import opened CompactedFiles
  import opened Compaction
  import opened Merge
  import Directory
  import Engine
  import EngineSafety
  import Manifest
  import SSTable

  /** What one committed command makes the database log. */
  function RecsOf(cmd: Command): seq<Rec> {
    match cmd
    case Nil => []
    case Run(op) =>
      match op.kind
      case PUT => [Put(op.key, op.value)]
      case DELETE => [Del(op.key)]
      case GET => []
  }

  /** What a log of commands amounts to. */
  function Effects(log: seq<Command>): seq<Rec> {
    if log == [] then [] else Effects(log[..|log| - 1]) + RecsOf(log[|log| - 1])
  }

  /** What one operation does to the map that clients see: a PUT sets, a DELETE removes, a GET changes
      nothing. */
  ghost function Effect(m: map<Bytes, Bytes>, op: Op): map<Bytes, Bytes> {
    match op.kind
    case PUT => m[op.key := op.value]
    case DELETE => m - {op.key}
    case GET => m
  }

  /** The map that a log means to the clients. */
  ghost function ClientMap(log: seq<Command>): map<Bytes, Bytes> {
    if log == [] then map[]
    else
      var before, cmd := ClientMap(log[..|log| - 1]), log[|log| - 1];
      if cmd == Nil then before else Effect(before, cmd.op)
  }

  ghost function Lookup(m: map<Bytes, Bytes>, key: Bytes): Option<Bytes> {
    if key in m then Some(m[key]) else None
  }

  /** What a read of a database that has logged `rs` returns. */
  ghost function ReadOf(rs: seq<Rec>, key: Bytes): Option<Bytes> { Lookup(PlainMap(rs), key) }

  // ------------------------------------------------------------- the store as a value

  datatype OpResult = OpResult(op: Op, value: Option<Bytes>)

  /** `Start` gave `op` the log index `index`. */
  datatype Request = Request(index: nat, op: Op)

  /** A result channel is a number; its one-place buffer is its entry in `sent`. `high` is the
      greatest index applied in any life, `firstLive` the first channel of this one. */
  datatype Store = Store(
    logged: seq<Rec>,
    applied: nat,
    high: nat,
    requests: seq<Request>,
    firstLive: nat,
    waiting: map<nat, nat>,     // waitChans: log index -> channel
    sent: map<nat, OpResult>)

  const NewStore := Store([], 0, 0, [], 0, map[], map[])

  function Max(a: nat, b: nat): nat { if a > b then a else b }

  ghost function Result(s: Store, op: Op): OpResult {
    OpResult(op, if op.kind == GET then ReadOf(s.logged, op.key) else None)
  }

  /** One turn of the apply loop: the database first, then the channel waiting at the index. */
  ghost function Deliver(s: Store, op: Op): Store { DeliverResult(s, op, Result(s, op)) }

  function DeliverResult(s: Store, op: Op, res: OpResult): Store {
    var k := s.applied + 1;
    s.(logged := s.logged + RecsOf(Run(op)), applied := k, high := Max(s.high, k),
       sent := if k in s.waiting then s.sent[s.waiting[k] := res] else s.sent)
  }

  function Begin(s: Store, index: nat, op: Op): Store {
    s.(requests := s.requests + [Request(index, op)])
  }

  function Register(s: Store, ch: nat): Store
    requires ch < |s.requests|
  {
    s.(waiting := s.waiting[s.requests[ch].index := ch])
  }

  function Unregister(s: Store, index: nat): Store { s.(waiting := s.waiting - {index}) }

  /** A restart: the database recovers all it logged, everything else is gone. */
  function Restarted(s: Store): Store {
    s.(applied := 0, firstLive := |s.requests|, waiting := map[])
  }

  /** A crash after the database logged a command and before the loop went on. */
  function CrashedMid(s: Store, op: Op): Store {
    Restarted(s.(logged := s.logged + RecsOf(Run(op)), high := Max(s.high, s.applied + 1)))
  }

  /** What a waiting client is told. */
  datatype Reply = TimedOut | LeadershipChanged | Done(value: Option<Bytes>)

  function ReplyOf(s: Store, ch: nat, op: Op): Reply {
    if ch !in s.sent then TimedOut
    else if s.sent[ch].op.id != op.id then LeadershipChanged
    else Done(s.sent[ch].value)
  }

  /** A client is told a time-out exactly when no result came, a leadership change exactly when one
      came with another OpId, and otherwise the value that came. */
  lemma ReplyMeans(s: Store, ch: nat, op: Op)
    ensures ReplyOf(s, ch, op).TimedOut? <==> ch !in s.sent
    ensures ReplyOf(s, ch, op).LeadershipChanged? <==> ch in s.sent && s.sent[ch].op.id != op.id
    ensures forall v :: ReplyOf(s, ch, op) == Done(v) <==> ch in s.sent && s.sent[ch].op.id == op.id && s.sent[ch].value == v
  {
  }

  /** The request would be told a result, not an error. */
  predicate Accepted(s: Store, ch: nat) {
    ch < |s.requests| && ReplyOf(s, ch, s.requests[ch].op).Done?
  }

  // ------------------------------------------------------------- applying again

  lemma EffectsMore(log: seq<Command>, cmd: Command)
    ensures Effects(log + [cmd]) == Effects(log) + RecsOf(cmd)
  {
    assert (log + [cmd])[..|log|] == log;
  }

  lemma PlainMore(rs: seq<Rec>, op: Op)
    ensures PlainMap(rs + RecsOf(Run(op))) == Effect(PlainMap(rs), op)
  {
    if op.kind == GET {
      assert rs + [] == rs;
    } else {
      assert (rs + RecsOf(Run(op)))[..|rs|] == rs;
    }
  }

  /** What the database logs for a log of commands is what the commands mean. */
  lemma {:induction false} EffectsMean(log: seq<Command>)
    ensures PlainMap(Effects(log)) == ClientMap(log)
  {
    if log != [] {
      hide PlainMap, Effect, RecsOf;
      var n := |log| - 1;
      EffectsMean(log[..n]);
      if log[n] == Nil {
        NoRecs();
        assert Effects(log[..n]) + [] == Effects(log[..n]);
      } else {
        PlainMore(Effects(log[..n]), log[n].op);
      }
    }
  }

  lemma NoRecs()
    ensures RecsOf(Nil) == []
  {
  }

  lemma NoEffects()
    ensures Effects([]) == []
  {
  }

  lemma Regroup(a: seq<Rec>, b: seq<Rec>, c: seq<Rec>)
    ensures a + (b + c) == (a + b) + c
  {
  }

  lemma {:induction false} EffectsSplit(a: seq<Command>, b: seq<Command>)
    ensures Effects(a + b) == Effects(a) + Effects(b)
  {
    hide RecsOf, Effects;
    if b == [] {
      NoEffects();
      assert a + b == a && Effects(a) + [] == Effects(a);
    } else {
      var n := |b| - 1;
      EffectsSplit(a, b[..n]);
      EffectsMore(a + b[..n], b[n]);
      EffectsMore(b[..n], b[n]);
      assert a + b == (a + b[..n]) + [b[n]] && b == b[..n] + [b[n]];
      Regroup(Effects(a), Effects(b[..n]), RecsOf(b[n]));
    }
  }

  ghost function At(log: seq<Command>, a: nat): Layer
    requires a <= |log|
  {
    OpsMap(Effects(log[..a]))
  }

  lemma AtMore(log: seq<Command>, a: nat)
    requires a < |log|
    ensures At(log, a + 1) == At(log, a) + OpsMap(RecsOf(log[a]))
  {
    assert log[..a + 1][..a] == log[..a];
    OpsSplit(Effects(log[..a]), RecsOf(log[a]));
  }

  lemma AtGrows(log: seq<Command>, a: nat, b: nat)
    requires a <= b <= |log|
    ensures forall key :: key in At(log, a) ==> key in At(log, b)
  {
    EffectsSplit(log[..a], log[a..b]);
    assert log[..a] + log[a..b] == log[..b];
    OpsSplit(Effects(log[..a]), Effects(log[a..b]));
  }

  /** The database says of every key that commands 1..a mention what they say, and mentions no
      key that commands 1..max(a, high) do not. */
  ghost predicate Caught(logged: seq<Rec>, log: seq<Command>, a: nat, high: nat) {
    a <= |log| && high <= |log| &&
    (forall key :: key in At(log, a) ==> key in OpsMap(logged) && OpsMap(logged)[key] == At(log, a)[key]) &&
    forall key :: key in OpsMap(logged) ==> key in At(log, Max(a, high))
  }

  lemma CaughtMore(logged: seq<Rec>, log: seq<Command>, a: nat, high: nat)
    requires Caught(logged, log, a, high) && a < |log|
    ensures Caught(logged + RecsOf(log[a]), log, a + 1, Max(high, a + 1))
  {
    hide OpsMap, Effects, RecsOf;
    AtMore(log, a);
    OpsSplit(logged, RecsOf(log[a]));
    AtGrows(log, Max(a, high), Max(high, a + 1));
    AtGrows(log, a + 1, Max(high, a + 1));
  }

  lemma CaughtAgain(logged: seq<Rec>, log: seq<Command>, a: nat, high: nat)
    requires Caught(logged, log, a, high) && a <= high
    ensures Caught(logged, log, 0, high)
  {
    NoOps([]);
    assert log[..0] == [];
  }

  /** Once the current life has caught up with every earlier one, the database is what applying
      the log once from empty gives. */
  lemma CaughtUp(logged: seq<Rec>, log: seq<Command>, a: nat, high: nat, key: Bytes)
    requires Caught(logged, log, a, high) && a >= high
    ensures ReadOf(logged, key) == Lookup(ClientMap(log[..a]), key)
  {
    hide OpsMap, PlainMap, Effects, ClientMap;
    EffectsMean(log[..a]);
    LayerIsPlain(logged, key);
    LayerIsPlain(Effects(log[..a]), key);
  }

  lemma HiddenBy(a: Layer, b: Layer)
    requires forall key :: key in a ==> key in b
    ensures a + b == b
  {
  }

  /** Restart replay is harmless: applying 1..n over the effect of 1..m, for m <= n, gives the
      map of applying 1..n from empty. */
  lemma ReplayIsHarmless(log: seq<Command>, m: nat, n: nat)
    requires m <= n <= |log|
    ensures PlainMap(Effects(log[..m]) + Effects(log[..n])) == ClientMap(log[..n])
  {
    hide Effects, OpsMap, PlainMap, ClientMap;
    EffectsMean(log[..n]);
    var both, once := Effects(log[..m]) + Effects(log[..n]), Effects(log[..n]);
    AtGrows(log, m, n);
    OpsSplit(Effects(log[..m]), Effects(log[..n]));
    HiddenBy(At(log, m), At(log, n));
    forall key
      ensures key in PlainMap(both) <==> key in PlainMap(once)
      ensures key in PlainMap(once) ==> PlainMap(both)[key] == PlainMap(once)[key]
    {
      LayerIsPlain(both, key);
      LayerIsPlain(once, key);
    }
  }

  /** The log has a write of the key. */
  ghost predicate Writes(log: seq<Command>, key: Bytes) {
    exists i :: 0 <= i < |log| && log[i].Run? && log[i].op.kind != GET && log[i].op.key == key
  }

  lemma {:induction false} AtWrites(log: seq<Command>, key: Bytes)
    ensures key in OpsMap(Effects(log)) <==> Writes(log, key)
  {
    hide OpsMap;
    if log == [] {
      NoOps([]);
      NoEffects();
    } else {
      var n := |log| - 1;
      AtWrites(log[..n], key);
      OpsSplit(Effects(log[..n]), RecsOf(log[n]));
      OneEffect(log[n], key);
      if Writes(log, key) && log[n].Run? && log[n].op.key != key {
        var i :| 0 <= i < |log| && log[i].Run? && log[i].op.kind != GET && log[i].op.key == key;
        assert log[..n][i] == log[i];
      }
      if i :| 0 <= i < n && log[i].Run? && log[i].op.kind != GET && log[i].op.key == key {
        assert log[..n][i] == log[i];
      }
    }
  }

  lemma OneEffect(cmd: Command, key: Bytes)
    ensures key in OpsMap(RecsOf(cmd)) <==> cmd.Run? && cmd.op.kind != GET && cmd.op.key == key
  {
    hide OpsMap;
    if RecsOf(cmd) == [] {
      NoOps([]);
    } else {
      OneRec(RecsOf(cmd)[0]);
    }
  }

  lemma OneRec(r: Rec)
    ensures OpsMap([r]).Keys == {r.key}
  {
    hide OpsMap;
    NoOps([]);
    OpsMore([], r);
    assert [] + [r] == [r];
  }

  /** A read at an index that an earlier life had passed sees the right value exactly when a
      command before it mentions the key, or the key is absent in the end: otherwise it sees
      the future. */
  lemma ReplayedRead(log: seq<Command>, m: nat, a: nat, key: Bytes)
    requires a <= m <= |log|
    ensures ReadOf(Effects(log[..m]) + Effects(log[..a]), key) == Lookup(ClientMap(log[..a]), key) <==>
            Writes(log[..a], key) || key !in ClientMap(log[..m])
  {
    hide Effects, OpsMap, PlainMap, ClientMap, Writes;
    EffectsMean(log[..a]);
    EffectsMean(log[..m]);
    AtWrites(log[..a], key);
    OpsSplit(Effects(log[..m]), Effects(log[..a]));
    LayerIsPlain(Effects(log[..m]) + Effects(log[..a]), key);
    LayerIsPlain(Effects(log[..a]), key);
    LayerIsPlain(Effects(log[..m]), key);
  }

  // ------------------------------------------------------------------ invariant

  /** The value of an operation after the commands before it: of a read, what it finds. */
  ghost function Meaning(op: Op, before: seq<Command>): Option<Bytes> {
    if op.kind == GET then Lookup(ClientMap(before), op.key) else None
  }

  ghost predicate SentOK(s: Store, ch: nat, log: seq<Command>) {
    ch < |s.requests| && ch in s.sent &&
    var k := s.requests[ch].index;
    1 <= k <= |log| && k <= s.high && log[k - 1] == Run(s.sent[ch].op) &&
    s.sent[ch].value == Meaning(s.sent[ch].op, log[..k - 1]) &&
    (ch >= s.firstLive ==> k <= s.applied)
  }

  ghost predicate WaitOK(s: Store, k: nat)
    requires k in s.waiting
  {
    s.firstLive <= s.waiting[k] < |s.requests| && s.requests[s.waiting[k]].index == k
  }

  ghost predicate StoreOK(s: Store, log: seq<Command>) {
    s.applied <= s.high && s.firstLive <= |s.requests| && Caught(s.logged, log, s.applied, s.high) &&
    (forall k {:trigger WaitOK(s, k)} :: k in s.waiting ==> WaitOK(s, k)) &&
    (forall ch :: s.firstLive <= ch < |s.requests| ==> s.requests[ch].index > s.high || s.requests[ch].index <= s.applied) &&
    forall ch {:trigger SentOK(s, ch, log)} :: ch in s.sent ==> SentOK(s, ch, log)
  }

  lemma DeliverKeeps(s: Store, log: seq<Command>, op: Op)
    requires StoreOK(s, log) && s.applied < |log| && log[s.applied] == Run(op)
    ensures StoreOK(Deliver(s, op), log)
  {
    hide Caught, RecsOf, Effects, ReadOf, ClientMap, Lookup;
    var k, d := s.applied + 1, Deliver(s, op);
    CaughtMore(s.logged, log, s.applied, s.high);
    forall i | i in d.waiting
      ensures WaitOK(d, i)
    {
      assert WaitOK(s, i);
    }
    forall ch | ch in d.sent
      ensures SentOK(d, ch, log)
    {
      if k in s.waiting && ch == s.waiting[k] {
        assert WaitOK(s, k);
        if op.kind == GET {
          CaughtUp(s.logged, log, s.applied, s.high, op.key);
        }
      } else {
        assert SentOK(s, ch, log);
      }
    }
  }

  ghost predicate AnsweredRight(s: Store, ch: nat, log: seq<Command>)
    requires Accepted(s, ch)
  {
    var k, op := s.requests[ch].index, s.requests[ch].op;
    1 <= k <= |log| && log[k - 1] == Run(op) && ReplyOf(s, ch, op) == Done(Meaning(op, log[..k - 1]))
  }

  /** A request that waits at the next index, where the log holds its own operation, is answered by
      the next turn, and rightly: a write as well as a read. */
  lemma TurnAnswers(s: Store, log: seq<Command>, ch: nat)
    requires StoreOK(s, log) && s.applied < |log| && ch < |s.requests| && s.requests[ch].index == s.applied + 1
    requires s.applied + 1 in s.waiting && s.waiting[s.applied + 1] == ch
    requires log[s.applied] == Run(s.requests[ch].op)
    ensures var d := Deliver(s, s.requests[ch].op);
            Accepted(d, ch) && AnsweredRight(d, ch, log) && d.requests == s.requests && d.applied == s.applied + 1
  {
    hide Caught, RecsOf, ReadOf, ClientMap, Lookup;
    var op := s.requests[ch].op;
    assert WaitOK(s, s.applied + 1);
    if op.kind == GET {
      CaughtUp(s.logged, log, s.applied, s.high, op.key);
    }
  }

  /** The apply loop never waits for a full channel. */
  lemma NeverBlocks(s: Store, log: seq<Command>)
    requires StoreOK(s, log) && s.applied + 1 in s.waiting
    ensures s.waiting[s.applied + 1] !in s.sent
  {
    hide Caught;
    assert WaitOK(s, s.applied + 1);
    assert s.waiting[s.applied + 1] in s.sent ==> SentOK(s, s.waiting[s.applied + 1], log);
  }

  lemma BeginKeeps(s: Store, log: seq<Command>, index: nat, op: Op)
    requires StoreOK(s, log) && index > s.high
    ensures StoreOK(Begin(s, index, op), log)
  {
    hide Caught, Meaning;
    var d := Begin(s, index, op);
    forall i | i in d.waiting
      ensures WaitOK(d, i)
    {
      assert WaitOK(s, i);
    }
    forall ch | ch in d.sent
      ensures SentOK(d, ch, log)
    {
      assert SentOK(s, ch, log);
    }
  }

  lemma WaitingKeeps(s: Store, log: seq<Command>, waiting: map<nat, nat>)
    requires StoreOK(s, log)
    requires forall k :: k in waiting ==> WaitOK(s.(waiting := waiting), k)
    ensures StoreOK(s.(waiting := waiting), log)
  {
    hide Caught, Meaning;
    var d := s.(waiting := waiting);
    forall ch | ch in d.sent
      ensures SentOK(d, ch, log)
    {
      assert SentOK(s, ch, log);
    }
  }

  lemma RegisterKeeps(s: Store, log: seq<Command>, ch: nat)
    requires StoreOK(s, log) && s.firstLive <= ch < |s.requests|
    ensures StoreOK(Register(s, ch), log)
  {
    hide Caught, SentOK;
    var d := Register(s, ch);
    forall k | k in d.waiting
      ensures WaitOK(d, k)
    {
      if k in s.waiting {
        assert WaitOK(s, k);
      }
    }
    WaitingKeeps(s, log, d.waiting);
  }

  lemma UnregisterKeeps(s: Store, log: seq<Command>, index: nat)
    requires StoreOK(s, log)
    ensures StoreOK(Unregister(s, index), log)
  {
    hide Caught, SentOK;
    var d := Unregister(s, index);
    forall k | k in d.waiting
      ensures WaitOK(d, k)
    {
      assert WaitOK(s, k);
    }
    WaitingKeeps(s, log, d.waiting);
  }

  lemma RestartKeeps(s: Store, log: seq<Command>)
    requires StoreOK(s, log)
    ensures StoreOK(Restarted(s), log)
  {
    hide Meaning;
    CaughtAgain(s.logged, log, s.applied, s.high);
    hide Caught;
    var d := Restarted(s);
    forall ch | ch in d.sent
      ensures SentOK(d, ch, log)
    {
      assert SentOK(s, ch, log);
    }
  }

  lemma CrashMidKeeps(s: Store, log: seq<Command>, op: Op)
    requires StoreOK(s, log) && s.applied < |log| && log[s.applied] == Run(op)
    ensures StoreOK(CrashedMid(s, op), log)
  {
    hide Meaning, RecsOf;
    CaughtMore(s.logged, log, s.applied, s.high);
    var logged, high := s.logged + RecsOf(Run(op)), Max(s.high, s.applied + 1);
    CaughtAgain(logged, log, s.applied + 1, high);
    hide Caught;
    var d := CrashedMid(s, op);
    forall ch | ch in d.sent
      ensures SentOK(d, ch, log)
    {
      assert SentOK(s, ch, log);
    }
  }

  lemma FreshOK(log: seq<Command>)
    ensures StoreOK(NewStore, log)
  {
    NoOps([]);
    assert log[..0] == [];
  }

  // ------------------------------------------------------------------ the object

  predicate Sendable(op: Op) {
    op.kind != GET ==> Engine.Fitting(RecsOf(Run(op))[0])
  }

  class KVStore {
    var db: DB
    var requests: seq<Request>
    var waitChans: map<nat, nat>
    var sent: map<nat, OpResult>
    ghost var applied: nat
    ghost var high: nat
    ghost var firstLive: nat
    ghost var run: seq<Engine.Step>     // the database's run so far

    ghost predicate Valid()
      reads this, db, db.memTable, db.immTable
    {
      db.Valid() && Engine.After(run) == Some(Engine.Running(db.disk, db.InMemory())) && Engine.CompactionsHarmless(run)
    }

    /** What the clients see in the database. */
    ghost function View(): map<Bytes, Bytes>
      reads this
    {
      PlainMap(Engine.LoggedOps(run))
    }

    ghost function Value(): Store
      reads this
    {
      Store(Engine.LoggedOps(run), applied, high, requests, firstLive, waitChans, sent)
    }

    /** `NewKVStore`, first or after a crash: the database opens on the disk `root` that the run
        `past` left; channel numbers go on from the earlier lives, whose clients are gone. */
    constructor (root: Engine.Disk, before: Store, ghost past: seq<Engine.Step>)
      requires Engine.After(past) == Some(Engine.Down(root)) && before.logged == Engine.LoggedOps(past)
      requires Engine.CompactionsHarmless(past) && EngineSafety.Room(Engine.Opened(root))
      ensures Valid() && Value() == Restarted(before)
    {
      hide Engine.After, Engine.CompactionsHarmless, Engine.LoggedOps, Engine.Opened, EngineSafety.BootUp, EngineSafety.Room,
        FullyOpened;
      var database := new DB(root);
      db := database;
      requests, waitChans, sent := before.requests, map[], before.sent;
      applied, high, firstLive := 0, before.high, |before.requests|;
      ghost var continued := OpenRun(past, root);
      run := continued;
    }

    /** One message off the apply channel. */
    method ApplyMsg(index: nat, op: Op)
      requires Valid() && index == applied + 1 && Sendable(op)
      modifies this, db, db.memTable
      ensures Valid() && Value() == Deliver(old(Value()), op) && db == old(db)
      ensures View() == Effect(old(View()), op)
      ensures applied == index && waitChans == old(waitChans) && requests == old(requests)
      ensures var res := OpResult(op, if op.kind == GET then Lookup(old(View()), op.key) else None);
              sent == if index in waitChans then old(sent)[waitChans[index] := res] else old(sent)
    {
      hide PlainMap, Effect, Lookup, RecsOf, Engine.LoggedOps, Engine.After, DB.Valid, DB.InMemory, Sendable;
      var val := Execute(op);
      if index in waitChans {
        sent := sent[waitChans[index] := OpResult(op, val)];
      }
      applied, high := index, Max(high, index);
    }

    /** What the loop does with the database. */
    method Execute(op: Op) returns (val: Option<Bytes>)
      requires Valid() && Sendable(op)
      modifies this`run, db, db.memTable
      ensures Valid() && Engine.LoggedOps(run) == old(Engine.LoggedOps(run)) + RecsOf(Run(op))
      ensures View() == Effect(old(View()), op)
      ensures val == if op.kind == GET then Lookup(old(View()), op.key) else None
    {
      hide PlainMap, Engine.Get, Engine.LoggedOps, Engine.After, DB.Valid, DB.InMemory;
      val := None;
      PlainMore(Engine.LoggedOps(run), op);
      match op.kind {
        case PUT => ApplyPut(op.key, op.value);
        case DELETE => ApplyDelete(op.key);
        case GET =>
          EngineSafety.GetRefinesPlainMap(run, op.key);
          val := db.Get(op.key);
      }
    }

    method ApplyPut(key: Bytes, value: Bytes)
      requires Valid() && Engine.Fitting(Put(key, value))
      modifies this`run, db, db.memTable
      ensures Valid() && Engine.LoggedOps(run) == old(Engine.LoggedOps(run)) + [Put(key, value)]
    {
      hide Engine.Fitting, Engine.Logged, Engine.After, Engine.CompactionsHarmless, Engine.LoggedOps;
      EngineSafety.RunMore(run, Engine.Log(Put(key, value)));
      run := run + [Engine.Log(Put(key, value))];
      db.Put(key, value);
    }

    method ApplyDelete(key: Bytes)
      requires Valid() && Engine.Fitting(Del(key))
      modifies this`run, db, db.memTable
      ensures Valid() && Engine.LoggedOps(run) == old(Engine.LoggedOps(run)) + [Del(key)]
    {
      hide Engine.Fitting, Engine.Logged, Engine.After, Engine.CompactionsHarmless, Engine.LoggedOps;
      EngineSafety.RunMore(run, Engine.Log(Del(key)));
      run := run + [Engine.Log(Del(key))];
      db.Delete(key);
    }

    // ---------------------------------------------------- the database's background work

    /** A turn of the log allocator changes nothing that a client sees. */
    method PreAllocate()
      requires Valid() && db.nextwal.None? && db.walFileID < Directory.MaxID
      modifies this`run, db
      ensures Valid() && Value() == old(Value())
    {
      hide Engine.After, Engine.CompactionsHarmless, Engine.LoggedOps;
      EngineSafety.RunMore(run, Engine.PreAllocate);
      run := run + [Engine.PreAllocate];
      db.PreAllocateWal();
    }

    /** Nor does the flush of the immutable table. */
    method FlushBackground()
      requires Valid() && db.immTable != null
      requires Engine.Writable(db.immTable.pairs) && db.nextFileID < Directory.MaxID
      modifies this`run, db
      ensures Valid() && Value() == old(Value()) && db.immTable == null
    {
      hide Engine.After, Engine.CompactionsHarmless, Engine.LoggedOps, Engine.Writable, Flushed;
      FlushRuns(run, db.disk, db.InMemory());
      run := run + FlushStages;
      db.FlushImmutable();
    }

    /** Nor does a harmless compaction. */
    method Compact() returns (ok: bool)
      requires Valid() && db.nextFileID < Directory.MaxID
      requires |db.sstables| >= Threshold ==> Harmless(Engine.TablesOf(db.disk.ssts, db.sstables), Threshold)
      requires forall merged :: IsMerge(PairsOf(db.PickedTables()), merged) ==> Engine.Writable(merged)
      modifies this`run, db
      ensures Valid() && Value() == old(Value()) && ok
    {
      hide Engine.After, Engine.CompactionsHarmless, Engine.LoggedOps, Engine.Writable, IsMerge, Engine.Compacted, Harmless,
        Sorted, Engine.TableOf;
      ghost var s := Engine.Running(db.disk, db.InMemory());
      if |db.sstables| >= Threshold {
        CompactionOpens(run);
      }
      ghost var merged;
      ok, merged := db.DoCompaction();
      if |s.m.tables| >= Threshold {
        EngineSafety.RunMore(run, Engine.Compact(merged));
        run := run + [Engine.Compact(merged)];
      }
    }

    /** `Put`, `Delete` and `Get` up to the wait: `Start` has accepted the operation at `index`. */
    method Await(index: nat, op: Op) returns (ch: nat)
      requires Valid()
      modifies this
      ensures Valid() && db == old(db) && ch == |old(requests)|
      ensures Value() == Register(Begin(old(Value()), index, op), ch)
      ensures requests == old(requests) + [Request(index, op)] && waitChans == old(waitChans)[index := ch] && sent == old(sent)
    {
      ch := |requests|;
      requests := requests + [Request(index, op)];
      waitChans := waitChans[index := ch];
    }

    /** The same three after the wait, whether a result came or the time ran out. */
    method Finish(ch: nat, index: nat, op: Op) returns (reply: Reply)
      requires Valid()
      modifies this
      ensures Valid() && db == old(db) && Value() == Unregister(old(Value()), index)
      ensures reply == ReplyOf(old(Value()), ch, op)
      ensures waitChans == old(waitChans) - {index} && requests == old(requests) && sent == old(sent)
      ensures reply == if ch !in sent then TimedOut
                       else if sent[ch].op.id != op.id then LeadershipChanged
                       else Done(sent[ch].value)
    {
      waitChans := waitChans - {index};
      if ch !in sent {
        return TimedOut;
      }
      if sent[ch].op.id != op.id {
        return LeadershipChanged;
      }
      return Done(sent[ch].value);
    }
  }

  /** Opening is a continuation of the run, and logs nothing. */
  lemma OpenRun(past: seq<Engine.Step>, root: Engine.Disk) returns (run: seq<Engine.Step>)
    requires Engine.After(past) == Some(Engine.Down(root)) && Engine.CompactionsHarmless(past)
    ensures Engine.After(run) == Some(EngineSafety.BootUp(Engine.Booting(root, Engine.Opened(root))))
    ensures Engine.LoggedOps(run) == Engine.LoggedOps(past) && Engine.CompactionsHarmless(run)
  {
    hide Engine.Opened, EngineSafety.BootUp, Engine.After, Engine.CompactionsHarmless, Engine.LoggedOps;
    EngineSafety.RunMore(past, Engine.Open);
    run := BootRun(past + [Engine.Open], Engine.Booting(root, Engine.Opened(root)));
  }

  lemma {:induction false} BootRun(run: seq<Engine.Step>, s: Engine.State) returns (run': seq<Engine.Step>)
    requires Engine.After(run) == Some(s) && Engine.CompactionsHarmless(run)
    ensures Engine.After(run') == Some(EngineSafety.BootUp(s)) && Engine.CompactionsHarmless(run')
    ensures Engine.LoggedOps(run') == Engine.LoggedOps(run)
    decreases if s.Booting? then EngineSafety.Rank(s.boot.stage) else 0, |s.disk.wals|
  {
    hide Engine.MetaFor, Engine.Writable, SSTable.FileOf, Manifest.Line, Directory.SortedIds, Engine.After,
      Engine.CompactionsHarmless, Engine.LoggedOps;
    run' := run;
    if s.Booting? && Engine.Enabled(s, EngineSafety.BootStep(s.boot, s.disk.wals)) {
      var step := EngineSafety.BootStep(s.boot, s.disk.wals);
      EngineSafety.RunMore(run, step);
      run' := run + [step];
      if step == Engine.RemoveWal {
        EngineSafety.OneLogLess(s.disk.wals);
      }
      if step != Engine.Activate {
        run' := BootRun(run', Engine.Do(s, step));
      }
    }
  }
}
