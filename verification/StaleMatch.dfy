/** Why clearing `matchIndex` matters: a run of the code as written in which a re-elected
    leader counts a stale `matchIndex` entry, and two peers apply different commands at index 2. */
module StaleMatch {
  import opened Ops
  import opened RaftNode
  import opened RaftCluster

  /** A run in progress: its states, its steps and the current state. */
  datatype Trace = Trace(cs: seq<Cluster>, steps: seq<Step>) {
    ghost predicate Ok() { IsRun(cs, steps, false) }

    function Now(): Cluster
      requires cs != []
    {
      cs[|cs| - 1]
    }
  }

  lemma Take(t: Trace, s: Step) returns (u: Trace)
    requires t.Ok() && Enabled(t.Now(), s)
    ensures u.Ok() && u.Now() == Do(t.Now(), s, false)
  {
    var d := Do(t.Now(), s, false);
    DoKeepsShape(t.Now(), s, false);
    u := Trace(t.cs + [d], t.steps + [s]);
    forall i {:trigger u.steps[i]} | 0 <= i < |u.steps|
      ensures Enabled(u.cs[i], u.steps[i]) && u.cs[i + 1] == Do(u.cs[i], u.steps[i], false)
    {
      if i < |t.steps| {
        assert u.steps[i] == t.steps[i];
      }
    }
  }

  lemma Wait(t: Trace, i: nat) returns (u: Trace)
    requires t.Ok() && i < |t.Now().nodes|
    ensures u.Ok() && u.Now().applied == t.Now().applied
    ensures u.Now().nodes == t.Now().nodes[i := StartElection(t.Now().nodes[i], i)]
  {
    u := Take(t, Timeout(i));
  }

  function Winner(x: Node, i: nat): Node {
    StartElection(x, i).(votes := 2, role := Leader, next := All(x.Peers(), |x.log|))
  }

  function Ballot(x: Node, i: nat): VoteArgs { VoteRequest(StartElection(x, i), i) }

  /** Three peers: candidate `i` is elected by itself and `v`. */
  lemma Elect(t: Trace, i: nat, v: nat) returns (u: Trace)
    requires t.Ok() && |t.Now().nodes| == 3 && i < 3 && v < 3 && i != v
    requires RequestVote(t.Now().nodes[v], Ballot(t.Now().nodes[i], i)).1 == VoteReply(t.Now().nodes[i].term + 1, true)
    ensures u.Ok() && u.Now().applied == t.Now().applied
    ensures u.Now().nodes == t.Now().nodes[i := Winner(t.Now().nodes[i], i)]
                                          [v := RequestVote(t.Now().nodes[v], Ballot(t.Now().nodes[i], i)).0]
  {
    var x, y := t.Now().nodes[i], t.Now().nodes[v];
    var args := Ballot(x, i);
    var a := Take(t, Timeout(i));
    assert Call(i, x.term + 1, v) in a.Now().pending;
    var b := Take(a, RecvVoteReq(v, args));
    u := Take(b, RecvVoteResp(x.term + 1, i, v, VoteReply(x.term + 1, true)));
  }

  lemma Propose(t: Trace, i: nat, cmd: Command) returns (u: Trace)
    requires t.Ok() && i < |t.Now().nodes|
    ensures u.Ok() && u.Now().applied == t.Now().applied && t.Now().msgs <= u.Now().msgs
    ensures u.Now().nodes == t.Now().nodes[i := ClientStart(t.Now().nodes[i], cmd)]
  {
    u := Take(t, ClientReq(i, cmd));
  }

  predicate CanSend(c: Cluster, i: nat, p: nat) {
    Shape(c) && Enabled(c, SendAppend(i, p))
  }

  /** A heartbeat from `i` reaches `p`; the reply is on its way. */
  lemma Deliver(t: Trace, i: nat, p: nat) returns (u: Trace)
    requires t.Ok() && CanSend(t.Now(), i, p)
    ensures u.Ok() && u.Now().applied == t.Now().applied
    ensures var m := MakeAppend(t.Now().nodes[i], i, p);
            var (y, r) := AppendEntries(t.Now().nodes[p], m);
            u.Now().nodes == t.Now().nodes[p := y] && AppResp(p, m, r) in u.Now().msgs
  {
    var m := MakeAppend(t.Now().nodes[i], i, p);
    var a := Take(t, SendAppend(i, p));
    u := Take(a, RecvAppend(p, m));
  }

  lemma Answer(t: Trace, p: nat, m: AppendArgs, r: AppendReply) returns (u: Trace)
    requires t.Ok() && p < |t.Now().nodes| && m.leader < |t.Now().nodes| && AppResp(p, m, r) in t.Now().msgs
    ensures u.Ok() && u.Now().applied == t.Now().applied
    ensures u.Now().nodes == t.Now().nodes[m.leader := ReceiveAppend(t.Now().nodes[m.leader], m.leader, p, m, r)]
  {
    u := Take(t, RecvAppResp(p, m, r));
  }

  /** A heartbeat and its answer. */
  lemma Replicate(t: Trace, i: nat, p: nat) returns (u: Trace)
    requires t.Ok() && CanSend(t.Now(), i, p)
    ensures u.Ok() && u.Now().applied == t.Now().applied
    ensures var m := MakeAppend(t.Now().nodes[i], i, p);
            var (y, r) := AppendEntries(t.Now().nodes[p], m);
            u.Now().nodes == t.Now().nodes[p := y][i := ReceiveAppend(t.Now().nodes[i], i, p, m, r)]
  {
    var m := MakeAppend(t.Now().nodes[i], i, p);
    var a := Deliver(t, i, p);
    u := Answer(a, p, m, AppendEntries(t.Now().nodes[p], m).1);
  }

  lemma ApplyNext(t: Trace, i: nat) returns (u: Trace)
    requires t.Ok() && i < |t.Now().nodes| && Enabled(t.Now(), Apply(i))
    ensures u.Ok() && t.Now().applied <= u.Now().applied
    ensures var k := t.Now().nodes[i].applied + 1;
            Applied(i, k, t.Now().nodes[i].log[k].cmd) in u.Now().applied &&
            u.Now().nodes == t.Now().nodes[i := ApplyOne(t.Now().nodes[i])]
  {
    u := Take(t, Apply(i));
  }

  function Write(k: int): Command { Run(Op(PUT, [], [], k)) }

  /** A peer with the given fields, everything persisted. */
  function Peer(term: nat, vote: int, role: Role, log: Log, progress: (nat, nat),
                next: seq<nat>, matched: seq<nat>, votes: nat): Node {
    Node(term, vote, role, log, progress.0, progress.1, next, matched, votes, Some(Persisted(term, vote, log)))
  }

  const S := Sentinel
  const A := Entry(1, Write(1))
  const B := Entry(1, Write(2))
  const C := Entry(2, Write(3))
  const X := Entry(5, Write(4))
  const Y := Entry(6, Write(5))
  const Z: seq<nat> := [0, 0, 0]

  ghost predicate At(t: Trace, a: Node, b: Node, c: Node) {
    t.Ok() && t.Now().nodes == [a, b, c]
  }

  lemma ElectTo(t: Trace, i: nat, v: nat, x: Node, y: Node) returns (u: Trace)
    requires t.Ok() && |t.Now().nodes| == 3 && i < 3 && v < 3 && i != v
    requires RequestVote(t.Now().nodes[v], Ballot(t.Now().nodes[i], i)) == (y, VoteReply(t.Now().nodes[i].term + 1, true))
    requires Winner(t.Now().nodes[i], i) == x
    ensures u.Ok() && u.Now().applied == t.Now().applied && u.Now().nodes == t.Now().nodes[i := x][v := y]
  {
    u := Elect(t, i, v);
  }

  lemma ReplicateTo(t: Trace, i: nat, p: nat, m: AppendArgs, r: AppendReply, x: Node, y: Node) returns (u: Trace)
    requires t.Ok() && CanSend(t.Now(), i, p) && MakeAppend(t.Now().nodes[i], i, p) == m
    requires AppendEntries(t.Now().nodes[p], m) == (y, r)
    requires ReceiveAppend(t.Now().nodes[i], i, p, m, r) == x
    ensures u.Ok() && u.Now().applied == t.Now().applied && u.Now().nodes == t.Now().nodes[p := y][i := x]
  {
    u := Replicate(t, i, p);
  }

  lemma Literals()
    ensures Zeros(3) == Z && All(3, 1) == [1, 1, 1] && All(3, 2) == [2, 2, 2] && All(3, 3) == [3, 3, 3]
  {
  }

  lemma Boots() returns (t: Trace)
    ensures At(t, Boot(3, None), Boot(3, None), Boot(3, None)) && t.Now().applied == {}
  {
    t := Trace([InitCluster(3)], []);
  }

  /** Peer 0 leads term 1 and keeps two entries to itself. */
  lemma Divide0() returns (t: Trace)
    ensures At(t, Peer(1, 0, Leader, [S, A, B], (0, 0), [1, 1, 1], Z, 2),
                  Peer(1, 0, Follower, [S], (0, 0), Z, Z, 0), Boot(3, None))
  {
    t := Boots();
    Literals();
    t := ElectTo(t, 0, 1, Peer(1, 0, Leader, [S], (0, 0), [1, 1, 1], Z, 2),
                 Peer(1, 0, Follower, [S], (0, 0), Z, Z, 0));
    t := Propose(t, 0, A.cmd);
    t := Propose(t, 0, B.cmd);
    assert [S] + [A] + [B] == [S, A, B];
  }

  /** Peer 2 leads term 2 and keeps one entry to itself. */
  lemma Divide1() returns (t: Trace)
    ensures At(t, Peer(1, 0, Leader, [S, A, B], (0, 0), [1, 1, 1], Z, 2),
                  Peer(2, 2, Follower, [S], (0, 0), Z, Z, 0),
                  Peer(2, 2, Leader, [S, C], (0, 0), [1, 1, 1], Z, 2))
  {
    t := Divide0();
    Literals();
    t := Wait(t, 2);
    assert t.Now().nodes[2] == Peer(1, 2, Candidate, [S], (0, 0), Z, Z, 1);
    t := ElectTo(t, 2, 1, Peer(2, 2, Leader, [S], (0, 0), [1, 1, 1], Z, 2),
                 Peer(2, 2, Follower, [S], (0, 0), Z, Z, 0));
    t := Propose(t, 2, C.cmd);
    assert [S] + [C] == [S, C];
  }

  /** Peer 0 leads term 3; its first probe of peer 1 is rejected. */
  lemma Copy0() returns (t: Trace)
    ensures At(t, Peer(3, 0, Leader, [S, A, B], (0, 0), [3, 1, 3], Z, 2),
                  Peer(3, 0, Follower, [S], (0, 0), Z, Z, 0),
                  Peer(2, 2, Leader, [S, C], (0, 0), [1, 1, 1], Z, 2))
  {
    t := Divide1();
    Literals();
    t := Wait(t, 0);
    assert t.Now().nodes[0] == Peer(2, 0, Candidate, [S, A, B], (0, 0), [1, 1, 1], Z, 1);
    t := ElectTo(t, 0, 1, Peer(3, 0, Leader, [S, A, B], (0, 0), [3, 3, 3], Z, 2),
                 Peer(3, 0, Follower, [S], (0, 0), Z, Z, 0));
    assert [S, A, B][3..] == [];
    t := ReplicateTo(t, 0, 1, AppendArgs(3, 0, 2, 1, [], 0), AppendReply(3, false, -1, -1, 1),
                     Peer(3, 0, Leader, [S, A, B], (0, 0), [3, 1, 3], Z, 2),
                     Peer(3, 0, Follower, [S], (0, 0), Z, Z, 0));
  }

  /** Then it copies its two old entries to peer 1, uncommitted: `matchIndex[1]` is 2. */
  lemma Copy1() returns (t: Trace)
    ensures At(t, Peer(3, 0, Leader, [S, A, B], (0, 0), [3, 3, 3], [0, 2, 0], 2),
                  Peer(3, 0, Follower, [S, A, B], (0, 0), Z, Z, 0),
                  Peer(2, 2, Leader, [S, C], (0, 0), [1, 1, 1], Z, 2))
  {
    t := Copy0();
    assert [S, A, B][1..] == [A, B] && [S] + [A, B][0..] == [S, A, B];
    NoMajority(Peer(3, 0, Leader, [S, A, B], (0, 0), [3, 3, 3], [0, 2, 0], 2), 0, 2);
    t := ReplicateTo(t, 0, 1, AppendArgs(3, 0, 0, 0, [A, B], 0), AppendReply(3, true, 0, 0, 0),
                     Peer(3, 0, Leader, [S, A, B], (0, 0), [3, 3, 3], [0, 2, 0], 2),
                     Peer(3, 0, Follower, [S, A, B], (0, 0), Z, Z, 0));
  }

  /** Entries of older terms are never counted. */
  lemma {:induction false} NoMajority(n: Node, me: nat, k: nat)
    requires k < |n.log| && n.Peers() >= 2 && forall i :: 0 <= i <= k ==> n.log[i].term != n.term
    ensures CommitScan(n, me, k) == n.commit
    decreases k
  {
    assert Counted(n, me, k) == {};
    if k > n.commit {
      NoMajority(n, me, k - 1);
    }
  }

  /** Peer 2 leads term 4; its first probe of peer 0 is rejected. */
  lemma Override0() returns (t: Trace)
    ensures At(t, Peer(4, NoVote, Follower, [S, A, B], (0, 0), [3, 3, 3], [0, 2, 0], 2),
                  Peer(4, 2, Follower, [S, A, B], (0, 0), Z, Z, 0),
                  Peer(4, 2, Leader, [S, C], (0, 0), [1, 2, 2], Z, 2))
  {
    t := Copy1();
    Literals();
    t := Wait(t, 2);
    assert t.Now().nodes[2] == Peer(3, 2, Candidate, [S, C], (0, 0), [1, 1, 1], Z, 1);
    t := ElectTo(t, 2, 1, Peer(4, 2, Leader, [S, C], (0, 0), [2, 2, 2], Z, 2),
                 Peer(4, 2, Follower, [S, A, B], (0, 0), Z, Z, 0));
    assert [S, C][2..] == [];
    t := ReplicateTo(t, 2, 0, AppendArgs(4, 2, 1, 2, [], 0), AppendReply(4, false, 1, 1, 0),
                     Peer(4, 2, Leader, [S, C], (0, 0), [1, 2, 2], Z, 2),
                     Peer(4, NoVote, Follower, [S, A, B], (0, 0), [3, 3, 3], [0, 2, 0], 2));
  }

  /** Then peer 0's two entries are truncated; its `matchIndex` still says 2 for peer 1. */
  lemma Override1() returns (t: Trace)
    ensures At(t, Peer(4, NoVote, Follower, [S, C], (0, 0), [3, 3, 3], [0, 2, 0], 2),
                  Peer(4, 2, Follower, [S, A, B], (0, 0), Z, Z, 0),
                  Peer(4, 2, Leader, [S, C], (0, 0), [2, 2, 2], [1, 0, 0], 2))
  {
    t := Override0();
    assert [S, C][1..] == [C] && [S, A, B][..1] + [C][0..] == [S, C];
    NoMajority(Peer(4, 2, Leader, [S, C], (0, 0), [2, 2, 2], [1, 0, 0], 2), 2, 1);
    t := ReplicateTo(t, 2, 0, AppendArgs(4, 2, 0, 0, [C], 0), AppendReply(4, true, 0, 0, 0),
                     Peer(4, 2, Leader, [S, C], (0, 0), [2, 2, 2], [1, 0, 0], 2),
                     Peer(4, NoVote, Follower, [S, C], (0, 0), [3, 3, 3], [0, 2, 0], 2));
  }

  const Beat := AppendArgs(5, 0, 1, 2, [], 0)
  const Pong := AppendReply(5, true, 0, 0, 0)

  /** Peer 0 is re-elected for term 5, and peer 2 accepts its first heartbeat. */
  lemma Reelect() returns (t: Trace)
    ensures At(t, Peer(5, 0, Leader, [S, C], (0, 0), [2, 2, 2], [0, 2, 0], 2),
                  Peer(5, 0, Follower, [S, A, B], (0, 0), Z, Z, 0),
                  Peer(5, NoVote, Follower, [S, C], (0, 0), [2, 2, 2], [1, 0, 0], 2))
    ensures AppResp(2, Beat, Pong) in t.Now().msgs
  {
    t := Override1();
    Literals();
    t := ElectTo(t, 0, 1, Peer(5, 0, Leader, [S, C], (0, 0), [2, 2, 2], [0, 2, 0], 2),
                 Peer(5, 0, Follower, [S, A, B], (0, 0), Z, Z, 0));
    assert [S, C][2..] == [];
    assert MakeAppend(t.Now().nodes[0], 0, 2) == Beat;
    t := Deliver(t, 0, 2);
  }

  /** A new entry of peer 0 sits at index 2; the heartbeat's answer makes it count the stale 2. */
  lemma CountStale() returns (t: Trace)
    ensures At(t, Peer(5, 0, Leader, [S, C, X], (2, 0), [2, 2, 2], [0, 2, 1], 2),
                  Peer(5, 0, Follower, [S, A, B], (0, 0), Z, Z, 0),
                  Peer(5, NoVote, Follower, [S, C], (0, 0), [2, 2, 2], [1, 0, 0], 2))
  {
    t := Reelect();
    t := Propose(t, 0, X.cmd);
    assert [S, C] + [X] == [S, C, X];
    var x := Peer(5, 0, Leader, [S, C, X], (0, 0), [2, 2, 2], [0, 2, 1], 2);
    assert 1 in Counted(x, 0, 2);
    assert CommitScan(x, 0, 2) == 2;
    assert [0, 2, 0][2 := 1] == [0, 2, 1];
    t := Answer(t, 2, Beat, Pong);
  }

  /** Peer 0 applies both entries. */
  lemma ApplyAtZero() returns (t: Trace)
    ensures At(t, Peer(5, 0, Leader, [S, C, X], (2, 2), [2, 2, 2], [0, 2, 1], 2),
                  Peer(5, 0, Follower, [S, A, B], (0, 0), Z, Z, 0),
                  Peer(5, NoVote, Follower, [S, C], (0, 0), [2, 2, 2], [1, 0, 0], 2))
    ensures Applied(0, 2, X.cmd) in t.Now().applied
  {
    t := CountStale();
    t := ApplyNext(t, 0);
    t := ApplyNext(t, 0);
  }

  /** Peer 2 leads term 6 without that entry and creates its own at index 2. */
  lemma Replace0() returns (t: Trace)
    ensures At(t, Peer(5, 0, Leader, [S, C, X], (2, 2), [2, 2, 2], [0, 2, 1], 2),
                  Peer(6, 2, Follower, [S, A, B], (0, 0), Z, Z, 0),
                  Peer(6, 2, Leader, [S, C, Y], (0, 0), [2, 1, 2], [1, 0, 0], 2))
    ensures Applied(0, 2, X.cmd) in t.Now().applied
  {
    t := ApplyAtZero();
    Literals();
    t := ElectTo(t, 2, 1, Peer(6, 2, Leader, [S, C], (0, 0), [2, 2, 2], [1, 0, 0], 2),
                 Peer(6, 2, Follower, [S, A, B], (0, 0), Z, Z, 0));
    t := Propose(t, 2, Y.cmd);
    assert [S, C] + [Y] == [S, C, Y] && [S, C, Y][2..] == [Y];
    t := ReplicateTo(t, 2, 1, AppendArgs(6, 2, 1, 2, [Y], 0), AppendReply(6, false, 1, 1, 0),
                     Peer(6, 2, Leader, [S, C, Y], (0, 0), [2, 1, 2], [1, 0, 0], 2),
                     Peer(6, 2, Follower, [S, A, B], (0, 0), Z, Z, 0));
  }

  /** A majority of peers 1 and 2 commits it. */
  lemma Replace1() returns (t: Trace)
    ensures At(t, Peer(5, 0, Leader, [S, C, X], (2, 2), [2, 2, 2], [0, 2, 1], 2),
                  Peer(6, 2, Follower, [S, C, Y], (0, 0), Z, Z, 0),
                  Peer(6, 2, Leader, [S, C, Y], (2, 0), [2, 3, 2], [1, 2, 0], 2))
    ensures Applied(0, 2, X.cmd) in t.Now().applied
  {
    t := Replace0();
    assert [S, C, Y][1..] == [C, Y] && [S, A, B][..1] + [C, Y][0..] == [S, C, Y];
    var x := Peer(6, 2, Leader, [S, C, Y], (0, 0), [2, 3, 2], [1, 2, 0], 2);
    assert 1 in Counted(x, 2, 2);
    assert CommitScan(x, 2, 2) == 2;
    assert [2, 1, 2][1 := 3] == [2, 3, 2] && [1, 0, 0][1 := 2] == [1, 2, 0];
    t := ReplicateTo(t, 2, 1, AppendArgs(6, 2, 0, 0, [C, Y], 0), AppendReply(6, true, 0, 0, 0),
                     Peer(6, 2, Leader, [S, C, Y], (2, 0), [2, 3, 2], [1, 2, 0], 2),
                     Peer(6, 2, Follower, [S, C, Y], (0, 0), Z, Z, 0));
  }

  /** State Machine Safety fails for the code as written. */
  lemma UnsafeAsWritten() returns (cs: seq<Cluster>, steps: seq<Step>, o: Applied, p: Applied)
    ensures IsRun(cs, steps, false)
    ensures o in cs[|cs| - 1].applied && p in cs[|cs| - 1].applied && o.index == p.index && o.cmd != p.cmd
  {
    var t := Replace1();
    t := ApplyNext(t, 2);
    t := ApplyNext(t, 2);
    cs, steps, o, p := t.cs, t.steps, Applied(0, 2, X.cmd), Applied(2, 2, Y.cmd);
  }
}
