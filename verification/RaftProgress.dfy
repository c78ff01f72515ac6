/** What the protocol can always still do: from every state of a run any majority of the peers, by
    itself, can elect a leader, replicate a new command, and apply it on all its members. */
module RaftProgress {
  import opened Ops
  import opened RaftNode
  import opened RaftCluster
  import opened RaftInv
  import opened RaftCommit
  import opened RaftReplication
  import opened RaftSafety
  import opened FastBackup

  // ------------------------------------------------------------- runs that go on

  datatype Path = Path(cs: seq<Cluster>, steps: seq<Step>)

  ghost predicate Good(r: Path, reset: bool) {
    |r.cs| > 0 && IsRun(r.cs, r.steps, reset) && TameRun(r.cs, r.steps, reset)
  }

  function Now(r: Path): Cluster
    requires |r.cs| > 0
  {
    r.cs[|r.cs| - 1]
  }

  /** `u` continues `r` by steps of the peers in `q`, none of them a client's request; restarts only
      if allowed. */
  ghost predicate Continues(r: Path, u: Path, q: set<nat>, restarts: bool) {
    r.cs <= u.cs && r.steps <= u.steps && forall m :: |r.steps| <= m < |u.steps| ==> Among(u.steps[m], q, restarts)
  }

  predicate Among(s: Step, q: set<nat>, restarts: bool) {
    Actor(s) in q && !s.ClientReq? && (s.Restart? ==> restarts)
  }

  lemma ContinuesTrans(r: Path, u: Path, v: Path, q: set<nat>, restarts: bool)
    requires Continues(r, u, q, restarts) && Continues(u, v, q, restarts)
    ensures Continues(r, v, q, restarts)
  {
    forall m | |r.steps| <= m < |v.steps|
      ensures Among(v.steps[m], q, restarts)
    {
      if m < |u.steps| {
        assert v.steps[m] == u.steps[m];
      }
    }
  }

  lemma ContinuesSelf(r: Path, q: set<nat>, restarts: bool)
    ensures Continues(r, r, q, restarts)
  {
  }

  lemma ContinuesFreely(r: Path, u: Path, q: set<nat>)
    requires Continues(r, u, q, false)
    ensures Continues(r, u, q, true)
  {
    forall m | |r.steps| <= m < |u.steps|
      ensures Among(u.steps[m], q, true)
    {
      assert Among(u.steps[m], q, false);
    }
  }

  lemma NowHasShape(r: Path, reset: bool)
    requires Good(r, reset)
    ensures |r.cs| > 0 && Shape(Now(r))
  {
  }

  lemma Take(r: Path, s: Step, reset: bool, q: set<nat>) returns (u: Path)
    requires Good(r, reset) && Shape(Now(r)) && Enabled(Now(r), s) && Tame(Now(r), s, reset)
    ensures Good(u, reset) && Shape(Now(u)) && Now(u) == Do(Now(r), s, reset)
    ensures u == Path(r.cs + [Now(u)], r.steps + [s])
    ensures forall restarts :: Among(s, q, restarts) ==> Continues(r, u, q, restarts)
  {
    hide Enabled, Do, Tame, IsRun, TameRun;
    u := Path(r.cs + [Do(Now(r), s, reset)], r.steps + [s]);
    RunMore(r.cs, r.steps, s, reset);
    DoKeepsShape(Now(r), s, reset);
  }

  // --------------------------------------------------------------- being elected

  /** Logs, commit and apply indices and outputs are the same in both clusters. */
  predicate SameLogs(c: Cluster, d: Cluster) {
    |c.nodes| == |d.nodes| && c.applied == d.applied &&
    forall p :: 0 <= p < |c.nodes| ==>
      d.nodes[p].log == c.nodes[p].log && d.nodes[p].commit == c.nodes[p].commit && d.nodes[p].applied == c.nodes[p].applied
  }

  /** `i` asks everyone for a vote. */
  predicate Asks(c: Cluster, i: nat) {
    i < |c.nodes| && c.nodes[i].role == Candidate && c.nodes[i].vote == i &&
    VoteReq(VoteRequest(c.nodes[i], i)) in c.msgs &&
    forall p :: 0 <= p < |c.nodes| && p != i ==> Call(i, c.nodes[i].term, p) in c.pending
  }

  lemma TimeoutAsks(c: Cluster, i: nat, reset: bool)
    requires Shape(c) && i < |c.nodes|
    ensures Tame(c, Timeout(i), reset)
    ensures var d := Do(c, Timeout(i), reset);
            Asks(d, i) && SameLogs(c, d) && d.nodes[i].votes == 1 && d.nodes[i].term == c.nodes[i].term + 1 &&
            d.nodes[i].matched == c.nodes[i].matched && forall p :: 0 <= p < |c.nodes| && p != i ==> d.nodes[p] == c.nodes[p]
  {
  }

  /** Time out until the term exceeds `t`. */
  lemma {:induction false} Campaign(r: Path, reset: bool, q: set<nat>, i: nat, t: nat) returns (u: Path)
    requires Good(r, reset) && i < |Now(r).nodes| && i in q
    ensures Good(u, reset) && Continues(r, u, q, false) && SameLogs(Now(r), Now(u)) && Asks(Now(u), i)
    ensures Now(u).nodes[i].votes == 1 && Now(u).nodes[i].term > t && Now(u).nodes[i].matched == Now(r).nodes[i].matched
    ensures forall p :: 0 <= p < |Now(r).nodes| && p != i ==> Now(u).nodes[p] == Now(r).nodes[p]
    decreases if Now(r).nodes[i].term <= t then t + 1 - Now(r).nodes[i].term else 0
  {
    hide Do, Enabled, Good, Asks, Tame;
    NowHasShape(r, reset);
    TimeoutEnabled(Now(r), i);
    TimeoutAsks(Now(r), i, reset);
    u := Take(r, Timeout(i), reset, q);
    if Now(u).nodes[i].term <= t {
      var v := Campaign(u, reset, q, i, t);
      ContinuesTrans(r, u, v, q, false);
      u := v;
    }
  }

  lemma TimeoutEnabled(c: Cluster, i: nat)
    requires Shape(c) && i < |c.nodes|
    ensures Enabled(c, Timeout(i)) && Actor(Timeout(i)) == i
  {
  }

  /** `p` is behind the candidate in term and not ahead in its log, and has not answered yet. */
  predicate WillGrant(c: Cluster, i: nat, p: nat) {
    i < |c.nodes| && p < |c.nodes| && p != i && c.nodes[p].term < c.nodes[i].term &&
    VoteReq(VoteRequest(c.nodes[i], i)) in c.msgs && Call(i, c.nodes[i].term, p) in c.pending &&
    (c.nodes[i].LastTerm() > c.nodes[p].LastTerm() ||
     (c.nodes[i].LastTerm() == c.nodes[p].LastTerm() && c.nodes[i].LastIndex() >= c.nodes[p].LastIndex()))
  }

  function Voting(c: Cluster, i: nat, p: nat): (Step, Step)
    requires WillGrant(c, i, p)
  {
    (RecvVoteReq(p, VoteRequest(c.nodes[i], i)),
     RecvVoteResp(c.nodes[i].term, i, p, VoteReply(c.nodes[i].term, true)))
  }

  lemma Grants(c: Cluster, i: nat, p: nat, reset: bool)
    requires Shape(c) && WillGrant(c, i, p) && c.nodes[i].role == Candidate && (reset || WithinLog(c.nodes[i]))
    ensures var s := Voting(c, i, p).0;
            Enabled(c, s) && Tame(c, s, reset) && Actor(s) == p && Shape(Do(c, s, reset)) && SameLogs(c, Do(c, s, reset)) &&
            Do(c, s, reset).nodes[p].term == c.nodes[i].term &&
            (forall y :: 0 <= y < |c.nodes| && y != p ==> Do(c, s, reset).nodes[y] == c.nodes[y]) &&
            Do(c, s, reset).pending == c.pending && c.msgs <= Do(c, s, reset).msgs
    ensures var d, s := Do(c, Voting(c, i, p).0, reset), Voting(c, i, p).1;
            Enabled(d, s) && Tame(d, s, reset) && Actor(s) == i
  {
    DoKeepsShape(c, Voting(c, i, p).0, reset);
  }

  /** Counting a vote: one more, and the office with more than half. */
  lemma Counting(c: Cluster, i: nat, p: nat, reset: bool)
    requires Shape(c) && i < |c.nodes| && p < |c.nodes| && c.nodes[i].role == Candidate
    requires Enabled(c, RecvVoteResp(c.nodes[i].term, i, p, VoteReply(c.nodes[i].term, true)))
    ensures var x, d := c.nodes[i], Do(c, RecvVoteResp(c.nodes[i].term, i, p, VoteReply(c.nodes[i].term, true)), reset);
            SameLogs(c, d) && d.nodes[i].term == x.term && d.nodes[i].votes == x.votes + 1 && c.msgs <= d.msgs &&
            (forall y :: 0 <= y < |c.nodes| && y != i ==> d.nodes[y] == c.nodes[y]) &&
            (forall y :: y != p && Call(i, x.term, y) in c.pending ==> Call(i, x.term, y) in d.pending) &&
            (d.nodes[i].role == Leader || (d.nodes[i] == x.(votes := x.votes + 1) && 2 * d.nodes[i].votes <= |c.nodes|))
  {
  }

  ghost predicate AllGrant(c: Cluster, i: nat, s: set<nat>) { forall p :: p in s ==> WillGrant(c, i, p) }

  /** Still short of office, a candidate that `s` would elect. */
  ghost predicate Running(c: Cluster, reset: bool, i: nat, s: set<nat>) {
    Shape(c) && i < |c.nodes| && c.nodes[i].role == Candidate && (reset || WithinLog(c.nodes[i])) && AllGrant(c, i, s) &&
    2 * c.nodes[i].votes <= |c.nodes| < 2 * (c.nodes[i].votes + |s|)
  }

  ghost predicate NoneBeyond(c: Cluster, q: set<nat>, t: nat) {
    forall p :: p in q && p < |c.nodes| ==> c.nodes[p].term <= t
  }

  /** One vote: office, or one vote more. */
  lemma OneVote(r: Path, reset: bool, q: set<nat>, i: nat, s: set<nat>, p: nat) returns (u: Path)
    requires Good(r, reset) && i in q && p in s && s <= q && Running(Now(r), reset, i, s)
    requires NoneBeyond(Now(r), q, Now(r).nodes[i].term)
    ensures Good(u, reset) && Continues(r, u, q, false) && SameLogs(Now(r), Now(u)) && i < |Now(u).nodes|
    ensures Now(u).nodes[i].term == Now(r).nodes[i].term && NoneBeyond(Now(u), q, Now(r).nodes[i].term)
    ensures Now(u).nodes[i].role == Leader || Running(Now(u), reset, i, s - {p})
  {
    hide Do, Enabled, Good, Tame, WillGrant, Voting, Continues;
    NowHasShape(r, reset);
    var c := Now(r);
    assert WillGrant(c, i, p);
    GrantedBy(c, i, p);
    Grants(c, i, p, reset);
    var a := Take(r, Voting(c, i, p).0, reset, q);
    Counting(Now(a), i, p, reset);
    u := Take(a, Voting(c, i, p).1, reset, q);
    ContinuesTrans(r, a, u, q, false);
    StillGrant(c, Now(a), Now(u), i, s, p);
    assert |s - {p}| == |s| - 1;
  }

  /** The candidate collects the votes of `s` until it has enough. */
  lemma {:induction false} Collect(r: Path, reset: bool, q: set<nat>, i: nat, s: set<nat>) returns (u: Path)
    requires Good(r, reset) && i in q && s <= q && Running(Now(r), reset, i, s)
    requires NoneBeyond(Now(r), q, Now(r).nodes[i].term)
    ensures Good(u, reset) && Continues(r, u, q, false) && SameLogs(Now(r), Now(u)) && i < |Now(u).nodes|
    ensures Now(u).nodes[i].role == Leader && Now(u).nodes[i].term == Now(r).nodes[i].term
    ensures NoneBeyond(Now(u), q, Now(r).nodes[i].term)
    decreases |s|
  {
    hide Good, AllGrant, Continues, NoneBeyond, WithinLog;
    NowHasShape(r, reset);
    assert s != {};
    var p :| p in s;
    u := OneVote(r, reset, q, i, s, p);
    NowHasShape(u, reset);
    if Now(u).nodes[i].role != Leader {
      var v := Collect(u, reset, q, i, s - {p});
      NowHasShape(v, reset);
      SameLogsTrans(Now(r), Now(u), Now(v));
      ContinuesTrans(r, u, v, q, false);
      u := v;
    }
  }

  lemma SameLogsTrans(c: Cluster, d: Cluster, e: Cluster)
    requires SameLogs(c, d) && SameLogs(d, e)
    ensures SameLogs(c, e)
  {
  }

  lemma GrantedBy(c: Cluster, i: nat, p: nat)
    requires WillGrant(c, i, p)
    ensures p < |c.nodes| && p != i
    ensures Voting(c, i, p).0.RecvVoteReq?
    ensures Voting(c, i, p).1 == RecvVoteResp(c.nodes[i].term, i, p, VoteReply(c.nodes[i].term, true))
  {
  }

  lemma StillGrant(c: Cluster, b: Cluster, d: Cluster, i: nat, s: set<nat>, p: nat)
    requires AllGrant(c, i, s) && i < |c.nodes| == |b.nodes| == |d.nodes| && SameLogs(c, b) && SameLogs(b, d) && p != i
    requires forall y :: 0 <= y < |c.nodes| && y != p ==> b.nodes[y] == c.nodes[y]
    requires forall y :: 0 <= y < |c.nodes| && y != i ==> d.nodes[y] == b.nodes[y]
    requires d.nodes[i].term == c.nodes[i].term && c.msgs <= b.msgs <= d.msgs && b.pending == c.pending
    requires forall y :: y != p && Call(i, c.nodes[i].term, y) in b.pending ==> Call(i, c.nodes[i].term, y) in d.pending
    ensures AllGrant(d, i, s - {p})
  {
    forall y | y in s - {p}
      ensures WillGrant(d, i, y)
    {
      assert WillGrant(c, i, y);
    }
  }

  // ---------------------------------------------------------------- replicating

  /** `i` leads in term `t` with the log `l`; no member of `q` is ahead in term, and none has applied
      the last entry of `l`. */
  ghost predicate Led(c: Cluster, q: set<nat>, i: nat, t: nat, l: Log) {
    Shape(c) && i in q &&
    (forall p :: p in q ==> p < |c.nodes| && c.nodes[p].term <= t && c.nodes[p].applied < |l| - 1) &&
    c.nodes[i].role == Leader && c.nodes[i].term == t && c.nodes[i].log == l
  }

  predicate Holds(x: Node, l: Log) { l <= x.log }

  /** What every state of a run gives about a leader and a member. */
  lemma InRun(r: Path, reset: bool, q: set<nat>, i: nat, p: nat, t: nat, l: Log)
    requires Good(r, reset) && Led(Now(r), q, i, t, l) && p in q
    ensures var c := Now(r);
            Probing(c.nodes[i], p, c.nodes[p]) && Ordered(l) && Ordered(c.nodes[p].log) && Kin(l, c.nodes[p].log) && Kin(c.nodes[p].log, l) &&
            c.nodes[i].commit < |l| && c.nodes[p].applied <= c.nodes[p].commit < |c.nodes[p].log|
  {
    hide IsRun, TameRun, Ordered, Kin;
    var m := |r.cs| - 1;
    NowHasShape(r, reset);
    NextIndexInRange(r.cs, r.steps, reset, m, i, p);
    RunLogsAreKin(r.cs, r.steps, reset, m, m, i, p);
    RunLogsAreKin(r.cs, r.steps, reset, m, m, p, i);
    CommitInLog(r.cs, r.steps, reset, m, i);
    CommitInLog(r.cs, r.steps, reset, m, p);
  }

  /** A heartbeat of `i` reaches `p`, and the answer comes back. */
  lemma Round(r: Path, reset: bool, q: set<nat>, i: nat, p: nat) returns (u: Path)
    requires Good(r, reset) && i in q && p in q && i != p
    requires i < |Now(r).nodes| && p < |Now(r).nodes| && Probing(Now(r).nodes[i], p, Now(r).nodes[p])
    ensures Good(u, reset) && Continues(r, u, q, false) && Shape(Now(u)) && Now(u).applied == Now(r).applied
    ensures var l, f := Now(r).nodes[i], Now(r).nodes[p];
            Now(u).nodes == Now(r).nodes[p := AppendEntries(f, MakeAppend(l, i, p)).0][i := Answered(l, i, p, f)]
  {
    hide Good, AppendEntries, ReceiveAppend, IsRun, TameRun;
    NowHasShape(r, reset);
    var c := Now(r);
    var args := MakeAppend(c.nodes[i], i, p);
    var reply := AppendEntries(c.nodes[p], args).1;
    var a := Take(r, SendAppend(i, p), reset, q);
    assert AppReq(p, args) in Now(a).msgs;
    var b := Take(a, RecvAppend(p, args), reset, q);
    assert AppResp(p, args, reply) in Now(b).msgs;
    u := Take(b, RecvAppResp(p, args, reply), reset, q);
    ContinuesTrans(r, a, b, q, false);
    ContinuesTrans(r, b, u, q, false);
  }

  /** What the leader does when the follower accepts. */
  lemma LeaderAccepted(l: Node, i: nat, p: nat, f: Node)
    requires Probing(l, p, f) && Reply(l, i, p, f).success
    ensures var m := Answered(l, i, p, f);
            m.role == Leader && m.term == l.term && m.log == l.log && m.applied == l.applied && |m.matched| == |l.matched| &&
            |m.next| == |l.next| && m.matched[p] >= |l.log| - 1 &&
            (forall y :: 0 <= y < |l.matched| ==> m.matched[y] >= l.matched[y]) &&
            m.commit >= l.commit && (Majority(m, i, |l.log| - 1) ==> m.commit >= |l.log| - 1)
  {
    var k := |l.log| - 1;
    LeaderAfter(l, i, p, f);
    hide CommitScan, AppendEntries, MakeAppend, Answered, Majority;
    SameMajority(l.(next := RaisedNext(l, p, k), matched := RaisedMatch(l, p, k)), Answered(l, i, p, f), i, k);
  }

  function RaisedNext(l: Node, p: nat, m: nat): seq<nat>
    requires p < |l.next|
  {
    if m + 1 > l.next[p] then l.next[p := m + 1] else l.next
  }

  function RaisedMatch(l: Node, p: nat, m: nat): seq<nat>
    requires p < |l.matched|
  {
    if m > l.matched[p] then l.matched[p := m] else l.matched
  }

  lemma LeaderAfter(l: Node, i: nat, p: nat, f: Node)
    requires Probing(l, p, f) && Reply(l, i, p, f).success
    ensures var k := |l.log| - 1;
            var n := l.(next := RaisedNext(l, p, k), matched := RaisedMatch(l, p, k));
            Answered(l, i, p, f) == n.(commit := CommitScan(n, i, k))
  {
    TermAnswered(l, i, p, f);
    LastSent(l, i, p);
    hide CommitScan, AppendEntries, MakeAppend;
  }

  lemma LastSent(l: Node, i: nat, p: nat)
    requires p < |l.next| && 1 <= l.next[p] <= |l.log|
    ensures MakeAppend(l, i, p).Last() == |l.log| - 1
  {
  }

  lemma TermAnswered(l: Node, i: nat, p: nat, f: Node)
    requires Probing(l, p, f)
    ensures MakeAppend(l, i, p).term == l.term && Reply(l, i, p, f).term <= l.term
  {
  }

  lemma SameMajority(n: Node, m: Node, i: nat, k: nat)
    requires m == n.(commit := m.commit) && k < |n.log|
    ensures Majority(n, i, k) <==> Majority(m, i, k)
  {
    assert Counted(n, i, k) == Counted(m, i, k);
  }

  /** What the follower does. */
  lemma FollowerAccepted(l: Node, i: nat, p: nat, f: Node)
    requires Probing(l, p, f) && Reply(l, i, p, f).success
    ensures var g := AppendEntries(f, MakeAppend(l, i, p)).0;
            g.term == l.term && g.applied == f.applied && (l.commit < |l.log| ==> g.commit >= l.commit)
  {
    hide Merged;
    assert MakeAppend(l, i, p).Last() == |l.log| - 1;
  }

  /** A follower that accepts has the leader's whole log. */
  lemma GetsLog(r: Path, reset: bool, q: set<nat>, i: nat, p: nat, t: nat, l: Log)
    requires Good(r, reset) && Led(Now(r), q, i, t, l) && p in q && Probing(Now(r).nodes[i], p, Now(r).nodes[p])
    requires Agrees(l, Now(r).nodes[p].log, Now(r).nodes[i].next[p] - 1)
    ensures Holds(AppendEntries(Now(r).nodes[p], MakeAppend(Now(r).nodes[i], i, p)).0, l)
  {
    hide Voted, Retains, CandidateOK, LeaderOK, InvCommit, Merged, TameRun;
    var m := |r.cs| - 1;
    var hs := History(r.cs, r.steps, reset);
    var x, f := Now(r).nodes[i], Now(r).nodes[p];
    assert Inv(r.cs[m], hs[m]);
    assert NodeOK(i, x, hs[m]) && NodeOK(p, f, hs[m]);
    ProbeIsAppendEntries(x, i, p, f);
    AcceptShape(f, MakeAppend(x, i, p));
    MergedIs(f.log, l, hs[m], x.next[p] - 1, |l| - 1);
    assert l[x.next[p]..|l|] == l[x.next[p]..] && l[..|l|] == l;
  }

  /** Apart from `i` and `p` nothing moved, and these two applied nothing. */
  predicate OnlyThese(c: Cluster, d: Cluster, i: nat, p: nat) {
    |d.nodes| == |c.nodes| && d.applied == c.applied &&
    (forall y :: 0 <= y < |c.nodes| ==> d.nodes[y].applied == c.nodes[y].applied) &&
    forall y :: 0 <= y < |c.nodes| && y != i && y != p ==> d.nodes[y] == c.nodes[y]
  }

  /** Heartbeats to `p` until it accepts: then it has the leader's log, and its `matchIndex` says so. */
  lemma {:induction false} CatchUp(r: Path, reset: bool, q: set<nat>, i: nat, p: nat, t: nat, l: Log) returns (u: Path)
    requires Good(r, reset) && Led(Now(r), q, i, t, l) && p in q && p != i
    ensures Good(u, reset) && Continues(r, u, q, false) && Led(Now(u), q, i, t, l) && OnlyThese(Now(r), Now(u), i, p)
    ensures var c, d, k := Now(r), Now(u), |l| - 1;
            Holds(d.nodes[p], l) && d.nodes[p].commit >= c.nodes[i].commit && d.nodes[i].commit >= c.nodes[i].commit &&
            d.nodes[i].matched[p] >= k && (forall y :: 0 <= y < |c.nodes| ==> d.nodes[i].matched[y] >= c.nodes[i].matched[y]) &&
            (Majority(d.nodes[i], i, k) ==> d.nodes[i].commit >= k)
    decreases if p < |Now(r).nodes[i].next| then Now(r).nodes[i].next[p] else 0
  {
    hide Good, AppendEntries, MakeAppend, Answered, Reply, Majority, Ordered, Kin, Agrees;
    NowHasShape(r, reset);
    InRun(r, reset, q, i, p, t, l);
    var x, f := Now(r).nodes[i], Now(r).nodes[p];
    ProbeIsAppendEntries(x, i, p, f);
    u := Round(r, reset, q, i, p);
    if Agrees(l, f.log, x.next[p] - 1) {
      LeaderAccepted(x, i, p, f);
      FollowerAccepted(x, i, p, f);
      GetsLog(r, reset, q, i, p, t, l);
    } else {
      Rejected(x, i, p, f);
      ProbeLowers(x, i, p, f);
      var v := CatchUp(u, reset, q, i, p, t, l);
      ContinuesTrans(r, u, v, q, false);
      u := v;
    }
  }

  lemma Rejected(l: Node, i: nat, p: nat, f: Node)
    requires Probing(l, p, f) && !Reply(l, i, p, f).success
    ensures var g := AppendEntries(f, MakeAppend(l, i, p)).0;
            g.term == l.term && g.applied == f.applied && g.log == f.log
  {
  }

  // -------------------------------------------------------------- all followers

  /** The members in `s` hold the leader's log, and it knows. */
  ghost predicate Held(c: Cluster, i: nat, s: set<nat>, l: Log)
    requires i < |c.nodes|
  {
    forall p :: p in s && p < |c.nodes| ==>
      Holds(c.nodes[p], l) && p < |c.nodes[i].matched| && c.nodes[i].matched[p] >= |l| - 1
  }

  lemma QuorumCounts(c: Cluster, q: set<nat>, i: nat, t: nat, l: Log)
    requires Led(c, q, i, t, l) && IsQuorum(q, |c.nodes|) && Held(c, i, q - {i}, l) && l[|l| - 1].term == t
    ensures Majority(c.nodes[i], i, |l| - 1)
  {
    var n, k := c.nodes[i], |l| - 1;
    var s := Counted(n, i, k);
    forall p | p in q - {i}
      ensures p in s
    {
    }
    Fewer(q - {i}, s);
    assert |q - {i}| == |q| - 1;
  }

  /** Catch up the members in `s`, one after the other; with the last of them the leader commits. */
  lemma {:induction false} CatchUpAll(r: Path, reset: bool, q: set<nat>, i: nat, done: set<nat>, s: set<nat>, t: nat, l: Log)
    returns (u: Path)
    requires Good(r, reset) && Led(Now(r), q, i, t, l) && IsQuorum(q, |Now(r).nodes|) && l[|l| - 1].term == t
    requires done + s == q - {i} && Held(Now(r), i, done, l) && (s == {} ==> Now(r).nodes[i].commit >= |l| - 1)
    ensures Good(u, reset) && Continues(r, u, q, false) && Led(Now(u), q, i, t, l) && Held(Now(u), i, q - {i}, l)
    ensures Now(u).nodes[i].commit >= |l| - 1 && Now(u).applied == Now(r).applied && |Now(u).nodes| == |Now(r).nodes|
    decreases |s|
  {
    hide Good, Majority, Held, Led, IsQuorum, Continues, Holds;
    if s == {} {
      u := r;
      ContinuesSelf(r, q, false);
      assert done == q - {i};
    } else {
      var p :| p in s;
      assert p in done + s && i !in done + s;
      NowHasShape(r, reset);
      InQuorum(Now(r), q, i, p, t, l);
      var a := CatchUp(r, reset, q, i, p, t, l);
      NowHasShape(a, reset);
      InQuorum(Now(a), q, i, p, t, l);
      HeldMore(Now(r), Now(a), i, p, done, l);
      assert done + {p} + (s - {p}) == done + s;
      if s == {p} {
        assert done + {p} == q - {i};
        QuorumCounts(Now(a), q, i, t, l);
      }
      u := CatchUpAll(a, reset, q, i, done + {p}, s - {p}, t, l);
      ContinuesTrans(r, a, u, q, false);
    }
  }

  lemma InQuorum(c: Cluster, q: set<nat>, i: nat, p: nat, t: nat, l: Log)
    requires Led(c, q, i, t, l) && p in q
    ensures Shape(c) && i < |c.nodes| && p < |c.nodes| && i in q
    ensures |c.nodes[i].matched| == |c.nodes[i].next| == |c.nodes|
  {
  }

  lemma HeldMore(c: Cluster, d: Cluster, i: nat, p: nat, s: set<nat>, l: Log)
    requires i < |c.nodes| && p < |c.nodes| && OnlyThese(c, d, i, p) && Held(c, i, s, l) && i !in s
    requires |d.nodes[i].matched| == |c.nodes[i].matched| == |c.nodes|
    requires forall y :: 0 <= y < |c.nodes| ==> d.nodes[i].matched[y] >= c.nodes[i].matched[y]
    requires Holds(d.nodes[p], l) && d.nodes[i].matched[p] >= |l| - 1
    ensures Held(d, i, s + {p}, l)
  {
  }

  /** Once the leader has committed, one more heartbeat tells each member. */
  lemma {:induction false} TellAll(r: Path, reset: bool, q: set<nat>, i: nat, s: set<nat>, t: nat, l: Log) returns (u: Path)
    requires Good(r, reset) && Led(Now(r), q, i, t, l) && Now(r).nodes[i].commit >= |l| - 1 && s <= q - {i}
    requires forall p :: p in q - s ==> Holds(Now(r).nodes[p], l) && Now(r).nodes[p].commit >= |l| - 1
    ensures Good(u, reset) && Continues(r, u, q, false) && Led(Now(u), q, i, t, l) && |Now(u).nodes| == |Now(r).nodes|
    ensures forall p :: p in q ==> Holds(Now(u).nodes[p], l) && Now(u).nodes[p].commit >= |l| - 1
    ensures Now(u).applied == Now(r).applied
    decreases |s|
  {
    hide Good, Majority;
    if s == {} {
      u := r;
      ContinuesSelf(r, q, false);
    } else {
      var p :| p in s;
      var a := CatchUp(r, reset, q, i, p, t, l);
      u := TellAll(a, reset, q, i, s - {p}, t, l);
      ContinuesTrans(r, a, u, q, false);
    }
  }

  // ------------------------------------------------------------------- applying

  lemma ApplyDoes(c: Cluster, x: nat, reset: bool)
    requires Shape(c) && x < |c.nodes| && c.nodes[x].applied < c.nodes[x].commit < |c.nodes[x].log|
    ensures Enabled(c, Apply(x)) && Tame(c, Apply(x), reset) && Actor(Apply(x)) == x
    ensures var d, k := Do(c, Apply(x), reset), c.nodes[x].applied + 1;
            d.nodes == c.nodes[x := c.nodes[x].(applied := k)] && c.applied <= d.applied &&
            Applied(x, k, c.nodes[x].log[k].cmd) in d.applied
  {
  }

  /** Peer `x` applies what it has committed, up to the last entry of `l`. */
  lemma {:induction false} ApplyUp(r: Path, reset: bool, q: set<nat>, x: nat, l: Log) returns (u: Path)
    requires Good(r, reset) && x in q && x < |Now(r).nodes| && Holds(Now(r).nodes[x], l)
    requires Now(r).nodes[x].applied < |l| - 1 <= Now(r).nodes[x].commit
    ensures Good(u, reset) && Continues(r, u, q, false) && Now(r).applied <= Now(u).applied && |Now(u).nodes| == |Now(r).nodes|
    ensures HasApplied(Now(u), x, l)
    ensures forall y :: 0 <= y < |Now(r).nodes| && y != x ==> Now(u).nodes[y] == Now(r).nodes[y]
    decreases |l| - Now(r).nodes[x].applied
  {
    hide Good, Do, Enabled, Tame;
    NowHasShape(r, reset);
    InLog(r, reset, x);
    ApplyDoes(Now(r), x, reset);
    u := Take(r, Apply(x), reset, q);
    if Now(u).nodes[x].applied < |l| - 1 {
      var v := ApplyUp(u, reset, q, x, l);
      ContinuesTrans(r, u, v, q, false);
      u := v;
    }
  }

  lemma InLog(r: Path, reset: bool, x: nat)
    requires Good(r, reset) && x < |Now(r).nodes|
    ensures Now(r).nodes[x].applied <= Now(r).nodes[x].commit < |Now(r).nodes[x].log|
  {
    CommitInLog(r.cs, r.steps, reset, |r.cs| - 1, x);
  }

  /** `x` has applied the last entry of `l`. */
  ghost predicate HasApplied(c: Cluster, x: nat, l: Log) {
    x < |c.nodes| && c.nodes[x].applied >= |l| - 1 && Applied(x, |l| - 1, l[|l| - 1].cmd) in c.applied
  }

  ghost predicate WillApply(c: Cluster, x: nat, l: Log) {
    x < |c.nodes| && Holds(c.nodes[x], l) && c.nodes[x].applied < |l| - 1 <= c.nodes[x].commit
  }

  lemma {:induction false} ApplyAll(r: Path, reset: bool, q: set<nat>, done: set<nat>, s: set<nat>, l: Log) returns (u: Path)
    requires Good(r, reset) && done + s == q
    requires (forall x :: x in s ==> WillApply(Now(r), x, l)) && forall x :: x in done ==> HasApplied(Now(r), x, l)
    ensures Good(u, reset) && Continues(r, u, q, false) && forall x :: x in q ==> HasApplied(Now(u), x, l)
    decreases |s|
  {
    hide Good, Continues;
    if s == {} {
      u := r;
      ContinuesSelf(r, q, false);
    } else {
      var x :| x in s;
      NowHasShape(r, reset);
      assert x in done + s && WillApply(Now(r), x, l);
      var a := ApplyUp(r, reset, q, x, l);
      assert done + {x} + (s - {x}) == done + s;
      NowHasShape(a, reset);
      forall y | y in s - {x}
        ensures WillApply(Now(a), y, l)
      {
        assert WillApply(Now(r), y, l);
      }
      forall y | y in done + {x}
        ensures HasApplied(Now(a), y, l)
      {
        assert y != x ==> HasApplied(Now(r), y, l);
      }
      u := ApplyAll(a, reset, q, done + {x}, s - {x}, l);
      ContinuesTrans(r, a, u, q, false);
    }
  }

  // --------------------------------------------------------------- the theorem

  /** The last term and index of `x` are at least those of `y`. */
  predicate AsNew(x: Node, y: Node) {
    x.LastTerm() > y.LastTerm() || (x.LastTerm() == y.LastTerm() && x.LastIndex() >= y.LastIndex())
  }

  lemma {:induction false} NewestLog(c: Cluster, q: set<nat>) returns (i: nat)
    requires q != {} && forall p :: p in q ==> p < |c.nodes|
    ensures i in q && forall p :: p in q ==> AsNew(c.nodes[i], c.nodes[p])
    decreases |q|
  {
    i :| i in q;
    if q != {i} {
      var j := NewestLog(c, q - {i});
      if AsNew(c.nodes[j], c.nodes[i]) {
        i := j;
      }
    }
  }

  lemma {:induction false} GreatestTerm(c: Cluster, q: set<nat>) returns (t: nat)
    requires forall p :: p in q ==> p < |c.nodes|
    ensures forall p :: p in q ==> c.nodes[p].term <= t
    decreases |q|
  {
    t := 0;
    if q != {} {
      var p :| p in q;
      t := GreatestTerm(c, q - {p});
      if t < c.nodes[p].term {
        t := c.nodes[p].term;
      }
    }
  }

  /** A restart clears `matchIndex`, and keeps the log. */
  lemma RestartDoes(c: Cluster, i: nat, reset: bool)
    requires Shape(c) && i < |c.nodes| && c.nodes[i].Synced()
    ensures Enabled(c, Restart(i)) && Tame(c, Restart(i), reset) && Actor(Restart(i)) == i
    ensures var d := Do(c, Restart(i), reset);
            |d.nodes| == |c.nodes| && WithinLog(d.nodes[i]) && d.nodes[i].log == c.nodes[i].log &&
            d.nodes[i].term == c.nodes[i].term && d.applied == c.applied && d.nodes[i].commit == d.nodes[i].applied == 0 &&
            forall y :: 0 <= y < |c.nodes| && y != i ==> d.nodes[y] == c.nodes[y]
  {
  }

  /** The candidate restarts first if that is what makes its win tame. */
  lemma Prepare(r: Path, reset: bool, q: set<nat>, i: nat) returns (u: Path)
    requires Good(r, reset) && i in q && i < |Now(r).nodes|
    ensures Good(u, reset) && Continues(r, u, q, true) && |Now(u).nodes| == |Now(r).nodes| && Now(u).applied == Now(r).applied
    ensures reset || WithinLog(Now(u).nodes[i])
    ensures forall y :: 0 <= y < |Now(r).nodes| ==>
              Now(u).nodes[y].log == Now(r).nodes[y].log && Now(u).nodes[y].term == Now(r).nodes[y].term &&
              Now(u).nodes[y].applied <= Now(r).nodes[y].applied && Now(u).nodes[y].commit <= Now(r).nodes[y].commit
  {
    u := r;
    ContinuesSelf(r, q, true);
    if !reset && !WithinLog(Now(r).nodes[i]) {
      AlwaysDurable(r.cs, r.steps, reset, |r.cs| - 1, i);
      NowHasShape(r, reset);
      RestartDoes(Now(r), i, reset);
      hide Do, Enabled, Good, Tame, WithinLog;
      u := Take(r, Restart(i), reset, q);
    }
  }

  lemma AllWillGrant(c: Cluster, q: set<nat>, i: nat)
    requires i in q && Asks(c, i)
    requires forall p :: p in q ==> p < |c.nodes| && AsNew(c.nodes[i], c.nodes[p])
    requires forall p :: p in q && p != i ==> c.nodes[p].term < c.nodes[i].term
    ensures AllGrant(c, i, q - {i})
  {
  }

  /** The members' newest log wins an election in a term beyond all of theirs. */
  lemma ElectNewest(r: Path, reset: bool, q: set<nat>) returns (u: Path, i: nat)
    requires Good(r, reset) && IsQuorum(q, |Now(r).nodes|)
    ensures Good(u, reset) && Continues(r, u, q, true) && |Now(u).nodes| == |Now(r).nodes| && Now(u).applied == Now(r).applied
    ensures i in q && Now(u).nodes[i].role == Leader
    ensures forall p :: p in q ==>
              Now(r).nodes[p].term < Now(u).nodes[i].term && Now(u).nodes[p].term <= Now(u).nodes[i].term &&
              Now(u).nodes[p].applied <= Now(r).nodes[p].applied
  {
    hide Good, Asks, AsNew, AllGrant, Continues, WithinLog;
    NowHasShape(r, reset);
    var n := |Now(r).nodes|;
    i := NewestLog(Now(r), q);
    var t := GreatestTerm(Now(r), q);
    var a := Prepare(r, reset, q, i);
    var b := Campaign(a, reset, q, i, t);
    NowHasShape(a, reset);
    NowHasShape(b, reset);
    StillNewest(Now(r), Now(b), q, i);
    StillWithin(Now(a), Now(b), i);
    AllWillGrant(Now(b), q, i);
    assert |q - {i}| == |q| - 1;
    Candidates(Now(b), i);
    u := Collect(b, reset, q, i, q - {i});
    ContinuesFreely(a, b, q);
    ContinuesFreely(b, u, q);
    ContinuesTrans(r, a, b, q, true);
    ContinuesTrans(r, b, u, q, true);
  }

  lemma Candidates(c: Cluster, i: nat)
    requires Asks(c, i)
    ensures i < |c.nodes| && c.nodes[i].role == Candidate
  {
  }

  lemma StillNewest(c: Cluster, d: Cluster, q: set<nat>, i: nat)
    requires i in q && |d.nodes| == |c.nodes| && forall p :: p in q ==> p < |c.nodes|
    requires forall p :: p in q ==> AsNew(c.nodes[i], c.nodes[p])
    requires forall y :: 0 <= y < |c.nodes| ==> d.nodes[y].log == c.nodes[y].log
    ensures forall p :: p in q ==> AsNew(d.nodes[i], d.nodes[p])
  {
    forall p | p in q
      ensures AsNew(d.nodes[i], d.nodes[p])
    {
      assert AsNew(c.nodes[i], c.nodes[p]);
    }
  }

  lemma StillWithin(c: Cluster, d: Cluster, i: nat)
    requires i < |c.nodes| && i < |d.nodes| && d.nodes[i].matched == c.nodes[i].matched && d.nodes[i].log == c.nodes[i].log
    ensures WithinLog(c.nodes[i]) ==> WithinLog(d.nodes[i])
  {
  }

  /** What the members had committed before the election is in the winner's log. */
  lemma WinnerHas(r: Path, u: Path, reset: bool, q: set<nat>, i: nat, p: nat)
    requires Good(r, reset) && Good(u, reset) && r.cs <= u.cs && i < |Now(u).nodes| && p < |Now(r).nodes|
    requires Now(u).nodes[i].role == Leader && Now(r).nodes[p].term < Now(u).nodes[i].term
    ensures Now(r).nodes[p].applied <= Now(r).nodes[p].commit < |Now(u).nodes[i].log|
  {
    var j := |r.cs| - 1;
    assert u.cs[j] == r.cs[j];
    InLog(r, reset, p);
    LeaderCompleteness(u.cs, u.steps, reset, j, |u.cs| - 1, p, i);
  }

  lemma ClientReqDoes(c: Cluster, i: nat, cmd: Command, reset: bool)
    requires Shape(c) && i < |c.nodes| && c.nodes[i].role == Leader
    ensures Enabled(c, ClientReq(i, cmd)) && Tame(c, ClientReq(i, cmd), reset) && Actor(ClientReq(i, cmd)) == i
    ensures var x, d := c.nodes[i], Do(c, ClientReq(i, cmd), reset);
            |d.nodes| == |c.nodes| && d.applied == c.applied && d.nodes[i].log == x.log + [Entry(x.term, cmd)] &&
            d.nodes[i].term == x.term && d.nodes[i].role == Leader && d.nodes[i].applied == x.applied &&
            forall y :: 0 <= y < |c.nodes| && y != i ==> d.nodes[y] == c.nodes[y]
  {
  }

  /** A majority elects a leader, which takes the command at an index that no member has applied. */
  lemma Propose(r: Path, reset: bool, q: set<nat>, cmd: Command) returns (a: Path, u: Path, i: nat, l: Log)
    requires Good(r, reset) && IsQuorum(q, |Now(r).nodes|)
    ensures Good(a, reset) && Continues(r, a, q, true) && |Now(a).nodes| == |Now(r).nodes|
    ensures i in q && Now(a).nodes[i].role == Leader && Now(a).nodes[i].log == l[..|l| - 1]
    ensures Good(u, reset) && u == Path(a.cs + [Now(u)], a.steps + [ClientReq(i, cmd)]) && |Now(u).nodes| == |Now(r).nodes|
    ensures |l| > 1 && l[|l| - 1].cmd == cmd && Led(Now(u), q, i, l[|l| - 1].term, l)
    ensures forall p :: p in q ==> Now(r).nodes[p].applied < |l| - 1
  {
    hide Good, Do, Enabled, Tame;
    NowHasShape(r, reset);
    a, i := ElectNewest(r, reset, q);
    NowHasShape(a, reset);
    forall p | p in q
      ensures Now(r).nodes[p].applied < |Now(a).nodes[i].log|
    {
      WinnerHas(r, a, reset, q, i, p);
    }
    ClientReqDoes(Now(a), i, cmd, reset);
    u := Take(a, ClientReq(i, cmd), reset, q);
    l := Now(u).nodes[i].log;
  }

  /** From there the leader replicates, commits, and all members apply. */
  lemma Finish(a: Path, reset: bool, q: set<nat>, i: nat, l: Log) returns (d: Path)
    requires Good(a, reset) && IsQuorum(q, |Now(a).nodes|) && Led(Now(a), q, i, l[|l| - 1].term, l)
    ensures Good(d, reset) && Continues(a, d, q, false) && forall p :: p in q ==> HasApplied(Now(d), p, l)
  {
    hide Good, Held, Led, WillApply;
    NowHasShape(a, reset);
    var t := l[|l| - 1].term;
    Leads(Now(a), q, i, t, l);
    NothingHeld(Now(a), i, l);
    SomeOther(q, |Now(a).nodes|, i);
    assert {} + (q - {i}) == q - {i};
    var b := CatchUpAll(a, reset, q, i, {}, q - {i}, t, l);
    NowHasShape(b, reset);
    Leads(Now(b), q, i, t, l);
    var c := TellAll(b, reset, q, i, q - {i}, t, l);
    NowHasShape(c, reset);
    ReadyToApply(Now(c), q, i, t, l);
    assert {} + q == q;
    d := ApplyAll(c, reset, q, {}, q, l);
    ContinuesTrans(a, b, c, q, false);
    ContinuesTrans(a, c, d, q, false);
  }

  lemma ReadyToApply(c: Cluster, q: set<nat>, i: nat, t: nat, l: Log)
    requires Led(c, q, i, t, l) && forall p :: p in q ==> Holds(c.nodes[p], l) && c.nodes[p].commit >= |l| - 1
    ensures forall p :: p in q ==> WillApply(c, p, l)
  {
  }

  lemma NothingHeld(c: Cluster, i: nat, l: Log)
    requires i < |c.nodes|
    ensures Held(c, i, {}, l)
  {
  }

  lemma SomeOther(q: set<nat>, n: nat, i: nat)
    requires IsQuorum(q, n) && n >= 2 && i in q
    ensures q - {i} != {}
  {
    assert |q - {i}| == |q| - 1;
  }

  /** Progress: from every state of a run, a majority can go on by itself (no other peer takes a step)
      so that each of its members applies the command, at an index that none of them had reached.
      The protocol is never stuck, and never needs more than a majority. */
  lemma MajorityProgress(cs: seq<Cluster>, steps: seq<Step>, reset: bool, q: set<nat>, cmd: Command)
    returns (ds: seq<Cluster>, ss: seq<Step>, k: nat)
    requires |cs| > 0 && IsRun(cs, steps, reset) && TameRun(cs, steps, reset) && IsQuorum(q, |cs[|cs| - 1].nodes|)
    ensures IsRun(ds, ss, reset) && TameRun(ds, ss, reset) && cs <= ds && steps <= ss
    ensures forall m :: |steps| <= m < |ss| ==> Actor(ss[m]) in q
    ensures forall p :: p in q ==> cs[|cs| - 1].nodes[p].applied < k && Applied(p, k, cmd) in ds[|ds| - 1].applied
  {
    hide IsRun, TameRun, Led;
    var r := Path(cs, steps);
    NowHasShape(r, reset);
    var a, u, i, l := Propose(r, reset, q, cmd);
    var d := Finish(u, reset, q, i, l);
    ds, ss, k := d.cs, d.steps, |l| - 1;
    forall m | |steps| <= m < |ss|
      ensures Actor(ss[m]) in q
    {
      if m < |a.steps| {
        assert Among(a.steps[m], q, true) && ss[m] == a.steps[m];
      } else if m == |a.steps| {
        assert ss[m] == u.steps[m] == ClientReq(i, cmd);
      } else {
        assert Among(ss[m], q, false);
      }
    }
    forall p | p in q
      ensures Applied(p, k, cmd) in ds[|ds| - 1].applied
    {
      assert HasApplied(Now(d), p, l);
    }
  }

  lemma Leads(c: Cluster, q: set<nat>, i: nat, t: nat, l: Log)
    requires Led(c, q, i, t, l)
    ensures i in q && (forall p :: p in q ==> p < |c.nodes|) && Holds(c.nodes[i], l)
  {
  }
}
