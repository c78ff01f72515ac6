/** What every run of the cluster guarantees. `reset == false` is the code as written;
    theorems about commitment ask for tame runs. */
module RaftSafety {
  import opened Ops
  import opened RaftNode
  import opened RaftCluster
  import opened RaftInv
  import opened RaftFrame
  import opened RaftReplication
  import opened RaftCommit

  /** No peer of the run wins while an entry of its `matchIndex` reaches beyond its log; with the
      reset every run is tame. */
  ghost predicate TameRun(cs: seq<Cluster>, steps: seq<Step>, reset: bool)
    requires IsRun(cs, steps, reset)
  {
    forall i {:trigger steps[i]} :: 0 <= i < |steps| ==> Tame(cs[i], steps[i], reset)
  }

  ghost predicate Explains(cs: seq<Cluster>, hs: seq<Hist>, tame: bool) {
    |hs| == |cs| &&
    (forall i {:trigger hs[i]} :: 0 <= i < |cs| ==> Inv(cs[i], hs[i]) && (tame ==> InvCommit(cs[i], hs[i]))) &&
    forall i, j {:trigger Extends(hs[i], hs[j])} :: 0 <= i <= j < |hs| ==> Extends(hs[i], hs[j])
  }

  lemma ExtendsChain(h: Hist, g: Hist, f: Hist)
    requires Extends(h, g) && Extends(g, f)
    ensures Extends(h, f)
  {
    forall t, k | t in h.logs && t in f.logs && |h.logs[t]| <= k < |f.logs[t]|
      ensures f.logs[t][k].term == t
    {
      if k < |g.logs[t]| {
        assert g.logs[t][k] == f.logs[t][k];
      }
    }
  }

  /** Every run has a history that satisfies the invariant at every point. */
  lemma {:induction false} History(cs: seq<Cluster>, steps: seq<Step>, reset: bool) returns (hs: seq<Hist>)
    requires IsRun(cs, steps, reset)
    ensures Explains(cs, hs, TameRun(cs, steps, reset))
    decreases |steps|
  {
    if steps == [] {
      var n := |cs[0].nodes|;
      InitOK(n);
      assert InvCommit(cs[0], InitHist(n));
      hs := [InitHist(n)];
    } else {
      var m := |steps| - 1;
      var tame := TameRun(cs, steps, reset);
      RunPrefix(cs, steps, reset);
      var pre := History(cs[..m + 1], steps[..m], reset);
      assert Inv(cs[..m + 1][m], pre[m]) && (tame ==> InvCommit(cs[..m + 1][m], pre[m]));
      assert tame ==> Tame(cs[m], steps[m], reset);
      var g := OneStep(cs[m], pre[m], steps[m], reset);
      hs := pre + [g];
      GrowthExtends(pre[m], g, Actor(steps[m]));
      MoreHistory(cs, pre, g, tame);
    }
  }

  /** A run goes on by one step. */
  lemma RunMore(cs: seq<Cluster>, steps: seq<Step>, s: Step, reset: bool)
    requires IsRun(cs, steps, reset) && TameRun(cs, steps, reset) && |cs| > 0
    requires Enabled(cs[|cs| - 1], s) && Tame(cs[|cs| - 1], s, reset)
    ensures IsRun(cs + [Do(cs[|cs| - 1], s, reset)], steps + [s], reset)
    ensures TameRun(cs + [Do(cs[|cs| - 1], s, reset)], steps + [s], reset)
  {
    hide Enabled, Do, Tame;
    var ds, ts := cs + [Do(cs[|cs| - 1], s, reset)], steps + [s];
    DoKeepsShape(cs[|cs| - 1], s, reset);
    forall i {:trigger ts[i]} | 0 <= i < |ts|
      ensures Enabled(ds[i], ts[i]) && ds[i + 1] == Do(ds[i], ts[i], reset) && Tame(ds[i], ts[i], reset)
    {
      if i < |steps| {
        assert ts[i] == steps[i];
      }
    }
  }

  lemma RunPrefix(cs: seq<Cluster>, steps: seq<Step>, reset: bool)
    requires IsRun(cs, steps, reset) && steps != []
    ensures IsRun(cs[..|steps|], steps[..|steps| - 1], reset)
    ensures TameRun(cs, steps, reset) ==> TameRun(cs[..|steps|], steps[..|steps| - 1], reset)
  {
    var ds, ts := cs[..|steps|], steps[..|steps| - 1];
    forall i {:trigger ts[i]} | 0 <= i < |ts|
      ensures Enabled(ds[i], ts[i]) && ds[i + 1] == Do(ds[i], ts[i], reset)
      ensures TameRun(cs, steps, reset) ==> Tame(ds[i], ts[i], reset)
    {
      assert ts[i] == steps[i];
    }
  }

  lemma GrowthExtends(h: Hist, g: Hist, a: nat)
    requires Grows(h, g, a) && OwnTails(h, g)
    ensures Extends(h, g)
  {
  }

  lemma MoreHistory(cs: seq<Cluster>, pre: seq<Hist>, g: Hist, tame: bool)
    requires |pre| > 0 && |cs| == |pre| + 1 && Explains(cs[..|pre|], pre, tame)
    requires Extends(pre[|pre| - 1], g) && Inv(cs[|pre|], g) && (tame ==> InvCommit(cs[|pre|], g))
    ensures Explains(cs, pre + [g], tame)
  {
    var hs, m := pre + [g], |pre| - 1;
    forall i {:trigger hs[i]} | 0 <= i < |cs|
      ensures Inv(cs[i], hs[i]) && (tame ==> InvCommit(cs[i], hs[i]))
    {
      if i < |pre| {
        assert Inv(cs[..|pre|][i], pre[i]);
      }
    }
    forall i, j | 0 <= i <= j < |hs|
      ensures Extends(hs[i], hs[j])
    {
      if j < |pre| {
        assert Extends(pre[i], pre[j]);
      } else if i < |pre| {
        assert Extends(pre[i], pre[m]);
        ExtendsChain(pre[i], pre[m], g);
      }
    }
  }

  // ----------------------------------------------------------------- as written

  /** Election Safety, across crashes: two leaders of one term, at any two moments, are one peer. */
  lemma ElectionSafety(cs: seq<Cluster>, steps: seq<Step>, reset: bool, i: nat, j: nat, x: nat, y: nat)
    requires IsRun(cs, steps, reset) && i < |cs| && j < |cs|
    requires x < |cs[i].nodes| && y < |cs[j].nodes|
    requires cs[i].nodes[x].role == Leader && cs[j].nodes[y].role == Leader
    requires cs[i].nodes[x].term == cs[j].nodes[y].term
    ensures x == y
  {
    var hs := History(cs, steps, reset);
    var m := |cs| - 1;
    assert Inv(cs[i], hs[i]) && Inv(cs[j], hs[j]);
    assert NodeOK(x, cs[i].nodes[x], hs[i]) && NodeOK(y, cs[j].nodes[y], hs[j]);
    assert Extends(hs[i], hs[m]) && Extends(hs[j], hs[m]);
  }

  /** `votecount` is the number of distinct peers whose vote for this candidate is still on
      record: each has moved to a later term or durably votes for it in this term. */
  lemma VotesAreDistinctPeers(cs: seq<Cluster>, steps: seq<Step>, reset: bool, i: nat, x: nat)
      returns (voters: set<nat>)
    requires IsRun(cs, steps, reset) && i < |cs| && x < |cs[i].nodes| && cs[i].nodes[x].role == Candidate
    ensures |voters| == cs[i].nodes[x].votes && x in voters
    ensures forall w :: w in voters ==>
              w < |cs[i].nodes| &&
              var d := cs[i].nodes[w].Durable();
              d.term > cs[i].nodes[x].term || (d.term == cs[i].nodes[x].term && d.vote == x)
  {
    var hs := History(cs, steps, reset);
    assert Inv(cs[i], hs[i]);
    assert NodeOK(x, cs[i].nodes[x], hs[i]);
    voters := hs[i].counted[x];
    forall w | w in voters
      ensures w < |cs[i].nodes|
      ensures var d := cs[i].nodes[w].Durable();
              d.term > cs[i].nodes[x].term || (d.term == cs[i].nodes[x].term && d.vote == x)
    {
      assert NodeOK(w, cs[i].nodes[w], hs[i]);
    }
  }

  /** At every release of the lock the file holds the term, vote and log in memory. */
  lemma AlwaysDurable(cs: seq<Cluster>, steps: seq<Step>, reset: bool, i: nat, x: nat)
    requires IsRun(cs, steps, reset) && i < |cs| && x < |cs[i].nodes|
    ensures cs[i].nodes[x].Synced()
  {
    var hs := History(cs, steps, reset);
    assert Inv(cs[i], hs[i]);
    assert NodeOK(x, cs[i].nodes[x], hs[i]);
  }

  lemma GroundedLater(log: Log, h: Hist, g: Hist)
    requires Extends(h, g) && Grounded(log, h)
    ensures Grounded(log, g)
  {
    GroundedGrows(log, h, g);
  }

  /** Log Matching, for any two logs at any two moments of a run. */
  lemma LogMatching(cs: seq<Cluster>, steps: seq<Step>, reset: bool, i: nat, j: nat, x: nat, y: nat, k: nat)
    requires IsRun(cs, steps, reset) && i < |cs| && j < |cs|
    requires x < |cs[i].nodes| && y < |cs[j].nodes|
    requires var a, b := cs[i].nodes[x].log, cs[j].nodes[y].log;
             k < |a| && k < |b| && a[k].term == b[k].term
    ensures cs[i].nodes[x].log[..k + 1] == cs[j].nodes[y].log[..k + 1]
  {
    var hs := History(cs, steps, reset);
    var m := |cs| - 1;
    assert Inv(cs[i], hs[i]) && Inv(cs[j], hs[j]);
    assert NodeOK(x, cs[i].nodes[x], hs[i]) && NodeOK(y, cs[j].nodes[y], hs[j]);
    assert Extends(hs[i], hs[m]) && Extends(hs[j], hs[m]);
    GroundedLater(cs[i].nodes[x].log, hs[i], hs[m]);
    GroundedLater(cs[j].nodes[y].log, hs[j], hs[m]);
    SamePrefix(cs[i].nodes[x].log, cs[j].nodes[y].log, hs[m], k);
  }

  /** Terms never decrease along a log and never exceed the peer's own term. */
  lemma TermsNeverDecrease(cs: seq<Cluster>, steps: seq<Step>, reset: bool, i: nat, x: nat, k: nat, l: nat)
    requires IsRun(cs, steps, reset) && i < |cs| && x < |cs[i].nodes|
    requires k <= l < |cs[i].nodes[x].log|
    ensures cs[i].nodes[x].log[k].term <= cs[i].nodes[x].log[l].term <= cs[i].nodes[x].term
  {
    var hs := History(cs, steps, reset);
    assert Inv(cs[i], hs[i]);
    assert NodeOK(x, cs[i].nodes[x], hs[i]);
    TermsSorted(cs[i].nodes[x].log, hs[i], |cs[i].nodes|, k, l);
  }

  /** A leader never slices its log out of range when it builds a heartbeat. */
  lemma NextIndexInRange(cs: seq<Cluster>, steps: seq<Step>, reset: bool, i: nat, x: nat, p: nat)
    requires IsRun(cs, steps, reset) && i < |cs| && x < |cs[i].nodes| && p < |cs[i].nodes|
    requires cs[i].nodes[x].role == Leader
    ensures p < |cs[i].nodes[x].next| && 1 <= cs[i].nodes[x].next[p] <= |cs[i].nodes[x].log|
  {
    var hs := History(cs, steps, reset);
    assert Inv(cs[i], hs[i]);
    assert NodeOK(x, cs[i].nodes[x], hs[i]);
  }

  // ----------------------------------------------------------------- tame runs

  /** A committed prefix is in a log of term `v` at every moment of its leader, also before the
      commit: only entries of term `v` came later. */
  lemma CommittedBefore(h: Hist, g: Hist, n: nat, p: seq<Entry>, u: nat, v: nat)
    requires Tables(g, n) && AllInherit(g) && CommitsOK(g, n) && Extends(h, g)
    requires Covered(g, p, u) && u < v && v in h.logs && (|p| > 0 ==> p[0] == Sentinel)
    ensures p <= h.logs[v]
  {
    CommittedInLeader(g, n, p, u, v);
    CoveredTerms(g, n, p, u);
    var e := if |h.logs[v]| < |p| then |h.logs[v]| else 0;
    assert p == [] || p[e] == g.logs[v][e];
  }

  lemma CoveredTerms(h: Hist, n: nat, p: seq<Entry>, u: nat)
    requires Tables(h, n) && Covered(h, p, u) && (|p| > 0 ==> p[0] == Sentinel)
    ensures forall e :: 0 <= e < |p| ==> p[e].term <= u
  {
    if |p| > 1 {
      var t: nat, k: nat :| t <= u && CoveredBy(h, p, t, k);
      assert TermOK(h, t);
      forall e | 0 <= e < |p|
        ensures p[e].term <= u
      {
        assert p[e] == h.logs[t][..k + 1][e] == h.logs[t][e];
      }
    }
  }

  /** Leader Completeness: what a peer has committed is in the log of every leader of a later
      term, at every moment, before or after. */
  lemma LeaderCompleteness(cs: seq<Cluster>, steps: seq<Step>, reset: bool, i: nat, j: nat, x: nat, y: nat)
    requires IsRun(cs, steps, reset) && TameRun(cs, steps, reset) && i < |cs| && j < |cs|
    requires x < |cs[i].nodes| && y < |cs[j].nodes|
    requires cs[j].nodes[y].role == Leader && cs[j].nodes[y].term > cs[i].nodes[x].term
    ensures cs[i].nodes[x].commit < |cs[i].nodes[x].log|
    ensures cs[i].nodes[x].log[..cs[i].nodes[x].commit + 1] <= cs[j].nodes[y].log
  {
    hide Voted, Retains, CandidateOK, Covered, LeaderMatches, OutputOK, MsgCommit, VoteOK, Inherits, MsgOK;
    var hs := History(cs, steps, reset);
    var m := |cs| - 1;
    var a, b, n := cs[i].nodes[x], cs[j].nodes[y], |cs[m].nodes|;
    assert Inv(cs[i], hs[i]) && Inv(cs[j], hs[j]) && Inv(cs[m], hs[m]);
    assert InvCommit(cs[i], hs[i]) && InvCommit(cs[m], hs[m]);
    assert NodeOK(x, a, hs[i]) && NodeOK(y, b, hs[j]) && NodeCommit(x, a, hs[i]);
    assert Extends(hs[i], hs[m]) && Extends(hs[j], hs[m]);
    CoveredLater(hs[i], hs[m], a.log[..a.commit + 1], a.term);
    CommittedBefore(hs[j], hs[m], n, a.log[..a.commit + 1], a.term, b.term);
  }

  lemma CoveredLater(h: Hist, g: Hist, p: seq<Entry>, u: nat)
    requires Extends(h, g) && Covered(h, p, u)
    ensures Covered(g, p, u)
  {
    if |p| > 1 {
      var t: nat, k: nat :| t <= u && CoveredBy(h, p, t, k);
      assert g.logs[t][..k + 1] == h.logs[t][..k + 1] && g.logs[t][k] == h.logs[t][k];
      assert CoveredBy(g, p, t, k);
    }
  }

  /** State Machine Safety: no two peers ever apply different commands at the same index,
      in any run with lost, delayed and reordered messages, crashes and restarts. */
  lemma StateMachineSafety(cs: seq<Cluster>, steps: seq<Step>, reset: bool, i: nat, o: Applied, p: Applied)
    requires IsRun(cs, steps, reset) && TameRun(cs, steps, reset) && i < |cs|
    requires o in cs[i].applied && p in cs[i].applied && o.index == p.index
    ensures o.cmd == p.cmd
  {
    var hs := History(cs, steps, reset);
    var h, n := hs[i], |cs[i].nodes|;
    assert Inv(cs[i], h) && InvCommit(cs[i], h);
    assert OutputOK(o, h) && OutputOK(p, h);
    var t: nat, k: nat :| CommittedAt(h, t, k, o.index, o.cmd);
    var u: nat, l: nat :| CommittedAt(h, u, l, p.index, p.cmd);
    CommitsAgree(h, n, t, k, u, l, o.index);
  }

  lemma CommitInLog(cs: seq<Cluster>, steps: seq<Step>, reset: bool, i: nat, x: nat)
    requires IsRun(cs, steps, reset) && TameRun(cs, steps, reset) && i < |cs| && x < |cs[i].nodes|
    ensures cs[i].nodes[x].applied <= cs[i].nodes[x].commit < |cs[i].nodes[x].log|
  {
    var hs := History(cs, steps, reset);
    assert Inv(cs[i], hs[i]) && InvCommit(cs[i], hs[i]);
    assert NodeCommit(x, cs[i].nodes[x], hs[i]);
  }

  /** Between restarts: applied never passes committed, committed never passes the log,
      neither ever decreases, and applied moves one index at a time. */
  lemma CommitAndApplyOrder(cs: seq<Cluster>, steps: seq<Step>, reset: bool, i: nat, x: nat)
    requires IsRun(cs, steps, reset) && TameRun(cs, steps, reset) && i < |steps| && x < |cs[i].nodes| && steps[i] != Restart(x)
    ensures x < |cs[i + 1].nodes|
    ensures var a, b := cs[i].nodes[x], cs[i + 1].nodes[x];
            a.applied <= a.commit < |a.log| && a.commit <= b.commit &&
            b.applied == (if steps[i] == Apply(x) then a.applied + 1 else a.applied)
  {
    var hs := History(cs, steps, reset);
    var c, h, s := cs[i], hs[i], steps[i];
    assert Inv(c, h) && InvCommit(c, h);
    assert NodeOK(x, c.nodes[x], h) && NodeCommit(x, c.nodes[x], h);
    if x == Actor(s) {
      ActorOrder(c, h, s, reset);
    }
  }

  lemma ActorOrder(c: Cluster, h: Hist, s: Step, reset: bool)
    requires Inv(c, h) && InvCommit(c, h) && Enabled(c, s) && !s.Restart?
    ensures var a, b := c.nodes[Actor(s)], NewNode(c, s, reset);
            a.commit <= b.commit && b.applied == (if s.Apply? then a.applied + 1 else a.applied)
  {
    if s.RecvAppend? && AppendEntries(c.nodes[Actor(s)], s.appArgs).1.success {
      AcceptOrder(c, h, s.follower, s.appArgs);
    }
  }

  lemma AcceptOrder(c: Cluster, h: Hist, i: nat, a: AppendArgs)
    requires Inv(c, h) && InvCommit(c, h) && Enabled(c, RecvAppend(i, a))
    requires AppendEntries(c.nodes[i], a).1.success
    ensures AppendEntries(c.nodes[i], a).0.commit >= c.nodes[i].commit
  {
    assert NodeOK(i, c.nodes[i], h) && NodeCommit(i, c.nodes[i], h);
    assert MsgOK(AppReq(i, a), h, |c.nodes|) && MsgCommit(AppReq(i, a), h);
    AcceptCommit(h, h, |c.nodes|, i, c.nodes[i], a);
  }

  /** A committed entry can always be applied: the apply loop never indexes past the log. */
  lemma ApplyNeverPanics(cs: seq<Cluster>, steps: seq<Step>, reset: bool, i: nat, x: nat)
    requires IsRun(cs, steps, reset) && TameRun(cs, steps, reset) && i < |cs| && x < |cs[i].nodes|
    requires cs[i].nodes[x].commit > cs[i].nodes[x].applied
    ensures Enabled(cs[i], Apply(x))
  {
    var hs := History(cs, steps, reset);
    assert Inv(cs[i], hs[i]) && InvCommit(cs[i], hs[i]);
    assert NodeCommit(x, cs[i].nodes[x], hs[i]);
  }

  /** A follower that accepts a heartbeat learns all that its leader had committed when it sent it. */
  lemma CommitSpreads(cs: seq<Cluster>, steps: seq<Step>, reset: bool, i: nat, j: nat, x: nat, p: nat)
    requires IsRun(cs, steps, reset) && TameRun(cs, steps, reset) && i < |steps| && j < |steps| && steps[i] == SendAppend(x, p)
    requires steps[j] == RecvAppend(p, MakeAppend(cs[i].nodes[x], x, p))
    requires AppendEntries(cs[j].nodes[p], MakeAppend(cs[i].nodes[x], x, p)).1.success
    ensures p < |cs[j + 1].nodes| && cs[j + 1].nodes[p].commit >= cs[i].nodes[x].commit
  {
    hide Merged;
    CommitInLog(cs, steps, reset, i, x);
    assert cs[j + 1] == Do(cs[j], steps[j], reset);
  }

  /** A candidate of an old term learns the voter's term, and steps down for good. */
  lemma VoterTeaches(cand: Node, voter: Node, args: VoteArgs, reset: bool)
    requires cand.role == Candidate && cand.term == args.term < voter.term
    ensures RequestVote(voter, args).0 == voter && !RequestVote(voter, args).1.granted
    ensures ReceiveVote(cand, args.term, RequestVote(voter, args).1, reset) ==
            cand.(term := voter.term, role := Follower, vote := NoVote, disk := Some(Persisted(voter.term, NoVote, cand.log)))
  {
  }

  /** So does a leader of an old term, from a follower. */
  lemma FollowerTeaches(l: Node, me: nat, p: nat, f: Node, args: AppendArgs)
    requires l.role == Leader && l.term == args.term < f.term && p < |l.next| == |l.matched|
    ensures AppendEntries(f, args).0 == f && !AppendEntries(f, args).1.success
    ensures ReceiveAppend(l, me, p, args, AppendEntries(f, args).1) ==
            l.(term := f.term, role := Follower, vote := NoVote, disk := Some(Persisted(f.term, NoVote, l.log)))
  {
    hide Merged, CommitScan;
  }

  // ------------------------------------------------ what a win without the reset does

  /** Leaving `matchIndex` alone makes a difference exactly when a peer wins while it still
      holds a non-zero entry from an earlier term of office. */
  lemma ResetMatters(c: Cluster, s: Step)
    requires Shape(c) && Enabled(c, s)
    ensures Do(c, s, false) == Do(c, s, true) <==>
            !(Wins(c, s) && exists j :: 0 <= j < |c.nodes[s.cand].matched| && c.nodes[s.cand].matched[j] != 0)
  {
    if s.RecvVoteResp? {
      var x := c.nodes[s.cand];
      var a, b := NewNode(c, s, false), NewNode(c, s, true);
      assert Do(c, s, false).nodes[s.cand] == a && Do(c, s, true).nodes[s.cand] == b;
      if Wins(c, s) {
        assert a.matched == x.matched && b.matched == Zeros(x.Peers());
        if forall j :: 0 <= j < |x.matched| ==> x.matched[j] == 0 {
          assert x.matched == Zeros(x.Peers());
        }
      } else {
        assert a == b;
      }
    }
  }

  /** A leader after it has taken `cmds` from clients. */
  function Proposed(n: Node, cmds: seq<Command>): Node {
    if cmds == [] then n else ClientStart(Proposed(n, cmds[..|cmds| - 1]), cmds[|cmds| - 1])
  }

  lemma {:induction false} ProposedIs(n: Node, cmds: seq<Command>)
    requires n.role == Leader
    ensures var z := Proposed(n, cmds);
            z.role == Leader && z.term == n.term && z.matched == n.matched && n.log <= z.log &&
            |z.log| == |n.log| + |cmds| && forall k :: |n.log| <= k < |z.log| ==> z.log[k].term == n.term
  {
    if cmds != [] {
      ProposedIs(n, cmds[..|cmds| - 1]);
    }
  }

  /** The new leader `me` could count `j` for an entry of its own term before sending anything. */
  ghost predicate CountsUnsent(n: Node, me: nat, j: nat) {
    exists cmds: seq<Command>, k: nat {:trigger Proposed(n, cmds).log[k]} ::
      k < |Proposed(n, cmds).log| && Proposed(n, cmds).log[k].term == n.term && j in Counted(Proposed(n, cmds), me, k)
  }

  /** Right after a win of the code as written, the commit rule can count a peer for an entry that
      it cannot have acknowledged exactly when the peer's `matchIndex` reaches beyond the winner's
      log. Tame wins are those where it cannot happen. */
  lemma StaleCount(cs: seq<Cluster>, steps: seq<Step>, i: nat, j: nat)
    requires IsRun(cs, steps, false) && i < |steps| && Wins(cs[i], steps[i])
    requires j < |cs[i].nodes| && j != steps[i].cand
    ensures var me := steps[i].cand;
            CountsUnsent(cs[i + 1].nodes[me], me, j) <==> cs[i].nodes[me].matched[j] >= |cs[i].nodes[me].log|
  {
    var me := steps[i].cand;
    var x, y := cs[i].nodes[me], cs[i + 1].nodes[me];
    assert y.role == Leader && y.term == x.term && y.log == x.log && y.matched == x.matched;
    NoOwnTermYet(cs, steps, i);
    if CountsUnsent(y, me, j) {
      var cmds: seq<Command>, k: nat :| k < |Proposed(y, cmds).log| && Proposed(y, cmds).log[k].term == y.term &&
        j in Counted(Proposed(y, cmds), me, k);
      ProposedIs(y, cmds);
      var e := if k < |y.log| then k else 0;
      assert y.log[e] == Proposed(y, cmds).log[e];
    }
    if x.matched[j] >= |x.log| {
      var cmds := seq(x.matched[j] - |x.log| + 1, _ => Nil);
      var k := x.matched[j];
      ProposedIs(y, cmds);
      assert Proposed(y, cmds).log[k].term == y.term;
      assert j in Counted(Proposed(y, cmds), me, k);
    }
  }

  lemma NoOwnTermYet(cs: seq<Cluster>, steps: seq<Step>, i: nat)
    requires IsRun(cs, steps, false) && i < |steps| && Wins(cs[i], steps[i])
    ensures var x := cs[i].nodes[steps[i].cand]; forall k :: 0 <= k < |x.log| ==> x.log[k].term != x.term
  {
    var hs := History(cs, steps, false);
    var x, h := cs[i].nodes[steps[i].cand], hs[i];
    assert Inv(cs[i], h);
    assert NodeOK(steps[i].cand, x, h);
    WinIsFirst(cs[i], h, steps[i]);
    forall k | 0 <= k < |x.log|
      ensures x.log[k].term != x.term
    {
      if k > 0 {
        assert Descends(x.log, h, k);
      }
    }
  }

  /** No peer of the run wins with a non-zero `matchIndex`. */
  ghost predicate FreshWins(cs: seq<Cluster>, steps: seq<Step>)
    requires IsRun(cs, steps, false)
  {
    forall i {:trigger steps[i]} :: 0 <= i < |steps| && Wins(cs[i], steps[i]) ==>
      forall j :: 0 <= j < |cs[i].nodes[steps[i].cand].matched| ==> cs[i].nodes[steps[i].cand].matched[j] == 0
  }

  /** A run of the code is a run with the reset exactly when `matchIndex` is zero at every win. */
  lemma IntendedRun(cs: seq<Cluster>, steps: seq<Step>)
    requires IsRun(cs, steps, false)
    ensures IsRun(cs, steps, true) <==> FreshWins(cs, steps)
  {
    if FreshWins(cs, steps) {
      forall k {:trigger steps[k]} | 0 <= k < |steps|
        ensures Enabled(cs[k], steps[k]) && cs[k + 1] == Do(cs[k], steps[k], true)
      {
        ResetMatters(cs[k], steps[k]);
      }
    }
    if IsRun(cs, steps, true) {
      forall k {:trigger steps[k]} | 0 <= k < |steps| && Wins(cs[k], steps[k])
        ensures forall j :: 0 <= j < |cs[k].nodes[steps[k].cand].matched| ==> cs[k].nodes[steps[k].cand].matched[j] == 0
      {
        ResetMatters(cs[k], steps[k]);
      }
    }
  }

  /** The code as written is safe on every run in which no peer wins while its `matchIndex`
      reaches beyond its log. */
  lemma SafeWithoutStaleWins(cs: seq<Cluster>, steps: seq<Step>, i: nat, o: Applied, p: Applied)
    requires IsRun(cs, steps, false) && i < |cs|
    requires forall k {:trigger steps[k]} :: 0 <= k < |steps| && Wins(cs[k], steps[k]) ==> WithinLog(cs[k].nodes[steps[k].cand])
    requires o in cs[i].applied && p in cs[i].applied && o.index == p.index
    ensures o.cmd == p.cmd
  {
    StateMachineSafety(cs, steps, false, i, o, p);
  }
}
