/** Commitment: unless a peer wins while a `matchIndex` entry reaches beyond its log, what a leader
    commits is in the log of every later leader, and so no two peers apply different commands at
    the same index. */
module RaftCommit {
  import opened Ops
  import opened RaftNode
  import opened RaftCluster
  import opened RaftInv
  import opened RaftFrame
  import opened RaftSteps
  import opened RaftReplication

  /** The prefix is part of what term `t` committed at index `k`. */
  ghost predicate CoveredBy(h: Hist, p: seq<Entry>, t: nat, k: nat) {
    (t, k) in h.commits && OwnEntry(h, t, k) && p <= h.logs[t][..k + 1]
  }

  /** Nothing but the sentinel, or part of what some term up to `u` committed. */
  ghost predicate Covered(h: Hist, p: seq<Entry>, u: nat) {
    |p| <= 1 || exists t: nat, k: nat :: t <= u && CoveredBy(h, p, t, k)
  }

  ghost predicate QuorumBehind(h: Hist, t: nat, k: nat, n: nat)
    requires (t, k) in h.commits
  {
    OwnEntry(h, t, k) && IsQuorum(h.commits[(t, k)], n) &&
    forall w :: w in h.commits[(t, k)] ==> Acked(h, w, t, k)
  }

  ghost predicate CommitsOK(h: Hist, n: nat) {
    forall t, k {:trigger QuorumBehind(h, t, k, n)} :: (t, k) in h.commits ==> QuorumBehind(h, t, k, n)
  }

  /** The step makes a peer leader. */
  predicate Wins(c: Cluster, s: Step)
    requires Shape(c) && Enabled(c, s)
  {
    s.RecvVoteResp? && Counts(c.nodes[s.cand], s.term, s.reply) &&
    c.nodes[s.cand].votes + 1 > c.nodes[s.cand].Peers() / 2
  }

  predicate WithinLog(x: Node) {
    forall j :: 0 <= j < |x.matched| ==> x.matched[j] < |x.log|
  }

  /** Winning either clears `matchIndex`, or finds no entry in it that reaches beyond the log. */
  predicate Tame(c: Cluster, s: Step, reset: bool)
    requires Shape(c) && Enabled(c, s)
  {
    reset || (Wins(c, s) ==> WithinLog(c.nodes[s.cand]))
  }

  /** Of what `matchIndex` counts for `j`, `j` acknowledged every entry that this term created. */
  ghost predicate MatchOK(x: Node, h: Hist, j: nat)
    requires j < |x.matched|
  {
    x.matched[j] < |x.log| &&
    forall k: nat :: k <= x.matched[j] && OwnEntry(h, x.term, k) ==> Acked(h, j, x.term, k)
  }

  ghost predicate LeaderMatches(i: nat, x: Node, h: Hist) {
    forall j {:trigger MatchOK(x, h, j)} :: 0 <= j < |x.matched| && j != i ==> MatchOK(x, h, j)
  }

  ghost predicate NodeCommit(i: nat, x: Node, h: Hist) {
    x.applied <= x.commit < |x.log| && Covered(h, x.log[..x.commit + 1], x.term) &&
    (x.role == Leader ==> LeaderMatches(i, x, h))
  }

  ghost predicate MsgCommit(m: Msg, h: Hist) {
    m.AppReq? ==>
      var a := m.appArgs;
      a.leaderCommit <= a.Last() && a.term in h.logs && a.Last() < |h.logs[a.term]| &&
      Covered(h, h.logs[a.term][..a.leaderCommit + 1], a.term)
  }

  ghost predicate CommittedAt(h: Hist, t: nat, k: nat, index: nat, cmd: Command) {
    (t, k) in h.commits && OwnEntry(h, t, k) && 1 <= index <= k && h.logs[t][index].cmd == cmd
  }

  ghost predicate OutputOK(o: Applied, h: Hist) {
    exists t: nat, k: nat :: CommittedAt(h, t, k, o.index, o.cmd)
  }

  ghost predicate InvCommit(c: Cluster, h: Hist) {
    CommitsOK(h, |c.nodes|) &&
    (forall i {:trigger NodeCommit(i, c.nodes[i], h)} :: 0 <= i < |c.nodes| ==> NodeCommit(i, c.nodes[i], h)) &&
    (forall m {:trigger MsgCommit(m, h)} :: m in c.msgs ==> MsgCommit(m, h)) &&
    forall o {:trigger OutputOK(o, h)} :: o in c.applied ==> OutputOK(o, h)
  }

  // ------------------------------------------------------- leader completeness

  /** A committed prefix is in the log of the leader of every later term. */
  lemma LaterLeadersHave(h: Hist, n: nat, t: nat, k: nat, u: nat)
    requires Tables(h, n) && AllInherit(h) && CommitsOK(h, n)
    requires (t, k) in h.commits && t <= u && u in h.logs
    ensures OwnEntry(h, t, k) && Has(h.logs[u], h, t, k)
  {
    assert QuorumBehind(h, t, k, n);
    assert Inherits(h, t, k, u);
    if t < u && Dead(h, t, k, u) {
      var d :| t < d <= u && d in h.elect && NoneAcked(h, d, t, k);
      assert ElectOK(h, d, n);
      var w := QuorumsMeet(h.commits[(t, k)], h.elect[d].voters, n);
      assert false;
    }
  }

  /** Any two commits agree on every index they share. */
  lemma CommitsAgree(h: Hist, n: nat, t: nat, k: nat, u: nat, l: nat, i: nat)
    requires Tables(h, n) && AllInherit(h) && CommitsOK(h, n)
    requires (t, k) in h.commits && (u, l) in h.commits && i <= k && i <= l
    ensures OwnEntry(h, t, k) && OwnEntry(h, u, l) && h.logs[t][i] == h.logs[u][i]
  {
    assert QuorumBehind(h, t, k, n) && QuorumBehind(h, u, l, n);
    if t <= u {
      LaterLeadersHave(h, n, t, k, u);
      assert h.logs[t][..k + 1][i] == h.logs[u][i];
    } else {
      LaterLeadersHave(h, n, u, l, t);
      assert h.logs[u][..l + 1][i] == h.logs[t][i];
    }
  }

  // -------------------------------------------------------------------- frames

  lemma CoveredGrows(h: Hist, g: Hist, a: nat, p: seq<Entry>, u: nat, v: nat)
    requires Grows(h, g, a) && Covered(h, p, u) && u <= v
    ensures Covered(g, p, v)
  {
    if |p| > 1 {
      var t: nat, k: nat :| t <= u && CoveredBy(h, p, t, k);
      assert g.logs[t][..k + 1] == h.logs[t][..k + 1];
      assert g.logs[t][k] == h.logs[t][k];
      assert CoveredBy(g, p, t, k);
    }
  }

  lemma CommitsGrow(h: Hist, g: Hist, a: nat, n: nat)
    requires Grows(h, g, a) && CommitsOK(h, n) && g.commits == h.commits
    ensures CommitsOK(g, n)
  {
    forall t, k | (t, k) in g.commits
      ensures QuorumBehind(g, t, k, n)
    {
      assert QuorumBehind(h, t, k, n);
      assert g.logs[t][..k + 1] == h.logs[t][..k + 1];
      forall w | w in g.commits[(t, k)]
        ensures Acked(g, w, t, k)
      {
        assert Acked(h, w, t, k);
      }
    }
  }

  /** A leader's `matchIndex` stays good while its log and the history grow. */
  lemma MatchesGrow(h: Hist, g: Hist, a: nat, i: nat, x: Node, y: Node)
    requires Grows(h, g, a) && LeaderMatches(i, x, h) && x.term in h.logs && h.logs[x.term] == x.log
    requires y.term == x.term && x.log <= y.log && y.matched == x.matched
    ensures LeaderMatches(i, y, g)
  {
    forall j | 0 <= j < |y.matched| && j != i
      ensures MatchOK(y, g, j)
    {
      assert MatchOK(x, h, j);
      forall k: nat | k <= y.matched[j] && OwnEntry(g, y.term, k)
        ensures Acked(g, j, y.term, k)
      {
        assert g.logs[x.term][k] == h.logs[x.term][k];
        assert OwnEntry(h, x.term, k) && Acked(h, j, x.term, k);
      }
    }
  }

  lemma NodeCommitGrows(h: Hist, g: Hist, a: nat, i: nat, x: Node)
    requires Grows(h, g, a) && NodeOK(i, x, h) && NodeCommit(i, x, h) && i != a
    ensures NodeCommit(i, x, g)
  {
    CoveredGrows(h, g, a, x.log[..x.commit + 1], x.term, x.term);
    if x.role == Leader {
      MatchesGrow(h, g, a, i, x, x);
    }
  }

  lemma MsgCommitGrows(h: Hist, g: Hist, a: nat, m: Msg)
    requires Grows(h, g, a) && MsgCommit(m, h)
    ensures MsgCommit(m, g)
  {
    if m.AppReq? {
      var r := m.appArgs;
      CoveredGrows(h, g, a, h.logs[r.term][..r.leaderCommit + 1], r.term, r.term);
      assert g.logs[r.term][..r.leaderCommit + 1] == h.logs[r.term][..r.leaderCommit + 1];
    }
  }

  lemma OutputGrows(h: Hist, g: Hist, a: nat, o: Applied)
    requires Grows(h, g, a) && OutputOK(o, h)
    ensures OutputOK(o, g)
  {
    var t: nat, k: nat :| CommittedAt(h, t, k, o.index, o.cmd);
    assert g.logs[t][..k + 1] == h.logs[t][..k + 1];
    assert g.logs[t][k] == h.logs[t][k] && g.logs[t][o.index] == h.logs[t][o.index];
    assert CommittedAt(g, t, k, o.index, o.cmd);
  }

  ghost predicate NewMsgsCommit(c: Cluster, s: Step, g: Hist)
    requires Shape(c) && Enabled(c, s)
  {
    forall m {:trigger MsgCommit(m, g)} :: m in NewMsgs(c, s) ==> MsgCommit(m, g)
  }

  ghost predicate NewOutputsOK(c: Cluster, s: Step, g: Hist)
    requires Shape(c) && Enabled(c, s)
  {
    forall o {:trigger OutputOK(o, g)} :: o in NewApplied(c, s) ==> OutputOK(o, g)
  }

  lemma RebuildCommit(c: Cluster, h: Hist, s: Step, reset: bool, g: Hist)
    requires Inv(c, h) && InvCommit(c, h) && Enabled(c, s) && Grows(h, g, Actor(s))
    requires CommitsOK(g, |c.nodes|)
    requires NodeCommit(Actor(s), NewNode(c, s, reset), g)
    requires NewMsgsCommit(c, s, g) && NewOutputsOK(c, s, g)
    ensures InvCommit(Do(c, s, reset), g)
  {
    var d, a := Do(c, s, reset), Actor(s);
    forall i | 0 <= i < |d.nodes|
      ensures NodeCommit(i, d.nodes[i], g)
    {
      if i != a {
        assert NodeOK(i, c.nodes[i], h) && NodeCommit(i, c.nodes[i], h);
        NodeCommitGrows(h, g, a, i, c.nodes[i]);
      }
    }
    forall m | m in d.msgs
      ensures MsgCommit(m, g)
    {
      if m in c.msgs {
        assert MsgCommit(m, h);
        MsgCommitGrows(h, g, a, m);
      }
    }
    forall o | o in d.applied
      ensures OutputOK(o, g)
    {
      if o in c.applied {
        assert OutputOK(o, h);
        OutputGrows(h, g, a, o);
      }
    }
  }

  // --------------------------------------------------------------------- steps

  /** A peer that keeps its log and commit index, and does not lead, keeps its commitment. */
  lemma KeepCommit(h: Hist, g: Hist, i: nat, x: Node, y: Node)
    requires Grows(h, g, i) && NodeCommit(i, x, h)
    requires y.log == x.log && y.term >= x.term && y.role != Leader
    requires (y.commit == x.commit && y.applied == x.applied) || (y.commit == 0 && y.applied == 0)
    ensures NodeCommit(i, y, g)
  {
    CoveredGrows(h, g, i, x.log[..x.commit + 1], x.term, y.term);
  }

  /** A leader that keeps its log prefix and commit index. */
  lemma LeadCommit(h: Hist, g: Hist, i: nat, x: Node, y: Node)
    requires Grows(h, g, i) && NodeCommit(i, x, h)
    requires x.log <= y.log && y.term == x.term && y.commit == x.commit && y.applied == x.applied
    requires LeaderMatches(i, y, g)
    ensures NodeCommit(i, y, g)
  {
    assert y.log[..y.commit + 1] == x.log[..x.commit + 1];
    CoveredGrows(h, g, i, x.log[..x.commit + 1], x.term, x.term);
  }

  /** A peer that leads after the step: it led before, or it won with a `matchIndex` within a log
      that holds no entry of its term. */
  lemma LeaderKeepsMatches(h: Hist, g: Hist, i: nat, x: Node, y: Node)
    requires Grows(h, g, i) && NodeOK(i, x, h) && NodeCommit(i, x, h) && NodeOK(i, y, g)
    requires y.role == Leader && y.term == x.term && x.log <= y.log
    requires (x.role == Leader && y.matched == x.matched) || (y.log == x.log && x.term !in h.logs && WithinLog(y))
    ensures LeaderMatches(i, y, g)
  {
    if x.role == Leader && y.matched == x.matched {
      MatchesGrow(h, g, i, i, x, y);
    } else {
      NothingOwnYet(h, g, x);
      forall j | 0 <= j < |y.matched| && j != i
        ensures MatchOK(y, g, j)
      {
      }
    }
  }

  lemma NothingOwnYet(h: Hist, g: Hist, x: Node)
    requires Grounded(x.log, h) && x.term !in h.logs && x.term in g.logs && g.logs[x.term] == x.log
    ensures forall k: nat :: !OwnEntry(g, x.term, k)
  {
    forall k: nat
      ensures !OwnEntry(g, x.term, k)
    {
      if 1 <= k < |x.log| {
        assert Descends(x.log, h, k);
      }
    }
  }

  /** What a follower committed is in the log of the leader it hears from. */
  lemma CommittedInLeader(h: Hist, n: nat, p: seq<Entry>, u: nat, v: nat)
    requires Tables(h, n) && AllInherit(h) && CommitsOK(h, n)
    requires Covered(h, p, u) && u <= v && v in h.logs && (|p| > 0 ==> p[0] == Sentinel)
    ensures p <= h.logs[v]
  {
    assert TermOK(h, v);
    if |p| > 1 {
      var t: nat, k: nat :| t <= u && CoveredBy(h, p, t, k);
      LaterLeadersHave(h, n, t, k, v);
    }
  }

  /** Accepting an append never cuts below the commit index, and never lowers it. */
  lemma AcceptCommit(h: Hist, g: Hist, n: nat, i: nat, x: Node, a: AppendArgs)
    requires Tables(h, n) && AllInherit(h) && CommitsOK(h, n) && NodeOK(i, x, h) && NodeCommit(i, x, h)
    requires AppOK(a, h) && MsgCommit(AppReq(i, a), h) && AppendEntries(x, a).1.success
    requires Grows(h, g, i)
    ensures NodeCommit(i, AppendEntries(x, a).0, g) && AppendEntries(x, a).0.commit >= x.commit
  {
    AcceptShape(x, a);
    AcceptLog(h, n, x, a);
    KeptCommit(h, n, i, x, a);
    AcceptedCommit(h, g, i, x, a, AppendEntries(x, a).0);
  }

  lemma AcceptedCommit(h: Hist, g: Hist, i: nat, x: Node, a: AppendArgs, y: Node)
    requires Grows(h, g, i) && NodeCommit(i, x, h) && MsgCommit(AppReq(i, a), h)
    requires x.log[..x.commit + 1] <= y.log && h.logs[a.term][..a.Last() + 1] <= y.log
    requires y.commit == if a.leaderCommit > x.commit then Min(a.leaderCommit, a.Last()) else x.commit
    requires y.applied == x.applied && y.term == a.term >= x.term && y.role == Follower
    ensures NodeCommit(i, y, g) && y.commit >= x.commit
  {
    AcceptCovered(h, x, a, y);
    CoveredGrows(h, g, i, y.log[..y.commit + 1], a.term, a.term);
  }

  lemma KeptCommit(h: Hist, n: nat, i: nat, x: Node, a: AppendArgs)
    requires Tables(h, n) && AllInherit(h) && CommitsOK(h, n) && NodeOK(i, x, h) && NodeCommit(i, x, h)
    requires AppOK(a, h) && AppendEntries(x, a).1.success && a.term >= x.term
    ensures x.log[..x.commit + 1] <= AppendEntries(x, a).0.log
  {
    assert TermOK(h, a.term);
    CommittedInLeader(h, n, x.log[..x.commit + 1], x.term, a.term);
    assert h.logs[a.term][..x.commit + 1] == x.log[..x.commit + 1];
    AcceptKeeps(h, x, a, x.commit + 1);
  }

  lemma AcceptCovered(h: Hist, x: Node, a: AppendArgs, y: Node)
    requires a.term in h.logs && a.leaderCommit <= a.Last() < |h.logs[a.term]|
    requires Covered(h, h.logs[a.term][..a.leaderCommit + 1], a.term)
    requires x.commit < |x.log| && Covered(h, x.log[..x.commit + 1], x.term) && x.term <= a.term
    requires x.log[..x.commit + 1] <= y.log && h.logs[a.term][..a.Last() + 1] <= y.log
    requires y.commit == if a.leaderCommit > x.commit then Min(a.leaderCommit, a.Last()) else x.commit
    ensures x.commit <= y.commit < |y.log| && Covered(h, y.log[..y.commit + 1], a.term)
  {
    if a.leaderCommit > x.commit {
      assert y.log[..y.commit + 1] == h.logs[a.term][..a.Last() + 1][..y.commit + 1] == h.logs[a.term][..y.commit + 1];
    } else {
      assert y.log[..y.commit + 1] == x.log[..x.commit + 1];
      if |x.log[..x.commit + 1]| > 1 {
        var t: nat, k: nat :| t <= x.term && CoveredBy(h, x.log[..x.commit + 1], t, k);
      }
    }
  }

  /** The commit rule: a counted majority is a quorum of acknowledgements of this term. */
  lemma CommitRule(h: Hist, n: nat, i: nat, x: Node, k: nat) returns (q: set<nat>)
    requires AcksOK(h, n) && LeaderOK(i, x, h) && i < n && LeaderMatches(i, x, h)
    requires |x.next| == |x.matched| == n >= 2 && 1 <= k < |x.log| && Majority(x, i, k)
    ensures OwnEntry(h, x.term, k) && IsQuorum(q, n) && forall w :: w in q ==> Acked(h, w, x.term, k)
  {
    var counted := Counted(x, i, k);
    q := counted + {i};
    assert counted != {};
    var w :| w in counted;
    assert x.log[k].term == x.term;
    assert OwnEntry(h, x.term, k);
    forall v | v in counted
      ensures Acked(h, v, x.term, k)
    {
      assert MatchOK(x, h, v);
    }
  }

  lemma SameMatches(h: Hist, i: nat, y: Node, z: Node)
    requires LeaderMatches(i, y, h) && z.term == y.term && z.log == y.log && z.matched == y.matched
    ensures LeaderMatches(i, z, h)
  {
    forall j | 0 <= j < |z.matched| && j != i
      ensures MatchOK(z, h, j)
    {
      assert MatchOK(y, h, j);
    }
  }

  /** The leader's state after a success reply. */
  lemma ReplyMatches(h: Hist, i: nat, x: Node, p: nat, a: AppendArgs, r: AppendReply)
    requires x.role == Leader && x.term == a.term && r.term <= x.term && r.success
    requires p < |x.next| == |x.matched| && LeaderMatches(i, x, h) && Acked(h, p, a.term, a.Last()) && a.Last() < |x.log|
    ensures var y := ReceiveAppend(x, i, p, a, r);
            LeaderMatches(i, y, h) && y.log == x.log && y.term == x.term && y.role == Leader &&
            |y.next| == |x.next| && |y.matched| == |x.matched| && y.applied == x.applied &&
            (y.commit == x.commit || (x.commit < y.commit < |y.log| && Majority(y, i, y.commit)))
  {
    var m := a.Last();
    var n1 := x.(next := if m + 1 > x.next[p] then x.next[p := m + 1] else x.next,
                 matched := if m > x.matched[p] then x.matched[p := m] else x.matched);
    var y := ReceiveAppend(x, i, p, a, r);
    assert y == n1.(commit := CommitScan(n1, i, |n1.log| - 1));
    if y.commit != x.commit {
      assert Counted(y, i, y.commit) == Counted(n1, i, y.commit);
    }
    RaisedMatches(h, i, x, n1, p, m);
    SameMatches(h, i, n1, y);
  }

  /** An acknowledgement of everything up to `m` raises one entry to at most `m`. */
  lemma RaisedMatches(h: Hist, i: nat, x: Node, y: Node, p: nat, m: nat)
    requires LeaderMatches(i, x, h) && p < |x.matched| && Acked(h, p, x.term, m) && m < |x.log|
    requires y.log == x.log && y.term == x.term && |y.matched| == |x.matched|
    requires y.matched == if m > x.matched[p] then x.matched[p := m] else x.matched
    ensures LeaderMatches(i, y, h)
  {
    forall j | 0 <= j < |y.matched| && j != i
      ensures MatchOK(y, h, j)
    {
      assert MatchOK(x, h, j);
    }
  }

  lemma NewCommit(h: Hist, n: nat, i: nat, y: Node, q: set<nat>)
    requires CommitsOK(h, n) && OwnEntry(h, y.term, y.commit) && IsQuorum(q, n)
    requires forall w :: w in q ==> Acked(h, w, y.term, y.commit)
    requires h.logs[y.term] == y.log && y.applied <= y.commit && LeaderMatches(i, y, h)
    ensures var g := h.(commits := h.commits[(y.term, y.commit) := q]);
            CommitsOK(g, n) && NodeCommit(i, y, g)
  {
    var g := h.(commits := h.commits[(y.term, y.commit) := q]);
    forall t, k | (t, k) in g.commits
      ensures QuorumBehind(g, t, k, n)
    {
      if (t, k) != (y.term, y.commit) {
        assert QuorumBehind(h, t, k, n);
      }
      assert forall w :: w in g.commits[(t, k)] ==> Acked(h, w, t, k);
    }
    assert CoveredBy(g, y.log[..y.commit + 1], y.term, y.commit);
    forall j | 0 <= j < |y.matched| && j != i
      ensures MatchOK(y, g, j)
    {
      assert MatchOK(y, h, j);
      forall k: nat | k <= y.matched[j] && OwnEntry(g, y.term, k)
        ensures Acked(g, j, y.term, k)
      {
        assert OwnEntry(h, y.term, k) && Acked(h, j, y.term, k);
      }
    }
  }

  // ------------------------------------------------------------ the actor's step

  /** Steps that neither accept entries, scan for a commit nor apply: log, commit index and
      `matchIndex` stay, or the peer steps down, wins afresh or restarts. */
  lemma CalmCommit(h: Hist, g: Hist, i: nat, x: Node, y: Node)
    requires Grows(h, g, i) && NodeOK(i, x, h) && NodeOK(i, y, g) && NodeCommit(i, x, h)
    requires x.log <= y.log && y.term >= x.term
    requires (y.commit == x.commit && y.applied == x.applied && (y.role == Leader || y.log == x.log)) ||
             (y.commit == 0 && y.applied == 0 && y.log == x.log && y.role != Leader)
    requires y.role == Leader ==>
               y.term == x.term && ((x.role == Leader && y.matched == x.matched) ||
                                    (y.log == x.log && x.term !in h.logs && WithinLog(y)))
    ensures NodeCommit(i, y, g)
  {
    if y.role == Leader {
      LeaderKeepsMatches(h, g, i, x, y);
      LeadCommit(h, g, i, x, y);
    } else {
      KeepCommit(h, g, i, x, y);
    }
  }

  predicate Calm(c: Cluster, s: Step)
    requires Shape(c) && Enabled(c, s)
  {
    match s
    case RecvAppend(i, a) => !AppendEntries(c.nodes[i], a).1.success
    case RecvAppResp(_, _, _) => false
    case Apply(_) => false
    case _ => true
  }

  lemma CalmNode(c: Cluster, h: Hist, s: Step, reset: bool)
    requires Shape(c) && Enabled(c, s) && Calm(c, s) && Tame(c, s, reset)
    requires NodeOK(Actor(s), c.nodes[Actor(s)], h)
    ensures var x, y := c.nodes[Actor(s)], NewNode(c, s, reset);
            x.log <= y.log && y.term >= x.term &&
            ((y.commit == x.commit && y.applied == x.applied && (y.role == Leader || y.log == x.log)) ||
             (y.commit == 0 && y.applied == 0 && y.log == x.log && y.role != Leader)) &&
            (y.role == Leader ==>
               y.term == x.term && ((x.role == Leader && y.matched == x.matched) ||
                                    (y.log == x.log && WithinLog(y) && Wins(c, s))))
  {
    hide Grounded, Voted, Retains, CandidateOK, LeaderOK, Merged, BackupIndex, CommitScan;
  }

  /** No earlier leader of the term exists when a peer wins it. */
  lemma WinIsFirst(c: Cluster, h: Hist, s: Step)
    requires Inv(c, h) && Enabled(c, s) && Wins(c, s)
    ensures c.nodes[s.cand].term !in h.logs
  {
    var i, n := s.cand, |c.nodes|;
    var x := c.nodes[i];
    assert NodeOK(i, x, h) && CountedOnce(i, x, c.pending, h);
    assert MsgOK(VoteResp(s.term, i, s.peer, s.reply), h, n);
    FirstWin(h, n, i, x, h.counted[i] + {s.peer});
  }

  lemma CalmStep(c: Cluster, h: Hist, s: Step, reset: bool, g: Hist)
    requires Inv(c, h) && InvCommit(c, h) && Enabled(c, s) && Calm(c, s) && Tame(c, s, reset)
    requires Grows(h, g, Actor(s)) && g.commits == h.commits && Inv(Do(c, s, reset), g)
    ensures InvCommit(Do(c, s, reset), g)
  {
    hide LogOK, Voted, Retains, CandidateOK, LeaderOK, Covered, LeaderMatches, OutputOK, MsgCommit, VoteOK, Inherits, AppOK;
    var i, d := Actor(s), Do(c, s, reset);
    assert NodeOK(i, c.nodes[i], h) && NodeCommit(i, c.nodes[i], h) && NodeOK(i, d.nodes[i], g);
    CalmNode(c, h, s, reset);
    if Wins(c, s) {
      WinIsFirst(c, h, s);
    }
    CalmCommit(h, g, i, c.nodes[i], NewNode(c, s, reset));
    CommitsGrow(h, g, i, |c.nodes|);
    CalmMsgs(c, h, s, g);
    RebuildCommit(c, h, s, reset, g);
  }

  lemma CalmMsgs(c: Cluster, h: Hist, s: Step, g: Hist)
    requires Shape(c) && Enabled(c, s) && Calm(c, s) && Grows(h, g, Actor(s))
    requires NodeOK(Actor(s), c.nodes[Actor(s)], h) && NodeCommit(Actor(s), c.nodes[Actor(s)], h)
    ensures NewMsgsCommit(c, s, g) && NewOutputsOK(c, s, g)
  {
    if s.SendAppend? {
      SentCommit(c, h, s.src, s.dst);
      MsgCommitGrows(h, g, s.src, AppReq(s.dst, MakeAppend(c.nodes[s.src], s.src, s.dst)));
    }
  }

  lemma SentCommit(c: Cluster, h: Hist, i: nat, p: nat)
    requires Shape(c) && Enabled(c, SendAppend(i, p))
    requires NodeOK(i, c.nodes[i], h) && NodeCommit(i, c.nodes[i], h)
    ensures MsgCommit(AppReq(p, MakeAppend(c.nodes[i], i, p)), h)
  {
  }

  lemma AcceptStep(c: Cluster, h: Hist, i: nat, a: AppendArgs, reset: bool, g: Hist)
    requires Inv(c, h) && InvCommit(c, h) && Enabled(c, RecvAppend(i, a)) && AppendEntries(c.nodes[i], a).1.success
    requires Grows(h, g, i) && g.commits == h.commits
    ensures InvCommit(Do(c, RecvAppend(i, a), reset), g)
  {
    var n := |c.nodes|;
    assert NodeOK(i, c.nodes[i], h) && NodeCommit(i, c.nodes[i], h);
    assert MsgOK(AppReq(i, a), h, n) && MsgCommit(AppReq(i, a), h);
    AcceptCommit(h, g, n, i, c.nodes[i], a);
    CommitsGrow(h, g, i, n);
    RebuildCommit(c, h, RecvAppend(i, a), reset, g);
  }

  lemma ApplyCommit(c: Cluster, h: Hist, i: nat, reset: bool)
    requires Inv(c, h) && InvCommit(c, h) && Enabled(c, Apply(i))
    ensures InvCommit(Do(c, Apply(i), reset), h)
  {
    hide LogOK, Voted, Retains, CandidateOK, VoteOK, Inherits, AppOK, MsgOK, MsgCommit;
    var x := c.nodes[i];
    var k := x.applied + 1;
    assert NodeOK(i, x, h) && NodeCommit(i, x, h);
    var t: nat, m: nat :| t <= x.term && CoveredBy(h, x.log[..x.commit + 1], t, m);
    assert h.logs[t][..m + 1][k] == x.log[..x.commit + 1][k];
    assert CommittedAt(h, t, m, k, x.log[k].cmd);
    if x.role == Leader {
      MatchesGrow(h, h, i, i, x, ApplyOne(x));
    }
    RebuildCommit(c, h, Apply(i), reset, h);
  }

  /** A reply that does not move the commit index. */
  lemma IdleReply(h: Hist, i: nat, x: Node, p: nat, a: AppendArgs, r: AppendReply)
    requires NodeCommit(i, x, h) && p < |x.next| == |x.matched|
    requires x.role != Leader || x.term != a.term || r.term > x.term || !r.success
    ensures NodeCommit(i, ReceiveAppend(x, i, p, a, r), h)
  {
    if x.role == Leader && x.term == a.term && r.term > x.term {
      KeepCommit(h, h, i, x, ReceiveAppend(x, i, p, a, r));
    } else if x.role == Leader {
      SameMatches(h, i, x, ReceiveAppend(x, i, p, a, r));
    }
  }

  /** A success reply: the commit rule either finds nothing or records a new commit. */
  lemma SuccessReply(h: Hist, n: nat, i: nat, x: Node, p: nat, a: AppendArgs, r: AppendReply) returns (g: Hist)
    requires AcksOK(h, n) && CommitsOK(h, n) && LeaderOK(i, x, h) && NodeCommit(i, x, h) && i < n
    requires x.role == Leader && x.term == a.term && r.term <= x.term && r.success
    requires p < n && |x.next| == |x.matched| == n >= 2 && Acked(h, p, a.term, a.Last()) && a.Last() < |x.log|
    ensures g == h.(commits := g.commits) && forall t, k :: (t, k) in h.commits ==> (t, k) in g.commits
    ensures CommitsOK(g, n) && NodeCommit(i, ReceiveAppend(x, i, p, a, r), g)
  {
    var y := ReceiveAppend(x, i, p, a, r);
    ReplyMatches(h, i, x, p, a, r);
    if y.commit == x.commit {
      g := h;
    } else {
      assert LeaderOK(i, y.(next := x.next), h);
      var z := y.(next := x.next);
      SameMatches(h, i, y, z);
      assert Counted(z, i, y.commit) == Counted(y, i, y.commit);
      var q := CommitRule(h, n, i, z, y.commit);
      NewCommit(h, n, i, y, q);
      g := h.(commits := h.commits[(y.term, y.commit) := q]);
    }
  }

  lemma ReplyCommit(c: Cluster, h: Hist, p: nat, a: AppendArgs, r: AppendReply, reset: bool) returns (g: Hist)
    requires Inv(c, h) && InvCommit(c, h) && Enabled(c, RecvAppResp(p, a, r))
    ensures g == h.(commits := g.commits) && forall t, k :: (t, k) in h.commits ==> (t, k) in g.commits
    ensures InvCommit(Do(c, RecvAppResp(p, a, r), reset), g)
  {
    var i, n := a.leader, |c.nodes|;
    var x := c.nodes[i];
    assert NodeOK(i, x, h) && NodeCommit(i, x, h);
    if x.role != Leader || x.term != a.term || r.term > x.term || !r.success {
      g := h;
      IdleReply(h, i, x, p, a, r);
    } else {
      assert MsgOK(AppResp(p, a, r), h, n);
      g := SuccessReply(h, n, i, x, p, a, r);
    }
    CommitsGrows(h, g, i);
    RebuildCommit(c, h, RecvAppResp(p, a, r), reset, g);
  }

  lemma CommitsGrows(h: Hist, g: Hist, a: nat)
    requires g == h.(commits := g.commits) && forall t, k :: (t, k) in h.commits ==> (t, k) in g.commits
    ensures Grows(h, g, a)
  {
  }

  /** The base invariant does not read the recorded commits. */
  lemma CommitsApart(c: Cluster, h: Hist, g: Hist)
    requires Inv(c, h) && g == h.(commits := g.commits)
    requires forall t, k :: (t, k) in h.commits ==> (t, k) in g.commits
    ensures Inv(c, g)
  {
    var a := |c.nodes|;
    CommitsGrows(h, g, a);
    KeepInherit(h, g);
    KeepTables(h, g, |c.nodes|);
    forall w, t | (w, t) in g.votes
      ensures VoteOK(g, w, t)
    {
      assert VoteOK(h, w, t);
      VoteFrame(h, g, a, |c.nodes|, w, t);
    }
    forall i | 0 <= i < |c.nodes|
      ensures NodeOK(i, c.nodes[i], g) && CountedOnce(i, c.nodes[i], c.pending, g)
    {
      assert NodeOK(i, c.nodes[i], h) && CountedOnce(i, c.nodes[i], c.pending, h);
      NodeFrame(h, g, a, i, c.nodes[i]);
    }
    forall m | m in c.msgs
      ensures MsgOK(m, g, |c.nodes|)
    {
      assert MsgOK(m, h, |c.nodes|);
      MsgFrame(h, g, a, |c.nodes|, m);
    }
  }

  /** One step keeps the base invariant, and a tame one keeps commitment too. */
  lemma OneStep(c: Cluster, h: Hist, s: Step, reset: bool) returns (g: Hist)
    requires Inv(c, h) && Enabled(c, s)
    ensures Grows(h, g, Actor(s)) && OwnTails(h, g) && Inv(Do(c, s, reset), g)
    ensures InvCommit(c, h) && Tame(c, s, reset) ==> InvCommit(Do(c, s, reset), g)
  {
    g := AnyStep(c, h, s, reset);
    if InvCommit(c, h) && Tame(c, s, reset) {
      if Calm(c, s) {
        CalmStep(c, h, s, reset, g);
      } else {
        match s
        case RecvAppend(i, a) => AcceptStep(c, h, i, a, reset, g);
        case Apply(i) => ApplyStep(c, h, i, reset); g := h; ApplyCommit(c, h, i, reset);
        case RecvAppResp(p, a, r) =>
          AppRespStep(c, h, p, a, r, reset);
          g := ReplyCommit(c, h, p, a, r, reset);
          CommitsGrows(h, g, a.leader);
          CommitsApart(Do(c, s, reset), h, g);
      }
    }
  }
}
