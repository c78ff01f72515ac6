/** Every step of the cluster, as written, keeps the invariant. */
module RaftSteps {
  import opened RaftNode
  import opened RaftCluster
  import opened RaftInv
  import opened RaftFrame

  /** Logs, elections and acknowledgements are as before. */
  ghost predicate SameBase(h: Hist, g: Hist) {
    g.logs == h.logs && g.elect == h.elect && g.acks == h.acks
  }

  lemma DeadSame(h: Hist, g: Hist, t: nat, k: nat, u: nat, v: nat)
    requires SameBase(h, g) && Dead(h, t, k, u) && u <= v
    ensures Dead(g, t, k, v)
  {
    var d :| t < d <= u && d in h.elect && NoneAcked(h, d, t, k);
    assert NoneAcked(g, d, t, k) by {
      forall w | w in g.elect[d].voters
        ensures !Acked(g, w, t, k)
      {
        assert !Acked(h, w, t, k);
      }
    }
  }

  lemma SameGrounded(log: Log, h: Hist, g: Hist)
    requires SameBase(h, g) && Grounded(log, h)
    ensures Grounded(log, g)
  {
    forall k | 1 <= k < |log|
      ensures Descends(log, g, k)
    {
      assert Descends(log, h, k);
    }
  }

  /** What a peer acknowledged survives a step that keeps its log. */
  lemma KeepRetains(h: Hist, g: Hist, i: nat, x: Node, y: Node)
    requires SameBase(h, g) && Retains(i, x, h) && y.log == x.log && y.term >= x.term
    requires LogOK(x.log, x.term, h)
    ensures Retains(i, y, g) && LogOK(y.log, y.term, g)
    ensures SelfAcked(h, i, x.term) ==> SelfAcked(g, i, x.term)
  {
    SameGrounded(x.log, h, g);
    if SelfAcked(h, i, x.term) {
      forall k: nat | OwnEntry(g, x.term, k)
        ensures Acked(g, i, x.term, k)
      {
        assert OwnEntry(h, x.term, k);
        assert Acked(h, i, x.term, k);
      }
    }
    forall t: nat, k: nat | OwnEntry(g, t, k) && Acked(g, i, t, k)
      ensures Has(y.log, g, t, k) || Dead(g, t, k, y.term)
    {
      assert OwnEntry(h, t, k) && Acked(h, i, t, k);
      if Dead(h, t, k, x.term) {
        DeadSame(h, g, t, k, x.term, y.term);
      }
    }
  }

  lemma KeepInherit(h: Hist, g: Hist)
    requires SameBase(h, g) && AllInherit(h)
    ensures AllInherit(g)
  {
    forall t: nat, k: nat, u: nat
      ensures Inherits(g, t, k, u)
    {
      assert Inherits(h, t, k, u);
      if OwnEntry(h, t, k) && Dead(h, t, k, u) {
        DeadSame(h, g, t, k, u, u);
      }
    }
  }

  lemma KeepTables(h: Hist, g: Hist, n: nat)
    requires SameBase(h, g) && Tables(h, n) && |g.counted| == n
    requires forall w, t :: (w, t) in h.votes ==> (w, t) in g.votes && g.votes[(w, t)] == h.votes[(w, t)]
    ensures Tables(g, n)
  {
    forall t | t in g.logs
      ensures TermOK(g, t)
    {
      assert TermOK(h, t);
      SameGrounded(h.logs[t], h, g);
    }
    forall t | t in g.elect
      ensures ElectOK(g, t, n)
    {
      assert ElectOK(h, t, n);
    }
  }

  /** A log that holds (t, k) is at least as new as (t, k). */
  lemma LastCovers(log: Log, h: Hist, n: nat, t: nat, k: nat)
    requires Tables(h, n) && Grounded(log, h) && OwnEntry(h, t, k) && Has(log, h, t, k)
    ensures k < |log| && log[|log| - 1].term >= t
  {
    assert log[k] == h.logs[t][..k + 1][k];
    TermsSorted(log, h, n, k, |log| - 1);
  }

  /** A vote given by peer `w` in state `x`, for a bid at least as new as its log. */
  lemma NewVoteOK(h: Hist, g: Hist, n: nat, w: nat, x: Node, t: nat, b: (nat, nat))
    requires Tables(h, n) && SameBase(h, g)
    requires Retains(w, x, h) && Grounded(x.log, h) && x.term <= t
    requires (w, t) in g.votes && (t, g.votes[(w, t)]) in g.bids && g.bids[(t, g.votes[(w, t)])] == b
    requires b.1 > x.LastTerm() || (b.1 == x.LastTerm() && b.0 >= x.LastIndex())
    ensures VoteOK(g, w, t)
  {
    forall t0: nat, k: nat | t0 < t && OwnEntry(g, t0, k) && Acked(g, w, t0, k)
      ensures Dead(g, t0, k, t) || b.1 > t0 || (b.1 == t0 && b.0 >= k)
    {
      assert OwnEntry(h, t0, k) && Acked(h, w, t0, k);
      if Has(x.log, h, t0, k) {
        LastCovers(x.log, h, n, t0, k);
      } else {
        DeadSame(h, g, t0, k, x.term, t);
      }
    }
  }

  /** The invariant after a step that leaves logs, elections and acknowledgements alone. */
  lemma Quiet(c: Cluster, h: Hist, s: Step, reset: bool, g: Hist)
    requires Inv(c, h) && Enabled(c, s) && Grows(h, g, Actor(s)) && SameBase(h, g)
    requires NodeOK(Actor(s), NewNode(c, s, reset), g)
    requires NewVotesOK(h, g) && NewMsgsOK(c, s, g)
    requires CountedOnce(Actor(s), NewNode(c, s, reset), NewPending(c, s), g)
    ensures Inv(Do(c, s, reset), g)
  {
    KeepInherit(h, g);
    KeepTables(h, g, |c.nodes|);
    Rebuild(c, h, s, reset, g);
  }

  // ------------------------------------------------------------------- elections

  function WithBid(h: Hist, i: nat, y: Node): Hist
    requires i < |h.counted|
  {
    h.(votes := h.votes[(i, y.term) := i],
       bids := h.bids[(y.term, i) := (y.LastIndex(), y.LastTerm())],
       counted := h.counted[i := {i}])
  }

  lemma TimeoutStep(c: Cluster, h: Hist, i: nat, reset: bool) returns (g: Hist)
    requires Inv(c, h) && Enabled(c, Timeout(i))
    ensures Grows(h, g, i) && Inv(Do(c, Timeout(i), reset), g) && g.commits == h.commits
    ensures OwnTails(h, g)
  {
    hide Grounded, ElectOK, TermOK, Dead, LeaderOK;
    var x := c.nodes[i];
    var y := StartElection(x, i);
    assert NodeOK(i, x, h);
    g := WithBid(h, i, y);
    TimeoutGrows(h, i, x);
    if y.term in h.elect && h.elect[y.term].leader == i {
      NoElectionAhead(h, |c.nodes|, i, x, y.term);
    }
    TimeoutNode(h, i, x);
    NewVoteOK(h, g, |c.nodes|, i, x, y.term, (y.LastIndex(), y.LastTerm()));
    Quiet(c, h, Timeout(i), reset, g);
  }

  lemma TimeoutGrows(h: Hist, i: nat, x: Node)
    requires Voted(i, x, h) && i < |h.counted|
    ensures Grows(h, WithBid(h, i, StartElection(x, i)), i)
  {
  }

  lemma TimeoutNode(h: Hist, i: nat, x: Node)
    requires NodeOK(i, x, h) && i < |h.counted|
    requires !(x.term + 1 in h.elect && h.elect[x.term + 1].leader == i)
    ensures NodeOK(i, StartElection(x, i), WithBid(h, i, StartElection(x, i)))
  {
    var y := StartElection(x, i);
    KeepRetains(h, WithBid(h, i, y), i, x, y);
  }

  /** A peer leads no term above its own. */
  lemma NoElectionAhead(h: Hist, n: nat, i: nat, x: Node, t: nat)
    requires Tables(h, n) && VotesOK(h) && Voted(i, x, h) && t in h.elect && h.elect[t].leader == i
    ensures t <= x.term
  {
    assert ElectOK(h, t, n);
    assert h.elect[t].voters != {};
    var w :| w in h.elect[t].voters;
    assert VoteOK(h, w, t);
  }

  function WithVote(h: Hist, v: nat, args: VoteArgs): Hist {
    h.(votes := h.votes[(v, args.term) := args.cand])
  }

  lemma VoteReqStep(c: Cluster, h: Hist, v: nat, args: VoteArgs, reset: bool) returns (g: Hist)
    requires Inv(c, h) && Enabled(c, RecvVoteReq(v, args))
    ensures Grows(h, g, v) && Inv(Do(c, RecvVoteReq(v, args), reset), g) && g.commits == h.commits
    ensures OwnTails(h, g)
  {
    var x := c.nodes[v];
    assert NodeOK(v, x, h);
    assert CountedOnce(v, x, c.pending, h);
    if RequestVote(x, args).1.granted {
      g := WithVote(h, v, args);
      assert MsgOK(VoteReq(args), h, |c.nodes|);
      GrantVote(h, |c.nodes|, v, x, args);
      GrantNode(h, v, x, args);
      VoteReqRest(c, h, v, args, reset, g);
    } else {
      g := h;
      RefuseNode(h, v, x, args);
      VoteReqRest(c, h, v, args, reset, g);
    }
  }

  lemma VoteReqRest(c: Cluster, h: Hist, v: nat, args: VoteArgs, reset: bool, g: Hist)
    requires Inv(c, h) && Enabled(c, RecvVoteReq(v, args)) && Grows(h, g, v) && SameBase(h, g)
    requires NodeOK(v, RequestVote(c.nodes[v], args).0, g) && NewVotesOK(h, g) && CountedOnce(v, c.nodes[v], c.pending, h)
    requires g.counted == h.counted
    requires RequestVote(c.nodes[v], args).1.granted ==>
               (v, args.term) in g.votes && g.votes[(v, args.term)] == args.cand
    ensures Inv(Do(c, RecvVoteReq(v, args), reset), g)
  {
    Quiet(c, h, RecvVoteReq(v, args), reset, g);
  }

  lemma GrantVote(h: Hist, n: nat, v: nat, x: Node, args: VoteArgs)
    requires Tables(h, n) && NodeOK(v, x, h) && RequestVote(x, args).1.granted
    requires MsgOK(VoteReq(args), h, n)
    ensures Grows(h, WithVote(h, v, args), v) && NewVotesOK(h, WithVote(h, v, args))
  {
    GrantGrows(h, v, x, args);
    NewVoteOK(h, WithVote(h, v, args), n, v, x, args.term, (args.lastIndex, args.lastTerm));
  }

  lemma GrantGrows(h: Hist, v: nat, x: Node, args: VoteArgs)
    requires Voted(v, x, h) && RequestVote(x, args).1.granted
    ensures Grows(h, WithVote(h, v, args), v)
  {
  }

  lemma GrantNode(h: Hist, v: nat, x: Node, args: VoteArgs)
    requires NodeOK(v, x, h) && RequestVote(x, args).1.granted && v != args.cand
    ensures NodeOK(v, RequestVote(x, args).0, WithVote(h, v, args))
  {
    KeepRetains(h, WithVote(h, v, args), v, x, RequestVote(x, args).0);
  }

  lemma RefuseNode(h: Hist, v: nat, x: Node, args: VoteArgs)
    requires NodeOK(v, x, h) && !RequestVote(x, args).1.granted
    ensures NodeOK(v, RequestVote(x, args).0, h)
  {
    KeepRetains(h, h, v, x, RequestVote(x, args).0);
  }

  /** The reply counts: it grants, and the election it belongs to is still running. */
  predicate Counts(x: Node, t: nat, reply: VoteReply) {
    x.role == Candidate && x.term == t && reply.term <= t && reply.granted
  }

  lemma VoteRespStep(c: Cluster, h: Hist, s: Step, reset: bool) returns (g: Hist)
    requires Inv(c, h) && s.RecvVoteResp? && Enabled(c, s)
    ensures Grows(h, g, s.cand) && Inv(Do(c, s, reset), g) && g.commits == h.commits
    ensures OwnTails(h, g)
  {
    hide LogOK, ElectOK, TermOK, Dead, LeaderOK, AcksOK, Inherits, VoteOK, Retains, Voted;
    var x := c.nodes[s.cand];
    assert NodeOK(s.cand, x, h);
    if Counts(x, s.term, s.reply) {
      assert MsgOK(VoteResp(s.term, s.cand, s.peer, s.reply), h, |c.nodes|);
      assert CountedOnce(s.cand, x, c.pending, h);
      if x.votes + 1 > x.Peers() / 2 {
        g := WinStep(c, h, s, reset);
      } else {
        g := h.(counted := h.counted[s.cand := h.counted[s.cand] + {s.peer}]);
        CountGrows(h, s.cand, s.peer);
        CountNode(h, s.cand, x, s, reset);
        Quiet(c, h, s, reset, g);
      }
    } else {
      g := h;
      UncountedResp(c, h, s, reset);
    }
  }

  lemma UncountedResp(c: Cluster, h: Hist, s: Step, reset: bool)
    requires Inv(c, h) && s.RecvVoteResp? && Enabled(c, s) && !Counts(c.nodes[s.cand], s.term, s.reply)
    ensures Grows(h, h, s.cand) && Inv(Do(c, s, reset), h)
  {
    hide LogOK, ElectOK, TermOK, Dead, LeaderOK, AcksOK, Inherits, VoteOK;
    var x := c.nodes[s.cand];
    assert NodeOK(s.cand, x, h);
    KeepRetains(h, h, s.cand, x, ReceiveVote(x, s.term, s.reply, reset));
    assert CountedOnce(s.cand, x, c.pending, h);
    Quiet(c, h, s, reset, h);
  }

  lemma CountGrows(h: Hist, i: nat, p: nat)
    requires i < |h.counted|
    ensures Grows(h, h.(counted := h.counted[i := h.counted[i] + {p}]), i)
  {
  }

  lemma CountNode(h: Hist, i: nat, x: Node, s: Step, reset: bool)
    requires NodeOK(i, x, h) && i < |h.counted| && s.RecvVoteResp? && s.peer < |h.counted|
    requires Counts(x, s.term, s.reply) && x.votes + 1 <= x.Peers() / 2
    requires s.peer !in h.counted[i] && (s.peer, s.term) in h.votes && h.votes[(s.peer, s.term)] == i
    ensures var g := h.(counted := h.counted[i := h.counted[i] + {s.peer}]);
            NodeOK(i, ReceiveVote(x, s.term, s.reply, reset), g)
  {
    var g := h.(counted := h.counted[i := h.counted[i] + {s.peer}]);
    KeepRetains(h, g, i, x, ReceiveVote(x, s.term, s.reply, reset));
  }

  /** No term is won twice: the quorum that elected its leader would have to vote again. */
  lemma FirstWin(h: Hist, n: nat, i: nat, x: Node, q: set<nat>)
    requires Tables(h, n) && NodeOK(i, x, h) && x.role == Candidate && IsQuorum(q, n)
    requires forall w :: w in q ==> (w, x.term) in h.votes && h.votes[(w, x.term)] == i
    ensures x.term !in h.elect
  {
    if x.term in h.elect {
      assert ElectOK(h, x.term, n);
      var w := QuorumsMeet(q, h.elect[x.term].voters, n);
      assert false;
    }
  }

  /** What a new leader inherits: a voter that acknowledged (t0, k) only voted for a log
      at least as new, and such a log descends from term t0's. */
  lemma NewLeaderInherits(h: Hist, g: Hist, n: nat, i: nat, x: Node, q: set<nat>, t0: nat, k: nat)
    requires Tables(h, n) && AllInherit(h) && VotesOK(h) && NodeOK(i, x, h) && x.role == Candidate && i < n
    requires Grows(h, g, i) && x.term !in h.elect && x.term in g.elect && g.elect[x.term].voters == q
    requires x.term in g.logs && g.logs[x.term] == x.log && g.acks == h.acks
    requires forall w :: w in q ==> (w, x.term) in h.votes && h.votes[(w, x.term)] == i
    requires t0 < x.term && OwnEntry(h, t0, k) && g.logs[t0] == h.logs[t0]
    ensures Has(x.log, g, t0, k) || Dead(g, t0, k, x.term)
  {
    hide ElectOK, Voted, LeaderOK, AcksOK;
    if w :| w in q && Acked(h, w, t0, k) {
      assert VoteOK(h, w, x.term);
      var lt, li := x.LastTerm(), x.LastIndex();
      if lt > t0 {
        assert li >= 1;
        assert x.log[..li + 1] == x.log;
        assert Descends(x.log, h, li);
        assert Inherits(h, t0, k, lt);
        if Dead(h, t0, k, lt) {
          DeadStays(h, g, i, n, t0, k, lt, x.term);
        } else {
          var l := h.logs[lt];
          assert TermOK(h, lt);
          assert l[k] == h.logs[t0][..k + 1][k];
          assert l[li] == x.log[li];
          if li <= k {
            TermsSorted(l, h, n, li, k);
            assert false;
          }
        }
      } else if Dead(h, t0, k, x.term) {
        DeadStays(h, g, i, n, t0, k, x.term, x.term);
      } else {
        assert li >= k >= 1;
        assert Descends(x.log, h, li);
        assert x.log[..li + 1] == x.log;
      }
    } else {
      assert NoneAcked(g, x.term, t0, k);
    }
  }

  function WithWin(h: Hist, i: nat, x: Node, q: set<nat>): Hist
    requires i < |h.counted|
  {
    h.(counted := h.counted[i := q],
       logs := h.logs[x.term := x.log], elect := h.elect[x.term := Won(i, q)])
  }

  lemma WinStep(c: Cluster, h: Hist, s: Step, reset: bool) returns (g: Hist)
    requires Inv(c, h) && s.RecvVoteResp? && Enabled(c, s)
    requires var x := c.nodes[s.cand]; Counts(x, s.term, s.reply) && x.votes + 1 > x.Peers() / 2
    requires s.peer !in h.counted[s.cand]
    ensures Grows(h, g, s.cand) && Inv(Do(c, s, reset), g) && g.commits == h.commits
    ensures OwnTails(h, g)
  {
    var i, n := s.cand, |c.nodes|;
    var x := c.nodes[i];
    var q := h.counted[i] + {s.peer};
    assert NodeOK(i, x, h);
    assert MsgOK(VoteResp(s.term, i, s.peer, s.reply), h, n);
    FirstWin(h, n, i, x, q);
    g := WithWin(h, i, x, q);
    WinGrows(h, i, x, q);
    WinTables(h, n, i, x, q);
    WinInherits(h, n, i, x, q);
    WinNode(h, n, i, x, q, s, reset);
    Rebuild(c, h, s, reset, g);
  }

  lemma WinInherits(h: Hist, n: nat, i: nat, x: Node, q: set<nat>)
    requires Tables(h, n) && AllInherit(h) && VotesOK(h) && NodeOK(i, x, h) && x.role == Candidate && i < n
    requires x.term !in h.elect && Grows(h, WithWin(h, i, x, q), i)
    requires forall w :: w in q ==> (w, x.term) in h.votes && h.votes[(w, x.term)] == i
    ensures AllInherit(WithWin(h, i, x, q))
  {
    var g := WithWin(h, i, x, q);
    forall t: nat, k: nat, u: nat
      ensures Inherits(g, t, k, u)
    {
      NoOwnEntryBeforeWin(h, g, n, x, k);
      if u in h.logs {
        InheritFrame(h, g, i, n, t, k, u);
      } else if u == x.term && t < u && OwnEntry(g, t, k) {
        NewLeaderInherits(h, g, n, i, x, q, t, k);
      }
    }
  }

  lemma NoOwnEntryBeforeWin(h: Hist, g: Hist, n: nat, x: Node, k: nat)
    requires Tables(h, n) && Grounded(x.log, h) && x.term !in h.elect
    requires x.term in g.logs && g.logs[x.term] == x.log
    ensures !OwnEntry(g, x.term, k)
  {
    if 1 <= k < |x.log| {
      assert Descends(x.log, h, k);
    }
  }

  lemma WinGrows(h: Hist, i: nat, x: Node, q: set<nat>)
    requires i < |h.counted| && h.logs.Keys == h.elect.Keys && x.term !in h.elect
    ensures Grows(h, WithWin(h, i, x, q), i)
  {
  }

  lemma WinTables(h: Hist, n: nat, i: nat, x: Node, q: set<nat>)
    requires Tables(h, n) && NodeOK(i, x, h) && i < n && x.term !in h.elect && x.role == Candidate
    requires IsQuorum(q, n) && forall w :: w in q ==> (w, x.term) in h.votes && h.votes[(w, x.term)] == i
    ensures Tables(WithWin(h, i, x, q), n)
  {
    var g := WithWin(h, i, x, q);
    forall t | t in g.logs
      ensures TermOK(g, t)
    {
      if t == x.term {
        GroundedGrows(x.log, h, g);
      } else {
        assert TermOK(h, t);
        GroundedGrows(h.logs[t], h, g);
      }
    }
    forall t | t in g.elect
      ensures ElectOK(g, t, n)
    {
      if t != x.term {
        assert ElectOK(h, t, n);
      }
    }
  }

  lemma WinNode(h: Hist, n: nat, i: nat, x: Node, q: set<nat>, s: Step, reset: bool)
    requires Tables(h, n) && NodeOK(i, x, h) && i < n && x.term !in h.elect
    requires Grows(h, WithWin(h, i, x, q), i)
    requires s.RecvVoteResp? && Counts(x, s.term, s.reply) && x.votes + 1 > x.Peers() / 2
    ensures NodeOK(i, ReceiveVote(x, s.term, s.reply, reset), WithWin(h, i, x, q))
  {
    var g := WithWin(h, i, x, q);
    var y := ReceiveVote(x, s.term, s.reply, reset);
    GroundedGrows(x.log, h, g);
    forall k: nat
      ensures !OwnEntry(g, x.term, k)
    {
      NoOwnEntryBeforeWin(h, g, n, x, k);
    }
    forall t: nat, k: nat | OwnEntry(g, t, k) && Acked(g, i, t, k)
      ensures Has(y.log, g, t, k) || Dead(g, t, k, y.term)
    {
      OldAckOldEntry(h, g, i, n, i, t, k);
      if Dead(h, t, k, x.term) {
        DeadStays(h, g, i, n, t, k, x.term, y.term);
      }
    }
  }
}
