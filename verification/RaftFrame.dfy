/** What growth of the history at one peer leaves alone: dead prefixes stay dead,
    and every other peer, every old message and every old vote keep their invariants. */
module RaftFrame {
  import opened RaftNode
  import opened RaftCluster
  import opened RaftInv

  lemma {:induction false} SmallSet(q: set<nat>, n: nat)
    requires forall w :: w in q ==> w < n
    ensures |q| <= n
  {
    if q != {} {
      SmallSet(q - {n - 1}, n - 1);
    }
  }

  /** Two quorums of the same cluster share a peer. */
  lemma QuorumsMeet(a: set<nat>, b: set<nat>, n: nat) returns (w: nat)
    requires IsQuorum(a, n) && IsQuorum(b, n)
    ensures w in a && w in b
  {
    SmallSet(a + b, n);
    assert |a + b| + |a * b| == |a| + |b|;
    w :| w in a * b;
  }

  // ------------------------------------------------------------- grounded logs

  /** Log Matching at one index: same term, same prefix. */
  lemma SamePrefix(a: Log, b: Log, h: Hist, k: nat)
    requires Grounded(a, h) && Grounded(b, h)
    requires k < |a| && k < |b| && a[k].term == b[k].term
    ensures a[..k + 1] == b[..k + 1]
  {
    if k == 0 {
      assert a[..1] == [Sentinel] == b[..1];
    } else {
      assert Descends(a, h, k) && Descends(b, h, k);
    }
  }

  /** Terms never decrease along a grounded log. */
  lemma TermsSorted(a: Log, h: Hist, n: nat, i: nat, j: nat)
    requires Grounded(a, h) && Tables(h, n) && i <= j < |a|
    ensures a[i].term <= a[j].term
  {
    if i < j {
      var s := a[j].term;
      assert Descends(a, h, j);
      assert a[i] == a[..j + 1][i] == h.logs[s][i];
      assert TermOK(h, s);
    }
  }

  lemma GroundedGrows(a: Log, h: Hist, g: Hist)
    requires Grounded(a, h)
    requires forall t :: t in h.logs ==> t in g.logs && h.logs[t] <= g.logs[t]
    ensures Grounded(a, g)
  {
    forall k | 1 <= k < |a|
      ensures Descends(a, g, k)
    {
      assert Descends(a, h, k);
    }
  }

  // ---------------------------------------------------------------- dead stays

  /** The voters of a recorded election have moved past every earlier term. */
  lemma NoNewAck(h: Hist, g: Hist, a: nat, n: nat, d: nat, w: nat, t: nat, k: nat)
    requires Tables(h, n) && Grows(h, g, a)
    requires d in h.elect && w in h.elect[d].voters && t < d
    requires Acked(g, w, t, k)
    ensures Acked(h, w, t, k)
  {
    assert ElectOK(h, d, n);
    assert (w, d) in g.votes;
  }

  lemma DeadStays(h: Hist, g: Hist, a: nat, n: nat, t: nat, k: nat, u: nat, v: nat)
    requires Tables(h, n) && Grows(h, g, a)
    requires Dead(h, t, k, u) && u <= v
    ensures Dead(g, t, k, v)
  {
    var d :| t < d <= u && d in h.elect && NoneAcked(h, d, t, k);
    forall w | w in g.elect[d].voters
      ensures !Acked(g, w, t, k)
    {
      if Acked(g, w, t, k) {
        NoNewAck(h, g, a, n, d, w, t, k);
      }
    }
    assert NoneAcked(g, d, t, k);
  }

  /** An entry new to term `t`'s log that somebody acknowledged, was acknowledged by `a`. */
  lemma OldAckOldEntry(h: Hist, g: Hist, a: nat, n: nat, w: nat, t: nat, k: nat)
    requires Tables(h, n) && Grows(h, g, a)
    requires OwnEntry(g, t, k) && Acked(h, w, t, k)
    ensures OwnEntry(h, t, k) && g.logs[t][..k + 1] == h.logs[t][..k + 1]
  {
    assert k < |h.logs[t]|;
    assert g.logs[t][..k + 1] == h.logs[t][..k + 1];
    assert g.logs[t][k] == g.logs[t][..k + 1][k] == h.logs[t][k];
  }

  // -------------------------------------------------------------------- frames

  lemma VoteFrame(h: Hist, g: Hist, a: nat, n: nat, w: nat, t: nat)
    requires Tables(h, n) && Grows(h, g, a)
    requires (w, t) in h.votes && VoteOK(h, w, t)
    ensures VoteOK(g, w, t)
  {
    var key := (t, h.votes[(w, t)]);
    forall t0: nat, k: nat | t0 < t && OwnEntry(g, t0, k) && Acked(g, w, t0, k)
      ensures Dead(g, t0, k, t) || g.bids[key].1 > t0 || (g.bids[key].1 == t0 && g.bids[key].0 >= k)
    {
      assert Acked(h, w, t0, k) by {
        assert (w, t) in g.votes;
      }
      OldAckOldEntry(h, g, a, n, w, t0, k);
      if Dead(h, t0, k, t) {
        DeadStays(h, g, a, n, t0, k, t, t);
      }
    }
  }

  lemma NodeFrame(h: Hist, g: Hist, a: nat, i: nat, x: Node)
    requires Tables(h, |h.counted|) && Grows(h, g, a)
    requires i != a && i < |h.counted| && NodeOK(i, x, h)
    ensures NodeOK(i, x, g)
  {
    hide ElectOK, TermOK;
    GroundedGrows(x.log, h, g);
    forall t: nat, k: nat | OwnEntry(g, t, k) && Acked(g, i, t, k)
      ensures Has(x.log, g, t, k) || Dead(g, t, k, x.term)
    {
      OldAckOldEntry(h, g, a, |h.counted|, i, t, k);
      if Dead(h, t, k, x.term) {
        DeadStays(h, g, a, |h.counted|, t, k, x.term, x.term);
      }
    }
    assert Retains(i, x, g);
    if x.role == Leader {
      assert SelfAcked(g, i, x.term) by {
        forall k: nat | OwnEntry(g, x.term, k)
          ensures Acked(g, i, x.term, k)
        {
          assert OwnEntry(h, x.term, k);
          assert Acked(h, i, x.term, k);
        }
      }
    }
  }

  lemma MsgFrame(h: Hist, g: Hist, a: nat, n: nat, m: Msg)
    requires Grows(h, g, a) && MsgOK(m, h, n)
    ensures MsgOK(m, g, n)
  {
    if m.AppReq? {
      AppFrame(h, g, a, m.appArgs);
    } else if m.AppResp? {
      AppFrame(h, g, a, m.respArgs);
    }
  }

  lemma AppFrame(h: Hist, g: Hist, a: nat, args: AppendArgs)
    requires Grows(h, g, a) && AppOK(args, h)
    ensures AppOK(args, g)
  {
    var l, m := h.logs[args.term], g.logs[args.term];
    assert l == m[..|l|];
  }

  /** Inheritance between elections that were already there. */
  lemma InheritFrame(h: Hist, g: Hist, a: nat, n: nat, t: nat, k: nat, u: nat)
    requires Tables(h, n) && Grows(h, g, a) && AllInherit(h)
    requires AcksOK(g, n)
    requires t in h.logs ==> u in h.logs
    requires t in g.logs && t !in h.logs ==> !OwnEntry(g, t, k)
    ensures Inherits(g, t, k, u)
  {
    if OwnEntry(g, t, k) && t < u && u in g.logs {
      if k < |h.logs[t]| {
        assert g.logs[t][..k + 1] == h.logs[t][..k + 1];
        assert g.logs[t][k] == g.logs[t][..k + 1][k];
        assert Inherits(h, t, k, u);
        if Dead(h, t, k, u) {
          DeadStays(h, g, a, n, t, k, u, u);
        }
      } else {
        forall w | w in g.elect[u].voters
          ensures !Acked(g, w, t, k)
        {
          if Acked(g, w, t, k) {
            NoNewAck(h, g, a, n, u, w, t, k);
            assert false;
          }
        }
        assert NoneAcked(g, u, t, k);
      }
    }
  }

  /** A step adds outstanding calls only for its own actor, and never to itself. */
  lemma PendingFrame(c: Cluster, s: Step, q: Call)
    requires Shape(c) && Enabled(c, s) && q in NewPending(c, s)
    ensures q in c.pending || (q.cand == Actor(s) && q.peer != q.cand)
  {
  }

  ghost predicate NewVotesOK(h: Hist, g: Hist) {
    forall w, t {:trigger VoteOK(g, w, t)} :: (w, t) in g.votes && (w, t) !in h.votes ==> VoteOK(g, w, t)
  }

  ghost predicate NewMsgsOK(c: Cluster, s: Step, g: Hist)
    requires Shape(c) && Enabled(c, s)
  {
    forall m {:trigger MsgOK(m, g, |c.nodes|)} :: m in NewMsgs(c, s) ==> MsgOK(m, g, |c.nodes|)
  }

  /** The invariant after a step, once what changed at its actor is shown. */
  lemma Rebuild(c: Cluster, h: Hist, s: Step, reset: bool, g: Hist)
    requires Inv(c, h) && Enabled(c, s) && Grows(h, g, Actor(s))
    requires Tables(g, |c.nodes|) && AllInherit(g)
    requires NodeOK(Actor(s), NewNode(c, s, reset), g)
    requires NewVotesOK(h, g) && NewMsgsOK(c, s, g)
    requires CountedOnce(Actor(s), NewNode(c, s, reset), NewPending(c, s), g)
    ensures Inv(Do(c, s, reset), g)
  {
    var d, a := Do(c, s, reset), Actor(s);
    DoKeepsShape(c, s, reset);
    forall w, t | (w, t) in g.votes
      ensures VoteOK(g, w, t)
    {
      if (w, t) in h.votes {
        assert VoteOK(h, w, t);
        VoteFrame(h, g, a, |c.nodes|, w, t);
      }
    }
    forall i | 0 <= i < |d.nodes|
      ensures NodeOK(i, d.nodes[i], g)
    {
      if i != a {
        assert NodeOK(i, c.nodes[i], h);
        NodeFrame(h, g, a, i, c.nodes[i]);
      }
    }
    forall m | m in d.msgs
      ensures MsgOK(m, g, |d.nodes|)
    {
      if m in c.msgs {
        assert MsgOK(m, h, |c.nodes|);
        MsgFrame(h, g, a, |c.nodes|, m);
      }
    }
    RebuildPending(c, h, s, reset, g);
  }

  lemma RebuildPending(c: Cluster, h: Hist, s: Step, reset: bool, g: Hist)
    requires Shape(c) && Enabled(c, s) && PendingOK(c, h)
    requires |h.counted| == |g.counted| == |c.nodes|
    requires forall i :: 0 <= i < |h.counted| && i != Actor(s) ==> g.counted[i] == h.counted[i]
    requires CountedOnce(Actor(s), NewNode(c, s, reset), NewPending(c, s), g)
    ensures PendingOK(Do(c, s, reset), g)
  {
    var d := Do(c, s, reset);
    forall q | q in d.pending
      ensures q.peer != q.cand
    {
      PendingFrame(c, s, q);
    }
    forall i | 0 <= i < |d.nodes|
      ensures CountedOnce(i, d.nodes[i], d.pending, g)
    {
      if i != Actor(s) && d.nodes[i].role == Candidate {
        assert CountedOnce(i, c.nodes[i], c.pending, h);
        forall p | p in g.counted[i]
          ensures Call(i, d.nodes[i].term, p) !in d.pending
        {
          if Call(i, d.nodes[i].term, p) in d.pending {
            PendingFrame(c, s, Call(i, d.nodes[i].term, p));
          }
        }
      }
    }
  }
}
