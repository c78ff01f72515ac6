/** Appending, replicating, replying, applying and restarting keep the invariant, as written. */
module RaftReplication {
  import opened Ops
  import opened RaftNode
  import opened RaftCluster
  import opened RaftInv
  import opened RaftFrame
  import opened RaftSteps

  // ------------------------------------------------- conflict-only truncation

  /** The tail that a leader's log `l` sends for `prev`, up to index `m`. */
  predicate Fits(log: Log, l: Log, prev: nat, m: nat) {
    prev <= m < |l| && prev < |log| && log[prev].term == l[prev].term
  }

  /** A follower that accepts ends up with the leader's log up to `m`: either it had it all
      along and keeps whatever follows, or its log becomes exactly that prefix. */
  lemma MergedIs(log: Log, l: Log, h: Hist, prev: nat, m: nat)
    requires Grounded(log, h) && Grounded(l, h) && Fits(log, l, prev, m)
    ensures var r := Merged(log, prev, l[prev + 1..m + 1]);
            l[..m + 1] <= r && (r == log || r == l[..m + 1])
  {
    hide Descends, Agreeing;
    var entries := l[prev + 1..m + 1];
    var k := Agreeing(log, prev + 1, entries);
    AgreeingSpec(log, prev + 1, entries);
    if k > 0 {
      assert log[prev + k].term == entries[k - 1].term == l[prev + k].term;
    }
    SamePrefix(log, l, h, prev + k);
    assert log[..prev + k + 1] == l[..prev + k + 1];
    if k < |entries| {
      assert entries[k..] == l[prev + 1 + k..m + 1];
      assert log[..prev + 1 + k] + entries[k..] == l[..m + 1];
      if prev + 1 + k == |log| {
        assert log == log[..prev + 1 + k];
      }
    }
  }

  lemma SharedAt(a: seq<Entry>, b: seq<Entry>, k: nat)
    requires k <= |a| && k <= |b| && a[..k] == b[..k]
    ensures forall i :: 0 <= i < k ==> a[i] == b[i]
  {
    forall i | 0 <= i < k
      ensures a[i] == b[i]
    {
      assert a[..k][i] == b[..k][i];
    }
  }

  /** Truncation never cuts what the follower already shares with the leader. */
  lemma MergedKeeps(log: Log, l: Log, h: Hist, prev: nat, m: nat, k: nat)
    requires Grounded(log, h) && Grounded(l, h) && Fits(log, l, prev, m)
    requires k <= |log| && k <= |l| && log[..k] == l[..k]
    ensures log[..k] <= Merged(log, prev, l[prev + 1..m + 1])
  {
    var entries := l[prev + 1..m + 1];
    var c := Agreeing(log, prev + 1, entries);
    AgreeingSpec(log, prev + 1, entries);
    MergedIs(log, l, h, prev, m);
    SharedAt(log, l, k);
    if c < |entries| {
      assert prev + 1 + c >= k;
      assert l[..m + 1][..k] == l[..k];
    }
  }

  lemma PrefixGrounded(l: Log, h: Hist, m: nat)
    requires Grounded(l, h) && m < |l|
    ensures Grounded(l[..m + 1], h)
  {
    var p: Log := l[..m + 1];
    forall k | 1 <= k < |p|
      ensures Descends(p, h, k)
    {
      assert Descends(l, h, k);
      assert p[..k + 1] == l[..k + 1];
    }
  }

  // ---------------------------------------------------------------------- Start

  function WithEntry(h: Hist, i: nat, x: Node, e: Entry): Hist {
    h.(logs := h.logs[x.term := x.log + [e]], acks := h.acks[(i, x.term) := |x.log|])
  }

  lemma ClientStep(c: Cluster, h: Hist, i: nat, cmd: Command, reset: bool) returns (g: Hist)
    requires Inv(c, h) && Enabled(c, ClientReq(i, cmd))
    ensures Grows(h, g, i) && Inv(Do(c, ClientReq(i, cmd), reset), g) && g.commits == h.commits
    ensures OwnTails(h, g)
  {
    hide LogOK, ElectOK, Dead, Retains, AcksOK, TermOK, VoteOK, Has, Voted, WithEntry, OwnTails, Grows, AllInherit, Tables;
    var x, n := c.nodes[i], |c.nodes|;
    assert NodeOK(i, x, h);
    assert CountedOnce(i, x, c.pending, h);
    if x.role == Leader {
      g := EntryHist(h, n, i, x, cmd);
      Rebuild(c, h, ClientReq(i, cmd), reset, g);
    } else {
      g := h;
      Quiet(c, h, ClientReq(i, cmd), reset, g);
      GrowsByNothing(h, i);
    }
  }

  lemma GrowsByNothing(h: Hist, i: nat)
    ensures Grows(h, h, i) && OwnTails(h, h)
  {
  }

  lemma EntryHist(h: Hist, n: nat, i: nat, x: Node, cmd: Command) returns (g: Hist)
    requires Tables(h, n) && NodeOK(i, x, h) && AllInherit(h) && x.role == Leader && i < n
    ensures Grows(h, g, i) && OwnTails(h, g) && Tables(g, n) && AllInherit(g) && NodeOK(i, ClientStart(x, cmd), g)
    ensures g.commits == h.commits && g.votes == h.votes && g.bids == h.bids && g.counted == h.counted
  {
    hide LogOK, ElectOK, Dead, Retains, TermOK, VoteOK, Has, Voted;
    g := WithEntry(h, i, x, Entry(x.term, cmd));
    EntryGrows(h, n, i, x, cmd);
    EntryTables(h, n, i, x, cmd);
    EntryInherits(h, n, i, g);
    EntryNode(h, n, i, x, cmd);
  }

  lemma EntryInherits(h: Hist, n: nat, i: nat, g: Hist)
    requires Tables(h, n) && Grows(h, g, i) && AllInherit(h) && AcksOK(g, n) && g.logs.Keys == h.logs.Keys
    ensures AllInherit(g)
  {
    hide Tables, Grows, AcksOK, AllInherit, Inherits, Dead;
    forall t: nat, k: nat, u: nat
      ensures Inherits(g, t, k, u)
    {
      if u in h.logs {
        InheritFrame(h, g, i, n, t, k, u);
      } else {
        NoSuchTerm(g, t, k, u);
      }
    }
    AllInherits(g);
  }

  lemma NoSuchTerm(h: Hist, t: nat, k: nat, u: nat)
    requires u !in h.logs
    ensures Inherits(h, t, k, u)
  {
  }

  lemma AllInherits(h: Hist)
    requires forall t: nat, k: nat, u: nat :: Inherits(h, t, k, u)
    ensures AllInherit(h)
  {
  }

  lemma EntryGrows(h: Hist, n: nat, i: nat, x: Node, cmd: Command)
    requires AcksOK(h, n) && Voted(i, x, h) && LeaderOK(i, x, h) && i < n
    ensures Grows(h, WithEntry(h, i, x, Entry(x.term, cmd)), i)
  {
  }

  lemma EntryTables(h: Hist, n: nat, i: nat, x: Node, cmd: Command)
    requires Tables(h, n) && NodeOK(i, x, h) && x.role == Leader && i < n
    requires Grows(h, WithEntry(h, i, x, Entry(x.term, cmd)), i)
    ensures Tables(WithEntry(h, i, x, Entry(x.term, cmd)), n)
    ensures LogOK(x.log + [Entry(x.term, cmd)], x.term, WithEntry(h, i, x, Entry(x.term, cmd)))
  {
    hide Retains, Dead, Voted;
    var g := WithEntry(h, i, x, Entry(x.term, cmd));
    EntryGrounded(h, n, i, x, cmd);
    forall t | t in g.logs
      ensures TermOK(g, t)
    {
      assert TermOK(h, t);
      if t != x.term {
        GroundedGrows(h.logs[t], h, g);
      }
    }
    forall t | t in g.elect
      ensures ElectOK(g, t, n)
    {
      assert ElectOK(h, t, n);
    }
  }

  lemma EntryGrounded(h: Hist, n: nat, i: nat, x: Node, cmd: Command)
    requires Tables(h, n) && NodeOK(i, x, h) && x.role == Leader && i < n
    requires Grows(h, WithEntry(h, i, x, Entry(x.term, cmd)), i)
    ensures Grounded(x.log + [Entry(x.term, cmd)], WithEntry(h, i, x, Entry(x.term, cmd)))
  {
    hide Retains, Dead, Voted, ElectOK, AcksOK;
    var g := WithEntry(h, i, x, Entry(x.term, cmd));
    var l := x.log + [Entry(x.term, cmd)];
    forall k | 1 <= k < |l|
      ensures Descends(l, g, k)
    {
      if k < |x.log| {
        assert Descends(x.log, h, k);
        assert l[..k + 1] == x.log[..k + 1];
      } else {
        assert l[..k + 1] == l;
      }
    }
  }

  lemma EntryNode(h: Hist, n: nat, i: nat, x: Node, cmd: Command)
    requires Tables(h, n) && NodeOK(i, x, h) && x.role == Leader && i < n
    requires Grows(h, WithEntry(h, i, x, Entry(x.term, cmd)), i)
    requires LogOK(x.log + [Entry(x.term, cmd)], x.term, WithEntry(h, i, x, Entry(x.term, cmd)))
    ensures NodeOK(i, ClientStart(x, cmd), WithEntry(h, i, x, Entry(x.term, cmd)))
  {
    var g := WithEntry(h, i, x, Entry(x.term, cmd));
    var y := ClientStart(x, cmd);
    forall t: nat, k: nat | OwnEntry(g, t, k) && Acked(g, i, t, k)
      ensures Has(y.log, g, t, k) || Dead(g, t, k, y.term)
    {
      if t != x.term {
        assert Acked(h, i, t, k) && OwnEntry(h, t, k);
        if Dead(h, t, k, x.term) {
          DeadStays(h, g, i, n, t, k, x.term, y.term);
        } else {
          assert Has(x.log, h, t, k);
        }
      }
    }
    forall k: nat | OwnEntry(g, y.term, k)
      ensures Acked(g, i, y.term, k)
    {
      if k < |x.log| {
        assert OwnEntry(h, x.term, k);
      }
    }
  }

  // --------------------------------------------------------------- AppendEntries

  lemma SendStep(c: Cluster, h: Hist, i: nat, p: nat, reset: bool)
    requires Inv(c, h) && Enabled(c, SendAppend(i, p))
    ensures Grows(h, h, i) && Inv(Do(c, SendAppend(i, p), reset), h)
  {
    var x := c.nodes[i];
    assert NodeOK(i, x, h);
    assert CountedOnce(i, x, c.pending, h);
    var m := MakeAppend(x, i, p);
    assert x.log[m.prevIndex + 1..] == x.log[m.prevIndex + 1..m.Last() + 1];
    Quiet(c, h, SendAppend(i, p), reset, h);
  }

  function WithAck(h: Hist, i: nat, a: AppendArgs): Hist {
    var prior := if (i, a.term) in h.acks then h.acks[(i, a.term)] else 0;
    h.(acks := h.acks[(i, a.term) := if prior > a.Last() then prior else a.Last()])
  }

  lemma AppendStep(c: Cluster, h: Hist, i: nat, a: AppendArgs, reset: bool) returns (g: Hist)
    requires Inv(c, h) && Enabled(c, RecvAppend(i, a))
    ensures Grows(h, g, i) && Inv(Do(c, RecvAppend(i, a), reset), g) && g.commits == h.commits
    ensures OwnTails(h, g)
  {
    var x, n, s := c.nodes[i], |c.nodes|, RecvAppend(i, a);
    assert NodeOK(i, x, h);
    assert MsgOK(AppReq(i, a), h, n);
    assert CountedOnce(i, x, c.pending, h);
    if AppendEntries(x, a).1.success {
      g := WithAck(h, i, a);
      AckGrows(h, n, i, x, a);
      AckTables(h, n, i, x, a);
      AckInherits(h, n, i, a);
      AcceptNode(h, n, i, x, a);
      AcceptRest(c, h, i, a, reset);
    } else {
      g := h;
      RejectNode(h, i, x, a);
      RejectRest(c, h, i, a, reset);
    }
  }

  lemma AcceptRest(c: Cluster, h: Hist, i: nat, a: AppendArgs, reset: bool)
    requires Inv(c, h) && Enabled(c, RecvAppend(i, a)) && AppendEntries(c.nodes[i], a).1.success
    requires AppOK(a, h) && CountedOnce(i, c.nodes[i], c.pending, h)
    requires var g := WithAck(h, i, a);
             Grows(h, g, i) && Tables(g, |c.nodes|) && AllInherit(g) &&
             NodeOK(i, AppendEntries(c.nodes[i], a).0, g)
    ensures Inv(Do(c, RecvAppend(i, a), reset), WithAck(h, i, a))
  {
    hide LogOK, ElectOK, TermOK, Dead, Retains, AcksOK;
    AcceptShape(c.nodes[i], a);
    Rebuild(c, h, RecvAppend(i, a), reset, WithAck(h, i, a));
  }

  lemma RejectRest(c: Cluster, h: Hist, i: nat, a: AppendArgs, reset: bool)
    requires Inv(c, h) && Enabled(c, RecvAppend(i, a)) && !AppendEntries(c.nodes[i], a).1.success
    requires AppOK(a, h) && CountedOnce(i, c.nodes[i], c.pending, h)
    requires NodeOK(i, AppendEntries(c.nodes[i], a).0, h)
    ensures Inv(Do(c, RecvAppend(i, a), reset), h)
  {
    Quiet(c, h, RecvAppend(i, a), reset, h);
  }

  lemma AckInherits(h: Hist, n: nat, i: nat, a: AppendArgs)
    requires Tables(h, n) && AllInherit(h) && Grows(h, WithAck(h, i, a), i) && Tables(WithAck(h, i, a), n)
    ensures AllInherit(WithAck(h, i, a))
  {
    forall t: nat, k: nat, u: nat
      ensures Inherits(WithAck(h, i, a), t, k, u)
    {
      if u in h.logs {
        InheritFrame(h, WithAck(h, i, a), i, n, t, k, u);
      }
    }
  }

  /** What accepting an append changes. */
  lemma AcceptShape(x: Node, a: AppendArgs)
    requires AppendEntries(x, a).1.success
    ensures var y := AppendEntries(x, a).0;
            a.term >= x.term && a.prevIndex < |x.log| && x.log[a.prevIndex].term == a.prevTerm &&
            y.term == a.term && y.role == Follower && y.log == Merged(x.log, a.prevIndex, a.entries) &&
            y.commit == (if a.leaderCommit > x.commit then Min(a.leaderCommit, a.Last()) else x.commit) &&
            y.applied == x.applied && y.vote == (if a.term > x.term then NoVote else x.vote) && (x.Synced() ==> y.Synced())
  {
    if Agreeing(x.log, a.prevIndex + 1, a.entries) == |a.entries| {
      assert Merged(x.log, a.prevIndex, a.entries) == x.log;
    }
  }

  lemma RejectNode(h: Hist, i: nat, x: Node, a: AppendArgs)
    requires NodeOK(i, x, h) && !AppendEntries(x, a).1.success
    ensures NodeOK(i, AppendEntries(x, a).0, h)
  {
    KeepRetains(h, h, i, x, AppendEntries(x, a).0);
  }

  lemma AckGrows(h: Hist, n: nat, i: nat, x: Node, a: AppendArgs)
    requires AcksOK(h, n) && Voted(i, x, h) && i < n && a.term >= x.term
    ensures Grows(h, WithAck(h, i, a), i)
  {
  }

  lemma AckTables(h: Hist, n: nat, i: nat, x: Node, a: AppendArgs)
    requires Tables(h, n) && NodeOK(i, x, h) && i < n && AppOK(a, h)
    requires Grows(h, WithAck(h, i, a), i)
    ensures Tables(WithAck(h, i, a), n)
  {
    hide NodeOK, Dead;
    var g := WithAck(h, i, a);
    forall t | t in g.logs
      ensures TermOK(g, t)
    {
      assert TermOK(h, t);
      GroundedGrows(h.logs[t], h, g);
    }
    forall t | t in g.elect
      ensures ElectOK(g, t, n)
    {
      assert ElectOK(h, t, n);
    }
  }

  /** What a follower shares with term `a.term`'s log survives accepting `a`. */
  lemma AcceptKeeps(h: Hist, x: Node, a: AppendArgs, k: nat)
    requires Grounded(x.log, h) && AppOK(a, h) && TermOK(h, a.term)
    requires AppendEntries(x, a).1.success
    requires k <= |x.log| && k <= |h.logs[a.term]| && x.log[..k] == h.logs[a.term][..k]
    ensures x.log[..k] <= AppendEntries(x, a).0.log
  {
    AcceptShape(x, a);
    MergedKeeps(x.log, h.logs[a.term], h, a.prevIndex, a.Last(), k);
  }

  lemma AcceptLog(h: Hist, n: nat, x: Node, a: AppendArgs)
    requires Tables(h, n) && LogOK(x.log, x.term, h) && AppOK(a, h)
    requires AppendEntries(x, a).1.success
    ensures var r := AppendEntries(x, a).0.log;
            h.logs[a.term][..a.Last() + 1] <= r && LogOK(r, a.term, h)
  {
    hide AppendEntries, Merged, Descends, Agreeing;
    AcceptShape(x, a);
    assert TermOK(h, a.term);
    MergedIs(x.log, h.logs[a.term], h, a.prevIndex, a.Last());
    PrefixGrounded(h.logs[a.term], h, a.Last());
  }

  lemma AcceptNode(h: Hist, n: nat, i: nat, x: Node, a: AppendArgs)
    requires Tables(h, n) && AllInherit(h) && NodeOK(i, x, h) && i < n && AppOK(a, h)
    requires AppendEntries(x, a).1.success && Grows(h, WithAck(h, i, a), i)
    ensures NodeOK(i, AppendEntries(x, a).0, WithAck(h, i, a))
  {
    var g := WithAck(h, i, a);
    var y := AppendEntries(x, a).0;
    AcceptShape(x, a);
    AcceptLog(h, n, x, a);
    GroundedGrows(y.log, h, g);
    forall t: nat, k: nat | OwnEntry(g, t, k) && Acked(g, i, t, k)
      ensures Has(y.log, g, t, k) || Dead(g, t, k, y.term)
    {
      AcceptRetains(h, n, i, x, a, t, k);
    }
  }

  /** Everything acknowledged so far, the new acknowledgement included, is in the log or dead. */
  lemma AcceptRetains(h: Hist, n: nat, i: nat, x: Node, a: AppendArgs, t: nat, k: nat)
    requires Tables(h, n) && AllInherit(h) && NodeOK(i, x, h) && i < n && AppOK(a, h)
    requires AppendEntries(x, a).1.success && Grows(h, WithAck(h, i, a), i)
    requires OwnEntry(h, t, k) && Acked(WithAck(h, i, a), i, t, k)
    ensures Has(AppendEntries(x, a).0.log, h, t, k) || Dead(WithAck(h, i, a), t, k, a.term)
  {
    hide AppendEntries, ElectOK, Merged, Voted, LeaderOK, CandidateOK;
    var g, l := WithAck(h, i, a), h.logs[a.term];
    AcceptShape(x, a);
    AcceptLog(h, n, x, a);
    assert TermOK(h, a.term);
    if t == a.term && k <= a.Last() {
      assert l[..a.Last() + 1][..k + 1] == l[..k + 1];
    } else {
      assert Acked(h, i, t, k);
      if Dead(h, t, k, x.term) {
        DeadStays(h, g, i, n, t, k, x.term, a.term);
      } else {
        assert Has(x.log, h, t, k);
        assert Inherits(h, t, k, a.term);
        if t < a.term && Dead(h, t, k, a.term) {
          DeadStays(h, g, i, n, t, k, a.term, a.term);
        } else {
          assert x.log[..k + 1] == h.logs[t][..k + 1] == l[..k + 1];
          AcceptKeeps(h, x, a, k + 1);
        }
      }
    }
  }

  // --------------------------------------------- replies, applying, restarting

  lemma AppRespStep(c: Cluster, h: Hist, p: nat, a: AppendArgs, r: AppendReply, reset: bool)
    requires Inv(c, h) && Enabled(c, RecvAppResp(p, a, r))
    ensures Grows(h, h, a.leader) && Inv(Do(c, RecvAppResp(p, a, r), reset), h)
  {
    hide ElectOK, TermOK, Dead, AcksOK, Grounded;
    var x := c.nodes[a.leader];
    assert NodeOK(a.leader, x, h);
    assert MsgOK(AppResp(p, a, r), h, |c.nodes|);
    assert CountedOnce(a.leader, x, c.pending, h);
    ReplyNode(h, x, p, a, r);
    Quiet(c, h, RecvAppResp(p, a, r), reset, h);
  }

  /** Advancing `nextIndex`, or backing up, keeps it within the leader's log. */
  lemma ReplyNode(h: Hist, x: Node, p: nat, a: AppendArgs, r: AppendReply)
    requires NodeOK(a.leader, x, h) && MsgOK(AppResp(p, a, r), h, |x.next|) && p < |x.next| == |x.matched|
    ensures NodeOK(a.leader, ReceiveAppend(x, a.leader, p, a, r), h)
  {
    hide Counted, Majority, Grounded, Dead;
    KeepRetains(h, h, a.leader, x, ReceiveAppend(x, a.leader, p, a, r));
  }

  lemma ApplyStep(c: Cluster, h: Hist, i: nat, reset: bool)
    requires Inv(c, h) && Enabled(c, Apply(i))
    ensures Grows(h, h, i) && Inv(Do(c, Apply(i), reset), h)
  {
    assert NodeOK(i, c.nodes[i], h);
    assert CountedOnce(i, c.nodes[i], c.pending, h);
    KeepRetains(h, h, i, c.nodes[i], ApplyOne(c.nodes[i]));
    Quiet(c, h, Apply(i), reset, h);
  }

  /** A restart reads back the term, vote and log it had, because every handler persists
      them before it releases the lock. */
  lemma RestartStep(c: Cluster, h: Hist, i: nat, reset: bool)
    requires Inv(c, h) && Enabled(c, Restart(i))
    ensures Grows(h, h, i) && Inv(Do(c, Restart(i), reset), h)
  {
    var x := c.nodes[i];
    assert NodeOK(i, x, h);
    assert CountedOnce(i, x, c.pending, h);
    KeepRetains(h, h, i, x, Boot(|c.nodes|, x.disk));
    Quiet(c, h, Restart(i), reset, h);
  }

  // --------------------------------------------------------------- any step, any run

  lemma AnyStep(c: Cluster, h: Hist, s: Step, reset: bool) returns (g: Hist)
    requires Inv(c, h) && Enabled(c, s)
    ensures Grows(h, g, Actor(s)) && Inv(Do(c, s, reset), g) && g.commits == h.commits
    ensures OwnTails(h, g)
  {
    match s
    case Timeout(i) => g := TimeoutStep(c, h, i, reset);
    case RecvVoteReq(v, args) => g := VoteReqStep(c, h, v, args, reset);
    case RecvVoteResp(_, _, _, _) => g := VoteRespStep(c, h, s, reset);
    case ClientReq(i, cmd) => g := ClientStep(c, h, i, cmd, reset);
    case SendAppend(i, p) => g := h; SendStep(c, h, i, p, reset);
    case RecvAppend(i, a) => g := AppendStep(c, h, i, a, reset);
    case RecvAppResp(p, a, r) => g := h; AppRespStep(c, h, p, a, r, reset);
    case Apply(i) => g := h; ApplyStep(c, h, i, reset);
    case Restart(i) => g := h; RestartStep(c, h, i, reset);
  }

  lemma InitOK(n: nat)
    requires n >= 2
    ensures Inv(InitCluster(n), InitHist(n))
  {
    var c, h := InitCluster(n), InitHist(n);
    forall i | 0 <= i < n
      ensures NodeOK(i, c.nodes[i], h) && CountedOnce(i, c.nodes[i], c.pending, h)
    {
      assert c.nodes[i] == Boot(n, None);
    }
    assert forall t: nat, k: nat, u: nat :: Inherits(h, t, k, u);
  }
}
