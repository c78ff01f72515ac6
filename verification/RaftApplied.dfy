/** What a peer has handed to its state machine, in this life or an earlier one, stays in its
    log: so one log explains every output of every peer, and a new command always gets an index
    beyond everything its leader ever applied. */
module RaftApplied {
  import opened Ops
  import opened RaftNode
  import opened RaftCluster
  import opened RaftInv
  import opened RaftReplication
  import opened RaftCommit
  import opened RaftSafety

  ghost predicate HeldBy(o: Applied, x: Node, h: Hist) {
    1 <= o.index < |x.log| && x.log[o.index].cmd == o.cmd && Covered(h, x.log[..o.index + 1], x.term)
  }

  ghost predicate Holds(c: Cluster, o: Applied, h: Hist) {
    o.node < |c.nodes| && HeldBy(o, c.nodes[o.node], h)
  }

  ghost predicate AllHeld(c: Cluster, h: Hist) {
    forall o {:trigger Holds(c, o, h)} :: o in c.applied ==> Holds(c, o, h)
  }

  lemma CoveredPrefix(h: Hist, p: seq<Entry>, q: seq<Entry>, u: nat)
    requires Covered(h, q, u) && p <= q
    ensures Covered(h, p, u)
  {
    if |p| > 1 {
      var t: nat, k: nat :| t <= u && CoveredBy(h, q, t, k);
      assert CoveredBy(h, p, t, k);
    }
  }

  /** Accepting entries keeps every committed prefix of the log. */
  lemma AcceptKeepsCovered(h: Hist, n: nat, i: nat, x: Node, a: AppendArgs, m: nat)
    requires Tables(h, n) && AllInherit(h) && CommitsOK(h, n) && NodeOK(i, x, h)
    requires AppOK(a, h) && AppendEntries(x, a).1.success && 1 <= m <= |x.log| && Covered(h, x.log[..m], x.term)
    ensures x.log[..m] <= AppendEntries(x, a).0.log && a.term >= x.term
  {
    assert TermOK(h, a.term);
    CommittedInLeader(h, n, x.log[..m], x.term, a.term);
    assert h.logs[a.term][..m] == x.log[..m];
    AcceptKeeps(h, x, a, m);
  }

  /** No step of a peer loses a committed prefix. */
  lemma StepKeepsCovered(c: Cluster, h: Hist, s: Step, reset: bool, m: nat)
    requires Inv(c, h) && InvCommit(c, h) && Enabled(c, s) && Tame(c, s, reset)
    requires var x := c.nodes[Actor(s)]; 1 <= m <= |x.log| && Covered(h, x.log[..m], x.term)
    ensures var x, y := c.nodes[Actor(s)], NewNode(c, s, reset); x.log[..m] <= y.log && y.term >= x.term
  {
    var i := Actor(s);
    assert NodeOK(i, c.nodes[i], h);
    if s.RecvAppend? && AppendEntries(c.nodes[i], s.appArgs).1.success {
      assert MsgOK(AppReq(i, s.appArgs), h, |c.nodes|);
      AcceptShape(c.nodes[i], s.appArgs);
      AcceptKeepsCovered(h, |c.nodes|, i, c.nodes[i], s.appArgs, m);
    } else if Calm(c, s) {
      CalmNode(c, h, s, reset);
    }
  }

  lemma HeldStep(c: Cluster, h: Hist, s: Step, reset: bool, g: Hist)
    requires Inv(c, h) && InvCommit(c, h) && Enabled(c, s) && Tame(c, s, reset) && AllHeld(c, h) && Extends(h, g)
    ensures AllHeld(Do(c, s, reset), g)
  {
    var d := Do(c, s, reset);
    forall o | o in d.applied
      ensures Holds(d, o, g)
    {
      if o in c.applied {
        assert Holds(c, o, h);
        OldHeld(c, h, s, reset, g, o);
      } else {
        NewHeld(c, h, s, reset, g, o);
      }
    }
  }

  lemma OldHeld(c: Cluster, h: Hist, s: Step, reset: bool, g: Hist, o: Applied)
    requires Inv(c, h) && InvCommit(c, h) && Enabled(c, s) && Tame(c, s, reset) && Holds(c, o, h) && Extends(h, g)
    ensures Holds(Do(c, s, reset), o, g)
  {
    hide InvCommit, NewNode, NewMsgs, NewPending, NewApplied, Extends, Covered, Tables, AllInherit, VotesOK, PendingOK;
    var x, m := c.nodes[o.node], o.index + 1;
    CoveredLater(h, g, x.log[..m], x.term);
    if o.node == Actor(s) {
      StepKeepsCovered(c, h, s, reset, m);
      var y := NewNode(c, s, reset);
      assert Do(c, s, reset).nodes[o.node] == y;
      assert y.log[..m] == x.log[..m];
      assert y.log[o.index] == x.log[..m][o.index];
      CoveredTerm(g, x.log[..m], x.term, y.term);
    }
  }

  lemma CoveredTerm(h: Hist, p: seq<Entry>, u: nat, v: nat)
    requires Covered(h, p, u) && u <= v
    ensures Covered(h, p, v)
  {
    if |p| > 1 {
      var t: nat, k: nat :| t <= u && CoveredBy(h, p, t, k);
    }
  }

  lemma NewHeld(c: Cluster, h: Hist, s: Step, reset: bool, g: Hist, o: Applied)
    requires Inv(c, h) && InvCommit(c, h) && Enabled(c, s) && Extends(h, g)
    requires o in NewApplied(c, s)
    ensures Holds(Do(c, s, reset), o, g)
  {
    var x := c.nodes[o.node];
    assert NodeCommit(o.node, x, h);
    assert x.log[..o.index + 1] <= x.log[..x.commit + 1];
    CoveredPrefix(h, x.log[..o.index + 1], x.log[..x.commit + 1], x.term);
    CoveredLater(h, g, x.log[..o.index + 1], x.term);
  }

  lemma {:induction false} RunHeld(cs: seq<Cluster>, steps: seq<Step>, reset: bool, hs: seq<Hist>, i: nat)
    requires IsRun(cs, steps, reset) && TameRun(cs, steps, reset) && Explains(cs, hs, true) && i < |cs|
    ensures AllHeld(cs[i], hs[i])
  {
    if i > 0 {
      RunHeld(cs, steps, reset, hs, i - 1);
      assert Inv(cs[i - 1], hs[i - 1]) && InvCommit(cs[i - 1], hs[i - 1]);
      assert Extends(hs[i - 1], hs[i]);
      assert Enabled(cs[i - 1], steps[i - 1]) && cs[i] == Do(cs[i - 1], steps[i - 1], reset);
      assert Tame(cs[i - 1], steps[i - 1], reset);
      HeldStep(cs[i - 1], hs[i - 1], steps[i - 1], reset, hs[i]);
    }
  }

  /** What a peer ever applied is in its log, at that index, from then on and across restarts. */
  lemma AppliedStaysInLog(cs: seq<Cluster>, steps: seq<Step>, reset: bool, i: nat, o: Applied)
    requires IsRun(cs, steps, reset) && TameRun(cs, steps, reset) && i < |cs| && o in cs[i].applied
    ensures o.node < |cs[i].nodes| && 1 <= o.index < |cs[i].nodes[o.node].log|
    ensures cs[i].nodes[o.node].log[o.index].cmd == o.cmd
  {
    var hs := History(cs, steps, reset);
    RunHeld(cs, steps, reset, hs, i);
    assert Holds(cs[i], o, hs[i]);
  }

  /** A leader gives a new command an index beyond everything it ever applied. */
  lemma StartIndexIsNew(cs: seq<Cluster>, steps: seq<Step>, reset: bool, i: nat, cmd: Command, o: Applied)
    requires IsRun(cs, steps, reset) && TameRun(cs, steps, reset) && i < |steps| && steps[i].ClientReq?
    requires o in cs[i].applied && o.node == steps[i].leader
    ensures o.node < |cs[i].nodes| && o.index < |cs[i].nodes[o.node].log|
  {
    AppliedStaysInLog(cs, steps, reset, i, o);
  }

  // ------------------------------------------------------------------ one log

  /** The commands at indices 1, 2, … explain every output so far. */
  ghost predicate Explained(log: seq<Command>, applied: set<Applied>) {
    forall o :: o in applied ==> 1 <= o.index <= |log| && log[o.index - 1] == o.cmd
  }

  function Commands(log: seq<Entry>): (cmds: seq<Command>)
    ensures |cmds| == |log| && forall i :: 0 <= i < |log| ==> cmds[i] == log[i].cmd
  {
    seq(|log|, i requires 0 <= i < |log| => log[i].cmd)
  }

  lemma {:induction false} Highest(applied: set<Applied>) returns (top: Applied)
    requires applied != {}
    ensures top in applied && forall o :: o in applied ==> o.index <= top.index
    decreases |applied|
  {
    var o :| o in applied;
    top := o;
    if applied != {o} {
      var other := Highest(applied - {o});
      forall q | q in applied
        ensures q.index <= o.index || q.index <= other.index
      {
        assert q == o || q in applied - {o};
      }
      top := if other.index > o.index then other else o;
    }
  }

  /** In every state of a run one log explains the outputs of all peers in all their lives. */
  lemma OneLog(cs: seq<Cluster>, steps: seq<Step>, reset: bool, i: nat) returns (log: seq<Command>)
    requires IsRun(cs, steps, reset) && TameRun(cs, steps, reset) && i < |cs|
    ensures Explained(log, cs[i].applied)
  {
    log := [];
    if cs[i].applied != {} {
      var hs := History(cs, steps, reset);
      RunHeld(cs, steps, reset, hs, i);
      var top := Highest(cs[i].applied);
      assert Holds(cs[i], top, hs[i]);
      var x := cs[i].nodes[top.node];
      log := Commands(x.log[1..top.index + 1]);
      forall o | o in cs[i].applied
        ensures 1 <= o.index <= |log| && log[o.index - 1] == o.cmd
      {
        assert Holds(cs[i], o, hs[i]);
        SameCommand(cs[i], hs[i], top, o);
      }
    }
  }

  lemma SameCommand(c: Cluster, h: Hist, top: Applied, o: Applied)
    requires Inv(c, h) && InvCommit(c, h) && Holds(c, top, h) && Holds(c, o, h) && o.index <= top.index
    ensures c.nodes[top.node].log[o.index].cmd == o.cmd
  {
    var x, y := c.nodes[top.node], c.nodes[o.node];
    var p, q := x.log[..top.index + 1], y.log[..o.index + 1];
    var t: nat, k: nat :| t <= x.term && CoveredBy(h, p, t, k);
    var u: nat, l: nat :| u <= y.term && CoveredBy(h, q, u, l);
    CommitsAgree(h, |c.nodes|, t, k, u, l, o.index);
    assert h.logs[t][..k + 1][o.index] == p[o.index] && h.logs[u][..l + 1][o.index] == q[o.index];
  }
}
