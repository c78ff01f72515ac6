/** Fast backup: the leader's probing of one follower, from rejection to the first match,
    compared with stepping back one index at a time. */
module FastBackup {
  import opened Ops
  import opened RaftNode
  import opened RaftCluster
  import opened RaftInv
  import opened RaftFrame
  import opened RaftSafety

  /** Terms never decrease and only the sentinel has term 0. */
  predicate Ordered(log: Log) {
    log[0] == Sentinel &&
    (forall i :: 1 <= i < |log| ==> log[i].term >= 1) &&
    forall i, j :: 0 <= i <= j < |log| ==> log[i].term <= log[j].term
  }

  /** Log Matching between two logs, at one index. */
  predicate Matching(a: Log, b: Log) {
    forall k :: 0 <= k < |a| && k < |b| && a[k].term == b[k].term ==> a[..k + 1] == b[..k + 1]
  }

  /** Both logs took their entries of a term from the same leader's log, so an entry of that
      term in each makes them agree up to the shorter of the two positions. */
  predicate Kin(a: Log, b: Log) {
    forall i, j :: 0 <= i < |a| && 0 <= j < |b| && a[i].term == b[j].term ==>
      a[..Min(i, j) + 1] == b[..Min(i, j) + 1]
  }

  predicate Agrees(a: Log, b: Log, p: nat) {
    p < |a| && p < |b| && a[p].term == b[p].term
  }

  /** What a follower of the same or an older term answers to a probe at `prev`. */
  function Rejection(f: Log, term: nat, prev: nat): AppendReply {
    if |f| - 1 < prev then AppendReply(term, false, -1, -1, |f|)
    else AppendReply(term, false, f[prev].term, RunStart(f, prev), 0)
  }

  /** `l` leads, may probe `p`, and the follower `f` is of no later term. */
  predicate Probing(l: Node, p: nat, f: Node) {
    l.role == Leader && p < |l.next| == |l.matched| && 1 <= l.next[p] <= |l.log| && f.term <= l.term
  }

  /** What the handler answers to the heartbeat built from `nextIndex`. */
  function Reply(l: Node, me: nat, p: nat, f: Node): AppendReply
    requires Probing(l, p, f)
  {
    AppendEntries(f, MakeAppend(l, me, p)).1
  }

  /** The leader after that heartbeat and its answer. */
  function Answered(l: Node, me: nat, p: nat, f: Node): Node
    requires Probing(l, p, f)
  {
    ReceiveAppend(l, me, p, MakeAppend(l, me, p), Reply(l, me, p, f))
  }

  /** The handler accepts exactly when the logs agree at `nextIndex - 1`; otherwise it answers
      `Rejection`, and keeps its log. */
  lemma ProbeIsAppendEntries(l: Node, me: nat, p: nat, f: Node)
    requires Probing(l, p, f)
    ensures Reply(l, me, p, f).success <==> Agrees(l.log, f.log, l.next[p] - 1)
    ensures !Reply(l, me, p, f).success ==>
              Reply(l, me, p, f) == Rejection(f.log, l.term, l.next[p] - 1) &&
              AppendEntries(f, MakeAppend(l, me, p)).0.log == f.log
  {
  }

  lemma KinAt(l: Log, f: Log, i: nat, j: nat)
    requires Kin(l, f) && j <= i < |l| && j < |f| && l[i].term == f[j].term
    ensures Agrees(l, f, j)
  {
    assert Min(i, j) == j;
    assert l[j] == l[..j + 1][j] == f[..j + 1][j];
  }

  lemma KinBelow(l: Log, f: Log, i: nat, j: nat)
    requires Kin(l, f) && i < j < |f| && i < |l| && l[i].term == f[j].term
    ensures Agrees(l, f, i)
  {
    assert Min(i, j) == i;
    assert l[i] == l[..i + 1][i] == f[..i + 1][i];
  }

  /** The leader has the term the follower rejected with only beyond the probe. */
  ghost predicate KnownBeyond(l: Log, f: Log, next: nat)
    requires 1 <= next
  {
    next - 1 < |f| && exists k :: next <= k < |l| && l[k].term == f[next - 1].term
  }

  /** For any two ordered logs: a rejected probe moves `nextIndex` down exactly when the
      leader has no entry of the rejecting term beyond the probe. */
  lemma ProbeLowersExactly(l: Node, me: nat, p: nat, f: Node)
    requires Probing(l, p, f) && Ordered(l.log) && Ordered(f.log) && !Agrees(l.log, f.log, l.next[p] - 1)
    ensures Answered(l, me, p, f).next[p] < l.next[p] <==> !KnownBeyond(l.log, f.log, l.next[p])
  {
    ProbeIsAppendEntries(l, me, p, f);
    var prev := l.next[p] - 1;
    if prev < |f.log| {
      var last := LastOfTerm(l.log, f.log[prev].term, |l.log| - 1);
      if last == -1 {
        assert RunStart(f.log, prev) >= 1;
      } else if last > prev {
        assert l.log[last].term == f.log[prev].term;
      }
    }
  }

  /** A rejected probe of a log that is kin lowers `nextIndex` for that peer and changes nothing
      else, never below 1, and no index it skips could match. */
  lemma ProbeLowers(l: Node, me: nat, p: nat, f: Node)
    requires Probing(l, p, f) && Ordered(l.log) && Ordered(f.log) && Kin(l.log, f.log)
    requires !Agrees(l.log, f.log, l.next[p] - 1)
    ensures var m := Answered(l, me, p, f);
            p < |m.next| && m == l.(next := l.next[p := m.next[p]]) && 1 <= m.next[p] < l.next[p] &&
            forall k: nat :: m.next[p] <= k < l.next[p] ==> !Agrees(l.log, f.log, k)
  {
    ProbeIsAppendEntries(l, me, p, f);
    var prev := l.next[p] - 1;
    if prev < |f.log| {
      var x := f.log[prev].term;
      var last := LastOfTerm(l.log, x, |l.log| - 1);
      if last == -1 {
        assert RunStart(f.log, prev) >= 1;
      } else if last >= prev {
        KinAt(l.log, f.log, last, prev);
        assert false;
      } else {
        forall k: nat | last + 1 <= k < l.next[p]
          ensures !Agrees(l.log, f.log, k)
        {
          assert l.log[k].term > x >= f.log[k].term;
        }
      }
    }
  }

  /** One round trip per term, not per entry: a probe beyond the follower's log is followed by one
      at its last entry, and a conflict by a probe that matches or that meets an earlier term. */
  lemma ProbeSkipsTerm(l: Node, me: nat, p: nat, f: Node)
    requires Probing(l, p, f) && Ordered(l.log) && Ordered(f.log) && Kin(l.log, f.log)
    requires !Agrees(l.log, f.log, l.next[p] - 1)
    ensures var prev, nx := l.next[p] - 1, Answered(l, me, p, f).next[p];
            if prev >= |f.log| then nx == |f.log|
            else 1 <= nx <= |f.log| && (Agrees(l.log, f.log, nx - 1) || f.log[nx - 1].term < f.log[prev].term)
  {
    ProbeIsAppendEntries(l, me, p, f);
    ProbeLowers(l, me, p, f);
    var prev := l.next[p] - 1;
    if prev < |f.log| {
      var x := f.log[prev].term;
      var last := LastOfTerm(l.log, x, |l.log| - 1);
      if last != -1 {
        KinBelow(l.log, f.log, last, prev);
      }
    }
  }

  /** The index at which fast probing first matches. */
  function Fast(l: Node, me: nat, p: nat, f: Node): (r: nat)
    requires Probing(l, p, f) && Ordered(l.log) && Ordered(f.log) && Kin(l.log, f.log)
    ensures r < l.next[p] && Agrees(l.log, f.log, r) && forall k: nat :: r < k < l.next[p] ==> !Agrees(l.log, f.log, k)
    decreases if p < |l.next| then l.next[p] else 0
  {
    if Reply(l, me, p, f).success then
      ProbeIsAppendEntries(l, me, p, f);
      l.next[p] - 1
    else
      ProbeIsAppendEntries(l, me, p, f);
      ProbeLowers(l, me, p, f);
      Fast(Answered(l, me, p, f), me, p, AppendEntries(f, MakeAppend(l, me, p)).0)
  }

  /** The index at which stepping back by one first matches. */
  function Slow(l: Log, f: Log, next: nat): nat
    requires Ordered(l) && Ordered(f) && 1 <= next <= |l|
  {
    if Agrees(l, f, next - 1) then next - 1 else Slow(l, f, next - 1)
  }

  lemma {:induction false} SlowIsGreatest(l: Log, f: Log, next: nat)
    requires Ordered(l) && Ordered(f) && 1 <= next <= |l|
    ensures var r := Slow(l, f, next);
            r < next && Agrees(l, f, r) && forall p: nat :: r < p < next ==> !Agrees(l, f, p)
  {
    if !Agrees(l, f, next - 1) {
      SlowIsGreatest(l, f, next - 1);
    }
  }

  /** Fast backup refines step-by-one backup, and at the point it stops the two logs are equal
      all the way down. */
  lemma FastRefinesSlow(l: Node, me: nat, p: nat, f: Node)
    requires Probing(l, p, f) && Ordered(l.log) && Ordered(f.log) && Kin(l.log, f.log)
    ensures Fast(l, me, p, f) == Slow(l.log, f.log, l.next[p])
    ensures var r := Fast(l, me, p, f); l.log[..r + 1] == f.log[..r + 1]
  {
    SlowIsGreatest(l.log, f.log, l.next[p]);
    var r := Fast(l, me, p, f);
    assert Min(r, r) == r;
  }

  function TermsOf(log: seq<Entry>): set<nat> { set e | e in log :: e.term }

  /** The terms that probing from `next` may still meet. */
  function Ahead(f: Log, next: nat): nat
    requires next >= 1
  {
    if next > |f| then |TermsOf(f)| + 1 else |TermsOf(f[..next])|
  }

  lemma AheadFalls(f: Log, next: nat, nx: nat)
    requires Ordered(f) && 1 <= nx < next
    requires if next > |f| then nx == |f| else f[nx - 1].term < f[next - 1].term
    ensures Ahead(f, nx) < Ahead(f, next)
  {
    if next > |f| {
      assert f[..nx] == f;
    } else {
      var s, t := TermsOf(f[..nx]), TermsOf(f[..next]);
      assert f[..next][next - 1] in f[..next];
      assert f[next - 1].term in t;
      forall x | x in s
        ensures x in t - {f[next - 1].term}
      {
        var k :| 0 <= k < nx && f[..nx][k].term == x;
        assert f[..next][k] in f[..next];
      }
      Fewer(s, t - {f[next - 1].term});
    }
  }

  lemma {:induction false} Fewer(a: set<nat>, b: set<nat>)
    requires a <= b
    ensures |a| <= |b|
  {
    if a != {} {
      var x :| x in a;
      Fewer(a - {x}, b - {x});
    }
  }

  lemma AheadStarts(f: Log, next: nat)
    requires next >= 1
    ensures 1 <= Ahead(f, next) <= |TermsOf(f)| + 1
  {
    if next <= |f| {
      assert f[..next][0] in f[..next] && f[0].term in TermsOf(f[..next]);
      forall x | x in TermsOf(f[..next])
        ensures x in TermsOf(f)
      {
        var k :| 0 <= k < next && f[..next][k].term == x;
        assert f[k] in f;
      }
      Fewer(TermsOf(f[..next]), TermsOf(f));
    }
  }

  /** After `rounds - 1` rejections: no index passed over agrees, and the rounds still to come are
      bounded by the terms ahead. */
  ghost predicate Underway(leader: Node, follower: Node, p: nat, l: Node, f: Node, rounds: nat) {
    Probing(l, p, f) && Ordered(l.log) && Ordered(f.log) && Kin(l.log, f.log) && f.log == follower.log &&
    p < |leader.next| && l == leader.(next := leader.next[p := l.next[p]]) && l.next[p] <= leader.next[p] &&
    (forall k: nat :: l.next[p] <= k < leader.next[p] ==> !Agrees(l.log, f.log, k)) &&
    rounds <= leader.next[p] - l.next[p] + 1 && rounds <= |TermsOf(f.log)| + 2 &&
    (rounds + Ahead(f.log, l.next[p]) <= |TermsOf(f.log)| + 2 || Agrees(l.log, f.log, l.next[p] - 1))
  }

  lemma ProbeStarts(l: Node, p: nat, f: Node)
    requires Probing(l, p, f) && Ordered(l.log) && Ordered(f.log) && Kin(l.log, f.log)
    ensures Underway(l, f, p, l, f, 1)
  {
    hide Ahead, Ordered, Kin, TermsOf;
    AheadStarts(f.log, l.next[p]);
    assert l == l.(next := l.next[p := l.next[p]]);
  }

  lemma ProbeRound(leader: Node, follower: Node, me: nat, p: nat, l: Node, f: Node, rounds: nat)
    requires Underway(leader, follower, p, l, f, rounds) && !Reply(l, me, p, f).success
    ensures var m, g := Answered(l, me, p, f), AppendEntries(f, MakeAppend(l, me, p)).0;
            Underway(leader, follower, p, m, g, rounds + 1) && m.next[p] < l.next[p]
  {
    ProbeIsAppendEntries(l, me, p, f);
    ProbeLowers(l, me, p, f);
    ProbeSkipsTerm(l, me, p, f);
    TermAdopted(l, me, p, f);
    hide Answered, AppendEntries, MakeAppend, Reply, Ahead, Ordered, Kin, TermsOf, Agrees;
    var nx := Answered(l, me, p, f).next[p];
    if l.next[p] > |f.log| || f.log[nx - 1].term < f.log[l.next[p] - 1].term {
      AheadFalls(f.log, l.next[p], nx);
    }
    AheadStarts(f.log, nx);
    AheadStarts(f.log, l.next[p]);
  }

  lemma TermAdopted(l: Node, me: nat, p: nat, f: Node)
    requires Probing(l, p, f)
    ensures AppendEntries(f, MakeAppend(l, me, p)).0.term <= l.term
  {
    hide Merged;
  }

  /** The heartbeat goroutine's rounds with one follower, up to the first that it accepts: they end
      at the greatest index that agrees, and there are at most two more than the follower's log
      has terms. */
  method Probe(leader: Node, me: nat, p: nat, follower: Node) returns (l: Node, f: Node, rounds: nat)
    requires Probing(leader, p, follower) && Ordered(leader.log) && Ordered(follower.log) && Kin(leader.log, follower.log)
    ensures Probing(l, p, f) && l.next[p] - 1 == Slow(leader.log, follower.log, leader.next[p])
    ensures l == leader.(next := leader.next[p := l.next[p]]) && f.log == follower.log && Reply(l, me, p, f).success
    ensures rounds <= |TermsOf(follower.log)| + 2 && rounds <= leader.next[p] - l.next[p] + 1
  {
    hide AppendEntries, ReceiveAppend, MakeAppend, Ordered, Kin, Agrees, Ahead, TermsOf;
    l, f, rounds := leader, follower, 1;
    ProbeStarts(l, p, f);
    var args := MakeAppend(l, me, p);
    var reply := AppendEntries(f, args).1;
    while !reply.success
      invariant Underway(leader, follower, p, l, f, rounds)
      invariant args == MakeAppend(l, me, p) && reply == Reply(l, me, p, f)
      decreases l.next[p]
    {
      ProbeRound(leader, follower, me, p, l, f, rounds);
      f := AppendEntries(f, args).0;
      l := ReceiveAppend(l, me, p, args, reply);
      args := MakeAppend(l, me, p);
      reply := AppendEntries(f, args).1;
      rounds := rounds + 1;
    }
    ProbeIsAppendEntries(l, me, p, f);
    SlowIsGreatest(leader.log, follower.log, leader.next[p]);
  }

  /** Any two logs of a run, at any two moments, are kin. */
  lemma RunLogsAreKin(cs: seq<Cluster>, steps: seq<Step>, reset: bool, i: nat, j: nat, x: nat, y: nat)
    requires IsRun(cs, steps, reset) && i < |cs| && j < |cs|
    requires x < |cs[i].nodes| && y < |cs[j].nodes|
    ensures Ordered(cs[i].nodes[x].log) && Kin(cs[i].nodes[x].log, cs[j].nodes[y].log)
  {
    var hs := History(cs, steps, reset);
    var m := |cs| - 1;
    var a, b, h := cs[i].nodes[x].log, cs[j].nodes[y].log, hs[m];
    assert Inv(cs[i], hs[i]) && Inv(cs[j], hs[j]) && Inv(cs[m], h);
    assert NodeOK(x, cs[i].nodes[x], hs[i]) && NodeOK(y, cs[j].nodes[y], hs[j]);
    assert Extends(hs[i], h) && Extends(hs[j], h);
    GroundedLater(a, hs[i], h);
    GroundedLater(b, hs[j], h);
    GroundedOrdered(a, h, |cs[m].nodes|);
    GroundedOrdered(b, h, |cs[m].nodes|);
    GroundedKin(a, b, h);
  }

  lemma GroundedOrdered(a: Log, h: Hist, n: nat)
    requires Grounded(a, h) && Tables(h, n)
    ensures Ordered(a)
  {
    forall i | 1 <= i < |a|
      ensures a[i].term >= 1
    {
      assert Descends(a, h, i);
      assert TermOK(h, a[i].term);
    }
    forall i, j | 0 <= i <= j < |a|
      ensures a[i].term <= a[j].term
    {
      TermsSorted(a, h, n, i, j);
    }
  }

  lemma GroundedKin(a: Log, b: Log, h: Hist)
    requires Grounded(a, h) && Grounded(b, h)
    ensures Kin(a, b)
  {
    forall i, j | 0 <= i < |a| && 0 <= j < |b| && a[i].term == b[j].term
      ensures a[..Min(i, j) + 1] == b[..Min(i, j) + 1]
    {
      if i == 0 || j == 0 {
        assert a[..1] == [Sentinel] == b[..1];
      } else {
        assert Descends(a, h, i) && Descends(b, h, j);
        var l := h.logs[a[i].term];
        assert a[..i + 1][..Min(i, j) + 1] == l[..Min(i, j) + 1] == b[..j + 1][..Min(i, j) + 1];
      }
    }
  }

  /** Log Matching alone is not enough: here the leader knows the follower's conflicting term
      only beyond the probe, and `nextIndex` jumps from 3 to 5. Reachable logs are kin. */
  lemma MatchingAloneCanJumpForward() returns (l: Node, f: Node)
    ensures Probing(l, 1, f) && Ordered(l.log) && Ordered(f.log) && Matching(l.log, f.log)
    ensures l.next[1] == 3 && !Agrees(l.log, f.log, 2) && KnownBeyond(l.log, f.log, 3)
    ensures Answered(l, 0, 1, f).next[1] == 5
  {
    var a: Log := [Sentinel, Entry(1, Nil), Entry(1, Nil), Entry(3, Nil), Entry(3, Nil)];
    var b: Log := [Sentinel, Entry(1, Nil), Entry(3, Nil)];
    l := Node(3, 0, Leader, a, 0, 0, [3, 3], [0, 0], 2, None);
    f := Node(3, 0, Follower, b, 0, 0, [0, 0], [0, 0], 0, None);
    assert a[..1] == b[..1] && a[..2] == b[..2];
    assert a[4].term == b[2].term == 3;
    assert LastOfTerm(a, 3, 4) == 4;
    ProbeIsAppendEntries(l, 0, 1, f);
  }
}
