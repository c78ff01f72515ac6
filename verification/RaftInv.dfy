/** The inductive invariant of the cluster. It is stated over a history `Hist`
    that no step reads: the longest log each leader had, who elected it, every
    vote, every bid for votes, how far each peer acknowledged each leader, and
    the quorum behind each commit. The step lemmas produce the next history. */
module RaftInv {
  import opened RaftNode
  import opened RaftCluster

  datatype Won = Won(leader: nat, voters: set<nat>)

  datatype Hist = Hist(
    logs: map<nat, Log>,                  // term -> the longest log of its leader
    elect: map<nat, Won>,                 // term -> leader and the quorum that elected it
    votes: map<(nat, nat), nat>,          // (voter, term) -> candidate
    bids: map<(nat, nat), (nat, nat)>,    // (term, candidate) -> last index and last term
    acks: map<(nat, nat), nat>,           // (peer, term) -> greatest acknowledged index
    counted: seq<set<nat>>,               // whose votes the current election of a peer counts
    commits: map<(nat, nat), set<nat>>)   // (term, index) -> the quorum that acknowledged it

  function InitHist(n: nat): Hist {
    Hist(map[], map[], map[], map[], map[], seq(n, _ => {}), map[])
  }

  ghost predicate Acked(h: Hist, w: nat, t: nat, k: nat) {
    (w, t) in h.acks && h.acks[(w, t)] >= k
  }

  /** Index `k` of term `t`'s log holds an entry that term `t` itself created. */
  ghost predicate OwnEntry(h: Hist, t: nat, k: nat) {
    t in h.logs && 1 <= k < |h.logs[t]| && h.logs[t][k].term == t
  }

  /** `log` starts with term `t`'s log up to and including index `k`. */
  ghost predicate Has(log: seq<Entry>, h: Hist, t: nat, k: nat)
    requires OwnEntry(h, t, k)
  {
    h.logs[t][..k + 1] <= log
  }

  ghost predicate NoneAcked(h: Hist, d: nat, t: nat, k: nat)
    requires d in h.elect
  {
    forall w :: w in h.elect[d].voters ==> !Acked(h, w, t, k)
  }

  /** No quorum can acknowledge (t, k) any more: a leader after `t`, up to `u`, was elected
      by voters none of whom had acknowledged it. */
  ghost predicate Dead(h: Hist, t: nat, k: nat, u: nat) {
    exists d {:trigger NoneAcked(h, d, t, k)} :: t < d <= u && d in h.elect && NoneAcked(h, d, t, k)
  }

  /** Every prefix that ends in an entry of term `t` is a prefix of term `t`'s log. */
  ghost predicate Descends(log: Log, h: Hist, k: nat)
    requires k < |log|
  {
    log[k].term in h.logs && log[..k + 1] <= h.logs[log[k].term]
  }

  ghost predicate Grounded(log: Log, h: Hist) {
    log[0] == Sentinel &&
    forall k {:trigger Descends(log, h, k)} :: 1 <= k < |log| ==> Descends(log, h, k)
  }

  ghost predicate LogOK(log: Log, term: nat, h: Hist) {
    Grounded(log, h) && forall k :: 0 <= k < |log| ==> log[k].term <= term
  }

  ghost predicate IsQuorum(q: set<nat>, n: nat) {
    (forall w :: w in q ==> w < n) && 2 * |q| > n
  }

  ghost predicate ElectOK(h: Hist, t: nat, n: nat)
    requires t in h.elect
  {
    h.elect[t].leader < n && IsQuorum(h.elect[t].voters, n) &&
    forall w :: w in h.elect[t].voters ==> (w, t) in h.votes && h.votes[(w, t)] == h.elect[t].leader
  }

  ghost predicate TermOK(h: Hist, t: nat)
    requires t in h.logs
  {
    t >= 1 && LogOK(h.logs[t], t, h)
  }

  ghost predicate AcksOK(h: Hist, n: nat) {
    forall w, t :: (w, t) in h.acks ==> w < n && t in h.logs && h.acks[(w, t)] < |h.logs[t]|
  }

  ghost predicate Tables(h: Hist, n: nat) {
    h.logs.Keys == h.elect.Keys && |h.counted| == n && AcksOK(h, n) &&
    (forall t {:trigger TermOK(h, t)} :: t in h.logs ==> TermOK(h, t)) &&
    forall t {:trigger ElectOK(h, t, n)} :: t in h.elect ==> ElectOK(h, t, n)
  }

  /** What a later leader has of an earlier one: the prefix, unless that prefix is dead. */
  ghost predicate Inherits(h: Hist, t: nat, k: nat, u: nat) {
    OwnEntry(h, t, k) && t < u && u in h.logs ==> Has(h.logs[u], h, t, k) || Dead(h, t, k, u)
  }

  ghost predicate AllInherit(h: Hist) {
    forall t: nat, k: nat, u: nat :: Inherits(h, t, k, u)
  }

  /** A vote for a bid at term `t`: what the voter had acknowledged before is in the
      candidate's log, as far as the bid's last index and term tell, or dead. */
  ghost predicate VoteOK(h: Hist, w: nat, t: nat)
    requires (w, t) in h.votes
  {
    var key := (t, h.votes[(w, t)]);
    key in h.bids &&
    forall t0: nat, k: nat :: t0 < t && OwnEntry(h, t0, k) && Acked(h, w, t0, k) ==>
      Dead(h, t0, k, t) || h.bids[key].1 > t0 || (h.bids[key].1 == t0 && h.bids[key].0 >= k)
  }

  ghost predicate VotesOK(h: Hist) {
    forall w, t {:trigger VoteOK(h, w, t)} :: (w, t) in h.votes ==> VoteOK(h, w, t)
  }

  ghost predicate Voted(i: nat, n: Node, h: Hist) {
    (forall t :: (i, t) in h.votes ==> t < n.term || (t == n.term && h.votes[(i, t)] == n.vote)) &&
    (forall t :: (t, i) in h.bids ==> t <= n.term) &&
    (n.vote == NoVote || ((i, n.term) in h.votes && h.votes[(i, n.term)] == n.vote))
  }

  /** Peer `i` acknowledged every entry that term `t` created. */
  ghost predicate SelfAcked(h: Hist, i: nat, t: nat) {
    forall k: nat :: OwnEntry(h, t, k) ==> Acked(h, i, t, k)
  }

  ghost predicate LeaderOK(i: nat, n: Node, h: Hist) {
    n.term in h.logs && n.term in h.elect && h.logs[n.term] == n.log && h.elect[n.term].leader == i &&
    SelfAcked(h, i, n.term) &&
    forall p :: 0 <= p < |n.next| ==> 1 <= n.next[p] <= |n.log|
  }

  ghost predicate CandidateOK(i: nat, n: Node, h: Hist) {
    n.term >= 1 && n.vote == i && (n.term, i) in h.bids && h.bids[(n.term, i)] == (n.LastIndex(), n.LastTerm()) &&
    !(n.term in h.elect && h.elect[n.term].leader == i) &&
    i < |h.counted| && i in h.counted[i] && |h.counted[i]| == n.votes &&
    forall p :: p in h.counted[i] ==> p < |h.counted| && (p, n.term) in h.votes && h.votes[(p, n.term)] == i
  }

  /** What a peer acknowledged is still in its log, or dead. */
  ghost predicate Retains(i: nat, n: Node, h: Hist) {
    (forall t :: (i, t) in h.acks ==> t <= n.term) &&
    forall t: nat, k: nat :: OwnEntry(h, t, k) && Acked(h, i, t, k) ==> Has(n.log, h, t, k) || Dead(h, t, k, n.term)
  }

  ghost predicate NodeOK(i: nat, n: Node, h: Hist) {
    n.Synced() && LogOK(n.log, n.term, h) && Voted(i, n, h) && Retains(i, n, h) &&
    (n.role == Leader ==> LeaderOK(i, n, h)) &&
    (n.role == Candidate ==> CandidateOK(i, n, h))
  }

  ghost predicate AppOK(a: AppendArgs, h: Hist) {
    a.term in h.logs && a.term in h.elect && a.leader == h.elect[a.term].leader &&
    a.Last() < |h.logs[a.term]| &&
    a.entries == h.logs[a.term][a.prevIndex + 1..a.Last() + 1] &&
    a.prevTerm == h.logs[a.term][a.prevIndex].term
  }

  ghost predicate MsgOK(m: Msg, h: Hist, n: nat) {
    match m
    case VoteReq(a) => (a.term, a.cand) in h.bids && h.bids[(a.term, a.cand)] == (a.lastIndex, a.lastTerm)
    case VoteResp(t, cand, v, r) => r.granted ==> v < n && (v, t) in h.votes && h.votes[(v, t)] == cand
    case AppReq(_, a) => AppOK(a, h)
    case AppResp(p, a, r) =>
      AppOK(a, h) &&
      (r.success ==> Acked(h, p, a.term, a.Last())) &&
      (!r.success && r.term <= a.term ==> (if r.xTerm == -1 then r.xLen else r.xIndex) <= a.prevIndex)
  }

  /** A vote that the running election already counts has no outstanding call. */
  ghost predicate CountedOnce(i: nat, n: Node, pending: set<Call>, h: Hist) {
    n.role == Candidate && i < |h.counted| ==>
      forall p :: p in h.counted[i] ==> Call(i, n.term, p) !in pending
  }

  ghost predicate PendingOK(c: Cluster, h: Hist) {
    (forall q :: q in c.pending ==> q.peer != q.cand) &&
    forall i {:trigger CountedOnce(i, c.nodes[i], c.pending, h)} :: 0 <= i < |c.nodes| ==> CountedOnce(i, c.nodes[i], c.pending, h)
  }

  /** The part that holds of the code as written, whether or not winning clears `matchIndex`. */
  ghost predicate Inv(c: Cluster, h: Hist) {
    Shape(c) && Tables(h, |c.nodes|) && AllInherit(h) && VotesOK(h) && PendingOK(c, h) &&
    (forall i {:trigger NodeOK(i, c.nodes[i], h)} :: 0 <= i < |c.nodes| ==> NodeOK(i, c.nodes[i], h)) &&
    forall m {:trigger MsgOK(m, h, |c.nodes|)} :: m in c.msgs ==> MsgOK(m, h, |c.nodes|)
  }

  // ------------------------------------------------------------------ growth

  /** History only grows, and only at peer `a`: logs extend, and a new acknowledgement is
      for a term that `a` has not voted beyond. */
  ghost predicate Grows(h: Hist, g: Hist, a: nat) {
    (forall t :: t in h.logs ==> t in g.logs && h.logs[t] <= g.logs[t]) &&
    (forall t :: t in h.elect ==> t in g.elect && g.elect[t] == h.elect[t]) &&
    (forall t :: t in g.elect && t !in h.elect ==> g.elect[t].leader == a) &&
    (forall t :: t in h.logs && t in h.elect && h.elect[t].leader != a ==> g.logs[t] == h.logs[t]) &&
    (forall w, t :: (w, t) in h.votes ==> (w, t) in g.votes && g.votes[(w, t)] == h.votes[(w, t)]) &&
    (forall w, t :: (w, t) in g.votes && w != a ==> (w, t) in h.votes) &&
    (forall t, i :: (t, i) in h.bids ==> (t, i) in g.bids && g.bids[(t, i)] == h.bids[(t, i)]) &&
    (forall t, i :: (t, i) in g.bids && i != a ==> (t, i) in h.bids) &&
    (forall w, t :: (w, t) in h.acks ==> (w, t) in g.acks && h.acks[(w, t)] <= g.acks[(w, t)]) &&
    (forall w, t :: (w, t) in g.acks && w != a ==> (w, t) in h.acks && g.acks[(w, t)] == h.acks[(w, t)]) &&
    (forall t: nat, k: nat, d: nat :: Acked(g, a, t, k) && !Acked(h, a, t, k) && (a, d) in g.votes ==> d <= t) &&
    |g.counted| == |h.counted| &&
    (forall i :: 0 <= i < |h.counted| && i != a ==> g.counted[i] == h.counted[i]) &&
    (forall t, k :: (t, k) in h.commits ==> (t, k) in g.commits)
  }

  /** What is new at the end of a term's log was created by that term. */
  ghost predicate OwnTails(h: Hist, g: Hist) {
    forall t, k :: t in h.logs && t in g.logs && |h.logs[t]| <= k < |g.logs[t]| ==> g.logs[t][k].term == t
  }

  /** The part of growth that chains over a run. */
  ghost predicate Extends(h: Hist, g: Hist) {
    (forall t :: t in h.logs ==> t in g.logs && h.logs[t] <= g.logs[t]) && OwnTails(h, g) &&
    (forall t :: t in h.elect ==> t in g.elect && g.elect[t] == h.elect[t]) &&
    (forall t, k :: (t, k) in h.commits ==> (t, k) in g.commits)
  }
}
