/** One Raft peer as a value: every critical section of raft.go under `rf.mu`
    is a function from the peer's state to its next state. `RaftServer` proves
    the imperative handlers against these functions, and `RaftCluster` runs
    them against a lossy, reordering network. */
module RaftNode {
  import opened Ops

  datatype Role = Follower | Candidate | Leader

  datatype Entry = Entry(term: nat, cmd: Command)

  const Sentinel := Entry(0, Nil)

  /** A log is never empty: index 0 holds the sentinel. */
  type Log = s: seq<Entry> | |s| > 0 witness [Sentinel]

  const NoVote := -1

  /** What `persist` writes and `readPersist` reads. */
  datatype Persisted = Persisted(term: nat, vote: int, log: Log)

  const Fresh := Persisted(0, NoVote, [Sentinel])

  datatype Node = Node(
    term: nat, vote: int, role: Role, log: Log,
    commit: nat, applied: nat,
    next: seq<nat>, matched: seq<nat>,
    votes: nat,                 // votecount of the current election
    disk: Option<Persisted>)    // the persister's file
  {
    function LastIndex(): nat { |log| - 1 }

    function LastTerm(): nat { log[|log| - 1].term }

    function Peers(): nat { |next| }

    function Persist(): Node { this.(disk := Some(Persisted(term, vote, log))) }

    /** The state that a restart would read back. */
    function Durable(): Persisted {
      if disk.Some? then disk.value else Fresh
    }

    /** The file and the memory agree on term, vote and log. */
    predicate Synced() { Durable() == Persisted(term, vote, log) }

    /** Steps down to follower of a higher term, as every handler does. */
    function Adopt(t: nat): Node { this.(term := t, role := Follower, vote := NoVote) }
  }

  datatype VoteArgs = VoteArgs(term: nat, cand: nat, lastIndex: nat, lastTerm: nat)

  datatype VoteReply = VoteReply(term: nat, granted: bool)

  datatype AppendArgs = AppendArgs(term: nat, leader: nat, prevIndex: nat, prevTerm: nat,
                                   entries: seq<Entry>, leaderCommit: nat)
  {
    function Last(): nat { prevIndex + |entries| }
  }

  datatype AppendReply = AppendReply(term: nat, success: bool, xTerm: int, xIndex: int, xLen: int)

  function Zeros(n: nat): (s: seq<nat>)
    ensures |s| == n && forall i :: 0 <= i < n ==> s[i] == 0
  {
    seq(n, _ => 0)
  }

  function All(n: nat, v: nat): (s: seq<nat>)
    ensures |s| == n && forall i :: 0 <= i < n ==> s[i] == v
  {
    seq(n, _ => v)
  }

  /** A peer as `Make` builds it: persistent fields from the file, the rest zero. */
  function Boot(peers: nat, disk: Option<Persisted>): Node {
    var d := if disk.Some? then disk.value else Fresh;
    Node(d.term, d.vote, Follower, d.log, 0, 0, Zeros(peers), Zeros(peers), 0, disk)
  }

  // ---------------------------------------------------------------- elections

  function StartElection(n: Node, me: nat): Node {
    n.(term := n.term + 1, role := Candidate, vote := me, votes := 1).Persist()
  }

  function VoteRequest(n: Node, me: nat): VoteArgs {
    VoteArgs(n.term, me, n.LastIndex(), n.LastTerm())
  }

  /** The candidate's log is at least as new as the voter's. */
  predicate UpToDate(n: Node, args: VoteArgs) {
    args.lastTerm > n.LastTerm() ||
    (args.lastTerm == n.LastTerm() && args.lastIndex >= n.LastIndex())
  }

  function RequestVote(n: Node, args: VoteArgs): (Node, VoteReply) {
    if args.term < n.term then
      (n, VoteReply(n.term, false))
    else
      var n1 := if args.term > n.term then n.Adopt(args.term).Persist() else n;
      if UpToDate(n1, args) && (n1.vote == NoVote || n1.vote == args.cand) then
        (n1.(vote := args.cand).Persist(), VoteReply(n1.term, true))
      else
        (n1, VoteReply(n1.term, false))
  }

  /** The vote reply closure. `reset` is the departure named in README.md: the
      code leaves `matchIndex` alone on winning (false), Figure 2 clears it (true). */
  function ReceiveVote(n: Node, argsTerm: nat, reply: VoteReply, reset: bool): Node {
    if n.role != Candidate || n.term != argsTerm then n
    else if reply.term > n.term then n.Adopt(reply.term).Persist()
    else if !reply.granted then n
    else if n.votes + 1 > n.Peers() / 2 then
      n.(votes := n.votes + 1, role := Leader,
         next := All(n.Peers(), |n.log|),
         matched := if reset then Zeros(n.Peers()) else n.matched)
    else n.(votes := n.votes + 1)
  }

  // -------------------------------------------------------------- replication

  function ClientStart(n: Node, cmd: Command): Node {
    if n.role != Leader then n
    else n.(log := n.log + [Entry(n.term, cmd)]).Persist()
  }

  /** The heartbeat for one peer: always the whole tail from `nextIndex`. */
  function MakeAppend(n: Node, me: nat, peer: nat): AppendArgs
    requires peer < n.Peers() && 1 <= n.next[peer] <= |n.log|
  {
    var p := n.next[peer] - 1;
    AppendArgs(n.term, me, p, n.log[p].term, n.log[p + 1..], n.commit)
  }

  /** How many leading entries already sit in `log` at `at`, compared by term only. */
  function Agreeing(log: seq<Entry>, at: nat, entries: seq<Entry>): (k: nat)
    ensures k <= |entries|
    decreases |entries|
  {
    if entries == [] || at >= |log| || log[at].term != entries[0].term then 0
    else 1 + Agreeing(log, at + 1, entries[1..])
  }

  lemma {:induction false} AgreeingSpec(log: seq<Entry>, at: nat, entries: seq<Entry>)
    ensures var k := Agreeing(log, at, entries);
            (k > 0 ==> at + k <= |log|) &&
            (forall j {:trigger log[j]} :: at <= j < at + k ==> log[j].term == entries[j - at].term) &&
            (k < |entries| ==> at + k >= |log| || log[at + k].term != entries[k].term)
    decreases |entries|
  {
    if entries != [] && at < |log| && log[at].term == entries[0].term {
      AgreeingSpec(log, at + 1, entries[1..]);
      forall j {:trigger log[j]} | at <= j < at + Agreeing(log, at, entries)
        ensures log[j].term == entries[j - at].term
      {
        if j > at {
          assert entries[1..][j - (at + 1)] == entries[j - at];
        }
      }
    }
  }

  /** Conflict-only truncation: keep what agrees, replace from the first conflict. */
  function Merged(log: Log, prev: nat, entries: seq<Entry>): Log
    requires prev < |log|
  {
    var k := Agreeing(log, prev + 1, entries);
    if k == |entries| then log
    else if prev + 1 + k < |log| then log[..prev + 1 + k] + entries[k..]
    else log + entries[k..]
  }

  /** First index of the run of equal terms that ends at `i`. */
  function RunStart(log: seq<Entry>, i: nat): (r: nat)
    requires i < |log|
    ensures r <= i
    ensures forall k :: r <= k <= i ==> log[k].term == log[i].term
    ensures r > 0 ==> log[r - 1].term != log[i].term
  {
    if i > 0 && log[i - 1].term == log[i].term then RunStart(log, i - 1) else i
  }

  function Min(a: nat, b: nat): nat { if a < b then a else b }

  function AppendEntries(n: Node, args: AppendArgs): (Node, AppendReply) {
    if args.term < n.term then
      (n, AppendReply(n.term, false, 0, 0, 0))
    else
      var newer := args.term > n.term;
      var n1 := if newer then n.Adopt(args.term) else n.(role := Follower);
      if |n.log| - 1 < args.prevIndex then
        (if newer then n1.Persist() else n1, AppendReply(args.term, false, -1, -1, |n.log|))
      else if n.log[args.prevIndex].term != args.prevTerm then
        (if newer then n1.Persist() else n1,
         AppendReply(args.term, false, n.log[args.prevIndex].term, RunStart(n.log, args.prevIndex), 0))
      else
        var changed := Agreeing(n.log, args.prevIndex + 1, args.entries) < |args.entries|;
        var n2 := n1.(log := Merged(n.log, args.prevIndex, args.entries),
                      commit := if args.leaderCommit > n.commit then Min(args.leaderCommit, args.Last()) else n.commit);
        (if newer || changed then n2.Persist() else n2, AppendReply(args.term, true, 0, 0, 0))
  }

  // ------------------------------------------------------- replies and commit

  /** The peers whose `matchIndex` the commit rule counts for index `k`. */
  function Counted(n: Node, me: nat, k: nat): set<nat>
    requires k < |n.log|
  {
    set j: nat | j < |n.matched| && j != me && n.matched[j] >= k && n.log[k].term == n.term
  }

  /** `count > len(peers)/2`, the leader itself included. */
  predicate Majority(n: Node, me: nat, k: nat)
    requires k < |n.log|
  {
    1 + |Counted(n, me, k)| > n.Peers() / 2
  }

  /** The scan from `k` down to the old commit index: the greatest index with a majority. */
  function CommitScan(n: Node, me: nat, k: nat): (c: nat)
    requires k < |n.log|
    ensures c == n.commit || (n.commit < c <= k && Majority(n, me, c))
    ensures forall i :: n.commit < i <= k && i > c ==> !Majority(n, me, i)
    decreases k
  {
    if k <= n.commit then n.commit
    else if Majority(n, me, k) then k
    else CommitScan(n, me, k - 1)
  }

  /** The greatest index in 1..i whose entry has term `t`, or -1. */
  function LastOfTerm(log: seq<Entry>, t: int, i: nat): (r: int)
    requires i < |log|
    ensures r == -1 || (1 <= r <= i && log[r].term == t)
    ensures forall k :: 1 <= k <= i && k > r ==> log[k].term != t
  {
    if i == 0 then -1
    else if log[i].term == t then i
    else LastOfTerm(log, t, i - 1)
  }

  /** Where the leader probes next after a rejected append (fast backup). */
  function BackupIndex(log: Log, reply: AppendReply): (r: int)
    ensures r >= 1
  {
    var raw :=
      if reply.xTerm != -1 then
        var last := LastOfTerm(log, reply.xTerm, |log| - 1);
        if last != -1 then last + 1 else reply.xIndex
      else reply.xLen;
    if raw < 1 then 1 else raw
  }

  function ReceiveAppend(n: Node, me: nat, peer: nat, args: AppendArgs, reply: AppendReply): Node
    requires peer < |n.next| == |n.matched|
  {
    if n.role != Leader || n.term != args.term then n
    else if reply.term > n.term then n.Adopt(reply.term).Persist()
    else if reply.success then
      var m := args.Last();
      var n1 := n.(next := if m + 1 > n.next[peer] then n.next[peer := m + 1] else n.next,
                   matched := if m > n.matched[peer] then n.matched[peer := m] else n.matched);
      n1.(commit := CommitScan(n1, me, |n1.log| - 1))
    else
      n.(next := n.next[peer := BackupIndex(n.log, reply)])
  }

  // -------------------------------------------------------------------- apply

  /** One iteration of the apply loop. */
  function ApplyOne(n: Node): Node { n.(applied := n.applied + 1) }
}
