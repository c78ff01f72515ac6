/** A cluster of peers over a network that may lose, delay and reorder messages.
    `msgs` only grows: a message that is never delivered is a lost one. */
module RaftCluster {
  import opened Ops
  import opened RaftNode

  datatype Msg =
    | VoteReq(voteArgs: VoteArgs)
    | VoteResp(voteTerm: nat, cand: nat, voter: nat, voteReply: VoteReply)
    | AppReq(peer: nat, appArgs: AppendArgs)
    | AppResp(from: nat, respArgs: AppendArgs, appReply: AppendReply)

  /** An outstanding RequestVote call; its reply is counted at most once. */
  datatype Call = Call(cand: nat, term: nat, peer: nat)

  /** A command handed to the state machine of one peer. */
  datatype Applied = Applied(node: nat, index: nat, cmd: Command)

  datatype Cluster = Cluster(nodes: seq<Node>, msgs: set<Msg>, pending: set<Call>, applied: set<Applied>)

  datatype Step =
    | Timeout(node: nat)
    | RecvVoteReq(voter: nat, args: VoteArgs)
    | RecvVoteResp(term: nat, cand: nat, peer: nat, reply: VoteReply)
    | ClientReq(leader: nat, cmd: Command)
    | SendAppend(src: nat, dst: nat)
    | RecvAppend(follower: nat, appArgs: AppendArgs)
    | RecvAppResp(from: nat, respArgs: AppendArgs, appReply: AppendReply)
    | Apply(applier: nat)
    | Restart(crashed: nat)

  predicate Shape(c: Cluster) {
    |c.nodes| >= 2 &&
    forall i :: 0 <= i < |c.nodes| ==> |c.nodes[i].next| == |c.nodes| && |c.nodes[i].matched| == |c.nodes|
  }

  function InitCluster(n: nat): Cluster {
    Cluster(seq(n, _ => Boot(n, None)), {}, {}, {})
  }

  predicate Enabled(c: Cluster, s: Step)
    requires Shape(c)
  {
    match s
    case Timeout(i) => i < |c.nodes|
    case RecvVoteReq(v, args) => v < |c.nodes| && v != args.cand && VoteReq(args) in c.msgs
    case RecvVoteResp(t, i, p, reply) =>
      i < |c.nodes| && VoteResp(t, i, p, reply) in c.msgs && Call(i, t, p) in c.pending
    case ClientReq(i, cmd) => i < |c.nodes|
    case SendAppend(i, p) =>
      i < |c.nodes| && p < |c.nodes| && p != i && c.nodes[i].role == Leader &&
      1 <= c.nodes[i].next[p] <= |c.nodes[i].log|
    case RecvAppend(i, args) => i < |c.nodes| && AppReq(i, args) in c.msgs
    case RecvAppResp(p, args, reply) =>
      p < |c.nodes| && args.leader < |c.nodes| && AppResp(p, args, reply) in c.msgs
    case Apply(i) =>
      i < |c.nodes| && c.nodes[i].applied < c.nodes[i].commit && c.nodes[i].applied + 1 < |c.nodes[i].log|
    case Restart(i) => i < |c.nodes|
  }

  /** The peer that the step runs on. */
  function Actor(s: Step): nat {
    match s
    case Timeout(i) => i
    case RecvVoteReq(v, _) => v
    case RecvVoteResp(_, i, _, _) => i
    case ClientReq(i, _) => i
    case SendAppend(i, _) => i
    case RecvAppend(i, _) => i
    case RecvAppResp(_, args, _) => args.leader
    case Apply(i) => i
    case Restart(i) => i
  }

  /** The actor's state after the step. */
  function NewNode(c: Cluster, s: Step, reset: bool): Node
    requires Shape(c) && Enabled(c, s)
  {
    var n := c.nodes[Actor(s)];
    match s
    case Timeout(i) => StartElection(n, i)
    case RecvVoteReq(v, args) => RequestVote(n, args).0
    case RecvVoteResp(t, i, p, reply) => ReceiveVote(n, t, reply, reset)
    case ClientReq(i, cmd) => ClientStart(n, cmd)
    case SendAppend(i, p) => n
    case RecvAppend(i, args) => AppendEntries(n, args).0
    case RecvAppResp(p, args, reply) => ReceiveAppend(n, args.leader, p, args, reply)
    case Apply(i) => ApplyOne(n)
    case Restart(i) => Boot(|c.nodes|, n.disk)
  }

  function NewMsgs(c: Cluster, s: Step): set<Msg>
    requires Shape(c) && Enabled(c, s)
  {
    var n := c.nodes[Actor(s)];
    match s
    case Timeout(i) => {VoteReq(VoteRequest(StartElection(n, i), i))}
    case RecvVoteReq(v, args) => {VoteResp(args.term, args.cand, v, RequestVote(n, args).1)}
    case SendAppend(i, p) => {AppReq(p, MakeAppend(n, i, p))}
    case RecvAppend(i, args) => {AppResp(i, args, AppendEntries(n, args).1)}
    case _ => {}
  }

  function NewPending(c: Cluster, s: Step): set<Call>
    requires Shape(c) && Enabled(c, s)
  {
    match s
    case Timeout(i) =>
      var t := c.nodes[i].term + 1;
      c.pending + set p: nat | p < |c.nodes| && p != i :: Call(i, t, p)
    case RecvVoteResp(t, i, p, _) => c.pending - {Call(i, t, p)}
    case _ => c.pending
  }

  function NewApplied(c: Cluster, s: Step): set<Applied>
    requires Shape(c) && Enabled(c, s)
  {
    match s
    case Apply(i) =>
      var k := c.nodes[i].applied + 1;
      {Applied(i, k, c.nodes[i].log[k].cmd)}
    case _ => {}
  }

  /** One critical section. `reset` says whether winning an election clears `matchIndex`:
      false is the code as written, true is Figure 2 of the Raft paper. */
  function Do(c: Cluster, s: Step, reset: bool): Cluster
    requires Shape(c) && Enabled(c, s)
  {
    Cluster(c.nodes[Actor(s) := NewNode(c, s, reset)],
            c.msgs + NewMsgs(c, s), NewPending(c, s), c.applied + NewApplied(c, s))
  }

  /** A run: clusters and the steps between them. */
  ghost predicate IsRun(cs: seq<Cluster>, steps: seq<Step>, reset: bool) {
    |cs| == |steps| + 1 &&
    |cs[0].nodes| >= 2 && cs[0] == InitCluster(|cs[0].nodes|) &&
    (forall i :: 0 <= i < |cs| ==> Shape(cs[i])) &&
    forall i {:trigger steps[i]} :: 0 <= i < |steps| ==>
      Enabled(cs[i], steps[i]) && cs[i + 1] == Do(cs[i], steps[i], reset)
  }

  /** Every step keeps the cluster's shape, so `IsRun` asks for nothing a run lacks. */
  lemma DoKeepsShape(c: Cluster, s: Step, reset: bool)
    requires Shape(c) && Enabled(c, s)
    ensures Shape(Do(c, s, reset)) && |Do(c, s, reset).nodes| == |c.nodes|
  {
  }
}
