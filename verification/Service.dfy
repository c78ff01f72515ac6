/** What the whole system can always still do: from every state that a run of it reaches, any majority
    of the peers, by itself, can take a new request of a client and answer it, and the answer is the
    linearised one. */
module Service {
  import opened Ops
  import opened RaftNode
  import opened RaftCluster
  import opened RaftInv
  import opened RaftCommit
  import opened RaftSafety
  import opened RaftApplied
  import opened RaftProgress
  import opened Store
  import opened Linear

  // --------------------------------------------- logs of operations and nothing else

  predicate OpsOnly(log: seq<Entry>) {
    forall k :: 1 <= k < |log| ==> log[k].cmd.Run?
  }

  predicate OpsNode(n: Node) { OpsOnly(n.log) && (n.disk.Some? ==> OpsOnly(n.disk.value.log)) }

  predicate OpsMsg(m: Msg) { m.AppReq? ==> forall k :: 0 <= k < |m.appArgs.entries| ==> m.appArgs.entries[k].cmd.Run? }

  ghost predicate OpsCluster(c: Cluster) {
    (forall i :: 0 <= i < |c.nodes| ==> OpsNode(c.nodes[i])) && (forall m :: m in c.msgs ==> OpsMsg(m)) &&
    forall o :: o in c.applied ==> o.index >= 1 && o.cmd.Run?
  }

  lemma OpsStep(c: Cluster, s: Step, reset: bool)
    requires Shape(c) && Enabled(c, s) && OpsCluster(c) && (s.ClientReq? ==> s.cmd.Run?)
    ensures OpsCluster(Do(c, s, reset))
  {
    hide CommitScan, BackupIndex, Agreeing, RunStart;
    var d := Do(c, s, reset);
    assert OpsNode(c.nodes[Actor(s)]);
    if s.RecvAppend? {
      assert OpsMsg(AppReq(s.follower, s.appArgs));
    }
    assert OpsNode(NewNode(c, s, reset));
    forall m | m in NewMsgs(c, s)
      ensures OpsMsg(m)
    {
    }
  }

  lemma {:induction false} OpsRuns(n: nat, moves: seq<Move>, reset: bool)
    requires Reached(n, moves, reset).Some?
    ensures Formed(Reached(n, moves, reset).value) && OpsCluster(Reached(n, moves, reset).value.c)
  {
    if moves != [] {
      hide Moved, OpsCluster;
      var k := |moves| - 1;
      var j := Reached(n, moves[..k], reset).value;
      OpsRuns(n, moves[..k], reset);
      MoveCluster(j, moves[k], reset);
      if StepOf(moves[k]).Some? {
        OpsStep(j.c, StepOf(moves[k]).value, reset);
      }
    }
  }

  // ------------------------------------------------------- moves that a run can take

  lemma MoveOn(n: nat, moves: seq<Move>, m: Move, reset: bool)
    requires Reached(n, moves, reset).Some? && Formed(Reached(n, moves, reset).value)
    requires CanMove(Reached(n, moves, reset).value, m, reset)
    ensures Reached(n, moves + [m], reset) == Some(Moved(Reached(n, moves, reset).value, m, reset))
  {
    hide CanMove, Moved;
    assert (moves + [m])[..|moves|] == moves;
  }

  /** The peer that moves. */
  function Mover(m: Move): nat {
    match m case Raft(s) => Actor(s) case Take(x, _) => x case Enter(x, _) => x case Leave(x, _) => x case CrashInTurn(x, _) => x
  }

  /** `after` goes on from `before` by moves of the peers in `q`. */
  ghost predicate GoesOn(before: seq<Move>, after: seq<Move>, q: set<nat>) {
    before <= after && forall m :: |before| <= m < |after| ==> Mover(after[m]) in q
  }

  lemma GoesOnMore(a: seq<Move>, b: seq<Move>, q: set<nat>, m: Move)
    requires GoesOn(a, b, q) && Mover(m) in q
    ensures GoesOn(a, b + [m], q)
  {
    forall i | |a| <= i < |b| + 1
      ensures Mover((b + [m])[i]) in q
    {
      assert i < |b| ==> (b + [m])[i] == b[i];
    }
  }

  lemma NotClient(j: System, s: Step, reset: bool)
    requires Formed(j) && CanMove(j, Raft(s), reset) && !s.ClientReq?
    ensures !s.Restart? ==> Moved(j, Raft(s), reset).stores == j.stores
    ensures Moved(j, Raft(s), reset).c == RaftCluster.Do(j.c, s, reset)
  {
    hide RaftCluster.Do;
  }

  /** A continuation of the cluster's run, as moves of the system. */
  lemma {:induction false} Lift(n: nat, start: seq<Move>, moves: seq<Move>, reset: bool, u: Path, q: set<nat>, m: nat, restarts: bool)
    returns (after: seq<Move>)
    requires Reached(n, moves, reset).Some? && Good(u, reset) && m <= |u.steps| && GoesOn(start, moves, q)
    requires Formed(Reached(n, moves, reset).value) && |u.cs| == |u.steps| + 1 && Reached(n, moves, reset).value.c == u.cs[m]
    requires forall x :: m <= x < |u.steps| ==> Among(u.steps[x], q, restarts)
    ensures Reached(n, after, reset).Some? && Formed(Reached(n, after, reset).value) && GoesOn(start, after, q)
    ensures Reached(n, after, reset).value.c == Now(u)
    ensures !restarts ==> Reached(n, after, reset).value.stores == Reached(n, moves, reset).value.stores
    decreases |u.steps| - m
  {
    after := moves;
    if m < |u.steps| {
      hide RaftCluster.Do, Enabled, Tame, Moved, Reached;
      var j, s := Reached(n, moves, reset).value, u.steps[m];
      assert Among(s, q, restarts);
      assert Enabled(u.cs[m], s) && Tame(u.cs[m], s, reset) && u.cs[m + 1] == RaftCluster.Do(u.cs[m], s, reset);
      MoveCluster(j, Raft(s), reset);
      MoveOn(n, moves, Raft(s), reset);
      NotClient(j, s, reset);
      GoesOnMore(start, moves, q, Raft(s));
      after := Lift(n, start, moves + [Raft(s)], reset, u, q, m + 1, restarts);
    }
  }

  /** A leader's `Start` begins a request at the index where its log now holds the operation; any
      other peer's begins none. */
  lemma RequestIsLogged(j: System, x: nat, op: Op, reset: bool)
    requires Formed(j) && CanMove(j, Raft(ClientReq(x, Run(op))), reset)
    ensures var d, log := Moved(j, Raft(ClientReq(x, Run(op))), reset), j.c.nodes[x].log;
            if j.c.nodes[x].role == Leader then
              d.stores == j.stores[x := j.stores[x].(requests := j.stores[x].requests + [Request(|log|, op)])] &&
              d.c.nodes[x].log == log + [Entry(j.c.nodes[x].term, Run(op))]
            else d == j
  {
  }

  // ---------------------------------------------------------------- the apply loop

  /** Channel `ch` of peer `x` waits at index `k` for the request that stands there. */
  ghost predicate Waits(j: System, x: nat, ch: nat, k: nat, op: Op) {
    x < |j.stores| && ch < |j.stores[x].requests| && j.stores[x].requests[ch] == Request(k, op) &&
    k in j.stores[x].waiting && j.stores[x].waiting[k] == ch
  }

  lemma NextIs(j: System, x: nat, log: seq<Command>) returns (op: Op)
    requires SystemOK(j, log) && OpsCluster(j.c) && x < |j.stores| && j.stores[x].applied < j.c.nodes[x].applied
    ensures IsNext(j, x, op)
  {
    hide StoreOK;
    var k := j.stores[x].applied + 1;
    assert PeerOK(j, x, log);
    assert Handed(j.c.applied, x, k);
    var cmd :| Applied(x, k, cmd) in j.c.applied;
    op := cmd.op;
  }

  lemma TakeDoes(j: System, x: nat, op: Op, reset: bool)
    requires Formed(j) && IsNext(j, x, op)
    ensures CanMove(j, Take(x, op), reset) && Moved(j, Take(x, op), reset) == j.(stores := j.stores[x := Deliver(j.stores[x], op)])
  {
  }

  /** The apply loop of `x` takes the next message, which is the next command of the log. */
  lemma TakeOne(n: nat, start: seq<Move>, moves: seq<Move>, reset: bool, q: set<nat>, x: nat, log: seq<Command>)
    returns (after: seq<Move>, next: Op)
    requires Reached(n, moves, reset).Some? && GoesOn(start, moves, q) && x in q
    requires Explained(log, Reached(n, moves, reset).value.c.applied) && Formed(Reached(n, moves, reset).value)
    requires var j := Reached(n, moves, reset).value; x < |j.stores| && j.stores[x].applied < j.c.nodes[x].applied
    ensures GoesOn(start, after, q)
    ensures var j := Reached(n, moves, reset).value;
            Reached(n, after, reset) == Some(j.(stores := j.stores[x := Deliver(j.stores[x], next)])) &&
            StoreOK(j.stores[x], log) && j.stores[x].applied < |log| && log[j.stores[x].applied] == Run(next)
  {
    var j := Reached(n, moves, reset).value;
    SystemRuns(n, moves, log, reset);
    OpsRuns(n, moves, reset);
    next := NextIs(j, x, log);
    assert PeerOK(j, x, log);
    hide OpsCluster, StoreOK, Explained, Deliver, Reached;
    TakeDoes(j, x, next, reset);
    NextOfLog(j, x, next, log);
    MoveOn(n, moves, Take(x, next), reset);
    GoesOnMore(start, moves, q, Take(x, next));
    after := moves + [Take(x, next)];
  }

  /** The apply loop of `x` works through what the peer has handed out, up to index `k`, and the
      request that waits there is answered. */
  lemma {:induction false} TakeUp(n: nat, start: seq<Move>, moves: seq<Move>, reset: bool, q: set<nat>, x: nat, ch: nat, k: nat,
                                  op: Op, log: seq<Command>)
    returns (after: seq<Move>)
    requires Reached(n, moves, reset).Some? && GoesOn(start, moves, q) && x in q
    requires Explained(log, Reached(n, moves, reset).value.c.applied) && 1 <= k <= |log| && log[k - 1] == Run(op)
    requires var j := Reached(n, moves, reset).value;
             Formed(j) && Waits(j, x, ch, k, op) && j.stores[x].applied < k <= j.c.nodes[x].applied
    ensures GoesOn(start, after, q) && Reached(n, after, reset).Some?
    ensures var j, d := Reached(n, moves, reset).value, Reached(n, after, reset).value;
            d.c == j.c && x < |d.stores| && Accepted(d.stores[x], ch) && AnsweredRight(d.stores[x], ch, log) &&
            d.stores[x].requests == j.stores[x].requests
    decreases k - Reached(n, moves, reset).value.stores[x].applied
  {
    hide StoreOK, Explained, AnsweredRight, Deliver, Reached, GoesOn, Accepted, Shape;
    var j := Reached(n, moves, reset).value;
    var next;
    after, next := TakeOne(n, start, moves, reset, q, x, log);
    if j.stores[x].applied + 1 == k {
      TurnAnswers(j.stores[x], log, ch);
    } else {
      DeliverSame(j.stores[x], next);
      after := TakeUp(n, start, after, reset, q, x, ch, k, op, log);
    }
  }

  lemma DeliverSame(s: Store, op: Op)
    ensures Deliver(s, op).requests == s.requests && Deliver(s, op).waiting == s.waiting
    ensures Deliver(s, op).applied == s.applied + 1
  {
  }

  // --------------------------------------------------------------------- the theorem

  /** The store as `Await` leaves it when `Start` has given the operation the index `k`. */
  lemma EnterDoes(j: System, d: System, x: nat, k: nat, op: Op, reset: bool)
    requires Formed(j) && Formed(d) && x < |j.stores| && j.stores[x].firstLive <= |j.stores[x].requests|
    requires d.stores == j.stores[x := j.stores[x].(requests := j.stores[x].requests + [Request(k, op)])]
    ensures var ch := |j.stores[x].requests|;
            CanMove(d, Enter(x, ch), reset) && Waits(Moved(d, Enter(x, ch), reset), x, ch, k, op) &&
            Formed(Moved(d, Enter(x, ch), reset)) && Moved(d, Enter(x, ch), reset).c == d.c &&
            |Moved(d, Enter(x, ch), reset).stores[x].requests| == ch + 1 &&
            Moved(d, Enter(x, ch), reset).stores[x].applied == j.stores[x].applied
  {
  }

  /** What the store of `x` knows of its requests and of its place. */
  lemma StoreFacts(j: System, x: nat, log: seq<Command>)
    requires SystemOK(j, log) && x < |j.stores|
    ensures Formed(j) && j.stores[x].firstLive <= |j.stores[x].requests| && j.stores[x].applied <= j.c.nodes[x].applied
  {
    hide Caught;
    assert PeerOK(j, x, log);
  }

  /** A log that explains what the system has applied so far. */
  lemma SomeLog(n: nat, moves: seq<Move>, reset: bool) returns (log: seq<Command>)
    requires Reached(n, moves, reset).Some?
    ensures Explained(log, Reached(n, moves, reset).value.c.applied) && SystemOK(Reached(n, moves, reset).value, log)
  {
    hide IsRun, TameRun, Explained, SystemOK;
    var cs, steps := ClusterRuns(n, moves, reset);
    IndexOfLast(cs, steps, reset);
    log := OneLog(cs, steps, reset, |cs| - 1);
    SystemRuns(n, moves, log, reset);
  }

  lemma IndexOfLast(cs: seq<Cluster>, steps: seq<Step>, reset: bool)
    requires IsRun(cs, steps, reset)
    ensures |cs| == |steps| + 1
  {
  }

  lemma GoesOnSelf(moves: seq<Move>, q: set<nat>)
    ensures GoesOn(moves, moves, q)
  {
  }

  lemma Lengths(r: Path, reset: bool)
    requires Good(r, reset)
    ensures |r.cs| == |r.steps| + 1 && Shape(Now(r))
  {
  }

  lemma ContinuesAt(r: Path, a: Path, q: set<nat>)
    requires Continues(r, a, q, true) && |r.cs| == |r.steps| + 1
    ensures |r.steps| <= |a.steps| && |r.cs| <= |a.cs| && a.cs[|r.steps|] == Now(r)
    ensures forall x :: |r.steps| <= x < |a.steps| ==> Among(a.steps[x], q, true)
  {
  }

  lemma ContinuesAfter(r: Path, a: Path, q: set<nat>)
    requires Continues(r, a, q, false) && |r.cs| == |r.steps| + 1
    ensures |r.steps| <= |a.steps| && |r.cs| <= |a.cs| && a.cs[|r.steps|] == Now(r)
    ensures forall x :: |r.steps| <= x < |a.steps| ==> Among(a.steps[x], q, false)
  {
  }

  lemma ProposedIn(a: Path, u: Path, x: nat, cmd: Command, reset: bool)
    requires |a.cs| == |a.steps| + 1 && |u.cs| > 0 && Good(u, reset) && Shape(Now(a))
    requires u == Path(a.cs + [Now(u)], a.steps + [ClientReq(x, cmd)])
    ensures Enabled(Now(a), ClientReq(x, cmd)) && Tame(Now(a), ClientReq(x, cmd), reset)
    ensures Now(u) == RaftCluster.Do(Now(a), ClientReq(x, cmd), reset)
  {
    hide RaftCluster.Do, Enabled, Tame;
    var k := |a.steps|;
    assert u.steps[k] == ClientReq(x, cmd) && u.cs[k] == Now(a) && u.cs[k + 1] == Now(u);
  }

  lemma AsksRun(j: System, x: nat, op: Op, reset: bool)
    requires Formed(j) && Enabled(j.c, ClientReq(x, Run(op))) && Tame(j.c, ClientReq(x, Run(op)), reset)
    ensures CanMove(j, Raft(ClientReq(x, Run(op))), reset)
  {
  }

  lemma LedFacts(c: Cluster, q: set<nat>, x: nat, t: nat, l: Log)
    requires Led(c, q, x, t, l)
    ensures x in q && x < |c.nodes| && c.nodes[x].log == l && c.nodes[x].applied < |l| - 1
    ensures forall p :: p in q ==> p < |c.nodes|
  {
  }

  /** A majority takes the operation into its new leader's log, and the leader's store registers the
      request: `k` is its index, `u` the cluster's run, in which the leader's log is `l`. */
  lemma Ask(n: nat, moves: seq<Move>, reset: bool, q: set<nat>, op: Op)
    returns (after: seq<Move>, u: Path, x: nat, ch: nat, l: Log)
    requires Reached(n, moves, reset).Some? && IsQuorum(q, |Reached(n, moves, reset).value.c.nodes|)
    ensures Reached(n, after, reset).Some? && GoesOn(moves, after, q) && x in q
    ensures Good(u, reset) && |u.cs| == |u.steps| + 1 && Led(Now(u), q, x, l[|l| - 1].term, l)
    ensures IsQuorum(q, |Now(u).nodes|) && |l| > 1 && l[|l| - 1].cmd == Run(op)
    ensures var j := Reached(n, after, reset).value;
            Formed(j) && j.c == Now(u) && Waits(j, x, ch, |l| - 1, op) && |j.stores[x].requests| == ch + 1 &&
            j.stores[x].applied < |l| - 1
    ensures forall p :: p in q ==> p < |Reached(n, moves, reset).value.c.nodes| &&
                                   Reached(n, moves, reset).value.c.nodes[p].applied < |l| - 1
  {
    hide Led, RaftCluster.Do, Enabled, Tame, Moved, Reached, CanMove, StoreOK, IsQuorum, Explained, SystemOK, Waits;
    var cs, steps := ClusterRuns(n, moves, reset);
    IndexOfLast(cs, steps, reset);
    var r := Path(cs, steps);
    var a;
    a, u, x, l := Propose(r, reset, q, Run(op));
    Lengths(a, reset);
    Lengths(u, reset);
    LedFacts(Now(u), q, x, l[|l| - 1].term, l);
    GoesOnSelf(moves, q);
    ContinuesAt(r, a, q);
    var m1 := Lift(n, moves, moves, reset, a, q, |steps|, true);
    var j := Reached(n, m1, reset).value;
    ProposedIn(a, u, x, Run(op), reset);
    AsksRun(j, x, op, reset);
    MoveOn(n, m1, Raft(ClientReq(x, Run(op))), reset);
    GoesOnMore(moves, m1, q, Raft(ClientReq(x, Run(op))));
    RequestIsLogged(j, x, op, reset);
    ClientReqDoes(Now(a), x, Run(op), reset);
    var m2 := m1 + [Raft(ClientReq(x, Run(op)))];
    var d := Reached(n, m2, reset).value;
    var log := SomeLog(n, m1, reset);
    StoreFacts(j, x, log);
    MoveCluster(j, Raft(ClientReq(x, Run(op))), reset);
    EnterDoes(j, d, x, |l| - 1, op, reset);
    ch := |j.stores[x].requests|;
    MoveOn(n, m2, Enter(x, ch), reset);
    GoesOnMore(moves, m2, q, Enter(x, ch));
    after := m2 + [Enter(x, ch)];
  }

  /** Service: from every state that a run of the system reaches, a majority can go on by itself, no
      other peer moving, so that a new request for the operation, at an index that no member had
      applied, is answered: a write is done, and a read returns what the log before it means. */
  lemma MajorityServes(n: nat, moves: seq<Move>, reset: bool, q: set<nat>, op: Op)
    returns (after: seq<Move>, x: nat, ch: nat, log: seq<Command>)
    requires Reached(n, moves, reset).Some? && IsQuorum(q, |Reached(n, moves, reset).value.c.nodes|)
    ensures Reached(n, after, reset).Some? && GoesOn(moves, after, q) && x in q
    ensures var j, d := Reached(n, moves, reset).value, Reached(n, after, reset).value;
            Explained(log, d.c.applied) && x < |d.stores| && Accepted(d.stores[x], ch) && AnsweredRight(d.stores[x], ch, log) &&
            ch == |d.stores[x].requests| - 1 && d.stores[x].requests[ch].op == op &&
            forall p :: p in q ==> p < |j.c.nodes| && j.c.nodes[p].applied < d.stores[x].requests[ch].index
  {
    var m1, u, l;
    m1, u, x, ch, l := Ask(n, moves, reset, q, op);
    hide Led, RaftCluster.Do, Enabled, Tame, Moved, Reached, CanMove, StoreOK, IsQuorum, Explained, SystemOK, AnsweredRight, Good;
    var k := |l| - 1;
    var d := Finish(u, reset, q, x, l);
    Lengths(d, reset);
    ContinuesAfter(u, d, q);
    var m2 := Lift(n, moves, m1, reset, d, q, |u.steps|, false);
    log := SomeLog(n, m2, reset);
    HandedTo(Now(d), x, l, log);
    after := TakeUp(n, moves, m2, reset, q, x, ch, k, op, log);
  }

  lemma HandedTo(c: Cluster, x: nat, l: Log, log: seq<Command>)
    requires HasApplied(c, x, l) && Explained(log, c.applied) && |l| > 1
    ensures x < |c.nodes| && c.nodes[x].applied >= |l| - 1 && |l| - 1 <= |log| && log[|l| - 2] == l[|l| - 1].cmd
  {
  }
}
