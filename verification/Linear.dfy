/** The whole system: a cluster of peers, each with a store on top. Every accepted read returns
    the effect of the log before its own index, and the log order respects real time. */
module Linear {
  import opened Ops
  import opened RaftNode
  import opened RaftCluster
  import opened RaftCommit
  import opened RaftSafety
  import opened RaftApplied
  import opened Store

  datatype System = System(c: Cluster, stores: seq<Store>)

  /** A Raft step; the apply loop of peer `x` taking the next message off its channel; a waiting
      request entering or leaving `waitChans`; a crash of `x` in the middle of such a turn. */
  datatype Move =
    | Raft(step: Step)
    | Take(x: nat, op: Op)
    | Enter(x: nat, ch: nat)
    | Leave(x: nat, index: nat)
    | CrashInTurn(x: nat, op: Op)

  function InitSystem(n: nat): System {
    System(InitCluster(n), seq(n, _ => NewStore))
  }

  predicate Formed(j: System) { Shape(j.c) && |j.stores| == |j.c.nodes| }

  /** The next message that peer `x` handed to its store in this life. */
  predicate IsNext(j: System, x: nat, op: Op) {
    x < |j.stores| && x < |j.c.nodes| && j.stores[x].applied < j.c.nodes[x].applied &&
    Applied(x, j.stores[x].applied + 1, Run(op)) in j.c.applied
  }

  /** Elections are won tamely: that is all that the theorems ask of a run. Stores propose nothing
      but operations. */
  predicate CanMove(j: System, m: Move, reset: bool)
    requires Formed(j)
  {
    match m
    case Raft(s) => Enabled(j.c, s) && Tame(j.c, s, reset) && (s.ClientReq? ==> s.cmd.Run?)
    case Take(x, op) => IsNext(j, x, op)
    case Enter(x, ch) => x < |j.stores| && j.stores[x].firstLive <= ch < |j.stores[x].requests|
    case Leave(x, _) => x < |j.stores|
    case CrashInTurn(x, op) => IsNext(j, x, op)
  }

  /** `Start` returns the index of the new entry only on a leader; a restart of the peer restarts
      its store. */
  function RaftStores(j: System, s: Step): seq<Store>
    requires Formed(j) && Enabled(j.c, s)
  {
    match s
    case Restart(x) => j.stores[x := Restarted(j.stores[x])]
    case ClientReq(x, cmd) =>
      if j.c.nodes[x].role == Leader && cmd.Run? then
        j.stores[x := Begin(j.stores[x], |j.c.nodes[x].log|, cmd.op)]
      else j.stores
    case _ => j.stores
  }

  ghost function Moved(j: System, m: Move, reset: bool): System
    requires Formed(j) && CanMove(j, m, reset)
  {
    match m
    case Raft(s) => System(RaftCluster.Do(j.c, s, reset), RaftStores(j, s))
    case Take(x, op) => j.(stores := j.stores[x := Deliver(j.stores[x], op)])
    case Enter(x, ch) => j.(stores := j.stores[x := Register(j.stores[x], ch)])
    case Leave(x, index) => j.(stores := j.stores[x := Unregister(j.stores[x], index)])
    case CrashInTurn(x, op) =>
      System(RaftCluster.Do(j.c, Restart(x), reset), j.stores[x := CrashedMid(j.stores[x], op)])
  }

  /** The system that a run of `n` peers reaches, if every move was possible. */
  ghost function Reached(n: nat, moves: seq<Move>, reset: bool): Option<System> {
    if moves == [] then (if n >= 2 then Some(InitSystem(n)) else None)
    else
      var before := Reached(n, moves[..|moves| - 1], reset);
      var m := moves[|moves| - 1];
      if before.Some? && Formed(before.value) && CanMove(before.value, m, reset)
      then Some(Moved(before.value, m, reset)) else None
  }

  /** The Raft step inside a move, if any. */
  function StepOf(m: Move): Option<Step> {
    match m
    case Raft(s) => Some(s)
    case CrashInTurn(x, _) => Some(Restart(x))
    case _ => None
  }

  // ---------------------------------------------------------- the run of the cluster

  /** What a move does to the cluster. */
  lemma MoveCluster(j: System, m: Move, reset: bool)
    requires Formed(j) && CanMove(j, m, reset)
    ensures Formed(Moved(j, m, reset))
    ensures var s := StepOf(m);
            if s.None? then Moved(j, m, reset).c == j.c
            else Enabled(j.c, s.value) && Tame(j.c, s.value, reset) && Moved(j, m, reset).c == RaftCluster.Do(j.c, s.value, reset)
  {
    hide RaftCluster.Do;
    if StepOf(m).Some? {
      DoKeepsShape(j.c, StepOf(m).value, reset);
    }
  }

  /** The cluster inside a run of the system makes a run of its own. */
  lemma {:induction false} ClusterRuns(n: nat, moves: seq<Move>, reset: bool) returns (cs: seq<Cluster>, steps: seq<Step>)
    requires Reached(n, moves, reset).Some?
    ensures IsRun(cs, steps, reset) && TameRun(cs, steps, reset)
    ensures |cs| > 0 && cs[|cs| - 1] == Reached(n, moves, reset).value.c && Formed(Reached(n, moves, reset).value)
  {
    if moves == [] {
      cs, steps := [InitCluster(n)], [];
    } else {
      hide CanMove, Moved, IsRun, TameRun, Enabled, Tame, RaftCluster.Do;
      var k := |moves| - 1;
      cs, steps := ClusterRuns(n, moves[..k], reset);
      var s := StepOf(moves[k]);
      MoveCluster(Reached(n, moves[..k], reset).value, moves[k], reset);
      if s.Some? {
        RunMore(cs, steps, s.value, reset);
        cs, steps := cs + [RaftCluster.Do(cs[|cs| - 1], s.value, reset)], steps + [s.value];
      }
    }
  }

  // ------------------------------------------------------------------ invariant

  /** Peer `x` handed out every index up to `k`, in this life or an earlier one. */
  ghost predicate HandedOut(applied: set<Applied>, x: nat, k: nat) {
    forall i {:trigger Handed(applied, x, i)} :: 1 <= i <= k ==> Handed(applied, x, i)
  }

  ghost predicate Handed(applied: set<Applied>, x: nat, i: nat) {
    exists cmd :: Applied(x, i, cmd) in applied
  }

  ghost predicate PeerOK(j: System, x: nat, log: seq<Command>)
    requires Formed(j) && x < |j.stores|
  {
    StoreOK(j.stores[x], log) && j.stores[x].applied <= j.c.nodes[x].applied &&
    HandedOut(j.c.applied, x, j.c.nodes[x].applied) && HandedOut(j.c.applied, x, j.stores[x].high)
  }

  ghost predicate SystemOK(j: System, log: seq<Command>) {
    Formed(j) && forall x {:trigger PeerOK(j, x, log)} :: 0 <= x < |j.stores| ==> PeerOK(j, x, log)
  }

  lemma HandedMore(a: set<Applied>, b: set<Applied>, x: nat, k: nat)
    requires HandedOut(a, x, k) && a <= b
    ensures HandedOut(b, x, k)
  {
    forall i | 1 <= i <= k
      ensures Handed(b, x, i)
    {
      assert Handed(a, x, i);
      var cmd :| Applied(x, i, cmd) in a;
      assert Applied(x, i, cmd) in b;
    }
  }

  /** A Raft step other than a restart leaves the store of `x` as it was but for a begun request,
      whose index is new. */
  lemma RaftPeer(j: System, s: Step, x: nat, log: seq<Command>, reset: bool)
    requires Formed(j) && x < |j.stores| && PeerOK(j, x, log) && CanMove(j, Raft(s), reset)
    requires s != Restart(x) && j.stores[x].high < |j.c.nodes[x].log|
    ensures Formed(Moved(j, Raft(s), reset)) && PeerOK(Moved(j, Raft(s), reset), x, log)
  {
    hide StoreOK, HandedOut;
    DoKeepsShape(j.c, s, reset);
    var d := RaftCluster.Do(j.c, s, reset);
    HandedMore(j.c.applied, d.applied, x, j.stores[x].high);
    HandedMore(j.c.applied, d.applied, x, j.c.nodes[x].applied);
    AppliedStep(j.c, s, x, reset);
    if s == Apply(x) {
      HandedNext(d.applied, x, j.c.nodes[x].applied, j.c.nodes[x].log[j.c.nodes[x].applied + 1].cmd);
    }
    if s.ClientReq? && s.leader == x && j.c.nodes[x].role == Leader && s.cmd.Run? {
      BeginKeeps(j.stores[x], log, |j.c.nodes[x].log|, s.cmd.op);
    }
  }

  lemma HandedNext(applied: set<Applied>, x: nat, k: nat, cmd: Command)
    requires HandedOut(applied, x, k) && Applied(x, k + 1, cmd) in applied
    ensures HandedOut(applied, x, k + 1)
  {
    forall i | 1 <= i <= k + 1
      ensures Handed(applied, x, i)
    {
      if i <= k {
        assert Handed(applied, x, i);
      }
    }
  }

  /** Only applying and restarting move a peer's applied index. */
  lemma AppliedStep(c: Cluster, s: Step, x: nat, reset: bool)
    requires Shape(c) && Enabled(c, s) && x < |c.nodes| && s != Restart(x)
    ensures RaftCluster.Do(c, s, reset).nodes[x].applied == c.nodes[x].applied + if s == Apply(x) then 1 else 0
  {
  }

  lemma RestartPeer(j: System, x: nat, log: seq<Command>, store: Store, reset: bool)
    requires Formed(j) && x < |j.stores| && PeerOK(j, x, log)
    requires StoreOK(store, log) && store.applied == 0 && HandedOut(j.c.applied, x, store.high)
    ensures var d := System(RaftCluster.Do(j.c, Restart(x), reset), j.stores[x := store]);
            Formed(d) && PeerOK(d, x, log)
  {
    hide StoreOK;
    DoKeepsShape(j.c, Restart(x), reset);
    assert RaftCluster.Do(j.c, Restart(x), reset).applied == j.c.applied;
  }

  lemma StorePeer(j: System, x: nat, log: seq<Command>, store: Store)
    requires Formed(j) && x < |j.stores| && PeerOK(j, x, log) && StoreOK(store, log)
    requires store.applied <= j.c.nodes[x].applied && store.high <= Max(j.stores[x].high, j.c.nodes[x].applied)
    ensures PeerOK(j.(stores := j.stores[x := store]), x, log)
  {
    hide StoreOK;
    if store.high <= j.stores[x].high {
      HandedLess(j.c.applied, x, j.stores[x].high, store.high);
    } else {
      HandedLess(j.c.applied, x, j.c.nodes[x].applied, store.high);
    }
  }

  lemma HandedLess(applied: set<Applied>, x: nat, k: nat, l: nat)
    requires HandedOut(applied, x, k) && l <= k
    ensures HandedOut(applied, x, l)
  {
  }

  /** The next message is the next command of the log. */
  lemma NextOfLog(j: System, x: nat, op: Op, log: seq<Command>)
    requires Formed(j) && x < |j.stores| && IsNext(j, x, op) && Explained(log, j.c.applied)
    ensures j.stores[x].applied < |log| && log[j.stores[x].applied] == Run(op)
  {
    assert Applied(x, j.stores[x].applied + 1, Run(op)) in j.c.applied;
  }

  /** The store of the peer that moves. */
  lemma MoverKeeps(j: System, m: Move, x: nat, log: seq<Command>, reset: bool)
    requires Formed(j) && x < |j.stores| && PeerOK(j, x, log) && CanMove(j, m, reset) && Explained(log, j.c.applied)
    requires j.stores[x].high < |j.c.nodes[x].log|
    requires m == Raft(Restart(x)) || (!m.Raft? && m.x == x)
    ensures Formed(Moved(j, m, reset)) && PeerOK(Moved(j, m, reset), x, log)
  {
    hide StoreOK, Explained;
    match m
    case Raft(s) =>
      RestartKeeps(j.stores[x], log);
      RestartPeer(j, x, log, Restarted(j.stores[x]), reset);
    case Take(_, op) =>
      NextOfLog(j, x, op, log);
      DeliverKeeps(j.stores[x], log, op);
      StorePeer(j, x, log, Deliver(j.stores[x], op));
    case Enter(_, ch) =>
      RegisterKeeps(j.stores[x], log, ch);
      StorePeer(j, x, log, Register(j.stores[x], ch));
    case Leave(_, index) =>
      UnregisterKeeps(j.stores[x], log, index);
      StorePeer(j, x, log, Unregister(j.stores[x], index));
    case CrashInTurn(_, op) =>
      NextOfLog(j, x, op, log);
      CrashMidKeeps(j.stores[x], log, op);
      HandedLess(j.c.applied, x, j.c.nodes[x].applied, j.stores[x].applied + 1);
      RestartPeer(j, x, log, CrashedMid(j.stores[x], op), reset);
  }

  /** The other peers. */
  lemma OthersKeep(j: System, m: Move, x: nat, log: seq<Command>, reset: bool)
    requires Formed(j) && x < |j.stores| && PeerOK(j, x, log) && CanMove(j, m, reset) && !m.Raft? && m.x != x
    ensures Formed(Moved(j, m, reset)) && PeerOK(Moved(j, m, reset), x, log)
  {
    hide StoreOK, HandedOut;
    if m.CrashInTurn? {
      DoKeepsShape(j.c, Restart(m.x), reset);
      assert RaftCluster.Do(j.c, Restart(m.x), reset).applied == j.c.applied;
    }
  }

  lemma MoveKeeps(j: System, m: Move, log: seq<Command>, reset: bool)
    requires SystemOK(j, log) && CanMove(j, m, reset) && Explained(log, j.c.applied)
    requires forall x :: 0 <= x < |j.stores| ==> j.stores[x].high < |j.c.nodes[x].log|
    ensures SystemOK(Moved(j, m, reset), log)
  {
    hide PeerOK, CanMove, Explained;
    FormedStays(j, m, reset);
    forall x | 0 <= x < |Moved(j, m, reset).stores|
      ensures PeerOK(Moved(j, m, reset), x, log)
    {
      assert PeerOK(j, x, log);
      if m == Raft(Restart(x)) || (!m.Raft? && m.x == x) {
        MoverKeeps(j, m, x, log, reset);
      } else if m.Raft? {
        RaftEnabled(j, m, reset);
        RaftPeer(j, m.step, x, log, reset);
      } else {
        OthersKeep(j, m, x, log, reset);
      }
    }
  }

  lemma RaftEnabled(j: System, m: Move, reset: bool)
    requires Formed(j) && CanMove(j, m, reset) && m.Raft?
    ensures Enabled(j.c, m.step) && Tame(j.c, m.step, reset)
  {
  }

  lemma FormedStays(j: System, m: Move, reset: bool)
    requires Formed(j) && CanMove(j, m, reset)
    ensures Formed(Moved(j, m, reset)) && |Moved(j, m, reset).stores| == |j.stores| && j.c.applied <= Moved(j, m, reset).c.applied
  {
    if StepOf(m).Some? {
      DoKeepsShape(j.c, StepOf(m).value, reset);
    }
  }

  // --------------------------------------------------------------------- all runs

  /** What a store has applied is in its peer's log. */
  lemma HighInLog(cs: seq<Cluster>, steps: seq<Step>, j: System, log: seq<Command>, x: nat, reset: bool)
    requires IsRun(cs, steps, reset) && TameRun(cs, steps, reset) && cs[|cs| - 1] == j.c && SystemOK(j, log) && x < |j.stores|
    ensures j.stores[x].high < |j.c.nodes[x].log|
  {
    hide StoreOK;
    assert PeerOK(j, x, log);
    var k := j.stores[x].high;
    if k > 0 {
      assert Handed(j.c.applied, x, k);
      var cmd :| Applied(x, k, cmd) in j.c.applied;
      AppliedStaysInLog(cs, steps, reset, |cs| - 1, Applied(x, k, cmd));
    }
  }

  lemma {:induction false} SystemRuns(n: nat, moves: seq<Move>, log: seq<Command>, reset: bool)
    requires Reached(n, moves, reset).Some? && Explained(log, Reached(n, moves, reset).value.c.applied)
    ensures SystemOK(Reached(n, moves, reset).value, log)
  {
    hide CanMove, Moved, PeerOK, IsRun;
    if moves == [] {
      InitSystemOK(n, log);
    } else {
      var k := |moves| - 1;
      var j := Reached(n, moves[..k], reset).value;
      FormedStays(j, moves[k], reset);
      SystemRuns(n, moves[..k], log, reset);
      var cs, steps := ClusterRuns(n, moves[..k], reset);
      forall x | 0 <= x < |j.stores|
        ensures j.stores[x].high < |j.c.nodes[x].log|
      {
        HighInLog(cs, steps, j, log, x, reset);
      }
      MoveKeeps(j, moves[k], log, reset);
    }
  }

  lemma InitSystemOK(n: nat, log: seq<Command>)
    requires n >= 2
    ensures SystemOK(InitSystem(n), log)
  {
    FreshOK(log);
    hide StoreOK;
  }

  /** Linearised reads: in every run of the system one log explains what every peer applied, and
      every request that was answered without an error has its own operation at the index that
      `Start` returned; a read returns the fold of the commands before that index. OpIds are
      distinct: an applied operation with the request's id is the request's operation. */
  lemma LinearisedReads(n: nat, moves: seq<Move>, reset: bool) returns (log: seq<Command>)
    requires Reached(n, moves, reset).Some?
    ensures Explained(log, Reached(n, moves, reset).value.c.applied)
    ensures forall x: nat, ch: nat {:trigger Accepted(Reached(n, moves, reset).value.stores[x], ch)} ::
              var j := Reached(n, moves, reset).value;
              x < |j.stores| && Accepted(j.stores[x], ch) && OwnId(j, j.stores[x].requests[ch].op) ==>
              AnsweredRight(j.stores[x], ch, log)
  {
    var j := Reached(n, moves, reset).value;
    var cs, steps := ClusterRuns(n, moves, reset);
    log := OneLog(cs, steps, reset, |cs| - 1);
    SystemRuns(n, moves, log, reset);
    forall x: nat, ch: nat | x < |j.stores| && Accepted(j.stores[x], ch) && OwnId(j, j.stores[x].requests[ch].op)
      ensures AnsweredRight(j.stores[x], ch, log)
    {
      AnswerIsRight(j, x, ch, log);
    }
  }

  /** No other applied operation has this one's id. */
  ghost predicate OwnId(j: System, op: Op) {
    forall o :: o in j.c.applied && o.cmd.Run? && o.cmd.op.id == op.id ==> o.cmd.op == op
  }

  lemma AnswerIsRight(j: System, x: nat, ch: nat, log: seq<Command>)
    requires SystemOK(j, log) && Explained(log, j.c.applied) && x < |j.stores|
    requires Accepted(j.stores[x], ch) && OwnId(j, j.stores[x].requests[ch].op)
    ensures AnsweredRight(j.stores[x], ch, log)
  {
    hide Caught, Meaning;
    var s := j.stores[x];
    assert PeerOK(j, x, log);
    assert SentOK(s, ch, log);
    var k := s.requests[ch].index;
    assert Handed(j.c.applied, x, k);
    var cmd :| Applied(x, k, cmd) in j.c.applied;
    assert log[k - 1] == cmd;
  }

  /** Real time: a request that begins after another was answered gets, if it is answered itself,
      a greater index, on whatever peer the two ran. Its OpId must be new when it begins. */
  lemma RealTimeOrder(n: nat, moves: seq<Move>, i: nat, x: nat, ch: nat, y: nat, ch': nat, reset: bool)
    requires i <= |moves| && Reached(n, moves, reset).Some? && Reached(n, moves[..i], reset).Some?
    requires var a, b := Reached(n, moves[..i], reset).value, Reached(n, moves, reset).value;
             x < |a.stores| && ch in a.stores[x].sent && ch < |a.stores[x].requests| &&
             y < |b.stores| && Accepted(b.stores[y], ch') &&
             forall o :: o in a.c.applied && o.cmd.Run? ==> o.cmd.op.id != b.stores[y].requests[ch'].op.id
    ensures Reached(n, moves[..i], reset).value.stores[x].requests[ch].index <
            Reached(n, moves, reset).value.stores[y].requests[ch'].index
  {
    hide StoreOK, PeerOK, CanMove, Moved, IsRun;
    var a, b := Reached(n, moves[..i], reset).value, Reached(n, moves, reset).value;
    var cs, steps := ClusterRuns(n, moves, reset);
    var log := OneLog(cs, steps, reset, LastOf(cs, steps, reset));
    AppliedGrows(n, moves, i, reset);
    SystemRuns(n, moves, log, reset);
    SystemRuns(n, moves[..i], log, reset);
    var k := AnswerHandsOut(a, x, ch, log);
    var l := AnswerIsLogged(b, y, ch', log);
    assert l <= k ==> Handed(a.c.applied, x, l);
  }

  function LastOf(cs: seq<Cluster>, steps: seq<Step>, reset: bool): (i: nat)
    requires IsRun(cs, steps, reset)
    ensures i == |cs| - 1
  {
    |cs| - 1
  }

  lemma {:induction false} AppliedGrows(n: nat, moves: seq<Move>, i: nat, reset: bool)
    requires i <= |moves| && Reached(n, moves, reset).Some? && Reached(n, moves[..i], reset).Some?
    ensures Reached(n, moves[..i], reset).value.c.applied <= Reached(n, moves, reset).value.c.applied
  {
    hide CanMove, Moved;
    if i < |moves| {
      var k := |moves| - 1;
      assert moves[..k][..i] == moves[..i];
      AppliedGrows(n, moves[..k], i, reset);
      FormedStays(Reached(n, moves[..k], reset).value, moves[k], reset);
    } else {
      assert moves[..i] == moves;
    }
  }

  /** When a request has been answered, its peer had handed out every index up to its own. */
  lemma AnswerHandsOut(j: System, x: nat, ch: nat, log: seq<Command>) returns (k: nat)
    requires SystemOK(j, log) && x < |j.stores| && ch in j.stores[x].sent && ch < |j.stores[x].requests|
    ensures k == j.stores[x].requests[ch].index
    ensures forall l :: 1 <= l <= k ==> Handed(j.c.applied, x, l)
  {
    hide Caught;
    assert PeerOK(j, x, log);
    assert SentOK(j.stores[x], ch, log);
    k := j.stores[x].requests[ch].index;
    HandedLess(j.c.applied, x, j.stores[x].high, k);
  }

  lemma AnswerIsLogged(j: System, x: nat, ch: nat, log: seq<Command>) returns (k: nat)
    requires SystemOK(j, log) && x < |j.stores| && Accepted(j.stores[x], ch)
    ensures k == j.stores[x].requests[ch].index && 1 <= k <= |log| && log[k - 1].Run?
    ensures log[k - 1].op.id == j.stores[x].requests[ch].op.id
  {
    hide Caught;
    assert PeerOK(j, x, log);
    assert SentOK(j.stores[x], ch, log);
    k := j.stores[x].requests[ch].index;
  }
}
