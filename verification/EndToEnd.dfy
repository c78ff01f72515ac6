/** The system down to its files: under every store runs a storage engine, whose flushes,
    compactions, crashes and reopenings come between the moves of the system. What the clients
    are told is what the engines read. */
module EndToEnd {
  import opened Ops
  import opened Wal
  import opened RaftCluster
  import opened RaftApplied
  import opened Store
  import opened Linear
  import Engine
  import EngineSafety
  import History

  /** `runs[x]` is all that the engine of peer `x` has done, in all its lives. */
  datatype Whole = Whole(j: System, runs: seq<seq<Engine.Step>>)

  /** A move of the system; a step of one engine that neither logs nor crashes; a crash that cuts
      short the log append of the turn that peer `x` is taking. */
  datatype Event =
    | Outside(move: Move)
    | Inside(x: nat, step: Engine.Step)
    | Torn(x: nat, op: Op, kept: nat)

  /** An engine has done `run`, of whose compactions none was harmful, and logged `logged`. */
  ghost predicate Backs(run: seq<Engine.Step>, logged: seq<Rec>) {
    Engine.After(run).Some? && Engine.CompactionsHarmless(run) && Engine.LoggedOps(run) == logged
  }

  ghost predicate Backed(w: Whole) {
    Formed(w.j) && |w.runs| == |w.j.stores| &&
    forall x {:trigger w.runs[x]} :: 0 <= x < |w.runs| ==> Backs(w.runs[x], w.j.stores[x].logged)
  }

  ghost function EngineOf(w: Whole, x: nat): Engine.State
    requires Backed(w) && x < |w.runs|
  {
    Engine.After(w.runs[x]).value
  }

  /** The store can take the operation: its engine runs, and can log what there is to log. */
  ghost predicate CanTake(s: Engine.State, op: Op) {
    s.Running? && forall r :: r in RecsOf(Run(op)) ==> Engine.Enabled(s, Engine.Log(r))
  }

  function Logging(op: Op): seq<Engine.Step> {
    var rs := RecsOf(Run(op));
    if rs == [] then [] else [Engine.Log(rs[0])]
  }

  function Answer(s: Engine.State, op: Op): OpResult
    requires s.Running?
  {
    OpResult(op, if op.kind == GET then Engine.Get(s.disk, s.m, op.key) else None)
  }

  ghost predicate CanHappen(w: Whole, e: Event, reset: bool)
    requires Backed(w)
  {
    match e
    case Outside(Take(x, op)) => CanMove(w.j, Take(x, op), reset) && CanTake(EngineOf(w, x), op)
    case Outside(CrashInTurn(x, op)) => CanMove(w.j, CrashInTurn(x, op), reset) && CanTake(EngineOf(w, x), op)
    case Outside(m) => CanMove(w.j, m, reset)
    case Inside(x, step) =>
      x < |w.runs| && !step.Log? && !step.Crash? && !step.CrashTorn? &&
      Engine.Enabled(EngineOf(w, x), step) && Engine.HarmlessAt(EngineOf(w, x), step)
    case Torn(x, op, kept) =>
      CanMove(w.j, Raft(Restart(x)), reset) && IsNext(w.j, x, op) && Logging(op) != [] &&
      Engine.Enabled(EngineOf(w, x), Engine.CrashTorn(Logging(op)[0].rec, kept))
  }

  /** What the engines do: a turn logs, a restart of the peer is a crash of the engine, unless it had
      not begun to open. */
  ghost function RunsAfter(w: Whole, e: Event): seq<seq<Engine.Step>>
    requires Backed(w)
  {
    match e
    case Outside(Take(x, op)) => More(w.runs, x, Logging(op))
    case Outside(CrashInTurn(x, op)) => More(w.runs, x, Logging(op) + [Engine.Crash])
    case Outside(Raft(Restart(x))) =>
      if x < |w.runs| && EngineOf(w, x).Down? then w.runs else More(w.runs, x, [Engine.Crash])
    case Outside(_) => w.runs
    case Inside(x, step) => More(w.runs, x, [step])
    case Torn(x, op, kept) =>
      if Logging(op) == [] then w.runs else More(w.runs, x, [Engine.CrashTorn(Logging(op)[0].rec, kept)])
  }

  function More(runs: seq<seq<Engine.Step>>, x: nat, steps: seq<Engine.Step>): seq<seq<Engine.Step>> {
    if x < |runs| then runs[x := runs[x] + steps] else runs
  }

  function TakenFrom(j: System, x: nat, op: Op, s: Engine.State): System
    requires x < |j.stores| && s.Running?
  {
    j.(stores := j.stores[x := DeliverResult(j.stores[x], op, Answer(s, op))])
  }

  /** The system takes the event's move; in a turn of a store, the result is what the engine says. */
  ghost function SystemAfter(w: Whole, e: Event, reset: bool): System
    requires Backed(w) && CanHappen(w, e, reset)
  {
    match e
    case Outside(Take(x, op)) => TakenFrom(w.j, x, op, EngineOf(w, x))
    case Outside(m) => Moved(w.j, m, reset)
    case Inside(_, _) => w.j
    case Torn(x, _, _) => Moved(w.j, Raft(Restart(x)), reset)
  }

  ghost function Happened(w: Whole, e: Event, reset: bool): Whole
    requires Backed(w) && CanHappen(w, e, reset)
  {
    Whole(SystemAfter(w, e, reset), RunsAfter(w, e))
  }

  /** The move of the system that an event amounts to, if any. */
  function MoveOf(e: Event): Option<Move> {
    match e
    case Outside(m) => Some(m)
    case Inside(_, _) => None
    case Torn(x, _, _) => Some(Raft(Restart(x)))
  }

  function MovesOf(events: seq<Event>): seq<Move> {
    if events == [] then []
    else
      var n := |events| - 1;
      MovesOf(events[..n]) + if MoveOf(events[n]).Some? then [MoveOf(events[n]).value] else []
  }

  /** The whole that a run of `n` peers reaches, if every event was possible. Every event keeps it
      backed, so asking for that excludes nothing. */
  ghost function WholeReached(n: nat, events: seq<Event>, reset: bool): Option<Whole> {
    if events == [] then (if n >= 2 then Some(Whole(InitSystem(n), seq(n, _ => []))) else None)
    else
      var before := WholeReached(n, events[..|events| - 1], reset);
      var e := events[|events| - 1];
      if before.Some? && Backed(before.value) && CanHappen(before.value, e, reset)
      then Some(Happened(before.value, e, reset)) else None
  }

  // ------------------------------------------------------------------ one event

  lemma BacksMore(run: seq<Engine.Step>, logged: seq<Rec>, step: Engine.Step)
    requires Backs(run, logged) && Engine.Enabled(Engine.After(run).value, step)
    requires Engine.HarmlessAt(Engine.After(run).value, step)
    ensures Backs(run + [step], logged + if step.Log? then [step.rec] else [])
    ensures Engine.After(run + [step]) == Some(Engine.Do(Engine.After(run).value, step))
  {
    hide Engine.Enabled, Engine.Do, Engine.HarmlessAt, Engine.After, Engine.CompactionsHarmless, Engine.LoggedOps;
    EngineSafety.RunMore(run, step);
  }

  lemma BacksLogged(run: seq<Engine.Step>, logged: seq<Rec>, op: Op)
    requires Backs(run, logged) && CanTake(Engine.After(run).value, op)
    ensures Backs(run + Logging(op), logged + RecsOf(Run(op)))
    ensures Engine.After(run + Logging(op)).value.Running?
  {
    hide Backs, Engine.After, Engine.Enabled;
    if RecsOf(Run(op)) == [] {
      assert run + [] == run && logged + [] == logged;
    } else {
      assert RecsOf(Run(op))[0] in RecsOf(Run(op));
      BacksMore(run, logged, Logging(op)[0]);
    }
  }

  /** What the engine reads is what the value model of the store says. */
  lemma AnswerIsResult(run: seq<Engine.Step>, s: Store, op: Op)
    requires Backs(run, s.logged) && Engine.After(run).value.Running?
    ensures Answer(Engine.After(run).value, op) == Result(s, op)
  {
    hide Engine.After, Engine.CompactionsHarmless, Engine.LoggedOps, Engine.Get, History.PlainMap;
    if op.kind == GET {
      EngineSafety.GetRefinesPlainMap(run, op.key);
    }
  }

  /** One peer's run and store change, together with the cluster; the rest stays backed. */
  lemma BackedElsewhere(w: Whole, x: nat, v: Whole)
    requires Backed(w) && x < |w.runs| && Formed(v.j) && |v.runs| == |w.runs| == |v.j.stores|
    requires forall y :: 0 <= y < |w.runs| && y != x ==> v.runs[y] == w.runs[y] && v.j.stores[y].logged == w.j.stores[y].logged
    requires Backs(v.runs[x], v.j.stores[x].logged)
    ensures Backed(v)
  {
    hide Backs;
    forall y {:trigger v.runs[y]} | 0 <= y < |v.runs|
      ensures Backs(v.runs[y], v.j.stores[y].logged)
    {
      assert Backs(w.runs[y], w.j.stores[y].logged);
    }
  }

  lemma TurnKeeps(w: Whole, x: nat, op: Op, reset: bool)
    requires Backed(w) && CanHappen(w, Outside(Take(x, op)), reset)
    ensures Backed(Happened(w, Outside(Take(x, op)), reset))
    ensures Happened(w, Outside(Take(x, op)), reset).j == Moved(w.j, Take(x, op), reset)
  {
    hide Backs, CanTake, RecsOf, Engine.After, Answer, Result, Engine.Enabled;
    assert Backs(w.runs[x], w.j.stores[x].logged);
    UpToTake(EngineOf(w, x), op);
    AnswerIsResult(w.runs[x], w.j.stores[x], op);
    BacksLogged(w.runs[x], w.j.stores[x].logged, op);
    BackedElsewhere(w, x, Happened(w, Outside(Take(x, op)), reset));
  }

  lemma UpToTake(s: Engine.State, op: Op)
    requires CanTake(s, op)
    ensures s.Running?
  {
  }

  lemma CrashKeeps(w: Whole, x: nat, op: Op, reset: bool)
    requires Backed(w) && CanHappen(w, Outside(CrashInTurn(x, op)), reset)
    ensures Backed(Happened(w, Outside(CrashInTurn(x, op)), reset))
  {
    hide Backs, CanTake, RecsOf, Engine.After;
    var v := Happened(w, Outside(CrashInTurn(x, op)), reset);
    assert Backs(w.runs[x], w.j.stores[x].logged);
    FormedStays(w.j, CrashInTurn(x, op), reset);
    BacksLogged(w.runs[x], w.j.stores[x].logged, op);
    var logged := w.j.stores[x].logged + RecsOf(Run(op));
    BacksMore(w.runs[x] + Logging(op), logged, Engine.Crash);
    assert w.runs[x] + (Logging(op) + [Engine.Crash]) == w.runs[x] + Logging(op) + [Engine.Crash];
    assert logged + [] == logged;
    BackedElsewhere(w, x, v);
  }

  lemma RestartsKeep(w: Whole, x: nat, reset: bool)
    requires Backed(w) && CanHappen(w, Outside(Raft(Restart(x))), reset)
    ensures Backed(Happened(w, Outside(Raft(Restart(x))), reset))
  {
    hide Backs, Engine.After;
    var v := Happened(w, Outside(Raft(Restart(x))), reset);
    var logged := w.j.stores[x].logged;
    assert Backs(w.runs[x], logged);
    FormedStays(w.j, Raft(Restart(x)), reset);
    if !EngineOf(w, x).Down? {
      BacksMore(w.runs[x], logged, Engine.Crash);
      assert logged + [] == logged;
    }
    BackedElsewhere(w, x, v);
  }

  lemma TornKeeps(w: Whole, x: nat, op: Op, kept: nat, reset: bool)
    requires Backed(w) && CanHappen(w, Torn(x, op, kept), reset)
    ensures Backed(Happened(w, Torn(x, op, kept), reset))
  {
    hide Backs, Engine.After, Engine.Enabled, RecsOf;
    var v := Happened(w, Torn(x, op, kept), reset);
    var logged := w.j.stores[x].logged;
    assert Backs(w.runs[x], logged);
    FormedStays(w.j, Raft(Restart(x)), reset);
    BacksMore(w.runs[x], logged, Engine.CrashTorn(Logging(op)[0].rec, kept));
    assert logged + [] == logged;
    BackedElsewhere(w, x, v);
  }

  lemma InsideKeeps(w: Whole, x: nat, step: Engine.Step, reset: bool)
    requires Backed(w) && CanHappen(w, Inside(x, step), reset)
    ensures Backed(Happened(w, Inside(x, step), reset))
  {
    hide Backs, Engine.After, Engine.Enabled, Engine.HarmlessAt;
    var logged := w.j.stores[x].logged;
    assert Backs(w.runs[x], logged);
    BacksMore(w.runs[x], logged, step);
    assert logged + [] == logged;
    BackedElsewhere(w, x, Happened(w, Inside(x, step), reset));
  }

  /** Any other move of the system logs nothing. */
  lemma OtherKeeps(w: Whole, m: Move, reset: bool)
    requires Backed(w) && CanHappen(w, Outside(m), reset) && !m.Take? && !m.CrashInTurn? && !(m.Raft? && m.step.Restart?)
    ensures Backed(Happened(w, Outside(m), reset))
  {
    hide Backs, RaftCluster.Do, RaftCluster.Enabled;
    var v := Happened(w, Outside(m), reset);
    FormedStays(w.j, m, reset);
    forall y {:trigger v.runs[y]} | 0 <= y < |v.runs|
      ensures Backs(v.runs[y], v.j.stores[y].logged)
    {
      assert Backs(w.runs[y], w.j.stores[y].logged);
    }
  }

  lemma EventKeeps(w: Whole, e: Event, reset: bool)
    requires Backed(w) && CanHappen(w, e, reset)
    ensures Backed(Happened(w, e, reset))
    ensures var v := Happened(w, e, reset);
            if MoveOf(e).None? then v.j == w.j
            else CanMove(w.j, MoveOf(e).value, reset) && v.j == Moved(w.j, MoveOf(e).value, reset)
  {
    hide Backed, CanTake, Engine.Enabled, Engine.HarmlessAt;
    match e
    case Outside(Take(x, op)) => TurnKeeps(w, x, op, reset);
    case Outside(CrashInTurn(x, op)) => CrashKeeps(w, x, op, reset);
    case Outside(Raft(Restart(x))) => RestartsKeep(w, x, reset);
    case Outside(m) => OtherKeeps(w, m, reset);
    case Inside(x, step) => InsideKeeps(w, x, step, reset);
    case Torn(x, op, kept) => TornKeeps(w, x, op, kept, reset);
  }

  // -------------------------------------------------------------------- all runs

  /** Refinement: whatever the engines do underneath, the system goes through a run of `Linear`,
      and every engine has logged what its store's value says. */
  lemma {:induction false} WholeRefines(n: nat, events: seq<Event>, reset: bool)
    requires WholeReached(n, events, reset).Some?
    ensures var w := WholeReached(n, events, reset).value;
            Backed(w) && Reached(n, MovesOf(events), reset) == Some(w.j)
  {
    hide CanHappen, Happened, CanMove, Moved;
    if events == [] {
      StartsBacked(n);
    } else {
      var k := |events| - 1;
      WholeRefines(n, events[..k], reset);
      var w := WholeReached(n, events[..k], reset).value;
      EventKeeps(w, events[k], reset);
      if MoveOf(events[k]).Some? {
        var moves := MovesOf(events[..k]) + [MoveOf(events[k]).value];
        assert moves[..|moves| - 1] == MovesOf(events[..k]);
      } else {
        assert MovesOf(events[..k]) + [] == MovesOf(events[..k]);
      }
    }
  }

  lemma StartsBacked(n: nat)
    requires n >= 2
    ensures Backed(Whole(InitSystem(n), seq(n, _ => [])))
  {
    assert Engine.LoggedOps([]) == [] && Engine.After([]).Some? && Engine.CompactionsHarmless([]);
  }

  /** Linearised reads, down to the files: one log explains what every peer applied, and every read
      that an engine answered, with no error to its client, is the fold of the commands before
      the read's own index. */
  lemma WholeIsLinearised(n: nat, events: seq<Event>, reset: bool) returns (log: seq<Command>)
    requires WholeReached(n, events, reset).Some?
    ensures Explained(log, WholeReached(n, events, reset).value.j.c.applied)
    ensures forall x: nat, ch: nat {:trigger Accepted(WholeReached(n, events, reset).value.j.stores[x], ch)} ::
              var j := WholeReached(n, events, reset).value.j;
              x < |j.stores| && Accepted(j.stores[x], ch) && OwnId(j, j.stores[x].requests[ch].op) ==>
              AnsweredRight(j.stores[x], ch, log)
  {
    hide Reached, WholeReached, Explained, Backed, AnsweredRight, OwnId;
    WholeRefines(n, events, reset);
    log := LinearisedReads(n, MovesOf(events), reset);
    var j := WholeReached(n, events, reset).value.j;
    forall x: nat, ch: nat {:trigger Accepted(j.stores[x], ch)}
      | x < |j.stores| && Accepted(j.stores[x], ch) && OwnId(j, j.stores[x].requests[ch].op)
      ensures AnsweredRight(j.stores[x], ch, log)
    {
      assert Accepted(Reached(n, MovesOf(events), reset).value.stores[x], ch);
    }
  }

  /** Nothing applied is lost: whatever peer `x` was doing, reopening its disk shows exactly the
      effect of the commands its store took, in all its lives. */
  lemma WholeRecovers(n: nat, events: seq<Event>, reset: bool, x: nat, key: Bytes)
    requires WholeReached(n, events, reset).Some? && x < |WholeReached(n, events, reset).value.runs|
    requires var run := WholeReached(n, events, reset).value.runs[x];
             Engine.After(run).Some? ==> EngineSafety.Room(Engine.Opened(Engine.After(run).value.disk))
    ensures var w := WholeReached(n, events, reset).value;
            Engine.After(w.runs[x]).Some? && x < |w.j.stores| &&
            var disk := Engine.After(w.runs[x]).value.disk;
            var s := EngineSafety.BootUp(Engine.Booting(disk, Engine.Opened(disk)));
            s.Running? && Engine.Get(s.disk, s.m, key) == ReadOf(w.j.stores[x].logged, key)
  {
    hide WholeReached, Engine.After, Engine.CompactionsHarmless, Engine.LoggedOps, Engine.Get, EngineSafety.BootUp,
      EngineSafety.Room, Engine.Opened, History.PlainMap;
    var w := WholeReached(n, events, reset).value;
    WholeRefines(n, events, reset);
    assert Backs(w.runs[x], w.j.stores[x].logged);
    EngineSafety.CrashRecovery(w.runs[x], key);
  }
}
