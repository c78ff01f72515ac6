/** The peer object of raft.go: its fields are updated in place by the handlers, and each
    handler is proved to be the step of `RaftNode` that the cluster model runs. */
module RaftServer {
  import opened Ops
  import opened RaftNode

  /** A message for the state machine. */
  datatype ApplyMsg = ApplyMsg(index: nat, cmd: Command)

  /** `x` is the first index of the run of equal terms that ends at `i`. */
  predicate FirstOfRun(log: seq<Entry>, i: nat, x: int) {
    i < |log| && 0 <= x <= i && (forall k :: x <= k <= i ==> log[k].term == log[i].term) &&
    (x > 0 ==> log[x - 1].term != log[i].term)
  }

  /** The log ends before `at`, or holds another term there. */
  predicate Conflict(log: seq<Entry>, at: nat, term: nat) {
    at == |log| || (at < |log| && log[at].term != term)
  }

  /** The log up to the first conflict, and the entries from there on. */
  ghost predicate FromConflict(log: seq<Entry>, prev: nat, entries: seq<Entry>, after: seq<Entry>) {
    exists i :: 0 <= i < |entries| && ConflictAt(log, prev, entries, after, i)
  }

  ghost predicate ConflictAt(log: seq<Entry>, prev: nat, entries: seq<Entry>, after: seq<Entry>, i: nat)
    requires i < |entries|
  {
    Conflict(log, prev + 1 + i, entries[i].term) && after == log[..prev + 1 + i] + entries[i..] &&
    forall k :: 0 <= k < i ==> log[prev + 1 + k].term == entries[k].term
  }

  lemma IsFromConflict(log: seq<Entry>, prev: nat, entries: seq<Entry>, after: seq<Entry>, i: nat)
    requires i < |entries| && ConflictAt(log, prev, entries, after, i)
    ensures FromConflict(log, prev, entries, after) && after != log
  {
    assert after[prev + 1 + i] == entries[i];
  }

  /** What AppendEntries makes of `n`, and answers. A stale term is refused, with the follower's own.
      Any other makes a follower of that term; it accepts exactly when it has the preceding entry,
      and then raises its commit index to what the leader has committed of what was sent. A refusal
      tells the length of a log that is too short, or the conflicting term and the first index of its
      run. Changes of term, vote or log are on disk. */
  ghost predicate Appending(n: Node, args: AppendArgs, y: Node, reply: AppendReply) {
    var last := args.prevIndex + |args.entries|;
    if args.term < n.term then y == n && reply == AppendReply(n.term, false, 0, 0, 0)
    else
      reply.term == args.term &&
      (reply.success <==> args.prevIndex < |n.log| && n.log[args.prevIndex].term == args.prevTerm) &&
      y == n.(term := args.term, role := Follower, vote := if args.term > n.term then -1 else n.vote, log := y.log,
              commit := if !reply.success || args.leaderCommit <= n.commit then n.commit
                        else if args.leaderCommit < last then args.leaderCommit else last,
              disk := if args.term > n.term || y.log != n.log then Some(Persisted(y.term, y.vote, y.log)) else n.disk) &&
      (!reply.success ==> y.log == n.log) &&
      (args.prevIndex >= |n.log| ==> reply.xTerm == -1 && reply.xIndex == -1 && reply.xLen == |n.log|) &&
      (args.prevIndex < |n.log| && !reply.success ==>
         reply.xTerm == n.log[args.prevIndex].term && FirstOfRun(n.log, args.prevIndex, reply.xIndex)) &&
      (reply.success ==>
         if y.log != n.log then FromConflict(n.log, args.prevIndex, args.entries, y.log)
         else last < |n.log| && forall i :: 0 <= i < |args.entries| ==>
                                  n.log[args.prevIndex + 1 + i].term == args.entries[i].term)
  }

  lemma AppendingIs(n: Node, args: AppendArgs)
    ensures Appending(n, args, RaftNode.AppendEntries(n, args).0, RaftNode.AppendEntries(n, args).1)
  {
    hide FromConflict, Merged, Agreeing;
    if args.prevIndex < |n.log| {
      MergedMeans(n.log, args.prevIndex, args.entries);
    }
  }

  /** Either every entry agrees and the log stays, or the entries from the first conflict on replace
      what was there. */
  lemma MergedMeans(log: Log, prev: nat, entries: seq<Entry>)
    requires prev < |log|
    ensures var k, r := Agreeing(log, prev + 1, entries), Merged(log, prev, entries);
            if k == |entries| then
              r == log && |log| >= prev + |entries| + 1 &&
              forall i :: 0 <= i < |entries| ==> log[prev + 1 + i].term == entries[i].term
            else r != log && FromConflict(log, prev, entries, r)
  {
    hide FromConflict;
    var k := Agreeing(log, prev + 1, entries);
    AgreeingSpec(log, prev + 1, entries);
    forall i | 0 <= i < k
      ensures log[prev + 1 + i].term == entries[i].term
    {
      assert prev + 1 <= prev + 1 + i < prev + 1 + k;
    }
    if k < |entries| {
      if prev + 1 + k == |log| {
        assert log[..prev + 1 + k] == log;
      }
      assert Merged(log, prev, entries) == log[..prev + 1 + k] + entries[k..];
      IsFromConflict(log, prev, entries, Merged(log, prev, entries), k);
    }
  }

  class Raft {
    const me: nat
    const nextIndex: array<nat>
    const matchIndex: array<nat>
    var currentTerm: nat
    var votedFor: int
    var state: Role
    var log: Log
    var commitIndex: nat
    var lastApplied: nat
    var votecount: nat
    var persister: Option<Persisted>

    ghost predicate Valid()
      reads this, nextIndex, matchIndex
    {
      nextIndex != matchIndex && nextIndex.Length == matchIndex.Length && me < nextIndex.Length
    }

    ghost function Value(): Node
      reads this, nextIndex, matchIndex
    {
      Node(currentTerm, votedFor, state, log, commitIndex, lastApplied,
           nextIndex[..], matchIndex[..], votecount, persister)
    }

    /** Log, commit and apply index and the leader's arrays are as in `n`. */
    ghost predicate Unmoved(n: Node)
      reads this, nextIndex, matchIndex
    {
      log == n.log && commitIndex == n.commit && lastApplied == n.applied && nextIndex[..] == n.next && matchIndex[..] == n.matched
    }

    /** A follower of the higher term `t`, with no vote yet, on disk; otherwise as in `n`. */
    ghost predicate SteppedDown(n: Node, t: nat)
      reads this, nextIndex, matchIndex
    {
      currentTerm == t && state == Follower && votedFor == -1 && votecount == n.votes &&
      persister == Some(Persisted(t, -1, log)) && Unmoved(n)
    }

    /** Where a rejection sends `nextIndex`: past the leader's last entry of the conflicting term if
        it has one, else to the first index of that term in the follower's log, else to the end of
        that log; never below 1. */
    ghost predicate BacksUp(reply: AppendReply, next: nat)
      reads this
    {
      var last := LastOfTerm(log, reply.xTerm, |log| - 1);
      var to := if reply.xTerm == -1 then reply.xLen else if last == -1 then reply.xIndex else last + 1;
      next == if to < 1 then 1 else to
    }

    /** `Make` and `readPersist`: a peer as it starts, or restarts after a crash. */
    constructor (me: nat, peers: nat, persister: Option<Persisted>)
      requires me < peers
      ensures Valid() && this.me == me && fresh(nextIndex) && fresh(matchIndex)
      ensures Value() == Boot(peers, persister)
      ensures state == Follower && commitIndex == 0 && lastApplied == 0 && this.persister == persister
      ensures persister.Some? ==> Persisted(currentTerm, votedFor, log) == persister.value
      ensures persister.None? ==> currentTerm == 0 && votedFor == -1 && log == [Entry(0, Nil)]
      ensures forall i :: 0 <= i < peers ==> nextIndex[i] == 0 && matchIndex[i] == 0
    {
      this.me := me;
      nextIndex := new nat[peers](_ => 0);
      matchIndex := new nat[peers](_ => 0);
      currentTerm, votedFor, state := 0, NoVote, Follower;
      log := [Sentinel];
      commitIndex, lastApplied, votecount := 0, 0, 0;
      this.persister := persister;
      new;
      if persister.Some? {
        currentTerm := persister.value.term;
        votedFor := persister.value.vote;
        log := persister.value.log;
      }
      assert nextIndex[..] == Zeros(peers) && matchIndex[..] == Zeros(peers);
    }

    method Persist()
      modifies this`persister
      ensures Value() == old(Value()).Persist() && persister == Some(Persisted(currentTerm, votedFor, log))
    {
      persister := Some(Persisted(currentTerm, votedFor, log));
    }

    method StartElection() returns (args: VoteArgs)
      requires Valid()
      modifies this
      ensures Valid() && Value() == RaftNode.StartElection(old(Value()), me)
      ensures args == VoteRequest(Value(), me)
      ensures currentTerm == old(currentTerm) + 1 && state == Candidate && votedFor == me && votecount == 1
      ensures persister == Some(Persisted(currentTerm, votedFor, log)) && Unmoved(old(Value()))
      ensures args == VoteArgs(currentTerm, me, |log| - 1, log[|log| - 1].term)
    {
      currentTerm := currentTerm + 1;
      state := Candidate;
      votedFor := me;
      Persist();
      args := VoteArgs(currentTerm, me, |log| - 1, log[|log| - 1].term);
      votecount := 1;
    }

    method RequestVote(args: VoteArgs) returns (reply: VoteReply)
      requires Valid()
      modifies this
      ensures Valid() && (Value(), reply) == RaftNode.RequestVote(old(Value()), args)
      ensures reply.granted <==>
                args.term >= old(currentTerm) &&
                (args.term > old(currentTerm) || old(votedFor) == -1 || old(votedFor) == args.cand) &&
                (args.lastTerm > log[|log| - 1].term ||
                 (args.lastTerm == log[|log| - 1].term && args.lastIndex >= |log| - 1))
      ensures reply.term == currentTerm == if args.term > old(currentTerm) then args.term else old(currentTerm)
      ensures votedFor == if reply.granted then args.cand else if args.term > old(currentTerm) then -1 else old(votedFor)
      ensures state == if args.term > old(currentTerm) then Follower else old(state)
      ensures persister == if reply.granted || args.term > old(currentTerm) then Some(Persisted(currentTerm, votedFor, log))
                           else old(persister)
      ensures votecount == old(votecount) && Unmoved(old(Value()))
    {
      if args.term < currentTerm {
        return VoteReply(currentTerm, false);
      }
      if args.term > currentTerm {
        currentTerm := args.term;
        state := Follower;
        votedFor := NoVote;
        Persist();
      }
      var lastLogIndex := |log| - 1;
      var lastLogTerm := log[lastLogIndex].term;
      var upToDate := false;
      if args.lastTerm > lastLogTerm {
        upToDate := true;
      } else if args.lastTerm == lastLogTerm && args.lastIndex >= lastLogIndex {
        upToDate := true;
      }
      if !upToDate {
        return VoteReply(currentTerm, false);
      }
      if votedFor == NoVote || votedFor == args.cand {
        votedFor := args.cand;
        reply := VoteReply(currentTerm, true);
        Persist();
        return;
      }
      reply := VoteReply(currentTerm, false);
    }

    /** The goroutine of `startElection` when a reply arrives. Winning refills `nextIndex` and,
        as in the code, leaves `matchIndex` alone. */
    method ReceiveVote(argsTerm: nat, reply: VoteReply)
      requires Valid()
      modifies this, nextIndex
      ensures Valid() && Value() == RaftNode.ReceiveVote(old(Value()), argsTerm, reply, false)
      ensures var asked := old(state) == Candidate && old(currentTerm) == argsTerm;
              if !asked then Value() == old(Value())
              else if reply.term > argsTerm then SteppedDown(old(Value()), reply.term)
              else if !reply.granted then Value() == old(Value())
              else
                votecount == old(votecount) + 1 && currentTerm == old(currentTerm) && votedFor == old(votedFor) &&
                log == old(log) && commitIndex == old(commitIndex) && lastApplied == old(lastApplied) &&
                persister == old(persister) && matchIndex[..] == old(matchIndex[..]) &&
                (state == Leader <==> 2 * votecount >= nextIndex.Length + 1) && (state == Leader || state == Candidate) &&
                forall p :: 0 <= p < nextIndex.Length ==> nextIndex[p] == if state == Leader then |log| else old(nextIndex[p])
    {
      if state != Candidate || currentTerm != argsTerm {
        return;
      }
      if reply.term > currentTerm {
        currentTerm := reply.term;
        state := Follower;
        votedFor := NoVote;
        Persist();
        return;
      }
      if reply.granted {
        votecount := votecount + 1;
        if votecount > nextIndex.Length / 2 {
          if state == Candidate {
            state := Leader;
            for i := 0 to nextIndex.Length
              modifies nextIndex
              invariant forall k :: 0 <= k < i ==> nextIndex[k] == |log|
            {
              nextIndex[i] := |log|;
            }
            assert nextIndex[..] == All(nextIndex.Length, |log|);
          }
        }
      }
    }

    method Start(cmd: Command) returns (index: int, term: int, isLeader: bool)
      requires Valid()
      modifies this
      ensures Valid() && Value() == ClientStart(old(Value()), cmd)
      ensures isLeader <==> old(state) == Leader
      ensures isLeader ==>
                index == |old(log)| && term == currentTerm && index < |log| && log[index] == Entry(currentTerm, cmd)
      ensures !isLeader ==> index == -1 && term == -1 && Value() == old(Value())
      ensures isLeader ==>
                log == old(log) + [Entry(currentTerm, cmd)] && currentTerm == old(currentTerm) && votedFor == old(votedFor) &&
                persister == Some(Persisted(currentTerm, votedFor, log)) && state == Leader &&
                commitIndex == old(commitIndex) && lastApplied == old(lastApplied) && votecount == old(votecount) &&
                nextIndex[..] == old(nextIndex[..]) && matchIndex[..] == old(matchIndex[..])
    {
      isLeader := state == Leader;
      if !isLeader {
        return -1, -1, false;
      }
      log := log + [Entry(currentTerm, cmd)];
      Persist();
      index := |log| - 1;
      term := currentTerm;
    }

    /** The heartbeat for one peer. */
    method BuildAppend(peer: nat) returns (args: AppendArgs)
      requires Valid() && peer < nextIndex.Length && 1 <= nextIndex[peer] <= |log|
      ensures args == MakeAppend(Value(), me, peer)
      ensures args.term == currentTerm && args.leader == me && args.leaderCommit == commitIndex
      ensures args.prevIndex == nextIndex[peer] - 1 && args.prevTerm == log[args.prevIndex].term
      ensures args.entries == log[nextIndex[peer]..]
    {
      var entries := log[nextIndex[peer]..];
      args := AppendArgs(currentTerm, me, nextIndex[peer] - 1, log[nextIndex[peer] - 1].term, entries, commitIndex);
    }

    method AppendEntries(args: AppendArgs) returns (reply: AppendReply)
      requires Valid()
      modifies this
      ensures Valid() && (Value(), reply) == RaftNode.AppendEntries(old(Value()), args)
      ensures Appending(old(Value()), args, Value(), reply)
    {
      AppendingIs(Value(), args);
      hide Merged, Agreeing, RunStart, FirstOfRun, FromConflict, Appending;
      if args.term < currentTerm {
        return AppendReply(currentTerm, false, 0, 0, 0);
      }
      var needPersist := false;
      if args.term > currentTerm {
        currentTerm := args.term;
        votedFor := NoVote;
        needPersist := true;
      }
      state := Follower;
      var lastLogIndex := |log| - 1;
      if lastLogIndex < args.prevIndex {
        reply := AppendReply(currentTerm, false, -1, -1, |log|);
        if needPersist { Persist(); }
        return;
      }
      if log[args.prevIndex].term != args.prevTerm {
        var xIndex := RunStartOf(args.prevIndex);
        reply := AppendReply(currentTerm, false, log[args.prevIndex].term, xIndex, 0);
        if needPersist { Persist(); }
        return;
      }
      reply := AppendReply(currentTerm, true, 0, 0, 0);
      var changed := MergeEntries(args.prevIndex, args.entries);
      needPersist := needPersist || changed;
      if args.leaderCommit > commitIndex {
        var lastNewEntryIndex := args.prevIndex + |args.entries|;
        commitIndex := if args.leaderCommit < lastNewEntryIndex then args.leaderCommit else lastNewEntryIndex;
      }
      if needPersist { Persist(); }
    }

    /** The scan back to the first entry of the conflicting term. */
    method RunStartOf(prev: nat) returns (x: nat)
      requires prev < |log|
      ensures x == RunStart(log, prev) && FirstOfRun(log, prev, x)
    {
      x := prev;
      while x > 0 && log[x - 1].term == log[prev].term
        invariant x <= prev && log[x].term == log[prev].term
        invariant RunStart(log, x) == RunStart(log, prev)
      {
        x := x - 1;
      }
    }

    /** The loop over the new entries: truncate and append at the first conflict. */
    method MergeEntries(prev: nat, entries: seq<Entry>) returns (changed: bool)
      requires prev < |log|
      modifies this`log
      ensures log == Merged(old(log), prev, entries)
      ensures changed <==> Agreeing(old(log), prev + 1, entries) < |entries|
      ensures changed <==> log != old(log)
      ensures !changed ==> forall i :: 0 <= i < |entries| ==>
                             prev + 1 + i < |log| && log[prev + 1 + i].term == entries[i].term
      ensures changed ==> FromConflict(old(log), prev, entries, log)
    {
      hide FromConflict;
      changed := false;
      for i := 0 to |entries|
        invariant log == old(log) && !changed
        invariant Agreeing(log, prev + 1, entries) == i + Agreeing(log, prev + 1 + i, entries[i..])
        invariant prev + i < |log| && forall k :: 0 <= k < i ==> log[prev + 1 + k].term == entries[k].term
      {
        var logIndex := prev + 1 + i;
        if logIndex >= |log| || log[logIndex].term != entries[i].term {
          if logIndex == |log| {
            assert log[..logIndex] == log;
          }
          log := log[..logIndex] + entries[i..];
          IsFromConflict(old(log), prev, entries, log, i);
          changed := true;
          break;
        }
        assert entries[i..][1..] == entries[i + 1..];
      }
    }

    /** The leader's handling of one AppendEntries reply: step down, advance and scan for a
        commit, or back up. */
    method ReceiveAppend(peer: nat, args: AppendArgs, reply: AppendReply)
      requires Valid() && peer < nextIndex.Length
      modifies this, nextIndex, matchIndex
      ensures Valid() && Value() == RaftNode.ReceiveAppend(old(Value()), me, peer, args, reply)
      ensures var asked := old(state) == Leader && old(currentTerm) == args.term;
              if !asked then Value() == old(Value())
              else if reply.term > args.term then SteppedDown(old(Value()), reply.term)
              else
                state == Leader && currentTerm == old(currentTerm) && votedFor == old(votedFor) && log == old(log) &&
                lastApplied == old(lastApplied) && votecount == old(votecount) && persister == old(persister) &&
                forall q :: 0 <= q < nextIndex.Length && q != peer ==>
                  nextIndex[q] == old(nextIndex[q]) && matchIndex[q] == old(matchIndex[q])
      ensures old(state) == Leader && old(currentTerm) == args.term && reply.term <= args.term ==>
                var last := args.prevIndex + |args.entries|;
                if reply.success then
                  nextIndex[peer] == (if last + 1 > old(nextIndex[peer]) then last + 1 else old(nextIndex[peer])) &&
                  matchIndex[peer] == (if last > old(matchIndex[peer]) then last else old(matchIndex[peer])) &&
                  commitIndex >= old(commitIndex)
                else matchIndex[peer] == old(matchIndex[peer]) && commitIndex == old(commitIndex) && BacksUp(reply, nextIndex[peer])
    {
      hide CommitScan, LastOfTerm, Majority, Counted;
      if state != Leader || currentTerm != args.term {
        return;
      }
      if reply.term > currentTerm {
        currentTerm := reply.term;
        state := Follower;
        votedFor := NoVote;
        Persist();
        return;
      }
      if reply.success {
        var newNext := args.prevIndex + |args.entries| + 1;
        var newMatch := args.prevIndex + |args.entries|;
        if newNext > nextIndex[peer] {
          nextIndex[peer] := newNext;
        }
        if newMatch > matchIndex[peer] {
          matchIndex[peer] := newMatch;
        }
        AdvanceCommit();
      } else {
        var next: int;
        if reply.xTerm != -1 {
          var last := FindLast(reply.xTerm);
          next := if last != -1 then last + 1 else reply.xIndex;
        } else {
          next := reply.xLen;
        }
        nextIndex[peer] := if next < 1 then 1 else next;
      }
    }

    /** The scan for the greatest index that a majority matches. */
    method AdvanceCommit()
      requires Valid()
      modifies this`commitIndex
      ensures Value() == old(Value()).(commit := CommitScan(old(Value()), me, |log| - 1))
    {
      ghost var n := Value();
      var k := |log| - 1;
      while k > commitIndex
        invariant 0 <= k < |log| && commitIndex == n.commit && Value() == n
        invariant CommitScan(n, me, k) == CommitScan(n, me, |log| - 1)
      {
        var count := CountMatches(k);
        if count > nextIndex.Length / 2 {
          commitIndex := k;
          return;
        }
        k := k - 1;
      }
    }

    method CountMatches(k: nat) returns (count: nat)
      requires Valid() && k < |log|
      ensures count == 1 + |Counted(Value(), me, k)|
    {
      count := 1;
      ghost var seen: set<nat> := {};
      for j := 0 to matchIndex.Length
        invariant seen == set i: nat | i < j && i != me && matchIndex[i] >= k && log[k].term == currentTerm
        invariant count == 1 + |seen|
      {
        if j != me && matchIndex[j] >= k && log[k].term == currentTerm {
          count := count + 1;
          seen := seen + {j};
        }
      }
      assert seen == Counted(Value(), me, k);
    }

    /** The last index of the leader's log with the given term, or -1. */
    method FindLast(term: int) returns (r: int)
      ensures r == LastOfTerm(log, term, |log| - 1)
    {
      var i := |log| - 1;
      while i > 0
        invariant 0 <= i < |log|
        invariant LastOfTerm(log, term, i) == LastOfTerm(log, term, |log| - 1)
      {
        if log[i].term == term {
          return i;
        }
        i := i - 1;
      }
      r := -1;
    }

    /** One round of the apply loop: every committed entry not yet applied, in index order. */
    method TakeCommitted() returns (msgs: seq<ApplyMsg>)
      requires Valid() && commitIndex < |log|
      modifies this`lastApplied
      ensures Value() == old(Value()).(applied := if commitIndex > old(lastApplied) then commitIndex else old(lastApplied))
      ensures |msgs| == lastApplied - old(lastApplied)
      ensures forall i :: 0 <= i < |msgs| ==>
                old(lastApplied) + 1 + i < |log| &&
                msgs[i] == ApplyMsg(old(lastApplied) + 1 + i, log[old(lastApplied) + 1 + i].cmd)
    {
      msgs := [];
      while commitIndex > lastApplied
        invariant old(lastApplied) <= lastApplied && |msgs| == lastApplied - old(lastApplied)
        invariant lastApplied == old(lastApplied) || lastApplied <= commitIndex
        invariant forall i :: 0 <= i < |msgs| ==>
                    old(lastApplied) + 1 + i <= lastApplied &&
                    old(lastApplied) + 1 + i < |log| &&
                    msgs[i] == ApplyMsg(old(lastApplied) + 1 + i, log[old(lastApplied) + 1 + i].cmd)
      {
        lastApplied := lastApplied + 1;
        msgs := msgs + [ApplyMsg(lastApplied, log[lastApplied].cmd)];
      }
    }
  }
}
